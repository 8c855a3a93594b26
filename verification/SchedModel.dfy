/**
 The tick-driven processor simulator: processes, resources, and the FIFO, priority,
 priority-ceiling and priority-inheritance policies, as functions on states.

 A process is an index into `procs`. Its `link` is the list its list node is linked into.
 */
module SchedModel {
  import opened Collections

  const NR_RESOURCES: nat := 32
  const MAX_PRIO: nat := 64

  datatype Policy = Fifo | Prio | Pcp | Pip

  datatype Status = Ready | Running | Waiting | Exited

  datatype Link = InFork | InReady | InWait(r: nat) | Detached

  // A scheduled use of a resource. `left` counts down while it is held; `duration` is its
  // initial value.
  datatype Entry = Entry(id: nat, at: nat, duration: nat, left: nat)

  datatype Proc = Proc(pid: nat, status: Status, age: nat, lifespan: nat, prio: nat, prioOrig: nat, startsAt: nat,
                       want: seq<Entry>, held: seq<Entry>, link: Link)

  datatype State = State(procs: seq<Proc>, current: Option<nat>, ready: seq<nat>, forkq: seq<nat>,
                         owner: seq<Option<nat>>, waitq: seq<seq<nat>>, ticks: nat)

  predicate InRange(s: State) {
    && |s.owner| == |s.waitq| == NR_RESOURCES
    && (forall i :: 0 <= i < |s.ready| ==> s.ready[i] < |s.procs|)
    && (forall i :: 0 <= i < |s.forkq| ==> s.forkq[i] < |s.procs|)
    && (forall r, i :: 0 <= r < NR_RESOURCES && 0 <= i < |s.waitq[r]| ==> s.waitq[r][i] < |s.procs|)
    && (s.current.Some? ==> s.current.value < |s.procs|)
  }

  /* ---------- Forking ---------- */

  // Moves the process at position k of the fork queue to the end of the ready queue.
  function ForkAt(s: State, k: nat): State
    requires InRange(s) && k < |s.forkq|
  {
    var p := s.forkq[k];
    s.(forkq := Remove(s.forkq, k), ready := s.ready + [p], procs := s.procs[p := s.procs[p].(status := Ready, link := InReady)])
  }

  function ForkFrom(s: State, k: nat): State
    requires InRange(s) && k <= |s.forkq|
    decreases |s.forkq| - k
  {
    if k == |s.forkq| then s
    else if s.procs[s.forkq[k]].startsAt <= s.ticks then ForkFrom(ForkAt(s, k), k)
    else ForkFrom(s, k + 1)
  }

  /* ---------- Dispatching ---------- */

  predicate Stays(s: State)
    requires InRange(s)
  {
    s.current.Some? && s.procs[s.current.value].status != Waiting
    && s.procs[s.current.value].age < s.procs[s.current.value].lifespan
  }

  // The current process leaves the processor: to the end of the ready queue while it has
  // something left to do, to its exit when it is complete; a waiting one is queued already.
  function Leave(s: State): State
    requires InRange(s)
  {
    if s.current.None? then s
    else
      var c := s.current.value;
      var p := s.procs[c];
      if Stays(s) then
        s.(current := None, ready := s.ready + [c], procs := s.procs[c := p.(status := Ready, link := InReady)])
      else if p.age == p.lifespan then
        s.(current := None, procs := s.procs[c := p.(status := Exited)])
      else s.(current := None)
  }

  // The position of the earliest process of highest priority.
  function Top(procs: seq<Proc>, q: seq<nat>): (i: nat)
    requires q != [] && forall j :: 0 <= j < |q| ==> q[j] < |procs|
    ensures i < |q|
    ensures forall j :: 0 <= j < |q| ==> procs[q[j]].prio <= procs[q[i]].prio
    ensures forall j :: 0 <= j < i ==> procs[q[j]].prio < procs[q[i]].prio
  {
    if |q| == 1 then 0
    else
      var i := Top(procs, q[..|q| - 1]);
      if procs[q[|q| - 1]].prio > procs[q[i]].prio then |q| - 1 else i
  }

  // There is only one such position.
  lemma TopIsEarliest(procs: seq<Proc>, q: seq<nat>, i: nat)
    requires i < |q| && forall j :: 0 <= j < |q| ==> q[j] < |procs|
    requires forall j :: 0 <= j < |q| ==> procs[q[j]].prio <= procs[q[i]].prio
    requires forall j :: 0 <= j < i ==> procs[q[j]].prio < procs[q[i]].prio
    ensures Top(procs, q) == i
  {
  }

  function Pick(s: State, i: nat): State
    requires InRange(s) && i < |s.ready|
  {
    var p := s.ready[i];
    s.(current := Some(p), ready := Remove(s.ready, i), procs := s.procs[p := s.procs[p].(status := Running, link := Detached)])
  }

  lemma LeaveInRange(s: State)
    requires InRange(s)
    ensures InRange(Leave(s))
  {
  }

  // The position, in the ready queue the current process may have joined, of the next to run.
  function Selected(policy: Policy, s: State): (i: nat)
    requires InRange(s) && Leave(s).ready != []
    ensures i < |Leave(s).ready|
  {
    LeaveInRange(s);
    if policy == Fifo then (if Stays(s) then |s.ready| else 0) else Top(Leave(s).procs, Leave(s).ready)
  }

  function Dispatch(policy: Policy, s: State): State
    requires InRange(s)
  {
    LeaveInRange(s);
    if Leave(s).ready == [] then Leave(s) else Pick(Leave(s), Selected(policy, s))
  }

  /* ---------- Acquiring ---------- */

  predicate Inherits(policy: Policy) { policy == Pip }
  predicate Ceils(policy: Policy) { policy == Pcp }
  predicate ByPriority(policy: Policy) { policy == Pcp || policy == Pip }

  // Moves the want entry at position k, whose resource is free, to the held entries.
  function Grant(policy: Policy, s: State, k: nat): State
    requires InRange(s) && s.current.Some? && k < |s.procs[s.current.value].want|
    requires s.procs[s.current.value].want[k].id < NR_RESOURCES
  {
    var c := s.current.value;
    var p := s.procs[c];
    var e := p.want[k];
    s.(owner := s.owner[e.id := Some(c)],
       procs := s.procs[c := p.(prio := if Ceils(policy) then MAX_PRIO else p.prio,
                                want := Remove(p.want, k), held := p.held + [e])])
  }

  // Blocks the current process on resource r, which has an owner.
  function Block(policy: Policy, s: State, r: nat): State
    requires InRange(s) && s.current.Some? && r < NR_RESOURCES
    requires s.owner[r].Some? && s.owner[r].value < |s.procs|
  {
    var c := s.current.value;
    var procs1 := s.procs[c := s.procs[c].(status := Waiting, link := InWait(r))];
    var o := s.owner[r].value;
    var procs2 := if Inherits(policy) && procs1[o].prio < procs1[c].prio
                  then procs1[o := procs1[o].(prio := procs1[c].prio)] else procs1;
    s.(procs := procs2, waitq := s.waitq[r := s.waitq[r] + [c]])
  }

  ghost predicate EntryOk(e: Entry, lifespan: nat) {
    e.id < NR_RESOURCES && e.duration >= 1 && e.at + e.duration <= lifespan
  }

  predicate OwnersInRange(s: State) {
    forall r :: 0 <= r < |s.owner| ==> s.owner[r].Some? ==> s.owner[r].value < |s.procs|
  }

  predicate WantsInRange(s: State, c: nat)
    requires c < |s.procs|
  {
    forall i :: 0 <= i < |s.procs[c].want| ==> s.procs[c].want[i].id < NR_RESOURCES
  }

  lemma GrantInRange(policy: Policy, s: State, k: nat)
    requires InRange(s) && s.current.Some? && k < |s.procs[s.current.value].want|
    requires OwnersInRange(s) && WantsInRange(s, s.current.value)
    ensures var s' := Grant(policy, s, k);
            InRange(s') && OwnersInRange(s') && WantsInRange(s', s.current.value)
  {
  }

  // Serves the current process's requests that are due, from position k on, until one blocks.
  function AcquireFrom(policy: Policy, s: State, k: nat): (r: (State, bool))
    requires InRange(s) && OwnersInRange(s) && s.current.Some? && WantsInRange(s, s.current.value)
    requires k <= |s.procs[s.current.value].want|
    decreases |s.procs[s.current.value].want| - k
  {
    var p := s.procs[s.current.value];
    if k == |p.want| then (s, true)
    else if p.want[k].at != p.age then AcquireFrom(policy, s, k + 1)
    else if s.owner[p.want[k].id].None? then
      GrantInRange(policy, s, k);
      AcquireFrom(policy, Grant(policy, s, k), k)
    else (Block(policy, s, p.want[k].id), false)
  }

  /* ---------- Releasing ---------- */

  // Wakes a waiter of resource r, if any: the first, or the first of highest priority.
  function Waken(policy: Policy, s: State, r: nat): State
    requires InRange(s) && r < NR_RESOURCES
  {
    var q := s.waitq[r];
    if q == [] then s
    else
      var i := if ByPriority(policy) then Top(s.procs, q) else 0;
      s.(waitq := s.waitq[r := Remove(q, i)], ready := s.ready + [q[i]],
         procs := s.procs[q[i] := s.procs[q[i]].(status := Ready, link := InReady)])
  }

  // Gives up the resource of the held entry at position k.
  function Drop(policy: Policy, s: State, k: nat): State
    requires InRange(s) && s.current.Some? && k < |s.procs[s.current.value].held|
    requires s.procs[s.current.value].held[k].id < NR_RESOURCES
  {
    var c := s.current.value;
    var p := s.procs[c];
    s.(owner := s.owner[p.held[k].id := None],
       procs := s.procs[c := p.(prio := if ByPriority(policy) then p.prioOrig else p.prio, held := Remove(p.held, k))])
  }

  function Release(policy: Policy, s: State, k: nat): State
    requires InRange(s) && s.current.Some? && k < |s.procs[s.current.value].held|
    requires s.procs[s.current.value].held[k].id < NR_RESOURCES
  {
    Waken(policy, Drop(policy, s, k), s.procs[s.current.value].held[k].id)
  }

  predicate HeldInRange(s: State, c: nat)
    requires c < |s.procs|
  {
    forall i :: 0 <= i < |s.procs[c].held| ==> s.procs[c].held[i].id < NR_RESOURCES
  }

  function CountDown(s: State, k: nat): State
    requires InRange(s) && s.current.Some? && k < |s.procs[s.current.value].held|
  {
    var c := s.current.value;
    var p := s.procs[c];
    var e := p.held[k];
    s.(procs := s.procs[c := p.(held := p.held[k := e.(left := if e.left > 0 then e.left - 1 else 0)])])
  }

  lemma ReleaseInRange(policy: Policy, s: State, k: nat)
    requires InRange(s) && s.current.Some? && k < |s.procs[s.current.value].held|
    requires HeldInRange(s, s.current.value)
    ensures var s' := Release(policy, s, k);
            && InRange(s') && s'.current == s.current && HeldInRange(s', s.current.value)
            && |s'.procs[s.current.value].held| == |s.procs[s.current.value].held| - 1
  {
  }

  // Counts down the held entries from position k on and releases those that run out.
  function ReleaseFrom(policy: Policy, s: State, k: nat): State
    requires InRange(s) && s.current.Some? && HeldInRange(s, s.current.value)
    requires k <= |s.procs[s.current.value].held|
    decreases |s.procs[s.current.value].held| - k
  {
    var c := s.current.value;
    if k == |s.procs[c].held| then s
    else
      var s1 := CountDown(s, k);
      if s1.procs[c].held[k].left == 0 then
        ReleaseInRange(policy, s1, k);
        ReleaseFrom(policy, Release(policy, s1, k), k)
      else ReleaseFrom(policy, s1, k + 1)
  }

  function Age(s: State): State
    requires InRange(s) && s.current.Some?
  {
    s.(procs := s.procs[s.current.value := s.procs[s.current.value].(age := s.procs[s.current.value].age + 1)])
  }
}
