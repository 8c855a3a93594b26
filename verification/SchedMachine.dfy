/**
 The simulator in its own form: process objects updated in place, and lists the callbacks of
 the policies and the framework's loops relink. Every method is proved to do exactly what the
 function it names in its contract does to the state.
 */
module SchedMachine {
  import opened Collections
  import opened SchedModel
  import opened SchedSafety
  import opened SchedProgress
  import opened SchedService
  import opened SchedTurn

  /* ---------- Parts of the steps ---------- */

  // The current process becomes the owner of resource r.
  function Take(policy: Policy, s: State, r: nat): State
    requires InRange(s) && s.current.Some? && r < NR_RESOURCES
  {
    var c := s.current.value;
    s.(owner := s.owner[r := Some(c)],
       procs := s.procs[c := s.procs[c].(prio := if Ceils(policy) then MAX_PRIO else s.procs[c].prio)])
  }

  // The request at position k becomes the last held entry.
  function MoveEntry(s: State, k: nat): State
    requires InRange(s) && s.current.Some? && k < |s.procs[s.current.value].want|
  {
    var c := s.current.value;
    var p := s.procs[c];
    s.(procs := s.procs[c := p.(want := Remove(p.want, k), held := p.held + [p.want[k]])])
  }

  // The three parts of blocking on resource r under priority inheritance.
  function MarkWaiting(s: State): State
    requires InRange(s) && s.current.Some?
  {
    s.(procs := s.procs[s.current.value := s.procs[s.current.value].(status := Waiting)])
  }

  function RaisePriority(s: State, r: nat): State
    requires InRange(s) && s.current.Some? && r < NR_RESOURCES && s.owner[r].Some? && s.owner[r].value < |s.procs|
  {
    var c, o := s.current.value, s.owner[r].value;
    if s.procs[o].prio < s.procs[c].prio then s.(procs := s.procs[o := s.procs[o].(prio := s.procs[c].prio)]) else s
  }

  function Enqueue(s: State, r: nat): State
    requires InRange(s) && s.current.Some? && r < NR_RESOURCES
  {
    var c := s.current.value;
    s.(procs := s.procs[c := s.procs[c].(link := InWait(r))], waitq := s.waitq[r := s.waitq[r] + [c]])
  }

  lemma BlockInParts(s: State, r: nat)
    requires InRange(s) && s.current.Some? && r < NR_RESOURCES && s.owner[r].Some? && s.owner[r].value < |s.procs|
    ensures InRange(RaisePriority(MarkWaiting(s), r))
    ensures Enqueue(RaisePriority(MarkWaiting(s), r), r) == Block(Pip, s, r)
  {
    assert Enqueue(RaisePriority(MarkWaiting(s), r), r).procs == Block(Pip, s, r).procs;
  }

  // Without inheritance there are two.
  lemma WaitInParts(policy: Policy, s: State, r: nat)
    requires InRange(s) && s.current.Some? && r < NR_RESOURCES && s.owner[r].Some? && s.owner[r].value < |s.procs| && policy != Pip
    ensures Enqueue(MarkWaiting(s), r) == Block(policy, s, r)
  {
    assert Enqueue(MarkWaiting(s), r).procs == Block(policy, s, r).procs;
  }

  // Resource r is given up, before the entry leaves the held ones.
  function Disown(policy: Policy, s: State, r: nat): State
    requires InRange(s) && s.current.Some? && r < NR_RESOURCES
  {
    var c := s.current.value;
    s.(owner := s.owner[r := None],
       procs := s.procs[c := s.procs[c].(prio := if ByPriority(policy) then s.procs[c].prioOrig else s.procs[c].prio)])
  }

  function RemoveHeld(s: State, k: nat): State
    requires InRange(s) && s.current.Some? && k < |s.procs[s.current.value].held|
  {
    var c := s.current.value;
    s.(procs := s.procs[c := s.procs[c].(held := Remove(s.procs[c].held, k))])
  }

  lemma GrantInParts(policy: Policy, s: State, k: nat)
    requires InRange(s) && s.current.Some? && k < |s.procs[s.current.value].want|
    requires s.procs[s.current.value].want[k].id < NR_RESOURCES
    ensures InRange(Take(policy, s, s.procs[s.current.value].want[k].id))
    ensures MoveEntry(Take(policy, s, s.procs[s.current.value].want[k].id), k) == Grant(policy, s, k)
  {
  }

  // The waiter at position i of resource r becomes ready.
  function WakenAt(s: State, r: nat, i: nat): State
    requires InRange(s) && r < NR_RESOURCES && i < |s.waitq[r]|
  {
    var w := s.waitq[r][i];
    s.(waitq := s.waitq[r := Remove(s.waitq[r], i)], ready := s.ready + [w],
       procs := s.procs[w := s.procs[w].(status := Ready, link := InReady)])
  }

  lemma WakenAtInParts(policy: Policy, s: State, k: nat, r: nat, i: nat)
    requires InRange(s) && s.current.Some? && k < |s.procs[s.current.value].held| && s.procs[s.current.value].held[k].id == r
    requires r < NR_RESOURCES && i < |s.waitq[r]| && s.waitq[r][i] != s.current.value
    ensures var s1 := WakenAt(Disown(policy, s, r), r, i);
            && InRange(s1) && s1.current == s.current && s1.procs[s.current.value].held == s.procs[s.current.value].held
            && RemoveHeld(s1, k) == WakenAt(Drop(policy, s, k), r, i)
  {
    assert RemoveHeld(WakenAt(Disown(policy, s, r), r, i), k).procs == WakenAt(Drop(policy, s, k), r, i).procs;
  }

  // Releasing wakes the waiter before the entry leaves the held ones; the order does not matter.
  lemma ReleaseInParts(policy: Policy, s: State, k: nat)
    requires InRange(s) && s.current.Some? && k < |s.procs[s.current.value].held|
    requires s.procs[s.current.value].held[k].id < NR_RESOURCES
    requires s.current.value !in s.waitq[s.procs[s.current.value].held[k].id]
    ensures var r := s.procs[s.current.value].held[k].id;
            var s1 := Waken(policy, Disown(policy, s, r), r);
            && InRange(s1) && s1.current == s.current && s1.procs[s.current.value].held == s.procs[s.current.value].held
            && RemoveHeld(s1, k) == Release(policy, s, k)
  {
    var c, r := s.current.value, s.procs[s.current.value].held[k].id;
    var q := s.waitq[r];
    if q != [] {
      forall j | 0 <= j < |q| ensures q[j] != c { assert q[j] in q; }
      ChosenSame(policy, s.procs, Disown(policy, s, r).procs, q);
      ChosenSame(policy, Disown(policy, s, r).procs, Drop(policy, s, k).procs, q);
      WakenAtInParts(policy, s, k, r, Chosen(policy, s.procs, q));
    }
  }

  predicate AgesFit(s: State) {
    forall p :: 0 <= p < |s.procs| ==> s.procs[p].age <= s.procs[p].lifespan
  }

  lemma InvAgesFit(s: State)
    requires Inv(s)
    ensures AgesFit(s)
  {
    forall p | 0 <= p < |s.procs| ensures s.procs[p].age <= s.procs[p].lifespan { assert PlaceOk(s.procs[p]); }
  }

  /* ---------- Objects ---------- */

  class Process {
    const pid: nat
    const lifespan: nat
    const prioOrig: nat
    const startsAt: nat
    var status: Status
    var age: nat
    var prio: nat
    var want: seq<Entry>
    var held: seq<Entry>

    constructor (pid: nat, lifespan: nat, prio: nat, startsAt: nat, want: seq<Entry>)
      ensures Is(Proc(pid, Ready, 0, lifespan, prio, prio, startsAt, want, [], InFork))
    {
      this.pid, this.lifespan, this.prioOrig, this.startsAt := pid, lifespan, prio, startsAt;
      this.status, this.age, this.prio, this.want, this.held := Ready, 0, prio, want, [];
    }

    // The object has the values of p; the list it is linked into is not its own.
    ghost predicate Is(p: Proc)
      reads this
    {
      && p.pid == pid && p.lifespan == lifespan && p.prioOrig == prioOrig && p.startsAt == startsAt
      && p.status == status && p.age == age && p.prio == prio && p.want == want && p.held == held
    }
  }

  class Scheduler {
    const policy: Policy
    const owner: array<Process?>
    const waitqueue: array<seq<Process>>
    var current: Process?
    var readyqueue: seq<Process>
    var forkqueue: seq<Process>
    var ticks: nat
    ghost const table: seq<Process>
    ghost var model: State

    // The objects are those of the processes listed.
    ghost predicate Objects(os: seq<Process>, ps: seq<nat>) {
      |os| == |ps| && forall j :: 0 <= j < |ps| ==> ps[j] < |table| && os[j] == table[ps[j]]
    }

    ghost predicate Tabled()
      reads this`model, table
    {
      && |table| == |model.procs|
      && (forall i, j :: 0 <= i < j < |table| ==> table[i] != table[j])
      && forall i :: 0 <= i < |table| ==> table[i].Is(model.procs[i])
    }

    ghost predicate Queued()
      reads this`model, this`forkqueue, waitqueue
    {
      && InRange(model) && waitqueue.Length == NR_RESOURCES
      && Objects(forkqueue, model.forkq)
      && forall r :: 0 <= r < NR_RESOURCES ==> Objects(waitqueue[r], model.waitq[r])
    }

    ghost predicate Owned()
      reads this`model, owner
    {
      && owner.Length == NR_RESOURCES && |model.owner| == NR_RESOURCES
      && forall r :: 0 <= r < NR_RESOURCES ==>
           if model.owner[r].None? then owner[r] == null
           else model.owner[r].value < |table| && owner[r] == table[model.owner[r].value]
    }

    ghost predicate CurrentIs(c: Option<nat>)
      reads this`current
    {
      if c.None? then current == null else c.value < |table| && current == table[c.value]
    }

    // Everything but the ready queue and the current process.
    ghost predicate Core()
      reads this`model, this`forkqueue, this`ticks, table, owner, waitqueue
    {
      Tabled() && Queued() && Owned() && ticks == model.ticks
    }

    // The objects hold the state `model`.
    ghost predicate Valid()
      reads this, table, owner, waitqueue
    {
      Core() && CurrentIs(model.current) && Objects(readyqueue, model.ready)
    }

    // All processes of a script wait to be forked.
    constructor (policy: Policy, processes: seq<Process>, ghost script: seq<Proc>)
      requires |processes| == |script| && forall i, j :: 0 <= i < j < |processes| ==> processes[i] != processes[j]
      requires forall i :: 0 <= i < |processes| ==> processes[i].Is(script[i])
      ensures Valid() && model == Start(script) && this.policy == policy && fresh(owner) && fresh(waitqueue) && table == processes
      ensures forkqueue == processes && readyqueue == [] && current == null && ticks == 0
      ensures forall r :: 0 <= r < NR_RESOURCES ==> owner[r] == null && waitqueue[r] == []
    {
      this.policy := policy;
      owner := new Process?[NR_RESOURCES](_ => null);
      waitqueue := new seq<Process>[NR_RESOURCES](_ => []);
      current, readyqueue, forkqueue, ticks := null, [], processes, 0;
      table, model := processes, Start(script);
    }

    /* ---------- Acquiring ---------- */

    method FcfsAcquire(r: nat) returns (ok: bool)
      requires Valid() && current != null && r < NR_RESOURCES && OwnersInRange(model) && (policy == Fifo || policy == Prio)
      modifies this`model, table, owner, waitqueue
      ensures Valid()
      ensures ok == old(model.owner[r]).None?
      ensures model == if ok then Take(policy, old(model), r) else Block(policy, old(model), r)
    {
      if owner[r] == null {
        owner[r] := current;
        model := Take(policy, model, r);
        return true;
      }
      WaitInParts(policy, model, r);
      StartWaiting();
      AppendCurrent(r);
      return false;
    }

    method PcpAcquire(r: nat) returns (ok: bool)
      requires Valid() && current != null && r < NR_RESOURCES && OwnersInRange(model) && policy == Pcp
      modifies this`model, table, owner, waitqueue
      ensures Valid()
      ensures ok == old(model.owner[r]).None?
      ensures model == if ok then Take(policy, old(model), r) else Block(policy, old(model), r)
    {
      if owner[r] == null {
        owner[r] := current;
        current.prio := MAX_PRIO;
        model := Take(policy, model, r);
        return true;
      }
      WaitInParts(policy, model, r);
      StartWaiting();
      AppendCurrent(r);
      return false;
    }

    method PipAcquire(r: nat) returns (ok: bool)
      requires Valid() && current != null && r < NR_RESOURCES && OwnersInRange(model) && policy == Pip
      modifies this`model, table, owner, waitqueue
      ensures Valid()
      ensures ok == old(model.owner[r]).None?
      ensures model == if ok then Take(policy, old(model), r) else Block(policy, old(model), r)
    {
      if owner[r] == null {
        owner[r] := current;
        model := Take(policy, model, r);
        return true;
      }
      BlockInParts(model, r);
      StartWaiting();
      RaiseOwner(r);
      AppendCurrent(r);
      return false;
    }

    method StartWaiting()
      requires Valid() && current != null
      modifies this`model, current
      ensures Valid() && model == MarkWaiting(old(model))
    {
      current.status := Waiting;
      model := MarkWaiting(model);
    }

    method AppendCurrent(r: nat)
      requires Valid() && current != null && r < NR_RESOURCES
      modifies this`model, waitqueue
      ensures Valid() && model == Enqueue(old(model), r)
    {
      waitqueue[r] := waitqueue[r] + [current];
      model := Enqueue(model, r);
    }

    // The owner inherits the current process's priority when that is higher.
    method RaiseOwner(r: nat)
      requires Valid() && current != null && r < NR_RESOURCES && OwnersInRange(model) && owner[r] != null
      modifies this`model, owner[r]
      ensures Valid() && model == RaisePriority(old(model), r)
    {
      if owner[r].prio < current.prio {
        owner[r].prio := current.prio;
      }
      model := RaisePriority(model, r);
    }

    method Acquire(r: nat) returns (ok: bool)
      requires Valid() && current != null && r < NR_RESOURCES && OwnersInRange(model)
      modifies this`model, table, owner, waitqueue
      ensures Valid()
      ensures ok == old(model.owner[r]).None?
      ensures model == if ok then Take(policy, old(model), r) else Block(policy, old(model), r)
    {
      match policy
      case Pcp => ok := PcpAcquire(r);
      case Pip => ok := PipAcquire(r);
      case _ => ok := FcfsAcquire(r);
    }

    // The resource taken moves from the requests to the held ones.
    method MoveToHolding(k: nat)
      requires Valid() && current != null && k < |current.want|
      modifies this`model, current
      ensures Valid() && model == MoveEntry(old(model), k)
    {
      var rs := current.want[k];
      current.want := Remove(current.want, k);
      current.held := current.held + [rs];
      model := MoveEntry(model, k);
    }

    // Serves the request at position k; false when it blocks.
    method ServeRequest(k: nat) returns (ok: bool)
      requires Valid() && current != null && OwnersInRange(model) && WantsInRange(model, model.current.value) && k < |current.want|
      modifies this`model, table, owner, waitqueue
      ensures Valid() && ok == old(model.owner[model.procs[model.current.value].want[k].id]).None?
      ensures model == if ok then Grant(policy, old(model), k)
                       else Block(policy, old(model), old(model.procs[model.current.value].want[k].id))
    {
      GrantInParts(policy, model, k);
      ok := Acquire(current.want[k].id);
      if ok { MoveToHolding(k); }
    }

    // False when a request blocks.
    method RunCurrentAcquire() returns (ok: bool)
      requires Valid() && current != null && OwnersInRange(model) && WantsInRange(model, model.current.value)
      modifies this`model, table, owner, waitqueue
      ensures Valid() && (model, ok) == AcquireFrom(policy, old(model), 0)
    {
      var k := 0;
      while k < |current.want|
        invariant Valid() && OwnersInRange(model) && WantsInRange(model, model.current.value)
        invariant k <= |current.want| && AcquireFrom(policy, old(model), 0) == AcquireFrom(policy, model, k)
        decreases |current.want| - k
      {
        if current.want[k].at == current.age {
          GrantInRange(policy, model, k);
          ok := ServeRequest(k);
          if !ok { return false; }
        } else {
          k := k + 1;
        }
      }
      return true;
    }

    /* ---------- Releasing ---------- */

    // The waiters of a resource wait, and the current process is not among them.
    static ghost predicate WaitersWait(s: State, r: nat)
      requires InRange(s) && r < NR_RESOURCES
    {
      forall j :: 0 <= j < |s.waitq[r]| ==> s.procs[s.waitq[r][j]].status == Waiting && s.current != Some(s.waitq[r][j])
    }

    method FcfsRelease(r: nat)
      requires Valid() && current != null && r < NR_RESOURCES && (policy == Fifo || policy == Prio)
      requires model.owner[r] == model.current && WaitersWait(model, r)
      modifies this`model, this`readyqueue, table, owner, waitqueue
      ensures Valid() && InRange(Disown(policy, old(model), r)) && model == Waken(policy, Disown(policy, old(model), r), r)
    {
      assert owner[r] == current;
      owner[r] := null;
      model := Disown(policy, model, r);
      if waitqueue[r] != [] {
        WakeAt(r, 0);
      }
    }

    // The waiter at position i becomes ready.
    method WakeAt(r: nat, i: nat)
      requires Valid() && r < NR_RESOURCES && i < |waitqueue[r]| && WaitersWait(model, r)
      modifies this`model, this`readyqueue, waitqueue[r][i], waitqueue
      ensures Valid() && model == WakenAt(old(model), r, i)
    {
      var waiter := waitqueue[r][i];
      ghost var w := model.waitq[r][i];
      assert waiter.status == Waiting;
      waitqueue[r] := Remove(waitqueue[r], i);
      readyqueue := readyqueue + [waiter];
      model := model.(waitq := model.waitq[r := Remove(model.waitq[r], i)], ready := model.ready + [w]);
      MakeReady(waiter, w);
    }

    // The process, just queued for it, is ready.
    method MakeReady(p: Process, ghost i: nat)
      requires Valid() && i < |model.procs| && p == table[i]
      modifies this`model, p
      ensures Valid() && model == old(model).(procs := old(model.procs)[i := old(model.procs[i]).(status := Ready, link := InReady)])
    {
      p.status := Ready;
      model := model.(procs := model.procs[i := model.procs[i].(status := Ready, link := InReady)]);
    }

    // The position of the earliest process of highest priority in a list.
    method HighestOf(os: seq<Process>, ghost ps: seq<nat>) returns (highest: nat)
      requires Tabled() && Objects(os, ps) && os != []
      ensures (forall j :: 0 <= j < |ps| ==> ps[j] < |model.procs|) && highest == Top(model.procs, ps)
    {
      highest := 0;
      var j := 0;
      while j < |os|
        invariant highest < |os| && j <= |os|
        invariant forall k :: 0 <= k < j ==> os[k].prio <= os[highest].prio
        invariant forall k :: 0 <= k < highest ==> os[k].prio < os[highest].prio
        invariant j == 0 ==> highest == 0
      {
        if os[j].prio > os[highest].prio {
          highest := j;
        }
        j := j + 1;
      }
      forall k | 0 <= k < |ps| ensures os[k].prio == model.procs[ps[k]].prio {
        assert table[ps[k]].Is(model.procs[ps[k]]);
      }
      TopIsEarliest(model.procs, ps, highest);
    }

    // The owner falls back to its original priority and gives the resource up.
    method GiveUp(r: nat)
      requires Valid() && current != null && r < NR_RESOURCES && (policy == Pcp || policy == Pip)
      requires model.owner[r] == model.current
      modifies this`model, current, owner
      ensures Valid() && model == Disown(policy, old(model), r)
    {
      assert owner[r] == current;
      owner[r].prio := owner[r].prioOrig;
      owner[r] := null;
      model := Disown(policy, model, r);
    }

    method PrioRelease(r: nat)
      requires Valid() && current != null && r < NR_RESOURCES && (policy == Pcp || policy == Pip)
      requires model.owner[r] == model.current && WaitersWait(model, r)
      modifies this`model, this`readyqueue, table, owner, waitqueue
      ensures Valid() && InRange(Disown(policy, old(model), r)) && model == Waken(policy, Disown(policy, old(model), r), r)
    {
      GiveUp(r);
      if waitqueue[r] != [] {
        var i := HighestOf(waitqueue[r], model.waitq[r]);
        WakeAt(r, i);
      }
    }

    method ReleaseResource(r: nat)
      requires Valid() && current != null && r < NR_RESOURCES
      requires model.owner[r] == model.current && WaitersWait(model, r)
      modifies this`model, this`readyqueue, table, owner, waitqueue
      ensures Valid() && InRange(Disown(policy, old(model), r)) && model == Waken(policy, Disown(policy, old(model), r), r)
    {
      if policy == Pcp || policy == Pip { PrioRelease(r); } else { FcfsRelease(r); }
    }

    method CountDownEntry(k: nat)
      requires Valid() && current != null && k < |current.held| && current.held[k].left >= 1
      modifies this`model, current
      ensures Valid() && model == CountDown(old(model), k)
    {
      var rs := current.held[k];
      current.held := current.held[k := rs.(left := rs.left - 1)];
      model := CountDown(model, k);
    }

    method RemoveHeldEntry(k: nat)
      requires Valid() && current != null && k < |current.held|
      modifies this`model, current
      ensures Valid() && model == RemoveHeld(old(model), k)
    {
      current.held := Remove(current.held, k);
      model := RemoveHeld(model, k);
    }

    method RunCurrentRelease()
      requires Valid() && Releasing(model, 0) && HeldInRange(model, model.current.value)
      modifies this`model, this`readyqueue, table, owner, waitqueue
      ensures Valid() && model == ReleaseFrom(policy, old(model), 0)
    {
      var k := 0;
      while k < |current.held|
        invariant Valid() && Releasing(model, k) && HeldInRange(model, model.current.value) && model.current == old(model.current)
        invariant ReleaseFrom(policy, old(model), 0) == ReleaseFrom(policy, model, k)
        decreases |current.held| - k
      {
        ghost var s := model;
        ReleaseStep(policy, s, k);
        HeldIsDue(s, k);
        CountDownEntry(k);
        ghost var s1 := model;
        if current.held[k].left == 0 {
          ReleaseInParts(policy, s1, k);
          ReleaseResource(current.held[k].id);
          RemoveHeldEntry(k);
        } else {
          k := k + 1;
        }
      }
    }

    /* ---------- Forking and dispatching ---------- */

    // The process at position k of the fork queue moves to the end of the ready queue.
    method ForkEntry(k: nat)
      requires Valid() && k < |forkqueue|
      modifies this`model, this`forkqueue, this`readyqueue, forkqueue[k]
      ensures Valid() && model == ForkAt(old(model), k)
    {
      var p := forkqueue[k];
      ghost var i := model.forkq[k];
      forkqueue := Remove(forkqueue, k);
      readyqueue := readyqueue + [p];
      model := model.(forkq := Remove(model.forkq, k), ready := model.ready + [i]);
      MakeReady(p, i);
    }

    method ForkOnSchedule()
      requires Valid()
      modifies this`model, this`forkqueue, this`readyqueue, table
      ensures Valid() && model == ForkFrom(old(model), 0)
    {
      var k := 0;
      while k < |forkqueue|
        invariant Valid() && k <= |forkqueue| && ForkFrom(old(model), 0) == ForkFrom(model, k)
        decreases |forkqueue| - k
      {
        assert forkqueue[k].Is(model.procs[model.forkq[k]]);
        if forkqueue[k].startsAt <= ticks {
          ForkEntry(k);
        } else {
          k := k + 1;
        }
      }
    }

    // The process chosen is taken out of the ready queue, where the running one may have joined.
    ghost predicate Scheduled(next: Process?)
      requires InRange(model)
      reads this
    {
      var q := Leave(model).ready;
      if q == [] then next == null && readyqueue == []
      else
        var i := Selected(policy, model);
        q[i] < |table| && next == table[q[i]] && Objects(readyqueue, Remove(q, i))
    }

    method FifoSchedule() returns (next: Process?)
      requires Valid() && policy == Fifo
      modifies this`readyqueue
      ensures Core() && Scheduled(next)
    {
      if current != null && current.status != Waiting {
        if current.age < current.lifespan {
          return current;
        }
      }
      next := null;
      if readyqueue != [] {
        next := readyqueue[0];
        readyqueue := readyqueue[1..];
      }
    }

    method TakeOut(i: nat, ghost ps: seq<nat>)
      requires Core() && Objects(readyqueue, ps) && i < |readyqueue|
      modifies this`readyqueue
      ensures Core() && Objects(readyqueue, Remove(ps, i))
    {
      readyqueue := Remove(readyqueue, i);
    }

    // Takes the earliest process of highest priority out of the ready queue, null if it is over.
    method TakeHighest() returns (highest: Process?)
      requires Core() && AgesFit(model) && policy != Fifo && readyqueue != [] && Objects(readyqueue, Leave(model).ready)
      modifies this`readyqueue
      ensures Core() && Scheduled(highest)
    {
      LeaveTop(model);
      var i := HighestOf(readyqueue, Leave(model).ready);
      highest := readyqueue[i];
      assert highest.Is(model.procs[Leave(model).ready[i]]) && Selected(policy, model) == i;
      if highest.age <= highest.lifespan {
        TakeOut(i, Leave(model).ready);
      } else {
        highest := null;
      }
    }

    method PrioSchedule() returns (next: Process?)
      requires Valid() && policy != Fifo && AgesFit(model)
      modifies this`readyqueue
      ensures Core() && Scheduled(next)
    {
      if current != null && current.status != Waiting {
        if readyqueue != [] {
          if current.age < current.lifespan {
            readyqueue := readyqueue + [current];
          }
          next := TakeHighest();
        } else if current.age < current.lifespan {
          next := current;
        } else {
          next := null;
        }
      } else if readyqueue != [] {
        next := TakeHighest();
      } else {
        next := null;
      }
    }

    method Schedule() returns (next: Process?)
      requires Valid() && AgesFit(model)
      modifies this`readyqueue
      ensures Core() && Scheduled(next)
    {
      if policy == Fifo { next := FifoSchedule(); } else { next := PrioSchedule(); }
    }

    // The process has exited, passing the checks made then: it is in no list, holds nothing, and
    // has nothing left to request.
    ghost predicate Finished(p: Process, at: Option<nat>)
      reads this`model, p
    {
      && p.status == Exited && p.held == [] && p.want == []
      && at.Some? && at.value < |model.procs| && model.procs[at.value].link == Detached
    }

    // The framework's part of leaving the processor: the previous process is ready again or exits.
    method StepDown(prev: Process?)
      requires Core() && MayLeave(model) && (if model.current.None? then prev == null else prev == table[model.current.value])
      modifies this`model, table
      ensures Core() && model == Leave(old(model))
    {
      if prev != null {
        assert prev.Is(model.procs[model.current.value]);
        if prev.status == Running {
          prev.status := Ready;
        }
        if prev.age == prev.lifespan {
          prev.status := Exited;
        }
      }
      model := Leave(model);
    }

    // One that is complete passes the checks made at its exit.
    method Decommission(prev: Process?)
      requires Core() && Inv(model) && (if model.current.None? then prev == null else prev == table[model.current.value])
      modifies this`model, table
      ensures Core() && model == Leave(old(model))
      ensures prev != null && prev.age == prev.lifespan ==> Finished(prev, old(model.current))
    {
      ghost var s := model;
      LeftStatus(s);
      StepDown(prev);
      if prev != null {
        assert prev.Is(model.procs[s.current.value]);
        if prev.age == prev.lifespan { ExitsClean(s); }
      }
    }

    method Commission(ghost i: nat)
      requires Core() && model.current == None && i < |model.ready| && current == table[model.ready[i]]
      requires Objects(readyqueue, Remove(model.ready, i))
      modifies this`model, current
      ensures Valid() && model == Pick(old(model), i)
    {
      current.status := Running;
      model := Pick(model, i);
      assert model.procs[model.current.value].link == Detached;
    }

    // The process is in no list.
    ghost predicate Unlisted(p: Process)
      reads this`readyqueue, this`forkqueue, waitqueue
    {
      p !in readyqueue && p !in forkqueue && forall r :: 0 <= r < waitqueue.Length ==> p !in waitqueue[r]
    }

    lemma InNoList()
      requires Valid() && current != null && model.current.value !in model.ready && model.current.value !in model.forkq
      requires forall r :: 0 <= r < |model.waitq| ==> model.current.value !in model.waitq[r]
      ensures Unlisted(current)
    {
      NotAmong(readyqueue, model.ready);
      NotAmong(forkqueue, model.forkq);
      forall r | 0 <= r < waitqueue.Length ensures current !in waitqueue[r] { NotAmong(waitqueue[r], model.waitq[r]); }
    }

    lemma NotAmong(os: seq<Process>, ps: seq<nat>)
      requires Valid() && current != null && Objects(os, ps) && model.current.value !in ps
      ensures current !in os
    {
      forall j | 0 <= j < |os| ensures os[j] != current { assert ps[j] in ps; }
    }

    // The process chosen takes over from the previous one.
    method Exchange(prev: Process?)
      requires Core() && Inv(model) && Scheduled(current)
      requires if model.current.None? then prev == null else prev == table[model.current.value]
      modifies this`model, table
      ensures Valid() && model == Dispatch(policy, old(model))
    {
      LeaveInRange(model);
      ghost var i := if Leave(model).ready == [] then 0 else Selected(policy, model);
      Decommission(prev);
      if current != null {
        Commission(i);
      }
    }

    // Asks the policy for the next process and hands the processor over.
    method HandOver()
      requires Valid() && Inv(model)
      modifies this`model, this`readyqueue, this`current, table
      ensures Valid() && model == Dispatch(policy, old(model))
    {
      InvAgesFit(model);
      var prev := current;
      current := Schedule();
      Exchange(prev);
    }

    // The process that gets it is in no list.
    method DispatchNext()
      requires Valid() && Inv(model)
      modifies this`model, this`readyqueue, this`current, table
      ensures Valid() && model == Dispatch(policy, old(model))
      ensures current != null ==> Unlisted(current)
    {
      HandOver();
      if current != null {
        DispatchedIsUnlisted(policy, old(model));
        InNoList();
      }
    }

    /* ---------- The main loop ---------- */

    // The dispatched process acquires what is due and, when nothing blocks it, ages and releases.
    method ExecuteCurrent()
      requires Valid() && Runs(model)
      modifies this`model, this`readyqueue, table, owner, waitqueue
      ensures Valid() && model == Serve(policy, old(model))
    {
      RunsInRange(model);
      AcquiredInv(policy, model);
      var ok := RunCurrentAcquire();
      if ok {
        AgeInv(model);
        InvInRange(Age(model), 0);
        GrowOlder();
        RunCurrentRelease();
      }
    }

    method GrowOlder()
      requires Valid() && current != null
      modifies this`model, current
      ensures Valid() && model == Age(old(model))
    {
      current.age := current.age + 1;
      model := Age(model);
    }

    method BeginTurn()
      requires Valid() && Good(model)
      modifies this, table, owner, waitqueue
      ensures Valid() && model == Dispatched(policy, old(model))
    {
      ForkFromInv(model, 0);
      ForkOnSchedule();
      DispatchNext();
    }

    method NextTurn()
      requires Valid()
      modifies this`model, this`ticks
      ensures Valid() && model == NextTick(old(model)) && ticks == old(ticks) + 1
    {
      ticks := ticks + 1;
      model := NextTick(model);
    }

    // One turn of the loop; true when it is the last.
    method TakeTurn() returns (over: bool)
      requires Valid() && Good(model)
      modifies this, table, owner, waitqueue
      ensures Valid() && over == Tick(policy, old(model)).1 && model == Tick(policy, old(model)).0
      ensures ticks == old(ticks) + if over then 0 else 1
    {
      DispatchedInv(policy, model);
      DispatchedHandsOver(policy, model);
      if Dispatched(policy, model).current.Some? { ServeReadyGrows(policy, Dispatched(policy, model)); }
      BeginTurn();
      if current == null {
        if readyqueue == [] && forkqueue == [] {
          return true;
        }
      } else {
        ExecuteCurrent();
      }
      NextTurn();
      return false;
    }

    // The same, recording the turns: a run grows by the turn taken unless it was the last.
    method RecordTurn(ghost script: seq<Proc>, ghost ss: seq<State>) returns (over: bool, ghost ss': seq<State>)
      requires Valid() && Script(script) && Run(policy, script, ss) && ss[|ss| - 1] == model
      modifies this, table, owner, waitqueue
      ensures Valid() && Run(policy, script, ss')
      ensures over ==> Over(policy, ss'[|ss'| - 1], model)
      ensures !over ==> ss'[|ss'| - 1] == model && Smaller(model, old(model)) && Remaining(model) >= 0 && NotWaiting(model) >= 0
    {
      RunGood(policy, script, ss, |ss| - 1);
      over := TakeTurn();
      ss' := ss;
      if !over {
        TurnShrinks(policy, ss[|ss| - 1], model);
        RunGrows(policy, script, ss, model);
        ss' := ss + [model];
      }
    }

    // Simulates a script to its end: the turns taken are those of a run, each of them one tick of
    // the clock, and the state reached is the one the last turn leaves behind.
    method DoSimulation(ghost script: seq<Proc>) returns (ghost ss: seq<State>)
      requires Valid() && Script(script) && model == Start(script)
      modifies this, table, owner, waitqueue
      ensures Valid() && Run(policy, script, ss) && Over(policy, ss[|ss| - 1], model) && ticks == |ss| - 1
    {
      ss := [model];
      while true
        invariant Valid() && Run(policy, script, ss) && ss[|ss| - 1] == model
        decreases Remaining(model), NotWaiting(model), UntilLast(model)
      {
        var over;
        over, ss := RecordTurn(script, ss);
        if over {
          EndsAtTick(policy, script, ss, model);
          break;
        }
      }
    }
  }

  // A held entry has a tick left; its resource is the current process's, and its waiters wait.
  lemma HeldIsDue(s: State, k: nat)
    requires Releasing(s, k) && k < |s.procs[s.current.value].held| && HeldInRange(s, s.current.value)
    ensures s.procs[s.current.value].held[k].left >= 1
    ensures var s1 := CountDown(s, k); var r := s1.procs[s.current.value].held[k].id;
            && r < NR_RESOURCES && s1.owner[r] == s1.current
            && Scheduler.WaitersWait(s1, r) && s.current.value !in s1.waitq[r]
  {
    var c := s.current.value;
    assert HeldOk(s.procs[c], k);
    var r := s.procs[c].held[k].id;
    assert s.owner[r] == Some(c);
    assert ListIs(s.procs, s.waitq[r], InWait(r));
    forall j | 0 <= j < |s.waitq[r]| ensures s.procs[s.waitq[r][j]].status == Waiting && s.waitq[r][j] != c {
      assert s.waitq[r][j] in s.waitq[r] && PlaceOk(s.procs[s.waitq[r][j]]);
    }
  }

  lemma LeaveTop(s: State)
    requires InRange(s)
    ensures InRange(Leave(s))
    ensures Leave(s).ready != [] ==> Top(s.procs, Leave(s).ready) == Top(Leave(s).procs, Leave(s).ready)
  {
    LeaveInRange(s);
    var s1 := Leave(s);
    if s1.ready != [] {
      var i := Top(s1.procs, s1.ready);
      forall j | 0 <= j < |s1.ready| ensures s1.procs[s1.ready[j]].prio == s.procs[s1.ready[j]].prio { }
      TopIsEarliest(s.procs, s1.ready, i);
    }
  }

  lemma ExitsClean(s: State)
    requires Inv(s) && InRange(s) && s.current.Some? && s.procs[s.current.value].age == s.procs[s.current.value].lifespan
    ensures var p := s.procs[s.current.value]; p.link == Detached && p.held == [] && p.want == []
  {
    var p := s.procs[s.current.value];
    assert PlaceOk(p) && WantOk(p) && HeldOk(p, |p.held|);
    if p.want != [] { WantedMeansUnfinished(p); }
    if p.held != [] { HeldMeansUnfinished(p); }
  }

  // The current process is running, or waits with something left to run.
  predicate MayLeave(s: State)
    requires InRange(s)
  {
    s.current.Some? ==>
      var p := s.procs[s.current.value];
      p.age <= p.lifespan && (p.status == Running || (p.status == Waiting && p.age < p.lifespan))
  }

  lemma LeftStatus(s: State)
    requires Good(s)
    ensures MayLeave(s)
  {
    if s.current.Some? { assert PlaceOk(s.procs[s.current.value]); }
  }

  lemma TurnShrinks(policy: Policy, s: State, s': State)
    requires Turn(policy, s, s')
    ensures Good(s') && Smaller(s', s) && Remaining(s') >= 0 && NotWaiting(s') >= 0
  {
    TurnGood(policy, s, s');
    TickDecreases(policy, s);
    MeasureNonNegative(s');
  }
}