/**
 What every step of the simulator keeps: each process is linked into the list its state
 calls for, owners and held entries agree, and held entries run out on time.
 */
module SchedSafety {
  import opened Collections
  import opened SchedModel

  /* ---------- The invariant ---------- */

  // q lists exactly the processes linked into list l, each once.
  ghost predicate ListIs(procs: seq<Proc>, q: seq<nat>, l: Link) {
    && Distinct(q)
    && (forall p: nat {:trigger p in q} :: p in q ==> p < |procs| && procs[p].link == l)
    && (forall p: nat {:trigger procs[p]} :: p < |procs| && procs[p].link == l ==> p in q)
  }

  ghost predicate Lists(s: State) {
    && |s.waitq| == NR_RESOURCES
    && ListIs(s.procs, s.forkq, InFork)
    && ListIs(s.procs, s.ready, InReady)
    && forall r :: 0 <= r < NR_RESOURCES ==> ListIs(s.procs, s.waitq[r], InWait(r))
  }

  ghost predicate WantOk(p: Proc) {
    forall i :: 0 <= i < |p.want| ==>
      EntryOk(p.want[i], p.lifespan) && p.want[i].left == p.want[i].duration && p.want[i].at >= p.age
  }

  // The first `counted` held entries have been counted down for the current age, the others not yet.
  ghost predicate HeldOk(p: Proc, counted: nat) {
    && (forall i :: 0 <= i < |p.held| ==>
          && EntryOk(p.held[i], p.lifespan) && p.held[i].at <= p.age && p.held[i].left >= 1
          && p.held[i].left == p.held[i].at + p.held[i].duration - p.age + (if i < counted then 0 else 1))
    && (forall i, j :: 0 <= i < j < |p.held| ==> p.held[i].id != p.held[j].id)
  }

  // Position of the first request that is due, or the number of requests.
  function FirstDue(want: seq<Entry>, age: nat): (i: nat)
    ensures i <= |want|
    ensures i < |want| ==> want[i].at == age
    ensures forall j :: 0 <= j < i ==> want[j].at != age
  {
    if want == [] || want[0].at == age then 0 else 1 + FirstDue(want[1..], age)
  }

  // The next thing the process does is to request resource r.
  predicate Requests(p: Proc, r: nat) {
    var i := FirstDue(p.want, p.age);
    i < |p.want| && p.want[i].id == r
  }

  predicate Holds(p: Proc, r: nat) {
    exists i :: 0 <= i < |p.held| && p.held[i].id == r
  }

  // The status and the remaining life fit the list the process is in.
  predicate PlaceOk(p: Proc) {
    && p.lifespan >= 1 && p.age <= p.lifespan
    && match p.link
       case InFork => p.status == Ready && p.age == 0 && p.held == []
       case InReady => p.status == Ready && p.age < p.lifespan
       case InWait(r) => p.status == Waiting && p.age < p.lifespan && r < NR_RESOURCES && Requests(p, r)
       case Detached => p.status == Running || (p.status == Exited && p.age == p.lifespan && p.held == [] && p.want == [])
  }

  function Counted(s: State, c: nat, p: nat): nat
    requires p < |s.procs|
  {
    if s.current == Some(p) then c else |s.procs[p].held|
  }

  ghost predicate ProcsOk(s: State, c: nat) {
    forall p :: 0 <= p < |s.procs| ==>
      PlaceOk(s.procs[p]) && WantOk(s.procs[p]) && HeldOk(s.procs[p], Counted(s, c, p))
  }

  // A detached process that has not exited is the current one.
  ghost predicate CurrentOk(s: State) {
    && (s.current.Some? ==> s.current.value < |s.procs| && s.procs[s.current.value].status != Exited
                            && (s.procs[s.current.value].link.Detached? || s.procs[s.current.value].link.InWait?))
    && (forall p :: 0 <= p < |s.procs| && s.procs[p].link.Detached? && s.procs[p].status == Running ==> s.current == Some(p))
  }

  ghost predicate OwnersOk(s: State) {
    && |s.owner| == NR_RESOURCES
    && (forall r :: 0 <= r < NR_RESOURCES && s.owner[r].Some? ==>
          s.owner[r].value < |s.procs| && Holds(s.procs[s.owner[r].value], r))
    && (forall p, i :: 0 <= p < |s.procs| && 0 <= i < |s.procs[p].held| && s.procs[p].held[i].id < NR_RESOURCES ==>
          s.owner[s.procs[p].held[i].id] == Some(p))
  }

  // The process is ready or running.
  predicate Active(p: Proc) {
    p.link.InReady? || (p.link.Detached? && p.status == Running)
  }

  // A free resource with waiters has an active process about to take it.
  ghost predicate FreeIsClaimed(s: State) {
    |s.owner| == |s.waitq| == NR_RESOURCES &&
    forall r :: 0 <= r < NR_RESOURCES && s.owner[r].None? && s.waitq[r] != [] ==> Claimed(s, r)
  }

  ghost predicate Claimed(s: State, r: nat) {
    exists x: nat :: x < |s.procs| && Active(s.procs[x]) && Requests(s.procs[x], r)
  }

  // `c` held entries of the current process have been counted down.
  ghost predicate InvAt(s: State, c: nat) {
    Lists(s) && ProcsOk(s, c) && CurrentOk(s) && OwnersOk(s) && FreeIsClaimed(s)
  }

  function CurrentHeld(s: State): nat {
    if s.current.Some? && s.current.value < |s.procs| then |s.procs[s.current.value].held| else 0
  }

  // All c entries the current process holds have been counted down.
  ghost predicate Inv(s: State) {
    exists c: nat :: c == CurrentHeld(s) && InvAt(s, c)
  }

  // The state between turns.
  ghost predicate Good(s: State) {
    Inv(s) && InRange(s)
  }

  lemma InvInRange(s: State, c: nat)
    requires InvAt(s, c)
    ensures InRange(s) && OwnersInRange(s)
    ensures forall p :: 0 <= p < |s.procs| ==> WantsInRange(s, p) && HeldInRange(s, p)
  {
    forall i | 0 <= i < |s.ready| ensures s.ready[i] < |s.procs| { assert s.ready[i] in s.ready; }
    forall i | 0 <= i < |s.forkq| ensures s.forkq[i] < |s.procs| { assert s.forkq[i] in s.forkq; }
    forall r, i | 0 <= r < NR_RESOURCES && 0 <= i < |s.waitq[r]| ensures s.waitq[r][i] < |s.procs| {
      assert ListIs(s.procs, s.waitq[r], InWait(r)) && s.waitq[r][i] in s.waitq[r];
    }
  }

  /* ---------- Lists under relinking ---------- */

  lemma AppendLinked(procs: seq<Proc>, q: seq<nat>, l: Link, p: nat, pr: Proc)
    requires ListIs(procs, q, l) && p < |procs| && procs[p].link != l && pr.link == l
    ensures ListIs(procs[p := pr], q + [p], l)
  {
    assert p !in q;
    forall x: nat | x < |procs| && procs[p := pr][x].link == l ensures x in q + [p] {
      if x != p { assert x in q; }
    }
  }

  lemma RemoveLinked(procs: seq<Proc>, q: seq<nat>, l: Link, i: nat, pr: Proc)
    requires ListIs(procs, q, l) && i < |q| && pr.link != l
    ensures q[i] < |procs| && ListIs(procs[q[i] := pr], Remove(q, i), l)
  {
    var p := q[i];
    var q' := Remove(q, i);
    assert p in q;
    forall x: nat | x in q' ensures x < |procs| && procs[p := pr][x].link == l {
      var j :| 0 <= j < |q'| && q'[j] == x;
      assert x == q[if j < i then j else j + 1];
      assert x in q;
    }
    forall x: nat | x < |procs| && procs[p := pr][x].link == l ensures x in q' {
      assert procs[x].link == l;
      var j :| 0 <= j < |q| && q[j] == x;
      assert q'[if j < i then j else j - 1] == x;
    }
  }

  lemma OtherLinked(procs: seq<Proc>, q: seq<nat>, l: Link, p: nat, pr: Proc)
    requires ListIs(procs, q, l) && p < |procs|
    requires procs[p].link == l <==> pr.link == l
    ensures ListIs(procs[p := pr], q, l)
  {
    forall x: nat | x < |procs| && procs[p := pr][x].link == l ensures x in q {
      assert procs[x].link == l;
    }
  }

  lemma WaitersLinked(procs: seq<Proc>, waitq: seq<seq<nat>>, p: nat, pr: Proc)
    requires |waitq| == NR_RESOURCES && forall r :: 0 <= r < NR_RESOURCES ==> ListIs(procs, waitq[r], InWait(r))
    requires p < |procs| && !procs[p].link.InWait? && !pr.link.InWait?
    ensures forall r :: 0 <= r < NR_RESOURCES ==> ListIs(procs[p := pr], waitq[r], InWait(r))
  {
    forall r | 0 <= r < NR_RESOURCES ensures ListIs(procs[p := pr], waitq[r], InWait(r)) {
      OtherLinked(procs, waitq[r], InWait(r), p, pr);
    }
  }

  /* ---------- One process changes ---------- */

  // Process p becomes pr, keeping what it holds; everything else about owners stays.
  lemma OwnersKept(s: State, s': State, p: nat, pr: Proc)
    requires OwnersOk(s) && p < |s.procs| && s'.procs == s.procs[p := pr] && s'.owner == s.owner
    requires pr.held == s.procs[p].held
    ensures OwnersOk(s')
  {
    forall r | 0 <= r < NR_RESOURCES && s'.owner[r].Some?
      ensures s'.owner[r].value < |s'.procs| && Holds(s'.procs[s'.owner[r].value], r)
    {
      var o := s.owner[r].value;
      var i :| 0 <= i < |s.procs[o].held| && s.procs[o].held[i].id == r;
      assert s'.procs[o].held[i].id == r;
    }
  }

  // Claims survive when no waited-for resource becomes free and the active processes that
  // request a free one stay active and go on requesting it.
  lemma ClaimsKept(s: State, s': State)
    requires FreeIsClaimed(s) && |s'.owner| == |s'.waitq| == NR_RESOURCES && |s'.procs| == |s.procs|
    requires forall r :: 0 <= r < NR_RESOURCES && s'.owner[r].None? && s'.waitq[r] != [] ==> s.owner[r].None? && s.waitq[r] != []
    requires forall x: nat, r: nat :: x < |s.procs| && r < NR_RESOURCES && s'.owner[r].None? && Active(s.procs[x]) && Requests(s.procs[x], r)
               ==> Active(s'.procs[x]) && Requests(s'.procs[x], r)
    ensures FreeIsClaimed(s')
  {
    forall r | 0 <= r < NR_RESOURCES && s'.owner[r].None? && s'.waitq[r] != [] ensures Claimed(s', r) {
      assert Claimed(s, r);
      var x: nat :| x < |s.procs| && Active(s.procs[x]) && Requests(s.procs[x], r);
      assert Active(s'.procs[x]) && Requests(s'.procs[x], r);
    }
  }

  /* ---------- Forking ---------- */

  lemma ForkAtLists(s: State, k: nat)
    requires Inv(s) && k < |s.forkq| && InRange(s)
    ensures Lists(ForkAt(s, k))
  {
    var p := s.forkq[k];
    assert p in s.forkq;
    var pr := s.procs[p].(status := Ready, link := InReady);
    AppendLinked(s.procs, s.ready, InReady, p, pr);
    RemoveLinked(s.procs, s.forkq, InFork, k, pr);
    WaitersLinked(s.procs, s.waitq, p, pr);
  }

  lemma ForkAtInv(s: State, k: nat)
    requires Inv(s) && k < |s.forkq| && InRange(s)
    ensures Inv(ForkAt(s, k)) && InRange(ForkAt(s, k))
  {
    var p := s.forkq[k];
    var pr := s.procs[p].(status := Ready, link := InReady);
    var s' := ForkAt(s, k);
    assert p in s.forkq;
    ForkAtLists(s, k);
    OwnersKept(s, s', p, pr);
    ClaimsKept(s, s');
    ForkAtLocal(s, k);
    assert InvAt(s', CurrentHeld(s'));
    InvInRange(s', CurrentHeld(s'));
  }

  lemma ForkAtLocal(s: State, k: nat)
    requires Inv(s) && k < |s.forkq| && InRange(s)
    ensures ProcsOk(ForkAt(s, k), CurrentHeld(ForkAt(s, k))) && CurrentOk(ForkAt(s, k))
  {
    assert s.forkq[k] in s.forkq && PlaceOk(s.procs[s.forkq[k]]);
  }

  lemma {:induction false} ForkFromInv(s: State, k: nat)
    requires Inv(s) && k <= |s.forkq| && InRange(s)
    ensures Inv(ForkFrom(s, k)) && InRange(ForkFrom(s, k))
    decreases |s.forkq| - k
  {
    if k < |s.forkq| {
      if s.procs[s.forkq[k]].startsAt <= s.ticks {
        ForkAtInv(s, k);
        ForkFromInv(ForkAt(s, k), k);
      } else {
        ForkFromInv(s, k + 1);
      }
    }
  }

  /* ---------- Dispatching ---------- */

  lemma WantedMeansUnfinished(p: Proc)
    requires WantOk(p) && p.want != []
    ensures p.age < p.lifespan
  {
    assert EntryOk(p.want[0], p.lifespan);
  }

  lemma HeldMeansUnfinished(p: Proc)
    requires HeldOk(p, |p.held|) && p.held != []
    ensures p.age < p.lifespan
  {
    assert EntryOk(p.held[0], p.lifespan);
  }

  lemma LeaveLists(s: State)
    requires Inv(s) && InRange(s)
    ensures Lists(Leave(s))
  {
    if s.current.Some? {
      var c := s.current.value;
      var pr := Leave(s).procs[c];
      if Stays(s) {
        AppendLinked(s.procs, s.ready, InReady, c, pr);
        OtherLinked(s.procs, s.forkq, InFork, c, pr);
        WaitersLinked(s.procs, s.waitq, c, pr);
      } else if s.procs[c].age == s.procs[c].lifespan {
        OtherLinked(s.procs, s.ready, InReady, c, pr);
        OtherLinked(s.procs, s.forkq, InFork, c, pr);
        WaitersLinked(s.procs, s.waitq, c, pr);
      }
    }
  }

  lemma LeaveLocal(s: State)
    requires Inv(s) && InRange(s)
    ensures ProcsOk(Leave(s), 0) && CurrentOk(Leave(s))
  {
    if s.current.Some? {
      var c := s.current.value;
      var p, p' := s.procs[c], Leave(s).procs[c];
      assert PlaceOk(p) && WantOk(p) && HeldOk(p, |p.held|);
      if !Stays(s) {
        if p.want != [] { WantedMeansUnfinished(p); }
        if p.held != [] { HeldMeansUnfinished(p); }
      }
      assert PlaceOk(p') && WantOk(p') && HeldOk(p', |p'.held|);
      assert Leave(s).procs == s.procs[c := p'];
    }
  }

  lemma LeaveInv(s: State)
    requires Inv(s) && InRange(s)
    ensures Inv(Leave(s)) && Leave(s).current == None
  {
    LeaveLists(s);
    LeaveLocal(s);
    if s.current.Some? {
      var c := s.current.value;
      assert PlaceOk(s.procs[c]);
      OwnersKept(s, Leave(s), c, Leave(s).procs[c]);
      ClaimsKept(s, Leave(s));
      assert InvAt(Leave(s), 0);
    }
  }

  lemma PickLists(s: State, i: nat)
    requires Inv(s) && InRange(s) && i < |s.ready|
    ensures Lists(Pick(s, i))
  {
    var p := s.ready[i];
    assert p in s.ready;
    var pr := s.procs[p].(status := Running, link := Detached);
    RemoveLinked(s.procs, s.ready, InReady, i, pr);
    OtherLinked(s.procs, s.forkq, InFork, p, pr);
    WaitersLinked(s.procs, s.waitq, p, pr);
  }

  lemma PickLocal(s: State, i: nat)
    requires Inv(s) && InRange(s) && i < |s.ready| && s.current == None
    ensures var s' := Pick(s, i);
            ProcsOk(s', |s.procs[s.ready[i]].held|) && CurrentOk(s') && s'.procs[s.ready[i]].age < s'.procs[s.ready[i]].lifespan
  {
    var p := s.ready[i];
    assert p in s.ready && PlaceOk(s.procs[p]);
  }

  lemma PickInv(s: State, i: nat)
    requires Inv(s) && InRange(s) && i < |s.ready| && s.current == None
    ensures Inv(Pick(s, i))
    ensures Pick(s, i).procs[s.ready[i]].age < Pick(s, i).procs[s.ready[i]].lifespan
  {
    var s' := Pick(s, i);
    PickLists(s, i);
    PickLocal(s, i);
    PickOwners(s, i);
    assert InvAt(s', CurrentHeld(s'));
  }

  lemma PickOwners(s: State, i: nat)
    requires Inv(s) && InRange(s) && i < |s.ready|
    ensures OwnersOk(Pick(s, i)) && FreeIsClaimed(Pick(s, i))
  {
    var s' := Pick(s, i);
    OwnersKept(s, s', s.ready[i], s'.procs[s.ready[i]]);
    ClaimsKept(s, s');
  }

  // The dispatched process is running, unfinished, and linked into no list.
  ghost predicate Runs(s: State) {
    && Inv(s) && InRange(s) && s.current.Some?
    && s.procs[s.current.value].link == Detached && s.procs[s.current.value].status == Running
    && s.procs[s.current.value].age < s.procs[s.current.value].lifespan
  }

  lemma DispatchInv(policy: Policy, s: State)
    requires Inv(s) && InRange(s)
    ensures Inv(Dispatch(policy, s)) && InRange(Dispatch(policy, s))
    ensures Dispatch(policy, s).current.Some? ==> Runs(Dispatch(policy, s))
    ensures Dispatch(policy, s).current.None? ==> Dispatch(policy, s).ready == []
  {
    LeaveInRange(s);
    LeaveInv(s);
    var s1 := Leave(s);
    if s1.ready != [] {
      var i := Selected(policy, s);
      PickInv(s1, i);
      InvInRange(Pick(s1, i), CurrentHeld(Pick(s1, i)));
    }
  }

  /* ---------- Acquiring ---------- */

  lemma GrantOwners(policy: Policy, s: State, k: nat)
    requires Runs(s) && k < |s.procs[s.current.value].want|
    requires s.procs[s.current.value].want[k].id < NR_RESOURCES
    requires s.owner[s.procs[s.current.value].want[k].id].None?
    ensures OwnersOk(Grant(policy, s, k))
  {
    var c := s.current.value;
    var e := s.procs[c].want[k];
    var s' := Grant(policy, s, k);
    assert s'.procs[c].held[|s.procs[c].held|] == e;
    forall r | 0 <= r < NR_RESOURCES && s'.owner[r].Some?
      ensures s'.owner[r].value < |s'.procs| && Holds(s'.procs[s'.owner[r].value], r)
    {
      if r != e.id {
        var o := s.owner[r].value;
        var i :| 0 <= i < |s.procs[o].held| && s.procs[o].held[i].id == r;
        assert s'.procs[o].held[i].id == r;
      }
    }
  }

  lemma GrantLocal(policy: Policy, s: State, k: nat)
    requires Runs(s) && k < |s.procs[s.current.value].want|
    requires s.procs[s.current.value].want[k].at == s.procs[s.current.value].age
    requires s.procs[s.current.value].want[k].id < NR_RESOURCES
    requires s.owner[s.procs[s.current.value].want[k].id].None?
    ensures ProcsOk(Grant(policy, s, k), CurrentHeld(Grant(policy, s, k)))
  {
    var c := s.current.value;
    var p := s.procs[c];
    var p' := Grant(policy, s, k).procs[c];
    assert PlaceOk(p) && WantOk(p) && HeldOk(p, |p.held|);
    assert forall i :: 0 <= i < |p'.want| ==> p'.want[i] == p.want[if i < k then i else i + 1];
    assert HeldOk(p', |p'.held|);
  }

  lemma GrantInv(policy: Policy, s: State, k: nat)
    requires Runs(s) && k == FirstDue(s.procs[s.current.value].want, s.procs[s.current.value].age)
    requires k < |s.procs[s.current.value].want|
    requires s.procs[s.current.value].want[k].id < NR_RESOURCES
    requires s.owner[s.procs[s.current.value].want[k].id].None?
    ensures Runs(Grant(policy, s, k))
  {
    var c := s.current.value;
    var s' := Grant(policy, s, k);
    GrantOwners(policy, s, k);
    GrantLocal(policy, s, k);
    OtherLinked(s.procs, s.ready, InReady, c, s'.procs[c]);
    OtherLinked(s.procs, s.forkq, InFork, c, s'.procs[c]);
    WaitersLinked(s.procs, s.waitq, c, s'.procs[c]);
    ClaimsKept(s, s');
    assert InvAt(s', CurrentHeld(s'));
  }

  lemma BlockLists(policy: Policy, s: State, r: nat)
    requires Runs(s) && r < NR_RESOURCES && s.owner[r].Some? && s.owner[r].value < |s.procs|
    ensures Lists(Block(policy, s, r))
  {
    var c := s.current.value;
    var o := s.owner[r].value;
    var s' := Block(policy, s, r);
    var pr := s.procs[c].(status := Waiting, link := InWait(r));
    var mid := s.procs[c := pr];
    AppendLinked(s.procs, s.waitq[r], InWait(r), c, pr);
    OtherLinked(s.procs, s.ready, InReady, c, pr);
    OtherLinked(s.procs, s.forkq, InFork, c, pr);
    OtherLinked(mid, s.ready, InReady, o, s'.procs[o]);
    OtherLinked(mid, s.forkq, InFork, o, s'.procs[o]);
    assert s'.procs == mid[o := s'.procs[o]];
    forall r' | 0 <= r' < NR_RESOURCES ensures ListIs(s'.procs, s'.waitq[r'], InWait(r')) {
      if r' != r { OtherLinked(s.procs, s.waitq[r'], InWait(r'), c, pr); }
      OtherLinked(mid, s'.waitq[r'], InWait(r'), o, s'.procs[o]);
    }
  }

  // The current process marked as waiting for resource r.
  function Marked(s: State, r: nat): State
    requires InRange(s) && s.current.Some?
  {
    s.(procs := s.procs[s.current.value := s.procs[s.current.value].(status := Waiting, link := InWait(r))])
  }

  lemma MarkLocal(s: State, r: nat)
    requires Runs(s) && r < NR_RESOURCES && Requests(s.procs[s.current.value], r)
    ensures ProcsOk(Marked(s, r), CurrentHeld(s)) && CurrentOk(Marked(s, r))
  {
    var p := s.procs[s.current.value];
    assert PlaceOk(p) && WantOk(p) && HeldOk(p, |p.held|);
    OneProcOk(s, Marked(s, r), CurrentHeld(s), s.current.value);
  }

  lemma BlockLocal(policy: Policy, s: State, r: nat)
    requires Runs(s) && r < NR_RESOURCES && s.owner[r].Some? && s.owner[r].value < |s.procs|
    requires Requests(s.procs[s.current.value], r)
    ensures ProcsOk(Block(policy, s, r), CurrentHeld(Block(policy, s, r))) && CurrentOk(Block(policy, s, r))
  {
    MarkLocal(s, r);
    BlockRaise(policy, s, r);
  }

  lemma BlockRaise(policy: Policy, s: State, r: nat)
    requires InRange(s) && s.current.Some? && r < NR_RESOURCES && s.owner[r].Some? && s.owner[r].value < |s.procs|
    requires ProcsOk(Marked(s, r), CurrentHeld(s)) && CurrentOk(Marked(s, r))
    ensures ProcsOk(Block(policy, s, r), CurrentHeld(Block(policy, s, r))) && CurrentOk(Block(policy, s, r))
  {
    var mid, s' := Marked(s, r), Block(policy, s, r);
    var o := s.owner[r].value;
    assert PlaceOk(mid.procs[o]) && WantOk(mid.procs[o]) && HeldOk(mid.procs[o], Counted(mid, CurrentHeld(s), o));
    OneProcOk(mid, s', CurrentHeld(s), o);
  }

  lemma BlockClaims(policy: Policy, s: State, r: nat)
    requires Runs(s) && r < NR_RESOURCES && s.owner[r].Some? && s.owner[r].value < |s.procs|
    requires Requests(s.procs[s.current.value], r)
    ensures FreeIsClaimed(Block(policy, s, r))
  {
    ClaimsKept(s, Block(policy, s, r));
  }

  lemma BlockInv(policy: Policy, s: State, r: nat)
    requires Runs(s) && r < NR_RESOURCES && s.owner[r].Some? && s.owner[r].value < |s.procs|
    requires Requests(s.procs[s.current.value], r)
    ensures Inv(Block(policy, s, r)) && InRange(Block(policy, s, r))
  {
    var c := s.current.value;
    var o := s.owner[r].value;
    var s' := Block(policy, s, r);
    var mid := Marked(s, r);
    BlockLists(policy, s, r);
    OwnersKept(s, mid, c, mid.procs[c]);
    OwnersKept(mid, s', o, s'.procs[o]);
    BlockLocal(policy, s, r);
    BlockClaims(policy, s, r);
    assert InvAt(s', CurrentHeld(s'));
    InvInRange(s', CurrentHeld(s'));
  }

  lemma FirstDueIs(want: seq<Entry>, age: nat, k: nat)
    requires k <= |want| && (k < |want| ==> want[k].at == age)
    requires forall j :: 0 <= j < k ==> want[j].at != age
    ensures FirstDue(want, age) == k
  {
  }

  lemma GrantStillDue(policy: Policy, s: State, k: nat)
    requires Runs(s) && k < |s.procs[s.current.value].want|
    requires s.procs[s.current.value].want[k].id < NR_RESOURCES
    requires forall j :: 0 <= j < k ==> s.procs[s.current.value].want[j].at != s.procs[s.current.value].age
    ensures var p := Grant(policy, s, k).procs[s.current.value];
            forall j :: 0 <= j < k ==> j < |p.want| && p.want[j].at != p.age
  {
  }

  // One turn of the acquire loop that takes a free resource.
  lemma AcquireStep(policy: Policy, s: State, k: nat)
    requires Runs(s) && OwnersInRange(s) && WantsInRange(s, s.current.value) && k < |s.procs[s.current.value].want|
    requires s.procs[s.current.value].want[k].at == s.procs[s.current.value].age && s.owner[s.procs[s.current.value].want[k].id].None?
    requires forall j :: 0 <= j < k ==> s.procs[s.current.value].want[j].at != s.procs[s.current.value].age
    ensures FirstDue(s.procs[s.current.value].want, s.procs[s.current.value].age) == k
    ensures var s' := Grant(policy, s, k); var p := s'.procs[s.current.value];
            && s'.current == s.current && Runs(s') && OwnersInRange(s') && WantsInRange(s', s.current.value)
            && p.age == s.procs[s.current.value].age && |p.want| == |s.procs[s.current.value].want| - 1
            && forall j :: 0 <= j < k ==> p.want[j].at != p.age
  {
    FirstDueIs(s.procs[s.current.value].want, s.procs[s.current.value].age, k);
    GrantInRange(policy, s, k);
    GrantInv(policy, s, k);
    GrantStillDue(policy, s, k);
  }

  // How the acquire loop ends: everything due is granted, or the process waits.
  ghost predicate AcquireEnds(s: State, s': State, ok: bool) {
    && s.current.Some? && s.current.value < |s.procs| == |s'.procs| && s'.current == s.current
    && s'.procs[s.current.value].age == s.procs[s.current.value].age
    && (if ok then Runs(s') && FirstDue(s'.procs[s.current.value].want, s'.procs[s.current.value].age) == |s'.procs[s.current.value].want|
        else Good(s') && s'.procs[s.current.value].status == Waiting)
  }

  lemma AllServed(s: State, k: nat)
    requires Runs(s) && k == |s.procs[s.current.value].want|
    requires forall j :: 0 <= j < k ==> s.procs[s.current.value].want[j].at != s.procs[s.current.value].age
    ensures AcquireEnds(s, s, true)
  {
    FirstDueIs(s.procs[s.current.value].want, s.procs[s.current.value].age, k);
  }

  lemma NextBlocks(policy: Policy, s: State, k: nat)
    requires Runs(s) && OwnersInRange(s) && WantsInRange(s, s.current.value) && k < |s.procs[s.current.value].want|
    requires s.procs[s.current.value].want[k].at == s.procs[s.current.value].age && s.owner[s.procs[s.current.value].want[k].id].Some?
    requires forall j :: 0 <= j < k ==> s.procs[s.current.value].want[j].at != s.procs[s.current.value].age
    ensures AcquireEnds(s, Block(policy, s, s.procs[s.current.value].want[k].id), false)
  {
    FirstDueIs(s.procs[s.current.value].want, s.procs[s.current.value].age, k);
    BlockInv(policy, s, s.procs[s.current.value].want[k].id);
  }

  lemma {:induction false} AcquireFromEnds(policy: Policy, s: State, k: nat)
    requires Runs(s) && OwnersInRange(s) && WantsInRange(s, s.current.value)
    requires k <= |s.procs[s.current.value].want|
    requires forall j :: 0 <= j < k ==> s.procs[s.current.value].want[j].at != s.procs[s.current.value].age
    ensures exists s': State, ok: bool :: (s', ok) == AcquireFrom(policy, s, k) && AcquireEnds(s, s', ok)
    decreases |s.procs[s.current.value].want| - k
  {
    var p := s.procs[s.current.value];
    if k == |p.want| {
      AllServed(s, k);
      assert AcquireFrom(policy, s, k) == (s, true);
    } else if p.want[k].at != p.age {
      AcquireFromEnds(policy, s, k + 1);
      assert AcquireFrom(policy, s, k) == AcquireFrom(policy, s, k + 1);
    } else if s.owner[p.want[k].id].None? {
      AcquireStep(policy, s, k);
      AcquireFromEnds(policy, Grant(policy, s, k), k);
      var s': State, ok: bool :| (s', ok) == AcquireFrom(policy, Grant(policy, s, k), k) && AcquireEnds(Grant(policy, s, k), s', ok);
      assert AcquireFrom(policy, s, k) == (s', ok) && AcquireEnds(s, s', ok);
    } else {
      NextBlocks(policy, s, k);
      assert AcquireFrom(policy, s, k) == (Block(policy, s, p.want[k].id), false);
    }
  }

  lemma AcquireFromInv(policy: Policy, s: State, k: nat)
    requires Runs(s) && OwnersInRange(s) && WantsInRange(s, s.current.value)
    requires k <= |s.procs[s.current.value].want|
    requires forall j :: 0 <= j < k ==> s.procs[s.current.value].want[j].at != s.procs[s.current.value].age
    ensures var (s', ok) := AcquireFrom(policy, s, k);
            && Inv(s') && InRange(s')
            && s'.current == s.current
            && s'.procs[s.current.value].age == s.procs[s.current.value].age
            && (ok ==> Runs(s') && FirstDue(s'.procs[s'.current.value].want, s'.procs[s'.current.value].age) == |s'.procs[s'.current.value].want|)
            && (!ok ==> s'.procs[s.current.value].status == Waiting)
  {
    AcquireFromEnds(policy, s, k);
  }

  /* ---------- Ageing and releasing ---------- */

  // The running process between its ageing and the end of its releases: the first k held
  // entries are counted down.
  ghost predicate Releasing(s: State, k: nat) {
    && InRange(s) && s.current.Some?
    && s.procs[s.current.value].link == Detached && s.procs[s.current.value].status == Running
    && (exists c: nat :: c == k && c <= |s.procs[s.current.value].held| && InvAt(s, c))
  }

  lemma AgeInv(s: State)
    requires Runs(s)
    requires FirstDue(s.procs[s.current.value].want, s.procs[s.current.value].age) == |s.procs[s.current.value].want|
    ensures Releasing(Age(s), 0)
  {
    var c := s.current.value;
    var s' := Age(s);
    var p := s.procs[c];
    OtherLinked(s.procs, s.ready, InReady, c, s'.procs[c]);
    OtherLinked(s.procs, s.forkq, InFork, c, s'.procs[c]);
    WaitersLinked(s.procs, s.waitq, c, s'.procs[c]);
    OwnersKept(s, s', c, s'.procs[c]);
    ClaimsKept(s, s');
    assert PlaceOk(p) && WantOk(p) && HeldOk(p, |p.held|);
    assert PlaceOk(s'.procs[c]) && WantOk(s'.procs[c]) && HeldOk(s'.procs[c], 0);
    assert InvAt(s', 0);
  }

  lemma CountDownOwners(s: State, k: nat)
    requires Releasing(s, k) && k < |s.procs[s.current.value].held|
    ensures OwnersOk(CountDown(s, k))
  {
    var c := s.current.value;
    var s' := CountDown(s, k);
    forall r | 0 <= r < NR_RESOURCES && s'.owner[r].Some?
      ensures s'.owner[r].value < |s'.procs| && Holds(s'.procs[s'.owner[r].value], r)
    {
      var o := s.owner[r].value;
      var i :| 0 <= i < |s.procs[o].held| && s.procs[o].held[i].id == r;
      assert s'.procs[o].held[i].id == r;
    }
  }

  lemma CountDownInv(s: State, k: nat)
    requires Releasing(s, k) && k < |s.procs[s.current.value].held|
    requires CountDown(s, k).procs[s.current.value].held[k].left > 0
    ensures Releasing(CountDown(s, k), k + 1)
  {
    var c := s.current.value;
    var s' := CountDown(s, k);
    CountDownOwners(s, k);
    OtherLinked(s.procs, s.ready, InReady, c, s'.procs[c]);
    OtherLinked(s.procs, s.forkq, InFork, c, s'.procs[c]);
    WaitersLinked(s.procs, s.waitq, c, s'.procs[c]);
    ClaimsKept(s, s');
    assert HeldOk(s.procs[c], k);
    assert HeldOk(s'.procs[c], k + 1);
    assert InvAt(s', k + 1);
  }

  // Everything but the claim of the waiters of resource r, which has just been given up.
  ghost predicate Dropped(s: State, k: nat, r: nat) {
    && Lists(s) && ProcsOk(s, k) && CurrentOk(s) && OwnersOk(s) && InRange(s) && s.current.Some?
    && s.procs[s.current.value].link == Detached && s.procs[s.current.value].status == Running
    && k <= |s.procs[s.current.value].held|
    && r < NR_RESOURCES && s.owner[r] == None
    && (forall r' :: 0 <= r' < NR_RESOURCES && r' != r && s.owner[r'].None? && s.waitq[r'] != [] ==> Claimed(s, r'))
  }

  function DropExpired(policy: Policy, s: State, k: nat): State
    requires InRange(s) && s.current.Some? && k < |s.procs[s.current.value].held| && HeldInRange(s, s.current.value)
  {
    Drop(policy, CountDown(s, k), k)
  }

  lemma DropLocal(policy: Policy, s: State, k: nat)
    requires Releasing(s, k) && k < |s.procs[s.current.value].held| && HeldInRange(s, s.current.value)
    ensures var s' := DropExpired(policy, s, k);
            && ProcsOk(s', k) && CurrentOk(s') && k <= |s'.procs[s.current.value].held|
  {
    var c := s.current.value;
    var p, p' := s.procs[c], DropExpired(policy, s, k).procs[c];
    assert PlaceOk(p) && WantOk(p) && HeldOk(p, k);
    assert forall i :: 0 <= i < |p'.held| ==> p'.held[i] == p.held[if i < k then i else i + 1];
    assert HeldOk(p', k);
  }

  lemma DropKeepsOwner(policy: Policy, s: State, k: nat, r: nat)
    requires Releasing(s, k) && k < |s.procs[s.current.value].held| && HeldInRange(s, s.current.value)
    requires r < NR_RESOURCES && s.owner[r].Some? && r != s.procs[s.current.value].held[k].id
    ensures s.owner[r].value < |s.procs| && Holds(DropExpired(policy, s, k).procs[s.owner[r].value], r)
  {
    var c := s.current.value;
    var o := s.owner[r].value;
    if o == c { HoldsOther(s.procs[c], DropExpired(policy, s, k).procs[c], k, r); }
  }

  lemma HoldsOther(p: Proc, p': Proc, k: nat, r: nat)
    requires k < |p.held| && p.held[k].id != r && Holds(p, r) && |p'.held| == |p.held| - 1
    requires forall i :: 0 <= i < |p'.held| ==> p'.held[i].id == p.held[if i < k then i else i + 1].id
    ensures Holds(p', r)
  {
    var i :| 0 <= i < |p.held| && p.held[i].id == r;
    assert p'.held[if i < k then i else i - 1].id == r;
  }

  lemma DropOwners(policy: Policy, s: State, k: nat)
    requires Releasing(s, k) && k < |s.procs[s.current.value].held| && HeldInRange(s, s.current.value)
    ensures OwnersOk(DropExpired(policy, s, k))
  {
    var c := s.current.value;
    var s' := DropExpired(policy, s, k);
    var p, p' := s.procs[c], s'.procs[c];
    forall r | 0 <= r < NR_RESOURCES && s'.owner[r].Some?
      ensures s'.owner[r].value < |s'.procs| && Holds(s'.procs[s'.owner[r].value], r)
    {
      DropKeepsOwner(policy, s, k, r);
    }
    assert HeldOk(p, k);
    forall q, i | 0 <= q < |s'.procs| && 0 <= i < |s'.procs[q].held| && s'.procs[q].held[i].id < NR_RESOURCES
      ensures s'.owner[s'.procs[q].held[i].id] == Some(q)
    {
      if q == c {
        var i' := if i < k then i else i + 1;
        assert p'.held[i].id == p.held[i'].id && s.owner[p.held[i'].id] == Some(c) && i' != k;
      } else {
        assert s.owner[s.procs[q].held[i].id] == Some(q);
        assert s.owner[p.held[k].id] == Some(c);
      }
    }
  }

  lemma DropInv(policy: Policy, s: State, k: nat)
    requires Releasing(s, k) && k < |s.procs[s.current.value].held| && HeldInRange(s, s.current.value)
    ensures Dropped(DropExpired(policy, s, k), k, s.procs[s.current.value].held[k].id)
  {
    var c := s.current.value;
    var s' := DropExpired(policy, s, k);
    var id := s.procs[c].held[k].id;
    DropLocal(policy, s, k);
    DropOwners(policy, s, k);
    OtherLinked(s.procs, s.ready, InReady, c, s'.procs[c]);
    OtherLinked(s.procs, s.forkq, InFork, c, s'.procs[c]);
    WaitersLinked(s.procs, s.waitq, c, s'.procs[c]);
    assert s'.procs == s.procs[c := s'.procs[c]];
    forall r | 0 <= r < NR_RESOURCES && r != id && s'.owner[r].None? && s'.waitq[r] != [] ensures Claimed(s', r) {
      assert Claimed(s, r);
      var x: nat :| x < |s.procs| && Active(s.procs[x]) && Requests(s.procs[x], r);
      assert Active(s'.procs[x]) && Requests(s'.procs[x], r);
    }
  }

  lemma WakenLists(policy: Policy, s: State, k: nat, r: nat)
    requires Dropped(s, k, r)
    ensures Lists(Waken(policy, s, r))
  {
    var q := s.waitq[r];
    assert ListIs(s.procs, q, InWait(r));
    if q != [] {
      var i := if ByPriority(policy) then Top(s.procs, q) else 0;
      var w := q[i];
      assert w in q;
      var pr := s.procs[w].(status := Ready, link := InReady);
      RemoveLinked(s.procs, q, InWait(r), i, pr);
      AppendLinked(s.procs, s.ready, InReady, w, pr);
      OtherLinked(s.procs, s.forkq, InFork, w, pr);
      forall r' | 0 <= r' < NR_RESOURCES && r' != r ensures ListIs(s.procs[w := pr], s.waitq[r'], InWait(r')) {
        OtherLinked(s.procs, s.waitq[r'], InWait(r'), w, pr);
      }
    }
  }

  lemma WaiterRequests(s: State, k: nat, r: nat, i: nat)
    requires Dropped(s, k, r) && i < |s.waitq[r]|
    ensures Requests(s.procs[s.waitq[r][i]], r) && s.procs[s.waitq[r][i]].link == InWait(r)
  {
    assert ListIs(s.procs, s.waitq[r], InWait(r)) && s.waitq[r][i] in s.waitq[r] && PlaceOk(s.procs[s.waitq[r][i]]);
  }

  lemma WakenClaims(policy: Policy, s: State, k: nat, r: nat)
    requires Dropped(s, k, r)
    ensures FreeIsClaimed(Waken(policy, s, r))
  {
    var q := s.waitq[r];
    var s' := Waken(policy, s, r);
    if q != [] {
      var i := if ByPriority(policy) then Top(s.procs, q) else 0;
      WaiterRequests(s, k, r, i);
      assert Active(s'.procs[q[i]]) && Requests(s'.procs[q[i]], r);
      forall r' | 0 <= r' < NR_RESOURCES && s'.owner[r'].None? && s'.waitq[r'] != [] ensures Claimed(s', r') {
        if r' != r { ClaimAfterWaken(s, k, r, i, s', r'); }
      }
    }
  }

  // Making a waiter ready leaves the claims on other resources.
  lemma ClaimAfterWaken(s: State, k: nat, r: nat, i: nat, s': State, r': nat)
    requires Dropped(s, k, r) && i < |s.waitq[r]| && s.procs[s.waitq[r][i]].link == InWait(r)
    requires s'.procs == s.procs[s.waitq[r][i] := s.procs[s.waitq[r][i]].(status := Ready, link := InReady)]
    requires r' < NR_RESOURCES && r' != r && s.owner[r'].None? && s.waitq[r'] != []
    ensures Claimed(s', r')
  {
    assert Claimed(s, r');
    var x: nat :| x < |s.procs| && Active(s.procs[x]) && Requests(s.procs[x], r');
    assert Active(s'.procs[x]) && Requests(s'.procs[x], r');
  }

  lemma WakenLocal(policy: Policy, s: State, k: nat, r: nat)
    requires Dropped(s, k, r)
    ensures ProcsOk(Waken(policy, s, r), k)
  {
    var q := s.waitq[r];
    if q != [] {
      var w := q[if ByPriority(policy) then Top(s.procs, q) else 0];
      assert ListIs(s.procs, q, InWait(r)) && w in q;
      WokenOk(s, k, w);
      OneProcOk(s, Waken(policy, s, r), k, w);
    }
  }

  lemma WokenOk(s: State, k: nat, w: nat)
    requires ProcsOk(s, k) && w < |s.procs| && s.procs[w].link.InWait? && s.current != Some(w)
    ensures var p := s.procs[w].(status := Ready, link := InReady); PlaceOk(p) && WantOk(p) && HeldOk(p, |p.held|)
  {
    var p := s.procs[w];
    assert PlaceOk(p) && WantOk(p) && HeldOk(p, |p.held|);
  }

  lemma OneProcOk(s: State, s': State, k: nat, w: nat)
    requires ProcsOk(s, k) && w < |s.procs| && |s'.procs| == |s.procs| && s'.procs == s.procs[w := s'.procs[w]] && s'.current == s.current
    requires PlaceOk(s'.procs[w]) && WantOk(s'.procs[w]) && HeldOk(s'.procs[w], Counted(s', k, w))
    ensures ProcsOk(s', k)
  {
  }

  lemma WakenOwners(policy: Policy, s: State, k: nat, r: nat)
    requires Dropped(s, k, r)
    ensures CurrentOk(Waken(policy, s, r)) && OwnersOk(Waken(policy, s, r))
  {
    var q := s.waitq[r];
    var s' := Waken(policy, s, r);
    if q != [] {
      var w := q[if ByPriority(policy) then Top(s.procs, q) else 0];
      assert ListIs(s.procs, q, InWait(r)) && w in q;
      OwnersKept(s, s', w, s'.procs[w]);
    }
  }

  lemma WakenInv(policy: Policy, s: State, k: nat, r: nat)
    requires Dropped(s, k, r)
    ensures Releasing(Waken(policy, s, r), k)
  {
    WakenLists(policy, s, k, r);
    WakenClaims(policy, s, k, r);
    WakenLocal(policy, s, k, r);
    WakenOwners(policy, s, k, r);
    assert InvAt(Waken(policy, s, r), k);
    InvInRange(Waken(policy, s, r), k);
    WakenCurrent(policy, s, k, r);
  }

  lemma WakenCurrent(policy: Policy, s: State, k: nat, r: nat)
    requires Dropped(s, k, r)
    ensures var s' := Waken(policy, s, r);
            s'.current == s.current && s'.procs[s.current.value] == s.procs[s.current.value]
  {
    assert ListIs(s.procs, s.waitq[r], InWait(r));
    if s.waitq[r] != [] {
      var w := s.waitq[r][if ByPriority(policy) then Top(s.procs, s.waitq[r]) else 0];
      assert w in s.waitq[r];
    }
  }

  lemma ReleaseInv(policy: Policy, s: State, k: nat)
    requires Releasing(s, k) && k < |s.procs[s.current.value].held| && HeldInRange(s, s.current.value)
    ensures Releasing(Release(policy, CountDown(s, k), k), k)
  {
    DropInv(policy, s, k);
    WakenInv(policy, DropExpired(policy, s, k), k, s.procs[s.current.value].held[k].id);
  }

  // One turn of the release loop.
  lemma ReleaseStep(policy: Policy, s: State, k: nat)
    requires Releasing(s, k) && HeldInRange(s, s.current.value) && k < |s.procs[s.current.value].held|
    ensures var s1 := CountDown(s, k);
            if s1.procs[s.current.value].held[k].left == 0 then
              var s2 := Release(policy, s1, k);
              Releasing(s2, k) && s2.current == s.current && HeldInRange(s2, s.current.value)
              && |s2.procs[s.current.value].held| == |s.procs[s.current.value].held| - 1
            else Releasing(s1, k + 1) && HeldInRange(s1, s.current.value)
  {
    var s1 := CountDown(s, k);
    if s1.procs[s.current.value].held[k].left == 0 {
      ReleaseInRange(policy, s1, k);
      ReleaseInv(policy, s, k);
    } else {
      CountDownInv(s, k);
    }
  }

  // The loop goes on from there.
  lemma ReleaseFromNext(policy: Policy, s: State, k: nat) returns (s1: State, k1: nat)
    requires Releasing(s, k) && HeldInRange(s, s.current.value) && k < |s.procs[s.current.value].held|
    ensures Releasing(s1, k1) && s1.current == s.current && HeldInRange(s1, s.current.value)
    ensures |s1.procs[s.current.value].held| - k1 < |s.procs[s.current.value].held| - k
    ensures ReleaseFrom(policy, s, k) == ReleaseFrom(policy, s1, k1)
    ensures if s.procs[s.current.value].held[k].left <= 1 then k1 == k && s1 == Release(policy, CountDown(s, k), k)
            else k1 == k + 1 && s1 == CountDown(s, k)
  {
    ReleaseStep(policy, s, k);
    s1, k1 := CountDown(s, k), k + 1;
    if s1.procs[s.current.value].held[k].left == 0 { s1, k1 := Release(policy, s1, k), k; }
  }

  lemma {:induction false} ReleaseFromInv(policy: Policy, s: State, k: nat)
    requires Releasing(s, k) && HeldInRange(s, s.current.value)
    ensures ReleaseFrom(policy, s, k).current == s.current
    ensures Releasing(ReleaseFrom(policy, s, k), CurrentHeld(ReleaseFrom(policy, s, k)))
    decreases |s.procs[s.current.value].held| - k
  {
    if k < |s.procs[s.current.value].held| {
      var s1, k1 := ReleaseFromNext(policy, s, k);
      ReleaseFromInv(policy, s1, k1);
    }
  }

  /* ---------- Ticks and runs ---------- */

  lemma RunsInRange(s: State)
    requires Runs(s)
    ensures OwnersInRange(s) && WantsInRange(s, s.current.value) && HeldInRange(s, s.current.value)
  {
    InvInRange(s, CurrentHeld(s));
  }

  // The running process acquires what is due; false when it blocks.
  ghost function Acquired(policy: Policy, s: State): (State, bool)
    requires Runs(s)
  {
    RunsInRange(s);
    AcquireFrom(policy, s, 0)
  }

  lemma AcquiredInv(policy: Policy, s: State)
    requires Runs(s)
    ensures var (s', ok) := Acquired(policy, s);
            && Inv(s') && InRange(s')
            && s'.current == s.current
            && s'.procs[s.current.value].age == s.procs[s.current.value].age
            && (ok ==> Runs(s') && FirstDue(s'.procs[s'.current.value].want, s'.procs[s'.current.value].age) == |s'.procs[s'.current.value].want|)
            && (!ok ==> s'.procs[s.current.value].status == Waiting)
  {
    RunsInRange(s);
    AcquireFromInv(policy, s, 0);
  }

  // The running process ages by one tick and releases what runs out.
  ghost function Aged(policy: Policy, s: State): State
    requires Runs(s)
    requires FirstDue(s.procs[s.current.value].want, s.procs[s.current.value].age) == |s.procs[s.current.value].want|
  {
    AgeInv(s);
    InvInRange(Age(s), 0);
    ReleaseFrom(policy, Age(s), 0)
  }

  lemma AgedInv(policy: Policy, s: State)
    requires Runs(s)
    requires FirstDue(s.procs[s.current.value].want, s.procs[s.current.value].age) == |s.procs[s.current.value].want|
    ensures var s' := Aged(policy, s); Releasing(s', CurrentHeld(s')) && Inv(s') && s'.current == s.current
  {
    AgeInv(s);
    InvInRange(Age(s), 0);
    ReleaseFromInv(policy, Age(s), 0);
  }

  // The dispatched process acquires, and when it is not blocked ages and releases.
  ghost function Serve(policy: Policy, s: State): State
    requires Runs(s)
  {
    AcquiredInv(policy, s);
    var (s1, ok) := Acquired(policy, s);
    if ok then Aged(policy, s1) else s1
  }

  lemma ServeInv(policy: Policy, s: State)
    requires Runs(s)
    ensures Inv(Serve(policy, s)) && InRange(Serve(policy, s)) && Serve(policy, s).current == s.current
  {
    AcquiredInv(policy, s);
    var (s1, ok) := Acquired(policy, s);
    if ok { AgedInv(policy, s1); }
  }

  ghost function Dispatched(policy: Policy, s: State): State
    requires Inv(s) && InRange(s)
  {
    ForkFromInv(s, 0);
    Dispatch(policy, ForkFrom(s, 0))
  }

  lemma DispatchedInv(policy: Policy, s: State)
    requires Inv(s) && InRange(s)
    ensures var s' := Dispatched(policy, s);
            && Inv(s') && InRange(s')
            && (s'.current.Some? ==> Runs(s'))
            && (s'.current.None? ==> s'.ready == [])
  {
    ForkFromInv(s, 0);
    DispatchInv(policy, ForkFrom(s, 0));
  }

  // One turn of the simulation loop; true when the simulation is over.
  ghost function Tick(policy: Policy, s: State): (State, bool)
    requires Inv(s) && InRange(s)
  {
    DispatchedInv(policy, s);
    var s1 := Dispatched(policy, s);
    if s1.current.Some? then (NextTick(Serve(policy, s1)), false)
    else if s1.ready == [] && s1.forkq == [] then (s1, true)
    else (NextTick(s1), false)
  }

  function NextTick(s: State): State {
    s.(ticks := s.ticks + 1)
  }

  lemma NextTickInv(s: State)
    requires Inv(s) && InRange(s)
    ensures Inv(NextTick(s)) && InRange(NextTick(s))
  {
    ClaimsKept(s, NextTick(s));
    assert InvAt(NextTick(s), CurrentHeld(s));
  }

  lemma TickInv(policy: Policy, s: State)
    requires Inv(s) && InRange(s)
    ensures Inv(Tick(policy, s).0) && InRange(Tick(policy, s).0)
  {
    DispatchedInv(policy, s);
    var s1 := Dispatched(policy, s);
    if s1.current.Some? {
      ServeInv(policy, s1);
      NextTickInv(Serve(policy, s1));
    } else {
      NextTickInv(s1);
    }
  }

  // A script: processes not started, with every use of a resource within the lifespan.
  ghost predicate Script(procs: seq<Proc>) {
    forall p :: 0 <= p < |procs| ==>
      && procs[p].status == Ready && procs[p].link == InFork && procs[p].age == 0 && procs[p].lifespan >= 1
      && procs[p].prio == procs[p].prioOrig && procs[p].held == [] && WantOk(procs[p])
  }

  function Start(procs: seq<Proc>): State {
    State(procs, None, [], seq(|procs|, i => i), seq(NR_RESOURCES, _ => None), seq(NR_RESOURCES, _ => []), 0)
  }

  lemma StartInv(procs: seq<Proc>)
    requires Script(procs)
    ensures Inv(Start(procs)) && InRange(Start(procs))
  {
    var s := Start(procs);
    forall p: nat | p < |procs| ensures p in s.forkq { assert s.forkq[p] == p; }
    assert ListIs(procs, s.forkq, InFork);
    assert InvAt(s, 0);
    InvInRange(s, 0);
  }

  // One turn that is not the last.
  ghost predicate Turn(policy: Policy, s: State, s': State) {
    Good(s) && !Tick(policy, s).1 && s' == Tick(policy, s).0
  }

  // The turns of a simulation, from a script on.
  ghost predicate Run(policy: Policy, procs: seq<Proc>, ss: seq<State>) {
    && ss != [] && ss[0] == Start(procs)
    && forall i :: 0 < i < |ss| ==> Turn(policy, ss[i - 1], ss[i])
  }

  lemma TurnGood(policy: Policy, s: State, s': State)
    requires Turn(policy, s, s')
    ensures Good(s')
  {
    TickInv(policy, s);
  }

  lemma RunGood(policy: Policy, procs: seq<Proc>, ss: seq<State>, i: nat)
    requires Script(procs) && Run(policy, procs, ss) && i < |ss|
    ensures Good(ss[i])
  {
    if i == 0 {
      StartInv(procs);
    } else {
      TurnGood(policy, ss[i - 1], ss[i]);
    }
  }

  lemma RunGrows(policy: Policy, script: seq<Proc>, ss: seq<State>, s': State)
    requires Run(policy, script, ss) && Turn(policy, ss[|ss| - 1], s')
    ensures Run(policy, script, ss + [s'])
  {
    var ss' := ss + [s'];
    assert ss'[..|ss|] == ss;
  }

  // The next turn is the last.
  ghost predicate Last(policy: Policy, s: State) {
    Good(s) && Tick(policy, s).1
  }

  ghost predicate Over(policy: Policy, s: State, end: State) {
    Last(policy, s) && end == Tick(policy, s).0
  }

  /* ---------- What the framework checks ---------- */

  predicate Queued(s: State, p: nat) {
    exists r :: 0 <= r < |s.waitq| && p in s.waitq[r]
  }

  // The queues list the processes by their links.
  lemma LinkTells(s: State, p: nat)
    requires Good(s) && p < |s.procs|
    ensures p in s.forkq <==> s.procs[p].link.InFork?
    ensures p in s.ready <==> s.procs[p].link.InReady?
    ensures forall r :: 0 <= r < |s.waitq| ==> (p in s.waitq[r] <==> s.procs[p].link == InWait(r))
    ensures Queued(s, p) <==> s.procs[p].link.InWait?
  {
    assert ListIs(s.procs, s.forkq, InFork) && ListIs(s.procs, s.ready, InReady) && PlaceOk(s.procs[p]);
    forall r | 0 <= r < |s.waitq| ensures p in s.waitq[r] <==> s.procs[p].link == InWait(r) {
      assert ListIs(s.procs, s.waitq[r], InWait(r));
    }
  }

  // The process chosen is in no list.
  lemma DispatchedIsUnlisted(policy: Policy, s: State)
    requires Good(s) && Dispatch(policy, s).current.Some?
    ensures var s' := Dispatch(policy, s); var p := s'.current.value;
            && p < |s'.procs| && s'.procs[p].status == Running && p !in s'.ready && p !in s'.forkq
            && forall r :: 0 <= r < |s'.waitq| ==> p !in s'.waitq[r]
  {
    DispatchInv(policy, s);
    LinkTells(Dispatch(policy, s), Dispatch(policy, s).current.value);
  }

  predicate ExactlyOne(bs: seq<bool>) {
    exists i :: 0 <= i < |bs| && bs[i] && forall j :: 0 <= j < |bs| && bs[j] ==> j == i
  }

  lemma OnlyPlace(s: State, p: nat)
    requires Good(s) && p < |s.procs|
    ensures ExactlyOne([p in s.forkq, p in s.ready, Queued(s, p), s.procs[p].status == Running, s.procs[p].status == Exited])
  {
    LinkTells(s, p);
    var pr := s.procs[p];
    assert PlaceOk(pr);
    var flags := [pr.link.InFork?, pr.link.InReady?, pr.link.InWait?, pr.status == Running, pr.status == Exited];
    assert flags == [p in s.forkq, p in s.ready, Queued(s, p), pr.status == Running, pr.status == Exited];
    assert flags[match pr.link case InFork => 0 case InReady => 1 case InWait(_) => 2 case Detached => if pr.status == Running then 3 else 4];
  }

  // In every state of every run: a process is in exactly one of the fork queue, the ready
  // queue, one wait queue, the processor, or it has exited; no queue lists it twice; and one
  // that is still current while it is in a wait queue has the status of a waiting process.
  lemma OnePlace(policy: Policy, procs: seq<Proc>, ss: seq<State>, i: nat, p: nat)
    requires Script(procs) && Run(policy, procs, ss) && i < |ss| && p < |ss[i].procs|
    ensures var s := ss[i];
            && ExactlyOne([p in s.forkq, p in s.ready, Queued(s, p), s.procs[p].status == Running, s.procs[p].status == Exited])
            && (forall r, r' :: 0 <= r < |s.waitq| && 0 <= r' < |s.waitq| && p in s.waitq[r] && p in s.waitq[r'] ==> r == r')
            && Distinct(s.forkq) && Distinct(s.ready) && (forall r :: 0 <= r < |s.waitq| ==> Distinct(s.waitq[r]))
            && (s.procs[p].status == Running ==> s.current == Some(p))
            && (s.current == Some(p) ==> s.procs[p].status == Running || (Queued(s, p) && s.procs[p].status == Waiting))
  {
    RunGood(policy, procs, ss, i);
    var s := ss[i];
    LinkTells(s, p);
    OnlyPlace(s, p);
    assert PlaceOk(s.procs[p]);
    forall r | 0 <= r < |s.waitq| ensures Distinct(s.waitq[r]) { assert ListIs(s.procs, s.waitq[r], InWait(r)); }
  }

  // In every state of every run: a process owns exactly the resources of its held entries, and
  // each of those runs out when its time since the request has passed.
  lemma OwnersMatchHolders(policy: Policy, procs: seq<Proc>, ss: seq<State>, i: nat, p: nat, r: nat)
    requires Script(procs) && Run(policy, procs, ss) && i < |ss| && p < |ss[i].procs| && r < NR_RESOURCES
    ensures var s := ss[i];
            && |s.owner| == NR_RESOURCES
            && (s.owner[r] == Some(p) <==> Holds(s.procs[p], r))
            && (forall j :: 0 <= j < |s.procs[p].held| ==>
                  var e := s.procs[p].held[j]; e.left >= 1 && e.left == e.at + e.duration - s.procs[p].age)
  {
    RunGood(policy, procs, ss, i);
    assert HeldOk(ss[i].procs[p], |ss[i].procs[p].held|);
  }

  // A process that exits owns nothing, waits for nothing, and has nothing left to request.
  lemma ExitIsClean(policy: Policy, procs: seq<Proc>, ss: seq<State>, i: nat, p: nat)
    requires Script(procs) && Run(policy, procs, ss) && i < |ss| && p < |ss[i].procs|
    requires ss[i].procs[p].age == ss[i].procs[p].lifespan
    ensures var s := ss[i];
            && s.procs[p].want == [] && s.procs[p].held == []
            && p !in s.ready && p !in s.forkq && |s.waitq| == NR_RESOURCES
            && forall r :: 0 <= r < NR_RESOURCES ==> p !in s.waitq[r]
  {
    RunGood(policy, procs, ss, i);
    var s := ss[i];
    var pr := s.procs[p];
    assert PlaceOk(pr) && WantOk(pr) && HeldOk(pr, |pr.held|);
    if pr.want != [] { WantedMeansUnfinished(pr); }
    if pr.held != [] { HeldMeansUnfinished(pr); }
    forall r | 0 <= r < NR_RESOURCES ensures p !in s.waitq[r] { assert ListIs(s.procs, s.waitq[r], InWait(r)); }
  }
}
