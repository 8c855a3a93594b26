/**
 Completion: when no process requests a resource numbered at or below one it still holds,
 every script ends with all processes finished, under every policy modelled.
 */
module SchedCompletion {
  import opened Collections
  import opened SchedModel
  import opened SchedSafety

  // Entry f at position j of the requests is made after e at position i.
  predicate MadeAfter(e: Entry, i: int, f: Entry, j: int) {
    e.at < f.at || (e.at == f.at && i < j)
  }

  // The request f falls into the time e is held.
  predicate During(e: Entry, f: Entry) {
    f.at < e.at + e.duration
  }

  // A resource requested while another is held has the larger number.
  ghost predicate Ordered(p: Proc) {
    && (forall i, j :: 0 <= i < |p.want| && 0 <= j < |p.want| && MadeAfter(p.want[i], i, p.want[j], j) && During(p.want[i], p.want[j])
          ==> p.want[i].id < p.want[j].id)
    && (forall i, j :: 0 <= i < |p.held| && 0 <= j < |p.want| && During(p.held[i], p.want[j]) ==> p.held[i].id < p.want[j].id)
  }

  ghost predicate AllOrdered(s: State) {
    forall p :: 0 <= p < |s.procs| ==> Ordered(s.procs[p])
  }

  // Wants and holds are as before.
  predicate SameUses(s: State, s': State) {
    && |s'.procs| == |s.procs|
    && forall p :: 0 <= p < |s.procs| ==> s'.procs[p].want == s.procs[p].want && s'.procs[p].held == s.procs[p].held
  }

  lemma SameUsesOrdered(s: State, s': State)
    requires AllOrdered(s) && SameUses(s, s')
    ensures AllOrdered(s')
  {
    forall p | 0 <= p < |s'.procs| ensures Ordered(s'.procs[p]) { assert Ordered(s.procs[p]); }
  }

  lemma {:induction false} ForkFromUses(s: State, k: nat)
    requires InRange(s) && k <= |s.forkq|
    ensures SameUses(s, ForkFrom(s, k))
    decreases |s.forkq| - k
  {
    if k < |s.forkq| {
      if s.procs[s.forkq[k]].startsAt <= s.ticks {
        ForkFromUses(ForkAt(s, k), k);
      } else {
        ForkFromUses(s, k + 1);
      }
    }
  }

  lemma LeaveUses(s: State)
    requires InRange(s)
    ensures SameUses(s, Leave(s))
  {
  }

  lemma DispatchUses(policy: Policy, s: State)
    requires InRange(s)
    ensures SameUses(s, Dispatch(policy, s))
  {
    LeaveInRange(s);
    LeaveUses(s);
    var s1 := Leave(s);
    if s1.ready != [] {
      PickUses(s1, Selected(policy, s));
    }
  }

  lemma PickUses(s: State, i: nat)
    requires InRange(s) && i < |s.ready|
    ensures SameUses(s, Pick(s, i))
  {
  }

  lemma GrantOrdered(policy: Policy, s: State, k: nat)
    requires Runs(s) && AllOrdered(s) && k < |s.procs[s.current.value].want|
    requires k == FirstDue(s.procs[s.current.value].want, s.procs[s.current.value].age)
    requires s.procs[s.current.value].want[k].id < NR_RESOURCES
    ensures AllOrdered(Grant(policy, s, k))
  {
    var c := s.current.value;
    var p := s.procs[c];
    var p' := Grant(policy, s, k).procs[c];
    assert Ordered(p) && WantOk(p);
    GrantedOrdered(p, p', k);
    forall q | 0 <= q < |s.procs| ensures Ordered(Grant(policy, s, k).procs[q]) { assert Ordered(s.procs[q]); }
  }

  function Back(k: nat, i: nat): nat { if i < k then i else i + 1 }

  lemma RemovedAt(q: seq<Entry>, k: nat, i: nat)
    requires k < |q| && i < |q| - 1
    ensures Back(k, i) < |q| && Back(k, i) != k && Remove(q, k)[i] == q[Back(k, i)]
  {
  }

  lemma GrantedOrdered(p: Proc, p': Proc, k: nat)
    requires Ordered(p) && WantOk(p) && k < |p.want| && k == FirstDue(p.want, p.age)
    requires p'.want == Remove(p.want, k) && p'.held == p.held + [p.want[k]]
    ensures Ordered(p')
  {
    forall i: nat, j: nat | i < |p'.want| && j < |p'.want| && MadeAfter(p'.want[i], i, p'.want[j], j) && During(p'.want[i], p'.want[j])
      ensures p'.want[i].id < p'.want[j].id
    {
      RemovedAt(p.want, k, i);
      RemovedAt(p.want, k, j);
      assert MadeAfter(p.want[Back(k, i)], Back(k, i), p.want[Back(k, j)], Back(k, j));
    }
    forall i: nat, j: nat | i < |p'.held| && j < |p'.want| && During(p'.held[i], p'.want[j])
      ensures p'.held[i].id < p'.want[j].id
    {
      GrantedHeld(p, k, i, j);
    }
  }

  lemma GrantedHeld(p: Proc, k: nat, i: nat, j: nat)
    requires Ordered(p) && WantOk(p) && k < |p.want| && k == FirstDue(p.want, p.age)
    requires i <= |p.held| && j < |p.want| - 1
    requires During((p.held + [p.want[k]])[i], Remove(p.want, k)[j])
    ensures (p.held + [p.want[k]])[i].id < Remove(p.want, k)[j].id
  {
    RemovedAt(p.want, k, j);
    var j' := Back(k, j);
    if i == |p.held| { assert MadeAfter(p.want[k], k, p.want[j'], j'); }
  }

  lemma {:induction false} AcquireFromOrdered(policy: Policy, s: State, k: nat)
    requires Runs(s) && AllOrdered(s) && OwnersInRange(s) && WantsInRange(s, s.current.value)
    requires k <= |s.procs[s.current.value].want|
    requires forall j :: 0 <= j < k ==> s.procs[s.current.value].want[j].at != s.procs[s.current.value].age
    ensures AllOrdered(AcquireFrom(policy, s, k).0)
    decreases |s.procs[s.current.value].want| - k
  {
    var p := s.procs[s.current.value];
    if k == |p.want| {
    } else if p.want[k].at != p.age {
      AcquireFromOrdered(policy, s, k + 1);
    } else if s.owner[p.want[k].id].None? {
      AcquireStep(policy, s, k);
      GrantOrdered(policy, s, k);
      AcquireFromOrdered(policy, Grant(policy, s, k), k);
    } else {
      BlockOrdered(policy, s, p.want[k].id);
    }
  }

  lemma BlockOrdered(policy: Policy, s: State, r: nat)
    requires InRange(s) && s.current.Some? && r < NR_RESOURCES && s.owner[r].Some? && s.owner[r].value < |s.procs| && AllOrdered(s)
    ensures AllOrdered(Block(policy, s, r))
  {
    SameUsesOrdered(s, Block(policy, s, r));
  }

  lemma CountDownOrdered(s: State, k: nat)
    requires AllOrdered(s) && InRange(s) && s.current.Some? && k < |s.procs[s.current.value].held|
    ensures AllOrdered(CountDown(s, k))
  {
    var c := s.current.value;
    var p, p' := s.procs[c], CountDown(s, k).procs[c];
    assert Ordered(p);
    assert forall i :: 0 <= i < |p.held| ==>
             p'.held[i].id == p.held[i].id && p'.held[i].at == p.held[i].at && p'.held[i].duration == p.held[i].duration;
    assert Ordered(p');
    forall q | 0 <= q < |s.procs| ensures Ordered(CountDown(s, k).procs[q]) { assert Ordered(s.procs[q]); }
  }

  lemma ReleaseOrdered(policy: Policy, s: State, k: nat)
    requires AllOrdered(s) && InRange(s) && s.current.Some? && k < |s.procs[s.current.value].held| && HeldInRange(s, s.current.value)
    ensures AllOrdered(Release(policy, s, k))
  {
    var c := s.current.value;
    var p, s1 := s.procs[c], Drop(policy, s, k);
    var p' := s1.procs[c];
    assert Ordered(p);
    assert forall i :: 0 <= i < |p'.held| ==> p'.held[i] == p.held[if i < k then i else i + 1];
    assert Ordered(p');
    forall q | 0 <= q < |s.procs| ensures Ordered(s1.procs[q]) { assert Ordered(s.procs[q]); }
    SameUsesOrdered(s1, Waken(policy, s1, p.held[k].id));
  }

  lemma {:induction false} ReleaseFromOrdered(policy: Policy, s: State, k: nat)
    requires AllOrdered(s) && InRange(s) && s.current.Some? && HeldInRange(s, s.current.value)
    requires k <= |s.procs[s.current.value].held|
    ensures AllOrdered(ReleaseFrom(policy, s, k))
    decreases |s.procs[s.current.value].held| - k
  {
    var c := s.current.value;
    if k < |s.procs[c].held| {
      var s1 := CountDown(s, k);
      CountDownOrdered(s, k);
      if s1.procs[c].held[k].left == 0 {
        ReleaseInRange(policy, s1, k);
        ReleaseOrdered(policy, s1, k);
        ReleaseFromOrdered(policy, Release(policy, s1, k), k);
      } else {
        ReleaseFromOrdered(policy, s1, k + 1);
      }
    }
  }

  lemma ServeOrdered(policy: Policy, s: State)
    requires Runs(s) && AllOrdered(s)
    ensures AllOrdered(Serve(policy, s))
  {
    RunsInRange(s);
    AcquireFromOrdered(policy, s, 0);
    AcquiredInv(policy, s);
    var (s1, ok) := Acquired(policy, s);
    if ok {
      AgeInv(s1);
      InvInRange(Age(s1), 0);
      SameUsesOrdered(s1, Age(s1));
      ReleaseFromOrdered(policy, Age(s1), 0);
    }
  }

  lemma DispatchedOrdered(policy: Policy, s: State)
    requires Inv(s) && InRange(s) && AllOrdered(s)
    ensures AllOrdered(Dispatched(policy, s))
  {
    ForkFromInv(s, 0);
    ForkFromUses(s, 0);
    DispatchUses(policy, ForkFrom(s, 0));
    SameUsesOrdered(s, Dispatched(policy, s));
  }

  lemma TickOrdered(policy: Policy, s: State)
    requires Inv(s) && InRange(s) && AllOrdered(s)
    ensures AllOrdered(Tick(policy, s).0)
  {
    DispatchedOrdered(policy, s);
    DispatchedInv(policy, s);
    var s1 := Dispatched(policy, s);
    if s1.current.Some? {
      ServeOrdered(policy, s1);
      SameUsesOrdered(Serve(policy, s1), NextTick(Serve(policy, s1)));
    } else {
      SameUsesOrdered(s1, NextTick(s1));
    }
  }

  lemma {:induction false} RunOrdered(policy: Policy, procs: seq<Proc>, ss: seq<State>, i: nat)
    requires Script(procs) && Run(policy, procs, ss) && i < |ss| && AllOrdered(ss[0])
    ensures AllOrdered(ss[i])
  {
    if i > 0 {
      RunOrdered(policy, procs, ss, i - 1);
      assert Turn(policy, ss[i - 1], ss[i]);
      TickOrdered(policy, ss[i - 1]);
    }
  }

  /* ---------- The end ---------- */

  // Nobody can run any more.
  ghost predicate Idle(s: State) {
    Inv(s) && s.current.None? && s.ready == [] && s.forkq == []
  }

  lemma OverIsIdle(policy: Policy, s: State, end: State)
    requires Over(policy, s, end)
    ensures Idle(end)
  {
    DispatchedInv(policy, s);
  }

  lemma IdlePlace(s: State, p: nat)
    requires Idle(s) && p < |s.procs|
    ensures !Active(s.procs[p]) && !s.procs[p].link.InFork?
    ensures s.procs[p].status != Exited ==> s.procs[p].link.InWait? && p in s.waitq[s.procs[p].link.r]
  {
    assert ListIs(s.procs, s.ready, InReady) && ListIs(s.procs, s.forkq, InFork);
    assert s.procs[p].link.InReady? ==> p in s.ready;
    assert s.procs[p].link.InFork? ==> p in s.forkq;
    assert PlaceOk(s.procs[p]);
  }

  lemma WaitedIsOwned(s: State, r: nat)
    requires Idle(s) && r < NR_RESOURCES && s.waitq[r] != []
    ensures s.owner[r].Some?
  {
    if s.owner[r].None? {
      assert Claimed(s, r);
      var x: nat :| x < |s.procs| && Active(s.procs[x]) && Requests(s.procs[x], r);
      IdlePlace(s, x);
    }
  }

  // The owner of a waited-for resource waits for one with a larger number.
  lemma OwnerWaitsHigher(s: State, r: nat) returns (r': nat)
    requires Idle(s) && AllOrdered(s) && r < NR_RESOURCES && s.owner[r].Some?
    ensures r < r' < NR_RESOURCES && s.waitq[r'] != []
  {
    var o := s.owner[r].value;
    var p := s.procs[o];
    assert Holds(p, r) && PlaceOk(p) && HeldOk(p, |p.held|) && Ordered(p);
    var i :| 0 <= i < |p.held| && p.held[i].id == r;
    IdlePlace(s, o);
    r' := p.link.r;
    assert Requests(p, r');
    assert During(p.held[i], p.want[FirstDue(p.want, p.age)]);
  }

  lemma {:induction false} NoWaiters(s: State, r: nat)
    requires Idle(s) && AllOrdered(s) && r < NR_RESOURCES
    ensures s.waitq[r] == []
    decreases NR_RESOURCES - r
  {
    if s.waitq[r] != [] {
      WaitedIsOwned(s, r);
      var r' := OwnerWaitsHigher(s, r);
      NoWaiters(s, r');
    }
  }

  lemma IdleMeansFinished(s: State, p: nat)
    requires Idle(s) && AllOrdered(s) && p < |s.procs|
    ensures s.procs[p].status == Exited && s.procs[p].age == s.procs[p].lifespan
  {
    IdlePlace(s, p);
    assert PlaceOk(s.procs[p]);
    if s.procs[p].status != Exited { NoWaiters(s, s.procs[p].link.r); }
  }

  // At the end of an ordered script every process has run its whole life.
  lemma OrderedScriptsComplete(policy: Policy, procs: seq<Proc>, ss: seq<State>, end: State, p: nat)
    requires Script(procs) && forall q :: 0 <= q < |procs| ==> Ordered(procs[q])
    requires Run(policy, procs, ss) && Over(policy, ss[|ss| - 1], end) && p < |end.procs|
    ensures end.procs[p].status == Exited && end.procs[p].age == end.procs[p].lifespan
  {
    var last := ss[|ss| - 1];
    RunOrdered(policy, procs, ss, |ss| - 1);
    TickOrdered(policy, last);
    OverIsIdle(policy, last, end);
    IdleMeansFinished(end, p);
  }
}
