/**
 Priority ceiling with all original priorities below the ceiling. Nobody is ever blocked, and an
 owner keeps the processor until it releases, exactly as long as a process that requests what it
 does not hold gives everything it holds back at once: a release takes the ceiling off.
 */
module SchedPcp {
  import opened Collections
  import opened SchedModel
  import opened SchedSafety
  import opened SchedCompletion
  import opened SchedPip
  import opened SchedService

  /* ---------- The invariant ---------- */

  // Nobody waits; holder, if anyone holds something, is the one, at the ceiling.
  ghost predicate CeilingOk(s: State, holder: Option<nat>) {
    && |s.waitq| == NR_RESOURCES
    && (forall r :: 0 <= r < NR_RESOURCES ==> s.waitq[r] == [])
    && (forall p :: 0 <= p < |s.procs| ==>
          && s.procs[p].prioOrig < MAX_PRIO
          && (s.procs[p].held == [] ==> s.procs[p].prio == s.procs[p].prioOrig)
          && (s.procs[p].held != [] ==> s.procs[p].prio == MAX_PRIO && holder == Some(p)))
  }

  ghost predicate PcpOk(s: State) { CeilingOk(s, s.current) }

  lemma RelinkedCeiling(s: State, s': State, holder: Option<nat>)
    requires CeilingOk(s, holder) && Relinked(s, s')
    ensures CeilingOk(s', holder)
  {
  }

  /* ---------- Dispatching ---------- */

  // An owner is not finished, not waiting, and so goes back to the ready queue.
  lemma OwnerStays(s: State, c: nat)
    requires Inv(s) && InRange(s) && PcpOk(s) && c < |s.procs| && s.procs[c].held != []
    ensures s.current == Some(c) && Stays(s)
  {
    assert HeldOk(s.procs[c], |s.procs[c].held|) && PlaceOk(s.procs[c]);
    HeldMeansUnfinished(s.procs[c]);
    forall r | 0 <= r < NR_RESOURCES ensures s.procs[c].link != InWait(r) {
      assert ListIs(s.procs, s.waitq[r], InWait(r));
    }
  }

  lemma OwnerIsPicked(s: State, c: nat)
    requires InRange(s) && CeilingOk(s, Some(c)) && c < |s.procs| && s.procs[c].held != [] && c in s.ready
    ensures s.ready[Top(s.procs, s.ready)] == c
  {
    var j :| 0 <= j < |s.ready| && s.ready[j] == c;
    assert s.procs[s.ready[j]].prio <= s.procs[s.ready[Top(s.procs, s.ready)]].prio;
  }

  lemma DispatchPcp(s: State)
    requires Inv(s) && InRange(s) && PcpOk(s)
    ensures PcpOk(Dispatch(Pcp, s))
    ensures forall c :: 0 <= c < |s.procs| && s.procs[c].held != [] ==> Dispatch(Pcp, s).current == Some(c)
  {
    LeaveInRange(s);
    LeaveRelinks(s);
    RelinkedCeiling(s, Leave(s), s.current);
    var s1 := Leave(s);
    if s1.ready != [] {
      PickRelinks(s1, Top(s1.procs, s1.ready));
      RelinkedCeiling(s1, Pick(s1, Top(s1.procs, s1.ready)), s.current);
    }
    forall c: nat | c < |s.procs| && s.procs[c].held != [] ensures Dispatch(Pcp, s).current == Some(c) {
      OwnerStays(s, c);
      assert s1.ready[|s.ready|] == c;
      OwnerIsPicked(s1, c);
    }
  }

  lemma DispatchedPcp(s: State)
    requires Inv(s) && InRange(s) && PcpOk(s)
    ensures PcpOk(Dispatched(Pcp, s))
    ensures forall c :: 0 <= c < |s.procs| && s.procs[c].held != [] ==> Dispatched(Pcp, s).current == Some(c)
  {
    ForkFromInv(s, 0);
    ForkFromRelinks(s, 0);
    ForkFromCurrent(s, 0);
    RelinkedCeiling(s, ForkFrom(s, 0), s.current);
    DispatchPcp(ForkFrom(s, 0));
  }

  lemma {:induction false} ForkFromCurrent(s: State, k: nat)
    requires InRange(s) && k <= |s.forkq|
    ensures ForkFrom(s, k).current == s.current
    decreases |s.forkq| - k
  {
    if k < |s.forkq| {
      if s.procs[s.forkq[k]].startsAt <= s.ticks { ForkFromCurrent(ForkAt(s, k), k); } else { ForkFromCurrent(s, k + 1); }
    }
  }

  /* ---------- One turn, exactly ---------- */

  ghost predicate DistinctIds(es: seq<Entry>) {
    forall i, j :: 0 <= i < j < |es| ==> es[i].id != es[j].id
  }

  // The entries the process holds when it has its due requests granted.
  function Taken(p: Proc): seq<Entry> { p.held + Due(p.want, p.age) }

  // The process requests nothing twice and nothing it holds, and what it then holds runs out
  // either all at once or not at all at the end of the tick.
  ghost predicate GivesBackAtOnce(p: Proc) {
    DistinctIds(Taken(p)) && (Expired(Taken(p)) == [] || Survivors(Taken(p)) == [])
  }

  // A due request finds its resource free if and only if the process does not hold it itself.
  lemma RequestedIsFree(s: State, r: nat)
    requires Runs(s) && PcpOk(s) && r < NR_RESOURCES && Requests(s.procs[s.current.value], r)
    ensures s.owner[r].None? <==> !Holds(s.procs[s.current.value], r)
  {
    OwnerIsCurrent(s, r);
    if Holds(s.procs[s.current.value], r) {
      var i :| 0 <= i < |s.procs[s.current.value].held| && s.procs[s.current.value].held[i].id == r;
      assert s.owner[r] == s.current;
    }
  }

  lemma OwnerIsCurrent(s: State, r: nat)
    requires OwnersOk(s) && PcpOk(s) && r < NR_RESOURCES
    ensures s.owner[r].Some? ==> s.owner[r] == s.current && s.current.value < |s.procs| && Holds(s.procs[s.current.value], r)
  {
    assert s.owner[r].Some? ==> Holds(s.procs[s.owner[r].value], r);
  }

  // The other processes keep what they hold and their priorities.
  ghost predicate OthersKeep(s: State, s': State) {
    && s.current.Some? && s'.current == s.current && s.current.value < |s.procs| == |s'.procs|
    && (forall p :: 0 <= p < |s.procs| ==> s'.procs[p].prioOrig == s.procs[p].prioOrig)
    && (forall p :: 0 <= p < |s.procs| && p != s.current.value ==>
          s'.procs[p].prio == s.procs[p].prio && s'.procs[p].held == s.procs[p].held)
  }

  // Taking anything raises the running process to the ceiling.
  ghost predicate RaisedByTaking(s: State, s': State) {
    OthersKeep(s, s') &&
    var p, p' := s.procs[s.current.value], s'.procs[s.current.value];
    |p.held| <= |p'.held| && p'.prio == (if |p.held| < |p'.held| then MAX_PRIO else p.prio)
  }

  // Giving anything back resets it to its original priority.
  ghost predicate ResetByGiving(s: State, s': State) {
    OthersKeep(s, s') &&
    var p, p' := s.procs[s.current.value], s'.procs[s.current.value];
    |p'.held| <= |p.held| && p'.prio == (if |p'.held| < |p.held| then p.prioOrig else p.prio)
  }

  lemma {:induction false} AcquireFromRaises(s: State, k: nat)
    requires Runs(s) && OwnersInRange(s) && WantsInRange(s, s.current.value)
    requires k <= |s.procs[s.current.value].want|
    requires forall j :: 0 <= j < k ==> s.procs[s.current.value].want[j].at != s.procs[s.current.value].age
    ensures RaisedByTaking(s, AcquireFrom(Pcp, s, k).0)
    decreases |s.procs[s.current.value].want| - k
  {
    var p := s.procs[s.current.value];
    if k == |p.want| {
    } else if p.want[k].at != p.age {
      AcquireFromRaises(s, k + 1);
    } else if s.owner[p.want[k].id].None? {
      AcquireStep(Pcp, s, k);
      AcquireFromRaises(Grant(Pcp, s, k), k);
    }
  }

  lemma {:induction false} ReleaseFromResets(s: State, k: nat)
    requires Releasing(s, k) && HeldInRange(s, s.current.value)
    ensures ResetByGiving(s, ReleaseFrom(Pcp, s, k))
    decreases |s.procs[s.current.value].held| - k
  {
    if k < |s.procs[s.current.value].held| {
      var s1, k1 := ReleaseFromNext(Pcp, s, k);
      ReleaseResets(s, k);
      ReleaseFromResets(s1, k1);
    }
  }

  lemma ReleaseResets(s: State, k: nat)
    requires Releasing(s, k) && HeldInRange(s, s.current.value) && k < |s.procs[s.current.value].held|
    ensures ResetByGiving(s, CountDown(s, k)) && ResetByGiving(s, Release(Pcp, CountDown(s, k), k))
    ensures |Release(Pcp, CountDown(s, k), k).procs[s.current.value].held| == |s.procs[s.current.value].held| - 1
  {
    ReleaseInRange(Pcp, CountDown(s, k), k);
  }

  // A release leaves the running process at the ceiling with respect to what it still holds if
  // and only if what it gives back is all it held.
  lemma ReleaseAtCeilingIff(s: State, k: nat)
    requires Releasing(s, k) && k < |s.procs[s.current.value].held| && HeldInRange(s, s.current.value)
    requires s.procs[s.current.value].prioOrig < MAX_PRIO
    ensures var p := Release(Pcp, CountDown(s, k), k).procs[s.current.value];
            (p.held != [] ==> p.prio == MAX_PRIO) <==> |s.procs[s.current.value].held| == 1
  {
    ReleaseResets(s, k);
  }

  lemma {:induction false} SurvivorsOrExpired(held: seq<Entry>)
    ensures |Survivors(held)| + |Expired(held)| == |held|
  {
    if held != [] { SurvivorsOrExpired(held[1..]); }
  }

  // The queues stay empty, so who is at the ceiling depends on what the process gave back.
  lemma ResetCeilingIff(s: State, s': State)
    requires PcpOk(s) && ResetByGiving(s, s') && |s'.waitq| == NR_RESOURCES && forall r :: 0 <= r < NR_RESOURCES ==> s'.waitq[r] == []
    ensures var n, n' := |s.procs[s.current.value].held|, |s'.procs[s.current.value].held|;
            PcpOk(s') <==> n' == 0 || n' == n
  {
  }

  lemma AgedResets(s: State)
    requires Runs(s) && FirstDue(s.procs[s.current.value].want, s.procs[s.current.value].age) == |s.procs[s.current.value].want|
    ensures ResetByGiving(s, Aged(Pcp, s))
  {
    AgeInv(s);
    InvInRange(Age(s), 0);
    ReleaseFromResets(Age(s), 0);
  }

  lemma AgedCeilingIff(s: State)
    requires Runs(s) && PcpOk(s)
    requires FirstDue(s.procs[s.current.value].want, s.procs[s.current.value].age) == |s.procs[s.current.value].want|
    ensures PcpOk(Aged(Pcp, s)) <==> Expired(s.procs[s.current.value].held) == [] || Survivors(s.procs[s.current.value].held) == []
  {
    var held := s.procs[s.current.value].held;
    var s' := Aged(Pcp, s);
    AgedResets(s);
    ReleasesExactlyExpired(Pcp, s);
    SurvivorsOrExpired(held);
    forall r: nat | r < NR_RESOURCES ensures s'.waitq[r] == [] { assert ResourceAfter(Pcp, s, s', Expired(held), r); }
    ResetCeilingIff(s, s');
  }

  // What the acquire loop did, when nobody but the running process owned anything.
  lemma AcquiredAll(s: State)
    requires Runs(s) && PcpOk(s)
    ensures var (s', ok) := Acquired(Pcp, s); var p := s.procs[s.current.value];
            && InRange(s') && |s'.procs| == |s.procs|
            && (ok <==> DistinctIds(Taken(p)))
            && (ok ==> s'.procs[s.current.value].held == Taken(p) && s'.waitq == s.waitq)
            && (!ok ==> exists r :: 0 <= r < NR_RESOURCES && s'.waitq[r] != [])
  {
    var (s', ok) := Acquired(Pcp, s);
    var p := s.procs[s.current.value];
    var due := Due(p.want, p.age);
    AcquiredInv(Pcp, s);
    AcquireServesInOrder(Pcp, s);
    var n: nat :| Served(s, 0, s', ok, n);
    assert p.want[0..] == p.want;
    if ok {
      assert due[..n] == due && HeldOk(s'.procs[s.current.value], |Taken(p)|);
    } else {
      BlockedOnOwn(s, s', n);
    }
  }

  lemma BlockedOnOwn(s: State, s': State, n: nat)
    requires Runs(s) && PcpOk(s) && InRange(s') && |s'.procs| == |s.procs|
    requires var p := s.procs[s.current.value]; ServedDue(s, s', false, Due(p.want, p.age), n)
    ensures !DistinctIds(Taken(s.procs[s.current.value]))
    ensures exists r :: 0 <= r < NR_RESOURCES && s'.waitq[r] != []
  {
    var p := s.procs[s.current.value];
    var due := Due(p.want, p.age);
    var r := due[n].id;
    assert due[n..][0] == due[n] && s'.waitq[r] != [];
    assert Taken(p)[|p.held| + n] == due[n];
    if Uses(due[..n], r) {
      var i :| 0 <= i < n && due[..n][i].id == r;
      assert Taken(p)[|p.held| + i].id == r;
    } else {
      OwnerIsCurrent(s, r);
      var i :| 0 <= i < |p.held| && p.held[i].id == r;
      assert Taken(p)[i].id == r;
    }
  }

  lemma ServeCeilingIff(s: State)
    requires Runs(s) && PcpOk(s)
    ensures PcpOk(Serve(Pcp, s)) <==> GivesBackAtOnce(s.procs[s.current.value])
    ensures GivesBackAtOnce(s.procs[s.current.value]) ==> Acquired(Pcp, s).1
  {
    RunsInRange(s);
    AcquiredInv(Pcp, s);
    AcquiredAll(s);
    AcquireFromRaises(s, 0);
    var (s1, ok) := Acquired(Pcp, s);
    if ok { AgedCeilingIff(s1); }
  }

  // Whoever is dispatched next gives back at once.
  ghost predicate NextGivesBack(s: State) {
    Good(s) && var d := Dispatched(Pcp, s); (d.current.Some? ==> d.current.value < |d.procs| && GivesBackAtOnce(d.procs[d.current.value]))
  }

  // A turn keeps the ceiling if and only if the process dispatched gives back at once.
  lemma TurnCeilingIff(s: State)
    requires Good(s) && PcpOk(s)
    ensures PcpOk(Tick(Pcp, s).0) <==> NextGivesBack(s)
  {
    DispatchedPcp(s);
    DispatchedInv(Pcp, s);
    var d := Dispatched(Pcp, s);
    if d.current.Some? {
      ServeCeilingIff(d);
      ServeInv(Pcp, d);
      NextTickCeiling(Serve(Pcp, d));
    } else {
      NextTickCeiling(d);
    }
  }

  lemma NextTickCeiling(s: State)
    ensures PcpOk(NextTick(s)) <==> PcpOk(s)
  {
  }

  ghost predicate BelowCeiling(procs: seq<Proc>) {
    forall p :: 0 <= p < |procs| ==> procs[p].prioOrig < MAX_PRIO
  }

  lemma {:induction false} RunCeiling(procs: seq<Proc>, ss: seq<State>, i: nat)
    requires Script(procs) && BelowCeiling(procs) && Run(Pcp, procs, ss) && i < |ss|
    requires forall j :: 0 <= j < i ==> NextGivesBack(ss[j])
    ensures PcpOk(ss[i])
  {
    if i > 0 {
      RunCeiling(procs, ss, i - 1);
      assert Turn(Pcp, ss[i - 1], ss[i]) && NextGivesBack(ss[i - 1]);
      TurnCeilingIff(ss[i - 1]);
    }
  }

  // In every run of every script below the ceiling: nobody ever waits and owners stay on top if
  // and only if in each turn the process dispatched gives back at once.
  lemma RunCeilingIff(procs: seq<Proc>, ss: seq<State>)
    requires Script(procs) && BelowCeiling(procs) && Run(Pcp, procs, ss)
    ensures (forall i :: 0 <= i < |ss| ==> PcpOk(ss[i])) <==> (forall i :: 0 <= i < |ss| - 1 ==> NextGivesBack(ss[i]))
  {
    if forall i :: 0 <= i < |ss| ==> PcpOk(ss[i]) {
      forall i: nat | i < |ss| - 1 ensures NextGivesBack(ss[i]) {
        assert Turn(Pcp, ss[i], ss[i + 1]) && PcpOk(ss[i]) && PcpOk(ss[i + 1]);
        TurnCeilingIff(ss[i]);
      }
    }
    if forall i :: 0 <= i < |ss| - 1 ==> NextGivesBack(ss[i]) {
      forall i: nat | i < |ss| ensures PcpOk(ss[i]) { RunCeiling(procs, ss, i); }
    }
  }

  /* ---------- Scripts whose processes always give back at once ---------- */

  // The uses do not overlap, or are of different resources and end together.
  predicate Together(e: Entry, f: Entry) {
    Apart(e, f) || (e.id != f.id && e.at + e.duration == f.at + f.duration)
  }

  ghost predicate UsesTogether(p: Proc) {
    && (forall i, j :: 0 <= i < |p.held| && 0 <= j < |p.held| && i != j ==> Together(p.held[i], p.held[j]))
    && (forall i, j :: 0 <= i < |p.held| && 0 <= j < |p.want| ==> Together(p.held[i], p.want[j]))
    && (forall i, j :: 0 <= i < |p.want| && 0 <= j < |p.want| && i != j ==> Together(p.want[i], p.want[j]))
  }

  ghost predicate AllTogether(s: State) {
    forall p :: 0 <= p < |s.procs| ==> UsesTogether(s.procs[p])
  }

  lemma SameUsesTogether(s: State, s': State)
    requires AllTogether(s) && SameUses(s, s')
    ensures AllTogether(s')
  {
    forall p | 0 <= p < |s'.procs| ensures UsesTogether(s'.procs[p]) { assert UsesTogether(s.procs[p]); }
  }

  lemma GrantedTogether(p: Proc, p': Proc, k: nat)
    requires UsesTogether(p) && k < |p.want| && p'.want == Remove(p.want, k) && p'.held == p.held + [p.want[k]]
    ensures UsesTogether(p')
  {
    forall i: nat, j: nat | i < |p'.want| && j < |p'.want| && i != j ensures Together(p'.want[i], p'.want[j]) {
      RemovedAt(p.want, k, i);
      RemovedAt(p.want, k, j);
    }
    forall i: nat, j: nat | i < |p'.held| && j < |p'.want| ensures Together(p'.held[i], p'.want[j]) { RemovedAt(p.want, k, j); }
  }

  lemma GrantTogether(s: State, k: nat)
    requires InRange(s) && s.current.Some? && AllTogether(s) && k < |s.procs[s.current.value].want| && WantsInRange(s, s.current.value)
    ensures AllTogether(Grant(Pcp, s, k))
  {
    var c := s.current.value;
    var s' := Grant(Pcp, s, k);
    GrantedTogether(s.procs[c], s'.procs[c], k);
    forall p | 0 <= p < |s'.procs| ensures UsesTogether(s'.procs[p]) { assert UsesTogether(s.procs[p]); }
  }

  lemma {:induction false} AcquireFromTogether(s: State, k: nat)
    requires Runs(s) && AllTogether(s) && OwnersInRange(s) && WantsInRange(s, s.current.value)
    requires k <= |s.procs[s.current.value].want|
    requires forall j :: 0 <= j < k ==> s.procs[s.current.value].want[j].at != s.procs[s.current.value].age
    ensures AllTogether(AcquireFrom(Pcp, s, k).0)
    decreases |s.procs[s.current.value].want| - k
  {
    var p := s.procs[s.current.value];
    if k == |p.want| {
    } else if p.want[k].at != p.age {
      AcquireFromTogether(s, k + 1);
    } else if s.owner[p.want[k].id].None? {
      AcquireStep(Pcp, s, k);
      GrantTogether(s, k);
      AcquireFromTogether(Grant(Pcp, s, k), k);
    } else {
      BlockTogether(s, p.want[k].id);
    }
  }

  lemma BlockTogether(s: State, r: nat)
    requires InRange(s) && s.current.Some? && r < NR_RESOURCES && s.owner[r].Some? && s.owner[r].value < |s.procs| && AllTogether(s)
    ensures AllTogether(Block(Pcp, s, r))
  {
    SameUsesTogether(s, Block(Pcp, s, r));
  }

  // The running process loses a held entry, or has one counted down.
  lemma FewerTogether(p: Proc, p': Proc, k: nat)
    requires UsesTogether(p) && k < |p.held| && p'.want == p.want
    requires || p'.held == Remove(p.held, k)
             || exists e :: p'.held == p.held[k := e] && e.id == p.held[k].id && e.at == p.held[k].at && e.duration == p.held[k].duration
    ensures UsesTogether(p')
  {
  }

  lemma CountDownTogether(s: State, k: nat)
    requires AllTogether(s) && InRange(s) && s.current.Some? && k < |s.procs[s.current.value].held|
    ensures AllTogether(CountDown(s, k))
  {
    var c := s.current.value;
    FewerTogether(s.procs[c], CountDown(s, k).procs[c], k);
    forall p | 0 <= p < |s.procs| ensures UsesTogether(CountDown(s, k).procs[p]) { assert UsesTogether(s.procs[p]); }
  }

  lemma ReleaseTogether(s: State, k: nat)
    requires AllTogether(s) && InRange(s) && s.current.Some? && k < |s.procs[s.current.value].held| && HeldInRange(s, s.current.value)
    ensures AllTogether(Release(Pcp, s, k))
  {
    var c := s.current.value;
    var d := Drop(Pcp, s, k);
    FewerTogether(s.procs[c], d.procs[c], k);
    forall p | 0 <= p < |d.procs| ensures UsesTogether(d.procs[p]) { assert UsesTogether(s.procs[p]); }
    SameUsesTogether(d, Waken(Pcp, d, s.procs[c].held[k].id));
  }

  lemma {:induction false} ReleaseFromTogether(s: State, k: nat)
    requires Releasing(s, k) && AllTogether(s) && HeldInRange(s, s.current.value)
    ensures AllTogether(ReleaseFrom(Pcp, s, k))
    decreases |s.procs[s.current.value].held| - k
  {
    if k < |s.procs[s.current.value].held| {
      var s1, k1 := ReleaseFromNext(Pcp, s, k);
      CountDownTogether(s, k);
      if k1 == k { ReleaseTogether(CountDown(s, k), k); }
      ReleaseFromTogether(s1, k1);
    }
  }

  lemma ServeTogether(s: State)
    requires Runs(s) && AllTogether(s)
    ensures AllTogether(Serve(Pcp, s))
  {
    RunsInRange(s);
    AcquireFromTogether(s, 0);
    AcquiredInv(Pcp, s);
    var (s1, ok) := Acquired(Pcp, s);
    if ok {
      AgeInv(s1);
      InvInRange(Age(s1), 0);
      SameUsesTogether(s1, Age(s1));
      ReleaseFromTogether(Age(s1), 0);
    }
  }

  lemma DispatchedTogether(s: State)
    requires Good(s) && AllTogether(s)
    ensures AllTogether(Dispatched(Pcp, s))
  {
    ForkFromInv(s, 0);
    ForkFromUses(s, 0);
    DispatchUses(Pcp, ForkFrom(s, 0));
    SameUsesTogether(s, Dispatched(Pcp, s));
  }

  lemma TickTogether(s: State)
    requires Good(s) && AllTogether(s)
    ensures AllTogether(Tick(Pcp, s).0)
  {
    DispatchedTogether(s);
    DispatchedInv(Pcp, s);
    var s1 := Dispatched(Pcp, s);
    if s1.current.Some? {
      ServeTogether(s1);
      SameUsesTogether(Serve(Pcp, s1), NextTick(Serve(Pcp, s1)));
    } else {
      SameUsesTogether(s1, NextTick(s1));
    }
  }

  // Two due requests are two requests.
  lemma {:induction false} DueAreWants(want: seq<Entry>, age: nat, i: nat, j: nat) returns (a: nat, b: nat)
    requires i <= j < |Due(want, age)|
    ensures a <= b < |want| && want[a] == Due(want, age)[i] && want[b] == Due(want, age)[j] && want[a].at == age && want[b].at == age
    ensures i < j ==> a < b
  {
    if want[0].at != age {
      a, b := DueAreWants(want[1..], age, i, j);
      a, b := a + 1, b + 1;
    } else if j == 0 {
      a, b := 0, 0;
    } else if i == 0 {
      a, b := DueAreWants(want[1..], age, j - 1, j - 1);
      a, b := 0, b + 1;
    } else {
      a, b := DueAreWants(want[1..], age, i - 1, j - 1);
      a, b := a + 1, b + 1;
    }
  }

  // Entries in use at the process's age overlap.
  predicate InUse(e: Entry, age: nat) {
    e.at <= age < e.at + e.duration && e.left == e.at + e.duration - age
  }

  lemma TakenInUse(p: Proc, i: nat)
    requires HeldOk(p, |p.held|) && WantOk(p) && i < |Taken(p)|
    ensures InUse(Taken(p)[i], p.age)
  {
    if i >= |p.held| { var a, b := DueAreWants(p.want, p.age, i - |p.held|, i - |p.held|); }
  }

  lemma TakenTogether(p: Proc, i: nat, j: nat)
    requires UsesTogether(p) && i < j < |Taken(p)|
    ensures Together(Taken(p)[i], Taken(p)[j])
  {
    var n := |p.held|;
    if j >= n {
      var a, b := DueAreWants(p.want, p.age, if i < n then j - n else i - n, j - n);
    }
  }

  lemma {:induction false} SameLeft(es: seq<Entry>)
    requires forall i, j :: 0 <= i < j < |es| ==> es[i].left == es[j].left
    ensures Expired(es) == [] || Survivors(es) == []
  {
    if |es| > 1 {
      assert es[0].left == es[1].left;
      SameLeft(es[1..]);
    }
  }

  lemma TogetherGivesBack(p: Proc)
    requires UsesTogether(p) && HeldOk(p, |p.held|) && WantOk(p)
    ensures GivesBackAtOnce(p)
  {
    forall i: nat, j: nat | i < j < |Taken(p)| ensures Taken(p)[i].left == Taken(p)[j].left && Taken(p)[i].id != Taken(p)[j].id {
      TakenInUse(p, i);
      TakenInUse(p, j);
      TakenTogether(p, i, j);
    }
    SameLeft(Taken(p));
  }

  ghost predicate CeilingScript(procs: seq<Proc>) {
    Script(procs) && BelowCeiling(procs) && forall p :: 0 <= p < |procs| ==> UsesTogether(procs[p])
  }

  lemma {:induction false} RunTogether(procs: seq<Proc>, ss: seq<State>, i: nat)
    requires CeilingScript(procs) && Run(Pcp, procs, ss) && i < |ss|
    ensures AllTogether(ss[i])
  {
    if i > 0 {
      RunTogether(procs, ss, i - 1);
      assert Turn(Pcp, ss[i - 1], ss[i]);
      TickTogether(ss[i - 1]);
    }
  }

  lemma RunPcp(procs: seq<Proc>, ss: seq<State>, i: nat)
    requires CeilingScript(procs) && Run(Pcp, procs, ss) && i < |ss|
    ensures PcpOk(ss[i]) && NextGivesBack(ss[i])
  {
    forall j: nat | j <= i ensures NextGivesBack(ss[j]) {
      RunGood(Pcp, procs, ss, j);
      RunTogether(procs, ss, j);
      DispatchedTogether(ss[j]);
      DispatchedInv(Pcp, ss[j]);
      var d := Dispatched(Pcp, ss[j]);
      if d.current.Some? {
        var p := d.procs[d.current.value];
        assert UsesTogether(p) && HeldOk(p, |p.held|) && WantOk(p);
        TogetherGivesBack(p);
      }
    }
    RunCeiling(procs, ss, i);
  }

  // In every reachable state of a script whose overlapping uses are of different resources and
  // end together: all wait queues are empty; whoever owns a resource is the current process,
  // runs at the ceiling, and is dispatched again; and the next turn blocks nobody.
  lemma CeilingNeverBlocks(procs: seq<Proc>, ss: seq<State>, i: nat)
    requires CeilingScript(procs) && Run(Pcp, procs, ss) && i < |ss|
    ensures var s := ss[i];
            && Good(s) && |s.owner| == |s.waitq| == NR_RESOURCES
            && (forall r :: 0 <= r < NR_RESOURCES ==> s.waitq[r] == [])
            && (forall r :: 0 <= r < NR_RESOURCES && s.owner[r].Some? ==>
                  && s.current == s.owner[r] && s.owner[r].value < |s.procs| && s.procs[s.owner[r].value].prio == MAX_PRIO
                  && Dispatched(Pcp, s).current == s.owner[r])
            && (Runs(Dispatched(Pcp, s)) ==> Acquired(Pcp, Dispatched(Pcp, s)).1)
  {
    RunPcp(procs, ss, i);
    RunGood(Pcp, procs, ss, i);
    var s := ss[i];
    DispatchedPcp(s);
    forall r | 0 <= r < NR_RESOURCES && s.owner[r].Some?
      ensures s.owner[r].value < |s.procs| && s.procs[s.owner[r].value].held != []
    {
      assert Holds(s.procs[s.owner[r].value], r);
    }
    if Runs(Dispatched(Pcp, s)) { ServeCeilingIff(Dispatched(Pcp, s)); }
  }

  // At the end of such a script every process has run its whole life.
  lemma CeilingScriptsComplete(procs: seq<Proc>, ss: seq<State>, end: State, p: nat)
    requires CeilingScript(procs) && Run(Pcp, procs, ss) && Over(Pcp, ss[|ss| - 1], end) && p < |end.procs|
    ensures end.procs[p].status == Exited && end.procs[p].age == end.procs[p].lifespan
  {
    var last := ss[|ss| - 1];
    RunPcp(procs, ss, |ss| - 1);
    TurnCeilingIff(last);
    OverIsIdle(Pcp, last, end);
    IdlePlace(end, p);
    assert PlaceOk(end.procs[p]);
  }
}
