/**
 The simulation always ends, even with circular waits, and ends with every process finished
 when no process requests a resource numbered at or below one it still holds.
 */
module SchedProgress {
  import opened Sums
  import opened SchedModel
  import opened SchedSafety

  /* ---------- The measure ---------- */

  function LifeW(p: Proc): int { p.lifespan - p.age }

  function LiveW(p: Proc): int {
    if p.link.InFork? || p.link.InReady? || (p.link.Detached? && p.status != Exited) then 1 else 0
  }

  function Lives(procs: seq<Proc>): seq<int> {
    seq(|procs|, p requires 0 <= p < |procs| => LifeW(procs[p]))
  }

  function Actives(procs: seq<Proc>): seq<int> {
    seq(|procs|, p requires 0 <= p < |procs| => LiveW(procs[p]))
  }

  // Ticks all processes together still have to run.
  function Remaining(s: State): int { Sum(Lives(s.procs)) }

  // Processes that are neither waiting nor finished.
  function NotWaiting(s: State): int { Sum(Actives(s.procs)) }

  function LatestStart(procs: seq<Proc>): nat {
    if procs == [] then 0
    else
      var m := LatestStart(procs[..|procs| - 1]);
      if procs[|procs| - 1].startsAt > m then procs[|procs| - 1].startsAt else m
  }

  // Ticks until the last process can have started.
  function UntilLast(s: State): nat {
    if LatestStart(s.procs) > s.ticks then LatestStart(s.procs) - s.ticks else 0
  }

  lemma {:induction false} LatestStartIsMax(procs: seq<Proc>, p: nat)
    requires p < |procs|
    ensures procs[p].startsAt <= LatestStart(procs)
  {
    if p < |procs| - 1 { LatestStartIsMax(procs[..|procs| - 1], p); }
  }

  lemma {:induction false} LatestStartSame(procs: seq<Proc>, procs': seq<Proc>)
    requires |procs| == |procs'| && forall p :: 0 <= p < |procs| ==> procs'[p].startsAt == procs[p].startsAt
    ensures LatestStart(procs') == LatestStart(procs)
  {
    if procs != [] { LatestStartSame(procs[..|procs| - 1], procs'[..|procs| - 1]); }
  }

  lemma MeasureNonNegative(s: State)
    requires Inv(s)
    ensures Remaining(s) >= 0 && NotWaiting(s) >= 0
  {
    var zeros := seq(|s.procs|, _ => 0);
    SumOfZeros(zeros);
    forall p | 0 <= p < |s.procs| ensures Lives(s.procs)[p] >= 0 { assert PlaceOk(s.procs[p]); }
    SumMonotone(zeros, Lives(s.procs));
    SumMonotone(zeros, Actives(s.procs));
  }

  // The processes keep their scripts and ages, and nobody starts to count as not waiting.
  predicate NoYounger(s: State, s': State) {
    && |s'.procs| == |s.procs|
    && forall p :: 0 <= p < |s.procs| ==>
         && s'.procs[p].age == s.procs[p].age && s'.procs[p].lifespan == s.procs[p].lifespan
         && s'.procs[p].startsAt == s.procs[p].startsAt
         && LiveW(s'.procs[p]) <= LiveW(s.procs[p])
  }

  lemma NoYoungerMeasure(s: State, s': State)
    requires NoYounger(s, s')
    ensures Remaining(s') == Remaining(s) && NotWaiting(s') <= NotWaiting(s)
    ensures LatestStart(s'.procs) == LatestStart(s.procs)
  {
    assert Lives(s'.procs) == Lives(s.procs);
    SumMonotone(Actives(s'.procs), Actives(s.procs));
    LatestStartSame(s.procs, s'.procs);
  }

  lemma {:induction false} ForkFromKeeps(s: State, k: nat)
    requires Inv(s) && InRange(s) && k <= |s.forkq|
    ensures NoYounger(s, ForkFrom(s, k)) && ForkFrom(s, k).ticks == s.ticks
    decreases |s.forkq| - k
  {
    if k < |s.forkq| {
      if s.procs[s.forkq[k]].startsAt <= s.ticks {
        assert s.forkq[k] in s.forkq;
        ForkAtInv(s, k);
        ForkFromKeeps(ForkAt(s, k), k);
      } else {
        ForkFromKeeps(s, k + 1);
      }
    }
  }

  // The first n processes in the fork queue start after the given tick.
  predicate StartLater(s: State, n: nat, ticks: nat) {
    && n <= |s.forkq|
    && forall j :: 0 <= j < n ==> s.forkq[j] < |s.procs| && s.procs[s.forkq[j]].startsAt > ticks
  }

  // What is left in the fork queue is not due yet.
  lemma {:induction false} ForkFromLeavesLater(s: State, k: nat)
    requires InRange(s) && StartLater(s, k, s.ticks)
    ensures StartLater(ForkFrom(s, k), |ForkFrom(s, k).forkq|, s.ticks)
    decreases |s.forkq| - k
  {
    if k < |s.forkq| {
      if s.procs[s.forkq[k]].startsAt <= s.ticks {
        ForkFromLeavesLater(ForkAt(s, k), k);
      } else {
        ForkFromLeavesLater(s, k + 1);
      }
    }
  }

  lemma LeaveKeeps(s: State)
    requires Inv(s) && InRange(s)
    ensures NoYounger(s, Leave(s)) && Leave(s).ticks == s.ticks && Leave(s).forkq == s.forkq
  {
    if s.current.Some? { assert PlaceOk(s.procs[s.current.value]); }
  }

  lemma PickKeeps(s: State, i: nat)
    requires ListIs(s.procs, s.ready, InReady) && InRange(s) && i < |s.ready|
    ensures NoYounger(s, Pick(s, i)) && Pick(s, i).ticks == s.ticks && Pick(s, i).forkq == s.forkq
  {
    assert s.ready[i] in s.ready;
  }

  lemma DispatchKeeps(policy: Policy, s: State)
    requires Inv(s) && InRange(s)
    ensures NoYounger(s, Dispatch(policy, s)) && Dispatch(policy, s).ticks == s.ticks && Dispatch(policy, s).forkq == s.forkq
  {
    LeaveKeeps(s);
    LeaveReady(s);
    if Leave(s).ready != [] {
      PickKeeps(Leave(s), Selected(policy, s));
      NoYoungerTransitive(s, Leave(s), Pick(Leave(s), Selected(policy, s)));
    }
  }

  lemma LeaveReady(s: State)
    requires Inv(s) && InRange(s)
    ensures InRange(Leave(s)) && ListIs(Leave(s).procs, Leave(s).ready, InReady)
  {
    LeaveInRange(s);
    LeaveLists(s);
  }

  lemma NoYoungerTransitive(s: State, s1: State, s2: State)
    requires NoYounger(s, s1) && NoYounger(s1, s2)
    ensures NoYounger(s, s2)
  {
  }

  lemma {:induction false} AcquireFromKeeps(policy: Policy, s: State, k: nat)
    requires Runs(s) && OwnersInRange(s) && WantsInRange(s, s.current.value)
    requires k <= |s.procs[s.current.value].want|
    requires forall j :: 0 <= j < k ==> s.procs[s.current.value].want[j].at != s.procs[s.current.value].age
    ensures var (s', ok) := AcquireFrom(policy, s, k);
            && NoYounger(s, s') && s'.ticks == s.ticks && s'.current == s.current
            && (!ok ==> LiveW(s'.procs[s.current.value]) < LiveW(s.procs[s.current.value]))
    decreases |s.procs[s.current.value].want| - k
  {
    var p := s.procs[s.current.value];
    if k == |p.want| {
    } else if p.want[k].at != p.age {
      AcquireFromKeeps(policy, s, k + 1);
    } else if s.owner[p.want[k].id].None? {
      AcquireStep(policy, s, k);
      GrantKeeps(policy, s, k);
      AcquireFromKeeps(policy, Grant(policy, s, k), k);
    } else {
      BlockKeeps(policy, s, p.want[k].id);
    }
  }

  lemma GrantKeeps(policy: Policy, s: State, k: nat)
    requires InRange(s) && s.current.Some? && k < |s.procs[s.current.value].want| && WantsInRange(s, s.current.value)
    ensures var s' := Grant(policy, s, k);
            NoYounger(s, s') && s'.ticks == s.ticks && LiveW(s'.procs[s.current.value]) == LiveW(s.procs[s.current.value])
  {
  }

  lemma BlockKeeps(policy: Policy, s: State, r: nat)
    requires Runs(s) && r < NR_RESOURCES && s.owner[r].Some? && s.owner[r].value < |s.procs|
    ensures var s' := Block(policy, s, r);
            NoYounger(s, s') && s'.ticks == s.ticks && s'.current == s.current && LiveW(s'.procs[s.current.value]) < LiveW(s.procs[s.current.value])
  {
  }

  // Releasing changes no age, though it may wake waiters.
  predicate SameAges(s: State, s': State) {
    && |s'.procs| == |s.procs|
    && forall p :: 0 <= p < |s.procs| ==>
         && s'.procs[p].age == s.procs[p].age && s'.procs[p].lifespan == s.procs[p].lifespan
         && s'.procs[p].startsAt == s.procs[p].startsAt
  }

  lemma ReleaseKeeps(policy: Policy, s: State, k: nat)
    requires InRange(s) && s.current.Some? && k < |s.procs[s.current.value].held| && HeldInRange(s, s.current.value)
    ensures SameAges(s, Release(policy, CountDown(s, k), k))
  {
    ReleaseInRange(policy, CountDown(s, k), k);
  }

  lemma {:induction false} ReleaseFromKeeps(policy: Policy, s: State, k: nat)
    requires InRange(s) && s.current.Some? && HeldInRange(s, s.current.value)
    requires k <= |s.procs[s.current.value].held|
    ensures SameAges(s, ReleaseFrom(policy, s, k))
    decreases |s.procs[s.current.value].held| - k
  {
    var c := s.current.value;
    if k < |s.procs[c].held| {
      var s1 := CountDown(s, k);
      if s1.procs[c].held[k].left == 0 {
        ReleaseKeeps(policy, s, k);
        ReleaseInRange(policy, s1, k);
        ReleaseFromKeeps(policy, Release(policy, s1, k), k);
        assert ReleaseFrom(policy, s, k) == ReleaseFrom(policy, Release(policy, s1, k), k);
      } else {
        ReleaseFromKeeps(policy, s1, k + 1);
        assert ReleaseFrom(policy, s, k) == ReleaseFrom(policy, s1, k + 1);
      }
    }
  }

  lemma AgedKeeps(policy: Policy, s: State)
    requires Runs(s)
    requires FirstDue(s.procs[s.current.value].want, s.procs[s.current.value].age) == |s.procs[s.current.value].want|
    ensures SameAges(Age(s), Aged(policy, s))
  {
    AgeInv(s);
    InvInRange(Age(s), 0);
    ReleaseFromKeeps(policy, Age(s), 0);
  }

  lemma AgeTakesOne(s: State, s': State)
    requires InRange(s) && s.current.Some? && SameAges(Age(s), s')
    ensures Remaining(s') == Remaining(s) - 1
  {
    SumUpdate(Lives(s.procs), Lives(Age(s).procs), s.current.value);
    assert Lives(s'.procs) == Lives(Age(s).procs);
  }

  // A turn in which a process runs takes a tick of its life or one process out of the running.
  lemma ServeProgress(policy: Policy, s: State)
    requires Runs(s)
    ensures var s' := Serve(policy, s);
            Remaining(s') < Remaining(s) || (Remaining(s') == Remaining(s) && NotWaiting(s') < NotWaiting(s))
  {
    RunsInRange(s);
    AcquireFromKeeps(policy, s, 0);
    AcquiredInv(policy, s);
    var (s1, ok) := Acquired(policy, s);
    NoYoungerMeasure(s, s1);
    if ok {
      AgedKeeps(policy, s1);
      AgeTakesOne(s1, Aged(policy, s1));
    } else {
      OneFewer(s, s1, s.current.value);
    }
  }

  lemma OneFewer(s: State, s1: State, c: nat)
    requires NoYounger(s, s1) && c < |s.procs| && LiveW(s1.procs[c]) < LiveW(s.procs[c])
    ensures NotWaiting(s1) < NotWaiting(s)
  {
    SumStrict(Actives(s1.procs), Actives(s.procs), c);
  }

  lemma DispatchedKeeps(policy: Policy, s: State)
    requires Inv(s) && InRange(s)
    ensures var s1 := Dispatched(policy, s);
            && NoYounger(s, s1) && s1.ticks == s.ticks
            && StartLater(s1, |s1.forkq|, s.ticks)
  {
    ForkFromInv(s, 0);
    ForkFromKeeps(s, 0);
    ForkFromLeavesLater(s, 0);
    DispatchKeeps(policy, ForkFrom(s, 0));
  }

  ghost predicate Smaller(s': State, s: State) {
    || Remaining(s') < Remaining(s)
    || (Remaining(s') == Remaining(s) && NotWaiting(s') < NotWaiting(s))
    || (Remaining(s') == Remaining(s) && NotWaiting(s') == NotWaiting(s) && UntilLast(s') < UntilLast(s))
  }

  lemma IdleProgress(s: State, s1: State)
    requires NoYounger(s, s1) && s1.ticks == s.ticks && s1.forkq != []
    requires StartLater(s1, |s1.forkq|, s.ticks)
    ensures Smaller(NextTick(s1), s)
  {
    NoYoungerMeasure(s, s1);
    LatestStartIsMax(s1.procs, s1.forkq[0]);
  }

  lemma RunProgress(policy: Policy, s: State, s1: State)
    requires NoYounger(s, s1) && Runs(s1)
    ensures Smaller(NextTick(Serve(policy, s1)), s)
  {
    NoYoungerMeasure(s, s1);
    ServeProgress(policy, s1);
  }

  // Every turn that is not the last decreases, lexicographically, the ticks left to run, the
  // processes not waiting, and the ticks until the last process has started.
  lemma TickDecreases(policy: Policy, s: State)
    requires Inv(s) && InRange(s) && !Tick(policy, s).1
    ensures Smaller(Tick(policy, s).0, s)
  {
    DispatchedKeeps(policy, s);
    DispatchedInv(policy, s);
    var s1 := Dispatched(policy, s);
    if s1.current.Some? { RunProgress(policy, s, s1); } else { IdleProgress(s, s1); }
  }

  // From every good state the simulation ends after finitely many turns.
  lemma {:induction false} Ends(policy: Policy, s: State) returns (ss: seq<State>)
    requires Good(s)
    ensures ss != [] && ss[0] == s
    ensures forall i :: 0 < i < |ss| ==> Turn(policy, ss[i - 1], ss[i])
    ensures Last(policy, ss[|ss| - 1])
    decreases Remaining(s), NotWaiting(s), UntilLast(s)
  {
    var s' := Tick(policy, s).0;
    if Tick(policy, s).1 {
      ss := [s];
    } else {
      TurnGood(policy, s, s');
      TickDecreases(policy, s);
      MeasureNonNegative(s);
      MeasureNonNegative(s');
      var rest := Ends(policy, s');
      ss := [s] + rest;
      assert Turn(policy, s, s');
    }
  }

  // Every script ends, under every policy, whatever the processes wait for.
  lemma ScriptsEnd(policy: Policy, procs: seq<Proc>) returns (ss: seq<State>)
    requires Script(procs)
    ensures Run(policy, procs, ss) && Last(policy, ss[|ss| - 1])
  {
    StartInv(procs);
    ss := Ends(policy, Start(procs));
  }
}
