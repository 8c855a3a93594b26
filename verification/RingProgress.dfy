/**
 Progress of the ring buffer protocol: it never deadlocks, every state-changing step brings
 it closer to the end, and it finishes in every run that lets each thread move again and again.
 */
module RingProgress {
  import opened Sums
  import opened Semaphores
  import opened RingProtocol

  predicate Finished(cfg: Config, s: State)
    requires Shape(cfg, s)
  {
    forall t :: 0 <= t <= Consumer(cfg) ==> Done(cfg, s, t)
  }

  /* ---------- The measure ---------- */

  function Rank(a: Activity): nat {
    match a
    case Outside => 0
    case Inside(_, Locked) => 1
    case Inside(_, Asleep) => 3
    case Inside(_, Wake(_)) => 3
    case Inside(_, _) => 2
  }

  // Atomic steps thread t may still take, not counting failed compare-and-swaps and waiting.
  function Remaining(cfg: Config, s: State, t: nat): int
    requires Shape(cfg, s) && t <= Consumer(cfg)
  {
    28 * (Quota(cfg, t) - s.workers[t].round) - 4 * s.workers[t].op - Rank(s.sys.at[t])
  }

  function Remainings(cfg: Config, s: State): seq<int>
    requires Shape(cfg, s)
  {
    seq(Consumer(cfg) + 1, t requires 0 <= t <= Consumer(cfg) => Remaining(cfg, s, t))
  }

  function Measure(cfg: Config, s: State): int
    requires Shape(cfg, s)
  {
    Sum(Remainings(cfg, s))
  }

  lemma MeasureNonNegative(cfg: Config, s: State)
    requires Inv(cfg, s)
    ensures Measure(cfg, s) >= 0
  {
    forall t | 0 <= t <= Consumer(cfg)
      ensures Remaining(cfg, s, t) >= 0
    {
      assert WorkerShape(cfg, s, t);
    }
    SumMonotone(seq(Consumer(cfg) + 1, _ => 0), Remainings(cfg, s));
    SumOfZeros(seq(Consumer(cfg) + 1, _ => 0));
  }

  lemma SemStepRank(sys: Sys, t: nat, c: Call)
    requires SemInv(sys) && Legal(sys, t, c)
    requires Step(sys, t, c) != sys
    ensures t < |Step(sys, t, c).at|
    ensures var a' := Step(sys, t, c).at[t];
            if sys.at[t].Inside? && a'.Outside? then true else Rank(a') > Rank(sys.at[t])
  {
    assert CountOk(sys.sems[c.sem]);
  }

  lemma RemainingStep(cfg: Config, s: State, t: nat)
    requires Inv(cfg, s) && t <= Consumer(cfg) && Next(cfg, s, t) != s
    requires Shape(cfg, Next(cfg, s, t))
    ensures Remaining(cfg, Next(cfg, s, t), t) < Remaining(cfg, s, t)
  {
    assert WorkerShape(cfg, s, t);
    if IsCall(s.workers[t].op) {
      CallEffect(cfg, s, t);
      SemStepRank(s.sys, t, CallOf(cfg, t, s.workers[t].op));
    }
  }

  // Every step that is not a failed compare-and-swap or a wait decreases the measure.
  lemma StepDecreases(cfg: Config, s: State, t: nat)
    requires Inv(cfg, s) && Next(cfg, s, t) != s
    ensures Inv(cfg, Next(cfg, s, t))
    ensures 0 <= Measure(cfg, Next(cfg, s, t)) < Measure(cfg, s)
  {
    StepKeepsInvariant(cfg, s, t);
    RemainingStep(cfg, s, t);
    OthersUnchanged(cfg, s, t);
    SumUpdate(Remainings(cfg, s), Remainings(cfg, Next(cfg, s, t)), t);
    MeasureNonNegative(cfg, Next(cfg, s, t));
  }

  /* ---------- No deadlock ---------- */

  ghost predicate Stuck(cfg: Config, s: State) {
    Inv(cfg, s) && forall t: nat :: t <= Consumer(cfg) ==> Next(cfg, s, t) == s
  }

  // In a stuck state an unfinished thread sleeps in the queue of the semaphore it acquires.
  lemma StuckThread(cfg: Config, s: State, t: nat)
    requires Stuck(cfg, s) && t <= Consumer(cfg)
    ensures s.sys.at[t].Inside? <==> !Done(cfg, s, t)
    ensures s.workers[t].op <= 1
    ensures s.workers[t].op == 1 ==> Past(s.sys.at[t]) && t in s.sys.sems[MUTEX].queue
    ensures s.workers[t].op == 0 && !Done(cfg, s, t) ==> Past(s.sys.at[t]) && t in s.sys.sems[FirstSem(cfg, t)].queue
  {
    assert WorkerShape(cfg, s, t);
    forall u | 0 <= u < |s.sys.at| && s.sys.at[u].Inside?
      ensures Stalled(s.sys, u, s.sys.at[u].call)
    {
      assert WorkerShape(cfg, s, u);
      assert Next(cfg, s, u) == s;
    }
    StuckMeansQueued(s.sys);
    assert Next(cfg, s, t) == s;
    if !Done(cfg, s, t) && IsCall(s.workers[t].op) && s.sys.at[t].Outside? {
      OutsideStalledMeansHeld(s.sys, t, CallOf(cfg, t, s.workers[t].op));
    }
  }

  lemma StuckMutexFree(cfg: Config, s: State, t: nat)
    requires Stuck(cfg, s) && t <= Consumer(cfg)
    ensures s.workers[t].op == 0
  {
    var q := s.sys.sems[MUTEX].queue;
    var ws := Differences(ArrWs(cfg, s, MUTEX), RelWs(cfg, s, MUTEX));
    assert CountedOk(cfg, s, MUTEX) && CountOk(s.sys.sems[MUTEX]);
    forall u | 0 <= u < |ws|
      ensures 0 <= ws[u] <= 1
      ensures ws[u] == 1 ==> u in q
    {
      StuckThread(cfg, s, u);
    }
    SumAtMostListed(q, ws);
    StuckThread(cfg, s, t);
  }

  function Lengths(input: seq<seq<int>>): seq<int> {
    seq(|input|, p requires 0 <= p < |input| => |input[p]|)
  }

  lemma {:induction false} TotalIsSum(input: seq<seq<int>>)
    ensures Total(input) == Sum(Lengths(input))
  {
    if input != [] {
      var n := |input| - 1;
      assert Lengths(input)[..n] == Lengths(input[..n]);
      TotalIsSum(input[..n]);
    }
  }

  // With every thread between operations 0 and 1, the writes are the finished producer rounds,
  // which reach the total only when every producer is done.
  lemma WritesReachTotal(cfg: Config, s: State)
    requires Inv(cfg, s)
    requires forall t :: 0 <= t <= Consumer(cfg) ==> s.workers[t].op == 0
    ensures |s.written| <= Total(cfg.input)
    ensures |s.written| == Total(cfg.input) <==> forall p :: 0 <= p < Consumer(cfg) ==> Done(cfg, s, p)
  {
    var k := Consumer(cfg);
    var full := Lengths(cfg.input) + [0];
    var done := DoneWs(cfg, s, 2);
    assert full[..k] == Lengths(cfg.input);
    TotalIsSum(cfg.input);
    forall p | 0 <= p <= k
      ensures done[p] <= full[p]
      ensures p < k ==> (done[p] == full[p] <==> Done(cfg, s, p))
    {
      assert WorkerShape(cfg, s, p);
    }
    SumMonotone(done, full);
    if |s.written| == Total(cfg.input) {
      forall p | 0 <= p < k ensures Done(cfg, s, p) { SumTight(done, full, p); }
    }
    if forall p :: 0 <= p < k ==> Done(cfg, s, p) { assert done == full; }
  }

  lemma StuckCounts(cfg: Config, s: State)
    requires Stuck(cfg, s)
    ensures forall t :: 0 <= t <= Consumer(cfg) ==> s.workers[t].op == 0
    ensures s.sys.sems[EMPTY].releases == |s.written|
    ensures s.sys.sems[SEMA].releases == |s.taken| == s.workers[Consumer(cfg)].round
    ensures |s.sys.sems[EMPTY].arrivals| == |s.taken| + B(Past(s.sys.at[Consumer(cfg)]))
  {
    forall t | 0 <= t <= Consumer(cfg) ensures s.workers[t].op == 0 { StuckMutexFree(cfg, s, t); }
    assert CountedOk(cfg, s, EMPTY) && CountedOk(cfg, s, SEMA);
    assert RelWs(cfg, s, EMPTY) == DoneWs(cfg, s, 2);
    SumOnlyLast(RelWs(cfg, s, SEMA));
    SumOnlyLast(ArrWs(cfg, s, EMPTY));
  }

  lemma StuckProducersQueued(cfg: Config, s: State)
    requires Stuck(cfg, s)
    ensures |s.sys.sems[SEMA].arrivals| - |s.written| <= |s.sys.sems[SEMA].queue|
  {
    StuckCounts(cfg, s);
    assert CountedOk(cfg, s, SEMA);
    var ws := Differences(ArrWs(cfg, s, SEMA), DoneWs(cfg, s, 2));
    forall u | 0 <= u < |ws|
      ensures 0 <= ws[u] <= 1
      ensures ws[u] == 1 ==> u in s.sys.sems[SEMA].queue
    {
      StuckThread(cfg, s, u);
    }
    SumAtMostListed(s.sys.sems[SEMA].queue, ws);
  }

  // A state in which no thread can make progress is finished: the protocol never deadlocks.
  lemma StuckMeansFinished(cfg: Config, s: State)
    requires Stuck(cfg, s)
    ensures Finished(cfg, s)
  {
    var k := Consumer(cfg);
    StuckCounts(cfg, s);
    StuckProducersQueued(cfg, s);
    WritesReachTotal(cfg, s);
    StuckThread(cfg, s, k);
    assert CountOk(s.sys.sems[EMPTY]) && CountOk(s.sys.sems[SEMA]);
    if !Done(cfg, s, k) {
      forall p | 0 <= p < k ensures Done(cfg, s, p) { StuckThread(cfg, s, p); }
      assert false;
    }
  }

  lemma Unfinished(cfg: Config, s: State) returns (t: nat)
    requires Inv(cfg, s) && !Finished(cfg, s)
    ensures t <= Consumer(cfg) && Next(cfg, s, t) != s
  {
    if Stuck(cfg, s) { StuckMeansFinished(cfg, s); }
    t :| t <= Consumer(cfg) && Next(cfg, s, t) != s;
  }

  /* ---------- Every fair run finishes ---------- */

  // The first n choices of an infinite schedule.
  function Prefix(schedule: nat -> nat, n: nat): seq<nat> {
    seq(n, i requires 0 <= i < n => schedule(i))
  }

  function At(cfg: Config, schedule: nat -> nat, n: nat): State
    requires ValidConfig(cfg)
  {
    Run(cfg, Prefix(schedule, n))
  }

  // Every thread is chosen again after every moment.
  ghost predicate Fair(cfg: Config, schedule: nat -> nat) {
    forall t: nat, n: nat :: t <= Consumer(cfg) ==> ChosenFrom(schedule, t, n)
  }

  ghost predicate ChosenFrom(schedule: nat -> nat, t: nat, n: nat) {
    exists j: nat :: j >= n && schedule(j) == t
  }

  lemma AtStep(cfg: Config, schedule: nat -> nat, n: nat)
    requires ValidConfig(cfg)
    ensures Inv(cfg, At(cfg, schedule, n))
    ensures At(cfg, schedule, n + 1) == Next(cfg, At(cfg, schedule, n), schedule(n))
  {
    RunInvariant(cfg, Prefix(schedule, n));
    assert Prefix(schedule, n + 1)[..n] == Prefix(schedule, n);
  }

  // From step n the state stays the same or the measure drops by the time step j has been taken.
  lemma {:induction false} StepsUntil(cfg: Config, schedule: nat -> nat, n: nat, j: nat) returns (i: nat)
    requires ValidConfig(cfg) && n <= j
    requires Inv(cfg, At(cfg, schedule, n))
    requires Next(cfg, At(cfg, schedule, n), schedule(j)) != At(cfg, schedule, n)
    ensures i > n && Inv(cfg, At(cfg, schedule, i))
    ensures Measure(cfg, At(cfg, schedule, i)) < Measure(cfg, At(cfg, schedule, n))
    decreases j - n
  {
    AtStep(cfg, schedule, n);
    AtStep(cfg, schedule, n + 1);
    var s := At(cfg, schedule, n);
    if Next(cfg, s, schedule(n)) != s {
      StepDecreases(cfg, s, schedule(n));
      i := n + 1;
    } else {
      i := StepsUntil(cfg, schedule, n + 1, j);
    }
  }

  lemma {:induction false} FinishesFrom(cfg: Config, schedule: nat -> nat, n: nat) returns (i: nat)
    requires ValidConfig(cfg) && Fair(cfg, schedule)
    requires Inv(cfg, At(cfg, schedule, n))
    ensures i >= n && Inv(cfg, At(cfg, schedule, i)) && Finished(cfg, At(cfg, schedule, i))
    decreases Measure(cfg, At(cfg, schedule, n))
  {
    var s := At(cfg, schedule, n);
    MeasureNonNegative(cfg, s);
    if Finished(cfg, s) {
      i := n;
    } else {
      var t := Unfinished(cfg, s);
      assert ChosenFrom(schedule, t, n);
      var j: nat :| j >= n && schedule(j) == t;
      var n' := StepsUntil(cfg, schedule, n, j);
      MeasureNonNegative(cfg, At(cfg, schedule, n'));
      i := FinishesFrom(cfg, schedule, n');
    }
  }

  // Under any schedule that is fair to every thread, all producers and the consumer finish.
  lemma FairRunsFinish(cfg: Config, schedule: nat -> nat)
    requires ValidConfig(cfg) && Fair(cfg, schedule)
    ensures exists i: nat :: Shape(cfg, At(cfg, schedule, i)) && Finished(cfg, At(cfg, schedule, i))
  {
    AtStep(cfg, schedule, 0);
    var i := FinishesFrom(cfg, schedule, 0);
  }

  // Whatever the schedule, the number of steps that change the state is bounded by the measure
  // of the initial state.
  function Moves(cfg: Config, choices: seq<nat>): nat
    requires ValidConfig(cfg)
  {
    if choices == [] then 0
    else
      var n := |choices| - 1;
      Moves(cfg, choices[..n]) + B(Run(cfg, choices) != Run(cfg, choices[..n]))
  }

  lemma {:induction false} MovesBounded(cfg: Config, choices: seq<nat>)
    requires ValidConfig(cfg)
    ensures Shape(cfg, Run(cfg, choices)) && Shape(cfg, Init(cfg))
    ensures Moves(cfg, choices) + Measure(cfg, Run(cfg, choices)) <= Measure(cfg, Init(cfg))
    ensures Moves(cfg, choices) <= Measure(cfg, Init(cfg))
  {
    RunInvariant(cfg, choices);
    RunInvariant(cfg, []);
    MeasureNonNegative(cfg, Run(cfg, choices));
    if choices != [] {
      var n := |choices| - 1;
      MovesBounded(cfg, choices[..n]);
      RunInvariant(cfg, choices[..n]);
      var s := Run(cfg, choices[..n]);
      if Next(cfg, s, choices[n]) != s { StepDecreases(cfg, s, choices[n]); }
    }
  }
}
