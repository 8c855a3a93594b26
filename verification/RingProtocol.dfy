/**
 The bounded ring buffer under any number of producers and one consumer.

 Threads 0 .. k-1 are the producers, thread k is the consumer; producer p puts the values
 `input[p]` in order. Each round of a thread is a sequence of seven operations, four of them
 semaphore calls that themselves take several atomic steps. `Next` runs one atomic step of
 the chosen thread, so a run is a sequence of thread choices.
 */
module RingProtocol {
  import opened Collections
  import opened Modulo
  import opened Sums
  import opened Semaphores

  datatype Config = Config(slots: nat, input: seq<seq<int>>)

  predicate ValidConfig(cfg: Config) {
    cfg.slots >= 1
  }

  const MUTEX: nat := 0   // mutual exclusion on the buffer, initially 1
  const SEMA: nat := 1    // free slots, initially the number of slots
  const EMPTY: nat := 2   // filled slots, initially 0

  // `op` is the next operation of the round, `value` the value in hand since operation 2,
  // `tally` the per-value counters the thread keeps of finished rounds.
  datatype Worker = Worker(op: nat, round: nat, value: int, tally: multiset<int>)

  // `written` and `taken` are history: the values in the order of the slot writes and reads.
  datatype State = State(sys: Sys, workers: seq<Worker>, slots: seq<int>, inn: nat, out: nat,
                         written: seq<int>, taken: seq<int>)

  function Total(input: seq<seq<int>>): nat {
    if input == [] then 0 else Total(input[..|input| - 1]) + |input[|input| - 1]|
  }

  function Consumer(cfg: Config): nat { |cfg.input| }

  function Quota(cfg: Config, t: nat): nat
    requires t <= Consumer(cfg)
  {
    if t == Consumer(cfg) then Total(cfg.input) else |cfg.input[t]|
  }

  /* ---------- The atomic steps ---------- */

  predicate IsCall(op: nat) {
    op == 0 || op == 1 || op == 4 || op == 5
  }

  function FirstSem(cfg: Config, t: nat): nat { if t == Consumer(cfg) then EMPTY else SEMA }
  function LastSem(cfg: Config, t: nat): nat { if t == Consumer(cfg) then SEMA else EMPTY }

  function CallOf(cfg: Config, t: nat, op: nat): Call
    requires IsCall(op)
  {
    if op == 0 then Acquire(FirstSem(cfg, t))
    else if op == 1 then Acquire(MUTEX)
    else if op == 4 then Release(MUTEX)
    else Release(LastSem(cfg, t))
  }

  predicate WorkerShape(cfg: Config, s: State, t: nat)
    requires t <= Consumer(cfg) && t < |s.workers| && t < |s.sys.at|
  {
    var w := s.workers[t];
    && w.op <= 6
    && w.round <= Quota(cfg, t)
    && (w.op > 0 || s.sys.at[t].Inside? ==> w.round < Quota(cfg, t))
    && (s.sys.at[t].Inside? ==> IsCall(w.op) && s.sys.at[t].call == CallOf(cfg, t, w.op))
  }

  // Sizes, index ranges, and agreement between a thread's round and its place inside a call.
  predicate Shape(cfg: Config, s: State) {
    && ValidConfig(cfg)
    && |s.workers| == |s.sys.at| == |s.sys.signal| == Consumer(cfg) + 1
    && |s.sys.sems| == 3
    && |s.slots| == cfg.slots && s.inn < cfg.slots && s.out < cfg.slots
    && forall t :: 0 <= t <= Consumer(cfg) ==> WorkerShape(cfg, s, t)
  }

  predicate Done(cfg: Config, s: State, t: nat)
    requires Shape(cfg, s) && t <= Consumer(cfg)
  {
    s.workers[t].round == Quota(cfg, t)
  }

  function CallStep(cfg: Config, s: State, t: nat): State
    requires Shape(cfg, s) && t <= Consumer(cfg) && IsCall(s.workers[t].op)
  {
    assert WorkerShape(cfg, s, t);
    var w := s.workers[t];
    var sys' := Step(s.sys, t, CallOf(cfg, t, w.op));
    if s.sys.at[t].Inside? && t < |sys'.at| && sys'.at[t].Outside?
    then s.(sys := sys', workers := s.workers[t := w.(op := w.op + 1)])
    else s.(sys := sys')
  }

  function Next(cfg: Config, s: State, t: nat): State
    requires Shape(cfg, s)
  {
    if t > Consumer(cfg) || Done(cfg, s, t) then s
    else if IsCall(s.workers[t].op) then CallStep(cfg, s, t)
    else
      assert WorkerShape(cfg, s, t);
      var w := s.workers[t];
      var w1 := w.(op := w.op + 1);
      if w.op == 2 then
        if t < Consumer(cfg) then
          var v := cfg.input[t][w.round];
          s.(slots := s.slots[s.inn := v], written := s.written + [v], workers := s.workers[t := w1.(value := v)])
        else
          var v := s.slots[s.out];
          s.(taken := s.taken + [v], workers := s.workers[t := w1.(value := v)])
      else if w.op == 3 then
        if t < Consumer(cfg) then s.(inn := (s.inn + 1) % cfg.slots, workers := s.workers[t := w1])
        else s.(out := (s.out + 1) % cfg.slots, workers := s.workers[t := w1])
      else
        s.(workers := s.workers[t := Worker(0, w.round + 1, w.value, w.tally + multiset{w.value})])
  }

  function Init(cfg: Config): State
    requires ValidConfig(cfg)
  {
    var n := Consumer(cfg) + 1;
    State(InitSys(n, [1, cfg.slots, 0]), seq(n, _ => Worker(0, 0, 0, multiset{})), seq(cfg.slots, _ => 0), 0, 0, [], [])
  }

  function Run(cfg: Config, choices: seq<nat>): State
    requires ValidConfig(cfg)
  {
    if choices == [] then Init(cfg)
    else
      var prev := Run(cfg, choices[..|choices| - 1]);
      if Shape(cfg, prev) then Next(cfg, prev, choices[|choices| - 1]) else prev
  }

  /* ---------- Thread-local weights ---------- */

  function B(b: bool): nat { if b then 1 else 0 }

  // How often thread t has decremented semaphore m.
  function ArrW(cfg: Config, w: Worker, a: Activity, t: nat, m: nat): nat {
    if m == MUTEX then w.round + B(w.op > 1 || (w.op == 1 && Past(a)))
    else if m == FirstSem(cfg, t) then w.round + B(w.op > 0 || Past(a))
    else 0
  }

  // How often thread t has incremented semaphore m.
  function RelW(cfg: Config, w: Worker, a: Activity, t: nat, m: nat): nat {
    if m == MUTEX then w.round + B(w.op > 4 || (w.op == 4 && Past(a)))
    else if m == LastSem(cfg, t) then w.round + B(w.op > 5 || (w.op == 5 && Past(a)))
    else 0
  }

  // How often thread t has finished operation `op` as a producer.
  function DoneW(cfg: Config, w: Worker, t: nat, op: nat): nat {
    if t < Consumer(cfg) then w.round + B(w.op > op) else 0
  }

  function ArrWs(cfg: Config, s: State, m: nat): seq<int>
    requires Shape(cfg, s)
  {
    seq(Consumer(cfg) + 1, t requires 0 <= t <= Consumer(cfg) => ArrW(cfg, s.workers[t], s.sys.at[t], t, m))
  }

  function RelWs(cfg: Config, s: State, m: nat): seq<int>
    requires Shape(cfg, s)
  {
    seq(Consumer(cfg) + 1, t requires 0 <= t <= Consumer(cfg) => RelW(cfg, s.workers[t], s.sys.at[t], t, m))
  }

  function DoneWs(cfg: Config, s: State, op: nat): seq<int>
    requires Shape(cfg, s)
  {
    seq(Consumer(cfg) + 1, t requires 0 <= t <= Consumer(cfg) => DoneW(cfg, s.workers[t], t, op))
  }

  /* ---------- The invariant ---------- */

  ghost predicate SysOk(cfg: Config, s: State)
    requires Shape(cfg, s)
  {
    && SemInv(s.sys)
    && s.sys.sems[MUTEX].initial == 1
    && s.sys.sems[SEMA].initial == cfg.slots
    && s.sys.sems[EMPTY].initial == 0
  }

  predicate CountedOk(cfg: Config, s: State, m: nat)
    requires Shape(cfg, s) && m < 3
  {
    && |s.sys.sems[m].arrivals| == Sum(ArrWs(cfg, s, m))
    && s.sys.sems[m].releases == Sum(RelWs(cfg, s, m))
  }

  predicate WriteIndexOk(cfg: Config, s: State)
    requires Shape(cfg, s)
  {
    && |s.written| == Sum(DoneWs(cfg, s, 2))
    && Sum(DoneWs(cfg, s, 3)) >= 0
    && s.inn == Sum(DoneWs(cfg, s, 3)) % cfg.slots
  }

  predicate ReadIndexOk(cfg: Config, s: State)
    requires Shape(cfg, s)
  {
    var c := s.workers[Consumer(cfg)];
    && |s.taken| == c.round + B(c.op > 2)
    && s.out == (c.round + B(c.op > 3)) % cfg.slots
  }

  predicate IndexOk(cfg: Config, s: State)
    requires Shape(cfg, s)
  {
    WriteIndexOk(cfg, s) && ReadIndexOk(cfg, s)
  }

  // The slots hold exactly the values written and not yet taken.
  predicate DataOk(cfg: Config, s: State)
    requires Shape(cfg, s)
  {
    && |s.taken| <= |s.written| <= |s.taken| + cfg.slots
    && s.taken == s.written[..|s.taken|]
    && forall j :: |s.taken| <= j < |s.written| ==> s.slots[j % cfg.slots] == s.written[j]
  }

  ghost predicate Inv(cfg: Config, s: State) {
    && Shape(cfg, s)
    && SysOk(cfg, s)
    && (forall m :: 0 <= m < 3 ==> CountedOk(cfg, s, m))
    && IndexOk(cfg, s)
    && DataOk(cfg, s)
  }

  /* ---------- Steps keep shape and counts ---------- */

  lemma ShapeOfCall(cfg: Config, s: State, t: nat, sys': Sys, s': State)
    requires Shape(cfg, s) && t <= Consumer(cfg) && !Done(cfg, s, t) && IsCall(s.workers[t].op)
    requires Effect(s.sys, sys', t, CallOf(cfg, t, s.workers[t].op))
    requires s' == s.(sys := sys', workers := if s.sys.at[t].Inside? && sys'.at[t].Outside?
                                              then s.workers[t := s.workers[t].(op := s.workers[t].op + 1)] else s.workers)
    ensures Shape(cfg, s')
  {
    forall u: nat | u <= Consumer(cfg)
      ensures WorkerShape(cfg, s', u)
    {
      assert WorkerShape(cfg, s, u);
    }
  }

  lemma ShapeStep(cfg: Config, s: State, t: nat)
    requires Shape(cfg, s) && SysOk(cfg, s)
    ensures Shape(cfg, Next(cfg, s, t)) && SysOk(cfg, Next(cfg, s, t))
  {
    var s' := Next(cfg, s, t);
    if t <= Consumer(cfg) && !Done(cfg, s, t) {
      assert WorkerShape(cfg, s, t);
      if IsCall(s.workers[t].op) {
        CallEffect(cfg, s, t);
        ShapeOfCall(cfg, s, t, s'.sys, s');
      } else {
        forall u: nat | u <= Consumer(cfg)
          ensures WorkerShape(cfg, s', u)
        {
          assert WorkerShape(cfg, s, u);
        }
      }
    }
  }

  lemma CallEffect(cfg: Config, s: State, t: nat)
    requires Shape(cfg, s) && SysOk(cfg, s) && t <= Consumer(cfg) && !Done(cfg, s, t) && IsCall(s.workers[t].op)
    ensures var s' := Next(cfg, s, t);
            && SemInv(s'.sys)
            && Effect(s.sys, s'.sys, t, CallOf(cfg, t, s.workers[t].op))
            && s'.sys.sems[MUTEX].initial == 1
            && s'.sys.sems[SEMA].initial == cfg.slots
            && s'.sys.sems[EMPTY].initial == 0
            && s' == s.(sys := s'.sys, workers := if s.sys.at[t].Inside? && s'.sys.at[t].Outside?
                                              then s.workers[t := s.workers[t].(op := s.workers[t].op + 1)] else s.workers)
  {
    assert WorkerShape(cfg, s, t);
    StepKeepsInv(s.sys, t, CallOf(cfg, t, s.workers[t].op));
    StepEffect(s.sys, t, CallOf(cfg, t, s.workers[t].op));
    var s' := Next(cfg, s, t);
    forall m | 0 <= m < 3 ensures s'.sys.sems[m].initial == s.sys.sems[m].initial {
      assert SemEffect(s.sys.sems[m], s'.sys.sems[m], m, s.sys.at[t], s'.sys.at[t], CallOf(cfg, t, s.workers[t].op));
    }
  }

  // Only the moving thread changes its worker and its activity.
  lemma OthersUnchanged(cfg: Config, s: State, t: nat)
    requires Shape(cfg, s) && SysOk(cfg, s) && t <= Consumer(cfg)
    ensures var s' := Next(cfg, s, t);
            && |s'.workers| == |s.workers| && |s'.sys.at| == |s.sys.at|
            && forall u :: 0 <= u <= Consumer(cfg) && u != t ==> s'.workers[u] == s.workers[u] && s'.sys.at[u] == s.sys.at[u]
  {
    if !Done(cfg, s, t) && IsCall(s.workers[t].op) {
      CallEffect(cfg, s, t);
    }
  }

  lemma WeightsOfCall(cfg: Config, w: Worker, w': Worker, a: Activity, a': Activity, t: nat, m: nat)
    requires t <= Consumer(cfg) && m < 3 && IsCall(w.op)
    requires a.Inside? ==> a.call == CallOf(cfg, t, w.op)
    requires w' == if a.Inside? && a'.Outside? then w.(op := w.op + 1) else w
    requires a'.Outside? && a.Inside? ==> Past(a)
    requires Past(a) && a'.Inside? ==> Past(a')
    requires a.Outside? ==> !Past(a')
    ensures ArrW(cfg, w', a', t, m) - ArrW(cfg, w, a, t, m) == B(CallOf(cfg, t, w.op) == Acquire(m) && Updates(a, a'))
    ensures RelW(cfg, w', a', t, m) - RelW(cfg, w, a, t, m) == B(CallOf(cfg, t, w.op) == Release(m) && Updates(a, a'))
  {
  }

  lemma CountedStepOwn(cfg: Config, s: State, t: nat, m: nat)
    requires Shape(cfg, s) && SysOk(cfg, s) && t <= Consumer(cfg) && m < 3
    ensures var s' := Next(cfg, s, t);
            && t < |s'.workers| && t < |s'.sys.at| && m < |s'.sys.sems|
            && |s'.sys.sems[m].arrivals| - |s.sys.sems[m].arrivals|
               == ArrW(cfg, s'.workers[t], s'.sys.at[t], t, m) - ArrW(cfg, s.workers[t], s.sys.at[t], t, m)
            && s'.sys.sems[m].releases - s.sys.sems[m].releases
               == RelW(cfg, s'.workers[t], s'.sys.at[t], t, m) - RelW(cfg, s.workers[t], s.sys.at[t], t, m)
  {
    assert WorkerShape(cfg, s, t);
    var s' := Next(cfg, s, t);
    if !Done(cfg, s, t) && IsCall(s.workers[t].op) {
      CallEffect(cfg, s, t);
      assert SemEffect(s.sys.sems[m], s'.sys.sems[m], m, s.sys.at[t], s'.sys.at[t], CallOf(cfg, t, s.workers[t].op));
      WeightsOfCall(cfg, s.workers[t], s'.workers[t], s.sys.at[t], s'.sys.at[t], t, m);
    }
  }

  lemma CountedStep(cfg: Config, s: State, t: nat, m: nat)
    requires Inv(cfg, s) && t <= Consumer(cfg) && m < 3
    requires Shape(cfg, Next(cfg, s, t))
    ensures CountedOk(cfg, Next(cfg, s, t), m)
  {
    var s' := Next(cfg, s, t);
    assert CountedOk(cfg, s, m);
    CountedStepOwn(cfg, s, t, m);
    OthersUnchanged(cfg, s, t);
    SumUpdate(ArrWs(cfg, s, m), ArrWs(cfg, s', m), t);
    SumUpdate(RelWs(cfg, s, m), RelWs(cfg, s', m), t);
  }

  /* ---------- Mutual exclusion ---------- */

  // Thread t has been granted the buffer mutex and has not released it.
  predicate Owns(cfg: Config, s: State, t: nat)
    requires Shape(cfg, s) && t <= Consumer(cfg)
  {
    && t !in s.sys.sems[MUTEX].queue
    && ArrW(cfg, s.workers[t], s.sys.at[t], t, MUTEX) > RelW(cfg, s.workers[t], s.sys.at[t], t, MUTEX)
  }

  function Differences(xs: seq<int>, ys: seq<int>): (zs: seq<int>)
    requires |xs| == |ys|
    ensures Sum(zs) == Sum(xs) - Sum(ys)
  {
    var zs := seq(|xs|, i requires 0 <= i < |xs| => xs[i] - ys[i]);
    SumOfPointwise(zs, ys, xs);
    zs
  }

  // A thread queued at a semaphore is inside the call of its operation for it.
  lemma QueuedWorker(cfg: Config, s: State, m: nat, x: nat)
    requires Shape(cfg, s) && SysOk(cfg, s) && m < 3 && x in s.sys.sems[m].queue
    ensures x <= Consumer(cfg) && s.sys.at[x].Inside? && Past(s.sys.at[x])
    ensures s.workers[x].op == (if m == MUTEX then 1 else 0)
    ensures m != MUTEX ==> m == FirstSem(cfg, x)
  {
    assert WorkerShape(cfg, s, x);
  }

  lemma MutualExclusion(cfg: Config, s: State, t: nat, u: nat)
    requires Inv(cfg, s) && t <= Consumer(cfg) && u <= Consumer(cfg)
    requires Owns(cfg, s, t) && Owns(cfg, s, u)
    ensures t == u
  {
    if t != u {
      var q := s.sys.sems[MUTEX].queue;
      var ws := Differences(ArrWs(cfg, s, MUTEX), RelWs(cfg, s, MUTEX));
      assert CountedOk(cfg, s, MUTEX) && CountOk(s.sys.sems[MUTEX]);
      assert Distinct([t, u] + q);
      forall i | 0 <= i < |[t, u] + q|
        ensures ([t, u] + q)[i] < |ws| && ws[([t, u] + q)[i]] >= 1
      {
        if i >= 2 { QueuedWorker(cfg, s, MUTEX, q[i - 2]); }
      }
      DistinctAtMostSum([t, u] + q, ws);
      assert false;
    }
  }

  // At most one thread is at a buffer access.
  lemma OneInBuffer(cfg: Config, s: State, t: nat, u: nat)
    requires Inv(cfg, s) && t <= Consumer(cfg) && u <= Consumer(cfg)
    requires 2 <= s.workers[t].op <= 3 && 2 <= s.workers[u].op <= 3
    ensures t == u
  {
    assert WorkerShape(cfg, s, t) && WorkerShape(cfg, s, u);
    if t in s.sys.sems[MUTEX].queue { QueuedWorker(cfg, s, MUTEX, t); }
    if u in s.sys.sems[MUTEX].queue { QueuedWorker(cfg, s, MUTEX, u); }
    MutualExclusion(cfg, s, t, u);
  }

  /* ---------- A free slot to write, a filled slot to read ---------- */

  lemma SumOnlyLast(xs: seq<int>)
    requires xs != [] && forall i :: 0 <= i < |xs| - 1 ==> xs[i] == 0
    ensures Sum(xs) == xs[|xs| - 1]
  {
    SumOfZeros(xs[..|xs| - 1]);
  }

  lemma SpaceToWrite(cfg: Config, s: State, t: nat)
    requires Inv(cfg, s) && t < Consumer(cfg) && s.workers[t].op == 2
    ensures |s.written| < |s.taken| + cfg.slots
  {
    var sem := s.sys.sems[SEMA];
    assert CountedOk(cfg, s, SEMA) && CountOk(sem);
    assert WorkerShape(cfg, s, t) && WorkerShape(cfg, s, Consumer(cfg));
    var ws := Differences(ArrWs(cfg, s, SEMA), DoneWs(cfg, s, 2));
    var q := [t] + sem.queue;
    if t in sem.queue { QueuedWorker(cfg, s, SEMA, t); }
    forall i | 0 <= i < |q|
      ensures q[i] < |ws| && ws[q[i]] >= 1
    {
      if i >= 1 { QueuedWorker(cfg, s, SEMA, q[i]); }
    }
    DistinctAtMostSum(q, ws);
    SumOnlyLast(RelWs(cfg, s, SEMA));
  }

  // Only the consumer waits for filled slots.
  lemma ReleasedAtMostWritten(cfg: Config, s: State)
    requires Inv(cfg, s)
    ensures s.sys.sems[EMPTY].releases <= |s.written|
  {
    assert CountedOk(cfg, s, EMPTY);
    SumMonotone(RelWs(cfg, s, EMPTY), DoneWs(cfg, s, 2));
  }

  lemma ValueToRead(cfg: Config, s: State)
    requires Inv(cfg, s) && s.workers[Consumer(cfg)].op == 2
    ensures |s.taken| < |s.written|
  {
    var sem := s.sys.sems[EMPTY];
    assert CountedOk(cfg, s, EMPTY) && CountOk(sem);
    assert WorkerShape(cfg, s, Consumer(cfg));
    if sem.queue != [] { QueuedWorker(cfg, s, EMPTY, sem.queue[0]); }
    SumOnlyLast(ArrWs(cfg, s, EMPTY));
    ReleasedAtMostWritten(cfg, s);
  }

  /* ---------- Steps keep indices and data ---------- */

  lemma DoneStep(cfg: Config, s: State, t: nat, op: nat)
    requires Inv(cfg, s) && t <= Consumer(cfg) && op <= 5 && (op == 2 || op == 3)
    requires Shape(cfg, Next(cfg, s, t))
    ensures Sum(DoneWs(cfg, Next(cfg, s, t), op))
            == Sum(DoneWs(cfg, s, op)) + B(t < Consumer(cfg) && s.workers[t].op == op)
  {
    var s' := Next(cfg, s, t);
    assert WorkerShape(cfg, s, t);
    OthersUnchanged(cfg, s, t);
    SumUpdate(DoneWs(cfg, s, op), DoneWs(cfg, s', op), t);
  }

  lemma IndexStep(cfg: Config, s: State, t: nat)
    requires Inv(cfg, s) && t <= Consumer(cfg)
    requires Shape(cfg, Next(cfg, s, t))
    ensures IndexOk(cfg, Next(cfg, s, t))
  {
    WriteIndexStep(cfg, s, t);
    ReadIndexStep(cfg, s, t);
  }

  lemma WriteIndexStep(cfg: Config, s: State, t: nat)
    requires Inv(cfg, s) && t <= Consumer(cfg)
    requires Shape(cfg, Next(cfg, s, t))
    ensures WriteIndexOk(cfg, Next(cfg, s, t))
  {
    assert WorkerShape(cfg, s, t);
    DoneStep(cfg, s, t, 2);
    DoneStep(cfg, s, t, 3);
    ModSucc(Sum(DoneWs(cfg, s, 3)), cfg.slots);
  }

  lemma ReadIndexStep(cfg: Config, s: State, t: nat)
    requires Inv(cfg, s) && t <= Consumer(cfg)
    requires Shape(cfg, Next(cfg, s, t))
    ensures ReadIndexOk(cfg, Next(cfg, s, t))
  {
    var c := s.workers[Consumer(cfg)];
    OthersUnchanged(cfg, s, t);
    if t == Consumer(cfg) {
      assert WorkerShape(cfg, s, t);
      ModSucc(c.round + B(c.op > 3), cfg.slots);
    }
  }

  // A producer about to write points at the slot of the next write.
  lemma InIsWriteCount(cfg: Config, s: State, t: nat)
    requires Inv(cfg, s) && t < Consumer(cfg) && s.workers[t].op == 2
    ensures s.inn == |s.written| % cfg.slots
  {
    forall u | 0 <= u <= Consumer(cfg)
      ensures DoneWs(cfg, s, 2)[u] == DoneWs(cfg, s, 3)[u]
    {
      if s.workers[u].op == 3 { OneInBuffer(cfg, s, t, u); }
    }
    assert DoneWs(cfg, s, 2) == DoneWs(cfg, s, 3);
  }

  lemma DataAfterWrite(slots: seq<int>, n: nat, written: seq<int>, taken: seq<int>, v: int)
    requires n >= 1 && |slots| == n && |taken| <= |written| < |taken| + n
    requires forall j :: |taken| <= j < |written| ==> slots[j % n] == written[j]
    ensures forall j :: |taken| <= j < |written + [v]| ==> slots[|written| % n := v][j % n] == (written + [v])[j]
  {
    forall j | |taken| <= j < |written + [v]|
      ensures slots[|written| % n := v][j % n] == (written + [v])[j]
    {
      if j < |written| { DifferentSlots(j, |written|, n); }
    }
  }

  lemma DataStep(cfg: Config, s: State, t: nat)
    requires Inv(cfg, s) && t <= Consumer(cfg)
    requires Shape(cfg, Next(cfg, s, t))
    ensures DataOk(cfg, Next(cfg, s, t))
  {
    var s' := Next(cfg, s, t);
    assert WorkerShape(cfg, s, t);
    if Done(cfg, s, t) {
    } else if IsCall(s.workers[t].op) {
      CallEffect(cfg, s, t);
    } else if s.workers[t].op == 2 {
      if t < Consumer(cfg) {
        SpaceToWrite(cfg, s, t);
        InIsWriteCount(cfg, s, t);
        DataAfterWrite(s.slots, cfg.slots, s.written, s.taken, cfg.input[t][s.workers[t].round]);
      } else {
        ValueToRead(cfg, s);
        assert s'.taken == s'.written[..|s'.taken|];
      }
    }
  }

  lemma StepKeepsInvariant(cfg: Config, s: State, t: nat)
    requires Inv(cfg, s)
    ensures Inv(cfg, Next(cfg, s, t))
  {
    if t <= Consumer(cfg) {
      ShapeStep(cfg, s, t);
      forall m | 0 <= m < 3 ensures CountedOk(cfg, Next(cfg, s, t), m) { CountedStep(cfg, s, t, m); }
      IndexStep(cfg, s, t);
      DataStep(cfg, s, t);
    }
  }

  lemma InitInvariant(cfg: Config)
    requires ValidConfig(cfg)
    ensures Inv(cfg, Init(cfg))
  {
    var s := Init(cfg);
    InitInv(Consumer(cfg) + 1, [1, cfg.slots, 0]);
    forall m | 0 <= m < 3
      ensures CountedOk(cfg, s, m)
    {
      SumOfZeros(ArrWs(cfg, s, m));
      SumOfZeros(RelWs(cfg, s, m));
    }
    SumOfZeros(DoneWs(cfg, s, 2));
    SumOfZeros(DoneWs(cfg, s, 3));
  }

  lemma {:induction false} RunInvariant(cfg: Config, choices: seq<nat>)
    requires ValidConfig(cfg)
    ensures Inv(cfg, Run(cfg, choices))
  {
    if choices == [] {
      InitInvariant(cfg);
    } else {
      var n := |choices| - 1;
      RunInvariant(cfg, choices[..n]);
      StepKeepsInvariant(cfg, Run(cfg, choices[..n]), choices[n]);
    }
  }

  /* ---------- Safety, for every interleaving ---------- */

  // The values taken so far are a prefix of the values written in critical-section order, the
  // buffer holds the rest in its slots, and never more than it has slots.
  lemma RingIsFifo(cfg: Config, choices: seq<nat>)
    requires ValidConfig(cfg)
    ensures var s := Run(cfg, choices);
            && s.taken <= s.written
            && |s.written| - |s.taken| <= cfg.slots == |s.slots|
            && forall j :: |s.taken| <= j < |s.written| ==> s.slots[j % cfg.slots] == s.written[j]
  {
    RunInvariant(cfg, choices);
  }

  // Whenever a producer is about to store, its slot holds no unread value; whenever the
  // consumer is about to load, its slot holds the next unread value; and nobody else is
  // accessing the buffer.
  lemma AccessesAreSafe(cfg: Config, choices: seq<nat>, t: nat)
    requires ValidConfig(cfg) && t <= Consumer(cfg)
    requires |Run(cfg, choices).workers| == Consumer(cfg) + 1
    requires Run(cfg, choices).workers[t].op == 2
    ensures var s := Run(cfg, choices);
            && (forall u :: 0 <= u <= Consumer(cfg) && 2 <= s.workers[u].op <= 3 ==> u == t)
            && s.inn < |s.slots| && s.out < |s.slots|
            && (t < Consumer(cfg) ==> forall j :: |s.taken| <= j < |s.written| ==> j % cfg.slots != s.inn)
            && (t == Consumer(cfg) ==> |s.taken| < |s.written| && s.slots[s.out] == s.written[|s.taken|])
  {
    var s := Run(cfg, choices);
    RunInvariant(cfg, choices);
    forall u | 0 <= u <= Consumer(cfg) && 2 <= s.workers[u].op <= 3 ensures u == t {
      OneInBuffer(cfg, s, t, u);
    }
    if t < Consumer(cfg) {
      SpaceToWrite(cfg, s, t);
      InIsWriteCount(cfg, s, t);
      forall j | |s.taken| <= j < |s.written| ensures j % cfg.slots != s.inn {
        DifferentSlots(j, |s.written|, cfg.slots);
      }
    } else {
      ValueToRead(cfg, s);
    }
  }
}
