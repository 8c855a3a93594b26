/**
 Blocking counting semaphores shared by any number of threads, as interleaved atomic steps.

 Each semaphore has a counter, an inner spin word taken by compare-and-swap, and a FIFO
 queue of sleeping threads; a releaser hands the permit to the first sleeper by a signal.
 A state records, for every thread, where it is inside an acquire or a release.
 `Step` runs one atomic action of one thread, so a run is a sequence of thread choices.
 */
module Semaphores {
  import opened Collections

  datatype Call = Acquire(sem: nat) | Release(sem: nat)

  // The control point inside a call. Outside a call the next action is the compare-and-swap.
  datatype Phase =
    | Locked                  // spin word won; counter not yet changed
    | Unlock                  // about to clear the spin word and return
    | UnlockSleep             // enqueued; about to clear the spin word and sleep
    | Asleep                  // waiting for the signal
    | UnlockWake(who: nat)    // dequeued `who`; about to clear the spin word
    | Wake(who: nat)          // about to send the signal to `who`

  datatype Activity = Outside | Inside(call: Call, phase: Phase)

  // `initial`, `arrivals`, `grants` and `releases` are history: the initial counter, the
  // order in which threads decremented the counter, the order in which they were given a
  // permit, and the number of increments. No step reads them.
  datatype Sem = Sem(S: int, hold: bool, queue: seq<nat>,
                     initial: int, arrivals: seq<nat>, grants: seq<nat>, releases: nat)

  datatype Sys = Sys(sems: seq<Sem>, at: seq<Activity>, signal: seq<bool>)

  /* ---------- The atomic steps ---------- */

  function NewSem(count: int): Sem {
    Sem(count, false, [], count, [], [], 0)
  }

  // The counter update of an acquire: decrement, and join the queue when the result is negative.
  function Decrement(s: Sem, t: nat): Sem {
    var s1 := s.(S := s.S - 1, arrivals := s.arrivals + [t]);
    if s1.S < 0 then s1.(queue := s.queue + [t]) else s1.(grants := s.grants + [t])
  }

  // The counter update of a release: increment, and take the first sleeper when one should exist.
  function Increment(s: Sem): Sem {
    var s1 := s.(S := s.S + 1, releases := s.releases + 1);
    if s1.S <= 0 && s.queue != [] then
      s1.(queue := s.queue[1..], grants := s.grants + [s.queue[0]])
    else s1
  }

  predicate Legal(sys: Sys, t: nat, c: Call) {
    && t < |sys.at| == |sys.signal|
    && c.sem < |sys.sems|
    && (sys.at[t].Inside? ==> sys.at[t].call == c)
  }

  function Goto(sys: Sys, t: nat, m: nat, s: Sem, a: Activity): Sys
    requires t < |sys.at| && m < |sys.sems|
  {
    sys.(sems := sys.sems[m := s], at := sys.at[t := a])
  }

  // One atomic action of thread t, which is executing (or is about to start) call c.
  function Step(sys: Sys, t: nat, c: Call): Sys
    requires Legal(sys, t, c)
  {
    var m := c.sem;
    var s := sys.sems[m];
    match sys.at[t]
    case Outside =>
      if s.hold then sys                                        // failed compare-and-swap: spin
      else Goto(sys, t, m, s.(hold := true), Inside(c, Locked))
    case Inside(_, Locked) =>
      if c.Acquire? then
        var s' := Decrement(s, t);
        Goto(sys, t, m, s', Inside(c, if s'.S < 0 then UnlockSleep else Unlock))
      else
        var s' := Increment(s);
        if s'.S > 0 then Goto(sys, t, m, s', Inside(c, Unlock))
        else if s.queue != [] then Goto(sys, t, m, s', Inside(c, UnlockWake(s.queue[0])))
        else Goto(sys, t, m, s', Outside)                       // returns without clearing the spin word
    case Inside(_, Unlock) =>
      Goto(sys, t, m, s.(hold := false), Outside)
    case Inside(_, UnlockSleep) =>
      Goto(sys, t, m, s.(hold := false), Inside(c, Asleep))
    case Inside(_, Asleep) =>
      if sys.signal[t] then sys.(signal := sys.signal[t := false], at := sys.at[t := Outside])
      else sys                                                  // still blocked
    case Inside(_, UnlockWake(g)) =>
      Goto(sys, t, m, s.(hold := false), Inside(c, Wake(g)))
    case Inside(_, Wake(g)) =>
      sys.(signal := if g < |sys.signal| then sys.signal[g := true] else sys.signal,
           at := sys.at[t := Outside])
  }

  /* ---------- The invariant ---------- */

  // The thread is between winning and clearing the spin word of semaphore m.
  ghost predicate Holding(a: Activity, m: nat) {
    a.Inside? && a.call.sem == m && (a.phase.Locked? || a.phase.Unlock? || a.phase.UnlockSleep? || a.phase.UnlockWake?)
  }

  // The thread's on-stack queue record is live: it has enqueued itself and not returned.
  ghost predicate Sleeping(a: Activity, m: nat) {
    a.Inside? && a.call == Acquire(m) && (a.phase.UnlockSleep? || a.phase.Asleep?)
  }

  ghost predicate Wakes(a: Activity, g: nat) {
    a.Inside? && (a.phase == UnlockWake(g) || a.phase == Wake(g))
  }

  ghost predicate Typed(sys: Sys) {
    && |sys.signal| == |sys.at|
    && forall t :: 0 <= t < |sys.at| && sys.at[t].Inside? ==>
         && sys.at[t].call.sem < |sys.sems|
         && (match sys.at[t].phase
             case Locked => true
             case Unlock => true
             case UnlockSleep => sys.at[t].call.Acquire?
             case Asleep => sys.at[t].call.Acquire?
             case UnlockWake(g) => sys.at[t].call.Release?
             case Wake(g) => sys.at[t].call.Release?)
  }

  ghost predicate Held(sys: Sys, m: nat) {
    exists t: nat :: t < |sys.at| && Holding(sys.at[t], m)
  }

  // The spin word is set exactly while one thread is in its critical section, and at most one is.
  ghost predicate SpinOk(sys: Sys) {
    && (forall m :: 0 <= m < |sys.sems| ==> (sys.sems[m].hold <==> Held(sys, m)))
    && (forall t: nat, u: nat, m: nat :: t < |sys.at| && u < |sys.at| && Holding(sys.at[t], m) && Holding(sys.at[u], m) ==> t == u)
  }

  // Queued threads are distinct, their records are live, and they have no signal.
  ghost predicate QueueOk(sys: Sys)
    requires Typed(sys)
  {
    && (forall m :: 0 <= m < |sys.sems| ==> Distinct(sys.sems[m].queue))
    && (forall m: nat, x: nat {:trigger x in sys.sems[m].queue} :: m < |sys.sems| && x in sys.sems[m].queue ==>
          x < |sys.at| && Sleeping(sys.at[x], m) && !sys.signal[x])
  }

  // A releaser about to wake g is the only one, and g is asleep, dequeued and unsignalled.
  ghost predicate WakeOk(sys: Sys)
    requires Typed(sys)
  {
    && (forall u: nat, g: nat {:trigger Wakes(sys.at[u], g)} :: u < |sys.at| && Wakes(sys.at[u], g) ==>
          && g < |sys.at|
          && sys.at[g] == Inside(Acquire(sys.at[u].call.sem), Asleep)
          && !sys.signal[g]
          && g !in sys.sems[sys.at[u].call.sem].queue)
    && (forall u: nat, v: nat, g: nat :: u < |sys.at| && v < |sys.at| && Wakes(sys.at[u], g) && Wakes(sys.at[v], g) ==> u == v)
  }

  // A signalled thread is asleep.
  ghost predicate SignalOk(sys: Sys)
    requires Typed(sys)
  {
    forall g :: 0 <= g < |sys.at| && sys.signal[g] ==>
      sys.at[g].Inside? && sys.at[g].call.Acquire? && sys.at[g].phase.Asleep?
  }

  ghost predicate BeingWoken(sys: Sys, x: nat) {
    exists u: nat :: u < |sys.at| && Wakes(sys.at[u], x)
  }

  // No lost wake-up: a sleeping thread is queued, or about to be signalled, or signalled.
  ghost predicate CoverOk(sys: Sys)
    requires Typed(sys)
  {
    forall t :: 0 <= t < |sys.at| && sys.at[t].Inside? && Sleeping(sys.at[t], sys.at[t].call.sem) ==>
      t in sys.sems[sys.at[t].call.sem].queue || sys.signal[t] || BeingWoken(sys, t)
  }

  // The counter, the queue and the histories agree.
  ghost predicate CountOk(s: Sem) {
    && s.S == s.initial + s.releases - |s.arrivals|
    && |s.queue| == (if s.S < 0 then -s.S else 0)
    && s.arrivals == s.grants + s.queue
  }

  ghost predicate CountsOk(sys: Sys) {
    forall m :: 0 <= m < |sys.sems| ==> CountOk(sys.sems[m])
  }

  ghost predicate SemInv(sys: Sys) {
    Typed(sys) && SpinOk(sys) && QueueOk(sys) && WakeOk(sys) && SignalOk(sys) && CoverOk(sys) && CountsOk(sys)
  }

  /* ---------- Every step keeps the invariant ---------- */

  lemma TypedStep(sys: Sys, t: nat, c: Call)
    requires SemInv(sys) && Legal(sys, t, c)
    ensures Typed(Step(sys, t, c))
  {
  }

  lemma CountStep(sys: Sys, t: nat, c: Call)
    requires SemInv(sys) && Legal(sys, t, c)
    ensures CountsOk(Step(sys, t, c))
  {
    var s := sys.sems[c.sem];
    if sys.at[t].Inside? && sys.at[t].phase.Locked? {
      if c.Acquire? {
        assert CountOk(Decrement(s, t));
      } else {
        if s.queue != [] { assert s.queue == [s.queue[0]] + s.queue[1..]; }
        assert CountOk(Increment(s));
      }
    }
  }

  // A release whose incremented counter is not positive always finds a sleeper, so the spin
  // word is always cleared again.
  lemma ReleaseFindsSleeper(s: Sem)
    requires CountOk(s) && s.S + 1 <= 0
    ensures s.queue != []
  {
  }

  lemma HeldStep(sys: Sys, t: nat, c: Call, m: nat)
    requires SemInv(sys) && Legal(sys, t, c) && m < |sys.sems|
    ensures Step(sys, t, c).sems[m].hold <==> Held(Step(sys, t, c), m)
  {
    var sys' := Step(sys, t, c);
    assert CountOk(sys.sems[c.sem]);
    if Held(sys, m) {
      var u: nat :| u < |sys.at| && Holding(sys.at[u], m);
      assert u == t || Holding(sys'.at[u], m);
    }
    if Held(sys', m) {
      var u: nat :| u < |sys'.at| && Holding(sys'.at[u], m);
      assert u == t || Holding(sys.at[u], m);
    }
    assert Holding(sys'.at[t], m) ==> Held(sys', m);
    assert Holding(sys.at[t], m) ==> Held(sys, m);
  }

  lemma HolderUniqueStep(sys: Sys, t: nat, c: Call, x: nat, u: nat, m: nat)
    requires SemInv(sys) && Legal(sys, t, c)
    requires x < |sys.at| && u < |sys.at|
    requires Holding(Step(sys, t, c).at[x], m) && Holding(Step(sys, t, c).at[u], m)
    ensures x == u
  {
    if x != t { assert Holding(sys.at[x], m) && Held(sys, m); }
    if u != t { assert Holding(sys.at[u], m) && Held(sys, m); }
  }

  lemma SpinStep(sys: Sys, t: nat, c: Call)
    requires SemInv(sys) && Legal(sys, t, c)
    ensures SpinOk(Step(sys, t, c))
  {
    var sys' := Step(sys, t, c);
    forall m: nat | m < |sys'.sems|
      ensures sys'.sems[m].hold <==> Held(sys', m)
    {
      HeldStep(sys, t, c, m);
    }
    forall x: nat, u: nat, m: nat | x < |sys'.at| && u < |sys'.at| && Holding(sys'.at[x], m) && Holding(sys'.at[u], m)
      ensures x == u
    {
      HolderUniqueStep(sys, t, c, x, u, m);
    }
  }

  lemma QueuedStep(sys: Sys, t: nat, c: Call, m: nat, x: nat)
    requires SemInv(sys) && Legal(sys, t, c) && m < |sys.sems|
    requires x in Step(sys, t, c).sems[m].queue
    ensures var sys' := Step(sys, t, c);
            x < |sys'.at| && x < |sys'.signal| && Sleeping(sys'.at[x], m) && !sys'.signal[x]
  {
    if x in sys.sems[m].queue {
      assert x < |sys.at|;
      assert Sleeping(sys.at[x], m) && !sys.signal[x];
      if sys.at[t].Inside? && sys.at[t].phase.Wake? { assert Wakes(sys.at[t], sys.at[t].phase.who); }
    } else {
      assert x == t && Holding(sys.at[t], m);
    }
  }

  lemma QueueStep(sys: Sys, t: nat, c: Call)
    requires SemInv(sys) && Legal(sys, t, c)
    ensures Typed(Step(sys, t, c)) && QueueOk(Step(sys, t, c))
  {
    TypedStep(sys, t, c);
    var sys' := Step(sys, t, c);
    forall m | 0 <= m < |sys'.sems|
      ensures Distinct(sys'.sems[m].queue)
    {
      assert Distinct(sys.sems[m].queue);
      assert sys.at[t].Inside? && sys.at[t].phase.Locked? ==> t !in sys.sems[m].queue;
    }
    forall m: nat, x: nat | m < |sys'.sems| && x in sys'.sems[m].queue
      ensures x < |sys'.at| && Sleeping(sys'.at[x], m) && !sys'.signal[x]
    {
      QueuedStep(sys, t, c, m, x);
    }
  }

  lemma WakeTargetStep(sys: Sys, t: nat, c: Call, u: nat, g: nat)
    requires SemInv(sys) && Legal(sys, t, c)
    requires Typed(Step(sys, t, c))
    requires u < |sys.at| && Wakes(Step(sys, t, c).at[u], g)
    ensures var sys' := Step(sys, t, c);
            && g < |sys'.at|
            && sys'.at[g] == Inside(Acquire(sys'.at[u].call.sem), Asleep)
            && !sys'.signal[g]
            && g !in sys'.sems[sys'.at[u].call.sem].queue
  {
    var s := sys.sems[c.sem];
    if u == t {
      if sys.at[t].phase.Locked? {
        assert g in s.queue && g == s.queue[0] && Distinct(s.queue);
        assert Sleeping(sys.at[g], c.sem) && Holding(sys.at[t], c.sem);
        assert !Holding(sys.at[g], c.sem);
        assert g !in s.queue[1..];
      } else {
        assert Wakes(sys.at[t], g);
      }
    } else {
      assert Wakes(sys.at[u], g);
      if sys.at[t].Inside? && sys.at[t].phase.Wake? {
        assert Wakes(sys.at[t], sys.at[t].phase.who);
      }
    }
  }

  lemma WakerUniqueStep(sys: Sys, t: nat, c: Call, u: nat, v: nat, g: nat)
    requires SemInv(sys) && Legal(sys, t, c)
    requires u < |sys.at| && v < |sys.at|
    requires Wakes(Step(sys, t, c).at[u], g) && Wakes(Step(sys, t, c).at[v], g)
    ensures u == v
  {
    // t can take g only from its queue, but a thread another waker holds is outside every queue
    assert u != t ==> Wakes(sys.at[u], g);
    assert v != t ==> Wakes(sys.at[v], g);
    assert (u == t || v == t) && !Wakes(sys.at[t], g) ==> g in sys.sems[c.sem].queue;
  }

  lemma WakeStep(sys: Sys, t: nat, c: Call)
    requires SemInv(sys) && Legal(sys, t, c)
    ensures Typed(Step(sys, t, c)) && WakeOk(Step(sys, t, c))
  {
    TypedStep(sys, t, c);
    var sys' := Step(sys, t, c);
    forall u: nat, g: nat | u < |sys'.at| && Wakes(sys'.at[u], g)
      ensures && g < |sys'.at|
              && sys'.at[g] == Inside(Acquire(sys'.at[u].call.sem), Asleep)
              && !sys'.signal[g]
              && g !in sys'.sems[sys'.at[u].call.sem].queue
    {
      WakeTargetStep(sys, t, c, u, g);
    }
    forall u: nat, v: nat, g: nat | u < |sys'.at| && v < |sys'.at| && Wakes(sys'.at[u], g) && Wakes(sys'.at[v], g)
      ensures u == v
    {
      WakerUniqueStep(sys, t, c, u, v, g);
    }
  }

  lemma SignalStep(sys: Sys, t: nat, c: Call)
    requires SemInv(sys) && Legal(sys, t, c)
    ensures Typed(Step(sys, t, c)) && SignalOk(Step(sys, t, c))
  {
    TypedStep(sys, t, c);
    if sys.at[t].Inside? && sys.at[t].phase.Wake? { assert Wakes(sys.at[t], sys.at[t].phase.who); }
  }

  lemma DequeuedIsWoken(sys: Sys, t: nat, c: Call, m: nat, x: nat)
    requires SemInv(sys) && Legal(sys, t, c) && m < |sys.sems|
    requires x in sys.sems[m].queue && x !in Step(sys, t, c).sems[m].queue
    ensures Wakes(Step(sys, t, c).at[t], x)
  {
    var s := sys.sems[c.sem];
    assert s.queue != [] ==> s.queue == [s.queue[0]] + s.queue[1..];
  }

  lemma CoverStep(sys: Sys, t: nat, c: Call)
    requires SemInv(sys) && Legal(sys, t, c)
    ensures Typed(Step(sys, t, c)) && CoverOk(Step(sys, t, c))
  {
    TypedStep(sys, t, c);
    var sys' := Step(sys, t, c);
    forall x: nat | x < |sys'.at| && sys'.at[x].Inside? && Sleeping(sys'.at[x], sys'.at[x].call.sem)
      ensures x in sys'.sems[sys'.at[x].call.sem].queue || sys'.signal[x] || BeingWoken(sys', x)
    {
      if x == t && sys.at[t].Inside? && sys.at[t].phase.Locked? {
        assert t in sys'.sems[c.sem].queue;
      } else {
        StaysCovered(sys, t, c, x);
      }
    }
  }

  // A thread already asleep.
  lemma StaysCovered(sys: Sys, t: nat, c: Call, x: nat)
    requires SemInv(sys) && Legal(sys, t, c) && x < |sys.at| && !(x == t && sys.at[t].Inside? && sys.at[t].phase.Locked?)
    requires Typed(Step(sys, t, c)) && Step(sys, t, c).at[x].Inside? && Sleeping(Step(sys, t, c).at[x], Step(sys, t, c).at[x].call.sem)
    ensures var sys' := Step(sys, t, c);
            x in sys'.sems[sys'.at[x].call.sem].queue || sys'.signal[x] || BeingWoken(sys', x)
  {
    var sys' := Step(sys, t, c);
    var m := sys'.at[x].call.sem;
    assert Sleeping(sys.at[x], m);
    if x in sys.sems[m].queue {
      if x !in sys'.sems[m].queue { DequeuedIsWoken(sys, t, c, m, x); }
    } else if !sys.signal[x] {
      var u :| 0 <= u < |sys.at| && Wakes(sys.at[u], x);
      if !sys'.signal[x] { assert Wakes(sys'.at[u], x); }
    }
  }

  lemma StepKeepsInv(sys: Sys, t: nat, c: Call)
    requires SemInv(sys) && Legal(sys, t, c)
    ensures SemInv(Step(sys, t, c))
  {
    TypedStep(sys, t, c);
    SpinStep(sys, t, c);
    QueueStep(sys, t, c);
    WakeStep(sys, t, c);
    SignalStep(sys, t, c);
    CoverStep(sys, t, c);
    CountStep(sys, t, c);
  }

  /* ---------- What a step does, seen by a client ---------- */

  // The thread has updated the counter of the semaphore it is calling.
  predicate Past(a: Activity) {
    a.Inside? && !a.phase.Locked?
  }

  predicate Updates(a: Activity, a': Activity) {
    !Past(a) && Past(a')
  }

  // Only thread t's activity changes; it stays in its call or returns from it after the
  // counter update; and the counts of every semaphore change by exactly that update.
  ghost predicate Effect(sys: Sys, sys': Sys, t: nat, c: Call) {
    && t < |sys.at| == |sys'.at| == |sys'.signal|
    && |sys'.sems| == |sys.sems|
    && (forall u :: 0 <= u < |sys.at| && u != t ==> sys'.at[u] == sys.at[u])
    && (sys'.at[t].Inside? ==> sys'.at[t].call == c)
    && (sys'.at[t].Outside? && sys.at[t].Inside? ==> Past(sys.at[t]))
    && (Past(sys.at[t]) && sys'.at[t].Inside? ==> Past(sys'.at[t]))
    && (sys.at[t].Outside? ==> !Past(sys'.at[t]))
    && (forall m :: 0 <= m < |sys.sems| ==> SemEffect(sys.sems[m], sys'.sems[m], m, sys.at[t], sys'.at[t], c))
  }

  ghost predicate SemEffect(s: Sem, s': Sem, m: nat, a: Activity, a': Activity, c: Call) {
    && s'.initial == s.initial
    && |s'.arrivals| == |s.arrivals| + (if c == Acquire(m) && Updates(a, a') then 1 else 0)
    && s'.releases == s.releases + (if c == Release(m) && Updates(a, a') then 1 else 0)
  }

  lemma StepEffect(sys: Sys, t: nat, c: Call)
    requires SemInv(sys) && Legal(sys, t, c)
    ensures Effect(sys, Step(sys, t, c), t, c)
  {
    assert CountOk(sys.sems[c.sem]);
  }

  // A signal is sent only after the spin word has been cleared, to a thread that has gone to
  // sleep, and sending it ends the call.
  lemma SignalsOutsideTheWord(sys: Sys, t: nat, c: Call, g: nat)
    requires SemInv(sys) && Legal(sys, t, c) && g < |sys.signal| && !sys.signal[g] && Step(sys, t, c).signal[g]
    ensures forall m: nat :: !Holding(sys.at[t], m)
    ensures sys.at[g].Inside? && sys.at[g].phase.Asleep? && forall m: nat :: !Holding(sys.at[g], m)
    ensures Step(sys, t, c).at[t].Outside?
  {
    assert Wakes(sys.at[t], g);
  }

  /* ---------- Whole runs by arbitrary clients ---------- */

  function InitSys(threads: nat, counts: seq<int>): Sys {
    Sys(seq(|counts|, m requires 0 <= m < |counts| => NewSem(counts[m])), seq(threads, t => Outside), seq(threads, t => false))
  }

  // Clients choose which thread moves next and, between calls, which call it makes.
  datatype Choice = Choice(thread: nat, call: Call)

  // A choice that is not legal in the current state is skipped.
  function RunCalls(sys: Sys, choices: seq<Choice>): Sys {
    if choices == [] then sys
    else
      var prev := RunCalls(sys, choices[..|choices| - 1]);
      var last := choices[|choices| - 1];
      if Legal(prev, last.thread, last.call) then Step(prev, last.thread, last.call) else prev
  }

  // Initial counters are not negative.
  predicate Counts(counts: seq<int>) {
    forall m :: 0 <= m < |counts| ==> counts[m] >= 0
  }

  lemma InitInv(threads: nat, counts: seq<int>)
    requires Counts(counts)
    ensures SemInv(InitSys(threads, counts))
  {
  }

  lemma {:induction false} RunKeepsInv(threads: nat, counts: seq<int>, choices: seq<Choice>)
    requires Counts(counts)
    ensures SemInv(RunCalls(InitSys(threads, counts), choices))
    ensures |RunCalls(InitSys(threads, counts), choices).sems| == |counts|
    ensures forall m :: 0 <= m < |counts| ==> RunCalls(InitSys(threads, counts), choices).sems[m].initial == counts[m]
  {
    InitInv(threads, counts);
    if choices != [] {
      var n := |choices| - 1;
      RunKeepsInv(threads, counts, choices[..n]);
      var prev := RunCalls(InitSys(threads, counts), choices[..n]);
      if Legal(prev, choices[n].thread, choices[n].call) {
        StepKeepsInv(prev, choices[n].thread, choices[n].call);
      }
    }
  }

  function Min(a: int, b: int): int {
    if a < b then a else b
  }

  // First come, first served: in every run, the permits of every semaphore have been given
  // in the order in which threads decremented its counter, to exactly as many of them as
  // the initial counter and the releases so far allow.
  lemma FirstComeFirstServed(threads: nat, counts: seq<int>, choices: seq<Choice>, m: nat)
    requires Counts(counts) && m < |counts|
    ensures |RunCalls(InitSys(threads, counts), choices).sems| == |counts|
    ensures var s := RunCalls(InitSys(threads, counts), choices).sems[m];
            && s.grants <= s.arrivals
            && |s.grants| == Min(|s.arrivals|, counts[m] + s.releases)
  {
    RunKeepsInv(threads, counts, choices);
    assert CountOk(RunCalls(InitSys(threads, counts), choices).sems[m]);
  }

  // In every run: a thread with a pending signal is one that was dequeued and still sleeps,
  // nobody is about to signal it a second time, and the thread a releaser is about to signal
  // is still inside its acquire call, so its queue record is live.
  lemma NoLostOrDoubleWakeup(threads: nat, counts: seq<int>, choices: seq<Choice>, g: nat)
    requires Counts(counts) && g < threads
    ensures var sys := RunCalls(InitSys(threads, counts), choices);
            && |sys.at| == |sys.signal| == threads
            && (sys.signal[g] ==> sys.at[g].Inside? && sys.at[g].phase.Asleep? && !BeingWoken(sys, g)
                                  && forall m :: 0 <= m < |sys.sems| ==> g !in sys.sems[m].queue)
            && (BeingWoken(sys, g) ==> sys.at[g].Inside? && sys.at[g].phase.Asleep? && !sys.signal[g])
            && (sys.at[g].Inside? && sys.at[g].phase.Asleep? ==>
                  sys.signal[g] || BeingWoken(sys, g) || (sys.at[g].call.sem < |sys.sems| && g in sys.sems[sys.at[g].call.sem].queue))
  {
    RunKeepsInv(threads, counts, choices);
    RunKeepsThreads(threads, counts, choices);
  }

  lemma {:induction false} RunKeepsThreads(threads: nat, counts: seq<int>, choices: seq<Choice>)
    ensures |RunCalls(InitSys(threads, counts), choices).at| == threads == |RunCalls(InitSys(threads, counts), choices).signal|
  {
    if choices != [] { RunKeepsThreads(threads, counts, choices[..|choices| - 1]); }
  }

  /* ---------- Progress inside the semaphores ---------- */

  // The next action of the thread would leave the state as it is: it spins or stays asleep.
  predicate Stalled(sys: Sys, t: nat, c: Call) {
    Legal(sys, t, c) && Step(sys, t, c) == sys
  }

  lemma InsideStalledMeansUnsignalled(sys: Sys, t: nat, c: Call)
    requires Legal(sys, t, c) && SemInv(sys) && sys.at[t].Inside?
    ensures Stalled(sys, t, c) <==> sys.at[t].phase.Asleep? && !sys.signal[t]
  {
    var sys' := Step(sys, t, c);
    assert CountOk(sys.sems[c.sem]);
    if sys' == sys {
      assert sys'.at[t] == sys.at[t];
    }
  }

  // When no thread inside a call can move, every spin word is free and every thread inside a
  // call sleeps in the queue of the semaphore it is acquiring.
  lemma StuckMeansQueued(sys: Sys)
    requires SemInv(sys)
    requires forall t :: 0 <= t < |sys.at| && sys.at[t].Inside? ==> Stalled(sys, t, sys.at[t].call)
    ensures forall m :: 0 <= m < |sys.sems| ==> !sys.sems[m].hold
    ensures forall t :: 0 <= t < |sys.at| && sys.at[t].Inside? ==>
              sys.at[t].call.Acquire? && sys.at[t].phase.Asleep? && t in sys.sems[sys.at[t].call.sem].queue
  {
    forall t | 0 <= t < |sys.at| && sys.at[t].Inside?
      ensures sys.at[t].phase.Asleep? && !sys.signal[t]
    {
      InsideStalledMeansUnsignalled(sys, t, sys.at[t].call);
    }
  }

  // A thread outside a call is kept from starting one only by a held spin word.
  lemma OutsideStalledMeansHeld(sys: Sys, t: nat, c: Call)
    requires Legal(sys, t, c) && sys.at[t].Outside?
    ensures Stalled(sys, t, c) <==> sys.sems[c.sem].hold
  {
    if !sys.sems[c.sem].hold { assert Step(sys, t, c).at[t] != sys.at[t]; }
  }
}
