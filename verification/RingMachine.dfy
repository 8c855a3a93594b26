/**
 The semaphore and ring buffer objects, updated in place one atomic action at a time, and
 the collection of the counters after a run. Every action is proved to be a step of the
 protocol, so the theorems about `Run` hold of what these objects do.
 */
module RingMachine {
  import opened Sums
  import opened Semaphores
  import opened RingProtocol
  import opened RingProgress
  import opened RingConservation

  // A blocking counting semaphore. The ghost fields are the histories of `Sem`.
  class Mutex {
    var S: int
    var hold: bool
    var queue: seq<nat>
    ghost const initial: int
    ghost var arrivals: seq<nat>
    ghost var grants: seq<nat>
    ghost var releases: nat

    ghost function Value(): Sem
      reads this
    {
      Sem(S, hold, queue, initial, arrivals, grants, releases)
    }

    constructor (count: int)
      ensures Value() == NewSem(count)
    {
      S, hold, queue := count, false, [];
      initial, arrivals, grants, releases := count, [], [], 0;
    }

    // compare_and_swap(&hold, 0, 1), with the old value of the word.
    method CompareAndSwap() returns (was: bool)
      modifies this
      ensures was == old(hold)
      ensures Value() == old(Value()).(hold := true)
    {
      was := hold;
      if !hold { hold := true; }
    }

    method DecrementCounter(t: nat) returns (sleeps: bool)
      modifies this
      ensures Value() == Decrement(old(Value()), t)
      ensures sleeps <==> S < 0
    {
      S := S - 1;
      arrivals := arrivals + [t];
      if S < 0 {
        queue := queue + [t];
        sleeps := true;
      } else {
        grants := grants + [t];
        sleeps := false;
      }
    }

    // `next` is where the releaser continues: outside the call when it found nobody to wake.
    method IncrementCounter(c: Call) returns (next: Activity)
      modifies this
      ensures Value() == Increment(old(Value()))
      ensures next == if S > 0 then Inside(c, Unlock)
                      else if old(queue) != [] then Inside(c, UnlockWake(old(queue)[0])) else Outside
    {
      S := S + 1;
      releases := releases + 1;
      if S <= 0 {
        if queue != [] {
          var first := queue[0];
          queue := queue[1..];
          grants := grants + [first];
          next := Inside(c, UnlockWake(first));
        } else {
          next := Outside;
        }
      } else {
        next := Inside(c, Unlock);
      }
    }

    method ClearHold()
      modifies this
      ensures Value() == old(Value()).(hold := false)
    {
      hold := false;
    }
  }

  // The ring buffer with its three semaphores, and the threads that use it.
  class Machine {
    const cfg: Config
    const slots: array<int>
    const sems: array<Mutex>
    const at: array<Activity>
    const signal: array<bool>
    const workers: array<Worker>
    var inn: nat
    var out: nat
    ghost var written: seq<int>
    ghost var taken: seq<int>

    ghost predicate Valid()
      reads this, sems
    {
      && ValidConfig(cfg)
      && sems.Length == 3
      && sems[0] != sems[1] && sems[0] != sems[2] && sems[1] != sems[2]
      && workers.Length == at.Length == signal.Length == Consumer(cfg) + 1
      && slots.Length == cfg.slots
    }

    ghost function SysValue(): Sys
      reads this, sems, at, signal
      reads set i | 0 <= i < sems.Length :: sems[i]
      requires Valid()
    {
      Sys([sems[0].Value(), sems[1].Value(), sems[2].Value()], at[..], signal[..])
    }

    ghost function Value(): State
      reads this, sems, at, signal, slots, workers
      reads set i | 0 <= i < sems.Length :: sems[i]
      requires Valid()
    {
      State(SysValue(), workers[..], slots[..], inn, out, written, taken)
    }

    constructor (cfg: Config)
      requires ValidConfig(cfg)
      ensures Valid() && this.cfg == cfg && Value() == Init(cfg)
      ensures fresh(sems) && fresh(at) && fresh(signal) && fresh(workers) && fresh(slots)
      ensures fresh(sems[0]) && fresh(sems[1]) && fresh(sems[2])
    {
      var mutex := new Mutex(1);
      var sema := new Mutex(cfg.slots);
      var empty := new Mutex(0);
      this.cfg := cfg;
      slots := new int[cfg.slots](_ => 0);
      sems := new Mutex[][mutex, sema, empty];
      at := new Activity[Consumer(cfg) + 1](_ => Outside);
      signal := new bool[Consumer(cfg) + 1](_ => false);
      workers := new Worker[Consumer(cfg) + 1](_ => Worker(0, 0, 0, multiset{}));
      inn, out, written, taken := 0, 0, [], [];
      new;
      StartsAsInit();
    }

    lemma StartsAsInit()
      requires Valid() && sems[0].Value() == NewSem(1) && sems[1].Value() == NewSem(cfg.slots) && sems[2].Value() == NewSem(0)
      requires forall t :: 0 <= t < at.Length ==> at[t] == Outside && !signal[t] && workers[t] == Worker(0, 0, 0, multiset{})
      requires (forall i :: 0 <= i < slots.Length ==> slots[i] == 0) && inn == out == 0 && written == taken == []
      ensures Value() == Init(cfg)
    {
      assert SysValue() == InitSys(Consumer(cfg) + 1, [1, cfg.slots, 0]);
      assert workers[..] == Init(cfg).workers && slots[..] == Init(cfg).slots;
    }

    method TakeWord(t: nat, c: Call)
      requires Valid() && Legal(SysValue(), t, c) && at[t].Outside?
      modifies at, sems[c.sem]
      ensures Valid() && SysValue() == Step(old(SysValue()), t, c)
    {
      var m := sems[c.sem];
      var was := m.CompareAndSwap();
      if !was { at[t] := Inside(c, Locked); }
    }

    method AcquireUpdate(t: nat, c: Call)
      requires Valid() && Legal(SysValue(), t, c) && at[t] == Inside(c, Locked) && c.Acquire?
      modifies at, sems[c.sem]
      ensures Valid() && SysValue() == Step(old(SysValue()), t, c)
    {
      var sleeps := sems[c.sem].DecrementCounter(t);
      at[t] := Inside(c, if sleeps then UnlockSleep else Unlock);
    }

    method ReleaseUpdate(t: nat, c: Call)
      requires Valid() && Legal(SysValue(), t, c) && at[t] == Inside(c, Locked) && c.Release?
      modifies at, sems[c.sem]
      ensures Valid() && SysValue() == Step(old(SysValue()), t, c)
    {
      at[t] := sems[c.sem].IncrementCounter(c);
    }

    method UpdateCounter(t: nat, c: Call)
      requires Valid() && Legal(SysValue(), t, c) && at[t] == Inside(c, Locked)
      modifies at, sems[c.sem]
      ensures Valid() && SysValue() == Step(old(SysValue()), t, c)
    {
      if c.Acquire? { AcquireUpdate(t, c); } else { ReleaseUpdate(t, c); }
    }

    method ClearWord(t: nat, c: Call)
      requires Valid() && Legal(SysValue(), t, c) && Holding(at[t], c.sem) && !at[t].phase.Locked?
      modifies at, sems[c.sem]
      ensures Valid() && SysValue() == Step(old(SysValue()), t, c)
    {
      sems[c.sem].ClearHold();
      at[t] := match at[t].phase
               case UnlockSleep => Inside(c, Asleep)
               case UnlockWake(g) => Inside(c, Wake(g))
               case _ => Outside;
    }

    method Signals(t: nat, c: Call)
      requires Valid() && Legal(SysValue(), t, c) && at[t].Inside? && (at[t].phase.Asleep? || at[t].phase.Wake?)
      modifies at, signal
      ensures Valid() && SysValue() == Step(old(SysValue()), t, c)
    {
      if at[t].phase.Wake? {
        var g := at[t].phase.who;
        if g < signal.Length { signal[g] := true; }
        at[t] := Outside;
      } else if signal[t] {
        signal[t] := false;
        at[t] := Outside;
      }
    }

    // One atomic action of thread t inside (or entering) call c.
    method SemAction(t: nat, c: Call)
      requires Valid() && Legal(SysValue(), t, c)
      modifies at, signal, sems[c.sem]
      ensures Valid() && SysValue() == Step(old(SysValue()), t, c)
    {
      if at[t].Outside? {
        TakeWord(t, c);
      } else if at[t].phase.Locked? {
        UpdateCounter(t, c);
      } else if at[t].phase.Asleep? || at[t].phase.Wake? {
        Signals(t, c);
      } else {
        ClearWord(t, c);
      }
    }

    method CallAction(t: nat)
      requires Valid() && Shape(cfg, Value()) && t <= Consumer(cfg) && IsCall(workers[t].op)
      modifies at, signal, workers, sems[CallOf(cfg, t, workers[t].op).sem]
      ensures Valid() && Value() == CallStep(cfg, old(Value()), t)
    {
      assert WorkerShape(cfg, Value(), t);
      var wasInside := at[t].Inside?;
      SemAction(t, CallOf(cfg, t, workers[t].op));
      if wasInside && at[t].Outside? {
        workers[t] := workers[t].(op := workers[t].op + 1);
      }
    }

    // The store or load of one slot.
    method SlotAction(t: nat)
      requires Valid() && Shape(cfg, Value()) && t <= Consumer(cfg) && workers[t].op == 2
      modifies this, slots, workers
      ensures Valid() && Value() == Next(cfg, old(Value()), t)
    {
      assert WorkerShape(cfg, Value(), t);
      var w := workers[t];
      if t < Consumer(cfg) {
        var v := cfg.input[t][w.round];
        slots[inn] := v;
        written := written + [v];
        workers[t] := Worker(3, w.round, v, w.tally);
      } else {
        var v := slots[out];
        taken := taken + [v];
        workers[t] := Worker(3, w.round, v, w.tally);
      }
    }

    // The advance of an index around the slots.
    method IndexAction(t: nat)
      requires Valid() && Shape(cfg, Value()) && t <= Consumer(cfg) && workers[t].op == 3
      modifies this, workers
      ensures Valid() && Value() == Next(cfg, old(Value()), t)
    {
      assert WorkerShape(cfg, Value(), t);
      var w := workers[t];
      if t < Consumer(cfg) {
        inn := (inn + 1) % cfg.slots;
      } else {
        out := (out + 1) % cfg.slots;
      }
      workers[t] := w.(op := 4);
    }

    // One atomic action of thread t.
    method Action(t: nat)
      requires Valid() && Shape(cfg, Value())
      modifies this, at, signal, slots, workers, set i | 0 <= i < sems.Length :: sems[i]
      ensures Valid() && Value() == Next(cfg, old(Value()), t)
    {
      if t <= Consumer(cfg) {
        var w := workers[t];
        var quota := Quota(cfg, t);
        if w.round != quota {
          if IsCall(w.op) {
            CallAction(t);
          } else if w.op == 2 {
            SlotAction(t);
          } else if w.op == 3 {
            IndexAction(t);
          } else {
            workers[t] := Worker(0, w.round + 1, w.value, w.tally + multiset{w.value});
          }
        }
      }
    }

    // The threads move in the order given.
    method Execute(choices: seq<nat>)
      requires Valid() && Value() == Init(cfg)
      modifies this, at, signal, slots, workers, set i | 0 <= i < sems.Length :: sems[i]
      ensures Valid() && Value() == Run(cfg, choices)
    {
      for n := 0 to |choices|
        invariant Valid() && Value() == Run(cfg, choices[..n])
      {
        RunInvariant(cfg, choices[..n]);
        Action(choices[n]);
        assert choices[..n + 1][..n] == choices[..n];
      }
      assert choices[..|choices|] == choices;
    }
  }

  /* ---------- Collecting and comparing the counters ---------- */

  // The n-th counter of every generator.
  function Column(generated: seq<seq<nat>>, n: nat): (c: seq<int>)
    requires forall i :: 0 <= i < |generated| ==> n < |generated[i]|
  {
    seq(|generated|, i requires 0 <= i < |generated| => generated[i][n])
  }

  // Adds the counters of all generators to the table.
  method CollectGenerated(generated: seq<seq<nat>>, values: array<int>)
    requires values.Length == MAX_VALUE
    requires forall i :: 0 <= i < |generated| ==> |generated[i]| == MAX_VALUE
    modifies values
    ensures forall n :: MIN_VALUE <= n < MAX_VALUE ==> values[n] == old(values[n]) + Sum(Column(generated, n))
  {
    for i := 0 to |generated|
      invariant forall n :: MIN_VALUE <= n < MAX_VALUE ==> values[n] == old(values[n]) + Sum(Column(generated[..i], n))
    {
      ghost var before := values[..];
      for n := MIN_VALUE to MAX_VALUE
        invariant forall k :: MIN_VALUE <= k < n ==> values[k] == before[k] + generated[i][k]
        invariant forall k :: n <= k < MAX_VALUE ==> values[k] == before[k]
      {
        values[n] := values[n] + generated[i][n];
      }
      forall n | MIN_VALUE <= n < MAX_VALUE
        ensures Sum(Column(generated[..i + 1], n)) == Sum(Column(generated[..i], n)) + generated[i][n]
      {
        assert Column(generated[..i + 1], n)[..i] == Column(generated[..i], n);
      }
    }
    assert generated[..|generated|] == generated;
  }

  method CompareResults(generated: array<int>, counted: array<int>) returns (mismatch: bool)
    requires generated.Length == counted.Length == MAX_VALUE
    ensures mismatch <==> generated[..] != counted[..]
  {
    mismatch := false;
    for i := MIN_VALUE to MAX_VALUE
      invariant mismatch <==> generated[..i] != counted[..i]
    {
      assert generated[..i + 1] == generated[..i] + [generated[i]];
      assert counted[..i + 1] == counted[..i] + [counted[i]];
      if generated[i] != counted[i] {
        mismatch := true;
        assert generated[..i + 1][i] != counted[..i + 1][i];
      }
    }
  }

  // Counters as a table over the allowed values.
  function Table(tally: multiset<int>): (t: seq<nat>)
  {
    seq(MAX_VALUE, v => tally[v])
  }

  // After any finished run, collecting the producers' tables and comparing them with the
  // consumer's finds no mismatch.
  method FinalReport(cfg: Config, choices: seq<nat>, generated: seq<seq<nat>>, counted: array<int>) returns (mismatch: bool)
    requires ValidConfig(cfg)
    requires Shape(cfg, Run(cfg, choices)) && Finished(cfg, Run(cfg, choices))
    requires |generated| == Consumer(cfg)
    requires forall p :: 0 <= p < Consumer(cfg) ==> generated[p] == Table(Run(cfg, choices).workers[p].tally)
    requires counted[..] == Table(Run(cfg, choices).workers[Consumer(cfg)].tally)
    ensures !mismatch
  {
    var values := new int[MAX_VALUE](_ => 0);
    CollectGenerated(generated, values);
    ghost var s := Run(cfg, choices);
    assert counted.Length == MAX_VALUE by { assert |counted[..]| == MAX_VALUE; }
    forall v | 0 <= v < MAX_VALUE
      ensures values[v] == counted[..][v]
    {
      FinishedRunsAgree(cfg, choices, v);
      assert Column(generated, v) == Generated(cfg, s, v);
    }
    mismatch := CompareResults(values, counted);
    assert values[..] == counted[..];
  }
}
