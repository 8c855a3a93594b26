/**
 What each thread does, in order: in every run the calls that have returned to it and its
 accesses to the slots are those of the program text, round after round.
 */
module RingProgram {
  import opened Semaphores
  import opened RingProtocol

  // A semaphore call has returned, or a slot was stored to or loaded from.
  datatype Event = Returned(call: Call) | Access

  // One round of a producer, and one of the consumer.
  function Round(cfg: Config, t: nat): (r: seq<Event>)
    ensures |r| == 5
  {
    var wait, post := if t == Consumer(cfg) then EMPTY else SEMA, if t == Consumer(cfg) then SEMA else EMPTY;
    [Returned(Acquire(wait)), Returned(Acquire(MUTEX)), Access, Returned(Release(MUTEX)), Returned(Release(post))]
  }

  // The first n events of the rounds, one after the other.
  function Program(cfg: Config, t: nat, n: nat): seq<Event> {
    seq(n, k requires 0 <= k => Round(cfg, t)[k % 5])
  }

  // What is seen of thread t in one of its steps, without its program counter.
  function Seen(s: State, s': State, t: nat): seq<Event>
    requires t < |s.sys.at| && t < |s'.sys.at|
  {
    if s.sys.at[t].Inside? && s'.sys.at[t].Outside? then [Returned(s.sys.at[t].call)]
    else if s'.written != s.written || s'.taken != s.taken then [Access]
    else []
  }

  // All that is seen of thread t in a run.
  ghost function Events(cfg: Config, choices: seq<nat>, t: nat): seq<Event>
    requires ValidConfig(cfg) && t <= Consumer(cfg)
  {
    if choices == [] then []
    else
      var n := |choices| - 1;
      RunInvariant(cfg, choices[..n]);
      RunInvariant(cfg, choices);
      Events(cfg, choices[..n], t) + if choices[n] == t then Seen(Run(cfg, choices[..n]), Run(cfg, choices), t) else []
  }

  // The events of a thread before it got to where it is.
  function Place(w: Worker): nat {
    5 * w.round + if w.op <= 3 then w.op else w.op - 1
  }

  // Nothing is seen and the thread stays in its place, or it goes on by the next event there.
  predicate GoesOn(cfg: Config, s: State, s': State, t: nat) {
    && t < |s.workers| && t < |s'.workers| && t < |s.sys.at| && t < |s'.sys.at|
    && var n := Place(s.workers[t]);
       if Seen(s, s', t) == [] then Place(s'.workers[t]) == n
       else Place(s'.workers[t]) == n + 1 && Seen(s, s', t) == [Round(cfg, t)[n % 5]]
  }

  lemma CallIsSeen(cfg: Config, s: State, t: nat)
    requires Inv(cfg, s) && t <= Consumer(cfg) && !Done(cfg, s, t) && IsCall(s.workers[t].op)
    ensures GoesOn(cfg, s, Next(cfg, s, t), t)
  {
    assert WorkerShape(cfg, s, t);
    CallEffect(cfg, s, t);
  }

  lemma StepIsSeen(cfg: Config, s: State, t: nat)
    requires Inv(cfg, s) && t <= Consumer(cfg)
    ensures GoesOn(cfg, s, Next(cfg, s, t), t)
  {
    if !Done(cfg, s, t) && IsCall(s.workers[t].op) {
      CallIsSeen(cfg, s, t);
    } else {
      assert WorkerShape(cfg, s, t);
    }
  }

  lemma OneMore(cfg: Config, t: nat, n: nat)
    ensures Program(cfg, t, n) + [Round(cfg, t)[n % 5]] == Program(cfg, t, n + 1)
  {
  }

  // The events of thread t so far are the program's, up to its place.
  lemma {:induction false} EventsSoFar(cfg: Config, choices: seq<nat>, t: nat)
    requires ValidConfig(cfg) && t <= Consumer(cfg)
    ensures t < |Run(cfg, choices).workers| && Events(cfg, choices, t) == Program(cfg, t, Place(Run(cfg, choices).workers[t]))
  {
    RunInvariant(cfg, choices);
    if choices != [] {
      var n := |choices| - 1;
      EventsSoFar(cfg, choices[..n], t);
      RunInvariant(cfg, choices[..n]);
      EventsStep(cfg, Run(cfg, choices[..n]), choices[n], t, Events(cfg, choices[..n], t));
    }
  }

  lemma EventsStep(cfg: Config, s: State, u: nat, t: nat, events: seq<Event>)
    requires Inv(cfg, s) && t <= Consumer(cfg) && events == Program(cfg, t, Place(s.workers[t]))
    ensures var s' := Next(cfg, s, u);
            && t < |s'.workers| && t < |s'.sys.at|
            && events + (if u == t then Seen(s, s', t) else []) == Program(cfg, t, Place(s'.workers[t]))
  {
    if u == t {
      StepIsSeen(cfg, s, t);
      OneMore(cfg, t, Place(s.workers[t]));
    } else if u <= Consumer(cfg) {
      OthersUnchanged(cfg, s, u);
    }
    assert events + [] == events;
  }

  // In every run each thread has done a prefix of its program, repeated: wait for a slot, enter,
  // access, leave, and post, whatever the other threads do.
  lemma FollowsProgram(cfg: Config, choices: seq<nat>, t: nat)
    requires ValidConfig(cfg) && t <= Consumer(cfg)
    ensures exists n: nat :: Events(cfg, choices, t) == Program(cfg, t, n)
  {
    EventsSoFar(cfg, choices, t);
    assert Events(cfg, choices, t) == Program(cfg, t, Place(Run(cfg, choices).workers[t]));
  }
}
