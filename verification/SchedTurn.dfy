/**
 Whole turns of the simulation, said without their parts: who competes for the processor and who
 gets it, what the running process does, which processes have started, and what the clock shows.
 */
module SchedTurn {
  import opened Collections
  import opened SchedModel
  import opened SchedSafety
  import opened SchedProgress
  import opened SchedService
  import opened SchedDispatch

  /* ---------- Who competes ---------- */

  // The ready processes, then those due in this turn, then the running one if it may go on.
  function Contenders(s: State): seq<nat>
    requires InRange(s)
  {
    s.ready + DueAt(s.procs, s.forkq, s.ticks) + (if Stays(s) then [s.current.value] else [])
  }

  lemma {:induction false} DueAtFrom(procs: seq<Proc>, q: seq<nat>, ticks: nat, p: nat)
    ensures p in DueAt(procs, q, ticks) <==> p in q && p < |procs| && procs[p].startsAt <= ticks
    ensures p in LaterThan(procs, q, ticks) <==> p in q && !(p < |procs| && procs[p].startsAt <= ticks)
  {
    if q != [] {
      assert q == [q[0]] + q[1..];
      DueAtFrom(procs, q[1..], ticks, p);
    }
  }

  // What forking leaves alone.
  lemma {:induction false} ForkFromKeepsRest(s: State, k: nat)
    requires InRange(s) && k <= |s.forkq|
    ensures var s' := ForkFrom(s, k);
            s'.current == s.current && s'.owner == s.owner && s'.waitq == s.waitq && s'.ticks == s.ticks
    decreases |s.forkq| - k
  {
    if k < |s.forkq| {
      if s.procs[s.forkq[k]].startsAt <= s.ticks { ForkFromKeepsRest(ForkAt(s, k), k); } else { ForkFromKeepsRest(s, k + 1); }
    }
  }

  // The state in which the processes due have joined the ready queue.
  ghost predicate Forked(s: State, s0: State) {
    && Good(s0) && |s0.procs| == |s.procs| && s0.ticks == s.ticks && s0.current == s.current && s0.waitq == s.waitq
    && s0.forkq == LaterThan(s.procs, s.forkq, s.ticks)
    && s0.ready == s.ready + DueAt(s.procs, s.forkq, s.ticks)
    && (s.current.Some? && s.current.value < |s.procs| ==> s0.procs[s.current.value] == s.procs[s.current.value])
    && forall p :: 0 <= p < |s.procs| ==> SameWork(s.procs[p], s0.procs[p])
  }

  // What is left to do, what is held, and the priority are the same.
  predicate SameWork(p: Proc, p': Proc) {
    && p'.age == p.age && p'.lifespan == p.lifespan && p'.startsAt == p.startsAt
    && p'.want == p.want && p'.held == p.held && p'.prio == p.prio
  }

  lemma ForkingIsForked(s: State)
    requires Good(s)
    ensures Forked(s, ForkFrom(s, 0))
  {
    ForkFromInv(s, 0);
    ForkMovesDue(s);
    ForkFromKeepsRest(s, 0);
    if s.current.Some? {
      DueAtFrom(s.procs, s.forkq, s.ticks, s.current.value);
      assert ListIs(s.procs, s.forkq, InFork);
    }
  }

  lemma ForkedCompete(s: State, s0: State)
    requires Good(s) && Forked(s, s0)
    ensures Candidates(s0) == Contenders(s)
  {
  }

  // What handing the processor over leaves alone.
  ghost predicate RestKept(s: State, s': State) {
    && |s'.procs| == |s.procs| && s'.waitq == s.waitq && s'.forkq == s.forkq && s'.ticks == s.ticks
    && forall p :: 0 <= p < |s.procs| ==> SameWork(s.procs[p], s'.procs[p])
  }

  lemma RestKeptTwice(s: State, s1: State, s2: State)
    requires RestKept(s, s1) && RestKept(s1, s2)
    ensures RestKept(s, s2)
  {
  }

  lemma LeaveKeepsRest(s: State)
    requires InRange(s)
    ensures RestKept(s, Leave(s))
  {
  }

  lemma PickKeepsRest(s: State, i: nat)
    requires InRange(s) && i < |s.ready|
    ensures RestKept(s, Pick(s, i))
  {
  }

  lemma DispatchKeepsRest(policy: Policy, s: State)
    requires Good(s)
    ensures RestKept(s, Dispatch(policy, s))
  {
    LeaveInRange(s);
    LeaveKeepsRest(s);
    if Leave(s).ready != [] {
      PickKeepsRest(Leave(s), Selected(policy, s));
      RestKeptTwice(s, Leave(s), Pick(Leave(s), Selected(policy, s)));
    }
  }

  // The hand-over at the start of a turn, before the process chosen does anything.
  ghost predicate HandedOver(s: State, d: State) {
    && |d.procs| == |s.procs| && d.waitq == s.waitq && d.ticks == s.ticks
    && d.forkq == LaterThan(s.procs, s.forkq, s.ticks)
    && forall p :: 0 <= p < |s.procs| ==> SameWork(s.procs[p], d.procs[p])
  }

  lemma DispatchedHandsOver(policy: Policy, s: State)
    requires Good(s)
    ensures HandedOver(s, Dispatched(policy, s))
  {
    ForkFromInv(s, 0);
    ForkingIsForked(s);
    DispatchKeepsRest(policy, ForkFrom(s, 0));
  }

  // The earliest contender of highest priority has the processor, the others are ready in order.
  ghost predicate TopChosen(procs: seq<Proc>, q: seq<nat>, current: Option<nat>, ready: seq<nat>) {
    if q == [] then current == None && ready == []
    else exists i: nat :: EarliestOfHighest(procs, q, i) && current == Some(q[i]) && ready == Remove(q, i)
  }

  lemma EarliestSame(procs: seq<Proc>, procs': seq<Proc>, q: seq<nat>, i: nat)
    requires EarliestOfHighest(procs', q, i) && |procs'| == |procs|
    requires forall p :: 0 <= p < |procs| ==> procs'[p].prio == procs[p].prio
    ensures EarliestOfHighest(procs, q, i)
  {
  }

  lemma DispatchedTop(policy: Policy, s: State)
    requires Good(s) && policy != Fifo
    ensures TopChosen(s.procs, Contenders(s), Dispatched(policy, s).current, Dispatched(policy, s).ready)
  {
    ForkFromInv(s, 0);
    ForkingIsForked(s);
    var s0 := ForkFrom(s, 0);
    ForkedCompete(s, s0);
    if Contenders(s) == [] {
      DispatchesEarliestOfHighest(policy, s0);
    } else {
      var i := EarliestDispatched(policy, s0);
      EarliestSame(s.procs, s0.procs, Contenders(s), i);
    }
  }

  // Under FIFO the running process goes on if it may, and otherwise the first contender runs.
  ghost predicate FirstChosen(s: State, current: Option<nat>, ready: seq<nat>)
    requires InRange(s)
  {
    var q := s.ready + DueAt(s.procs, s.forkq, s.ticks);
    if Stays(s) then current == s.current && ready == q
    else if q == [] then current == None && ready == []
    else current == Some(q[0]) && ready == q[1..]
  }

  lemma DispatchedFirst(s: State)
    requires Good(s)
    ensures FirstChosen(s, Dispatched(Fifo, s).current, Dispatched(Fifo, s).ready)
  {
    ForkFromInv(s, 0);
    ForkingIsForked(s);
    FifoKeepsRunning(ForkFrom(s, 0));
  }

  /* ---------- What the running process does ---------- */

  // Nobody but the running process gets older, takes or gives anything back.
  ghost predicate OthersIdle(s: State, s': State) {
    && |s'.procs| == |s.procs|
    && forall p :: 0 <= p < |s.procs| && s.current != Some(p) ==>
         && s'.procs[p].age == s.procs[p].age && s'.procs[p].want == s.procs[p].want && s'.procs[p].held == s.procs[p].held
  }

  lemma {:induction false} AcquireFromAlone(policy: Policy, s: State, k: nat)
    requires Runs(s) && OwnersInRange(s) && WantsInRange(s, s.current.value)
    requires k <= |s.procs[s.current.value].want|
    requires forall j :: 0 <= j < k ==> s.procs[s.current.value].want[j].at != s.procs[s.current.value].age
    ensures OthersIdle(s, AcquireFrom(policy, s, k).0)
    ensures AcquireFrom(policy, s, k).0.forkq == s.forkq && AcquireFrom(policy, s, k).0.ticks == s.ticks
    decreases |s.procs[s.current.value].want| - k
  {
    var p := s.procs[s.current.value];
    if k == |p.want| {
    } else if p.want[k].at != p.age {
      AcquireFromAlone(policy, s, k + 1);
    } else if s.owner[p.want[k].id].None? {
      AcquireStep(policy, s, k);
      AcquireFromAlone(policy, Grant(policy, s, k), k);
    } else {
      BlockAlone(policy, s, p.want[k].id);
    }
  }

  lemma BlockAlone(policy: Policy, s: State, r: nat)
    requires InRange(s) && s.current.Some? && r < NR_RESOURCES && s.owner[r].Some? && s.owner[r].value < |s.procs|
    ensures OthersIdle(s, Block(policy, s, r)) && Block(policy, s, r).forkq == s.forkq && Block(policy, s, r).ticks == s.ticks
  {
  }

  lemma ReleaseAlone(policy: Policy, s: State, k: nat)
    requires InRange(s) && s.current.Some? && k < |s.procs[s.current.value].held| && HeldInRange(s, s.current.value)
    ensures var s' := Release(policy, CountDown(s, k), k);
            OthersIdle(s, s') && s'.forkq == s.forkq && s'.ticks == s.ticks && s'.current == s.current
  {
    ReleaseInRange(policy, CountDown(s, k), k);
  }

  // The loop leaves the running process its age and requests.
  lemma {:induction false} ReleaseFromAlone(policy: Policy, s: State, k: nat)
    requires Releasing(s, k) && HeldInRange(s, s.current.value)
    ensures var s' := ReleaseFrom(policy, s, k);
            && OthersIdle(s, s') && s'.forkq == s.forkq && s'.ticks == s.ticks && s'.current == s.current
            && s'.procs[s.current.value].age == s.procs[s.current.value].age && s'.procs[s.current.value].want == s.procs[s.current.value].want
            && s'.procs[s.current.value].status == Running
    decreases |s.procs[s.current.value].held| - k
  {
    if k < |s.procs[s.current.value].held| {
      var s1, k1 := ReleaseFromNext(policy, s, k);
      if k1 == k { ReleaseAlone(policy, s, k); ReleaseKeepsWant(policy, s, k); }
      ReleaseFromAlone(policy, s1, k1);
    }
  }

  lemma ReleaseKeepsWant(policy: Policy, s: State, k: nat)
    requires Releasing(s, k) && k < |s.procs[s.current.value].held| && HeldInRange(s, s.current.value)
    ensures var c := s.current.value; var s' := Release(policy, CountDown(s, k), k);
            && |s'.procs| == |s.procs| && s'.procs[c].age == s.procs[c].age && s'.procs[c].want == s.procs[c].want
            && s'.procs[c].status == Running
  {
    DropInv(policy, s, k);
    WakenCurrent(policy, DropExpired(policy, s, k), k, s.procs[s.current.value].held[k].id);
  }

  // The tick of the running process c. With all its due requests granted it gets one tick older,
  // keeps the entries with ticks left and gives the others up; otherwise it waits, last, for
  // the first resource that was not free, as old as it was, with the requests before granted.
  ghost predicate RunsOneTick(p: Proc, p': Proc, waitq: seq<seq<nat>>, c: nat) {
    var due := Due(p.want, p.age);
    if p'.status == Running then
      && p'.age == p.age + 1 && p'.held == Survivors(p.held + due) && p'.want == WithoutDue(p.want, p.age, |due|)
    else
      && p'.status == Waiting && p'.age == p.age
      && exists n: nat :: StoppedAt(p, p', waitq, c, due, n)
  }

  predicate StoppedAt(p: Proc, p': Proc, waitq: seq<seq<nat>>, c: nat, due: seq<Entry>, n: nat) {
    && n < |due| && p'.held == p.held + due[..n] && p'.want == WithoutDue(p.want, p.age, n)
    && due[n].id < |waitq| && waitq[due[n].id] != [] && waitq[due[n].id][|waitq[due[n].id]| - 1] == c
  }

  // The requests granted and where the loop stopped, from the queue's first position on.
  lemma AcquiredWorks(policy: Policy, s: State, n: nat)
    requires Runs(s) && Served(s, 0, Acquired(policy, s).0, Acquired(policy, s).1, n)
    ensures var (s1, ok) := Acquired(policy, s); var c := s.current.value; var p := s.procs[c]; var due := Due(p.want, p.age);
            && c < |s1.procs| && n <= |due| && s1.procs[c].held == p.held + due[..n]
            && s1.procs[c].want == WithoutDue(p.want, p.age, n)
            && (ok ==> n == |due|)
            && (!ok ==> s1.procs[c].status == Waiting && StoppedAt(p, s1.procs[c], s1.waitq, c, due, n))
  {
    var p := s.procs[s.current.value];
    assert p.want[0..] == p.want && p.want[..0] == [];
    assert [] + WithoutDue(p.want, p.age, n) == WithoutDue(p.want, p.age, n);
    if !Acquired(policy, s).1 { assert Due(p.want, p.age)[n..][0] == Due(p.want, p.age)[n]; }
  }

  // The queues of the running process's tick: those made ready were waiting.
  ghost predicate ReadyGrows(s: State, s': State) {
    && s.ready <= s'.ready && s'.forkq == s.forkq && s'.ticks == s.ticks && s'.current == s.current
    && forall i :: |s.ready| <= i < |s'.ready| ==> WaitedIn(s.waitq, s'.ready[i])
  }

  predicate WaitedIn(waitq: seq<seq<nat>>, p: nat) {
    exists r :: 0 <= r < |waitq| && p in waitq[r]
  }

  lemma {:induction false} WokenAllWaited(policy: Policy, s: State, es: seq<Entry>)
    requires InRange(s)
    ensures forall i :: 0 <= i < |WokenAll(policy, s, es)| ==> WaitedIn(s.waitq, WokenAll(policy, s, es)[i])
  {
    if es != [] {
      WokenAllWaited(policy, s, es[1..]);
      var w := Woken(policy, s, es[0].id);
      if w != [] { assert w[0] in s.waitq[es[0].id]; }
    }
  }

  lemma AgedWorks(policy: Policy, s: State)
    requires Runs(s)
    requires FirstDue(s.procs[s.current.value].want, s.procs[s.current.value].age) == |s.procs[s.current.value].want|
    ensures var s' := Aged(policy, s); var p := s.procs[s.current.value];
            && OthersIdle(s, s') && s'.forkq == s.forkq && s'.ticks == s.ticks && s'.current == s.current
            && var p' := s'.procs[s.current.value];
               p'.status == Running && p'.age == p.age + 1 && p'.want == p.want && p'.held == Survivors(p.held)
  {
    AgeInv(s);
    InvInRange(Age(s), 0);
    ReleaseFromAlone(policy, Age(s), 0);
    ReleasesExactlyExpired(policy, s);
  }

  lemma ServeRunsOneTick(policy: Policy, s: State)
    requires Runs(s)
    ensures var s' := Serve(policy, s); var c := s.current.value;
            && OthersIdle(s, s') && RunsOneTick(s.procs[c], s'.procs[c], s'.waitq, c)
  {
    RunsInRange(s);
    AcquiredInv(policy, s);
    AcquireFromAlone(policy, s, 0);
    AcquireServesInOrder(policy, s);
    var n: nat :| Served(s, 0, Acquired(policy, s).0, Acquired(policy, s).1, n);
    AcquiredWorks(policy, s, n);
    var p := s.procs[s.current.value];
    if Acquired(policy, s).1 {
      AgedWorks(policy, Acquired(policy, s).0);
      AllGranted(p, n);
    }
  }

  lemma AllGranted(p: Proc, n: nat)
    requires n == |Due(p.want, p.age)|
    ensures Due(p.want, p.age)[..n] == Due(p.want, p.age)
  {
  }

  lemma ServeReadyGrows(policy: Policy, s: State)
    requires Runs(s)
    ensures ReadyGrows(s, Serve(policy, s))
  {
    RunsInRange(s);
    AcquiredInv(policy, s);
    AcquireFromAlone(policy, s, 0);
    AcquireFromKeepsReady(policy, s, 0);
    AcquireServesInOrder(policy, s);
    var (s1, ok) := Acquired(policy, s);
    if ok {
      AgedWorks(policy, s1);
      ReleasesExactlyExpired(policy, s1);
      WokenAllWaited(policy, s1, Expired(s1.procs[s.current.value].held));
    }
  }

  /* ---------- Whole turns ---------- */

  // The ready queue after a turn is `first`, followed by processes that waited before it.
  ghost predicate Followed(s: State, first: seq<nat>, ready: seq<nat>) {
    first <= ready && forall i :: |first| <= i < |ready| ==> WaitedIn(s.waitq, ready[i])
  }

  // In a turn the due processes leave the fork queue and the clock goes on by one.
  lemma TurnForksAndCounts(policy: Policy, s: State, s': State)
    requires Turn(policy, s, s')
    ensures s'.forkq == LaterThan(s.procs, s.forkq, s.ticks) && s'.ticks == s.ticks + 1
  {
    DispatchedHandsOver(policy, s);
    DispatchedInv(policy, s);
    var d := Dispatched(policy, s);
    if d.current.Some? { ServeReadyGrows(policy, d); }
  }

  lemma TurnFollows(policy: Policy, s: State, s': State)
    requires Turn(policy, s, s')
    ensures s'.current == Dispatched(policy, s).current && Followed(s, Dispatched(policy, s).ready, s'.ready)
    ensures s'.current == None ==> s'.ready == Dispatched(policy, s).ready
  {
    DispatchedHandsOver(policy, s);
    DispatchedInv(policy, s);
    var d := Dispatched(policy, s);
    if d.current.Some? { ServeReadyGrows(policy, d); }
  }

  // A priority scheduler's turn runs the earliest of highest priority among the ready processes,
  // those forked in the turn, and the process that ran before if it may go on, in this order;
  // the others stay in this order, with those woken in the turn behind them.
  lemma TurnRunsTop(policy: Policy, s: State, s': State)
    requires Turn(policy, s, s') && policy != Fifo
    ensures exists ready: seq<nat> :: TopChosen(s.procs, Contenders(s), s'.current, ready) && Followed(s, ready, s'.ready)
    ensures s'.current == None ==> s'.ready == []
  {
    DispatchedTop(policy, s);
    TurnFollows(policy, s, s');
  }

  // A FIFO turn goes on with the process that ran before if it may, and else runs the first
  // ready one, or the first of those forked in the turn.
  lemma TurnRunsFirst(s: State, s': State)
    requires Turn(Fifo, s, s')
    ensures exists ready: seq<nat> :: FirstChosen(s, s'.current, ready) && Followed(s, ready, s'.ready)
    ensures s'.current == None ==> s'.ready == []
  {
    DispatchedFirst(s);
    TurnFollows(Fifo, s, s');
  }

  // A process that is ready or forked in the turn and has at least the running one's priority
  // takes the processor from it in this turn.
  lemma TurnDisplaces(policy: Policy, s: State, s': State, p: nat)
    requires Turn(policy, s, s') && policy != Fifo && Stays(s)
    requires p in s.ready + DueAt(s.procs, s.forkq, s.ticks) && p < |s.procs| && s.procs[p].prio >= s.procs[s.current.value].prio
    ensures s'.current.Some? && s'.current != s.current
  {
    var first := s.ready + DueAt(s.procs, s.forkq, s.ticks);
    var q := Contenders(s);
    var j :| 0 <= j < |first| && first[j] == p;
    assert q[j] == p && q[|first|] == s.current.value;
    DispatchedTop(policy, s);
    TurnFollows(policy, s, s');
    var i: nat :| EarliestOfHighest(s.procs, q, i) && s'.current == Some(q[i]);
    assert i <= j || s.procs[q[i]].prio > s.procs[p].prio;
    CurrentIsElsewhere(s);
    assert q[i] in first;
  }

  lemma CurrentIsElsewhere(s: State)
    requires Good(s) && Stays(s)
    ensures s.current.value !in s.ready + DueAt(s.procs, s.forkq, s.ticks)
  {
    LinkTells(s, s.current.value);
    DueAtFrom(s.procs, s.forkq, s.ticks, s.current.value);
  }

  // The process that has the processor does what a tick of its script asks for, and nobody else
  // gets older or takes or gives anything back.
  lemma TurnRuns(policy: Policy, s: State, s': State)
    requires Turn(policy, s, s')
    ensures |s'.procs| == |s.procs|
    ensures forall p :: 0 <= p < |s.procs| && s'.current != Some(p) ==>
              s'.procs[p].age == s.procs[p].age && s'.procs[p].want == s.procs[p].want && s'.procs[p].held == s.procs[p].held
    ensures s'.current.Some? ==> s'.current.value < |s.procs|
                                 && RunsOneTick(s.procs[s'.current.value], s'.procs[s'.current.value], s'.waitq, s'.current.value)
  {
    DispatchedHandsOver(policy, s);
    DispatchedInv(policy, s);
    var d := Dispatched(policy, s);
    if d.current.Some? {
      ServeRunsOneTick(policy, d);
      ServeReadyGrows(policy, d);
      SameTick(s.procs[d.current.value], d.procs[d.current.value], s'.procs[d.current.value], s'.waitq, d.current.value);
    }
  }

  lemma SameTick(p: Proc, d: Proc, p': Proc, waitq: seq<seq<nat>>, c: nat)
    requires SameWork(p, d) && RunsOneTick(d, p', waitq, c)
    ensures RunsOneTick(p, p', waitq, c)
  {
    if p'.status != Running {
      var n: nat :| StoppedAt(d, p', waitq, c, Due(d.want, d.age), n);
      assert StoppedAt(p, p', waitq, c, Due(p.want, p.age), n);
    }
  }

  // The simulation is over exactly when nobody competes and nobody is left to be forked.
  lemma LastTurnIff(policy: Policy, s: State)
    requires Good(s)
    ensures Last(policy, s) <==> Contenders(s) == [] && LaterThan(s.procs, s.forkq, s.ticks) == []
  {
    DispatchedHandsOver(policy, s);
    if policy == Fifo { DispatchedFirst(s); } else { DispatchedTop(policy, s); }
    DispatchedInv(policy, s);
  }

  /* ---------- The clock and the fork queue of a run ---------- */

  predicate Increasing(q: seq<nat>) {
    forall i, j :: 0 <= i < j < |q| ==> q[i] < q[j]
  }

  lemma IncreasingAfter(x: nat, q: seq<nat>)
    requires Increasing(q) && forall i :: 0 <= i < |q| ==> x < q[i]
    ensures Increasing([x] + q)
  {
  }

  lemma {:induction false} PartsIncrease(procs: seq<Proc>, q: seq<nat>, ticks: nat)
    requires Increasing(q)
    ensures Increasing(DueAt(procs, q, ticks)) && Increasing(LaterThan(procs, q, ticks))
  {
    if q != [] {
      var due, later := DueAt(procs, q[1..], ticks), LaterThan(procs, q[1..], ticks);
      PartsIncrease(procs, q[1..], ticks);
      forall i | 0 <= i < |due| ensures q[0] < due[i] { PartsAbove(procs, q, ticks, due[i]); }
      forall i | 0 <= i < |later| ensures q[0] < later[i] { PartsAbove(procs, q, ticks, later[i]); }
      IncreasingAfter(q[0], due);
      IncreasingAfter(q[0], later);
      assert [] + due == due && [] + later == later;
    }
  }

  lemma PartsAbove(procs: seq<Proc>, q: seq<nat>, ticks: nat, p: nat)
    requires Increasing(q) && q != [] && (p in DueAt(procs, q[1..], ticks) || p in LaterThan(procs, q[1..], ticks))
    ensures q[0] < p
  {
    DueAtFrom(procs, q[1..], ticks, p);
    assert p in q[1..];
  }

  // The processes that have not started by tick i wait in script order, and the clock shows i.
  ghost predicate AtTick(procs: seq<Proc>, s: State, i: nat) {
    && |s.procs| == |procs| && (forall p :: 0 <= p < |procs| ==> s.procs[p].startsAt == procs[p].startsAt)
    && s.ticks == i && Increasing(s.forkq)
    && forall p: nat {:trigger p in s.forkq} :: p in s.forkq <==> p < |procs| && procs[p].startsAt >= i
  }

  lemma TurnKeepsStarts(policy: Policy, s: State, s': State)
    requires Turn(policy, s, s')
    ensures |s'.procs| == |s.procs| && forall p :: 0 <= p < |s.procs| ==> s'.procs[p].startsAt == s.procs[p].startsAt
  {
    DispatchedKeeps(policy, s);
    DispatchedInv(policy, s);
    var d := Dispatched(policy, s);
    if d.current.Some? { ServeKeepsStarts(policy, d); }
  }

  lemma ServeKeepsStarts(policy: Policy, s: State)
    requires Runs(s)
    ensures var s' := Serve(policy, s);
            |s'.procs| == |s.procs| && forall p :: 0 <= p < |s.procs| ==> s'.procs[p].startsAt == s.procs[p].startsAt
  {
    RunsInRange(s);
    AcquireFromKeeps(policy, s, 0);
    AcquiredInv(policy, s);
    var (s1, ok) := Acquired(policy, s);
    if ok { AgedKeeps(policy, s1); }
  }

  // At the i-th state of every run the clock shows i, and the fork queue holds, in the order of
  // the script, exactly the processes that start at tick i or later.
  lemma {:induction false} ClockAndForkQueue(policy: Policy, procs: seq<Proc>, ss: seq<State>, i: nat)
    requires Script(procs) && Run(policy, procs, ss) && i < |ss|
    ensures AtTick(procs, ss[i], i)
  {
    if i == 0 {
      StartQueue(procs);
    } else {
      ClockAndForkQueue(policy, procs, ss, i - 1);
      var s := ss[i - 1];
      assert Turn(policy, s, ss[i]);
      TurnForksAndCounts(policy, s, ss[i]);
      TurnKeepsStarts(policy, s, ss[i]);
      PartsIncrease(s.procs, s.forkq, s.ticks);
      forall p: nat ensures p in ss[i].forkq <==> p < |procs| && procs[p].startsAt >= i { DueAtFrom(s.procs, s.forkq, s.ticks, p); }
    }
  }

  lemma StartQueue(procs: seq<Proc>)
    ensures AtTick(procs, Start(procs), 0)
  {
    forall p: nat | p < |procs| ensures p in Start(procs).forkq { assert Start(procs).forkq[p] == p; }
  }

  // A process has left the fork queue after turn i exactly when it starts at tick i or before.
  lemma ForkedOnTime(policy: Policy, procs: seq<Proc>, ss: seq<State>, i: nat, p: nat)
    requires Script(procs) && Run(policy, procs, ss) && i + 1 < |ss| && p < |procs|
    ensures ss[i].ticks == i && (p !in ss[i + 1].forkq <==> procs[p].startsAt <= i)
  {
    ClockAndForkQueue(policy, procs, ss, i);
    ClockAndForkQueue(policy, procs, ss, i + 1);
  }

  // Those forked in a turn join the ready queue in the order of the script: they are exactly the
  // processes that start at that tick.
  lemma ForkedInScriptOrder(policy: Policy, procs: seq<Proc>, ss: seq<State>, i: nat)
    requires Script(procs) && Run(policy, procs, ss) && i < |ss|
    ensures var due := DueAt(ss[i].procs, ss[i].forkq, ss[i].ticks);
            && Increasing(due)
            && forall p: nat :: p in due <==> p < |procs| && procs[p].startsAt == i
  {
    ClockAndForkQueue(policy, procs, ss, i);
    PartsIncrease(ss[i].procs, ss[i].forkq, i);
    forall p: nat ensures p in DueAt(ss[i].procs, ss[i].forkq, i) <==> p < |procs| && procs[p].startsAt == i {
      DueAtFrom(ss[i].procs, ss[i].forkq, i, p);
    }
  }

  // Process p is the first in the script of those that start first, at tick i.
  predicate FirstToStart(procs: seq<Proc>, p: nat, i: nat) {
    && p < |procs| && procs[p].startsAt == i
    && (forall q :: 0 <= q < |procs| ==> procs[q].startsAt >= i)
    && (forall q :: 0 <= q < p ==> procs[q].startsAt > i)
  }

  lemma SomeMember(q: seq<nat>)
    ensures q == [] || exists p: nat :: p in q
  {
    if q != [] { assert q[0] in q; }
  }

  lemma IdleTurn(policy: Policy, s: State, s': State)
    requires Turn(policy, s, s') && Contenders(s) == []
    ensures s'.current == None && s'.ready == []
  {
    if policy == Fifo { TurnRunsFirst(s, s'); } else { TurnRunsTop(policy, s, s'); }
  }

  // Before anybody has started the processor idles.
  lemma {:induction false} IdleBefore(policy: Policy, procs: seq<Proc>, ss: seq<State>, p: nat, i: nat, j: nat)
    requires Script(procs) && Run(policy, procs, ss) && FirstToStart(procs, p, i) && j <= i && j < |ss|
    ensures ss[j].current == None && ss[j].ready == []
  {
    if j > 0 {
      IdleBefore(policy, procs, ss, p, i, j - 1);
      ForkedInScriptOrder(policy, procs, ss, j - 1);
      SomeMember(DueAt(ss[j - 1].procs, ss[j - 1].forkq, ss[j - 1].ticks));
      assert Turn(policy, ss[j - 1], ss[j]);
      IdleTurn(policy, ss[j - 1], ss[j]);
    }
  }

  // Under FIFO the first process to run is the first in the script of those that start first,
  // at the tick it starts.
  lemma FifoRunsFirstStarted(procs: seq<Proc>, ss: seq<State>, p: nat, i: nat)
    requires Script(procs) && Run(Fifo, procs, ss) && FirstToStart(procs, p, i) && i + 1 < |ss|
    ensures ss[i + 1].current == Some(p)
    ensures forall j :: 0 <= j <= i ==> ss[j].current == None
  {
    forall j: nat | j <= i ensures ss[j].current == None && ss[j].ready == [] { IdleBefore(Fifo, procs, ss, p, i, j); }
    ForkedInScriptOrder(Fifo, procs, ss, i);
    var s := ss[i];
    var due := DueAt(s.procs, s.forkq, s.ticks);
    assert p in due && due[0] in due;
    var k :| 0 <= k < |due| && due[k] == p;
    assert due[0] <= due[k] && due[0] >= p;
    assert s.ready + due == due;
    assert Turn(Fifo, s, ss[i + 1]);
    TurnRunsFirst(s, ss[i + 1]);
  }

  // The last turn leaves the clock where the run has brought it.
  lemma EndsAtTick(policy: Policy, procs: seq<Proc>, ss: seq<State>, end: State)
    requires Script(procs) && Run(policy, procs, ss) && Over(policy, ss[|ss| - 1], end)
    ensures end.ticks == |ss| - 1
  {
    ClockAndForkQueue(policy, procs, ss, |ss| - 1);
    DispatchedHandsOver(policy, ss[|ss| - 1]);
  }
}
