/**
 Two small scripts on which a protocol does not give what it is for: a priority inherited through
 one resource is lost when another is released, and a release under the ceiling lets a process
 block.
 */
module SchedExamples {
  import opened Collections
  import opened SchedModel
  import opened SchedSafety

  /* ---------- Turns put together ---------- */

  // A turn from its dispatch, its requests and its releases.
  lemma TurnServes(policy: Policy, s: State, d: State, a: State, r: State)
    requires Good(s) && Dispatched(policy, s) == d && d.current.Some?
    requires InRange(d) && OwnersInRange(d) && WantsInRange(d, d.current.value) && AcquireFrom(policy, d, 0) == (a, true)
    requires InRange(a) && a.current == d.current && HeldInRange(Age(a), d.current.value) && ReleaseFrom(policy, Age(a), 0) == r
    ensures Turn(policy, s, NextTick(r))
  {
    DispatchedInv(policy, s);
    AcquiredInv(policy, d);
    assert Acquired(policy, d) == (a, true);
    AgeInv(a);
    InvInRange(Age(a), 0);
    assert Aged(policy, a) == r;
    assert Serve(policy, d) == r;
  }

  lemma TurnBlocks(policy: Policy, s: State, d: State, a: State)
    requires Good(s) && Dispatched(policy, s) == d && d.current.Some?
    requires InRange(d) && OwnersInRange(d) && WantsInRange(d, d.current.value) && AcquireFrom(policy, d, 0) == (a, false)
    ensures Turn(policy, s, NextTick(a))
  {
    DispatchedInv(policy, s);
    AcquiredInv(policy, d);
    assert Acquired(policy, d) == (a, false);
    assert Serve(policy, d) == a;
  }

  function NoOwners(): seq<Option<nat>> { seq(NR_RESOURCES, _ => None) }

  function NoWaiters(): seq<seq<nat>> { seq(NR_RESOURCES, _ => []) }

  // The low-priority process uses resource 0 for a while and resource 1 for three ticks, both
  // from its start on; the high-priority one, a tick later, asks for resource 1.
  function Low(age: nat, prio: nat, status: Status, link: Link, want: seq<Entry>, held: seq<Entry>): Proc {
    Proc(0, status, age, 4, prio, 1, 0, want, held, link)
  }

  function High(status: Status, link: Link): Proc {
    Proc(1, status, 0, 2, 5, 5, 1, [Entry(1, 0, 1, 1)], [], link)
  }

  function Pair(duration: nat): seq<Proc> {
    [Low(0, 1, Ready, InFork, [Entry(0, 0, duration, duration), Entry(1, 0, 3, 3)], []), High(Ready, InFork)]
  }

  /* ---------- The first turn: the low-priority process takes both ---------- */

  function FirstDispatched(d: nat): State {
    State([Low(0, 1, Running, Detached, [Entry(0, 0, d, d), Entry(1, 0, 3, 3)], []), High(Ready, InFork)],
          Some(0), [], [1], NoOwners(), NoWaiters(), 0)
  }

  function FirstServed(d: nat, prio: nat): State {
    State([Low(0, prio, Running, Detached, [], [Entry(0, 0, d, d), Entry(1, 0, 3, 3)]), High(Ready, InFork)],
          Some(0), [], [1], NoOwners()[0 := Some(0)][1 := Some(0)], NoWaiters(), 0)
  }

  lemma FirstDispatch(policy: Policy, s: State, d: nat)
    requires InRange(s) && s == Start(Pair(d))
    ensures InRange(ForkFrom(s, 0)) && Dispatch(policy, ForkFrom(s, 0)) == FirstDispatched(d)
  {
    var s1 := ForkAt(s, 0);
    assert s.forkq == [0, 1] && s1.forkq == [1] && s1.ready == [0];
    assert ForkFrom(s, 0) == ForkFrom(s1, 0) == ForkFrom(s1, 1) == s1;
    assert Leave(s1) == s1;
    assert Remove(s1.ready, 0) == [];
  }

  lemma FirstAcquire(policy: Policy, s: State, d: nat)
    requires s == FirstDispatched(d) && InRange(s) && OwnersInRange(s) && WantsInRange(s, 0)
    ensures AcquireFrom(policy, s, 0) == (FirstServed(d, if Ceils(policy) then MAX_PRIO else 1), true)
  {
    var s1 := Grant(policy, s, 0);
    GrantInRange(policy, s, 0);
    assert s1.procs[0].want == [Entry(1, 0, 3, 3)] && s1.procs[0].held == [Entry(0, 0, d, d)];
    var s2 := Grant(policy, s1, 0);
    GrantInRange(policy, s1, 0);
    assert s2.procs[0].want == [] && s2.procs[0].held == [Entry(0, 0, d, d), Entry(1, 0, 3, 3)];
    assert s2 == FirstServed(d, if Ceils(policy) then MAX_PRIO else 1);
    assert AcquireFrom(policy, s2, 0) == (s2, true);
    assert AcquireFrom(policy, s1, 0) == AcquireFrom(policy, s2, 0);
    assert AcquireFrom(policy, s, 0) == AcquireFrom(policy, s1, 0);
  }

  lemma FirstInRange(d: nat, prio: nat)
    ensures InRange(FirstDispatched(d)) && OwnersInRange(FirstDispatched(d)) && WantsInRange(FirstDispatched(d), 0)
    ensures InRange(FirstServed(d, prio)) && InRange(Age(FirstServed(d, prio))) && HeldInRange(Age(FirstServed(d, prio)), 0)
  {
  }

  lemma FirstTurn(policy: Policy, s: State, d: nat, s': State)
    requires policy != Fifo && Good(s) && s == Start(Pair(d))
    requires var a := FirstServed(d, if Ceils(policy) then MAX_PRIO else 1);
             InRange(Age(a)) && HeldInRange(Age(a), 0) && NextTick(ReleaseFrom(policy, Age(a), 0)) == s'
    ensures Turn(policy, s, s')
  {
    var a := FirstServed(d, if Ceils(policy) then MAX_PRIO else 1);
    FirstDispatch(policy, s, d);
    FirstInRange(d, a.procs[0].prio);
    FirstAcquire(policy, FirstDispatched(d), d);
    TurnServes(policy, s, FirstDispatched(d), a, ReleaseFrom(policy, Age(a), 0));
  }

  /* ---------- The second turn: the high-priority process blocks ---------- */

  // The low-priority process, at its original priority, holds resource 1 at least.
  function Second(held: seq<Entry>, owner: seq<Option<nat>>): State {
    State([Low(1, 1, Running, Detached, [], held), High(Ready, InFork)], Some(0), [], [1], owner, NoWaiters(), 1)
  }

  function SecondDispatched(held: seq<Entry>, owner: seq<Option<nat>>): State {
    State([Low(1, 1, Ready, InReady, [], held), High(Running, Detached)], Some(1), [0], [], owner, NoWaiters(), 1)
  }

  function Blocked(prio: nat, held: seq<Entry>, owner: seq<Option<nat>>): State {
    State([Low(1, prio, Ready, InReady, [], held), High(Waiting, InWait(1))],
          Some(1), [0], [], owner, NoWaiters()[1 := [1]], 2)
  }

  lemma SecondDispatch(policy: Policy, s: State, held: seq<Entry>, owner: seq<Option<nat>>)
    requires policy != Fifo && InRange(s) && s == Second(held, owner)
    ensures InRange(ForkFrom(s, 0)) && Dispatch(policy, ForkFrom(s, 0)) == SecondDispatched(held, owner)
  {
    var s1 := ForkAt(s, 0);
    assert s1.forkq == [] && s1.ready == [1];
    assert ForkFrom(s1, 0) == s1;
    assert ForkFrom(s, 0) == ForkFrom(s1, 0);
    SecondPick(policy, s1, held, owner);
  }

  lemma SecondPick(policy: Policy, s: State, held: seq<Entry>, owner: seq<Option<nat>>)
    requires policy != Fifo && InRange(s)
    requires s == Second(held, owner).(ready := [1], forkq := [], procs := [Low(1, 1, Running, Detached, [], held), High(Ready, InReady)])
    ensures Dispatch(policy, s) == SecondDispatched(held, owner)
  {
    LeaveInRange(s);
    SecondPicked(Leave(s), held, owner);
  }

  lemma SecondPicked(s: State, held: seq<Entry>, owner: seq<Option<nat>>)
    requires InRange(s)
    requires s == SecondDispatched(held, owner).(current := None, ready := [1, 0],
                                                 procs := [Low(1, 1, Ready, InReady, [], held), High(Ready, InReady)])
    ensures Pick(s, Top(s.procs, s.ready)) == SecondDispatched(held, owner)
  {
    assert s.procs[s.ready[0]].prio > s.procs[s.ready[1]].prio;
    assert Remove(s.ready, 0) == [0];
  }

  lemma SecondAcquire(policy: Policy, s: State, held: seq<Entry>, owner: seq<Option<nat>>)
    requires s == SecondDispatched(held, owner) && InRange(s) && OwnersInRange(s) && WantsInRange(s, 1) && owner[1] == Some(0)
    ensures AcquireFrom(policy, s, 0).1 == false
    ensures NextTick(AcquireFrom(policy, s, 0).0) == Blocked(if Inherits(policy) then 5 else 1, held, owner)
  {
    assert Block(policy, s, 1).waitq[1] == [1];
    assert AcquireFrom(policy, s, 0) == (Block(policy, s, 1), false);
  }

  lemma SecondTurn(policy: Policy, s: State, held: seq<Entry>, owner: seq<Option<nat>>)
    requires policy != Fifo && Good(s) && s == Second(held, owner) && owner[1] == Some(0)
    ensures Turn(policy, s, Blocked(if Inherits(policy) then 5 else 1, held, owner))
  {
    var d := SecondDispatched(held, owner);
    SecondDispatch(policy, s, held, owner);
    DispatchedInv(policy, s);
    RunsInRange(d);
    SecondAcquire(policy, d, held, owner);
    TurnBlocks(policy, s, d, AcquireFrom(policy, d, 0).0);
  }

  lemma PairIsScript(d: nat)
    requires 1 <= d <= 4
    ensures Script(Pair(d)) && Good(Start(Pair(d)))
  {
    StartInv(Pair(d));
  }

  lemma RunOfTwo(policy: Policy, procs: seq<Proc>, s0: State, s1: State, s2: State) returns (ss: seq<State>)
    requires s0 == Start(procs) && Turn(policy, s0, s1) && Turn(policy, s1, s2)
    ensures Run(policy, procs, ss) && |ss| == 3 && ss[2] == s2
  {
    RunGrows(policy, procs, [s0], s1);
    RunGrows(policy, procs, [s0] + [s1], s2);
    ss := [s0] + [s1] + [s2];
  }

  lemma RunOfThree(policy: Policy, procs: seq<Proc>, s0: State, s1: State, s2: State, s3: State) returns (ss: seq<State>)
    requires s0 == Start(procs) && Turn(policy, s0, s1) && Turn(policy, s1, s2) && Turn(policy, s2, s3)
    ensures Run(policy, procs, ss) && |ss| == 4 && ss[3] == s3
  {
    ss := RunOfTwo(policy, procs, s0, s1, s2);
    RunGrows(policy, procs, ss, s3);
    ss := ss + [s3];
  }

  /* ---------- Under the ceiling: a release lets a process block ---------- */

  function OneOwned(): seq<Option<nat>> { NoOwners()[0 := Some(0)][1 := Some(0)][0 := None] }

  // Resource 0 is used for one tick; its release takes the ceiling off the owner of resource 1.
  lemma CeilingReset(s: State)
    requires s == Age(FirstServed(1, MAX_PRIO)) && InRange(s) && HeldInRange(s, 0)
    ensures NextTick(ReleaseFrom(Pcp, s, 0)) == Second([Entry(1, 0, 3, 2)], OneOwned())
  {
    var s1 := CountDown(s, 0);
    assert s1.procs[0].held == [Entry(0, 0, 1, 0), Entry(1, 0, 3, 3)];
    ReleaseInRange(Pcp, s1, 0);
    var s2 := Release(Pcp, s1, 0);
    assert s2.procs[0].held == [Entry(1, 0, 3, 3)];
    assert ReleaseFrom(Pcp, s, 0) == ReleaseFrom(Pcp, s2, 0);
    var s3 := CountDown(s2, 0);
    assert s3.procs[0].held == [Entry(1, 0, 3, 2)];
    assert ReleaseFrom(Pcp, s3, 1) == s3;
    assert ReleaseFrom(Pcp, s2, 0) == ReleaseFrom(Pcp, s3, 1);
  }

  lemma CeilingTurns()
    ensures Turn(Pcp, Start(Pair(1)), Second([Entry(1, 0, 3, 2)], OneOwned()))
    ensures Turn(Pcp, Second([Entry(1, 0, 3, 2)], OneOwned()), Blocked(1, [Entry(1, 0, 3, 2)], OneOwned()))
  {
    var s, s1 := Start(Pair(1)), Second([Entry(1, 0, 3, 2)], OneOwned());
    PairIsScript(1);
    FirstInRange(1, MAX_PRIO);
    CeilingReset(Age(FirstServed(1, MAX_PRIO)));
    FirstTurn(Pcp, s, 1, s1);
    TurnGood(Pcp, s, s1);
    SecondTurn(Pcp, s1, [Entry(1, 0, 3, 2)], OneOwned());
  }

  lemma CeilingRun() returns (ss: seq<State>)
    ensures Run(Pcp, Pair(1), ss) && |ss| == 3 && ss[2] == Blocked(1, [Entry(1, 0, 3, 2)], OneOwned())
  {
    var s0, s1, s2 := Start(Pair(1)), Second([Entry(1, 0, 3, 2)], OneOwned()), Blocked(1, [Entry(1, 0, 3, 2)], OneOwned());
    CeilingTurns();
    ss := RunOfTwo(Pcp, Pair(1), s0, s1, s2);
  }

  // The high-priority process, below the ceiling like the low one, blocks in the second turn.
  lemma CeilingBlocks() returns (ss: seq<State>)
    ensures Script(Pair(1)) && forall p :: 0 <= p < |Pair(1)| ==> Pair(1)[p].prioOrig < MAX_PRIO
    ensures Run(Pcp, Pair(1), ss) && |ss| == 3
    ensures |ss[2].waitq| == NR_RESOURCES && ss[2].waitq[1] == [1]
  {
    PairIsScript(1);
    ss := CeilingRun();
  }

  /* ---------- Under inheritance: a release loses what is inherited ---------- */

  function BothOwned(): seq<Option<nat>> { NoOwners()[0 := Some(0)][1 := Some(0)] }

  function BothHeld(): seq<Entry> { [Entry(0, 0, 2, 1), Entry(1, 0, 3, 2)] }

  lemma BothKept(s: State)
    requires s == Age(FirstServed(2, 1)) && InRange(s) && HeldInRange(s, 0)
    ensures NextTick(ReleaseFrom(Pip, s, 0)) == Second(BothHeld(), BothOwned())
  {
    var s1 := CountDown(s, 0);
    assert s1.procs[0].held == [Entry(0, 0, 2, 1), Entry(1, 0, 3, 3)];
    var s2 := CountDown(s1, 1);
    assert s2.procs[0].held == BothHeld();
    assert ReleaseFrom(Pip, s2, 2) == s2;
    assert ReleaseFrom(Pip, s1, 1) == ReleaseFrom(Pip, s2, 2);
    assert ReleaseFrom(Pip, s, 0) == ReleaseFrom(Pip, s1, 1);
  }

  // The low-priority process, raised to 5, runs again and its use of resource 0 ends.
  function Raised(): State {
    State([Low(1, 5, Running, Detached, [], BothHeld()), High(Waiting, InWait(1))], Some(0), [], [], BothOwned(), NoWaiters()[1 := [1]], 2)
  }

  function Lost(): State {
    State([Low(2, 1, Running, Detached, [], [Entry(1, 0, 3, 1)]), High(Waiting, InWait(1))],
          Some(0), [], [], BothOwned()[0 := None], NoWaiters()[1 := [1]], 3)
  }

  lemma ThirdDispatch(s: State)
    requires InRange(s) && s == Blocked(5, BothHeld(), BothOwned())
    ensures InRange(ForkFrom(s, 0)) && Dispatch(Pip, ForkFrom(s, 0)) == Raised()
  {
    assert ForkFrom(s, 0) == s;
    assert Leave(s).ready == [0] && Remove(Leave(s).ready, 0) == [];
  }

  lemma InheritanceReset(s: State)
    requires s == Age(Raised()) && InRange(s) && HeldInRange(s, 0)
    ensures NextTick(ReleaseFrom(Pip, s, 0)) == Lost()
  {
    var s1 := CountDown(s, 0);
    assert s1.procs[0].held == [Entry(0, 0, 2, 0), Entry(1, 0, 3, 2)];
    ReleaseInRange(Pip, s1, 0);
    var s2 := Release(Pip, s1, 0);
    assert s2.procs[0].held == [Entry(1, 0, 3, 2)];
    assert ReleaseFrom(Pip, s, 0) == ReleaseFrom(Pip, s2, 0);
    var s3 := CountDown(s2, 0);
    assert s3.procs[0].held == [Entry(1, 0, 3, 1)];
    assert ReleaseFrom(Pip, s3, 1) == s3;
    assert ReleaseFrom(Pip, s2, 0) == ReleaseFrom(Pip, s3, 1);
  }

  lemma ThirdTurn(s: State)
    requires Good(s) && s == Blocked(5, BothHeld(), BothOwned())
    ensures Turn(Pip, s, Lost())
  {
    var d := Raised();
    ThirdDispatch(s);
    DispatchedInv(Pip, s);
    RunsInRange(d);
    assert AcquireFrom(Pip, d, 0) == (d, true);
    InheritanceReset(Age(d));
    TurnServes(Pip, s, d, d, ReleaseFrom(Pip, Age(d), 0));
  }

  lemma InheritanceTurns()
    ensures Turn(Pip, Start(Pair(2)), Second(BothHeld(), BothOwned()))
    ensures Turn(Pip, Second(BothHeld(), BothOwned()), Blocked(5, BothHeld(), BothOwned()))
    ensures Turn(Pip, Blocked(5, BothHeld(), BothOwned()), Lost())
  {
    var s, s1, s2 := Start(Pair(2)), Second(BothHeld(), BothOwned()), Blocked(5, BothHeld(), BothOwned());
    PairIsScript(2);
    FirstInRange(2, 1);
    BothKept(Age(FirstServed(2, 1)));
    FirstTurn(Pip, s, 2, s1);
    TurnGood(Pip, s, s1);
    SecondTurn(Pip, s1, BothHeld(), BothOwned());
    TurnGood(Pip, s1, s2);
    ThirdTurn(s2);
  }

  lemma InheritanceRun() returns (ss: seq<State>)
    ensures Run(Pip, Pair(2), ss) && |ss| == 4 && ss[3] == Lost()
  {
    InheritanceTurns();
    ss := RunOfThree(Pip, Pair(2), Start(Pair(2)), Second(BothHeld(), BothOwned()), Blocked(5, BothHeld(), BothOwned()), Lost());
  }

  // The owner of resource 1 is back at its original priority 1 while a process of priority 5
  // waits for that resource.
  lemma InheritanceLost() returns (ss: seq<State>)
    ensures Script(Pair(2)) && Run(Pip, Pair(2), ss) && |ss| == 4
    ensures var s := ss[3];
            && |s.owner| == |s.waitq| == NR_RESOURCES && s.owner[1] == Some(0) && s.waitq[1] == [1]
            && |s.procs| == 2 && s.procs[0].prio == 1 && s.procs[1].prio == 5
  {
    PairIsScript(2);
    ss := InheritanceRun();
  }
}
