/**
 Priority dispatch and rotation: a priority scheduler dispatches the earliest-queued process of
 highest effective priority, the running one counting as last, so processes of equal priority
 take turns.
 */
module SchedDispatch {
  import opened Collections
  import opened SchedModel
  import opened SchedSafety

  /* ---------- The process dispatched ---------- */

  // Who competes for the processor: the ready processes in order, then the running one.
  function Candidates(s: State): seq<nat>
    requires InRange(s)
  {
    s.ready + (if Stays(s) then [s.current.value] else [])
  }

  ghost predicate EarliestOfHighest(procs: seq<Proc>, q: seq<nat>, i: nat) {
    && i < |q| && (forall j :: 0 <= j < |q| ==> q[j] < |procs|)
    && (forall j :: 0 <= j < |q| ==> procs[q[j]].prio <= procs[q[i]].prio)
    && (forall j :: 0 <= j < i ==> procs[q[j]].prio < procs[q[i]].prio)
  }

  lemma LeaveCandidates(s: State)
    requires InRange(s)
    ensures Leave(s).ready == Candidates(s) && |Leave(s).procs| == |s.procs|
    ensures forall p :: 0 <= p < |s.procs| ==> Leave(s).procs[p].prio == s.procs[p].prio
  {
  }

  // A priority scheduler picks the earliest candidate of highest priority and leaves the others
  // queued in order; without candidates the processor idles.
  lemma DispatchesEarliestOfHighest(policy: Policy, s: State)
    requires InRange(s) && policy != Fifo
    ensures var s' := Dispatch(policy, s);
            if Candidates(s) == [] then s'.current == None && s'.ready == []
            else exists i: nat :: EarliestOfHighest(s.procs, Candidates(s), i)
                   && s'.current == Some(Candidates(s)[i]) && s'.ready == Remove(Candidates(s), i)
  {
    LeaveCandidates(s);
    LeaveInRange(s);
    var s1 := Leave(s);
    if s1.ready != [] { assert EarliestOfHighest(s.procs, Candidates(s), Selected(policy, s)); }
  }

  // The running process gives way when a ready one has at least its priority.
  lemma RunningGivesWay(policy: Policy, s: State, j: nat)
    requires Inv(s) && InRange(s) && policy != Fifo && Stays(s)
    requires j < |s.ready| && s.procs[s.ready[j]].prio >= s.procs[s.current.value].prio
    ensures Dispatch(policy, s).current.Some? && Dispatch(policy, s).current != s.current
  {
    DispatchesEarliestOfHighest(policy, s);
    var q := Candidates(s);
    assert q[j] == s.ready[j] && q[|q| - 1] == s.current.value;
    assert s.ready[j] in s.ready;
    var i: nat :| EarliestOfHighest(s.procs, q, i) && Dispatch(policy, s).current == Some(q[i]);
    if i < |s.ready| {
      assert s.ready[i] in s.ready;
      assert PlaceOk(s.procs[s.current.value]);
    }
  }

  // FIFO goes on with the running process while it has something left to run, and otherwise
  // takes the first ready one.
  lemma FifoKeepsRunning(s: State)
    requires InRange(s)
    ensures var s' := Dispatch(Fifo, s);
            if Stays(s) then s'.current == s.current && s'.ready == s.ready
            else if s.ready == [] then s'.current == None && s'.ready == []
            else s'.current == Some(s.ready[0]) && s'.ready == s.ready[1..]
  {
    LeaveCandidates(s);
    LeaveInRange(s);
    if Stays(s) { assert Remove(Candidates(s), |s.ready|) == s.ready; }
  }

  /* ---------- What a turn does to the ready queue ---------- */

  lemma {:induction false} ForkFromExtends(s: State, k: nat)
    requires InRange(s) && k <= |s.forkq|
    ensures InRange(ForkFrom(s, k)) && s.ready <= ForkFrom(s, k).ready && |ForkFrom(s, k).procs| == |s.procs|
    ensures forall p :: 0 <= p < |s.procs| ==> ForkFrom(s, k).procs[p].prio == s.procs[p].prio
    decreases |s.forkq| - k
  {
    if k < |s.forkq| {
      if s.procs[s.forkq[k]].startsAt <= s.ticks { ForkFromExtends(ForkAt(s, k), k); } else { ForkFromExtends(s, k + 1); }
    }
  }

  lemma {:induction false} AcquireFromKeepsReady(policy: Policy, s: State, k: nat)
    requires InRange(s) && OwnersInRange(s) && s.current.Some? && WantsInRange(s, s.current.value)
    requires k <= |s.procs[s.current.value].want|
    ensures AcquireFrom(policy, s, k).0.ready == s.ready
    decreases |s.procs[s.current.value].want| - k
  {
    var p := s.procs[s.current.value];
    if k == |p.want| {
    } else if p.want[k].at != p.age {
      AcquireFromKeepsReady(policy, s, k + 1);
    } else if s.owner[p.want[k].id].None? {
      GrantInRange(policy, s, k);
      AcquireFromKeepsReady(policy, Grant(policy, s, k), k);
    }
  }

  lemma {:induction false} ReleaseFromExtends(policy: Policy, s: State, k: nat)
    requires InRange(s) && s.current.Some? && HeldInRange(s, s.current.value)
    requires k <= |s.procs[s.current.value].held|
    ensures s.ready <= ReleaseFrom(policy, s, k).ready
    decreases |s.procs[s.current.value].held| - k
  {
    var c := s.current.value;
    if k < |s.procs[c].held| {
      var s1 := CountDown(s, k);
      if s1.procs[c].held[k].left == 0 {
        ReleaseInRange(policy, s1, k);
        ReleaseFromExtends(policy, Release(policy, s1, k), k);
        assert ReleaseFrom(policy, s, k) == ReleaseFrom(policy, Release(policy, s1, k), k);
      } else {
        ReleaseFromExtends(policy, s1, k + 1);
        assert ReleaseFrom(policy, s, k) == ReleaseFrom(policy, s1, k + 1);
      }
    }
  }

  lemma ServeExtends(policy: Policy, s: State)
    requires Runs(s)
    ensures s.ready <= Serve(policy, s).ready
  {
    RunsInRange(s);
    AcquireFromKeepsReady(policy, s, 0);
    AcquiredInv(policy, s);
    var (s1, ok) := Acquired(policy, s);
    if ok {
      AgeInv(s1);
      InvInRange(Age(s1), 0);
      ReleaseFromExtends(policy, Age(s1), 0);
    }
  }

  /* ---------- Rotation ---------- */

  // Who competes in this turn, once the processes due have been forked.
  ghost function Competitors(s: State): seq<nat>
    requires Good(s)
  {
    ForkFromExtends(s, 0);
    Candidates(ForkFrom(s, 0))
  }

  // Nobody who competes in this turn has a higher priority than `level`.
  ghost predicate NoneHigher(s: State, level: nat)
    requires Good(s)
  {
    forall j :: 0 <= j < |Competitors(s)| && Competitors(s)[j] < |s.procs| ==> s.procs[Competitors(s)[j]].prio <= level
  }

  // Ready processes at `level` among the first n of the queue.
  function Ahead(procs: seq<Proc>, q: seq<nat>, n: nat, level: nat): nat
    requires n <= |q|
  {
    if n == 0 then 0
    else Ahead(procs, q, n - 1, level) + if q[n - 1] < |procs| && procs[q[n - 1]].prio == level then 1 else 0
  }

  lemma {:induction false} AheadSame(procs: seq<Proc>, q: seq<nat>, procs': seq<Proc>, q': seq<nat>, n: nat, level: nat)
    requires n <= |q| && n <= |q'| && |procs| == |procs'|
    requires forall j :: 0 <= j < n ==> q'[j] == q[j] && (q[j] < |procs| ==> procs'[q[j]].prio == procs[q[j]].prio)
    ensures Ahead(procs', q', n, level) == Ahead(procs, q, n, level)
  {
    if n > 0 { AheadSame(procs, q, procs', q', n - 1, level); }
  }

  // Taking one process of the level out from among the first n leaves one fewer.
  lemma {:induction false} AheadRemoved(procs: seq<Proc>, q: seq<nat>, procs': seq<Proc>, q': seq<nat>, i: nat, n: nat, level: nat)
    requires i < n <= |q| && n - 1 <= |q'| && |procs'| == |procs| && q[i] < |procs| && procs[q[i]].prio == level
    requires forall j :: 0 <= j < n - 1 ==> q'[j] == q[if j < i then j else j + 1]
    requires forall j :: 0 <= j < n - 1 && q'[j] < |procs| ==> procs'[q'[j]].prio == procs[q'[j]].prio
    ensures Ahead(procs', q', n - 1, level) == Ahead(procs, q, n, level) - 1
  {
    if n == i + 1 {
      AheadSame(procs, q, procs', q', i, level);
    } else {
      assert q'[n - 2] == q[n - 1];
      AheadRemoved(procs, q, procs', q', i, n - 1, level);
    }
  }

  // Whoever is dispatched, the rest of the ready queue is only added to in the turn.
  lemma TurnExtends(policy: Policy, s: State)
    requires Good(s) && Dispatched(policy, s).current.Some?
    ensures Dispatched(policy, s).ready <= Tick(policy, s).0.ready
  {
    DispatchedInv(policy, s);
    ServeExtends(policy, Dispatched(policy, s));
  }

  lemma EarliestAtLevel(procs: seq<Proc>, q: seq<nat>, i: nat, pos: nat, level: nat)
    requires EarliestOfHighest(procs, q, i) && pos < |q| && q[pos] < |procs| && procs[q[pos]].prio == level
    requires forall j :: 0 <= j < |q| ==> q[j] < |procs| && procs[q[j]].prio <= level
    ensures i <= pos && procs[q[i]].prio == level
  {
  }

  lemma DispatchTakes(policy: Policy, s: State, pos: nat, level: nat) returns (i: nat)
    requires InRange(s) && policy != Fifo && pos < |s.ready| && s.procs[s.ready[pos]].prio == level
    requires forall j :: 0 <= j < |Candidates(s)| ==> Candidates(s)[j] < |s.procs| && s.procs[Candidates(s)[j]].prio <= level
    ensures i <= pos && s.procs[s.ready[i]].prio == level
    ensures var s' := Dispatch(policy, s);
            && s'.current == Some(s.ready[i]) && pos <= |s'.ready|
            && forall j :: 0 <= j < pos ==> s'.ready[j] == s.ready[if j < i then j else j + 1]
  {
    var q := Candidates(s);
    i := EarliestDispatched(policy, s);
    EarliestAtLevel(s.procs, q, i, pos, level);
    RemoveFromPrefix(s.ready, q, i, pos);
  }

  lemma EarliestDispatched(policy: Policy, s: State) returns (i: nat)
    requires InRange(s) && policy != Fifo && Candidates(s) != []
    ensures EarliestOfHighest(s.procs, Candidates(s), i)
    ensures Dispatch(policy, s).current == Some(Candidates(s)[i]) && Dispatch(policy, s).ready == Remove(Candidates(s), i)
  {
    DispatchesEarliestOfHighest(policy, s);
    i :| EarliestOfHighest(s.procs, Candidates(s), i)
         && Dispatch(policy, s).current == Some(Candidates(s)[i]) && Dispatch(policy, s).ready == Remove(Candidates(s), i);
  }

  lemma RemoveFromPrefix(ready: seq<nat>, q: seq<nat>, i: nat, pos: nat)
    requires ready <= q && i <= pos < |ready|
    ensures q[i] == ready[i] && pos <= |Remove(q, i)|
    ensures forall j :: 0 <= j < pos ==> Remove(q, i)[j] == ready[if j < i then j else j + 1]
  {
  }

  // With nobody higher, the turn dispatches the process at position `pos` or one of the same
  // level before it.
  lemma TurnTakes(policy: Policy, s: State, pos: nat, level: nat) returns (i: nat)
    requires Good(s) && policy != Fifo && pos < |s.ready| && s.procs[s.ready[pos]].prio == level && NoneHigher(s, level)
    ensures i <= pos && s.procs[s.ready[i]].prio == level
    ensures Dispatched(policy, s).current == Some(s.ready[i])
    ensures pos <= |Dispatched(policy, s).ready|
    ensures forall j :: 0 <= j < pos ==> Dispatched(policy, s).ready[j] == s.ready[if j < i then j else j + 1]
  {
    ForkFromExtends(s, 0);
    ForkedCandidates(s, level);
    var s0 := ForkFrom(s, 0);
    i := DispatchTakes(policy, s0, pos, level);
    assert forall j :: 0 <= j <= pos ==> s0.ready[j] == s.ready[j];
  }

  lemma ForkedCandidates(s: State, level: nat)
    requires Good(s) && NoneHigher(s, level)
    ensures InRange(ForkFrom(s, 0))
    ensures var s0 := ForkFrom(s, 0);
            forall j :: 0 <= j < |Candidates(s0)| ==> Candidates(s0)[j] < |s0.procs| && s0.procs[Candidates(s0)[j]].prio <= level
  {
    ForkFromExtends(s, 0);
    assert Competitors(s) == Candidates(ForkFrom(s, 0));
  }

  // The processes ready before and after a turn keep their effective priorities.
  ghost predicate Steady(s: State, s': State) {
    && |s'.procs| == |s.procs|
    && forall p: nat {:trigger p in s.ready} ::
         p in s.ready && p in s'.ready && p < |s.procs| ==> s'.procs[p].prio == s.procs[p].prio
  }

  // A ready process that is not dispatched moves up behind one fewer of its level.
  lemma TurnMovesUp(policy: Policy, s: State, s': State, pos: nat, level: nat)
    requires Turn(policy, s, s') && policy != Fifo && NoneHigher(s, level) && Steady(s, s')
    requires pos < |s.ready| && s.procs[s.ready[pos]].prio == level && Dispatched(policy, s).current != Some(s.ready[pos])
    ensures 0 < pos <= |s'.ready| && s'.ready[pos - 1] == s.ready[pos]
    ensures s'.procs[s.ready[pos]].prio == level && |s'.procs| == |s.procs|
    ensures Ahead(s'.procs, s'.ready, pos - 1, level) == Ahead(s.procs, s.ready, pos, level) - 1
  {
    var i := TurnTakes(policy, s, pos, level);
    TurnExtends(policy, s);
    MovedUp(s, s', i, pos, level);
  }

  lemma MovedUp(s: State, s': State, i: nat, pos: nat, level: nat)
    requires InRange(s) && Steady(s, s') && i < pos < |s.ready| && s.procs[s.ready[i]].prio == level
    requires pos <= |s'.ready| && forall j :: 0 <= j < pos ==> s'.ready[j] == s.ready[if j < i then j else j + 1]
    ensures s'.ready[pos - 1] == s.ready[pos] && s'.procs[s.ready[pos]].prio == s.procs[s.ready[pos]].prio
    ensures Ahead(s'.procs, s'.ready, pos - 1, level) == Ahead(s.procs, s.ready, pos, level) - 1
  {
    forall m: nat | m < pos ensures s'.ready[m] < |s.procs| && s'.procs[s'.ready[m]].prio == s.procs[s'.ready[m]].prio {
      assert s'.ready[m] == s.ready[if m < i then m else m + 1];
      assert s'.ready[m] in s.ready && s'.ready[m] in s'.ready;
    }
    assert s'.ready[pos - 1] == s.ready[pos];
    AheadRemoved(s.procs, s.ready, s'.procs, s'.ready, i, pos, level);
  }

  // In the turn from ss[m] nobody higher than `level` competes.
  ghost predicate CalmAt(ss: seq<State>, m: nat, level: nat) {
    m < |ss| && Good(ss[m]) && NoneHigher(ss[m], level)
  }

  // The turn from ss[m] leads to the next state and keeps effective priorities.
  ghost predicate SteadyTurn(policy: Policy, ss: seq<State>, m: nat) {
    m + 1 < |ss| && Turn(policy, ss[m], ss[m + 1]) && Steady(ss[m], ss[m + 1])
  }

  // The k + 1 turns from ss[i] on are calm and steady.
  ghost predicate Calm(policy: Policy, ss: seq<State>, i: nat, k: nat, level: nat) {
    && (forall m: nat {:trigger CalmAt(ss, m, level)} :: i <= m <= i + k ==> CalmAt(ss, m, level))
    && (forall m: nat {:trigger SteadyTurn(policy, ss, m)} :: i <= m < i + k ==> SteadyTurn(policy, ss, m))
  }

  // The process at position `pos` of the ready queue is of the level, behind k others of it.
  predicate Queued(s: State, pos: nat, k: nat, level: nat) {
    && pos < |s.ready| && s.ready[pos] < |s.procs| && s.procs[s.ready[pos]].prio == level
    && k == Ahead(s.procs, s.ready, pos, level)
  }

  ghost predicate Dispatches(policy: Policy, s: State, p: nat) {
    Good(s) && Dispatched(policy, s).current == Some(p)
  }

  // While nobody of a higher priority competes and effective priorities stay, a ready process
  // with k ready processes of its own priority before it is dispatched within k + 1 turns.
  lemma {:induction false} TakesItsTurn(policy: Policy, ss: seq<State>, i: nat, pos: nat, k: nat, level: nat, p: nat)
    requires policy != Fifo && Calm(policy, ss, i, k, level)
    requires i < |ss| && Queued(ss[i], pos, k, level) && ss[i].ready[pos] == p
    ensures exists j: nat :: i <= j <= i + k && j < |ss| && Dispatches(policy, ss[j], p)
    decreases k
  {
    if !Dispatches(policy, ss[i], p) {
      NotYet(policy, ss, i, pos, k, level);
      TakesItsTurn(policy, ss, i + 1, pos - 1, k - 1, level, p);
    }
  }

  lemma NotYet(policy: Policy, ss: seq<State>, i: nat, pos: nat, k: nat, level: nat)
    requires policy != Fifo && Calm(policy, ss, i, k, level) && i < |ss|
    requires Queued(ss[i], pos, k, level) && !Dispatches(policy, ss[i], ss[i].ready[pos])
    ensures 0 < pos && 0 < k && i + 1 < |ss| && Queued(ss[i + 1], pos - 1, k - 1, level)
    ensures ss[i + 1].ready[pos - 1] == ss[i].ready[pos]
  {
    var s := ss[i];
    assert CalmAt(ss, i, level);
    var r := TurnTakes(policy, s, pos, level);
    AheadPositive(s.procs, s.ready, r, pos, level);
    assert SteadyTurn(policy, ss, i);
    TurnMovesUp(policy, s, ss[i + 1], pos, level);
  }

  lemma {:induction false} AheadPositive(procs: seq<Proc>, q: seq<nat>, i: nat, n: nat, level: nat)
    requires i < n <= |q| && q[i] < |procs| && procs[q[i]].prio == level
    ensures Ahead(procs, q, n, level) >= 1
  {
    if i < n - 1 { AheadPositive(procs, q, i, n - 1, level); }
  }

  /* ---------- Plain priorities ---------- */

  predicate Plain(policy: Policy) { policy == Fifo || policy == Prio }

  predicate SamePrios(s: State, s': State) {
    |s'.procs| == |s.procs| && forall p :: 0 <= p < |s.procs| ==> s'.procs[p].prio == s.procs[p].prio
  }

  lemma DispatchSamePrios(policy: Policy, s: State)
    requires InRange(s)
    ensures SamePrios(s, Dispatch(policy, s))
  {
    LeaveInRange(s);
    LeaveCandidates(s);
  }

  lemma {:induction false} AcquireFromSamePrios(policy: Policy, s: State, k: nat)
    requires Plain(policy) && InRange(s) && OwnersInRange(s) && s.current.Some? && WantsInRange(s, s.current.value)
    requires k <= |s.procs[s.current.value].want|
    ensures SamePrios(s, AcquireFrom(policy, s, k).0)
    decreases |s.procs[s.current.value].want| - k
  {
    var p := s.procs[s.current.value];
    if k == |p.want| {
    } else if p.want[k].at != p.age {
      AcquireFromSamePrios(policy, s, k + 1);
    } else if s.owner[p.want[k].id].None? {
      GrantInRange(policy, s, k);
      assert SamePrios(s, Grant(policy, s, k));
      AcquireFromSamePrios(policy, Grant(policy, s, k), k);
    }
  }

  lemma ReleaseSamePrios(policy: Policy, s: State, k: nat)
    requires Plain(policy) && InRange(s) && s.current.Some? && k < |s.procs[s.current.value].held| && HeldInRange(s, s.current.value)
    ensures SamePrios(s, Release(policy, CountDown(s, k), k))
  {
    ReleaseInRange(policy, CountDown(s, k), k);
  }

  lemma {:induction false} ReleaseFromSamePrios(policy: Policy, s: State, k: nat)
    requires Plain(policy) && InRange(s) && s.current.Some? && HeldInRange(s, s.current.value)
    requires k <= |s.procs[s.current.value].held|
    ensures SamePrios(s, ReleaseFrom(policy, s, k))
    decreases |s.procs[s.current.value].held| - k
  {
    var c := s.current.value;
    if k < |s.procs[c].held| {
      var s1 := CountDown(s, k);
      if s1.procs[c].held[k].left == 0 {
        ReleaseInRange(policy, s1, k);
        ReleaseSamePrios(policy, s, k);
        ReleaseFromSamePrios(policy, Release(policy, s1, k), k);
        assert ReleaseFrom(policy, s, k) == ReleaseFrom(policy, Release(policy, s1, k), k);
      } else {
        ReleaseFromSamePrios(policy, s1, k + 1);
        assert ReleaseFrom(policy, s, k) == ReleaseFrom(policy, s1, k + 1);
      }
    }
  }

  lemma ServeSamePrios(policy: Policy, s: State)
    requires Plain(policy) && Runs(s)
    ensures SamePrios(s, Serve(policy, s))
  {
    RunsInRange(s);
    AcquireFromSamePrios(policy, s, 0);
    AcquiredInv(policy, s);
    var (s1, ok) := Acquired(policy, s);
    if ok {
      AgeInv(s1);
      InvInRange(Age(s1), 0);
      ReleaseFromSamePrios(policy, Age(s1), 0);
    }
  }

  // Without a protocol no turn changes any priority.
  lemma PlainKeepsPriorities(policy: Policy, s: State, s': State)
    requires Plain(policy) && Turn(policy, s, s')
    ensures SamePrios(s, s')
  {
    ForkFromInv(s, 0);
    ForkFromExtends(s, 0);
    DispatchSamePrios(policy, ForkFrom(s, 0));
    DispatchedInv(policy, s);
    var s1 := Dispatched(policy, s);
    if s1.current.Some? { ServeSamePrios(policy, s1); }
  }

  ghost predicate TurnAt(policy: Policy, ss: seq<State>, m: nat) {
    m + 1 < |ss| && Turn(policy, ss[m], ss[m + 1])
  }

  // Under plain priorities a process with k ready equals before it is dispatched within k + 1
  // turns, as long as nobody of a higher priority competes.
  lemma PlainTakesItsTurn(ss: seq<State>, i: nat, pos: nat, k: nat, level: nat)
    requires i < |ss| && Queued(ss[i], pos, k, level)
    requires forall m: nat {:trigger CalmAt(ss, m, level)} :: i <= m <= i + k ==> CalmAt(ss, m, level)
    requires forall m: nat {:trigger TurnAt(Prio, ss, m)} :: i <= m < i + k ==> TurnAt(Prio, ss, m)
    ensures exists j: nat :: i <= j <= i + k && j < |ss| && Dispatches(Prio, ss[j], ss[i].ready[pos])
  {
    forall m: nat | i <= m < i + k ensures SteadyTurn(Prio, ss, m) {
      assert TurnAt(Prio, ss, m);
      PlainKeepsPriorities(Prio, ss[m], ss[m + 1]);
    }
    TakesItsTurn(Prio, ss, i, pos, k, level, ss[i].ready[pos]);
  }
}
