/**
 Priority inheritance for arbitrary scripts: which of the steps that change owners, waiters or
 priorities leave every process at the priority the protocol asks for. Three of them can fail,
 each exactly under a condition on the state before it.
 */
module SchedExact {
  import opened Collections
  import opened SchedModel
  import opened SchedSafety
  import opened SchedPip

  /* ---------- The priority the protocol asks for ---------- */

  // Process w waits for a resource that p owns.
  predicate Waits(s: State, w: nat, p: nat) {
    && w < |s.procs| && s.procs[w].link.InWait?
    && s.procs[w].link.r < |s.owner| && s.owner[s.procs[w].link.r] == Some(p)
  }

  // That is, it is in the queue of one of p's resources.
  lemma WaitsInQueue(s: State, w: nat, p: nat)
    requires Inv(s)
    ensures Waits(s, w, p) <==> exists r :: 0 <= r < |s.waitq| == |s.owner| && s.owner[r] == Some(p) && w in s.waitq[r]
  {
    forall r | 0 <= r < |s.waitq| ensures w in s.waitq[r] <==> w < |s.procs| && s.procs[w].link == InWait(r) {
      assert ListIs(s.procs, s.waitq[r], InWait(r));
    }
  }

  // Process p runs at the maximum of its original priority and those of all who wait for it.
  ghost predicate Exact(s: State, p: nat)
    requires p < |s.procs|
  {
    && s.procs[p].prioOrig <= s.procs[p].prio
    && (forall w: nat {:trigger Waits(s, w, p)} :: Waits(s, w, p) ==> s.procs[w].prio <= s.procs[p].prio)
    && (s.procs[p].prio == s.procs[p].prioOrig || exists w: nat :: Waits(s, w, p) && s.procs[w].prio == s.procs[p].prio)
  }

  ghost predicate AllExact(s: State) {
    forall p: nat {:trigger Exact(s, p)} :: p < |s.procs| ==> Exact(s, p)
  }

  // Nobody who waits for resource r has a higher priority than x.
  ghost predicate NoneAbove(s: State, r: nat, x: nat) {
    forall w: nat :: w < |s.procs| && s.procs[w].link == InWait(r) ==> s.procs[w].prio <= x
  }

  /* ---------- The three steps ---------- */

  // The running process has taken resource r, which was free.
  ghost predicate Took(s: State, s': State, r: nat) {
    && s.current.Some? && s.current.value < |s.procs| == |s'.procs| && r < |s.owner|
    && s.owner[r].None? && s'.owner == s.owner[r := s.current]
    && (forall p :: 0 <= p < |s.procs| ==>
          s'.procs[p].prioOrig == s.procs[p].prioOrig && s'.procs[p].prio == s.procs[p].prio && s'.procs[p].link == s.procs[p].link)
  }

  lemma TookWaits(s: State, s': State, r: nat, w: nat, p: nat)
    requires Took(s, s', r)
    ensures Waits(s', w, p) <==> Waits(s, w, p) || (p == s.current.value && w < |s.procs| && s.procs[w].link == InWait(r))
  {
  }

  lemma TookExact(s: State, s': State, r: nat, p: nat)
    requires Took(s, s', r) && p < |s.procs| && Exact(s, p) && (p == s.current.value ==> NoneAbove(s, r, s.procs[p].prio))
    ensures Exact(s', p)
  {
    forall w: nat | Waits(s', w, p) ensures s'.procs[w].prio <= s'.procs[p].prio { TookWaits(s, s', r, w, p); }
    if s.procs[p].prio != s.procs[p].prioOrig {
      var w: nat :| Waits(s, w, p) && s.procs[w].prio == s.procs[p].prio;
      TookWaits(s, s', r, w, p);
    }
  }

  lemma TookExactIff(s: State, s': State, r: nat)
    requires Took(s, s', r) && AllExact(s)
    ensures AllExact(s') <==> NoneAbove(s, r, s.procs[s.current.value].prio)
  {
    var c := s.current.value;
    if NoneAbove(s, r, s.procs[c].prio) {
      forall p: nat | p < |s'.procs| ensures Exact(s', p) {
        assert Exact(s, p);
        TookExact(s, s', r, p);
      }
    } else {
      var w: nat :| w < |s.procs| && s.procs[w].link == InWait(r) && s.procs[w].prio > s.procs[c].prio;
      assert Waits(s', w, c) && !Exact(s', c);
    }
  }

  // Taking a free resource keeps all priorities exact if and only if no one who still waits for
  // it is above the taker.
  lemma GrantExactIff(s: State, k: nat)
    requires Runs(s) && AllExact(s) && k < |s.procs[s.current.value].want| && WantsInRange(s, s.current.value)
    requires s.owner[s.procs[s.current.value].want[k].id].None?
    ensures AllExact(Grant(Pip, s, k)) <==> NoneAbove(s, s.procs[s.current.value].want[k].id, s.procs[s.current.value].prio)
  {
    var r := s.procs[s.current.value].want[k].id;
    assert Took(s, Grant(Pip, s, k), r);
    TookExactIff(s, Grant(Pip, s, k), r);
  }

  // The running process has joined the waiters on resource r, whose owner o has inherited its
  // priority.
  ghost predicate Joined(s: State, s': State, r: nat, o: nat) {
    && s.current.Some? && s.current.value < |s.procs| == |s'.procs| && o < |s.procs| && r < |s.owner|
    && s.owner[r] == Some(o) && s'.owner == s.owner && !s.procs[s.current.value].link.InWait?
    && (forall p :: 0 <= p < |s.procs| ==>
          && s'.procs[p].prioOrig == s.procs[p].prioOrig
          && s'.procs[p].prio == (if p == o && s.procs[o].prio < s.procs[s.current.value].prio
                                  then s.procs[s.current.value].prio else s.procs[p].prio)
          && s'.procs[p].link == (if p == s.current.value then InWait(r) else s.procs[p].link))
  }

  // Whoever process o waits for is not below the running process.
  ghost predicate PassedOn(s: State, o: nat)
    requires s.current.Some? && s.current.value < |s.procs|
  {
    forall p: nat :: p < |s.procs| && p != o && Waits(s, o, p) ==> s.procs[s.current.value].prio <= s.procs[p].prio
  }

  lemma JoinedWaits(s: State, s': State, r: nat, o: nat, w: nat, p: nat)
    requires Joined(s, s', r, o)
    ensures Waits(s', w, p) <==> Waits(s, w, p) || (w == s.current.value && p == o)
  {
  }

  lemma JoinedOwner(s: State, s': State, r: nat, o: nat)
    requires Joined(s, s', r, o) && Exact(s, o)
    ensures Exact(s', o)
  {
    var c := s.current.value;
    JoinedWaits(s, s', r, o, c, o);
    forall w: nat | Waits(s', w, o) ensures s'.procs[w].prio <= s'.procs[o].prio { JoinedWaits(s, s', r, o, w, o); }
    if s'.procs[o].prio == s.procs[o].prio != s.procs[o].prioOrig {
      var w: nat :| Waits(s, w, o) && s.procs[w].prio == s.procs[o].prio;
      JoinedWaits(s, s', r, o, w, o);
    }
  }

  lemma JoinedOther(s: State, s': State, r: nat, o: nat, p: nat)
    requires Joined(s, s', r, o) && p < |s.procs| && p != o && Exact(s, p) && PassedOn(s, o)
    ensures Exact(s', p)
  {
    forall w: nat | Waits(s', w, p) ensures s'.procs[w].prio <= s'.procs[p].prio { JoinedWaits(s, s', r, o, w, p); }
    if s.procs[p].prio != s.procs[p].prioOrig {
      var w: nat :| Waits(s, w, p) && s.procs[w].prio == s.procs[p].prio;
      JoinedWaits(s, s', r, o, w, p);
    }
  }

  lemma JoinedExactIff(s: State, s': State, r: nat, o: nat)
    requires Joined(s, s', r, o) && AllExact(s)
    ensures AllExact(s') <==> PassedOn(s, o)
  {
    if PassedOn(s, o) {
      forall p: nat | p < |s'.procs| ensures Exact(s', p) {
        assert Exact(s, p);
        if p == o { JoinedOwner(s, s', r, o); } else { JoinedOther(s, s', r, o, p); }
      }
    } else {
      var p: nat :| p < |s.procs| && p != o && Waits(s, o, p) && s.procs[p].prio < s.procs[s.current.value].prio;
      JoinedWaits(s, s', r, o, o, p);
      assert !Exact(s', p);
    }
  }

  // Blocking on a resource keeps all priorities exact if and only if whoever its owner itself
  // waits for is not below the blocking process: inheritance is not passed on.
  lemma BlockExactIff(s: State, r: nat)
    requires Runs(s) && AllExact(s) && r < NR_RESOURCES && s.owner[r].Some? && s.owner[r].value < |s.procs|
    ensures AllExact(Block(Pip, s, r)) <==> PassedOn(s, s.owner[r].value)
  {
    assert Joined(s, Block(Pip, s, r), r, s.owner[r].value);
    JoinedExactIff(s, Block(Pip, s, r), r, s.owner[r].value);
  }

  // Who waits for something else the running process owns is not above its original priority.
  ghost predicate OnlyThrough(s: State, r: nat)
    requires s.current.Some? && s.current.value < |s.procs|
  {
    forall w: nat :: Waits(s, w, s.current.value) && s.procs[w].link != InWait(r) ==> s.procs[w].prio <= s.procs[s.current.value].prioOrig
  }

  // The running process has given resource r up, fell back to its original priority, and one
  // waiter on r may have been woken.
  ghost predicate GaveUp(s: State, s': State, r: nat) {
    && s.current.Some? && s.current.value < |s.procs| == |s'.procs| && r < |s.owner|
    && s.owner[r] == s.current && s'.owner == s.owner[r := None]
    && !s.procs[s.current.value].link.InWait?
    && (forall p :: 0 <= p < |s.procs| ==>
          && s'.procs[p].prioOrig == s.procs[p].prioOrig
          && s'.procs[p].prio == (if p == s.current.value then s.procs[p].prioOrig else s.procs[p].prio)
          && (s'.procs[p].link == s.procs[p].link || (s.procs[p].link == InWait(r) && !s'.procs[p].link.InWait?)))
  }

  lemma GaveUpWaits(s: State, s': State, r: nat, w: nat, p: nat)
    requires GaveUp(s, s', r)
    ensures Waits(s', w, p) <==> Waits(s, w, p) && s.procs[w].link != InWait(r)
  {
  }

  lemma GaveUpOther(s: State, s': State, r: nat, p: nat)
    requires GaveUp(s, s', r) && p < |s.procs| && p != s.current.value && Exact(s, p)
    ensures Exact(s', p)
  {
    forall w: nat | Waits(s', w, p) ensures s'.procs[w].prio <= s'.procs[p].prio { GaveUpWaits(s, s', r, w, p); }
    if s.procs[p].prio != s.procs[p].prioOrig {
      var w: nat :| Waits(s, w, p) && s.procs[w].prio == s.procs[p].prio;
      GaveUpWaits(s, s', r, w, p);
    }
  }

  lemma GaveUpExactIff(s: State, s': State, r: nat)
    requires GaveUp(s, s', r) && AllExact(s)
    ensures AllExact(s') <==> OnlyThrough(s, r)
  {
    var c := s.current.value;
    forall p: nat | p < |s.procs| && p != c ensures Exact(s', p) {
      assert Exact(s, p);
      GaveUpOther(s, s', r, p);
    }
    forall w: nat ensures Waits(s', w, c) <==> Waits(s, w, c) && s.procs[w].link != InWait(r) { GaveUpWaits(s, s', r, w, c); }
    if OnlyThrough(s, r) {
      assert Exact(s', c);
    } else {
      var w: nat :| Waits(s, w, c) && s.procs[w].link != InWait(r) && s.procs[w].prio > s.procs[c].prioOrig;
      assert Waits(s', w, c) && !Exact(s', c);
    }
  }

  // Releasing a resource, at the end of its last tick, keeps all priorities exact if and only if
  // nobody who waits for another resource of the same owner is above its original priority: the
  // release resets to that.
  lemma ReleaseExactIff(s: State, k: nat)
    requires Releasing(s, k) && AllExact(s) && k < |s.procs[s.current.value].held| && HeldInRange(s, s.current.value)
    ensures AllExact(Release(Pip, CountDown(s, k), k)) <==> OnlyThrough(s, s.procs[s.current.value].held[k].id)
  {
    ReleaseGivesUp(s, k);
    GaveUpExactIff(s, Release(Pip, CountDown(s, k), k), s.procs[s.current.value].held[k].id);
  }

  lemma ReleaseGivesUp(s: State, k: nat)
    requires Releasing(s, k) && k < |s.procs[s.current.value].held| && HeldInRange(s, s.current.value)
    ensures GaveUp(s, Release(Pip, CountDown(s, k), k), s.procs[s.current.value].held[k].id)
  {
    var r := s.procs[s.current.value].held[k].id;
    assert ListIs(s.procs, s.waitq[r], InWait(r));
    DropGivesUp(s, k);
    WakenGivesUp(s, DropExpired(Pip, s, k), r);
  }

  lemma DropGivesUp(s: State, k: nat)
    requires Releasing(s, k) && k < |s.procs[s.current.value].held| && HeldInRange(s, s.current.value)
    ensures var d := DropExpired(Pip, s, k); GaveUp(s, d, s.procs[s.current.value].held[k].id) && InRange(d) && d.waitq == s.waitq
  {
  }

  lemma WakenGivesUp(s: State, d: State, r: nat)
    requires GaveUp(s, d, r) && InRange(d) && r < NR_RESOURCES && ListIs(s.procs, d.waitq[r], InWait(r))
    ensures GaveUp(s, Waken(Pip, d, r), r)
  {
    if d.waitq[r] != [] { assert d.waitq[r][Top(d.procs, d.waitq[r])] in d.waitq[r]; }
  }

  /* ---------- Every other step ---------- */

  // Owners, priorities and who waits for what are as before.
  ghost predicate SameWaits(s: State, s': State) {
    && |s'.procs| == |s.procs| && s'.owner == s.owner
    && forall p :: 0 <= p < |s.procs| ==>
         && s'.procs[p].prio == s.procs[p].prio && s'.procs[p].prioOrig == s.procs[p].prioOrig
         && (s'.procs[p].link == s.procs[p].link || (!s'.procs[p].link.InWait? && !s.procs[p].link.InWait?))
  }

  lemma SameWaitsExact(s: State, s': State)
    requires SameWaits(s, s') && AllExact(s)
    ensures AllExact(s')
  {
    forall p: nat | p < |s.procs| ensures Exact(s', p) {
      assert Exact(s, p);
      forall w: nat ensures Waits(s', w, p) <==> Waits(s, w, p) { }
      if s.procs[p].prio != s.procs[p].prioOrig {
        var w: nat :| Waits(s, w, p) && s.procs[w].prio == s.procs[p].prio;
        assert Waits(s', w, p);
      }
    }
  }

  lemma SameWaitsTransitive(s: State, s1: State, s2: State)
    requires SameWaits(s, s1) && SameWaits(s1, s2)
    ensures SameWaits(s, s2)
  {
  }

  lemma ForkAtWaits(s: State, k: nat)
    requires ListIs(s.procs, s.forkq, InFork) && InRange(s) && k < |s.forkq|
    ensures SameWaits(s, ForkAt(s, k))
  {
    assert s.forkq[k] in s.forkq;
  }

  lemma {:induction false} ForkFromWaits(s: State, k: nat)
    requires Inv(s) && InRange(s) && k <= |s.forkq|
    ensures SameWaits(s, ForkFrom(s, k))
    decreases |s.forkq| - k
  {
    if k < |s.forkq| {
      if s.procs[s.forkq[k]].startsAt <= s.ticks {
        var s1 := ForkAt(s, k);
        ForkAtWaits(s, k);
        ForkAtInv(s, k);
        ForkFromWaits(s1, k);
        SameWaitsTransitive(s, s1, ForkFrom(s1, k));
      } else {
        ForkFromWaits(s, k + 1);
      }
    }
  }

  lemma LeaveWaits(s: State)
    requires Inv(s) && InRange(s)
    ensures SameWaits(s, Leave(s))
  {
    if s.current.Some? { assert PlaceOk(s.procs[s.current.value]); }
  }

  lemma PickWaits(s: State, i: nat)
    requires ListIs(s.procs, s.ready, InReady) && InRange(s) && i < |s.ready|
    ensures SameWaits(s, Pick(s, i))
  {
    assert s.ready[i] in s.ready;
  }

  lemma DispatchedWaits(s: State)
    requires Good(s)
    ensures SameWaits(s, Dispatched(Pip, s))
  {
    ForkFromInv(s, 0);
    ForkFromWaits(s, 0);
    var s0 := ForkFrom(s, 0);
    DispatchWaits(s0);
    SameWaitsTransitive(s, s0, Dispatch(Pip, s0));
  }

  lemma DispatchWaits(s: State)
    requires Good(s)
    ensures SameWaits(s, Dispatch(Pip, s))
  {
    LeaveInRange(s);
    LeaveLists(s);
    LeaveWaits(s);
    if Leave(s).ready != [] {
      PickWaits(Leave(s), Selected(Pip, s));
      SameWaitsTransitive(s, Leave(s), Dispatch(Pip, s));
    }
  }

  lemma AgeWaits(s: State)
    requires InRange(s) && s.current.Some?
    ensures SameWaits(s, Age(s))
  {
  }

  lemma CountDownWaits(s: State, k: nat)
    requires InRange(s) && s.current.Some? && k < |s.procs[s.current.value].held|
    ensures SameWaits(s, CountDown(s, k))
  {
  }

  /* ---------- The moves of a run ---------- */

  // What the running process does to resources: it takes the one of its request at position k,
  // waits for resource r, or gives back the one of its held entry at position k.
  datatype Move = Take(k: nat) | Wait(r: nat) | GiveBack(k: nat)

  ghost predicate Possible(s: State, m: Move) {
    match m
    case Take(k) =>
      && Runs(s) && k < |s.procs[s.current.value].want| && WantsInRange(s, s.current.value)
      && s.owner[s.procs[s.current.value].want[k].id].None?
    case Wait(r) => Runs(s) && r < NR_RESOURCES && s.owner[r].Some? && s.owner[r].value < |s.procs|
    case GiveBack(k) => Releasing(s, k) && k < |s.procs[s.current.value].held| && HeldInRange(s, s.current.value)
  }

  ghost function Moved(s: State, m: Move): State
    requires Possible(s, m)
  {
    match m
    case Take(k) => Grant(Pip, s, k)
    case Wait(r) => Block(Pip, s, r)
    case GiveBack(k) => Release(Pip, CountDown(s, k), k)
  }

  // The conditions under which the three moves are right, read off the state they are made in.
  ghost predicate Harmless(s: State, m: Move)
    requires Possible(s, m)
  {
    var c := s.current.value;
    match m
    case Take(k) => NoneAbove(s, s.procs[c].want[k].id, s.procs[c].prio)
    case Wait(r) => PassedOn(s, s.owner[r].value)
    case GiveBack(k) => OnlyThrough(s, s.procs[c].held[k].id)
  }

  // A move made when all priorities are exact leaves them so if and only if it is harmless.
  lemma MoveExactIff(s: State, m: Move)
    requires Possible(s, m) && AllExact(s)
    ensures AllExact(Moved(s, m)) <==> Harmless(s, m)
  {
    match m
    case Take(k) => GrantExactIff(s, k);
    case Wait(r) => BlockExactIff(s, r);
    case GiveBack(k) => ReleaseExactIff(s, k);
  }

  // A move with the states before and after it.
  datatype Made = Made(before: State, move: Move, after: State)

  ghost predicate IsMove(m: Made) {
    Possible(m.before, m.move) && m.after == Moved(m.before, m.move)
  }

  // The moves ms lead from s to end, with steps between them that change no priority.
  ghost predicate Leads(s: State, ms: seq<Made>, end: State)
    decreases |ms|
  {
    if ms == [] then SameWaits(s, end)
    else SameWaits(s, ms[0].before) && IsMove(ms[0]) && Leads(ms[0].after, ms[1..], end)
  }

  ghost predicate ExactAfter(ms: seq<Made>) {
    forall i :: 0 <= i < |ms| ==> AllExact(ms[i].after)
  }

  ghost predicate AllHarmless(ms: seq<Made>) {
    forall i :: 0 <= i < |ms| ==> HarmlessMove(ms[i])
  }

  ghost predicate HarmlessMove(m: Made) {
    Possible(m.before, m.move) && Harmless(m.before, m.move)
  }

  lemma MadeExactIff(m: Made)
    requires IsMove(m) && AllExact(m.before)
    ensures AllExact(m.after) <==> HarmlessMove(m)
  {
    MoveExactIff(m.before, m.move);
  }

  lemma FirstAndRest(m: Made, rest: seq<Made>)
    ensures ExactAfter([m] + rest) <==> AllExact(m.after) && ExactAfter(rest)
    ensures AllHarmless([m] + rest) <==> HarmlessMove(m) && AllHarmless(rest)
  {
    var ms := [m] + rest;
    assert ms[0] == m && forall i :: 0 <= i < |rest| ==> ms[i + 1] == rest[i];
  }

  lemma {:induction false} LeadsExactIff(s: State, ms: seq<Made>, end: State)
    requires Leads(s, ms, end) && AllExact(s)
    ensures ExactAfter(ms) <==> AllHarmless(ms)
    ensures ExactAfter(ms) ==> AllExact(end)
    decreases |ms|
  {
    if ms == [] {
      SameWaitsExact(s, end);
    } else {
      FirstAndRest(ms[0], ms[1..]);
      assert ms == [ms[0]] + ms[1..];
      SameWaitsExact(s, ms[0].before);
      MadeExactIff(ms[0]);
      if AllExact(ms[0].after) { LeadsExactIff(ms[0].after, ms[1..], end); }
    }
  }

  lemma LeadsFrom(s: State, s1: State, ms: seq<Made>, end: State)
    requires SameWaits(s, s1) && Leads(s1, ms, end)
    ensures Leads(s, ms, end)
  {
    if ms == [] { SameWaitsTransitive(s, s1, end); } else { SameWaitsTransitive(s, s1, ms[0].before); }
  }

  lemma LeadsFirst(m: Made, ms: seq<Made>, end: State)
    requires IsMove(m) && Leads(m.after, ms, end)
    ensures Leads(m.before, [m] + ms, end)
  {
    assert ([m] + ms)[1..] == ms;
  }

  lemma FirstOfBoth(ms: seq<Made>, ms': seq<Made>)
    requires ms != []
    ensures ms + ms' == [ms[0]] + (ms[1..] + ms')
  {
  }

  lemma {:induction false} LeadsOn(s: State, ms: seq<Made>, s1: State, ms': seq<Made>, end: State)
    requires Leads(s, ms, s1) && Leads(s1, ms', end)
    ensures Leads(s, ms + ms', end)
    decreases |ms|
  {
    if ms == [] {
      LeadsFrom(s, s1, ms', end);
      assert ms + ms' == ms';
    } else {
      LeadsOn(ms[0].after, ms[1..], s1, ms', end);
      LeadsFirst(ms[0], ms[1..] + ms', end);
      LeadsFrom(s, ms[0].before, [ms[0]] + (ms[1..] + ms'), end);
      FirstOfBoth(ms, ms');
    }
  }

  lemma LeadsNowhere(s: State, end: State)
    requires SameWaits(s, end)
    ensures Leads(s, [], end)
  {
  }

  // The moves of the acquire loop from position k on.
  ghost function AcquireMoves(s: State, k: nat): seq<Made>
    requires Runs(s) && OwnersInRange(s) && WantsInRange(s, s.current.value)
    requires k <= |s.procs[s.current.value].want|
    requires forall j :: 0 <= j < k ==> s.procs[s.current.value].want[j].at != s.procs[s.current.value].age
    decreases |s.procs[s.current.value].want| - k
  {
    var p := s.procs[s.current.value];
    if k == |p.want| then []
    else if p.want[k].at != p.age then AcquireMoves(s, k + 1)
    else if s.owner[p.want[k].id].None? then
      AcquireStep(Pip, s, k);
      [Made(s, Take(k), Grant(Pip, s, k))] + AcquireMoves(Grant(Pip, s, k), k)
    else [Made(s, Wait(p.want[k].id), Block(Pip, s, p.want[k].id))]
  }

  lemma {:induction false} AcquireLeads(s: State, k: nat)
    requires Runs(s) && OwnersInRange(s) && WantsInRange(s, s.current.value)
    requires k <= |s.procs[s.current.value].want|
    requires forall j :: 0 <= j < k ==> s.procs[s.current.value].want[j].at != s.procs[s.current.value].age
    ensures Leads(s, AcquireMoves(s, k), AcquireFrom(Pip, s, k).0)
    decreases |s.procs[s.current.value].want| - k
  {
    var p := s.procs[s.current.value];
    if k == |p.want| {
    } else if p.want[k].at != p.age {
      AcquireLeads(s, k + 1);
    } else if s.owner[p.want[k].id].None? {
      AcquireStep(Pip, s, k);
      AcquireLeads(Grant(Pip, s, k), k);
      LeadsFirst(Made(s, Take(k), Grant(Pip, s, k)), AcquireMoves(Grant(Pip, s, k), k), AcquireFrom(Pip, s, k).0);
    } else {
      LeadsFirst(Made(s, Wait(p.want[k].id), Block(Pip, s, p.want[k].id)), [], Block(Pip, s, p.want[k].id));
    }
  }

  // The moves of the release loop from position k on.
  ghost function ReleaseMoves(s: State, k: nat): seq<Made>
    requires Releasing(s, k) && HeldInRange(s, s.current.value)
    decreases |s.procs[s.current.value].held| - k
  {
    if k == |s.procs[s.current.value].held| then []
    else
      ReleaseStep(Pip, s, k);
      if s.procs[s.current.value].held[k].left <= 1 then
        [Made(s, GiveBack(k), Release(Pip, CountDown(s, k), k))] + ReleaseMoves(Release(Pip, CountDown(s, k), k), k)
      else ReleaseMoves(CountDown(s, k), k + 1)
  }

  lemma GiveBackIsMove(s: State, k: nat)
    requires Releasing(s, k) && HeldInRange(s, s.current.value) && k < |s.procs[s.current.value].held|
    ensures IsMove(Made(s, GiveBack(k), Release(Pip, CountDown(s, k), k)))
  {
  }

  lemma GivenLeads(s: State, k: nat, s1: State, end: State)
    requires Releasing(s, k) && HeldInRange(s, s.current.value) && k < |s.procs[s.current.value].held|
    requires s.procs[s.current.value].held[k].left <= 1 && s1 == Release(Pip, CountDown(s, k), k)
    requires Releasing(s1, k) && HeldInRange(s1, s1.current.value) && Leads(s1, ReleaseMoves(s1, k), end)
    ensures Leads(s, ReleaseMoves(s, k), end)
  {
    GiveBackIsMove(s, k);
    LeadsFirst(Made(s, GiveBack(k), s1), ReleaseMoves(s1, k), end);
  }

  lemma CountedLeads(s: State, k: nat, s1: State, end: State)
    requires Releasing(s, k) && HeldInRange(s, s.current.value) && k < |s.procs[s.current.value].held|
    requires s.procs[s.current.value].held[k].left > 1 && s1 == CountDown(s, k)
    requires Releasing(s1, k + 1) && HeldInRange(s1, s1.current.value) && Leads(s1, ReleaseMoves(s1, k + 1), end)
    ensures Leads(s, ReleaseMoves(s, k), end)
  {
    CountDownWaits(s, k);
    LeadsFrom(s, s1, ReleaseMoves(s1, k + 1), end);
  }

  lemma {:induction false} ReleaseLeads(s: State, k: nat)
    requires Releasing(s, k) && HeldInRange(s, s.current.value)
    ensures Leads(s, ReleaseMoves(s, k), ReleaseFrom(Pip, s, k))
    decreases |s.procs[s.current.value].held| - k
  {
    if k < |s.procs[s.current.value].held| {
      var s1, k1 := ReleaseFromNext(Pip, s, k);
      ReleaseLeads(s1, k1);
      if k1 == k { GivenLeads(s, k, s1, ReleaseFrom(Pip, s1, k)); } else { CountedLeads(s, k, s1, ReleaseFrom(Pip, s1, k + 1)); }
    }
  }

  // The moves of the tick of a running process, and of a turn of the simulation loop.
  ghost function ServeMoves(s: State): seq<Made>
    requires Runs(s)
  {
    RunsInRange(s);
    AcquiredInv(Pip, s);
    var (s1, ok) := Acquired(Pip, s);
    if ok then
      AgeInv(s1);
      InvInRange(Age(s1), 0);
      AcquireMoves(s, 0) + ReleaseMoves(Age(s1), 0)
    else AcquireMoves(s, 0)
  }

  lemma ServeLeads(s: State)
    requires Runs(s)
    ensures Leads(s, ServeMoves(s), Serve(Pip, s))
  {
    RunsInRange(s);
    AcquiredInv(Pip, s);
    AcquireLeads(s, 0);
    var (s1, ok) := Acquired(Pip, s);
    if ok {
      AgeInv(s1);
      InvInRange(Age(s1), 0);
      AgeWaits(s1);
      ReleaseLeads(Age(s1), 0);
      LeadsFrom(s1, Age(s1), ReleaseMoves(Age(s1), 0), Aged(Pip, s1));
      LeadsOn(s, AcquireMoves(s, 0), s1, ReleaseMoves(Age(s1), 0), Aged(Pip, s1));
    }
  }

  ghost function TurnMoves(s: State): seq<Made>
    requires Good(s)
  {
    DispatchedInv(Pip, s);
    if Dispatched(Pip, s).current.Some? then ServeMoves(Dispatched(Pip, s)) else []
  }

  lemma LeadsFurther(s: State, ms: seq<Made>, s1: State, end: State)
    requires Leads(s, ms, s1) && SameWaits(s1, end)
    ensures Leads(s, ms, end)
  {
    LeadsNowhere(s1, end);
    LeadsOn(s, ms, s1, [], end);
    assert ms + [] == ms;
  }

  lemma TurnLeads(s: State)
    requires Good(s)
    ensures Leads(s, TurnMoves(s), Tick(Pip, s).0)
  {
    DispatchedInv(Pip, s);
    DispatchedWaits(s);
    var d := Dispatched(Pip, s);
    if d.current.Some? {
      ServeLeads(d);
      LeadsFrom(s, d, ServeMoves(d), Serve(Pip, d));
      LeadsFurther(s, ServeMoves(d), Serve(Pip, d), NextTick(Serve(Pip, d)));
    }
  }

  // Every priority is exact after each move of the turn; every move of the turn is harmless.
  ghost predicate ExactTurn(s: State) { Good(s) && ExactAfter(TurnMoves(s)) }

  ghost predicate HarmlessTurn(s: State) { Good(s) && AllHarmless(TurnMoves(s)) }

  lemma TurnExactIff(s: State)
    requires Good(s) && AllExact(s)
    ensures ExactTurn(s) <==> HarmlessTurn(s)
    ensures ExactTurn(s) ==> AllExact(Tick(Pip, s).0)
  {
    TurnLeads(s);
    LeadsExactIff(s, TurnMoves(s), Tick(Pip, s).0);
  }

  lemma StartExact(procs: seq<Proc>)
    requires Script(procs)
    ensures AllExact(Start(procs))
  {
    forall p: nat | p < |procs| ensures Exact(Start(procs), p) { }
  }

  lemma {:induction false} RunStaysExact(procs: seq<Proc>, ss: seq<State>, i: nat)
    requires Script(procs) && Run(Pip, procs, ss) && i < |ss|
    requires (forall j :: 0 <= j < i ==> ExactTurn(ss[j])) || (forall j :: 0 <= j < i ==> HarmlessTurn(ss[j]))
    ensures AllExact(ss[i])
  {
    if i == 0 {
      StartExact(procs);
    } else {
      RunStaysExact(procs, ss, i - 1);
      assert Turn(Pip, ss[i - 1], ss[i]);
      assert ExactTurn(ss[i - 1]) || HarmlessTurn(ss[i - 1]);
      TurnExactIff(ss[i - 1]);
    }
  }

  // In every run of every script under priority inheritance: all processes run at the priority
  // the protocol asks for, after every move of every turn, if and only if every move is harmless
  // in the state it is made in; and then they do so between the turns too.
  lemma RunExactIff(procs: seq<Proc>, ss: seq<State>)
    requires Script(procs) && Run(Pip, procs, ss)
    ensures (forall i :: 0 <= i < |ss| ==> ExactTurn(ss[i])) <==> (forall i :: 0 <= i < |ss| ==> HarmlessTurn(ss[i]))
    ensures (forall i :: 0 <= i < |ss| ==> HarmlessTurn(ss[i])) ==> forall i :: 0 <= i < |ss| ==> AllExact(ss[i])
  {
    if (forall i :: 0 <= i < |ss| ==> ExactTurn(ss[i])) || (forall i :: 0 <= i < |ss| ==> HarmlessTurn(ss[i])) {
      forall i: nat | i < |ss| ensures AllExact(ss[i]) && (ExactTurn(ss[i]) <==> HarmlessTurn(ss[i])) {
        RunGood(Pip, procs, ss, i);
        RunStaysExact(procs, ss, i);
        TurnExactIff(ss[i]);
      }
    }
  }

  /* ---------- Single-hold scripts ---------- */

  lemma SoleHolding(s: State, r: nat, p: nat)
    requires Good(s) && PipOk(s) && p < |s.procs| && r < NR_RESOURCES
    ensures s.owner[r] == Some(p) <==> s.procs[p].held != [] && s.procs[p].held[0].id == r
  {
    assert SingleHold(s.procs[p]) && HeldOk(s.procs[p], |s.procs[p].held|);
    if s.owner[r] == Some(p) { assert Holds(s.procs[p], r); }
    if s.procs[p].held != [] && s.procs[p].held[0].id == r { assert s.owner[s.procs[p].held[0].id] == Some(p); }
  }

  lemma SoleWaiters(s: State, p: nat, r: nat)
    requires Good(s) && PipOk(s) && p < |s.procs| && r < NR_RESOURCES && s.owner[r] == Some(p)
    ensures forall w: nat :: Waits(s, w, p) <==> w in s.waitq[r]
  {
    SoleHolding(s, r, p);
    forall w: nat ensures Waits(s, w, p) <==> w in s.waitq[r] {
      assert ListIs(s.procs, s.waitq[r], InWait(r));
      WaitsInQueue(s, w, p);
      if Waits(s, w, p) { SoleHolding(s, s.procs[w].link.r, p); }
    }
  }

  lemma PrioOkIsExact(s: State, p: nat)
    requires Good(s) && PipOk(s) && p < |s.procs|
    ensures Exact(s, p)
  {
    assert PrioOk(s, p);
    if s.procs[p].held == [] {
      forall w: nat ensures !Waits(s, w, p) {
        if Waits(s, w, p) { SoleHolding(s, s.procs[w].link.r, p); }
      }
    } else {
      var r := s.procs[p].held[0].id;
      SoleHolding(s, r, p);
      SoleWaiters(s, p, r);
      HighestIsMax(s.procs, s.waitq[r], s.procs[p].prioOrig);
      assert ListIs(s.procs, s.waitq[r], InWait(r));
    }
  }

  // While no process requests anything when it holds something, all priorities are exact between
  // the turns of every run.
  lemma SingleHoldRunsAreExact(procs: seq<Proc>, ss: seq<State>, i: nat)
    requires Script(procs) && (forall p :: 0 <= p < |procs| ==> SingleHold(procs[p]))
    requires Run(Pip, procs, ss) && i < |ss|
    ensures AllExact(ss[i])
  {
    RunPip(procs, ss, i);
    RunGood(Pip, procs, ss, i);
    forall p: nat | p < |ss[i].procs| ensures Exact(ss[i], p) { PrioOkIsExact(ss[i], p); }
  }
}
