/**
 Priority inheritance: while no process requests anything when it holds something, an owner's
 effective priority is always the highest among its own and its waiters', and every other
 process runs at its original priority.
 */
module SchedPip {
  import opened Collections
  import opened SchedModel
  import opened SchedSafety
  import opened SchedCompletion

  /* ---------- Single-hold scripts ---------- */

  predicate Apart(e: Entry, f: Entry) {
    e.at + e.duration <= f.at || f.at + f.duration <= e.at
  }

  // The process requests nothing while it holds something.
  ghost predicate SingleHold(p: Proc) {
    && |p.held| <= 1
    && (forall i, j :: 0 <= i < |p.held| && 0 <= j < |p.want| ==> p.held[i].at + p.held[i].duration <= p.want[j].at)
    && (forall i, j :: 0 <= i < |p.want| && 0 <= j < |p.want| && i != j ==> Apart(p.want[i], p.want[j]))
  }

  ghost predicate AllSingleHold(s: State) {
    forall p :: 0 <= p < |s.procs| ==> SingleHold(s.procs[p])
  }

  lemma SameUsesSingleHold(s: State, s': State)
    requires AllSingleHold(s) && SameUses(s, s')
    ensures AllSingleHold(s')
  {
    forall p | 0 <= p < |s'.procs| ensures SingleHold(s'.procs[p]) { assert SingleHold(s.procs[p]); }
  }

  lemma HolderRequestsLater(p: Proc, j: nat)
    requires HeldOk(p, |p.held|) && SingleHold(p) && p.held != [] && j < |p.want|
    ensures p.want[j].at > p.age
  {
    assert p.held[0].at + p.held[0].duration <= p.want[j].at;
  }

  lemma RequesterHoldsNothing(p: Proc, r: nat)
    requires HeldOk(p, |p.held|) && SingleHold(p) && Requests(p, r)
    ensures p.held == []
  {
    if p.held != [] { HolderRequestsLater(p, FirstDue(p.want, p.age)); }
  }

  lemma GrantSingleHold(policy: Policy, s: State, k: nat)
    requires Runs(s) && AllSingleHold(s) && k < |s.procs[s.current.value].want|
    requires k == FirstDue(s.procs[s.current.value].want, s.procs[s.current.value].age)
    requires s.procs[s.current.value].want[k].id < NR_RESOURCES
    ensures AllSingleHold(Grant(policy, s, k))
  {
    var c := s.current.value;
    var p, p' := s.procs[c], Grant(policy, s, k).procs[c];
    assert SingleHold(p) && WantOk(p) && HeldOk(p, |p.held|);
    RequesterHoldsNothing(p, p.want[k].id);
    forall i: nat, j: nat | i < |p'.want| && j < |p'.want| && i != j ensures Apart(p'.want[i], p'.want[j]) {
      RemovedAt(p.want, k, i);
      RemovedAt(p.want, k, j);
    }
    forall j: nat | j < |p'.want| ensures p'.held[0].at + p'.held[0].duration <= p'.want[j].at {
      RemovedAt(p.want, k, j);
      assert Apart(p.want[k], p.want[Back(k, j)]) && EntryOk(p.want[Back(k, j)], p.lifespan);
    }
    forall q | 0 <= q < |s.procs| ensures SingleHold(Grant(policy, s, k).procs[q]) { assert SingleHold(s.procs[q]); }
  }

  /* ---------- The invariant ---------- */

  // The highest priority among `base` and the processes of the queue.
  function Highest(procs: seq<Proc>, q: seq<nat>, base: nat): nat {
    if q == [] then base
    else
      var h := Highest(procs, q[..|q| - 1], base);
      var w := q[|q| - 1];
      if w < |procs| && procs[w].prio > h then procs[w].prio else h
  }

  // It is the maximum: a bound for all of them, and the priority of one of them.
  lemma {:induction false} HighestIsMax(procs: seq<Proc>, q: seq<nat>, base: nat)
    ensures Highest(procs, q, base) >= base
    ensures forall i :: 0 <= i < |q| && q[i] < |procs| ==> Highest(procs, q, base) >= procs[q[i]].prio
    ensures Highest(procs, q, base) == base || exists i :: 0 <= i < |q| && q[i] < |procs| && procs[q[i]].prio == Highest(procs, q, base)
  {
    if q != [] { HighestIsMax(procs, q[..|q| - 1], base); }
  }

  lemma {:induction false} HighestSame(procs: seq<Proc>, procs': seq<Proc>, q: seq<nat>, base: nat)
    requires |procs| == |procs'|
    requires forall i :: 0 <= i < |q| && q[i] < |procs| ==> procs'[q[i]].prio == procs[q[i]].prio
    ensures Highest(procs', q, base) == Highest(procs, q, base)
  {
    if q != [] { HighestSame(procs, procs', q[..|q| - 1], base); }
  }

  // The priority the protocol asks for.
  ghost predicate PrioOk(s: State, p: nat)
    requires p < |s.procs| && |s.waitq| == NR_RESOURCES
  {
    var pr := s.procs[p];
    if pr.held == [] then pr.prio == pr.prioOrig
    else pr.held[0].id < NR_RESOURCES && pr.prio == Highest(s.procs, s.waitq[pr.held[0].id], pr.prioOrig)
  }

  ghost predicate StrongClaim(s: State, r: nat)
    requires r < |s.waitq|
  {
    exists x: nat :: x < |s.procs| && Outranks(s, x, r)
  }

  // The active process x is about to take r and no waiter of r has a higher priority.
  ghost predicate Outranks(s: State, x: nat, r: nat)
    requires x < |s.procs| && r < |s.waitq|
  {
    && Active(s.procs[x]) && Requests(s.procs[x], r)
    && forall i :: 0 <= i < |s.waitq[r]| && s.waitq[r][i] < |s.procs| ==> s.procs[s.waitq[r][i]].prio <= s.procs[x].prio
  }

  ghost predicate PipOk(s: State) {
    && |s.waitq| == |s.owner| == NR_RESOURCES
    && AllSingleHold(s)
    && (forall p :: 0 <= p < |s.procs| ==> PrioOk(s, p))
    && (forall r :: 0 <= r < NR_RESOURCES && s.owner[r].None? && s.waitq[r] != [] ==> StrongClaim(s, r))
  }

  /* ---------- Steps that change no priority ---------- */

  // Wants, holds, queues, owners and priorities are as before, and the active stay active
  // unless they have nothing to request.
  ghost predicate Relinked(s: State, s': State) {
    && SameUses(s, s')
    && s'.owner == s.owner && s'.waitq == s.waitq
    && forall p :: 0 <= p < |s.procs| ==>
         && s'.procs[p].prio == s.procs[p].prio && s'.procs[p].prioOrig == s.procs[p].prioOrig
         && s'.procs[p].age == s.procs[p].age
         && (Active(s.procs[p]) && s.procs[p].want != [] ==> Active(s'.procs[p]))
  }

  lemma RelinkedPip(s: State, s': State)
    requires PipOk(s) && Relinked(s, s')
    ensures PipOk(s')
  {
    SameUsesSingleHold(s, s');
    forall p | 0 <= p < |s'.procs| ensures PrioOk(s', p) {
      assert PrioOk(s, p);
      if s.procs[p].held != [] { HighestSame(s.procs, s'.procs, s.waitq[s.procs[p].held[0].id], s.procs[p].prioOrig); }
    }
    forall r | 0 <= r < NR_RESOURCES && s'.owner[r].None? && s'.waitq[r] != [] ensures StrongClaim(s', r) {
      assert StrongClaim(s, r);
      var x: nat :| x < |s.procs| && Outranks(s, x, r);
      assert Outranks(s', x, r);
    }
  }

  lemma {:induction false} ForkFromRelinks(s: State, k: nat)
    requires InRange(s) && k <= |s.forkq|
    ensures Relinked(s, ForkFrom(s, k))
    decreases |s.forkq| - k
  {
    if k < |s.forkq| {
      if s.procs[s.forkq[k]].startsAt <= s.ticks {
        ForkFromRelinks(ForkAt(s, k), k);
      } else {
        ForkFromRelinks(s, k + 1);
      }
    }
  }

  lemma LeaveRelinks(s: State)
    requires Inv(s) && InRange(s)
    ensures Relinked(s, Leave(s))
  {
    if s.current.Some? {
      var p := s.procs[s.current.value];
      assert PlaceOk(p) && WantOk(p);
      if p.want != [] { WantedMeansUnfinished(p); }
    }
  }

  lemma PickRelinks(s: State, i: nat)
    requires InRange(s) && i < |s.ready|
    ensures Relinked(s, Pick(s, i))
  {
  }

  lemma DispatchedPip(policy: Policy, s: State)
    requires Inv(s) && InRange(s) && PipOk(s)
    ensures PipOk(Dispatched(policy, s))
  {
    ForkFromInv(s, 0);
    ForkFromRelinks(s, 0);
    var s0 := ForkFrom(s, 0);
    RelinkedPip(s, s0);
    LeaveInRange(s0);
    LeaveRelinks(s0);
    var s1 := Leave(s0);
    RelinkedPip(s0, s1);
    if s1.ready != [] {
      var i := Selected(policy, s0);
      PickRelinks(s1, i);
      RelinkedPip(s1, Pick(s1, i));
    }
  }

  /* ---------- The dispatched process is on top ---------- */

  ghost predicate OnTop(s: State) {
    s.current.Some? && s.current.value < |s.procs| &&
    forall i :: 0 <= i < |s.ready| && s.ready[i] < |s.procs| ==> s.procs[s.ready[i]].prio <= s.procs[s.current.value].prio
  }

  lemma PickTop(s: State)
    requires InRange(s) && s.ready != []
    ensures OnTop(Pick(s, Top(s.procs, s.ready)))
  {
    var i := Top(s.procs, s.ready);
    var s' := Pick(s, i);
    forall j | 0 <= j < |s'.ready| ensures s'.procs[s'.ready[j]].prio <= s'.procs[s'.current.value].prio {
      assert s'.ready[j] == s.ready[if j < i then j else j + 1];
    }
  }

  lemma DispatchedOnTop(policy: Policy, s: State)
    requires Inv(s) && InRange(s) && policy != Fifo && Dispatched(policy, s).current.Some?
    ensures OnTop(Dispatched(policy, s))
  {
    ForkFromInv(s, 0);
    LeaveInRange(ForkFrom(s, 0));
    PickTop(Leave(ForkFrom(s, 0)));
  }

  /* ---------- Acquiring ---------- */

  // When a freed resource still has waiters, whoever takes it outranks them.
  lemma TakerOutranksWaiters(s: State, r: nat, i: nat)
    requires Runs(s) && PipOk(s) && OnTop(s) && r < NR_RESOURCES && s.owner[r].None? && i < |s.waitq[r]|
    ensures s.waitq[r][i] < |s.procs| && s.procs[s.waitq[r][i]].prio <= s.procs[s.current.value].prio
  {
    assert StrongClaim(s, r);
    var x: nat :| x < |s.procs| && Outranks(s, x, r);
    assert ListIs(s.procs, s.ready, InReady);
    if s.procs[x].link.InReady? {
      assert x in s.ready;
    } else {
      assert s.current == Some(x);
    }
  }

  lemma GrantPrios(s: State, k: nat, p: nat)
    requires Runs(s) && PipOk(s) && OnTop(s) && k < |s.procs[s.current.value].want| && p < |s.procs|
    requires k == FirstDue(s.procs[s.current.value].want, s.procs[s.current.value].age)
    requires s.procs[s.current.value].want[k].id < NR_RESOURCES && s.owner[s.procs[s.current.value].want[k].id].None?
    ensures PrioOk(Grant(Pip, s, k), p)
  {
    var c := s.current.value;
    var s' := Grant(Pip, s, k);
    var pr := s.procs[p];
    assert PrioOk(s, p);
    if p == c {
      var r := pr.want[k].id;
      assert HeldOk(pr, |pr.held|) && SingleHold(pr);
      RequesterHoldsNothing(pr, r);
      HighestIsMax(s.procs, s.waitq[r], pr.prioOrig);
      forall i | 0 <= i < |s.waitq[r]| ensures s.waitq[r][i] < |s.procs| && s.procs[s.waitq[r][i]].prio <= pr.prio {
        TakerOutranksWaiters(s, r, i);
      }
      HighestSame(s.procs, s'.procs, s.waitq[r], pr.prioOrig);
    } else if pr.held != [] {
      HighestSame(s.procs, s'.procs, s.waitq[pr.held[0].id], pr.prioOrig);
    }
  }

  lemma GrantPip(s: State, k: nat)
    requires Runs(s) && PipOk(s) && OnTop(s) && k < |s.procs[s.current.value].want|
    requires k == FirstDue(s.procs[s.current.value].want, s.procs[s.current.value].age)
    requires s.procs[s.current.value].want[k].id < NR_RESOURCES && s.owner[s.procs[s.current.value].want[k].id].None?
    ensures PipOk(Grant(Pip, s, k)) && OnTop(Grant(Pip, s, k))
  {
    var s' := Grant(Pip, s, k);
    GrantSingleHold(Pip, s, k);
    forall p | 0 <= p < |s'.procs| ensures PrioOk(s', p) { GrantPrios(s, k, p); }
    forall r | 0 <= r < NR_RESOURCES && s'.owner[r].None? && s'.waitq[r] != [] ensures StrongClaim(s', r) {
      assert StrongClaim(s, r);
      var x: nat :| x < |s.procs| && Outranks(s, x, r);
      assert Outranks(s', x, r);
    }
  }

  lemma WaiterHoldsNothing(s: State, c: nat, r: nat, i: nat)
    requires InvAt(s, c) && AllSingleHold(s) && r < NR_RESOURCES && i < |s.waitq[r]|
    requires s.current.Some? ==> s.procs[s.current.value].link == Detached
    ensures s.waitq[r][i] < |s.procs| && s.procs[s.waitq[r][i]].held == []
  {
    assert ListIs(s.procs, s.waitq[r], InWait(r)) && s.waitq[r][i] in s.waitq[r];
    var w := s.waitq[r][i];
    assert PlaceOk(s.procs[w]) && HeldOk(s.procs[w], Counted(s, c, w)) && SingleHold(s.procs[w]);
    RequesterHoldsNothing(s.procs[w], r);
  }

  lemma BlockPrios(s: State, r: nat, p: nat)
    requires Runs(s) && PipOk(s) && r < NR_RESOURCES && s.owner[r].Some? && s.owner[r].value < |s.procs|
    requires Requests(s.procs[s.current.value], r) && p < |s.procs|
    ensures PrioOk(Block(Pip, s, r), p)
  {
    var c, o := s.current.value, s.owner[r].value;
    assert PrioOk(s, p) && SingleHold(s.procs[p]) && HeldOk(s.procs[c], |s.procs[c].held|) && SingleHold(s.procs[c]);
    RequesterHoldsNothing(s.procs[c], r);
    assert Holds(s.procs[o], r);
    if s.procs[p].held != [] {
      var id := s.procs[p].held[0].id;
      assert s.owner[id] == Some(p);
      BlockWaiters(s, r, id);
      BlockedPrio(s, r, p, id);
    }
  }

  // Neither the owner of r nor the process that blocks is among the waiters so far.
  lemma BlockWaiters(s: State, r: nat, id: nat)
    requires Runs(s) && PipOk(s) && r < NR_RESOURCES && s.owner[r].Some? && s.owner[r].value < |s.procs| && id < NR_RESOURCES
    requires s.procs[s.owner[r].value].held != []
    ensures forall i :: 0 <= i < |s.waitq[id]| ==>
              s.waitq[id][i] < |s.procs| && s.waitq[id][i] != s.owner[r].value && s.waitq[id][i] != s.current.value
  {
    forall i | 0 <= i < |s.waitq[id]|
      ensures s.waitq[id][i] < |s.procs| && s.waitq[id][i] != s.owner[r].value && s.waitq[id][i] != s.current.value
    {
      WaiterHoldsNothing(s, CurrentHeld(s), id, i);
      assert ListIs(s.procs, s.waitq[id], InWait(id)) && s.waitq[id][i] in s.waitq[id];
    }
  }

  lemma BlockedPrio(s: State, r: nat, p: nat, id: nat)
    requires InRange(s) && s.current.Some? && r < NR_RESOURCES && s.owner[r].Some? && s.owner[r].value < |s.procs|
    requires p < |s.procs| && id < NR_RESOURCES && s.procs[p].held != [] && s.procs[p].held[0].id == id && (id == r <==> p == s.owner[r].value)
    requires p != s.current.value && PrioOk(s, p)
    requires forall i :: 0 <= i < |s.waitq[id]| ==>
               s.waitq[id][i] < |s.procs| && s.waitq[id][i] != s.owner[r].value && s.waitq[id][i] != s.current.value
    ensures PrioOk(Block(Pip, s, r), p)
  {
    var s' := Block(Pip, s, r);
    HighestSame(s.procs, s'.procs, s.waitq[id], s.procs[p].prioOrig);
    if id == r { assert s'.waitq[r][..|s.waitq[r]|] == s.waitq[r]; }
  }

  lemma BlockPip(s: State, r: nat)
    requires Runs(s) && PipOk(s) && r < NR_RESOURCES && s.owner[r].Some? && s.owner[r].value < |s.procs|
    requires Requests(s.procs[s.current.value], r)
    ensures PipOk(Block(Pip, s, r))
  {
    var s' := Block(Pip, s, r);
    SameUsesSingleHold(s, s');
    forall p | 0 <= p < |s'.procs| ensures PrioOk(s', p) { BlockPrios(s, r, p); }
    forall r' | 0 <= r' < NR_RESOURCES && s'.owner[r'].None? && s'.waitq[r'] != [] ensures StrongClaim(s', r') {
      BlockClaim(s, r, r');
    }
  }

  lemma BlockClaim(s: State, r: nat, r': nat)
    requires Runs(s) && PipOk(s) && r < NR_RESOURCES && s.owner[r].Some? && s.owner[r].value < |s.procs|
    requires Requests(s.procs[s.current.value], r)
    requires r' < NR_RESOURCES && s.owner[r'].None? && s.waitq[r'] != []
    ensures StrongClaim(Block(Pip, s, r), r')
  {
    var s' := Block(Pip, s, r);
    assert StrongClaim(s, r');
    var x: nat :| x < |s.procs| && Outranks(s, x, r');
    assert Holds(s.procs[s.owner[r].value], r);
    forall i | 0 <= i < |s.waitq[r']| ensures s.waitq[r'][i] < |s.procs| && s.waitq[r'][i] != s.owner[r].value {
      WaiterHoldsNothing(s, CurrentHeld(s), r', i);
    }
    assert Outranks(s', x, r');
  }

  lemma {:induction false} AcquireFromPip(s: State, k: nat)
    requires Runs(s) && PipOk(s) && OnTop(s) && OwnersInRange(s) && WantsInRange(s, s.current.value)
    requires k <= |s.procs[s.current.value].want|
    requires forall j :: 0 <= j < k ==> s.procs[s.current.value].want[j].at != s.procs[s.current.value].age
    ensures PipOk(AcquireFrom(Pip, s, k).0)
    decreases |s.procs[s.current.value].want| - k
  {
    var p := s.procs[s.current.value];
    if k == |p.want| {
    } else if p.want[k].at != p.age {
      AcquireFromPip(s, k + 1);
    } else {
      FirstDueIs(p.want, p.age, k);
      if s.owner[p.want[k].id].None? {
        AcquireStep(Pip, s, k);
        GrantPip(s, k);
        AcquireFromPip(Grant(Pip, s, k), k);
      } else {
        BlockPip(s, p.want[k].id);
      }
    }
  }

  /* ---------- Ageing and releasing ---------- */

  // While the running process releases, the claim on a free resource is a ready process's.
  ghost predicate ReadyClaim(s: State, r: nat)
    requires r < |s.waitq|
  {
    exists x: nat :: x < |s.procs| && s.procs[x].link.InReady? && Outranks(s, x, r)
  }

  // The invariant while the running process releases, but for the claim on resource `but`.
  ghost predicate PipReleasing(s: State, but: int) {
    && |s.waitq| == |s.owner| == NR_RESOURCES
    && AllSingleHold(s)
    && (forall p :: 0 <= p < |s.procs| ==> PrioOk(s, p))
    && (forall r :: 0 <= r < NR_RESOURCES && r != but && s.owner[r].None? && s.waitq[r] != [] ==> ReadyClaim(s, r))
  }

  lemma ReadyClaimKept(s: State, s': State, r: nat)
    requires |s.waitq| == |s'.waitq| && r < |s.waitq| && ReadyClaim(s, r) && s'.waitq[r] == s.waitq[r]
    requires |s'.procs| == |s.procs|
    requires forall p :: 0 <= p < |s.procs| && s.procs[p].link.InReady? ==> s'.procs[p] == s.procs[p]
    requires forall i :: 0 <= i < |s.waitq[r]| ==> s.waitq[r][i] < |s.procs| && s'.procs[s.waitq[r][i]].prio == s.procs[s.waitq[r][i]].prio
    ensures ReadyClaim(s', r)
  {
    var x: nat :| x < |s.procs| && s.procs[x].link.InReady? && Outranks(s, x, r);
    assert Outranks(s', x, r);
  }

  lemma AgePip(s: State)
    requires Runs(s) && PipOk(s)
    requires FirstDue(s.procs[s.current.value].want, s.procs[s.current.value].age) == |s.procs[s.current.value].want|
    ensures PipReleasing(Age(s), -1)
  {
    var s' := Age(s);
    SameUsesSingleHold(s, s');
    forall p | 0 <= p < |s'.procs| ensures PrioOk(s', p) { AgePrio(s, p); }
    forall r | 0 <= r < NR_RESOURCES && s'.owner[r].None? && s'.waitq[r] != [] ensures ReadyClaim(s', r) { AgeClaim(s, r); }
  }

  lemma AgePrio(s: State, p: nat)
    requires PipOk(s) && InRange(s) && s.current.Some? && p < |s.procs|
    ensures PrioOk(Age(s), p)
  {
    assert PrioOk(s, p);
    if s.procs[p].held != [] { HighestSame(s.procs, Age(s).procs, s.waitq[s.procs[p].held[0].id], s.procs[p].prioOrig); }
  }

  // The ageing process has nothing left to request now, so the claim is a ready process's.
  lemma AgeClaim(s: State, r: nat)
    requires Runs(s) && PipOk(s) && r < NR_RESOURCES && s.owner[r].None? && s.waitq[r] != []
    requires FirstDue(s.procs[s.current.value].want, s.procs[s.current.value].age) == |s.procs[s.current.value].want|
    ensures ReadyClaim(Age(s), r)
  {
    assert StrongClaim(s, r);
    var x: nat :| x < |s.procs| && Outranks(s, x, r);
    assert x != s.current.value && s.procs[x].link.InReady?;
    assert Outranks(Age(s), x, r);
  }

  lemma WaitersAreNot(s: State, r: nat, c: nat)
    requires Lists(s) && r < NR_RESOURCES && c < |s.procs| && !s.procs[c].link.InWait?
    ensures forall i :: 0 <= i < |s.waitq[r]| ==> s.waitq[r][i] < |s.procs| && s.waitq[r][i] != c
  {
    assert ListIs(s.procs, s.waitq[r], InWait(r));
    forall i | 0 <= i < |s.waitq[r]| ensures s.waitq[r][i] < |s.procs| && s.waitq[r][i] != c {
      assert s.waitq[r][i] in s.waitq[r];
    }
  }

  // The running process changes what it holds and its own priority only.
  lemma OwnHoldChanged(s: State, s': State, but: int)
    requires Lists(s) && PipReleasing(s, but) && InRange(s) && s.current.Some?
    requires s.procs[s.current.value].link == Detached
    requires |s'.procs| == |s.procs| && s' == s.(procs := s'.procs, owner := s'.owner)
    requires s'.procs == s.procs[s.current.value := s'.procs[s.current.value]] && s'.procs[s.current.value].link == Detached
    requires |s'.owner| == NR_RESOURCES
    requires forall r :: 0 <= r < NR_RESOURCES && r != but && s'.owner[r].None? ==> s.owner[r].None?
    requires SingleHold(s'.procs[s.current.value])
    requires var p, p' := s.procs[s.current.value], s'.procs[s.current.value];
             if p'.held == [] then p'.prio == p'.prioOrig
             else p.held != [] && p'.held[0].id == p.held[0].id && p'.prio == p.prio && p'.prioOrig == p.prioOrig
    ensures PipReleasing(s', but)
  {
    var c := s.current.value;
    forall p | 0 <= p < |s'.procs| ensures PrioOk(s', p) && SingleHold(s'.procs[p]) {
      assert PrioOk(s, p) && SingleHold(s.procs[p]);
      if s'.procs[p].held != [] {
        var id := s.procs[p].held[0].id;
        WaitersAreNot(s, id, c);
        HighestSame(s.procs, s'.procs, s.waitq[id], s.procs[p].prioOrig);
      }
    }
    forall r | 0 <= r < NR_RESOURCES && r != but && s'.owner[r].None? && s'.waitq[r] != [] ensures ReadyClaim(s', r) {
      WaitersAreNot(s, r, c);
      ReadyClaimKept(s, s', r);
    }
  }

  lemma CountDownPip(s: State, k: nat)
    requires Releasing(s, k) && PipReleasing(s, -1) && k < |s.procs[s.current.value].held|
    ensures PipReleasing(CountDown(s, k), -1)
  {
    assert SingleHold(s.procs[s.current.value]) && PrioOk(s, s.current.value);
    OwnHoldChanged(s, CountDown(s, k), -1);
  }

  lemma DropPip(s: State, k: nat)
    requires Releasing(s, k) && PipReleasing(s, -1) && k < |s.procs[s.current.value].held| && HeldInRange(s, s.current.value)
    ensures PipReleasing(DropExpired(Pip, s, k), s.procs[s.current.value].held[k].id)
  {
    assert SingleHold(s.procs[s.current.value]) && PrioOk(s, s.current.value);
    OwnHoldChanged(s, DropExpired(Pip, s, k), s.procs[s.current.value].held[k].id);
  }

  // Those that stay are not above the waiter of highest priority.
  lemma RestBelowTop(procs: seq<Proc>, q: seq<nat>, j: nat)
    requires q != [] && (forall i :: 0 <= i < |q| ==> q[i] < |procs|) && j < |q| - 1
    ensures var i := Top(procs, q); Remove(q, i)[j] < |procs| && procs[Remove(q, i)[j]].prio <= procs[q[i]].prio
  {
    var i := Top(procs, q);
    assert Remove(q, i)[j] == q[if j < i then j else j + 1];
  }

  // The waiter woken first is ready and outranks those that stay.
  lemma WakenClaim(s: State, k: nat, r: nat)
    requires Dropped(s, k, r) && s.waitq[r] != []
    ensures |Waken(Pip, s, r).waitq| == NR_RESOURCES && ReadyClaim(Waken(Pip, s, r), r)
  {
    var q := s.waitq[r];
    var i := Top(s.procs, q);
    var s' := Waken(Pip, s, r);
    WaiterRequests(s, k, r, i);
    forall j: nat | j < |q| - 1 ensures s'.waitq[r][j] < |s'.procs| && s'.procs[s'.waitq[r][j]].prio <= s'.procs[q[i]].prio {
      RestBelowTop(s.procs, q, j);
    }
    assert s'.procs[q[i]] == s.procs[q[i]].(status := Ready, link := InReady);
    ClaimFrom(s', q[i], r);
  }

  lemma ClaimFrom(s: State, x: nat, r: nat)
    requires x < |s.procs| && r < |s.waitq| && s.procs[x].link.InReady? && Requests(s.procs[x], r)
    requires forall i :: 0 <= i < |s.waitq[r]| && s.waitq[r][i] < |s.procs| ==> s.procs[s.waitq[r][i]].prio <= s.procs[x].prio
    ensures ReadyClaim(s, r)
  {
    assert Outranks(s, x, r);
  }

  lemma WakenPrios(s: State, k: nat, r: nat, p: nat)
    requires Dropped(s, k, r) && PipReleasing(s, r) && p < |s.procs|
    ensures PrioOk(Waken(Pip, s, r), p) && SingleHold(Waken(Pip, s, r).procs[p])
  {
    var s' := Waken(Pip, s, r);
    assert PrioOk(s, p) && SingleHold(s.procs[p]);
    if s.procs[p].held != [] {
      var id := s.procs[p].held[0].id;
      assert s.owner[id] == Some(p);
      HighestSame(s.procs, s'.procs, s.waitq[id], s.procs[p].prioOrig);
    }
  }

  lemma WakenPip(s: State, k: nat, r: nat)
    requires Dropped(s, k, r) && PipReleasing(s, r)
    ensures PipReleasing(Waken(Pip, s, r), -1)
  {
    var s' := Waken(Pip, s, r);
    forall p | 0 <= p < |s'.procs| ensures PrioOk(s', p) && SingleHold(s'.procs[p]) { WakenPrios(s, k, r, p); }
    forall r' | 0 <= r' < NR_RESOURCES && s'.owner[r'].None? && s'.waitq[r'] != [] ensures ReadyClaim(s', r') {
      if r' == r {
        WakenClaim(s, k, r);
      } else {
        WakenOthers(s, k, r, r');
      }
    }
  }

  lemma WakenOthers(s: State, k: nat, r: nat, r': nat)
    requires Dropped(s, k, r) && r' < NR_RESOURCES && r' != r && ReadyClaim(s, r')
    ensures |Waken(Pip, s, r).waitq| == NR_RESOURCES && ReadyClaim(Waken(Pip, s, r), r')
  {
    assert ListIs(s.procs, s.waitq[r], InWait(r)) && ListIs(s.procs, s.waitq[r'], InWait(r'));
    if s.waitq[r] != [] { assert s.waitq[r][Top(s.procs, s.waitq[r])] in s.waitq[r]; }
    forall i | 0 <= i < |s.waitq[r']| ensures s.waitq[r'][i] < |s.procs| { assert s.waitq[r'][i] in s.waitq[r']; }
    ReadyClaimKept(s, Waken(Pip, s, r), r');
  }

  lemma {:induction false} ReleaseFromPip(s: State, k: nat)
    requires Releasing(s, k) && PipReleasing(s, -1) && HeldInRange(s, s.current.value)
    ensures PipReleasing(ReleaseFrom(Pip, s, k), -1)
    decreases |s.procs[s.current.value].held| - k
  {
    var c := s.current.value;
    if k < |s.procs[c].held| {
      var s1, k1 := ReleaseFromNext(Pip, s, k);
      if s.procs[c].held[k].left <= 1 { ReleasePip(s, k); } else { CountDownPip(s, k); }
      ReleaseFromPip(s1, k1);
    }
  }

  lemma ReleasePip(s: State, k: nat)
    requires Releasing(s, k) && PipReleasing(s, -1) && k < |s.procs[s.current.value].held| && HeldInRange(s, s.current.value)
    ensures PipReleasing(Release(Pip, CountDown(s, k), k), -1)
  {
    var id := s.procs[s.current.value].held[k].id;
    DropInv(Pip, s, k);
    DropPip(s, k);
    WakenPip(DropExpired(Pip, s, k), k, id);
  }

  lemma ReleasedPip(s: State)
    requires PipReleasing(s, -1)
    ensures PipOk(s)
  {
    forall r | 0 <= r < NR_RESOURCES && s.owner[r].None? && s.waitq[r] != [] ensures StrongClaim(s, r) {
      assert ReadyClaim(s, r);
    }
  }

  /* ---------- Whole runs ---------- */

  lemma ServePip(s: State)
    requires Runs(s) && PipOk(s) && OnTop(s)
    ensures PipOk(Serve(Pip, s))
  {
    RunsInRange(s);
    AcquireFromPip(s, 0);
    AcquiredInv(Pip, s);
    var (s1, ok) := Acquired(Pip, s);
    if ok {
      AgeInv(s1);
      InvInRange(Age(s1), 0);
      AgePip(s1);
      ReleaseFromPip(Age(s1), 0);
      ReleasedPip(Aged(Pip, s1));
    }
  }

  lemma NextTickPip(s: State)
    requires PipOk(s)
    ensures PipOk(NextTick(s))
  {
    RelinkedPip(s, NextTick(s));
  }

  lemma TickPip(s: State)
    requires Inv(s) && InRange(s) && PipOk(s)
    ensures PipOk(Tick(Pip, s).0)
  {
    DispatchedPip(Pip, s);
    DispatchedInv(Pip, s);
    var s1 := Dispatched(Pip, s);
    if s1.current.Some? {
      DispatchedOnTop(Pip, s);
      ServePip(s1);
      NextTickPip(Serve(Pip, s1));
    } else {
      NextTickPip(s1);
    }
  }

  lemma {:induction false} RunPip(procs: seq<Proc>, ss: seq<State>, i: nat)
    requires Script(procs) && (forall p :: 0 <= p < |procs| ==> SingleHold(procs[p]))
    requires Run(Pip, procs, ss) && i < |ss|
    ensures PipOk(ss[i])
  {
    if i > 0 {
      RunPip(procs, ss, i - 1);
      assert Turn(Pip, ss[i - 1], ss[i]);
      TickPip(ss[i - 1]);
    }
  }

  // In every reachable state of a single-hold script under priority inheritance, the owner of
  // a resource runs at the highest of its original priority and its waiters' priorities, also
  // when it took a freed resource ahead of a woken waiter, and everybody who owns nothing runs
  // at the original priority.
  lemma InheritanceIsExact(procs: seq<Proc>, ss: seq<State>, i: nat, p: nat)
    requires Script(procs) && (forall q :: 0 <= q < |procs| ==> SingleHold(procs[q]))
    requires Run(Pip, procs, ss) && i < |ss| && p < |ss[i].procs|
    ensures var s := ss[i];
            && |s.owner| == |s.waitq| == NR_RESOURCES
            && (forall r :: 0 <= r < NR_RESOURCES && s.owner[r] == Some(p) ==>
                  s.procs[p].prio == Highest(s.procs, s.waitq[r], s.procs[p].prioOrig))
            && ((forall r :: 0 <= r < NR_RESOURCES ==> s.owner[r] != Some(p)) ==> s.procs[p].prio == s.procs[p].prioOrig)
  {
    RunPip(procs, ss, i);
    RunGood(Pip, procs, ss, i);
    var s := ss[i];
    assert PrioOk(s, p) && SingleHold(s.procs[p]) && HeldOk(s.procs[p], |s.procs[p].held|);
    forall r | 0 <= r < NR_RESOURCES && s.owner[r] == Some(p)
      ensures s.procs[p].prio == Highest(s.procs, s.waitq[r], s.procs[p].prioOrig)
    {
      assert Holds(s.procs[p], r);
    }
    if s.procs[p].held != [] { assert s.owner[s.procs[p].held[0].id] == Some(p); }
  }
}
