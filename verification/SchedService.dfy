/**
 What the fork, acquire and release loops of the framework do to the queues, the running
 process and the resources, said without the loops.
 */
module SchedService {
  import opened Collections
  import opened SchedModel
  import opened SchedSafety

  /* ---------- Forking ---------- */

  // The processes of the queue that are due at the given tick, in order, and the others.
  function DueAt(procs: seq<Proc>, q: seq<nat>, ticks: nat): seq<nat> {
    if q == [] then []
    else (if q[0] < |procs| && procs[q[0]].startsAt <= ticks then [q[0]] else []) + DueAt(procs, q[1..], ticks)
  }

  function LaterThan(procs: seq<Proc>, q: seq<nat>, ticks: nat): seq<nat> {
    if q == [] then []
    else (if q[0] < |procs| && procs[q[0]].startsAt <= ticks then [] else [q[0]]) + LaterThan(procs, q[1..], ticks)
  }

  lemma {:induction false} SameStarts(procs: seq<Proc>, procs': seq<Proc>, q: seq<nat>, ticks: nat)
    requires |procs'| == |procs| && forall p :: 0 <= p < |procs| ==> procs'[p].startsAt == procs[p].startsAt
    ensures DueAt(procs', q, ticks) == DueAt(procs, q, ticks) && LaterThan(procs', q, ticks) == LaterThan(procs, q, ticks)
  {
    if q != [] { SameStarts(procs, procs', q[1..], ticks); }
  }

  lemma DueAtSplit(procs: seq<Proc>, q: seq<nat>, k: nat, ticks: nat)
    requires k < |q| && q[k] < |procs|
    ensures procs[q[k]].startsAt <= ticks ==>
              && DueAt(procs, q[k..], ticks) == [q[k]] + DueAt(procs, q[k + 1..], ticks)
              && LaterThan(procs, q[k..], ticks) == LaterThan(procs, q[k + 1..], ticks)
    ensures procs[q[k]].startsAt > ticks ==>
              && DueAt(procs, q[k..], ticks) == DueAt(procs, q[k + 1..], ticks)
              && LaterThan(procs, q[k..], ticks) == [q[k]] + LaterThan(procs, q[k + 1..], ticks)
  {
    assert q[k..][1..] == q[k + 1..];
  }

  // From position k of the fork queue on, the due processes have moved.
  predicate Moved(s: State, k: nat, s': State)
    requires k <= |s.forkq|
  {
    && s'.forkq == s.forkq[..k] + LaterThan(s.procs, s.forkq[k..], s.ticks)
    && s'.ready == s.ready + DueAt(s.procs, s.forkq[k..], s.ticks)
  }

  lemma MovedDue(s: State, k: nat, s': State)
    requires InRange(s) && k < |s.forkq| && s.procs[s.forkq[k]].startsAt <= s.ticks && Moved(ForkAt(s, k), k, s')
    ensures Moved(s, k, s')
  {
    var s1 := ForkAt(s, k);
    assert s1.forkq[k..] == s.forkq[k + 1..] && s1.forkq[..k] == s.forkq[..k];
    SameStarts(s.procs, s1.procs, s.forkq[k + 1..], s.ticks);
    DueAtSplit(s.procs, s.forkq, k, s.ticks);
    Appended(s.ready, [s.forkq[k]], DueAt(s.procs, s.forkq[k + 1..], s.ticks));
  }

  lemma MovedLater(s: State, k: nat, s': State)
    requires InRange(s) && k < |s.forkq| && s.procs[s.forkq[k]].startsAt > s.ticks && Moved(s, k + 1, s')
    ensures Moved(s, k, s')
  {
    DueAtSplit(s.procs, s.forkq, k, s.ticks);
    assert s.forkq[..k + 1] == s.forkq[..k] + [s.forkq[k]];
  }

  lemma {:induction false} ForkFromMoves(s: State, k: nat)
    requires InRange(s) && k <= |s.forkq|
    ensures Moved(s, k, ForkFrom(s, k))
    decreases |s.forkq| - k
  {
    if k == |s.forkq| {
      assert s.forkq[..k] == s.forkq;
    } else if s.procs[s.forkq[k]].startsAt <= s.ticks {
      ForkFromMoves(ForkAt(s, k), k);
      MovedDue(s, k, ForkFrom(ForkAt(s, k), k));
    } else {
      ForkFromMoves(s, k + 1);
      MovedLater(s, k, ForkFrom(s, k + 1));
    }
  }

  // The processes of q are ready, all others as they were.
  predicate Readied(s: State, q: seq<nat>, s': State) {
    && |s'.procs| == |s.procs|
    && forall p :: 0 <= p < |s.procs| ==>
         s'.procs[p] == if p in q then s.procs[p].(status := Ready, link := InReady) else s.procs[p]
  }

  lemma ReadiedFirst(s: State, k: nat, q: seq<nat>, s': State)
    requires InRange(s) && k < |s.forkq| && Readied(ForkAt(s, k), q, s')
    ensures Readied(s, [s.forkq[k]] + q, s')
  {
  }

  lemma {:induction false} ForkFromReadies(s: State, k: nat)
    requires InRange(s) && k <= |s.forkq|
    ensures Readied(s, DueAt(s.procs, s.forkq[k..], s.ticks), ForkFrom(s, k))
    decreases |s.forkq| - k
  {
    if k < |s.forkq| {
      DueAtSplit(s.procs, s.forkq, k, s.ticks);
      if s.procs[s.forkq[k]].startsAt <= s.ticks {
        var s1 := ForkAt(s, k);
        ForkFromReadies(s1, k);
        assert s1.forkq[k..] == s.forkq[k + 1..];
        SameStarts(s.procs, s1.procs, s.forkq[k + 1..], s.ticks);
        ReadiedFirst(s, k, DueAt(s.procs, s.forkq[k + 1..], s.ticks), ForkFrom(s1, k));
      } else {
        ForkFromReadies(s, k + 1);
      }
    }
  }

  // Exactly the due processes move to the end of the ready queue and are ready; both lists keep
  // their order, and no other process changes.
  lemma ForkMovesDue(s: State)
    requires InRange(s)
    ensures ForkFrom(s, 0).forkq == LaterThan(s.procs, s.forkq, s.ticks)
    ensures ForkFrom(s, 0).ready == s.ready + DueAt(s.procs, s.forkq, s.ticks)
    ensures Readied(s, DueAt(s.procs, s.forkq, s.ticks), ForkFrom(s, 0))
  {
    ForkFromMoves(s, 0);
    ForkFromReadies(s, 0);
    assert s.forkq[0..] == s.forkq;
  }

  /* ---------- Acquiring ---------- */

  // The requests that are due, in order.
  function Due(want: seq<Entry>, age: nat): (d: seq<Entry>)
    ensures |d| <= |want|
  {
    if want == [] then []
    else (if want[0].at == age then [want[0]] else []) + Due(want[1..], age)
  }

  // The requests without the first n that are due.
  function WithoutDue(want: seq<Entry>, age: nat, n: nat): seq<Entry> {
    if want == [] || n == 0 then want
    else if want[0].at == age then WithoutDue(want[1..], age, n - 1)
    else [want[0]] + WithoutDue(want[1..], age, n)
  }

  predicate Uses(es: seq<Entry>, r: nat) {
    exists i :: 0 <= i < |es| && es[i].id == r
  }

  lemma UsesFirst(e: Entry, es: seq<Entry>, r: nat)
    ensures Uses([e] + es, r) <==> e.id == r || Uses(es, r)
  {
    var all := [e] + es;
    assert all[0] == e && forall i :: 0 <= i < |es| ==> all[i + 1] == es[i];
    if Uses(all, r) {
      var i :| 0 <= i < |all| && all[i].id == r;
      if i > 0 { assert es[i - 1].id == r; }
    }
  }

  // The entries `got` have been moved from the requests to the held ones, their resources,
  // which were free, are the running process's, and nothing else has an owner it did not have.
  ghost predicate Granted(s: State, s': State, got: seq<Entry>)
    requires InRange(s) && InRange(s') && s.current.Some? && |s.procs| == |s'.procs|
  {
    var c := s.current.value;
    && s'.procs[c].held == s.procs[c].held + got
    && (forall i :: 0 <= i < |got| ==> got[i].id < NR_RESOURCES && s.owner[got[i].id].None?)
    && forall r :: 0 <= r < NR_RESOURCES ==> s'.owner[r] == if Uses(got, r) then s.current else s.owner[r]
  }

  // How the loop ended: all due requests served, or the next one blocked at the end of the
  // queue of a resource that is owned.
  ghost predicate Ended(s: State, s': State, ok: bool, rest: seq<Entry>)
    requires InRange(s) && InRange(s') && s.current.Some? && |s.procs| == |s'.procs|
  {
    var c := s.current.value;
    if ok then rest == [] && s'.waitq == s.waitq && s'.procs[c].status == s.procs[c].status
    else
      && rest != [] && rest[0].id < NR_RESOURCES && s'.owner[rest[0].id].Some?
      && s'.waitq == s.waitq[rest[0].id := s.waitq[rest[0].id] + [c]]
      && s'.procs[c].status == Waiting
  }

  lemma DueSplit(want: seq<Entry>, age: nat, k: nat)
    requires k < |want|
    ensures want[k..] == [want[k]] + want[k + 1..]
    ensures Due(want[k..], age) == (if want[k].at == age then [want[k]] else []) + Due(want[k + 1..], age)
  {
    assert want[k..][1..] == want[k + 1..];
  }

  // From position k on, the first n due requests have been served.
  ghost predicate Served(s: State, k: nat, s': State, ok: bool, n: nat) {
    && InRange(s) && InRange(s') && s.current.Some? && |s'.procs| == |s.procs|
    && k <= |s.procs[s.current.value].want|
    && var p := s.procs[s.current.value];
       && s'.procs[s.current.value].want == p.want[..k] + WithoutDue(p.want[k..], p.age, n)
       && ServedDue(s, s', ok, Due(p.want[k..], p.age), n)
  }

  ghost predicate ServedDue(s: State, s': State, ok: bool, due: seq<Entry>, n: nat)
    requires InRange(s) && InRange(s') && s.current.Some? && |s.procs| == |s'.procs|
  {
    n <= |due| && Granted(s, s', due[..n]) && Ended(s, s', ok, due[n..])
  }

  lemma ServedSkip(s: State, k: nat, s': State, ok: bool, n: nat)
    requires InRange(s) && s.current.Some? && k < |s.procs[s.current.value].want|
    requires s.procs[s.current.value].want[k].at != s.procs[s.current.value].age && Served(s, k + 1, s', ok, n)
    ensures Served(s, k, s', ok, n)
  {
    var p := s.procs[s.current.value];
    DueSplit(p.want, p.age, k);
    assert p.want[..k + 1] == p.want[..k] + [p.want[k]];
    assert Due(p.want[k..], p.age) == Due(p.want[k + 1..], p.age);
    if n == 0 {
      assert WithoutDue(p.want[k..], p.age, 0) == p.want[k..];
      assert WithoutDue(p.want[k + 1..], p.age, 0) == p.want[k + 1..];
    } else {
      assert p.want[k..][1..] == p.want[k + 1..];
      assert WithoutDue(p.want[k..], p.age, n) == [p.want[k]] + WithoutDue(p.want[k + 1..], p.age, n);
    }
  }

  lemma ServedBlock(policy: Policy, s: State, k: nat)
    requires InRange(s) && s.current.Some? && k < |s.procs[s.current.value].want|
    requires s.procs[s.current.value].want[k].at == s.procs[s.current.value].age
    requires s.procs[s.current.value].want[k].id < NR_RESOURCES
    requires s.owner[s.procs[s.current.value].want[k].id].Some? && s.owner[s.procs[s.current.value].want[k].id].value < |s.procs|
    ensures Served(s, k, Block(policy, s, s.procs[s.current.value].want[k].id), false, 0)
  {
    var p := s.procs[s.current.value];
    DueSplit(p.want, p.age, k);
    assert p.want[..k] + p.want[k..] == p.want;
  }

  lemma GrantedFirst(policy: Policy, s: State, k: nat, s': State, got: seq<Entry>)
    requires InRange(s) && s.current.Some? && k < |s.procs[s.current.value].want|
    requires s.procs[s.current.value].want[k].id < NR_RESOURCES && s.owner[s.procs[s.current.value].want[k].id].None?
    requires InRange(Grant(policy, s, k)) && InRange(s') && |s'.procs| == |s.procs| && Granted(Grant(policy, s, k), s', got)
    ensures Granted(s, s', [s.procs[s.current.value].want[k]] + got)
  {
    var c := s.current.value;
    var e := s.procs[c].want[k];
    var s1 := Grant(policy, s, k);
    var all := [e] + got;
    assert s1.procs[c].held + got == s.procs[c].held + all;
    forall i | 0 <= i < |all| ensures all[i].id < NR_RESOURCES && s.owner[all[i].id].None? {
      if i > 0 { assert s1.owner[got[i - 1].id].None?; }
    }
    forall r | 0 <= r < NR_RESOURCES ensures s'.owner[r] == if Uses(all, r) then s.current else s.owner[r] {
      UsesFirst(e, got, r);
    }
  }

  lemma ServedGrant(policy: Policy, s: State, k: nat, s': State, ok: bool, n: nat)
    requires InRange(s) && s.current.Some? && k < |s.procs[s.current.value].want|
    requires s.procs[s.current.value].want[k].at == s.procs[s.current.value].age
    requires s.procs[s.current.value].want[k].id < NR_RESOURCES && s.owner[s.procs[s.current.value].want[k].id].None?
    requires Served(Grant(policy, s, k), k, s', ok, n)
    ensures Served(s, k, s', ok, n + 1)
  {
    var p := s.procs[s.current.value];
    var p1 := Grant(policy, s, k).procs[s.current.value];
    DueSplit(p.want, p.age, k);
    assert p1.want[k..] == p.want[k + 1..] && p1.want[..k] == p.want[..k];
    var due, due1 := Due(p.want[k..], p.age), Due(p1.want[k..], p.age);
    assert due[..n + 1] == [p.want[k]] + due1[..n] && due[n + 1..] == due1[n..];
    GrantedFirst(policy, s, k, s', due1[..n]);
    assert p.want[k..][1..] == p.want[k + 1..];
  }

  // The loop from position k on serves the due requests there in order, up to the first whose
  // resource is owned.
  lemma {:induction false} AcquireFromServes(policy: Policy, s: State, k: nat)
    requires Runs(s) && OwnersInRange(s) && WantsInRange(s, s.current.value)
    requires k <= |s.procs[s.current.value].want|
    requires forall j :: 0 <= j < k ==> s.procs[s.current.value].want[j].at != s.procs[s.current.value].age
    ensures exists n: nat :: Served(s, k, AcquireFrom(policy, s, k).0, AcquireFrom(policy, s, k).1, n)
    decreases |s.procs[s.current.value].want| - k
  {
    var p := s.procs[s.current.value];
    if k == |p.want| {
      ServesNothing(policy, s, k);
    } else if p.want[k].at != p.age {
      AcquireFromServes(policy, s, k + 1);
      var n: nat :| Served(s, k + 1, AcquireFrom(policy, s, k + 1).0, AcquireFrom(policy, s, k + 1).1, n);
      ServesSkipped(policy, s, k, n);
    } else if s.owner[p.want[k].id].None? {
      AcquireStep(policy, s, k);
      var s1 := Grant(policy, s, k);
      AcquireFromServes(policy, s1, k);
      var n: nat :| Served(s1, k, AcquireFrom(policy, s1, k).0, AcquireFrom(policy, s1, k).1, n);
      ServesGranted(policy, s, k, s1, n);
    } else {
      ServesBlocked(policy, s, k);
    }
  }

  lemma ServesNothing(policy: Policy, s: State, k: nat)
    requires InRange(s) && OwnersInRange(s) && s.current.Some? && WantsInRange(s, s.current.value) && k == |s.procs[s.current.value].want|
    ensures Served(s, k, AcquireFrom(policy, s, k).0, AcquireFrom(policy, s, k).1, 0)
  {
    assert AcquireFrom(policy, s, k) == (s, true);
    ServedEnd(s, k);
  }

  lemma ServesBlocked(policy: Policy, s: State, k: nat)
    requires InRange(s) && OwnersInRange(s) && s.current.Some? && WantsInRange(s, s.current.value) && k < |s.procs[s.current.value].want|
    requires s.procs[s.current.value].want[k].at == s.procs[s.current.value].age && s.owner[s.procs[s.current.value].want[k].id].Some?
    ensures Served(s, k, AcquireFrom(policy, s, k).0, AcquireFrom(policy, s, k).1, 0)
  {
    var s' := Block(policy, s, s.procs[s.current.value].want[k].id);
    assert AcquireFrom(policy, s, k) == (s', false);
    ServedBlock(policy, s, k);
  }

  lemma ServesSkipped(policy: Policy, s: State, k: nat, n: nat)
    requires InRange(s) && OwnersInRange(s) && s.current.Some? && WantsInRange(s, s.current.value) && k < |s.procs[s.current.value].want|
    requires s.procs[s.current.value].want[k].at != s.procs[s.current.value].age
    requires Served(s, k + 1, AcquireFrom(policy, s, k + 1).0, AcquireFrom(policy, s, k + 1).1, n)
    ensures Served(s, k, AcquireFrom(policy, s, k).0, AcquireFrom(policy, s, k).1, n)
  {
    var (s', ok) := AcquireFrom(policy, s, k + 1);
    assert AcquireFrom(policy, s, k) == (s', ok);
    ServedSkip(s, k, s', ok, n);
  }

  lemma ServesGranted(policy: Policy, s: State, k: nat, s1: State, n: nat)
    requires InRange(s) && OwnersInRange(s) && s.current.Some? && WantsInRange(s, s.current.value) && k < |s.procs[s.current.value].want|
    requires s.procs[s.current.value].want[k].at == s.procs[s.current.value].age && s.owner[s.procs[s.current.value].want[k].id].None?
    requires s1 == Grant(policy, s, k) && InRange(s1) && OwnersInRange(s1) && s1.current.Some? && WantsInRange(s1, s1.current.value)
    requires k <= |s1.procs[s1.current.value].want| && Served(s1, k, AcquireFrom(policy, s1, k).0, AcquireFrom(policy, s1, k).1, n)
    ensures Served(s, k, AcquireFrom(policy, s, k).0, AcquireFrom(policy, s, k).1, n + 1)
  {
    var (s', ok) := AcquireFrom(policy, s1, k);
    assert AcquireFrom(policy, s, k) == (s', ok);
    ServedGrant(policy, s, k, s', ok, n);
  }

  lemma ServedEnd(s: State, k: nat)
    requires InRange(s) && s.current.Some? && k == |s.procs[s.current.value].want|
    ensures Served(s, k, s, true, 0)
  {
    var p := s.procs[s.current.value];
    assert p.want[k..] == [] && p.want[..k] == p.want;
  }

  // The running process is granted its due requests in order, each with a resource that was
  // free, until one asks for an owned resource, where it waits last; without such a one it is
  // granted all of them.
  lemma AcquireServesInOrder(policy: Policy, s: State)
    requires Runs(s)
    ensures exists n: nat :: Served(s, 0, Acquired(policy, s).0, Acquired(policy, s).1, n)
  {
    RunsInRange(s);
    AcquireFromServes(policy, s, 0);
    var n: nat :| Served(s, 0, AcquireFrom(policy, s, 0).0, AcquireFrom(policy, s, 0).1, n);
    assert Served(s, 0, Acquired(policy, s).0, Acquired(policy, s).1, n);
  }

  /* ---------- Releasing ---------- */

  // The entries with ticks left, one fewer each.
  function Survivors(held: seq<Entry>): (r: seq<Entry>)
    ensures |r| <= |held|
  {
    if held == [] then []
    else (if held[0].left > 1 then [held[0].(left := held[0].left - 1)] else []) + Survivors(held[1..])
  }

  // The entries whose last tick it was.
  function Expired(held: seq<Entry>): (r: seq<Entry>)
    ensures |r| <= |held|
  {
    if held == [] then []
    else (if held[0].left > 1 then [] else [held[0]]) + Expired(held[1..])
  }

  // The waiter a release of resource r wakes: the first, or the earliest of highest priority.
  function Chosen(policy: Policy, procs: seq<Proc>, q: seq<nat>): (i: nat)
    requires q != [] && forall j :: 0 <= j < |q| ==> q[j] < |procs|
    ensures i < |q|
  {
    if ByPriority(policy) then Top(procs, q) else 0
  }

  // Without priorities the first in the queue is woken, under the protocols the earliest of
  // highest priority.
  lemma WakesWhom(policy: Policy, procs: seq<Proc>, q: seq<nat>)
    requires q != [] && forall j :: 0 <= j < |q| ==> q[j] < |procs|
    ensures policy == Fifo || policy == Prio ==> Chosen(policy, procs, q) == 0
    ensures policy == Pcp || policy == Pip ==>
              var i := Chosen(policy, procs, q);
              && (forall j :: 0 <= j < |q| ==> procs[q[j]].prio <= procs[q[i]].prio)
              && (forall j :: 0 <= j < i ==> procs[q[j]].prio < procs[q[i]].prio)
  {
  }

  lemma ChosenSame(policy: Policy, procs: seq<Proc>, procs': seq<Proc>, q: seq<nat>)
    requires q != [] && |procs'| == |procs| && forall j :: 0 <= j < |q| ==> q[j] < |procs|
    requires forall j :: 0 <= j < |q| ==> procs'[q[j]].prio == procs[q[j]].prio
    ensures Chosen(policy, procs', q) == Chosen(policy, procs, q)
  {
    if ByPriority(policy) { TopIsEarliest(procs', q, Top(procs, q)); }
  }

  function Woken(policy: Policy, s: State, r: nat): seq<nat>
    requires InRange(s)
  {
    if r >= NR_RESOURCES || s.waitq[r] == [] then [] else [s.waitq[r][Chosen(policy, s.procs, s.waitq[r])]]
  }

  function WokenAll(policy: Policy, s: State, es: seq<Entry>): seq<nat>
    requires InRange(s)
  {
    if es == [] then [] else Woken(policy, s, es[0].id) + WokenAll(policy, s, es[1..])
  }

  // Who still waits for resource r when it is released once.
  function Waiters(policy: Policy, s: State, r: nat): seq<nat>
    requires InRange(s) && r < NR_RESOURCES
  {
    if s.waitq[r] == [] then [] else Remove(s.waitq[r], Chosen(policy, s.procs, s.waitq[r]))
  }

  // The entries `es` have been given up: their resources are free, each has woken one waiter,
  // in the order of the entries, and everybody else keeps what they own and where they wait.
  ghost predicate GivenUp(policy: Policy, s: State, s': State, es: seq<Entry>) {
    && InRange(s) && InRange(s')
    && (forall r: nat {:trigger ResourceAfter(policy, s, s', es, r)} :: r < NR_RESOURCES ==> ResourceAfter(policy, s, s', es, r))
    && s'.ready == s.ready + WokenAll(policy, s, es)
  }

  ghost predicate ResourceAfter(policy: Policy, s: State, s': State, es: seq<Entry>, r: nat)
    requires InRange(s) && InRange(s') && r < NR_RESOURCES
  {
    if Uses(es, r) then s'.owner[r] == None && s'.waitq[r] == Waiters(policy, s, r)
    else s'.owner[r] == s.owner[r] && s'.waitq[r] == s.waitq[r]
  }

  // From position k on, the held entries have been counted down and the expired given up.
  ghost predicate CountedDown(policy: Policy, s: State, k: nat, s': State) {
    && InRange(s) && InRange(s') && s.current.Some? && |s'.procs| == |s.procs|
    && k <= |s.procs[s.current.value].held|
    && exists es: seq<Entry> ::
         && es == Expired(s.procs[s.current.value].held[k..])
         && s'.procs[s.current.value].held == s.procs[s.current.value].held[..k] + Survivors(s.procs[s.current.value].held[k..])
         && GivenUp(policy, s, s', es)
  }

  lemma HeldSplit(held: seq<Entry>, k: nat)
    requires k < |held|
    ensures held[k..] == [held[k]] + held[k + 1..]
    ensures held[k].left > 1 ==> Survivors(held[k..]) == [held[k].(left := held[k].left - 1)] + Survivors(held[k + 1..])
                                 && Expired(held[k..]) == Expired(held[k + 1..])
    ensures held[k].left <= 1 ==> Survivors(held[k..]) == Survivors(held[k + 1..]) && Expired(held[k..]) == [held[k]] + Expired(held[k + 1..])
  {
    assert held[k..][1..] == held[k + 1..];
  }

  // States with the same queues, and the same priorities of the waiters on the entries, wake
  // the same ones.
  lemma {:induction false} WokenAllSame(policy: Policy, s: State, s1: State, es: seq<Entry>)
    requires InRange(s) && InRange(s1) && |s1.procs| == |s.procs|
    requires forall i :: 0 <= i < |es| && es[i].id < NR_RESOURCES ==> s1.waitq[es[i].id] == s.waitq[es[i].id]
    requires forall i, j :: 0 <= i < |es| && es[i].id < NR_RESOURCES && 0 <= j < |s.waitq[es[i].id]| ==>
               s1.procs[s.waitq[es[i].id][j]].prio == s.procs[s.waitq[es[i].id][j]].prio
    ensures WokenAll(policy, s1, es) == WokenAll(policy, s, es)
  {
    if es != [] {
      WokenSame(policy, s, s1, es[0].id);
      WokenAllSame(policy, s, s1, es[1..]);
    }
  }

  lemma WokenSame(policy: Policy, s: State, s1: State, r: nat)
    requires InRange(s) && InRange(s1) && |s1.procs| == |s.procs|
    requires r < NR_RESOURCES ==> s1.waitq[r] == s.waitq[r]
    requires r < NR_RESOURCES ==> forall j :: 0 <= j < |s.waitq[r]| ==> s1.procs[s.waitq[r][j]].prio == s.procs[s.waitq[r][j]].prio
    ensures Woken(policy, s1, r) == Woken(policy, s, r)
    ensures r < NR_RESOURCES ==> Waiters(policy, s1, r) == Waiters(policy, s, r)
  {
    if r < NR_RESOURCES && s.waitq[r] != [] { ChosenSame(policy, s.procs, s1.procs, s.waitq[r]); }
  }

  lemma CountedSkip(policy: Policy, s: State, k: nat, s': State)
    requires InRange(s) && s.current.Some? && k < |s.procs[s.current.value].held| && s.procs[s.current.value].held[k].left > 1
    requires CountedDown(policy, CountDown(s, k), k + 1, s')
    ensures CountedDown(policy, s, k, s')
  {
    var s1 := CountDown(s, k);
    var held, held1 := s.procs[s.current.value].held, s1.procs[s.current.value].held;
    HeldSplit(held, k);
    assert held1[..k + 1] == held[..k] + [held1[k]] && held1[k + 1..] == held[k + 1..];
    GivenUpSame(policy, s, s1, s', Expired(held[k + 1..]));
  }

  lemma GivenUpSame(policy: Policy, s: State, s1: State, s': State, es: seq<Entry>)
    requires GivenUp(policy, s1, s', es) && InRange(s) && |s1.procs| == |s.procs|
    requires s1.owner == s.owner && s1.waitq == s.waitq && s1.ready == s.ready
    requires forall p :: 0 <= p < |s.procs| ==> s1.procs[p].prio == s.procs[p].prio
    ensures GivenUp(policy, s, s', es)
  {
    WokenAllSame(policy, s, s1, es);
    forall r: nat | r < NR_RESOURCES ensures ResourceAfter(policy, s, s', es, r) {
      assert ResourceAfter(policy, s1, s', es, r);
      WokenSame(policy, s, s1, r);
    }
  }

  // One entry has been given up and one waiter on its resource woken.
  ghost predicate OneReleased(policy: Policy, s: State, s2: State, r: nat) {
    && InRange(s) && InRange(s2) && s.current.Some? && |s2.procs| == |s.procs| && r < NR_RESOURCES
    && s2.owner == s.owner[r := None] && s2.waitq == s.waitq[r := Waiters(policy, s, r)] && s2.ready == s.ready + Woken(policy, s, r)
    && s2.current == s.current
    && forall p :: 0 <= p < |s.procs| && p != s.current.value ==> s2.procs[p].prio == s.procs[p].prio
  }

  lemma CurrentWaitsNowhere(s: State, k: nat, r: nat)
    requires Releasing(s, k) && r < NR_RESOURCES
    ensures forall j :: 0 <= j < |s.waitq[r]| ==> s.waitq[r][j] != s.current.value
  {
    assert ListIs(s.procs, s.waitq[r], InWait(r));
    forall j | 0 <= j < |s.waitq[r]| ensures s.waitq[r][j] != s.current.value { assert s.waitq[r][j] in s.waitq[r]; }
  }

  lemma ReleasedOne(policy: Policy, s: State, k: nat)
    requires Releasing(s, k) && k < |s.procs[s.current.value].held| && HeldInRange(s, s.current.value)
    ensures OneReleased(policy, s, Release(policy, CountDown(s, k), k), s.procs[s.current.value].held[k].id)
    ensures Release(policy, CountDown(s, k), k).procs[s.current.value].held == Remove(s.procs[s.current.value].held, k)
  {
    var r := s.procs[s.current.value].held[k].id;
    var s1 := CountDown(s, k);
    ReleaseInRange(policy, s1, k);
    CurrentWaitsNowhere(s, k, r);
    DropEffect(policy, s, k);
    var d := Drop(policy, s1, k);
    WokenSame(policy, s, d, r);
    WakenEffect(policy, d, r);
  }

  lemma DropEffect(policy: Policy, s: State, k: nat)
    requires InRange(s) && s.current.Some? && k < |s.procs[s.current.value].held| && HeldInRange(s, s.current.value)
    ensures var d := Drop(policy, CountDown(s, k), k); var c := s.current.value; var r := s.procs[c].held[k].id;
            && InRange(d) && d.current == s.current && |d.procs| == |s.procs| && d.waitq == s.waitq && d.ready == s.ready
            && d.owner == s.owner[r := None] && d.procs[c].held == Remove(s.procs[c].held, k)
            && forall p :: 0 <= p < |s.procs| && p != c ==> d.procs[p] == s.procs[p]
  {
  }

  lemma WakenEffect(policy: Policy, d: State, r: nat)
    requires InRange(d) && d.current.Some? && r < NR_RESOURCES && forall j :: 0 <= j < |d.waitq[r]| ==> d.waitq[r][j] != d.current.value
    ensures var s := Waken(policy, d, r);
            && s.owner == d.owner && s.current == d.current && |s.procs| == |d.procs|
            && s.waitq == d.waitq[r := Waiters(policy, d, r)] && s.ready == d.ready + Woken(policy, d, r)
            && s.procs[d.current.value] == d.procs[d.current.value]
            && forall p :: 0 <= p < |d.procs| ==> s.procs[p].prio == d.procs[p].prio
  {
  }

  // The other held entries are for other resources.
  lemma {:induction false} ExpiredIds(held: seq<Entry>, r: nat)
    requires forall i :: 0 <= i < |held| ==> held[i].id != r
    ensures !Uses(Expired(held), r)
  {
    if held != [] {
      ExpiredIds(held[1..], r);
      if held[0].left <= 1 { UsesFirst(held[0], Expired(held[1..]), r); }
    }
  }

  lemma WokenFirst(policy: Policy, s: State, e: Entry, es: seq<Entry>)
    requires InRange(s)
    ensures WokenAll(policy, s, [e] + es) == Woken(policy, s, e.id) + WokenAll(policy, s, es)
  {
    assert ([e] + es)[1..] == es;
  }

  // The running process waits for nothing.
  ghost predicate Away(s: State, r: nat)
    requires r < |s.waitq|
  {
    forall j :: 0 <= j < |s.waitq[r]| ==> s.current != Some(s.waitq[r][j])
  }

  ghost predicate AwayAll(s: State) {
    forall r: nat {:trigger Away(s, r)} :: r < |s.waitq| ==> Away(s, r)
  }

  lemma WokenAfter(policy: Policy, s: State, s2: State, id: nat, es: seq<Entry>)
    requires OneReleased(policy, s, s2, id) && !Uses(es, id) && AwayAll(s)
    ensures WokenAll(policy, s2, es) == WokenAll(policy, s, es)
  {
    assert forall i :: 0 <= i < |es| ==> es[i].id != id;
    forall i | 0 <= i < |es| && es[i].id < NR_RESOURCES
      ensures forall j :: 0 <= j < |s.waitq[es[i].id]| ==> s2.procs[s.waitq[es[i].id][j]].prio == s.procs[s.waitq[es[i].id][j]].prio
    {
      assert Away(s, es[i].id);
    }
    WokenAllSame(policy, s, s2, es);
  }

  lemma GivenUpFirst(policy: Policy, s: State, s2: State, s': State, e: Entry, es: seq<Entry>)
    requires OneReleased(policy, s, s2, e.id) && GivenUp(policy, s2, s', es) && !Uses(es, e.id) && AwayAll(s)
    ensures GivenUp(policy, s, s', [e] + es)
  {
    WokenAfter(policy, s, s2, e.id, es);
    GivenUpReady(policy, s, s2, s', e, es);
    GivenUpResources(policy, s, s2, s', e, es);
  }

  lemma GivenUpReady(policy: Policy, s: State, s2: State, s': State, e: Entry, es: seq<Entry>)
    requires InRange(s) && InRange(s2) && s2.ready == s.ready + Woken(policy, s, e.id) && s'.ready == s2.ready + WokenAll(policy, s2, es)
    requires WokenAll(policy, s2, es) == WokenAll(policy, s, es)
    ensures s'.ready == s.ready + WokenAll(policy, s, [e] + es)
  {
    WokenFirst(policy, s, e, es);
    Appended(s.ready, Woken(policy, s, e.id), WokenAll(policy, s, es));
  }

  lemma Appended(a: seq<nat>, b: seq<nat>, c: seq<nat>)
    ensures a + b + c == a + (b + c)
  {
  }

  lemma GivenUpResources(policy: Policy, s: State, s2: State, s': State, e: Entry, es: seq<Entry>)
    requires OneReleased(policy, s, s2, e.id) && GivenUp(policy, s2, s', es) && !Uses(es, e.id) && AwayAll(s)
    ensures forall r: nat {:trigger ResourceAfter(policy, s, s', [e] + es, r)} :: r < NR_RESOURCES ==> ResourceAfter(policy, s, s', [e] + es, r)
  {
    forall r: nat | r < NR_RESOURCES ensures ResourceAfter(policy, s, s', [e] + es, r) {
      assert ResourceAfter(policy, s2, s', es, r) && Away(s, r);
      GivenUpResource(policy, s, s2, s', e, es, r);
    }
  }

  lemma GivenUpResource(policy: Policy, s: State, s2: State, s': State, e: Entry, es: seq<Entry>, r: nat)
    requires OneReleased(policy, s, s2, e.id) && InRange(s') && r < NR_RESOURCES
    requires ResourceAfter(policy, s2, s', es, r) && !Uses(es, e.id) && Away(s, r)
    ensures ResourceAfter(policy, s, s', [e] + es, r)
  {
    UsesFirst(e, es, r);
    if r != e.id { WokenSame(policy, s, s2, r); }
  }

  lemma CountedRelease(policy: Policy, s: State, k: nat, s': State)
    requires Releasing(s, k) && k < |s.procs[s.current.value].held| && HeldInRange(s, s.current.value)
    requires s.procs[s.current.value].held[k].left <= 1
    requires CountedDown(policy, Release(policy, CountDown(s, k), k), k, s')
    ensures CountedDown(policy, s, k, s')
  {
    var held := s.procs[s.current.value].held;
    var s2 := Release(policy, CountDown(s, k), k);
    ReleasedOne(policy, s, k);
    HeldSplit(held, k);
    assert HeldOk(s.procs[s.current.value], k);
    assert Remove(held, k)[..k] == held[..k] && Remove(held, k)[k..] == held[k + 1..];
    ExpiredIds(held[k + 1..], held[k].id);
    forall r: nat | r < |s.waitq| ensures Away(s, r) { CurrentWaitsNowhere(s, k, r); }
    GivenUpFirst(policy, s, s2, s', held[k], Expired(held[k + 1..]));
  }

  lemma {:induction false} ReleaseFromCounts(policy: Policy, s: State, k: nat)
    requires Releasing(s, k) && HeldInRange(s, s.current.value)
    ensures CountedDown(policy, s, k, ReleaseFrom(policy, s, k))
    decreases |s.procs[s.current.value].held| - k
  {
    var c := s.current.value;
    if k == |s.procs[c].held| {
      CountedEnd(policy, s, k);
    } else {
      var s1, k1 := ReleaseFromNext(policy, s, k);
      ReleaseFromCounts(policy, s1, k1);
      if s.procs[c].held[k].left <= 1 {
        CountedRelease(policy, s, k, ReleaseFrom(policy, s1, k1));
      } else {
        CountedSkip(policy, s, k, ReleaseFrom(policy, s1, k1));
      }
    }
  }

  lemma CountedEnd(policy: Policy, s: State, k: nat)
    requires InRange(s) && s.current.Some? && k == |s.procs[s.current.value].held|
    ensures CountedDown(policy, s, k, s)
  {
    var held := s.procs[s.current.value].held;
    assert held[k..] == [] && held[..k] == held;
    assert GivenUp(policy, s, s, Expired(held[k..]));
  }

  // At the end of its tick the running process keeps exactly the entries with ticks left, and
  // gives up the others: their resources are free, whoever waits longest for each, or longest
  // among those of highest priority, is ready in the order of the entries, and nothing else
  // changes owner or queue.
  lemma ReleasesExactlyExpired(policy: Policy, s: State)
    requires Runs(s)
    requires FirstDue(s.procs[s.current.value].want, s.procs[s.current.value].age) == |s.procs[s.current.value].want|
    ensures var s' := Aged(policy, s); var held := s.procs[s.current.value].held;
            && InRange(s') && |s'.procs| == |s.procs|
            && s'.procs[s.current.value].held == Survivors(held)
            && GivenUp(policy, s, s', Expired(held))
  {
    AgeInv(s);
    InvInRange(Age(s), 0);
    ReleaseFromCounts(policy, Age(s), 0);
    GivenUpSame(policy, s, Age(s), Aged(policy, s), Expired(s.procs[s.current.value].held));
    var held := s.procs[s.current.value].held;
    assert held[0..] == held && held[..0] == [];
  }
}
