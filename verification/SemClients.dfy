/**
 Clients that release only permits they were granted: at any time no more threads than the
 initial count are between the return of an acquire and the start of the matching release.
 */
module SemClients {
  import opened Sums
  import opened Semaphores

  // `permits` counts, for every thread, the permits of one semaphore it was granted and has not
  // begun to give back.
  datatype Clients = Clients(sys: Sys, permits: seq<nat>)

  // A thread starts a release of semaphore m only with a permit of it.
  predicate Allowed(s: Clients, m: nat, ch: Choice) {
    && Legal(s.sys, ch.thread, ch.call) && ch.thread < |s.permits|
    && (s.sys.at[ch.thread].Outside? && ch.call == Release(m) ==> s.permits[ch.thread] >= 1)
  }

  // The permits after a step from activity a to a': an acquire returns, or a release starts.
  function PermitsAfter(n: nat, a: Activity, a': Activity, m: nat): nat {
    if a.Inside? && a'.Outside? && a.call == Acquire(m) then n + 1
    else if a.Outside? && a'.Inside? && a'.call == Release(m) && n > 0 then n - 1
    else n
  }

  function ClientStep(s: Clients, m: nat, ch: Choice): Clients
    requires Allowed(s, m, ch)
  {
    var t := ch.thread;
    var sys' := Step(s.sys, t, ch.call);
    Clients(sys', if t < |sys'.at| then s.permits[t := PermitsAfter(s.permits[t], s.sys.at[t], sys'.at[t], m)] else s.permits)
  }

  // A choice that is not allowed is skipped.
  function RunClients(s: Clients, m: nat, choices: seq<Choice>): Clients {
    if choices == [] then s
    else
      var prev := RunClients(s, m, choices[..|choices| - 1]);
      var last := choices[|choices| - 1];
      if Allowed(prev, m, last) then ClientStep(prev, m, last) else prev
  }

  function Begin(threads: nat, counts: seq<int>): Clients {
    Clients(InitSys(threads, counts), seq(threads, _ => 0))
  }

  // What a thread has decremented the counter of m for and not yet incremented it for.
  function Owes(n: nat, a: Activity, m: nat): int {
    n + (if a.Inside? && ((a.call == Acquire(m) && Past(a)) || (a.call == Release(m) && !Past(a))) then 1 else 0)
  }

  function Debts(s: Clients, m: nat): seq<int>
    requires |s.permits| == |s.sys.at|
  {
    seq(|s.permits|, t requires 0 <= t < |s.permits| => Owes(s.permits[t], s.sys.at[t], m))
  }

  ghost predicate ClientInv(s: Clients, m: nat) {
    && SemInv(s.sys) && |s.permits| == |s.sys.at| && m < |s.sys.sems|
    && |s.sys.sems[m].arrivals| - s.sys.sems[m].releases == Sum(Debts(s, m))
  }

  lemma ClientStepKeepsInv(s: Clients, m: nat, ch: Choice)
    requires ClientInv(s, m) && Allowed(s, m, ch)
    ensures ClientInv(ClientStep(s, m, ch), m)
  {
    StepKeepsInv(s.sys, ch.thread, ch.call);
    StepEffect(s.sys, ch.thread, ch.call);
    EffectOnDebts(s, ClientStep(s, m, ch), m, ch);
  }

  lemma EffectOnDebts(s: Clients, s': Clients, m: nat, ch: Choice)
    requires |s.permits| == |s.sys.at| && m < |s.sys.sems| && Allowed(s, m, ch) && Effect(s.sys, s'.sys, ch.thread, ch.call)
    requires s'.permits == s.permits[ch.thread := PermitsAfter(s.permits[ch.thread], s.sys.at[ch.thread], s'.sys.at[ch.thread], m)]
    requires |s.sys.sems[m].arrivals| - s.sys.sems[m].releases == Sum(Debts(s, m))
    ensures |s'.permits| == |s'.sys.at| && m < |s'.sys.sems|
    ensures |s'.sys.sems[m].arrivals| - s'.sys.sems[m].releases == Sum(Debts(s', m))
  {
    assert SemEffect(s.sys.sems[m], s'.sys.sems[m], m, s.sys.at[ch.thread], s'.sys.at[ch.thread], ch.call);
    SumUpdate(Debts(s, m), Debts(s', m), ch.thread);
  }

  lemma {:induction false} RunKeepsClientInv(threads: nat, counts: seq<int>, m: nat, choices: seq<Choice>)
    requires Counts(counts) && m < |counts|
    ensures ClientInv(RunClients(Begin(threads, counts), m, choices), m)
    ensures RunClients(Begin(threads, counts), m, choices).sys.sems[m].initial == counts[m]
  {
    if choices == [] {
      InitInv(threads, counts);
      SumOfZeros(Debts(Begin(threads, counts), m));
    } else {
      var n := |choices| - 1;
      RunKeepsClientInv(threads, counts, m, choices[..n]);
      var prev := RunClients(Begin(threads, counts), m, choices[..n]);
      if Allowed(prev, m, choices[n]) {
        ClientStepKeepsInv(prev, m, choices[n]);
        InitialStays(prev.sys, choices[n].thread, choices[n].call, m);
      }
    }
  }

  lemma InitialStays(sys: Sys, t: nat, c: Call, m: nat)
    requires SemInv(sys) && Legal(sys, t, c) && m < |sys.sems|
    ensures |Step(sys, t, c).sems| == |sys.sems| && Step(sys, t, c).sems[m].initial == sys.sems[m].initial
  {
    StepEffect(sys, t, c);
    assert SemEffect(sys.sems[m], Step(sys, t, c).sems[m], m, sys.at[t], Step(sys, t, c).at[t], c);
  }

  // The threads in the queue of m have decremented its counter and hold no permit for that.
  lemma PermitsAtMostInitial(s: Clients, m: nat)
    requires ClientInv(s, m) && s.sys.sems[m].initial >= 0
    ensures Sum(s.permits) <= s.sys.sems[m].initial
  {
    var q := s.sys.sems[m].queue;
    var debts := Debts(s, m);
    var calls := seq(|debts|, t requires 0 <= t < |debts| => debts[t] - s.permits[t]);
    SumOfPointwise(s.permits, calls, debts);
    forall i | 0 <= i < |q| ensures q[i] < |calls| && calls[q[i]] >= 1 {
      assert q[i] in q && Sleeping(s.sys.at[q[i]], m);
    }
    DistinctAtMostSum(q, calls);
    assert CountOk(s.sys.sems[m]);
  }

  // In every run of such clients at most counts[m] permits of semaphore m are out, over all
  // threads; with an initial count of one, two threads that have one are the same thread.
  lemma AtMostCount(threads: nat, counts: seq<int>, m: nat, choices: seq<Choice>)
    requires Counts(counts) && m < |counts|
    ensures var s := RunClients(Begin(threads, counts), m, choices);
            && Sum(s.permits) <= counts[m]
            && (counts[m] == 1 ==> forall t: nat, u: nat :: t < |s.permits| && u < |s.permits| && s.permits[t] > 0 && s.permits[u] > 0 ==> t == u)
  {
    RunKeepsClientInv(threads, counts, m, choices);
    var s := RunClients(Begin(threads, counts), m, choices);
    PermitsAtMostInitial(s, m);
    forall t: nat, u: nat | t < u < |s.permits| && s.permits[t] > 0 && s.permits[u] > 0 ensures Sum(s.permits) >= 2 {
      DistinctAtMostSum([t, u], s.permits);
    }
  }
}
