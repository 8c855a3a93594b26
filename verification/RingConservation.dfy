/**
 Nothing is lost or duplicated between the producers and the consumer: when a run is over,
 the producers' counters of every value add up to the consumer's counter of that value.
 */
module RingConservation {
  import opened Sums
  import opened RingProtocol
  import opened RingProgress

  // Occurrences of v the producer has written: counted rounds plus the value in hand.
  function WroteW(cfg: Config, w: Worker, t: nat, v: int): nat {
    if t < Consumer(cfg) then w.tally[v] + B(w.op > 2 && w.value == v) else 0
  }

  function WroteWs(cfg: Config, s: State, v: int): seq<int>
    requires Shape(cfg, s)
  {
    seq(Consumer(cfg) + 1, t requires 0 <= t <= Consumer(cfg) => WroteW(cfg, s.workers[t], t, v))
  }

  predicate ValueOk(cfg: Config, s: State, v: int)
    requires Shape(cfg, s)
  {
    multiset(s.written)[v] == Sum(WroteWs(cfg, s, v)) && TakenOk(cfg, s, v)
  }

  predicate TakenOk(cfg: Config, s: State, v: int)
    requires Shape(cfg, s)
  {
    var c := s.workers[Consumer(cfg)];
    multiset(s.taken)[v] == c.tally[v] + B(c.op > 2 && c.value == v)
  }

  // The counters of a producer count the values it was given so far.
  predicate ProducerOk(cfg: Config, s: State, p: nat)
    requires Shape(cfg, s) && p < Consumer(cfg)
  {
    var w := s.workers[p];
    assert WorkerShape(cfg, s, p);
    && w.tally == multiset(cfg.input[p][..w.round])
    && (w.op > 2 ==> w.value == cfg.input[p][w.round])
  }

  ghost predicate TallyOk(cfg: Config, s: State)
    requires Shape(cfg, s)
  {
    && (forall v :: ValueOk(cfg, s, v))
    && (forall p :: 0 <= p < Consumer(cfg) ==> ProducerOk(cfg, s, p))
  }

  lemma ValueStep(cfg: Config, s: State, t: nat, v: int)
    requires Inv(cfg, s) && t <= Consumer(cfg) && ValueOk(cfg, s, v)
    requires Shape(cfg, Next(cfg, s, t))
    ensures ValueOk(cfg, Next(cfg, s, t), v)
  {
    WrittenStep(cfg, s, t, v);
    TakenStep(cfg, s, t, v);
  }

  lemma WrittenStep(cfg: Config, s: State, t: nat, v: int)
    requires Inv(cfg, s) && t <= Consumer(cfg) && ValueOk(cfg, s, v)
    requires Shape(cfg, Next(cfg, s, t))
    ensures multiset(Next(cfg, s, t).written)[v] == Sum(WroteWs(cfg, Next(cfg, s, t), v))
  {
    var s' := Next(cfg, s, t);
    assert WorkerShape(cfg, s, t);
    OthersUnchanged(cfg, s, t);
    SumUpdate(WroteWs(cfg, s, v), WroteWs(cfg, s', v), t);
    if !Done(cfg, s, t) && IsCall(s.workers[t].op) { CallEffect(cfg, s, t); }
  }

  lemma TakenStep(cfg: Config, s: State, t: nat, v: int)
    requires Inv(cfg, s) && t <= Consumer(cfg) && TakenOk(cfg, s, v)
    requires Shape(cfg, Next(cfg, s, t))
    ensures TakenOk(cfg, Next(cfg, s, t), v)
  {
    assert WorkerShape(cfg, s, t);
    OthersUnchanged(cfg, s, t);
    if !Done(cfg, s, t) && IsCall(s.workers[t].op) { CallEffect(cfg, s, t); }
  }

  lemma ProducerStep(cfg: Config, s: State, t: nat, p: nat)
    requires Inv(cfg, s) && t <= Consumer(cfg) && p < Consumer(cfg) && ProducerOk(cfg, s, p)
    requires Shape(cfg, Next(cfg, s, t))
    ensures ProducerOk(cfg, Next(cfg, s, t), p)
  {
    assert WorkerShape(cfg, s, p);
    OthersUnchanged(cfg, s, t);
    if p == t && !Done(cfg, s, t) {
      var w := s.workers[t];
      if IsCall(w.op) { CallEffect(cfg, s, t); }
      assert cfg.input[p][..w.round + 1] == cfg.input[p][..w.round] + [cfg.input[p][w.round]];
    }
  }

  lemma {:induction false} RunTally(cfg: Config, choices: seq<nat>)
    requires ValidConfig(cfg)
    ensures Inv(cfg, Run(cfg, choices)) && TallyOk(cfg, Run(cfg, choices))
  {
    RunInvariant(cfg, choices);
    if choices == [] {
      var s := Run(cfg, choices);
      forall v ensures ValueOk(cfg, s, v) { SumOfZeros(WroteWs(cfg, s, v)); }
      forall p | 0 <= p < Consumer(cfg) ensures ProducerOk(cfg, s, p) {}
    } else {
      var n := |choices| - 1;
      var t := choices[n];
      RunTally(cfg, choices[..n]);
      var s := Run(cfg, choices[..n]);
      if t <= Consumer(cfg) {
        forall v ensures ValueOk(cfg, Next(cfg, s, t), v) { ValueStep(cfg, s, t, v); }
        forall p | 0 <= p < Consumer(cfg) ensures ProducerOk(cfg, Next(cfg, s, t), p) { ProducerStep(cfg, s, t, p); }
      }
    }
  }

  // The producers' counters of value v.
  function Generated(cfg: Config, s: State, v: int): seq<int>
    requires Shape(cfg, s)
  {
    seq(Consumer(cfg), p requires 0 <= p < Consumer(cfg) => s.workers[p].tally[v])
  }

  lemma FinishedTaken(cfg: Config, s: State)
    requires Inv(cfg, s) && Finished(cfg, s)
    ensures s.taken == s.written
    ensures forall t :: 0 <= t <= Consumer(cfg) ==> s.workers[t].op == 0
  {
    forall t | 0 <= t <= Consumer(cfg) ensures s.workers[t].op == 0 { assert Done(cfg, s, t) && WorkerShape(cfg, s, t); }
    WritesReachTotal(cfg, s);
    assert Done(cfg, s, Consumer(cfg));
    assert |s.written| == Total(cfg.input);
  }

  lemma FinishedCounts(cfg: Config, s: State, v: int)
    requires Inv(cfg, s) && Finished(cfg, s) && ValueOk(cfg, s, v)
    ensures Sum(Generated(cfg, s, v)) == s.workers[Consumer(cfg)].tally[v]
  {
    FinishedTaken(cfg, s);
    assert WroteWs(cfg, s, v)[..Consumer(cfg)] == Generated(cfg, s, v);
  }

  lemma FinishedProducer(cfg: Config, s: State, p: nat)
    requires Shape(cfg, s) && Finished(cfg, s) && p < Consumer(cfg) && ProducerOk(cfg, s, p)
    ensures s.workers[p].tally == multiset(cfg.input[p])
  {
    assert Done(cfg, s, p);
    assert cfg.input[p][..s.workers[p].round] == cfg.input[p];
  }

  // When a run is over, everything written has been taken, every producer has counted exactly
  // its own values, and for every value the generated and the counted numbers agree.
  lemma FinishedRunsAgree(cfg: Config, choices: seq<nat>, v: int)
    requires ValidConfig(cfg)
    requires Shape(cfg, Run(cfg, choices)) && Finished(cfg, Run(cfg, choices))
    ensures var s := Run(cfg, choices);
            && s.taken == s.written
            && Sum(Generated(cfg, s, v)) == s.workers[Consumer(cfg)].tally[v]
            && forall p :: 0 <= p < Consumer(cfg) ==> s.workers[p].tally == multiset(cfg.input[p])
  {
    RunTally(cfg, choices);
    var s := Run(cfg, choices);
    assert ValueOk(cfg, s, v);
    FinishedTaken(cfg, s);
    FinishedCounts(cfg, s, v);
    forall p | 0 <= p < Consumer(cfg) ensures s.workers[p].tally == multiset(cfg.input[p]) {
      assert ProducerOk(cfg, s, p);
      FinishedProducer(cfg, s, p);
    }
  }

  // The values the framework allows; both ends of the buffer check this range.
  const MIN_VALUE := 0
  const MAX_VALUE := 128

  predicate InRange(xs: seq<int>) {
    forall i :: 0 <= i < |xs| ==> MIN_VALUE <= xs[i] < MAX_VALUE
  }

  // When the producers only generate allowed values, the consumer only ever takes such values.
  lemma {:induction false} TakenInRange(cfg: Config, choices: seq<nat>)
    requires ValidConfig(cfg)
    requires forall p :: 0 <= p < |cfg.input| ==> InRange(cfg.input[p])
    ensures InRange(Run(cfg, choices).written) && InRange(Run(cfg, choices).taken)
  {
    RunInvariant(cfg, choices);
    if choices != [] {
      var n := |choices| - 1;
      TakenInRange(cfg, choices[..n]);
      RunInvariant(cfg, choices[..n]);
      var s := Run(cfg, choices[..n]);
      if choices[n] <= Consumer(cfg) { assert WorkerShape(cfg, s, choices[n]); }
      assert InRange(Run(cfg, choices).written);
    }
  }

  // The request total of the consumer is the product the framework computes when every
  // producer puts the same number of values.
  lemma {:induction false} TotalOfEqualRounds(input: seq<seq<int>>, rounds: nat)
    requires forall p :: 0 <= p < |input| ==> |input[p]| == rounds
    ensures Total(input) == rounds * |input|
  {
    if input != [] {
      var n := |input| - 1;
      TotalOfEqualRounds(input[..n], rounds);
      assert rounds * |input| == rounds * n + rounds;
    }
  }
}
