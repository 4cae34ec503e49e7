/// The reflector: bounded queues that behave like the unbounded ones they stand for.
module Reflector {
  import opened Core
  import opened RealMath
  import opened Predict

  datatype ReflectEntry = ReflectEntry(prediction: PredictionRecord, evaluation: Option<seq<Evaluation>>)

  datatype Calibration = Calibration(
    meanEnergyAbsError: real,
    energyN: nat,
    threatHitRate: real,
    threatN: nat,
    peerHitRate: real,
    peerN: nat)

  /// What a reflector remembers.
  datatype Memory = Memory(history: seq<ReflectSample>, pending: seq<PredictionRecord>, audit: seq<ReflectEntry>)

  const BLANK_MEMORY: Memory := Memory([], [], [])

  function Cap(window: nat, horizon: nat): nat {
    window + horizon + 4
  }

  /// Predictions at the front of the queue whose target has been reached; the scan stops at
  /// the first one that is not due.
  function DueCount(pending: seq<PredictionRecord>, cycle: nat): (n: nat)
    ensures n <= |pending|
    ensures forall i :: 0 <= i < n ==> pending[i].targetCycle <= cycle
    ensures n < |pending| ==> pending[n].targetCycle > cycle
  {
    if pending == [] || pending[0].targetCycle > cycle then 0
    else 1 + DueCount(pending[1..], cycle)
  }

  /// Audit entries for predictions resolved against `sample`; one with nothing to score leaves none.
  function Resolved(due: seq<PredictionRecord>, sample: ReflectSample): seq<ReflectEntry> {
    if due == [] then []
    else
      var last := due[|due| - 1];
      var evals := ScoreAll(last.predictions, sample);
      Resolved(due[..|due| - 1], sample) + (if evals == [] then [] else [ReflectEntry(last, Some(evals))])
  }

  function ResolvedScores(due: seq<PredictionRecord>, sample: ReflectSample): seq<Evaluation> {
    if due == [] then []
    else ResolvedScores(due[..|due| - 1], sample) + ScoreAll(due[|due| - 1].predictions, sample)
  }

  function Remember(m: Memory, window: nat, horizon: nat, sample: ReflectSample): Memory {
    var n := DueCount(m.pending, sample.cycle);
    var history := LastN(m.history + [sample], Cap(window, horizon));
    Memory(
      history,
      LastN(m.pending[n..] + [Forecast(history, sample, window, horizon)], Cap(window, horizon)),
      m.audit + Resolved(m.pending[..n], sample))
  }

  /// Drop elements from the front until at most `cap` are left.
  method Evict<T>(queue: seq<T>, cap: nat) returns (kept: seq<T>)
    ensures kept == LastN(queue, cap)
  {
    kept := queue;
    while |kept| > cap
      invariant LastN(kept, cap) == LastN(queue, cap)
      invariant |kept| >= cap || kept == queue
    {
      kept := kept[1..];
    }
  }

  class Reflector {
    const window: nat
    const horizon: nat
    var history: seq<ReflectSample>
    var pending: seq<PredictionRecord>
    var audit: seq<ReflectEntry>

    function View(): Memory
      reads this
    {
      Memory(history, pending, audit)
    }

    constructor (window: nat, horizon: nat)
      ensures this.window == if window == 0 then 1 else window
      ensures this.horizon == if horizon == 0 then 1 else horizon
      ensures View() == BLANK_MEMORY
    {
      this.window := if window == 0 then 1 else window;
      this.horizon := if horizon == 0 then 1 else horizon;
      history, pending, audit := [], [], [];
    }

    /// Feed one cycle's sample: resolve what is due, record the sample, predict afresh.
    method Tick(sample: ReflectSample) returns (prediction: PredictionRecord, evaluations: seq<Evaluation>)
      modifies this
      ensures View() == Remember(old(View()), window, horizon, sample)
      ensures prediction == Forecast(history, sample, window, horizon)
      ensures evaluations == ResolvedScores(old(pending)[..DueCount(old(pending), sample.cycle)], sample)
    {
      hide Forecast, Resolved, ResolvedScores, DueCount;
      var cap := window + horizon + 4;
      evaluations := ResolveDue(sample);
      history := Evict(history + [sample], cap);
      prediction := PredictAll(history, sample, window, horizon);
      pending := Evict(pending + [prediction], cap);
    }

    /// Pop predictions off the front while they are due, scoring each against `sample`.
    method ResolveDue(sample: ReflectSample) returns (evaluations: seq<Evaluation>)
      modifies this`pending, this`audit
      ensures var n := DueCount(old(pending), sample.cycle);
        && pending == old(pending)[n..]
        && audit == old(audit) + Resolved(old(pending)[..n], sample)
        && evaluations == ResolvedScores(old(pending)[..n], sample)
    {
      hide Resolved, ResolvedScores, ScoreAll, DueCount;
      evaluations := [];
      ghost var start, n := pending, 0;
      NoneResolved(sample);
      while pending != [] && pending[0].targetCycle <= sample.cycle
        invariant n <= |start| && pending == start[n..]
        invariant forall i :: 0 <= i < n ==> start[i].targetCycle <= sample.cycle
        invariant audit == old(audit) + Resolved(start[..n], sample)
        invariant evaluations == ResolvedScores(start[..n], sample)
        decreases |pending|
      {
        var pred := pending[0];
        pending := pending[1..];
        var evals := EvaluateSample(pred, sample);
        ResolvedOneMore(start, n, sample);
        n := n + 1;
        if evals != [] {
          audit := audit + [ReflectEntry(pred, Some(evals))];
          evaluations := evaluations + evals;
        }
      }
      DueIs(start, sample.cycle, n);
    }

    /// Accuracy over everything resolved so far.
    method Calibrate() returns (c: Calibration)
      ensures c == Summary(Scores(audit))
    {
      hide Counted, Summary, Scores, Abs, Rate, Mean;
      var error, energyN, threatHits, threatN, peerHits, peerN := 0.0, 0, 0, 0, 0, 0;
      var entries := audit;
      NothingCounted();
      for i := 0 to |entries|
        invariant Counted(Scores(entries[..i]), error, energyN, threatHits, threatN, peerHits, peerN)
      {
        ScoresStep(entries, i);
        if entries[i].evaluation.Some? {
          var evals := entries[i].evaluation.value;
          ghost var before := Scores(entries[..i]);
          assert before + evals[..0] == before;
          for j := 0 to |evals|
            invariant Counted(before + evals[..j], error, energyN, threatHits, threatN, peerHits, peerN)
          {
            CountNext(before, evals, j, error, energyN, threatHits, threatN, peerHits, peerN);
            match evals[j].kind {
              case EnergyValue =>
                error, energyN := error + Abs(evals[j].error), energyN + 1;
              case ThreatLikelihood =>
                threatN := threatN + 1;
                if evals[j].hit { threatHits := threatHits + 1; }
              case PeerOutcome =>
                peerN := peerN + 1;
                if evals[j].hit { peerHits := peerHits + 1; }
            }
          }
          assert evals[..|evals|] == evals;
        }
      }
      assert entries[..|entries|] == entries;
      CountedIsSummary(Scores(entries), error, energyN, threatHits, threatN, peerHits, peerN);
      c := Calibration(
        Mean(error, energyN), energyN,
        Rate(threatHits, threatN), threatN,
        Rate(peerHits, peerN), peerN);
    }
  }

  lemma {:induction false} NoneResolved(sample: ReflectSample)
    ensures Resolved([], sample) == [] && ResolvedScores([], sample) == []
  {
  }

  lemma {:induction false} ResolvedOneMore(pending: seq<PredictionRecord>, n: nat, sample: ReflectSample)
    requires n < |pending|
    ensures var evals := ScoreAll(pending[n].predictions, sample);
      && Resolved(pending[..n + 1], sample)
         == Resolved(pending[..n], sample) + (if evals == [] then [] else [ReflectEntry(pending[n], Some(evals))])
      && ResolvedScores(pending[..n + 1], sample) == ResolvedScores(pending[..n], sample) + evals
  {
    assert pending[..n + 1][..n] == pending[..n];
    hide ScoreAll;
  }

  lemma {:induction false} DueIs(pending: seq<PredictionRecord>, cycle: nat, n: nat)
    requires n <= |pending|
    requires forall i :: 0 <= i < n ==> pending[i].targetCycle <= cycle
    requires n < |pending| ==> pending[n].targetCycle > cycle
    ensures DueCount(pending, cycle) == n
  {
    if n > 0 {
      DueIs(pending[1..], cycle, n - 1);
    }
  }

  // ----- calibration -----

  /// All evaluations in the audit log, oldest first.
  function Scores(audit: seq<ReflectEntry>): seq<Evaluation> {
    if audit == [] then []
    else
      Scores(audit[..|audit| - 1])
      + (match audit[|audit| - 1].evaluation case Some(evals) => evals case None => [])
  }

  function KindCount(evals: seq<Evaluation>, kind: PredictedValue): nat {
    if evals == [] then 0
    else KindCount(evals[..|evals| - 1], kind) + (if evals[|evals| - 1].kind == kind then 1 else 0)
  }

  function HitCount(evals: seq<Evaluation>, kind: PredictedValue): nat {
    if evals == [] then 0
    else
      HitCount(evals[..|evals| - 1], kind)
      + (if evals[|evals| - 1].kind == kind && evals[|evals| - 1].hit then 1 else 0)
  }

  function EnergyError(evals: seq<Evaluation>): real {
    if evals == [] then 0.0
    else
      EnergyError(evals[..|evals| - 1])
      + (if evals[|evals| - 1].kind.EnergyValue? then Abs(evals[|evals| - 1].error) else 0.0)
  }

  ghost predicate Counted(evals: seq<Evaluation>, error: real, energyN: nat, threatHits: nat, threatN: nat, peerHits: nat, peerN: nat) {
    && error == EnergyError(evals) && energyN == KindCount(evals, EnergyValue)
    && threatHits == HitCount(evals, ThreatLikelihood) && threatN == KindCount(evals, ThreatLikelihood)
    && peerHits == HitCount(evals, PeerOutcome) && peerN == KindCount(evals, PeerOutcome)
  }

  lemma {:induction false} NothingCounted()
    ensures Counted(Scores([]), 0.0, 0, 0, 0, 0, 0)
  {
  }

  lemma {:induction false} ScoresStep(audit: seq<ReflectEntry>, i: nat)
    requires i < |audit|
    ensures Scores(audit[..i + 1])
         == if audit[i].evaluation.Some? then Scores(audit[..i]) + audit[i].evaluation.value else Scores(audit[..i])
  {
    assert audit[..i + 1][..i] == audit[..i];
  }

  lemma {:induction false} CountNext(before: seq<Evaluation>, evals: seq<Evaluation>, j: nat,
      error: real, energyN: nat, threatHits: nat, threatN: nat, peerHits: nat, peerN: nat)
    requires j < |evals|
    requires Counted(before + evals[..j], error, energyN, threatHits, threatN, peerHits, peerN)
    ensures var e, next := evals[j], before + evals[..j + 1];
      match e.kind
      case EnergyValue => Counted(next, error + Abs(e.error), energyN + 1, threatHits, threatN, peerHits, peerN)
      case ThreatLikelihood =>
        Counted(next, error, energyN, if e.hit then threatHits + 1 else threatHits, threatN + 1, peerHits, peerN)
      case PeerOutcome =>
        Counted(next, error, energyN, threatHits, threatN, if e.hit then peerHits + 1 else peerHits, peerN + 1)
  {
    hide Abs;
    var next := before + evals[..j + 1];
    assert next[..|next| - 1] == before + evals[..j];
  }

  function Rate(hits: nat, n: nat): real {
    if n > 0 then hits as real / n as real else 0.0
  }

  function Mean(total: real, n: nat): real {
    if n > 0 then total / n as real else 0.0
  }

  function Summary(evals: seq<Evaluation>): Calibration {
    Calibration(
      Mean(EnergyError(evals), KindCount(evals, EnergyValue)), KindCount(evals, EnergyValue),
      Rate(HitCount(evals, ThreatLikelihood), KindCount(evals, ThreatLikelihood)), KindCount(evals, ThreatLikelihood),
      Rate(HitCount(evals, PeerOutcome), KindCount(evals, PeerOutcome)), KindCount(evals, PeerOutcome))
  }

  lemma {:induction false} CountedIsSummary(evals: seq<Evaluation>, error: real, energyN: nat, threatHits: nat, threatN: nat, peerHits: nat, peerN: nat)
    requires Counted(evals, error, energyN, threatHits, threatN, peerHits, peerN)
    ensures Summary(evals)
         == Calibration(Mean(error, energyN), energyN,
                        Rate(threatHits, threatN), threatN, Rate(peerHits, peerN), peerN)
  {
  }

  /// Where in the list a kind is scored, and where it is a hit.
  function ScoredAt(evals: seq<Evaluation>, kind: PredictedValue): set<nat> {
    set i: nat | i < |evals| && evals[i].kind == kind
  }

  function HitAt(evals: seq<Evaluation>, kind: PredictedValue): set<nat> {
    set i: nat | i < |evals| && evals[i].kind == kind && evals[i].hit
  }

  lemma {:induction false} KindCardinality(evals: seq<Evaluation>, kind: PredictedValue)
    ensures KindCount(evals, kind) == |ScoredAt(evals, kind)|
  {
    if evals != [] {
      var n := |evals| - 1;
      var init := evals[..n];
      KindCardinality(init, kind);
      hide KindCount;
      assert n !in ScoredAt(init, kind);
      assert ScoredAt(evals, kind) == if evals[n].kind == kind then ScoredAt(init, kind) + {n} else ScoredAt(init, kind);
    }
  }

  lemma {:induction false} HitCardinality(evals: seq<Evaluation>, kind: PredictedValue)
    ensures HitCount(evals, kind) == |HitAt(evals, kind)|
  {
    if evals != [] {
      var n := |evals| - 1;
      var init := evals[..n];
      HitCardinality(init, kind);
      assert HitCount(evals, kind) == HitCount(init, kind) + (if evals[n].kind == kind && evals[n].hit then 1 else 0);
      hide HitCount;
      assert n !in HitAt(init, kind);
      assert HitAt(evals, kind) == if evals[n].kind == kind && evals[n].hit then HitAt(init, kind) + {n} else HitAt(init, kind);
    }
  }

  lemma {:induction false} HitsAreScored(evals: seq<Evaluation>, kind: PredictedValue)
    ensures HitCount(evals, kind) <= KindCount(evals, kind)
  {
    if evals != [] {
      HitsAreScored(evals[..|evals| - 1], kind);
    }
  }

  /// How far off the i-th evaluation was.
  ghost function MissAt(evals: seq<Evaluation>): nat -> real {
    (i: nat) => if i < |evals| then Abs(evals[i].error) else 0.0
  }

  lemma {:induction false} ErrorIsSum(evals: seq<Evaluation>)
    ensures EnergyError(evals) == SumOver(ScoredAt(evals, EnergyValue), MissAt(evals))
  {
    if evals == [] {
      assert ScoredAt(evals, EnergyValue) == {};
      SumOverEmpty(MissAt(evals));
    } else {
      ErrorIsSum(evals[..|evals| - 1]);
      var all := EnergyError(evals);
      assert all == EnergyError(evals[..|evals| - 1])
        + (if evals[|evals| - 1].kind.EnergyValue? then Abs(evals[|evals| - 1].error) else 0.0);
      hide EnergyError;
      OneMoreMiss(evals, |evals| - 1);
    }
  }

  lemma {:induction false} OneMoreMiss(evals: seq<Evaluation>, n: nat)
    requires |evals| == n + 1
    ensures SumOver(ScoredAt(evals, EnergyValue), MissAt(evals))
         == SumOver(ScoredAt(evals[..n], EnergyValue), MissAt(evals[..n]))
            + (if evals[n].kind.EnergyValue? then Abs(evals[n].error) else 0.0)
  {
    hide Abs;
    var before := ScoredAt(evals[..n], EnergyValue);
    SumOverCongruent(before, MissAt(evals), MissAt(evals[..n]));
    if evals[n].kind.EnergyValue? {
      assert ScoredAt(evals, EnergyValue) == before + {n};
      SumOverAdd(before, MissAt(evals), n);
    } else {
      assert ScoredAt(evals, EnergyValue) == before;
    }
  }

  lemma {:induction false} RateIsShare(hits: nat, n: nat)
    requires hits <= n
    ensures Rate(hits, n) * n as real == hits as real
    ensures 0.0 <= Rate(hits, n) <= 1.0
    ensures n == 0 ==> Rate(hits, n) == 0.0
  {
    if n > 0 {
      Share(hits, n, hits as real / n as real);
    }
  }

  /// Calibration is the share of hits among the threat and peer calls, and the mean distance of
  /// the energy calls from the truth; zero where there was nothing to score.
  lemma {:induction false} CalibrationMeans(evals: seq<Evaluation>)
    ensures var c := Summary(evals);
      && c.energyN == |ScoredAt(evals, EnergyValue)|
      && c.threatN == |ScoredAt(evals, ThreatLikelihood)|
      && c.peerN == |ScoredAt(evals, PeerOutcome)|
      && c.threatHitRate * c.threatN as real == |HitAt(evals, ThreatLikelihood)| as real
      && c.peerHitRate * c.peerN as real == |HitAt(evals, PeerOutcome)| as real
      && c.meanEnergyAbsError * c.energyN as real == SumOver(ScoredAt(evals, EnergyValue), MissAt(evals))
      && (c.energyN == 0 ==> c.meanEnergyAbsError == 0.0)
      && (c.threatN == 0 ==> c.threatHitRate == 0.0)
      && (c.peerN == 0 ==> c.peerHitRate == 0.0)
      && 0.0 <= c.threatHitRate <= 1.0 && 0.0 <= c.peerHitRate <= 1.0
  {
    hide ScoredAt, HitAt, MissAt, KindCount, HitCount, EnergyError, Rate, SumOver, Mean;
    KindCardinality(evals, EnergyValue);
    KindCardinality(evals, ThreatLikelihood);
    KindCardinality(evals, PeerOutcome);
    HitCardinality(evals, ThreatLikelihood);
    HitCardinality(evals, PeerOutcome);
    HitsAreScored(evals, ThreatLikelihood);
    HitsAreScored(evals, PeerOutcome);
    RateIsShare(HitCount(evals, ThreatLikelihood), KindCount(evals, ThreatLikelihood));
    RateIsShare(HitCount(evals, PeerOutcome), KindCount(evals, PeerOutcome));
    ErrorIsSum(evals);
    NoError(evals);
    MeanIs(EnergyError(evals), KindCount(evals, EnergyValue));
  }

  lemma {:induction false} NoError(evals: seq<Evaluation>)
    ensures KindCount(evals, EnergyValue) == 0 ==> EnergyError(evals) == 0.0
  {
    if evals != [] {
      NoError(evals[..|evals| - 1]);
    }
  }

  lemma {:induction false} MeanIs(total: real, n: nat)
    requires n == 0 ==> total == 0.0
    ensures Mean(total, n) * n as real == total
    ensures n == 0 ==> Mean(total, n) == 0.0
  {
  }

  /// Calibration reads every entry of the log, in order, and what a tick returns is what it logs.
  lemma {:induction false} TickReturnsWhatItAudits(audit: seq<ReflectEntry>, due: seq<PredictionRecord>, sample: ReflectSample)
    ensures Scores(audit + Resolved(due, sample)) == Scores(audit) + ResolvedScores(due, sample)
  {
    hide ScoreAll;
    if due == [] {
      assert audit + [] == audit;
    } else {
      var last := due[|due| - 1];
      var evals := ScoreAll(last.predictions, sample);
      var before := Resolved(due[..|due| - 1], sample);
      TickReturnsWhatItAudits(audit, due[..|due| - 1], sample);
      assert before + [] == before;
      assert Resolved(due, sample) == if evals == [] then before else before + [ReflectEntry(last, Some(evals))];
      hide Resolved;
      if evals != [] {
        var longer := audit + before + [ReflectEntry(last, Some(evals))];
        assert longer[..|longer| - 1] == audit + before;
        assert longer == audit + (before + [ReflectEntry(last, Some(evals))]);
      }
    }
  }

  /// An entry holds a prediction that was due and its scores, of which there are some.
  lemma {:induction false} EntriesHoldScores(due: seq<PredictionRecord>, sample: ReflectSample)
    ensures forall i :: 0 <= i < |Resolved(due, sample)| ==>
      var entry := Resolved(due, sample)[i];
      && entry.prediction in due
      && entry.evaluation == Some(ScoreAll(entry.prediction.predictions, sample))
      && entry.evaluation.value != []
  {
    hide ScoreAll;
    if due != [] {
      EntriesHoldScores(due[..|due| - 1], sample);
    }
  }

  // ----- no prediction lost -----

  /// The reflector's memory after a whole log of samples.
  function After(log: seq<ReflectSample>, window: nat, horizon: nat): Memory {
    if log == [] then BLANK_MEMORY
    else Remember(After(log[..|log| - 1], window, horizon), window, horizon, log[|log| - 1])
  }

  ghost predicate Ticking(log: seq<ReflectSample>) {
    forall i, j :: 0 <= i < j < |log| ==> log[i].cycle < log[j].cycle
  }

  /// The prediction made at the i-th sample, from the whole log up to then.
  function MadeAt(log: seq<ReflectSample>, i: nat, window: nat, horizon: nat): PredictionRecord
    requires i < |log|
  {
    Forecast(log[..i + 1], log[i], window, horizon)
  }

  /// `j` is the first sample whose cycle reaches `target`.
  predicate FirstReaching(log: seq<ReflectSample>, target: nat, j: nat) {
    j < |log| && log[j].cycle >= target && forall k :: 0 <= k < j ==> log[k].cycle < target
  }

  /// Entry `i` is the i-th prediction, scored once, at the first sample that reached its target.
  ghost predicate ResolvedOnTime(log: seq<ReflectSample>, i: nat, entry: ReflectEntry, window: nat, horizon: nat)
    requires i < |log|
  {
    exists j: nat :: FirstReaching(log, log[i].cycle + horizon, j)
      && entry == ReflectEntry(MadeAt(log, i, window, horizon),
                               Some(ScoreAll(MadeAt(log, i, window, horizon).predictions, log[j])))
  }

  /// The audit is the oldest predictions in order, each resolved on time.
  ghost predicate AuditOnTime(audit: seq<ReflectEntry>, log: seq<ReflectSample>, window: nat, horizon: nat) {
    && |audit| <= |log|
    && forall i :: 0 <= i < |audit| ==> ResolvedOnTime(log, i, audit[i], window, horizon)
  }

  /// The queue is every later prediction in order, none of them due.
  ghost predicate QueueOpen(pending: seq<PredictionRecord>, from: nat, log: seq<ReflectSample>, window: nat, horizon: nat) {
    && from + |pending| == |log|
    && forall k :: 0 <= k < |pending| ==>
         && pending[k] == MadeAt(log, from + k, window, horizon)
         && pending[k].targetCycle > log[|log| - 1].cycle
  }

  /// The bounded memory is exactly what an unbounded one would hold: the audit is every due
  /// prediction in order, the queue every other one, and nothing has been evicted.
  ghost predicate Faithful(m: Memory, log: seq<ReflectSample>, window: nat, horizon: nat) {
    && m.history == LastN(log, Cap(window, horizon))
    && |m.pending| <= horizon
    && AuditOnTime(m.audit, log, window, horizon)
    && QueueOpen(m.pending, |m.audit|, log, window, horizon)
  }

  /// A forecast from a non-empty history predicts energy first, then threats, then peers only.
  lemma {:induction false} ForecastShape(history: seq<ReflectSample>, sample: ReflectSample, window: nat, horizon: nat)
    requires history != [] && window > 0
    ensures var ps := Forecast(history, sample, window, horizon).predictions;
      && |ps| == 2 + |sample.peers|
      && ps[0].kind == EnergyValue && ps[1].kind == ThreatLikelihood
      && forall i :: 2 <= i < |ps| ==> ps[i].kind == PeerOutcome
  {
    PeersOnly(history, sample, sample.peers, window, horizon);
    hide EnergyPrediction, ThreatPrediction, PeerPredictions;
    var ps := Forecast(history, sample, window, horizon).predictions;
    FirstTwo(history, window, horizon);
  }

  lemma {:induction false} FirstTwo(history: seq<ReflectSample>, window: nat, horizon: nat)
    requires history != [] && window > 0
    ensures EnergyPrediction(history, window, horizon).Some?
    ensures EnergyPrediction(history, window, horizon).value.kind == EnergyValue
    ensures ThreatPrediction(history, window, horizon).Some?
    ensures ThreatPrediction(history, window, horizon).value.kind == ThreatLikelihood
  {
  }

  lemma {:induction false} PeersOnly(history: seq<ReflectSample>, sample: ReflectSample, peers: seq<PeerSample>, window: nat, horizon: nat)
    ensures |PeerPredictions(history, sample, peers, window, horizon)| == |peers|
    ensures forall i :: 0 <= i < |peers| ==> PeerPredictions(history, sample, peers, window, horizon)[i].kind == PeerOutcome
  {
    if peers != [] {
      PeersOnly(history, sample, peers[..|peers| - 1], window, horizon);
    }
  }

  lemma {:induction false} CountConcat(a: seq<Evaluation>, b: seq<Evaluation>, kind: PredictedValue)
    ensures KindCount(a + b, kind) == KindCount(a, kind) + KindCount(b, kind)
  {
    if b == [] {
      assert a + b == a;
    } else {
      CountConcat(a, b[..|b| - 1], kind);
      assert (a + b)[..|a + b| - 1] == a + b[..|b| - 1];
    }
  }

  /// Energy and threat predictions always score, once each; peers add no such entries.
  lemma {:induction false} ScoreCounts(ps: seq<Prediction>, sample: ReflectSample)
    requires |ps| >= 2 && ps[0].kind == EnergyValue && ps[1].kind == ThreatLikelihood
    requires forall i :: 2 <= i < |ps| ==> ps[i].kind == PeerOutcome
    ensures KindCount(ScoreAll(ps, sample), EnergyValue) == 1
    ensures KindCount(ScoreAll(ps, sample), ThreatLikelihood) == 1
    ensures ScoreAll(ps, sample) != []
  {
    hide Scored, KindCount;
    var init, last := ps[..|ps| - 1], ps[|ps| - 1];
    CountConcat(ScoreAll(init, sample), Scored(last, sample), EnergyValue);
    CountConcat(ScoreAll(init, sample), Scored(last, sample), ThreatLikelihood);
    ScoredKind(last, sample);
    if |ps| == 2 {
      OneScore(init, sample);
      ScoredKind(ps[0], sample);
    } else {
      ScoreCounts(init, sample);
    }
  }

  lemma {:induction false} OneScore(ps: seq<Prediction>, sample: ReflectSample)
    requires |ps| == 1
    ensures ScoreAll(ps, sample) == Scored(ps[0], sample)
  {
    hide Scored;
    assert ps[..0] == [];
    assert ScoreAll(ps, sample) == [] + Scored(ps[0], sample);
  }

  lemma {:induction false} ScoredKind(p: Prediction, sample: ReflectSample)
    ensures forall k :: KindCount(Scored(p, sample), k) == (if p.kind == k then |Scored(p, sample)| else 0)
    ensures p.kind != PeerOutcome ==> |Scored(p, sample)| == 1
  {
    hide EvaluatePrediction, KindCount, FindOutcome;
    var es := Scored(p, sample);
    KeepsKind(p);
    if |es| > 0 {
      SingleCount(es[0]);
      assert es == [es[0]];
    } else {
      NoCount();
    }
  }

  lemma {:induction false} KeepsKind(p: Prediction)
    ensures forall actual :: EvaluatePrediction(p, actual).kind == p.kind
  {
    hide BandOf;
  }

  lemma {:induction false} SingleCount(e: Evaluation)
    ensures forall k :: KindCount([e], k) == if e.kind == k then 1 else 0
  {
    assert [e][..0] == [];
  }

  lemma {:induction false} NoCount()
    ensures forall k :: KindCount([], k) == 0
  {
  }

  lemma {:induction false} ResolvedAll(due: seq<PredictionRecord>, sample: ReflectSample)
    requires forall i :: 0 <= i < |due| ==> ScoreAll(due[i].predictions, sample) != []
    ensures |Resolved(due, sample)| == |due|
    ensures forall i :: 0 <= i < |due| ==>
      Resolved(due, sample)[i] == ReflectEntry(due[i], Some(ScoreAll(due[i].predictions, sample)))
  {
    hide ScoreAll;
    if due != [] {
      ResolvedAll(due[..|due| - 1], sample);
    }
  }

  /// Strictly increasing cycles leave room for at most `horizon` open targets.
  lemma {:induction false} CyclesSpread(log: seq<ReflectSample>, i: nat, j: nat)
    requires Ticking(log) && i <= j < |log|
    ensures log[j].cycle >= log[i].cycle + (j - i)
    decreases j - i
  {
    if i < j {
      CyclesSpread(log, i, j - 1);
    }
  }

  lemma {:induction false} MadeAtStable(log: seq<ReflectSample>, sample: ReflectSample, i: nat, window: nat, horizon: nat)
    requires i < |log|
    ensures MadeAt(log + [sample], i, window, horizon) == MadeAt(log, i, window, horizon)
  {
    assert (log + [sample])[..i + 1] == log[..i + 1];
  }

  lemma {:induction false} OnTimeStable(log: seq<ReflectSample>, sample: ReflectSample, i: nat, entry: ReflectEntry, window: nat, horizon: nat)
    requires i < |log| && ResolvedOnTime(log, i, entry, window, horizon)
    ensures ResolvedOnTime(log + [sample], i, entry, window, horizon)
  {
    hide MadeAt, ScoreAll;
    MadeAtStable(log, sample, i, window, horizon);
    var j: nat :| FirstReaching(log, log[i].cycle + horizon, j)
      && entry == ReflectEntry(MadeAt(log, i, window, horizon),
                               Some(ScoreAll(MadeAt(log, i, window, horizon).predictions, log[j])));
    assert FirstReaching(log + [sample], log[i].cycle + horizon, j);
  }

  lemma {:induction false} MadeAtScores(log: seq<ReflectSample>, i: nat, window: nat, horizon: nat, sample: ReflectSample)
    requires i < |log| && window > 0
    ensures ScoreAll(MadeAt(log, i, window, horizon).predictions, sample) != []
    ensures MadeAt(log, i, window, horizon).targetCycle == log[i].cycle + horizon
  {
    ForecastShape(log[..i + 1], log[i], window, horizon);
    ScoreCounts(MadeAt(log, i, window, horizon).predictions, sample);
  }

  lemma {:induction false} ResolvesNow(log: seq<ReflectSample>, sample: ReflectSample, i: nat, window: nat, horizon: nat)
    requires i < |log| && Ticking(log)
    requires log[|log| - 1].cycle < log[i].cycle + horizon <= sample.cycle
    ensures var made := MadeAt(log, i, window, horizon);
      ResolvedOnTime(log + [sample], i, ReflectEntry(made, Some(ScoreAll(made.predictions, sample))), window, horizon)
  {
    MadeAtStable(log, sample, i, window, horizon);
    hide MadeAt, ScoreAll;
    var longer := log + [sample];
    assert longer[i] == log[i] && longer[|log|] == sample;
    assert FirstReaching(longer, longer[i].cycle + horizon, |log|);
  }

  /// The due predictions are a prefix of the queue, and each is resolved at its first chance.
  lemma {:induction false} StepResolves(m: Memory, log: seq<ReflectSample>, sample: ReflectSample, window: nat, horizon: nat)
    requires AuditOnTime(m.audit, log, window, horizon) && QueueOpen(m.pending, |m.audit|, log, window, horizon)
    requires window > 0 && horizon > 0
    requires Ticking(log)
    ensures var n := DueCount(m.pending, sample.cycle);
      var audit := m.audit + Resolved(m.pending[..n], sample);
      |audit| == |m.audit| + n && AuditOnTime(audit, log + [sample], window, horizon)
  {
    hide MadeAt, ScoreAll, Forecast, ResolvedOnTime, Resolved, DueCount, Ticking;
    var n := DueCount(m.pending, sample.cycle);
    var due, longer := m.pending[..n], log + [sample];
    forall i | 0 <= i < n ensures ScoreAll(due[i].predictions, sample) != [] {
      MadeAtScores(log, |m.audit| + i, window, horizon, sample);
    }
    ResolvedAll(due, sample);
    var resolved := Resolved(due, sample);
    forall i | 0 <= i < |m.audit| ensures ResolvedOnTime(longer, i, m.audit[i], window, horizon) {
      OnTimeStable(log, sample, i, m.audit[i], window, horizon);
    }
    forall k | 0 <= k < n ensures ResolvedOnTime(longer, |m.audit| + k, resolved[k], window, horizon) {
      MadeAtScores(log, |m.audit| + k, window, horizon, sample);
      assert due[k] == m.pending[k];
      ResolvesNow(log, sample, |m.audit| + k, window, horizon);
    }
  }

  lemma {:induction false} StepHistory(m: Memory, log: seq<ReflectSample>, sample: ReflectSample, window: nat, horizon: nat)
    requires m.history == LastN(log, Cap(window, horizon))
    ensures LastN(m.history + [sample], Cap(window, horizon)) == LastN(log + [sample], Cap(window, horizon))
    ensures Forecast(LastN(m.history + [sample], Cap(window, horizon)), sample, window, horizon)
         == MadeAt(log + [sample], |log|, window, horizon)
  {
    hide Forecast;
    assert (log + [sample])[..|log| + 1] == log + [sample];
    BoundedHistorySuffices(log + [sample], Cap(window, horizon), sample, window, horizon);
  }

  /// What is left of the queue, with the new prediction behind it, is still open.
  lemma {:induction false} StepQueue(pending: seq<PredictionRecord>, from: nat, log: seq<ReflectSample>, sample: ReflectSample, window: nat, horizon: nat)
    requires QueueOpen(pending, from, log, window, horizon) && window > 0 && horizon > 0
    requires Ticking(log + [sample])
    ensures var n := DueCount(pending, sample.cycle);
      QueueOpen(pending[n..] + [MadeAt(log + [sample], |log|, window, horizon)], from + n, log + [sample], window, horizon)
  {
    hide MadeAt, DueCount, Ticking;
    var n, longer := DueCount(pending, sample.cycle), log + [sample];
    var queue := pending[n..] + [MadeAt(longer, |log|, window, horizon)];
    forall k | 0 <= k < |queue|
      ensures queue[k] == MadeAt(longer, from + n + k, window, horizon)
      ensures queue[k].targetCycle > sample.cycle
    {
      if k < |queue| - 1 {
        StillOpen(pending, from, log, sample, window, horizon, n + k);
        assert queue[k] == pending[n + k];
      } else {
        MadeAtScores(longer, |log|, window, horizon, sample);
      }
    }
  }

  /// A queued prediction at or behind the first undue one is not due either.
  lemma {:induction false} StillOpen(pending: seq<PredictionRecord>, from: nat, log: seq<ReflectSample>, sample: ReflectSample,
      window: nat, horizon: nat, i: nat)
    requires QueueOpen(pending, from, log, window, horizon) && window > 0
    requires Ticking(log + [sample]) && DueCount(pending, sample.cycle) <= i < |pending|
    ensures pending[i] == MadeAt(log + [sample], from + i, window, horizon)
    ensures pending[i].targetCycle > sample.cycle
  {
    hide MadeAt, DueCount, Ticking;
    var n := DueCount(pending, sample.cycle);
    PrefixTicks(log, sample);
    CyclesSpread(log, from + n, from + i);
    MadeAtStable(log, sample, from + i, window, horizon);
    MadeAtScores(log, from + i, window, horizon, sample);
    MadeAtScores(log, from + n, window, horizon, sample);
    assert pending[i] == MadeAt(log, from + i, window, horizon) && pending[n] == MadeAt(log, from + n, window, horizon);
  }

  /// An open queue over strictly increasing cycles is never longer than the horizon.
  lemma {:induction false} OpenQueueIsShort(pending: seq<PredictionRecord>, from: nat, log: seq<ReflectSample>, window: nat, horizon: nat)
    requires QueueOpen(pending, from, log, window, horizon) && Ticking(log) && window > 0
    ensures |pending| <= horizon
  {
    hide MadeAt, Ticking;
    if pending != [] {
      assert pending[0] == MadeAt(log, from + 0, window, horizon);
      MadeAtScores(log, from, window, horizon, log[from]);
      CyclesSpread(log, from, |log| - 1);
    }
  }

  lemma {:induction false} PrefixTicks(log: seq<ReflectSample>, sample: ReflectSample)
    requires Ticking(log + [sample])
    ensures Ticking(log)
  {
    forall i, j | 0 <= i < j < |log| ensures log[i].cycle < log[j].cycle {
      assert (log + [sample])[i] == log[i] && (log + [sample])[j] == log[j];
    }
  }

  /// What a tick leaves behind when the queue fits its cap.
  lemma {:induction false} RememberParts(m: Memory, log: seq<ReflectSample>, sample: ReflectSample, window: nat, horizon: nat)
    requires m.history == LastN(log, Cap(window, horizon))
    requires |m.pending| < Cap(window, horizon)
    ensures var n := DueCount(m.pending, sample.cycle);
      Remember(m, window, horizon, sample) ==
        Memory(LastN(log + [sample], Cap(window, horizon)),
               m.pending[n..] + [MadeAt(log + [sample], |log|, window, horizon)],
               m.audit + Resolved(m.pending[..n], sample))
  {
    StepHistory(m, log, sample, window, horizon);
    hide Forecast, MadeAt, Resolved, DueCount;
  }

  /// One more tick keeps the memory faithful: nothing due is missed, nothing is evicted.
  lemma {:induction false} StepFaithful(m: Memory, log: seq<ReflectSample>, sample: ReflectSample, window: nat, horizon: nat)
    requires Faithful(m, log, window, horizon) && window > 0 && horizon > 0
    requires Ticking(log + [sample])
    ensures Faithful(Remember(m, window, horizon, sample), log + [sample], window, horizon)
  {
    hide MadeAt, Remember, LastN, Resolved, AuditOnTime, QueueOpen, DueCount, Ticking;
    PrefixTicks(log, sample);
    StepResolves(m, log, sample, window, horizon);
    StepQueue(m.pending, |m.audit|, log, sample, window, horizon);
    var longer, n := log + [sample], DueCount(m.pending, sample.cycle);
    OpenQueueIsShort(m.pending[n..] + [MadeAt(longer, |log|, window, horizon)], |m.audit| + n, longer, window, horizon);
    RememberParts(m, log, sample, window, horizon);
  }

  lemma {:induction false} BlankIsFaithful(window: nat, horizon: nat)
    ensures Faithful(BLANK_MEMORY, [], window, horizon)
  {
  }

  /// Along any log of strictly increasing cycles the bounded reflector loses nothing: the cap
  /// never evicts, stopping at the first undue front misses nothing, and every prediction is
  /// scored once, at the first tick that reaches its target.
  lemma {:induction false} NoPredictionLost(log: seq<ReflectSample>, window: nat, horizon: nat)
    requires Ticking(log) && window > 0 && horizon > 0
    ensures Faithful(After(log, window, horizon), log, window, horizon)
  {
    hide Remember, Faithful, Ticking;
    if log == [] {
      BlankIsFaithful(window, horizon);
    } else {
      var init, last := log[..|log| - 1], log[|log| - 1];
      assert init + [last] == log;
      PrefixTicks(init, last);
      NoPredictionLost(init, window, horizon);
      StepFaithful(After(init, window, horizon), init, last, window, horizon);
    }
  }

  /// The pending queue is strictly sorted by target cycle.
  lemma {:induction false} QueueIsSorted(log: seq<ReflectSample>, window: nat, horizon: nat)
    requires Ticking(log) && window > 0 && horizon > 0
    ensures var pending := After(log, window, horizon).pending;
      forall i, j :: 0 <= i < j < |pending| ==> pending[i].targetCycle < pending[j].targetCycle
  {
    NoPredictionLost(log, window, horizon);
    hide After, MadeAt;
    var m := After(log, window, horizon);
    forall i, j | 0 <= i < j < |m.pending| ensures m.pending[i].targetCycle < m.pending[j].targetCycle {
      MadeAtScores(log, |m.audit| + i, window, horizon, log[0]);
      MadeAtScores(log, |m.audit| + j, window, horizon, log[0]);
    }
  }

  lemma {:induction false} AuditCounts(audit: seq<ReflectEntry>)
    requires forall i :: 0 <= i < |audit| ==>
      audit[i].evaluation.Some?
      && KindCount(audit[i].evaluation.value, EnergyValue) == 1
      && KindCount(audit[i].evaluation.value, ThreatLikelihood) == 1
    ensures KindCount(Scores(audit), EnergyValue) == |audit|
    ensures KindCount(Scores(audit), ThreatLikelihood) == |audit|
  {
    if audit != [] {
      var init := audit[..|audit| - 1];
      AuditCounts(init);
      CountConcat(Scores(init), audit[|audit| - 1].evaluation.value, EnergyValue);
      CountConcat(Scores(init), audit[|audit| - 1].evaluation.value, ThreatLikelihood);
    }
  }

  /// Ticks are either audited or pending, and calibration counts one energy and one threat
  /// score per audited prediction.
  lemma {:induction false} CalibrationCountsTicks(log: seq<ReflectSample>, window: nat, horizon: nat)
    requires Ticking(log) && window > 0 && horizon > 0
    ensures var m := After(log, window, horizon);
      && |m.audit| + |m.pending| == |log|
      && Summary(Scores(m.audit)).energyN == |m.audit|
      && Summary(Scores(m.audit)).threatN == |m.audit|
  {
    NoPredictionLost(log, window, horizon);
    var m := After(log, window, horizon);
    forall i | 0 <= i < |m.audit|
      ensures m.audit[i].evaluation.Some?
      ensures KindCount(m.audit[i].evaluation.value, EnergyValue) == 1
      ensures KindCount(m.audit[i].evaluation.value, ThreatLikelihood) == 1
    {
      EntryCounts(log, i, m.audit[i], window, horizon);
    }
    AuditCounts(m.audit);
  }

  lemma {:induction false} EntryCounts(log: seq<ReflectSample>, i: nat, entry: ReflectEntry, window: nat, horizon: nat)
    requires i < |log| && window > 0 && ResolvedOnTime(log, i, entry, window, horizon)
    ensures entry.evaluation.Some?
    ensures KindCount(entry.evaluation.value, EnergyValue) == 1
    ensures KindCount(entry.evaluation.value, ThreatLikelihood) == 1
  {
    ForecastShape(log[..i + 1], log[i], window, horizon);
    var made := MadeAt(log, i, window, horizon);
    hide ScoreAll, KindCount, MadeAt;
    var j: nat :| FirstReaching(log, log[i].cycle + horizon, j)
      && entry == ReflectEntry(made, Some(ScoreAll(made.predictions, log[j])));
    ScoreCounts(made.predictions, log[j]);
  }

  lemma {:induction false} TickHistory(m: Memory, log: seq<ReflectSample>, sample: ReflectSample, window: nat, horizon: nat)
    requires m.history == LastN(log, Cap(window, horizon))
    ensures var next := Remember(m, window, horizon, sample);
      && next.history == LastN(log + [sample], Cap(window, horizon))
      && next.pending != []
      && next.pending[|next.pending| - 1] == Forecast(log + [sample], sample, window, horizon)
  {
    hide Forecast, Resolved, DueCount, LastN;
    StepHistory(m, log, sample, window, horizon);
    assert (log + [sample])[..|log| + 1] == log + [sample];
    var n := DueCount(m.pending, sample.cycle);
    var made := Forecast(LastN(m.history + [sample], Cap(window, horizon)), sample, window, horizon);
    LastKept(m.pending[n..], made, Cap(window, horizon));
  }

  lemma {:induction false} LastKept<T>(queue: seq<T>, last: T, cap: nat)
    requires cap > 0
    ensures var kept := LastN(queue + [last], cap); kept != [] && kept[|kept| - 1] == last
  {
  }

  /// What the bounded reflector predicts at each tick is what the full sample log predicts.
  lemma {:induction false} BoundedReflectorPredictsAlike(log: seq<ReflectSample>, window: nat, horizon: nat)
    requires window > 0 && horizon > 0
    ensures var m := After(log, window, horizon);
      && m.history == LastN(log, window + horizon + 4)
      && (log != [] ==>
            && m.pending != []
            && m.pending[|m.pending| - 1] == Forecast(log, log[|log| - 1], window, horizon))
  {
    hide Forecast, Remember;
    if log != [] {
      var init, last := log[..|log| - 1], log[|log| - 1];
      BoundedReflectorPredictsAlike(init, window, horizon);
      TickHistory(After(init, window, horizon), init, last, window, horizon);
      assert init + [last] == log;
    }
  }
}
