/// Trend extrapolation over a window of recent samples, and scoring of predictions.
module Predict {
  import opened Core
  import opened RealMath
  import opened LinReg

  datatype PeerSample = PeerSample(peer: AgentId, trust: real, blacklisted: bool)

  datatype PeerOutcomeActual = PeerOutcomeActual(peer: AgentId, honored: bool)

  datatype ReflectSample = ReflectSample(
    cycle: nat,
    energy: real,
    energyCapacity: real,
    threat: Option<ThreatEvent>,
    peers: seq<PeerSample>,
    peerOutcomes: seq<PeerOutcomeActual>)
  {
    predicate Threatened() {
      threat.Some? && threat.value.WarningOrWorse()
    }
  }

  datatype PredictedValue = EnergyValue | ThreatLikelihood | PeerOutcome

  /// Half-width of the uncertainty band; the threat heuristic's 0.5/sqrt(n) is kept symbolic.
  datatype Uncertainty = Width(width: real) | HalfOverRoot(n: nat)

  datatype Prediction = Prediction(
    kind: PredictedValue,
    targetCycle: nat,
    value: real,
    uncertainty: Uncertainty,
    peer: Option<AgentId>)

  datatype PredictionRecord = PredictionRecord(madeAtCycle: nat, targetCycle: nat, predictions: seq<Prediction>)

  /// The last `n` elements, or all of them.
  function LastN<T>(s: seq<T>, n: nat): (r: seq<T>)
    ensures |r| == if |s| <= n then |s| else n
  {
    if |s| <= n then s else s[|s| - n..]
  }

  /// The window of a window: looking back over a truncated history sees the same samples.
  lemma LastOfLast<T>(s: seq<T>, m: nat, n: nat)
    requires n <= m
    ensures LastN(LastN(s, m), n) == LastN(s, n)
  {
  }

  // ----- energy -----

  function EnergyPoints(slice: seq<ReflectSample>): (points: seq<Point>)
    ensures |points| == |slice|
  {
    seq(|slice|, i requires 0 <= i < |slice| => Point(slice[i].cycle as real, slice[i].energy))
  }

  /// The largest residual, from zero up.
  function WorstResidual(points: seq<Point>, line: Line): real {
    if points == [] then 0.0
    else Max(WorstResidual(points[..|points| - 1], line), Abs(Residual(points[|points| - 1], line)))
  }

  function EnergyPrediction(history: seq<ReflectSample>, window: nat, horizon: nat): Option<Prediction> {
    if history == [] || window == 0 then None
    else
      var points := EnergyPoints(LastN(history, window));
      var line := Fit(points);
      var target := history[|history| - 1].cycle + horizon;
      Some(Prediction(EnergyValue, target, Max(line.At(target as real), 0.0), Width(WorstResidual(points, line)), None))
  }

  method LargestResidual(points: seq<Point>, line: Line) returns (unc: real)
    ensures unc == WorstResidual(points, line)
  {
    unc := 0.0;
    for i := 0 to |points|
      invariant unc == WorstResidual(points[..i], line)
    {
      assert points[..i + 1][..i] == points[..i];
      var residual := Abs(points[i].y - line.At(points[i].x));
      if residual > unc {
        unc := residual;
      }
    }
    assert points[..|points|] == points;
  }

  method PredictEnergy(history: seq<ReflectSample>, window: nat, horizon: nat) returns (p: Option<Prediction>)
    ensures p == EnergyPrediction(history, window, horizon)
  {
    if history == [] {
      return None;
    }
    hide Line.At, LastN, Fit, EnergyPoints;
    var madeAt := history[|history| - 1].cycle;
    var points := EnergyPoints(LastN(history, window));
    if points == [] {
      return None;
    }
    var line := LinearRegression(points);
    var target := madeAt + horizon;
    var pred := line.At(target as real);
    if pred < 0.0 {
      pred := 0.0;
    }
    var unc := LargestResidual(points, line);
    return Some(Prediction(EnergyValue, target, pred, Width(unc), None));
  }

  /// The uncertainty bounds every in-window residual and is one of them (or zero).
  lemma {:induction false} WorstResidualIsMax(points: seq<Point>, line: Line)
    ensures WorstResidual(points, line) >= 0.0
    ensures forall i :: 0 <= i < |points| ==> Abs(Residual(points[i], line)) <= WorstResidual(points, line)
    ensures points != [] ==> exists i :: 0 <= i < |points| && WorstResidual(points, line) == Abs(Residual(points[i], line))
  {
    hide Residual;
    if points != [] {
      var init := points[..|points| - 1];
      WorstResidualIsMax(init, line);
      forall i | 0 <= i < |points| ensures Abs(Residual(points[i], line)) <= WorstResidual(points, line) {
        if i < |init| { assert init[i] == points[i]; }
      }
      if Abs(Residual(points[|init|], line)) >= WorstResidual(init, line) {
        assert WorstResidual(points, line) == Abs(Residual(points[|init|], line));
      } else {
        var i :| 0 <= i < |init| && WorstResidual(init, line) == Abs(Residual(init[i], line));
        assert WorstResidual(points, line) == Abs(Residual(points[i], line));
      }
    }
  }

  /// If the window's energies lie on a line, the prediction is that line's value at the target,
  /// floored at zero, and the uncertainty is zero.
  lemma LinearEnergyIsPredicted(history: seq<ReflectSample>, window: nat, horizon: nat, line: Line)
    requires history != [] && window > 0
    requires OnLine(EnergyPoints(LastN(history, window)), line)
    ensures var p := EnergyPrediction(history, window, horizon).value;
      && p.uncertainty == Width(0.0)
      && ((exists i, j :: 0 <= i < |LastN(history, window)| && 0 <= j < |LastN(history, window)|
             && LastN(history, window)[i].cycle != LastN(history, window)[j].cycle) ==>
           p.value == Max(line.At((history[|history| - 1].cycle + horizon) as real), 0.0))
  {
    var slice := LastN(history, window);
    var points := EnergyPoints(slice);
    hide LastN, Fit, Line.At, Residual, WorstResidual;
    FitRecoversLine(points, line);
    WorstResidualIsMax(points, Fit(points));
    assert points != [] && WorstResidual(points, Fit(points)) == 0.0;
    if i, j :| 0 <= i < |slice| && 0 <= j < |slice| && slice[i].cycle != slice[j].cycle {
      assert points[i].x != points[j].x;
    }
  }

  /// In terms of the samples: if the energy ran along a line over at least two distinct cycles of
  /// the window, the prediction is where the line leads, floored at zero, without uncertainty.
  lemma {:induction false} LinearRunIsExtrapolated(history: seq<ReflectSample>, window: nat, horizon: nat, line: Line, i: nat, j: nat)
    requires history != [] && window > 0
    requires var slice := LastN(history, window);
      && i < |slice| && j < |slice| && slice[i].cycle != slice[j].cycle
      && forall k :: 0 <= k < |slice| ==> slice[k].energy == line.At(slice[k].cycle as real)
    ensures var p := EnergyPrediction(history, window, horizon).value;
      && p.value == Max(line.At((history[|history| - 1].cycle + horizon) as real), 0.0)
      && p.uncertainty == Width(0.0)
      && p.targetCycle == history[|history| - 1].cycle + horizon
  {
    var slice := LastN(history, window);
    assert OnLine(EnergyPoints(slice), line) by {
      hide Line.At;
      assert forall k :: 0 <= k < |slice| ==> EnergyPoints(slice)[k] == Point(slice[k].cycle as real, slice[k].energy);
    }
    LinearEnergyIsPredicted(history, window, horizon, line);
  }

  /// A window of one sample predicts that sample's energy, floored at zero, without uncertainty.
  lemma {:induction false} OneSampleIsRepeated(history: seq<ReflectSample>, window: nat, horizon: nat)
    requires history != [] && |LastN(history, window)| == 1
    ensures var p := EnergyPrediction(history, window, horizon);
      && p.Some?
      && p.value.value == Max(history[|history| - 1].energy, 0.0)
      && p.value.uncertainty == Width(0.0)
  {
    var points := EnergyPoints(LastN(history, window));
    AgreeingAbscissasFitFlat(points);
    OneOrdinate(points);
    assert points[0].y == history[|history| - 1].energy;
    var line := Fit(points);
    FlatLine(line, points[0].x);
    FlatLine(line, (history[|history| - 1].cycle + horizon) as real);
    hide Fit, Line.At;
    assert points[..0] == [];
    assert WorstResidual(points, line) == Max(WorstResidual([], line), Abs(Residual(points[0], line)));
  }

  lemma {:induction false} OneOrdinate(points: seq<Point>)
    requires |points| == 1
    ensures Total(points, Ordinate()) == points[0].y
  {
    assert points[..0] == [];
    assert Total(points, Ordinate()) == Total([], Ordinate()) + points[0].y;
  }

  lemma {:induction false} FlatLine(line: Line, x: real)
    requires line.slope == 0.0
    ensures line.At(x) == line.intercept
  {
  }

  // ----- threats -----

  function ThreatCount(slice: seq<ReflectSample>): (n: nat)
    ensures n <= |slice|
  {
    if slice == [] then 0
    else ThreatCount(slice[..|slice| - 1]) + (if slice[|slice| - 1].Threatened() then 1 else 0)
  }

  function ThreatPrediction(history: seq<ReflectSample>, window: nat, horizon: nat): Option<Prediction> {
    if history == [] || window == 0 then None
    else
      var recent := LastN(history, window);
      Some(Prediction(
        ThreatLikelihood,
        history[|history| - 1].cycle + horizon,
        ThreatCount(recent) as real / |recent| as real,
        HalfOverRoot(|recent|),
        None))
  }

  /// The positions of the samples that carry a warning or worse.
  function ThreatenedAt(slice: seq<ReflectSample>): set<nat> {
    set i: nat | i < |slice| && slice[i].threat.Some? && slice[i].threat.value.threat.severity != Info
  }

  lemma {:induction false} ThreatCountIsCardinality(slice: seq<ReflectSample>)
    ensures ThreatCount(slice) == |ThreatenedAt(slice)|
  {
    if slice != [] {
      var n := |slice| - 1;
      var init := slice[..n];
      ThreatCountIsCardinality(init);
      assert n !in ThreatenedAt(init);
      assert ThreatenedAt(slice) == if slice[n].Threatened() then ThreatenedAt(init) + {n} else ThreatenedAt(init);
    }
  }

  /// The predicted likelihood is the fraction of recent samples under threat: a probability
  /// that is zero exactly if none was, and one exactly if all were.
  lemma {:induction false} ThreatLikelihoodIsFraction(history: seq<ReflectSample>, window: nat, horizon: nat)
    requires history != [] && window > 0
    ensures var recent, p := LastN(history, window), ThreatPrediction(history, window, horizon).value;
      && 0.0 <= p.value <= 1.0
      && p.value * |recent| as real == |ThreatenedAt(recent)| as real
      && p.uncertainty == HalfOverRoot(|recent|)
      && (p.value == 0.0 <==> ThreatenedAt(recent) == {})
      && (p.value == 1.0 <==> forall i :: 0 <= i < |recent| ==> recent[i].Threatened())
  {
    var recent := LastN(history, window);
    var count, n := ThreatCount(recent), |recent|;
    ThreatCountIsCardinality(recent);
    Share(count, n, count as real / n as real);
    AllThreatened(recent);
    hide ThreatCount, LastN;
    assert count == 0 <==> ThreatenedAt(recent) == {};
  }

  lemma {:induction false} Share(count: nat, n: nat, q: real)
    requires count <= n && n > 0 && q == count as real / n as real
    ensures q * n as real == count as real
    ensures 0.0 <= q <= 1.0
    ensures q == 0.0 <==> count == 0
    ensures q == 1.0 <==> count == n
  {
    Scaled(q, 0.0, n as real, count as real, 0.0);
    Scaled(0.0, q, n as real, 0.0, count as real);
    Scaled(q, 1.0, n as real, count as real, n as real);
    Scaled(1.0, q, n as real, n as real, count as real);
  }

  lemma {:induction false} AllThreatened(slice: seq<ReflectSample>)
    ensures ThreatCount(slice) == |slice| <==> forall i :: 0 <= i < |slice| ==> slice[i].Threatened()
  {
    if slice != [] {
      var n := |slice| - 1;
      AllThreatened(slice[..n]);
      assert forall i :: 0 <= i < n ==> slice[..n][i] == slice[i];
      assert (forall i :: 0 <= i < n ==> slice[i].Threatened()) <==> (forall i :: 0 <= i < n ==> slice[..n][i].Threatened());
    }
  }

  // ----- peers -----

  function FindPeer(peers: seq<PeerSample>, peer: AgentId): Option<PeerSample> {
    if peers == [] then None
    else if peers[0].peer == peer then Some(peers[0])
    else FindPeer(peers[1..], peer)
  }

  function TrustPoints(slice: seq<ReflectSample>, peer: AgentId): seq<Point> {
    if slice == [] then []
    else
      var last := slice[|slice| - 1];
      var found := FindPeer(last.peers, peer);
      TrustPoints(slice[..|slice| - 1], peer)
      + (if found.Some? then [Point(last.cycle as real, found.value.trust)] else [])
  }

  function PeerPrediction(history: seq<ReflectSample>, sample: ReflectSample, ps: PeerSample, window: nat, horizon: nat): Prediction {
    var target := sample.cycle + horizon;
    var series := TrustPoints(LastN(history, window), ps.peer);
    var trust :=
      if series == [] then Clamp(ps.trust, 0.0, 1.0)
      else Clamp(Fit(series).At(target as real), 0.0, 1.0);
    Prediction(PeerOutcome, target, trust, Width(0.5), Some(ps.peer))
  }

  function PeerPredictions(history: seq<ReflectSample>, sample: ReflectSample, peers: seq<PeerSample>, window: nat, horizon: nat): seq<Prediction> {
    if peers == [] then []
    else
      PeerPredictions(history, sample, peers[..|peers| - 1], window, horizon)
      + [PeerPrediction(history, sample, peers[|peers| - 1], window, horizon)]
  }

  method PredictPeerOutcomes(history: seq<ReflectSample>, sample: ReflectSample, window: nat, horizon: nat)
    returns (out: seq<Prediction>)
    ensures out == PeerPredictions(history, sample, sample.peers, window, horizon)
  {
    out := [];
    for i := 0 to |sample.peers|
      invariant out == PeerPredictions(history, sample, sample.peers[..i], window, horizon)
    {
      assert sample.peers[..i + 1][..i] == sample.peers[..i];
      var ps := sample.peers[i];
      var series := TrustPoints(LastN(history, window), ps.peer);
      var target := sample.cycle + horizon;
      var trust := Clamp(ps.trust, 0.0, 1.0);
      if series != [] {
        var line := LinearRegression(series);
        trust := Clamp(line.At(target as real), 0.0, 1.0);
      }
      out := out + [Prediction(PeerOutcome, target, trust, Width(0.5), Some(ps.peer))];
    }
    assert sample.peers[..|sample.peers|] == sample.peers;
  }

  /// A peer never seen in the window is predicted by its current trust; one whose trust ran
  /// along a line, by where the line leads. Either way the prediction is a probability.
  lemma {:induction false} PeerTrendIsPredicted(history: seq<ReflectSample>, sample: ReflectSample, ps: PeerSample,
                                                window: nat, horizon: nat, line: Line)
    ensures var series, p := TrustPoints(LastN(history, window), ps.peer), PeerPrediction(history, sample, ps, window, horizon);
      && 0.0 <= p.value <= 1.0
      && p.peer == Some(ps.peer) && p.targetCycle == sample.cycle + horizon
      && (series == [] ==> p.value == Clamp(ps.trust, 0.0, 1.0))
      && (OnLine(series, line)
          && (exists i, j :: 0 <= i < |series| && 0 <= j < |series| && series[i].x != series[j].x) ==>
            p.value == Clamp(line.At((sample.cycle + horizon) as real), 0.0, 1.0))
  {
    var series := TrustPoints(LastN(history, window), ps.peer);
    hide TrustPoints, LastN, Fit, Line.At, OnLine;
    assert PeerPrediction(history, sample, ps, window, horizon).uncertainty == Width(0.5);
    if OnLine(series, line) {
      FitRecoversLine(series, line);
    }
  }

  /// The entry found for a peer is the first that names it; none is found if none does.
  lemma {:induction false} FindPeerIsFirst(peers: seq<PeerSample>, peer: AgentId)
    ensures match FindPeer(peers, peer)
      case Some(ps) =>
        exists k :: 0 <= k < |peers| && peers[k] == ps && ps.peer == peer && forall j :: 0 <= j < k ==> peers[j].peer != peer
      case None => forall k :: 0 <= k < |peers| ==> peers[k].peer != peer
  {
    if peers != [] && peers[0].peer != peer {
      FindPeerIsFirst(peers[1..], peer);
      if FindPeer(peers, peer).Some? {
        var k :| 0 <= k < |peers| - 1 && peers[1..][k] == FindPeer(peers, peer).value
          && FindPeer(peers, peer).value.peer == peer && forall j :: 0 <= j < k ==> peers[1..][j].peer != peer;
        assert peers[k + 1] == FindPeer(peers, peer).value;
        assert forall j :: 0 < j < k + 1 ==> peers[j] == peers[1..][j - 1];
      } else {
        assert forall k :: 0 < k < |peers| ==> peers[k] == peers[1..][k - 1];
      }
    }
  }

  /// The point a sample contributes to a peer's trust series.
  function Listing(sample: ReflectSample, peer: AgentId): seq<Point> {
    match FindPeer(sample.peers, peer)
    case Some(ps) => [Point(sample.cycle as real, ps.trust)]
    case None => []
  }

  /// The positions of the samples that list a peer.
  function ListedAt(slice: seq<ReflectSample>, peer: AgentId): set<nat> {
    set i: nat | i < |slice| && exists k :: 0 <= k < |slice[i].peers| && slice[i].peers[k].peer == peer
  }

  /// The trust series of a peer is the samples' listings in order: one point for every sample
  /// that lists it.
  lemma {:induction false} SeriesIsOfListings(slice: seq<ReflectSample>, last: ReflectSample, peer: AgentId)
    ensures TrustPoints([], peer) == []
    ensures TrustPoints(slice + [last], peer) == TrustPoints(slice, peer) + Listing(last, peer)
    ensures |TrustPoints(slice, peer)| == |ListedAt(slice, peer)|
    decreases |slice|
  {
    assert (slice + [last])[..|slice|] == slice;
    if slice != [] {
      var n := |slice| - 1;
      var init := slice[..n];
      SeriesIsOfListings(init, slice[n], peer);
      FindPeerIsFirst(slice[n].peers, peer);
      assert init + [slice[n]] == slice;
      assert n !in ListedAt(init, peer);
      assert forall i :: 0 <= i < n ==> init[i] == slice[i];
      assert ListedAt(slice, peer) == if FindPeer(slice[n].peers, peer).Some? then ListedAt(init, peer) + {n} else ListedAt(init, peer);
    }
    hide FindPeer;
  }

  lemma {:induction false} OnlyListing(slice: seq<ReflectSample>, peer: AgentId, i: nat)
    requires ListedAt(slice, peer) == {i} && i < |slice|
    ensures TrustPoints(slice, peer) == Listing(slice[i], peer)
  {
    var n := |slice| - 1;
    var init := slice[..n];
    assert init + [slice[n]] == slice;
    SeriesIsOfListings(init, slice[n], peer);
    FindPeerIsFirst(slice[n].peers, peer);
    assert forall j :: 0 <= j < n ==> init[j] == slice[j];
    assert n in ListedAt(slice, peer) <==> FindPeer(slice[n].peers, peer).Some?;
    assert ListedAt(init, peer) == ListedAt(slice, peer) - {n};
    hide FindPeer, TrustPoints;
    if i < n {
      OnlyListing(init, peer, i);
    } else {
      assert TrustPoints(init, peer) == [];
    }
  }

  /// A peer that a single sample of the window lists, at its `k`th place and not before, is
  /// predicted by the trust listed there, clamped.
  lemma {:induction false} OneListingIsRepeated(history: seq<ReflectSample>, sample: ReflectSample, ps: PeerSample,
                                                window: nat, horizon: nat, i: nat, k: nat)
    requires var slice := LastN(history, window);
      && i < |slice| && ListedAt(slice, ps.peer) == {i}
      && k < |slice[i].peers| && slice[i].peers[k].peer == ps.peer
      && forall j :: 0 <= j < k ==> slice[i].peers[j].peer != ps.peer
    ensures PeerPrediction(history, sample, ps, window, horizon).value
         == Clamp(LastN(history, window)[i].peers[k].trust, 0.0, 1.0)
  {
    var slice := LastN(history, window);
    var series := TrustPoints(slice, ps.peer);
    FindPeerIsFirst(slice[i].peers, ps.peer);
    OnlyListing(slice, ps.peer, i);
    AgreeingAbscissasFitFlat(series);
    OneOrdinate(series);
    FlatLine(Fit(series), (sample.cycle + horizon) as real);
    hide TrustPoints, Fit, Line.At, LastN, FindPeer;
  }

  lemma {:induction false} PeersTarget(history: seq<ReflectSample>, sample: ReflectSample, peers: seq<PeerSample>, window: nat, horizon: nat)
    ensures |PeerPredictions(history, sample, peers, window, horizon)| == |peers|
    ensures forall i :: 0 <= i < |peers| ==>
      var p := PeerPredictions(history, sample, peers, window, horizon)[i];
      p.targetCycle == sample.cycle + horizon && p.peer == Some(peers[i].peer) && p.kind == PeerOutcome && p.uncertainty == Width(0.5)
  {
    hide TrustPoints, LastN, Fit, Line.At;
    if peers != [] {
      PeersTarget(history, sample, peers[..|peers| - 1], window, horizon);
    }
  }

  /// Energy and threats are predicted exactly if there is a sample and a window to look at; a peer
  /// nobody listed in the window is predicted by its trust now, clamped.
  lemma {:induction false} PredictedIff(history: seq<ReflectSample>, sample: ReflectSample, ps: PeerSample, window: nat, horizon: nat)
    ensures EnergyPrediction(history, window, horizon).Some? <==> history != [] && window > 0
    ensures ThreatPrediction(history, window, horizon).Some? <==> history != [] && window > 0
    ensures (forall i :: 0 <= i < |LastN(history, window)| ==>
               forall k :: 0 <= k < |LastN(history, window)[i].peers| ==> LastN(history, window)[i].peers[k].peer != ps.peer) ==>
      PeerPrediction(history, sample, ps, window, horizon).value == Clamp(ps.trust, 0.0, 1.0)
  {
    hide Fit, Line.At, WorstResidual, ThreatCount, EnergyPoints, LastN, TrustPoints;
    var slice := LastN(history, window);
    if forall i :: 0 <= i < |slice| ==> forall k :: 0 <= k < |slice[i].peers| ==> slice[i].peers[k].peer != ps.peer {
      assert ListedAt(slice, ps.peer) == {};
      CountedListings(slice, ps.peer);
    }
  }

  lemma {:induction false} CountedListings(slice: seq<ReflectSample>, peer: AgentId)
    ensures |TrustPoints(slice, peer)| == |ListedAt(slice, peer)|
  {
    SeriesIsOfListings(slice, ReflectSample(0, 0.0, 0.0, None, [], []), peer);
  }

  /// Everything predicted on receiving a sample is for `horizon` cycles later.
  lemma {:induction false} ForecastLooksAhead(history: seq<ReflectSample>, sample: ReflectSample, window: nat, horizon: nat)
    requires history != [] && history[|history| - 1] == sample
    ensures var rec := Forecast(history, sample, window, horizon);
      && rec.madeAtCycle == sample.cycle && rec.targetCycle == sample.cycle + horizon
      && forall i :: 0 <= i < |rec.predictions| ==> rec.predictions[i].targetCycle == sample.cycle + horizon
  {
    PeersTarget(history, sample, sample.peers, window, horizon);
    hide PeerPredictions, Fit, WorstResidual, EnergyPoints, ThreatCount, LastN, Line.At;
  }

  function Listed(p: Option<Prediction>): seq<Prediction> {
    match p
    case Some(prediction) => [prediction]
    case None => []
  }

  /// Everything predicted on receiving `sample`.
  function Forecast(history: seq<ReflectSample>, sample: ReflectSample, window: nat, horizon: nat): PredictionRecord {
    PredictionRecord(
      sample.cycle,
      sample.cycle + horizon,
      Listed(EnergyPrediction(history, window, horizon))
      + Listed(ThreatPrediction(history, window, horizon))
      + PeerPredictions(history, sample, sample.peers, window, horizon))
  }

  method PredictAll(history: seq<ReflectSample>, sample: ReflectSample, window: nat, horizon: nat)
    returns (rec: PredictionRecord)
    ensures rec == Forecast(history, sample, window, horizon)
  {
    hide EnergyPrediction, ThreatPrediction, PeerPredictions;
    var predictions := [];
    var e := PredictEnergy(history, window, horizon);
    if e.Some? {
      predictions := predictions + [e.value];
    }
    var t := ThreatPrediction(history, window, horizon);
    if t.Some? {
      predictions := predictions + [t.value];
    }
    var peers := PredictPeerOutcomes(history, sample, window, horizon);
    rec := PredictionRecord(sample.cycle, sample.cycle + horizon, predictions + peers);
  }

  /// A history bounded to at least `window` samples predicts exactly what the full log does.
  lemma BoundedHistorySuffices(log: seq<ReflectSample>, cap: nat, sample: ReflectSample, window: nat, horizon: nat)
    requires window <= cap
    ensures Forecast(LastN(log, cap), sample, window, horizon) == Forecast(log, sample, window, horizon)
  {
    LastOfLast(log, cap, window);
    var history := LastN(log, cap);
    if window > 0 && log != [] {
      assert history[|history| - 1] == log[|log| - 1];
    }
    hide LastN, Fit, EnergyPoints, ThreatCount, WorstResidual, Line.At;
    SameEnergy(history, log, window, horizon);
    SamePeers(history, log, sample, sample.peers, window, horizon);
  }

  lemma SameEnergy(a: seq<ReflectSample>, b: seq<ReflectSample>, window: nat, horizon: nat)
    requires LastN(a, window) == LastN(b, window)
    requires window > 0 ==> (a == [] <==> b == [])
    requires window > 0 && a != [] ==> a[|a| - 1] == b[|b| - 1]
    ensures EnergyPrediction(a, window, horizon) == EnergyPrediction(b, window, horizon)
    ensures ThreatPrediction(a, window, horizon) == ThreatPrediction(b, window, horizon)
  {
    hide LastN, Fit, EnergyPoints, ThreatCount, WorstResidual, Line.At;
  }

  lemma {:induction false} SamePeers(a: seq<ReflectSample>, b: seq<ReflectSample>, sample: ReflectSample, peers: seq<PeerSample>, window: nat, horizon: nat)
    requires LastN(a, window) == LastN(b, window)
    ensures PeerPredictions(a, sample, peers, window, horizon) == PeerPredictions(b, sample, peers, window, horizon)
  {
    if peers != [] {
      SamePeers(a, b, sample, peers[..|peers| - 1], window, horizon);
    }
  }

  // ----- scoring -----

  datatype Evaluation = Evaluation(
    kind: PredictedValue,
    targetCycle: nat,
    predicted: real,
    actual: real,
    error: real,
    score: real,
    hit: bool,
    peer: Option<AgentId>)

  /// The band an energy prediction is judged by; only energy predictions carry a width that is read.
  function BandOf(u: Uncertainty): (band: real)
    ensures band > 0.0
  {
    match u
    case Width(w) => Max(w, 0.000000001)
    case HalfOverRoot(_) => 0.000000001
  }

  function EvaluatePrediction(p: Prediction, actual: real): Evaluation {
    var error := actual - p.value;
    if p.kind.EnergyValue? then
      var band := BandOf(p.uncertainty);
      var score := Clamp(1.0 - Clamp(Abs(error) / band, 0.0, 1.0), 0.0, 1.0);
      Evaluation(p.kind, p.targetCycle, p.value, actual, error, score, Abs(error) <= band, p.peer)
    else
      var hit := (p.value >= 0.5) == (actual >= 0.5);
      Evaluation(p.kind, p.targetCycle, p.value, actual, error, if hit then 1.0 else 0.0, hit, p.peer)
  }

  function FindOutcome(outcomes: seq<PeerOutcomeActual>, peer: AgentId): Option<PeerOutcomeActual> {
    if outcomes == [] then None
    else if outcomes[0].peer == peer then Some(outcomes[0])
    else FindOutcome(outcomes[1..], peer)
  }

  /// How one prediction scores against a sample; a peer prediction without ground truth does not.
  function Scored(p: Prediction, sample: ReflectSample): seq<Evaluation> {
    match p.kind
    case EnergyValue => [EvaluatePrediction(p, sample.energy)]
    case ThreatLikelihood => [EvaluatePrediction(p, if sample.Threatened() then 1.0 else 0.0)]
    case PeerOutcome =>
      if p.peer.None? then []
      else
        match FindOutcome(sample.peerOutcomes, p.peer.value)
        case Some(outcome) => [EvaluatePrediction(p, if outcome.honored then 1.0 else 0.0)]
        case None => []
  }

  function ScoreAll(predictions: seq<Prediction>, sample: ReflectSample): seq<Evaluation> {
    if predictions == [] then []
    else ScoreAll(predictions[..|predictions| - 1], sample) + Scored(predictions[|predictions| - 1], sample)
  }

  method EvaluateSample(preds: PredictionRecord, sample: ReflectSample) returns (out: seq<Evaluation>)
    ensures out == ScoreAll(preds.predictions, sample)
  {
    out := [];
    for i := 0 to |preds.predictions|
      invariant out == ScoreAll(preds.predictions[..i], sample)
    {
      assert preds.predictions[..i + 1][..i] == preds.predictions[..i];
      var p := preds.predictions[i];
      match p.kind {
        case EnergyValue =>
          out := out + [EvaluatePrediction(p, sample.energy)];
        case ThreatLikelihood =>
          out := out + [EvaluatePrediction(p, if sample.Threatened() then 1.0 else 0.0)];
        case PeerOutcome =>
          if p.peer.Some? {
            var outcome := FindOutcome(sample.peerOutcomes, p.peer.value);
            if outcome.Some? {
              out := out + [EvaluatePrediction(p, if outcome.value.honored then 1.0 else 0.0)];
            }
          }
      }
    }
    assert preds.predictions[..|preds.predictions|] == preds.predictions;
  }

  /// An evaluation quotes its prediction and the truth it was held against.
  lemma {:induction false} EvaluationQuotes(p: Prediction, actual: real)
    ensures var e := EvaluatePrediction(p, actual);
      && e.kind == p.kind && e.targetCycle == p.targetCycle && e.peer == p.peer
      && e.predicted == p.value && e.actual == actual && e.predicted + e.error == actual
  {
    hide BandOf;
  }

  /// An energy call is a hit exactly when the actual lies in the band, which is never narrower
  /// than a billionth; its score falls linearly from one at no error to zero at the band's edge.
  lemma {:induction false} EnergyScore(p: Prediction, actual: real, width: real)
    requires p.kind.EnergyValue? && p.uncertainty == Width(width)
    ensures var e, band := EvaluatePrediction(p, actual), Max(width, 0.000000001);
      && 0.0 <= e.score <= 1.0
      && (e.hit <==> p.value - band <= actual <= p.value + band)
      && (e.score == 1.0 <==> actual == p.value)
      && (e.score > 0.0 ==> e.hit)
      && e.score * band == Max(band - Abs(actual - p.value), 0.0)
  {
    var band, miss := BandOf(p.uncertainty), Abs(actual - p.value);
    assert band == Max(width, 0.000000001);
    hide BandOf;
    ScoreLaws(miss, band, miss / band);
  }

  /// A threat or peer call is a hit exactly when it and the truth lie on the same side of one
  /// half, and scores all or nothing.
  lemma {:induction false} LikelihoodScore(p: Prediction, actual: real)
    requires !p.kind.EnergyValue?
    ensures var e := EvaluatePrediction(p, actual);
      && (p.value >= 0.5 && actual >= 0.5 ==> e.hit)
      && (p.value < 0.5 && actual < 0.5 ==> e.hit)
      && (p.value >= 0.5 && actual < 0.5 ==> !e.hit)
      && (p.value < 0.5 && actual >= 0.5 ==> !e.hit)
      && e.score == (if e.hit then 1.0 else 0.0)
  {
  }

  lemma {:induction false} FindOutcomeIsFirst(outcomes: seq<PeerOutcomeActual>, peer: AgentId)
    ensures match FindOutcome(outcomes, peer)
      case Some(o) =>
        exists k :: 0 <= k < |outcomes| && outcomes[k] == o && o.peer == peer && forall j :: 0 <= j < k ==> outcomes[j].peer != peer
      case None => forall k :: 0 <= k < |outcomes| ==> outcomes[k].peer != peer
  {
    if outcomes != [] && outcomes[0].peer != peer {
      FindOutcomeIsFirst(outcomes[1..], peer);
      if FindOutcome(outcomes, peer).Some? {
        var k :| 0 <= k < |outcomes| - 1 && outcomes[1..][k] == FindOutcome(outcomes, peer).value
          && FindOutcome(outcomes, peer).value.peer == peer && forall j :: 0 <= j < k ==> outcomes[1..][j].peer != peer;
        assert outcomes[k + 1] == FindOutcome(outcomes, peer).value;
        assert forall j :: 0 < j < k + 1 ==> outcomes[j] == outcomes[1..][j - 1];
      } else {
        assert forall k :: 0 < k < |outcomes| ==> outcomes[k] == outcomes[1..][k - 1];
      }
    }
  }

  /// The truth a prediction is held against: the sample's energy, one or zero for a warning or
  /// worse in it, one or zero for its first outcome of the peer; a peer without outcome is not scored.
  lemma {:induction false} ScoredAgainstSample(p: Prediction, sample: ReflectSample)
    ensures p.kind.EnergyValue? ==> Scored(p, sample) == [EvaluatePrediction(p, sample.energy)]
    ensures p.kind.ThreatLikelihood? && sample.threat.Some? && sample.threat.value.threat.severity != Info ==>
      Scored(p, sample) == [EvaluatePrediction(p, 1.0)]
    ensures p.kind.ThreatLikelihood? && !(sample.threat.Some? && sample.threat.value.threat.severity != Info) ==>
      Scored(p, sample) == [EvaluatePrediction(p, 0.0)]
    ensures p.kind.PeerOutcome? && p.peer.Some? ==>
      && (Scored(p, sample) == [] <==> forall k :: 0 <= k < |sample.peerOutcomes| ==> sample.peerOutcomes[k].peer != p.peer.value)
      && (Scored(p, sample) != [] ==>
            exists k :: (
              && 0 <= k < |sample.peerOutcomes| && sample.peerOutcomes[k].peer == p.peer.value
              && (forall j :: 0 <= j < k ==> sample.peerOutcomes[j].peer != p.peer.value)
              && Scored(p, sample) == [EvaluatePrediction(p, if sample.peerOutcomes[k].honored then 1.0 else 0.0)]))
  {
    if p.peer.Some? {
      FindOutcomeIsFirst(sample.peerOutcomes, p.peer.value);
    }
    hide EvaluatePrediction, FindOutcome;
  }

  /// Scoring works through the predictions one by one, in order.
  lemma {:induction false} ScoreAllConcat(a: seq<Prediction>, b: seq<Prediction>, sample: ReflectSample)
    ensures ScoreAll(a + b, sample) == ScoreAll(a, sample) + ScoreAll(b, sample)
  {
    hide Scored;
    if b == [] {
      assert a + b == a;
    } else {
      var n := |b| - 1;
      ScoreAllConcat(a, b[..n], sample);
      assert (a + b)[..|a| + n] == a + b[..n];
    }
  }

  lemma ScoreLaws(miss: real, band: real, q: real)
    requires miss >= 0.0 && band > 0.0 && q == miss / band
    ensures q >= 0.0
    ensures q < 1.0 ==> miss < band
    ensures q == 0.0 <==> miss == 0.0
  {
    assert q * band == miss;
    Scaled(q, 1.0, band, miss, band);
    Scaled(q, 0.0, band, miss, 0.0);
    Scaled(0.0, q, band, 0.0, miss);
  }
}
