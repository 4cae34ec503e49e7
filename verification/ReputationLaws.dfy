/// What the reputation arithmetic promises: lazy decay is the eager sum,
/// hearsay is bounded by witnesses, punishment is graduated and forgiven.
module ReputationLaws {
  import opened Core
  import opened RealMath
  import opened Reputation

  // ----- decay -----

  lemma FactorAdd(a: nat, b: nat, decay: Decay)
    ensures DecayFactor(a + b, decay) == DecayFactor(a, decay) * DecayFactor(b, decay)
  {
    if decay.halfLife > 0 {
      PowAdd(decay.perCycle, a, b);
    }
  }

  /// After `j` half-lives exactly `0.5^j` of the evidence is left.
  lemma FactorHalfLives(j: nat, decay: Decay)
    requires decay.halfLife > 0
    ensures DecayFactor(j * decay.halfLife, decay) == Pow(0.5, j)
  {
    PowMul(decay.perCycle, decay.halfLife, j);
    assert j * decay.halfLife == decay.halfLife * j;
  }

  lemma FactorAntitone(a: nat, b: nat, decay: Decay)
    requires a <= b
    ensures DecayFactor(b, decay) <= DecayFactor(a, decay)
  {
    if decay.halfLife > 0 {
      PowAntitone(decay.perCycle, a, b);
    }
  }

  lemma {:induction false} PowStrict(b: real, c: real, n: nat)
    requires 0.0 < b < c && n > 0
    ensures 0.0 < Pow(b, n) < Pow(c, n)
  {
    if n == 1 {
      assert Pow(b, 1) == b * Pow(b, 0) && Pow(c, 1) == c * Pow(c, 0);
    } else {
      PowStrict(b, c, n - 1);
      var p, q := Pow(b, n - 1), Pow(c, n - 1);
      MulPos(b, p);
      MulPos(c - b, q);
      MulPos(b, q - p);
    }
  }

  /// The half-life determines the decay completely: there is one factor that halves
  /// the evidence in that many cycles.
  lemma DecayDetermined(d: Decay, e: Decay, elapsed: nat)
    requires d.halfLife == e.halfLife
    ensures DecayFactor(elapsed, d) == DecayFactor(elapsed, e)
  {
    if d.halfLife > 0 {
      if d.perCycle < e.perCycle {
        PowStrict(d.perCycle, e.perCycle, d.halfLife);
      } else if e.perCycle < d.perCycle {
        PowStrict(e.perCycle, d.perCycle, d.halfLife);
      }
    }
  }

  // ----- lazy decay refines the eager sum -----

  datatype Outcome = Outcome(ratio: real, cycle: nat)

  ghost predicate InOrder(outs: seq<Outcome>) {
    forall i, j :: 0 <= i < j < |outs| ==> outs[i].cycle <= outs[j].cycle
  }

  /// The record after the outcomes are recorded one by one.
  function Recorded(rec: Record, outs: seq<Outcome>, decay: Decay): Record {
    if outs == [] then rec
    else
      var last := outs[|outs| - 1];
      Recorded(rec, outs[..|outs| - 1], decay).WithOutcome(last.ratio, last.cycle, decay)
  }

  /// Each outcome's share, weighed afresh by its own age.
  function EagerSum(outs: seq<Outcome>, share: real -> real, now: nat, decay: Decay): real {
    if outs == [] then 0.0
    else
      var last := outs[|outs| - 1];
      EagerSum(outs[..|outs| - 1], share, now, decay)
      + share(last.ratio) * DecayFactor(SaturatingSub(now, last.cycle), decay)
  }

  function Honoured(): real -> real {
    ratio => Clamp(ratio, 0.0, 1.0)
  }

  function Broken(): real -> real {
    ratio => 1.0 - Clamp(ratio, 0.0, 1.0)
  }

  function Whole(): real -> real {
    ratio => 1.0
  }

  lemma {:induction false} EagerShift(outs: seq<Outcome>, share: real -> real, then_: nat, now: nat, decay: Decay)
    requires then_ <= now
    requires forall i :: 0 <= i < |outs| ==> outs[i].cycle <= then_
    ensures EagerSum(outs, share, now, decay)
         == EagerSum(outs, share, then_, decay) * DecayFactor(now - then_, decay)
  {
    if outs == [] {
    } else {
      var init, last := outs[..|outs| - 1], outs[|outs| - 1];
      EagerShift(init, share, then_, now, decay);
      FactorAdd(then_ - last.cycle, now - then_, decay);
      assert now - last.cycle == (then_ - last.cycle) + (now - then_);
      var e, x := EagerSum(init, share, then_, decay), share(last.ratio);
      var f, g := DecayFactor(then_ - last.cycle, decay), DecayFactor(now - then_, decay);
      MulAssoc(x, f, g);
      assert (e + x * f) * g == e * g + (x * f) * g;
    }
  }

  lemma {:induction false} EagerTotal(outs: seq<Outcome>, now: nat, decay: Decay)
    ensures EagerSum(outs, Honoured(), now, decay) + EagerSum(outs, Broken(), now, decay)
         == EagerSum(outs, Whole(), now, decay)
  {
    if outs == [] {
    } else {
      EagerTotal(outs[..|outs| - 1], now, decay);
      var last := outs[|outs| - 1];
      var c, f := Clamp(last.ratio, 0.0, 1.0), DecayFactor(SaturatingSub(now, last.cycle), decay);
      assert c * f + (1.0 - c) * f == 1.0 * f;
    }
  }

  lemma Distribute(x: real, y: real, z: real)
    ensures (x + y) * z == x * z + y * z
  {
  }

  /// One recorded outcome, read later: the old pools and the new outcome fade together.
  lemma OutcomeFades(rec: Record, ratio: real, t: nat, now: nat, decay: Decay)
    requires t <= now
    ensures var after := rec.WithOutcome(ratio, t, decay);
      var g := DecayFactor(now - t, decay);
      var c := Clamp(ratio, 0.0, 1.0);
      && after.DecayedDirect(now, decay).0 == rec.DecayedDirect(t, decay).0 * g + c * g
      && after.DecayedDirect(now, decay).1 == rec.DecayedDirect(t, decay).1 * g + (1.0 - c) * g
      && after.DecayedFailureWeight(now, decay) == rec.DecayedFailureWeight(t, decay) * g + (1.0 - c) * g
  {
    var g, c := DecayFactor(now - t, decay), Clamp(ratio, 0.0, 1.0);
    Distribute(rec.DecayedDirect(t, decay).0, c, g);
    Distribute(rec.DecayedDirect(t, decay).1, 1.0 - c, g);
    Distribute(rec.DecayedFailureWeight(t, decay), 1.0 - c, g);
  }

  /// Whatever is read at any later cycle is the eager sum over all outcomes, although only
  /// one number per pool is stored and decay is applied piecewise.
  lemma {:induction false} LazyDecayIsEager(outs: seq<Outcome>, now: nat, decay: Decay)
    requires InOrder(outs)
    requires outs != [] ==> outs[|outs| - 1].cycle <= now
    ensures var rec := Recorded(BLANK, outs, decay);
      && rec.DecayedDirect(now, decay).0 == EagerSum(outs, Honoured(), now, decay)
      && rec.DecayedDirect(now, decay).1 == EagerSum(outs, Broken(), now, decay)
      && rec.DecayedFailureWeight(now, decay) == rec.DecayedDirect(now, decay).1
      && rec.DecayedDirect(now, decay).0 + rec.DecayedDirect(now, decay).1
         == EagerSum(outs, Whole(), now, decay)
  {
    EagerTotal(outs, now, decay);
    if outs == [] {
    } else {
      var init, last := outs[..|outs| - 1], outs[|outs| - 1];
      LazyDecayIsEager(init, last.cycle, decay);
      LazyStep(Recorded(BLANK, init, decay), init, last, now, decay);
      assert init + [last] == outs;
    }
  }

  /// If the pools are the eager sums when an outcome arrives, they still are later on.
  lemma LazyStep(rec: Record, init: seq<Outcome>, last: Outcome, now: nat, decay: Decay)
    requires last.cycle <= now
    requires forall i :: 0 <= i < |init| ==> init[i].cycle <= last.cycle
    requires rec.DecayedDirect(last.cycle, decay).0 == EagerSum(init, Honoured(), last.cycle, decay)
    requires rec.DecayedDirect(last.cycle, decay).1 == EagerSum(init, Broken(), last.cycle, decay)
    requires rec.DecayedFailureWeight(last.cycle, decay) == rec.DecayedDirect(last.cycle, decay).1
    ensures var after := rec.WithOutcome(last.ratio, last.cycle, decay);
      && after.DecayedDirect(now, decay).0 == EagerSum(init + [last], Honoured(), now, decay)
      && after.DecayedDirect(now, decay).1 == EagerSum(init + [last], Broken(), now, decay)
      && after.DecayedFailureWeight(now, decay) == after.DecayedDirect(now, decay).1
  {
    hide DecayFactor, Record.DecayedDirect, Record.DecayedFailureWeight, Record.WithOutcome, EagerSum;
    OutcomeFades(rec, last.ratio, last.cycle, now, decay);
    EagerStep(init, last, Honoured(), now, decay);
    EagerStep(init, last, Broken(), now, decay);
  }

  lemma EagerStep(init: seq<Outcome>, last: Outcome, share: real -> real, now: nat, decay: Decay)
    requires last.cycle <= now
    requires forall i :: 0 <= i < |init| ==> init[i].cycle <= last.cycle
    ensures EagerSum(init + [last], share, now, decay)
         == EagerSum(init, share, last.cycle, decay) * DecayFactor(now - last.cycle, decay)
            + share(last.ratio) * DecayFactor(now - last.cycle, decay)
  {
    EagerShift(init, share, last.cycle, now, decay);
    assert (init + [last])[..|init|] == init;
  }

  // ----- the record invariant -----

  lemma OutcomeKeepsSound(rec: Record, ratio: real, now: nat, decay: Decay)
    requires rec.Sound()
    ensures rec.WithOutcome(ratio, now, decay).Sound()
  {
    var f := DecayFactor(SaturatingSub(now, rec.lastEventCycle), decay);
    MulNonNeg(rec.directSuccesses, f);
    MulNonNeg(rec.directFailures, f);
    MulLeLeft(f, 1.0, rec.directFailureWeight);
  }

  // ----- hearsay influence -----

  lemma CrossDifference(p: real, b: real, q: real, d: real)
    ensures (q - p) * (b * d) == (q * d) * b - (p * b) * d
  {
  }

  lemma NonNegFactor(x: real, y: real)
    requires y > 0.0 && x * y >= 0.0
    ensures x >= 0.0
  {
    if x < 0.0 {
      MulPos(-x, y);
    }
  }

  lemma FractionLe(a: real, b: real, c: real, d: real)
    requires b > 0.0 && d > 0.0
    requires a * d <= c * b
    ensures a / b <= c / d
  {
    var p, q := a / b, c / d;
    assert p * b == a && q * d == c;
    CrossDifference(p, b, q, d);
    MulPos(b, d);
    NonNegFactor(q - p, b * d);
  }

  /// The band that `k` distinct witnesses leave around the direct evidence (s, f).
  ghost predicate WithinBand(s: real, f: real, k: nat, trust: real) {
    var w := HEARSAY_WEIGHT * k as real;
    && s + f + 1.0 + w > 0.0
    && (s + 1.0) / (s + f + 1.0 + w) <= trust <= (s + 1.0 + w) / (s + f + 1.0 + w)
  }

  /// Trust stays within a band whose width depends only on how many distinct fresh
  /// witnesses there are, not on how many reports, relays or replays arrived.
  lemma TrustBand(rec: Record, now: nat, decay: Decay)
    requires rec.Sound()
    ensures WithinBand(rec.DecayedDirect(now, decay).0, rec.DecayedDirect(now, decay).1,
              |FreshOrigins(rec.hearsay, now)|, rec.Snapshot(now, decay).trust)
  {
    hide Record.Snapshot, Record.DecayedDirect, HearsaySuccesses, HearsayFailures, FreshOrigins;
    HearsayMass(rec.hearsay, now);
    SnapshotDenominator(rec, now, decay);
    TrustIs(rec, now, decay);
    Band(rec.DecayedDirect(now, decay).0, rec.DecayedDirect(now, decay).1,
      HearsaySuccesses(rec.hearsay, now), HearsayFailures(rec.hearsay, now),
      |FreshOrigins(rec.hearsay, now)|, rec.Snapshot(now, decay).trust);
  }

  lemma Band(s: real, f: real, hs: real, hf: real, k: nat, trust: real)
    requires s >= 0.0 && f >= 0.0 && hs >= 0.0 && hf >= 0.0 && hs + hf <= HEARSAY_WEIGHT * k as real
    requires trust == (s + hs + 1.0) / (s + hs + 1.0 + (f + hf))
    ensures WithinBand(s, f, k, trust)
  {
    BandAlgebra(s, f, hs, hf, HEARSAY_WEIGHT * k as real);
  }

  lemma BandAlgebra(s: real, f: real, hs: real, hf: real, w: real)
    requires s >= 0.0 && f >= 0.0 && hs >= 0.0 && hf >= 0.0 && hs + hf <= w
    ensures (s + 1.0) / (s + f + 1.0 + w) <= (s + hs + 1.0) / (s + f + hs + hf + 1.0)
    ensures (s + hs + 1.0) / (s + f + hs + hf + 1.0) <= (s + 1.0 + w) / (s + f + 1.0 + w)
  {
    LowerBand(s + 1.0, f, hs, hf, w - hs - hf);
    UpperBand(s + 1.0, f, hs, hf, w - hs - hf);
  }

  lemma LowerBand(n: real, f: real, hs: real, hf: real, e: real)
    requires n >= 1.0 && f >= 0.0 && hs >= 0.0 && hf >= 0.0 && e >= 0.0
    ensures n / (n + f + (hs + hf + e)) <= (n + hs) / (n + f + hs + hf)
  {
    LowerIdentity(n, f, hs, hf, e);
    MulNonNeg(n, e);
    MulNonNeg(hs, n + f + hs + hf + e);
    FractionLe(n, n + f + (hs + hf + e), n + hs, n + f + hs + hf);
  }

  lemma UpperBand(n: real, f: real, hs: real, hf: real, e: real)
    requires n >= 1.0 && f >= 0.0 && hs >= 0.0 && hf >= 0.0 && e >= 0.0
    ensures (n + hs) / (n + f + hs + hf) <= (n + (hs + hf + e)) / (n + f + (hs + hf + e))
  {
    UpperIdentity(n, f, hs, hf, e);
    MulNonNeg(e, f);
    MulNonNeg(hf, n + f + hs + hf + e);
    FractionLe(n + hs, n + f + hs + hf, n + (hs + hf + e), n + f + (hs + hf + e));
  }

  lemma LowerIdentity(n: real, f: real, hs: real, hf: real, e: real)
    ensures (n + hs) * (n + f + (hs + hf + e))
         == n * (n + f + hs + hf) + n * e + hs * (n + f + hs + hf + e)
  {
  }

  lemma UpperIdentity(n: real, f: real, hs: real, hf: real, e: real)
    ensures (n + (hs + hf + e)) * (n + f + hs + hf)
         == (n + hs) * (n + f + (hs + hf + e)) + e * f + hf * (n + f + hs + hf + e)
  {
  }

  lemma PoolGrows(pool: HearsayPool, origin: AgentId, claim: Hearsay, now: nat)
    requires origin !in pool
    ensures HearsaySuccesses(pool[origin := claim], now) == HearsaySuccesses(pool, now) + claim.Success(now)
    ensures HearsayFailures(pool[origin := claim], now) == HearsayFailures(pool, now) + claim.Failure(now)
  {
    var grown := pool[origin := claim];
    assert grown.Keys == pool.Keys + {origin};
    SumOverAdd(pool.Keys, SuccessIn(grown, now), origin);
    SumOverAdd(pool.Keys, FailureIn(grown, now), origin);
    SumOverCongruent(pool.Keys, SuccessIn(grown, now), SuccessIn(pool, now));
    SumOverCongruent(pool.Keys, FailureIn(grown, now), FailureIn(pool, now));
  }

  lemma TrustIs(rec: Record, now: nat, decay: Decay)
    requires rec.Sound()
    ensures var n := rec.DecayedDirect(now, decay).0 + HearsaySuccesses(rec.hearsay, now) + 1.0;
      var d := n + (rec.DecayedDirect(now, decay).1 + HearsayFailures(rec.hearsay, now));
      n >= 1.0 && d >= 1.0 && rec.Snapshot(now, decay).trust == n / d
  {
    SnapshotDenominator(rec, now, decay);
    HearsayMass(rec.hearsay, now);
  }

  /// A claim from a witness not heard before moves trust toward the claimed value and
  /// never past it.
  lemma WitnessMovesTowardClaim(rec: Record, origin: AgentId, claim: Hearsay, now: nat, decay: Decay)
    requires rec.Sound() && origin !in rec.hearsay
    requires 0.0 <= claim.trust <= 1.0 && 1 <= claim.hops <= MAX_HOPS && !claim.Stale(now)
    ensures rec.(hearsay := rec.hearsay[origin := claim]).Sound()
    ensures var before := rec.Snapshot(now, decay).trust;
      var after := rec.(hearsay := rec.hearsay[origin := claim]).Snapshot(now, decay).trust;
      && (before < claim.trust ==> before < after < claim.trust)
      && (before > claim.trust ==> before > after > claim.trust)
      && (before == claim.trust ==> after == claim.trust)
  {
    hide Record.Snapshot, Record.DecayedDirect, HearsaySuccesses, HearsayFailures, Hearsay.Weight;
    var rec' := rec.(hearsay := rec.hearsay[origin := claim]);
    SameDirect(rec, rec'.hearsay, now, decay);
    PoolGrows(rec.hearsay, origin, claim, now);
    EntryMass(claim, now);
    TrustIs(rec, now, decay);
    TrustIs(rec', now, decay);
    var n := rec.DecayedDirect(now, decay).0 + HearsaySuccesses(rec.hearsay, now) + 1.0;
    var d := n + (rec.DecayedDirect(now, decay).1 + HearsayFailures(rec.hearsay, now));
    var n' := rec'.DecayedDirect(now, decay).0 + HearsaySuccesses(rec'.hearsay, now) + 1.0;
    var d' := n' + (rec'.DecayedDirect(now, decay).1 + HearsayFailures(rec'.hearsay, now));
    Mediant(n, d, n', d', claim.trust, claim.Weight());
  }

  lemma SameDirect(rec: Record, pool: HearsayPool, now: nat, decay: Decay)
    ensures rec.(hearsay := pool).DecayedDirect(now, decay).0 == rec.DecayedDirect(now, decay).0
    ensures rec.(hearsay := pool).DecayedDirect(now, decay).1 == rec.DecayedDirect(now, decay).1
  {
  }

  lemma Mediant(n: real, d: real, n': real, d': real, t: real, w: real)
    requires d > 0.0 && w > 0.0
    requires n' == n + t * w && d' == d + w
    ensures n / d < t ==> n / d < n' / d' < t
    ensures n / d > t ==> n / d > n' / d' > t
    ensures n / d == t ==> n' / d' == t
  {
    MediantAlgebra(n, d, t, w);
  }

  lemma MediantAlgebra(n: real, d: real, t: real, w: real)
    requires d > 0.0 && w > 0.0
    ensures n / d < t ==> n / d < (n + t * w) / (d + w) < t
    ensures n / d > t ==> n / d > (n + t * w) / (d + w) > t
    ensures n / d == t ==> (n + t * w) / (d + w) == t
  {
    var p, q := n / d, (n + t * w) / (d + w);
    assert p * d == n;
    assert q * (d + w) == n + t * w;
    assert (q - p) * (d + w) == (t - p) * w;
    assert (t - q) * (d + w) == (t - p) * d;
    SameSign(q - p, d + w, t - p, w);
    SameSign(t - q, d + w, t - p, d);
  }

  lemma SameSign(x: real, a: real, y: real, b: real)
    requires a > 0.0 && b > 0.0 && x * a == y * b
    ensures y > 0.0 ==> x > 0.0
    ensures y < 0.0 ==> x < 0.0
    ensures y == 0.0 ==> x == 0.0
  {
    if y > 0.0 {
      MulPos(y, b);
      if x <= 0.0 { MulNonNeg(-x, a); }
    } else if y < 0.0 {
      MulPos(-y, b);
      if x >= 0.0 { MulNonNeg(x, a); }
    } else if x > 0.0 {
      MulPos(x, a);
    } else if x < 0.0 {
      MulPos(-x, a);
    }
  }

  // ----- graduated punishment and forgiveness -----

  /// A blacklisted peer has broken at least two bargains: one failure is never enough.
  lemma BlacklistNeedsTwoDings(rec: Record, now: nat, decay: Decay)
    requires rec.Sound() && rec.Blacklisted(now, decay)
    ensures rec.dings >= 2
  {
    var f := DecayFactor(SaturatingSub(now, rec.lastEventCycle), decay);
    MulLeLeft(f, 1.0, rec.directFailureWeight);
  }

  /// One complete failure blacklists exactly a peer that still carries half a failure's weight.
  lemma {:induction false} OneFailureBlacklistsIff(rec: Record, now: nat, decay: Decay)
    ensures rec.WithOutcome(0.0, now, decay).Blacklisted(now, decay) <==> rec.DecayedFailureWeight(now, decay) >= 0.5
  {
    hide Record.DecayedDirect;
    var next := rec.WithOutcome(0.0, now, decay);
    assert next.directFailureWeight == rec.DecayedFailureWeight(now, decay) + 1.0;
    assert DecayFactor(0, decay) == 1.0;
    assert next.DecayedFailureWeight(now, decay) == next.directFailureWeight * 1.0;
    hide Record.WithOutcome, Record.DecayedFailureWeight;
  }

  /// Two complete failures in one cycle blacklist at once, whatever came before.
  lemma TwoStrikes(rec: Record, now: nat, decay: Decay)
    requires rec.Sound()
    ensures rec.WithOutcome(0.0, now, decay).WithOutcome(0.0, now, decay).Blacklisted(now, decay)
    ensures BLANK.WithOutcome(0.0, now, decay).dings == 1
    ensures !BLANK.WithOutcome(0.0, now, decay).Blacklisted(now, decay)
  {
    var f := DecayFactor(SaturatingSub(now, rec.lastEventCycle), decay);
    MulNonNeg(rec.directFailureWeight, f);
    assert DecayFactor(0, decay) == 1.0;
    var one := rec.WithOutcome(0.0, now, decay);
    assert one.DecayedFailureWeight(now, decay) == one.directFailureWeight;
    var two := one.WithOutcome(0.0, now, decay);
    assert two.DecayedFailureWeight(now, decay) == two.directFailureWeight;
    var b := BLANK.WithOutcome(0.0, now, decay);
    assert b.DecayedFailureWeight(now, decay) == b.directFailureWeight == 1.0;
  }

  /// With no new outcome a peer is off the blacklist `j` half-lives after the last one as
  /// soon as the weight was below 1.5 * 2^j, and stays off it; and when it was not below,
  /// it is still listed then.
  lemma Forgiveness(rec: Record, j: nat, now: nat, decay: Decay)
    requires rec.Sound() && decay.halfLife > 0
    ensures rec.Blacklisted(rec.lastEventCycle + j * decay.halfLife, decay)
        <==> rec.directFailureWeight >= DIRECT_BLACKLIST_THRESHOLD * Pow(2.0, j)
    ensures rec.directFailureWeight < DIRECT_BLACKLIST_THRESHOLD * Pow(2.0, j)
         && now >= rec.lastEventCycle + j * decay.halfLife
        ==> !rec.Blacklisted(now, decay)
  {
    hide Record.Blacklisted, DecayFactor;
    var cleared := rec.lastEventCycle + j * decay.halfLife;
    AfterHalfLives(rec, j, decay);
    if now >= cleared && !rec.Blacklisted(cleared, decay) {
      StaysCleared(rec, cleared, now, decay);
    }
  }

  lemma AfterHalfLives(rec: Record, j: nat, decay: Decay)
    requires decay.halfLife > 0
    ensures rec.Blacklisted(rec.lastEventCycle + j * decay.halfLife, decay)
        <==> rec.directFailureWeight >= DIRECT_BLACKLIST_THRESHOLD * Pow(2.0, j)
  {
    hide DecayFactor;
    FactorHalfLives(j, decay);
    HalvedThreshold(rec.directFailureWeight, j);
  }

  lemma StaysCleared(rec: Record, cleared: nat, now: nat, decay: Decay)
    requires rec.Sound()
    requires rec.lastEventCycle <= cleared <= now && !rec.Blacklisted(cleared, decay)
    ensures !rec.Blacklisted(now, decay)
  {
    hide DecayFactor;
    var a, b := cleared - rec.lastEventCycle, now - rec.lastEventCycle;
    FactorAntitone(a, b, decay);
    MulLeLeft(DecayFactor(b, decay), DecayFactor(a, decay), rec.directFailureWeight);
  }

  lemma HalvedThreshold(w: real, j: nat)
    ensures w * Pow(0.5, j) >= 1.5 <==> w >= 1.5 * Pow(2.0, j)
  {
    HalfTimesTwo(j);
    var h, t := Pow(0.5, j), Pow(2.0, j);
    assert (1.5 * t) * h == 1.5 by { MulAssoc(1.5, t, h); }
    hide Pow;
    Scaled(w, 1.5 * t, h, w * h, 1.5);
  }

  lemma MulLeLeft(x: real, y: real, z: real)
    requires x <= y && z >= 0.0
    ensures z * x <= z * y
  {
    MulLe(x, y, z);
  }

  lemma {:induction false} HalfTimesTwo(j: nat)
    ensures Pow(0.5, j) * Pow(2.0, j) == 1.0
    ensures Pow(2.0, j) * Pow(0.5, j) == 1.0
    ensures Pow(0.5, j) > 0.0
  {
    if j == 0 {
    } else {
      HalfTimesTwo(j - 1);
      var h, t := Pow(0.5, j - 1), Pow(2.0, j - 1);
      assert (0.5 * h) * (2.0 * t) == h * t;
    }
  }

  lemma RecoveryIdentity(s: real, u: real, f: real, g: real)
    ensures (s * f + 1.0) * (s * g + u * g + 1.0)
         == (s * g + 1.0) * (s * f + u * f + 1.0) - u * (f - g)
  {
    CrossTerms(s * f, s * g, u * f, u * g);
    MulAssoc(s, f, u * g);
    MulAssoc(s, g, u * f);
    assert f * (u * g) == g * (u * f);
  }

  lemma CrossTerms(x: real, y: real, p: real, q: real)
    ensures (x + 1.0) * (y + q + 1.0) - (y + 1.0) * (x + p + 1.0) == x * q - y * p + q - p
  {
  }

  /// Without hearsay and without new outcomes, trust never falls as cycles pass.
  lemma TrustRecovers(rec: Record, earlier: nat, later: nat, decay: Decay)
    requires rec.Sound() && rec.hearsay == map[]
    requires earlier <= later
    ensures rec.Snapshot(earlier, decay).trust <= rec.Snapshot(later, decay).trust
  {
    hide Record.Snapshot, DecayFactor, HearsaySuccesses, HearsayFailures;
    var a := SaturatingSub(earlier, rec.lastEventCycle);
    var b := SaturatingSub(later, rec.lastEventCycle);
    FactorAntitone(a, b, decay);
    NoHearsay(rec.hearsay, earlier);
    NoHearsay(rec.hearsay, later);
    TrustIs(rec, earlier, decay);
    TrustIs(rec, later, decay);
    var f, g := DecayFactor(a, decay), DecayFactor(b, decay);
    var n := rec.DecayedDirect(earlier, decay).0 + HearsaySuccesses(rec.hearsay, earlier) + 1.0;
    var d := n + (rec.DecayedDirect(earlier, decay).1 + HearsayFailures(rec.hearsay, earlier));
    var n' := rec.DecayedDirect(later, decay).0 + HearsaySuccesses(rec.hearsay, later) + 1.0;
    var d' := n' + (rec.DecayedDirect(later, decay).1 + HearsayFailures(rec.hearsay, later));
    Recovery(rec.directSuccesses, rec.directFailures, f, g, n, d, n', d');
  }

  lemma NoHearsay(pool: HearsayPool, now: nat)
    requires pool == map[]
    ensures HearsaySuccesses(pool, now) == 0.0
    ensures HearsayFailures(pool, now) == 0.0
  {
    assert pool.Keys == {};
  }

  lemma Recovery(s: real, u: real, f: real, g: real, n: real, d: real, n': real, d': real)
    requires s >= 0.0 && u >= 0.0 && 0.0 <= g <= f
    requires n == s * f + 1.0 && d == n + u * f && n' == s * g + 1.0 && d' == n' + u * g
    requires d > 0.0 && d' > 0.0
    ensures n / d <= n' / d'
  {
    RecoveryBand(s, u, f, g);
  }

  lemma RecoveryBand(s: real, u: real, f: real, g: real)
    requires s >= 0.0 && u >= 0.0 && 0.0 <= g <= f
    ensures s * f + u * f >= 0.0 && s * g + u * g >= 0.0
    ensures (s * f + 1.0) / (s * f + 1.0 + u * f) <= (s * g + 1.0) / (s * g + 1.0 + u * g)
  {
    RecoveryIdentity(s, u, f, g);
    MulNonNeg(u, f - g);
    MulNonNeg(s, f);
    MulNonNeg(u, f);
    MulNonNeg(s, g);
    MulNonNeg(u, g);
    FractionLe(s * f + 1.0, s * f + 1.0 + u * f, s * g + 1.0, s * g + 1.0 + u * g);
  }

  // ----- in figures -----

  /// How much a witness counts at each distance, and until when its claim counts at all.
  function WitnessWeight(hops: nat): real {
    if hops == 1 then 0.35 else if hops == 2 then 0.21 else 0.126
  }

  lemma {:induction false} WeightByDistance(claim: Hearsay, now: nat)
    requires 1 <= claim.hops <= 3
    ensures claim.Weight() == WitnessWeight(claim.hops)
    ensures claim.Stale(now) <==> now > claim.asOfCycle + 100
  {
    assert Pow(0.6, 0) == 1.0 && Pow(0.6, 1) == 0.6 && Pow(0.6, 2) == 0.36;
  }

  /// A new witness adds its weight to the two pools, split by the trust it claims; a claim more
  /// than a hundred cycles old adds nothing.
  lemma {:induction false} OneMoreWitness(pool: HearsayPool, origin: AgentId, claim: Hearsay, now: nat)
    requires origin !in pool && 1 <= claim.hops <= 3 && 0.0 <= claim.trust <= 1.0
    ensures HearsaySuccesses(map[], now) == 0.0 && HearsayFailures(map[], now) == 0.0
    ensures var w, grown := WitnessWeight(claim.hops), pool[origin := claim];
      if now <= claim.asOfCycle + 100 then
        && HearsaySuccesses(grown, now) == HearsaySuccesses(pool, now) + claim.trust * w
        && HearsayFailures(grown, now) == HearsayFailures(pool, now) + (1.0 - claim.trust) * w
      else
        && HearsaySuccesses(grown, now) == HearsaySuccesses(pool, now)
        && HearsayFailures(grown, now) == HearsayFailures(pool, now)
  {
    PoolGrows(pool, origin, claim, now);
    WeightByDistance(claim, now);
    NoHearsay(map[], now);
    hide HearsaySuccesses, HearsayFailures, Hearsay.Weight, Hearsay.Stale, WitnessWeight;
  }

  /// Trust is the share of the successes in all the evidence, with one success taken for granted.
  predicate IsTrust(trust: real, successes: real, failures: real) {
    trust * (successes + failures + 1.0) == successes + 1.0
  }

  lemma {:induction false} SnapshotIsTrust(rec: Record, now: nat, decay: Decay)
    requires rec.Sound()
    ensures IsTrust(rec.Snapshot(now, decay).trust,
              rec.DecayedDirect(now, decay).0 + HearsaySuccesses(rec.hearsay, now),
              rec.DecayedDirect(now, decay).1 + HearsayFailures(rec.hearsay, now))
  {
    TrustIs(rec, now, decay);
    var n := rec.DecayedDirect(now, decay).0 + HearsaySuccesses(rec.hearsay, now) + 1.0;
    var d := n + (rec.DecayedDirect(now, decay).1 + HearsayFailures(rec.hearsay, now));
    hide Record.DecayedDirect, Record.Snapshot, Record.Sound, HearsaySuccesses, HearsayFailures;
    Undivided(n, d, rec.Snapshot(now, decay).trust);
  }

  lemma {:induction false} Undivided(n: real, d: real, q: real)
    requires d > 0.0 && q == n / d
    ensures q * d == n
  {
  }

  /// A standing: the successes over all the evidence, with one success taken for granted; the
  /// verdict by the decayed failure weight alone; and every ding ever.
  lemma {:induction false} StandingInFigures(rec: Record, now: nat, decay: Decay)
    requires rec.Sound()
    ensures var factor := DecayFactor(SaturatingSub(now, rec.lastEventCycle), decay);
      var successes := rec.directSuccesses * factor + HearsaySuccesses(rec.hearsay, now);
      var failures := rec.directFailures * factor + HearsayFailures(rec.hearsay, now);
      var standing := rec.Snapshot(now, decay);
      && IsTrust(standing.trust, successes, failures)
      && (standing.blacklisted <==> rec.directFailureWeight * factor >= 1.5)
      && standing.dings == rec.dings
  {
    hide HearsaySuccesses, HearsayFailures, DecayFactor, Record.Snapshot;
    SnapshotIsTrust(rec, now, decay);
    SnapshotReads(rec, now, decay);
  }

  lemma {:induction false} SnapshotReads(rec: Record, now: nat, decay: Decay)
    requires rec.Sound()
    ensures rec.Snapshot(now, decay).blacklisted == rec.Blacklisted(now, decay)
    ensures rec.Snapshot(now, decay).dings == rec.dings
  {
    hide HearsaySuccesses, HearsayFailures, DecayFactor;
  }

  /// A stranger stands as somebody does about whom nothing is on record: full trust.
  lemma {:induction false} StrangersAreTrusted(now: nat, decay: Decay)
    ensures UNSEEN == Standing(1.0, false, 0)
    ensures BLANK.Snapshot(now, decay) == UNSEEN
  {
    StandingInFigures(BLANK, now, decay);
    NoHearsay(map[], now);
    hide HearsaySuccesses, HearsayFailures, DecayFactor;
  }

  /// Evidence fades by halves: whole while no cycle has passed or with decay off, one half after a
  /// half-life, and over two spells by the product of what is left after each.
  lemma {:induction false} FadesByHalves(a: nat, b: nat, decay: Decay)
    ensures DecayFactor(0, decay) == 1.0
    ensures decay.halfLife == 0 ==> DecayFactor(a, decay) == 1.0
    ensures decay.halfLife > 0 ==> DecayFactor(decay.halfLife, decay) == 0.5
    ensures DecayFactor(a + b, decay) == DecayFactor(a, decay) * DecayFactor(b, decay)
  {
    FactorAdd(a, b, decay);
  }
}
