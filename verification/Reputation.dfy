/// Decayed Beta-reputation: a pool of direct outcomes and a pool of hearsay.
module Reputation {
  import opened Core
  import opened RealMath

  const PRIOR_SUCCESS: real := 1.0
  const PRIOR_FAILURE: real := 0.0
  const HEARSAY_WEIGHT: real := 0.35
  const PER_HOP_DECAY: real := 0.6
  const MAX_HOPS: nat := 3
  const DIRECT_BLACKLIST_THRESHOLD: real := 1.5
  const MAX_REPORT_AGE_CYCLES: nat := 100

  datatype DecayRaw = Decay(halfLife: nat, perCycle: real)

  ghost predicate IsDecay(d: DecayRaw) {
    d.halfLife > 0 ==> 0.0 < d.perCycle < 1.0 && Pow(d.perCycle, d.halfLife) == 0.5
  }

  /// A half-life together with the per-cycle factor it determines. A half-life of
  /// zero switches decay off.
  type Decay = d: DecayRaw | IsDecay(d) witness Decay(0, 0.5)

  function DecayFactor(elapsed: nat, decay: Decay): (r: real)
    ensures 0.0 < r <= 1.0
  {
    if decay.halfLife == 0 then 1.0
    else
      PowUnit(decay.perCycle, elapsed);
      Pow(decay.perCycle, elapsed)
  }

  /// The public view of a peer's standing.
  datatype Standing = Standing(trust: real, blacklisted: bool, dings: nat)

  const UNSEEN: Standing := Standing(1.0, false, 0)

  datatype Hearsay = Hearsay(trust: real, asOfCycle: nat, hops: nat) {
    predicate Stale(now: nat) {
      SaturatingSub(now, asOfCycle) > MAX_REPORT_AGE_CYCLES
    }

    function Weight(): (w: real)
      ensures 0.0 < w <= HEARSAY_WEIGHT
    {
      PowUnit(PER_HOP_DECAY, SaturatingSub(hops, 1));
      HEARSAY_WEIGHT * Pow(PER_HOP_DECAY, SaturatingSub(hops, 1))
    }

    /// What this entry adds to the success side at `now`.
    function Success(now: nat): real {
      if Stale(now) then 0.0 else Clamp(trust, 0.0, 1.0) * Weight()
    }

    /// What this entry adds to the failure side at `now`.
    function Failure(now: nat): real {
      if Stale(now) then 0.0 else (1.0 - Clamp(trust, 0.0, 1.0)) * Weight()
    }
  }

  type HearsayPool = map<AgentId, Hearsay>

  ghost function SuccessIn(pool: HearsayPool, now: nat): AgentId -> real {
    o => if o in pool then pool[o].Success(now) else 0.0
  }

  ghost function FailureIn(pool: HearsayPool, now: nat): AgentId -> real {
    o => if o in pool then pool[o].Failure(now) else 0.0
  }

  ghost function HearsaySuccesses(pool: HearsayPool, now: nat): real {
    SumOver(pool.Keys, SuccessIn(pool, now))
  }

  ghost function HearsayFailures(pool: HearsayPool, now: nat): real {
    SumOver(pool.Keys, FailureIn(pool, now))
  }

  /// The original witnesses whose claims still count at `now`.
  function FreshOrigins(pool: HearsayPool, now: nat): set<AgentId> {
    set o | o in pool && !pool[o].Stale(now)
  }

  datatype Record = Record(
    directSuccesses: real,
    directFailures: real,
    dings: nat,
    directFailureWeight: real,
    hearsay: HearsayPool,
    lastEventCycle: nat)
  {
    function DecayedDirect(now: nat, decay: Decay): (real, real) {
      var factor := DecayFactor(SaturatingSub(now, lastEventCycle), decay);
      (directSuccesses * factor, directFailures * factor)
    }

    function DecayedFailureWeight(now: nat, decay: Decay): real {
      directFailureWeight * DecayFactor(SaturatingSub(now, lastEventCycle), decay)
    }

    predicate Blacklisted(now: nat, decay: Decay) {
      DecayedFailureWeight(now, decay) >= DIRECT_BLACKLIST_THRESHOLD
    }

    ghost function Snapshot(now: nat, decay: Decay): Standing
      requires Sound()
    {
      var direct := DecayedDirect(now, decay);
      var successes := direct.0 + HearsaySuccesses(hearsay, now);
      var failures := direct.1 + HearsayFailures(hearsay, now);
      SnapshotDenominator(this, now, decay);
      Standing(
        (successes + PRIOR_SUCCESS) / (successes + failures + PRIOR_SUCCESS + PRIOR_FAILURE),
        Blacklisted(now, decay),
        dings)
    }

    /// A direct trade outcome, decaying the earlier evidence to `now` first.
    function WithOutcome(ratio: real, now: nat, decay: Decay): Record {
      var direct := DecayedDirect(now, decay);
      var weight := DecayedFailureWeight(now, decay);
      var r := Clamp(ratio, 0.0, 1.0);
      Record(
        direct.0 + r,
        direct.1 + (1.0 - r),
        if r < 1.0 then dings + 1 else dings,
        weight + (1.0 - r),
        hearsay,
        now)
    }

    /// The invariant of every record this code can build.
    ghost predicate Sound() {
      && directSuccesses >= 0.0
      && directFailures >= 0.0
      && directFailureWeight == directFailures
      && directFailureWeight <= dings as real
      && forall o :: o in hearsay ==> 0.0 <= hearsay[o].trust <= 1.0 && 1 <= hearsay[o].hops <= MAX_HOPS
    }
  }

  const BLANK: Record := Record(0.0, 0.0, 0, 0.0, map[], 0)

  // ----- hearsay mass -----

  /// Over any set of origins the hearsay mass is at most one weight per fresh origin.
  lemma {:induction false} MassOver(pool: HearsayPool, keys: set<AgentId>, now: nat)
    requires keys <= pool.Keys
    ensures 0.0 <= SumOver(keys, SuccessIn(pool, now))
    ensures 0.0 <= SumOver(keys, FailureIn(pool, now))
    ensures SumOver(keys, SuccessIn(pool, now)) + SumOver(keys, FailureIn(pool, now))
         <= HEARSAY_WEIGHT * |keys * FreshOrigins(pool, now)| as real
    decreases |keys|
  {
    hide SuccessIn, FailureIn, FreshOrigins;
    if keys == {} {
      SumOverEmpty(SuccessIn(pool, now));
      SumOverEmpty(FailureIn(pool, now));
    } else {
      var k :| k in keys;
      SumOverRemove(keys, SuccessIn(pool, now), k);
      SumOverRemove(keys, FailureIn(pool, now), k);
      MassOver(pool, keys - {k}, now);
      OriginMass(pool, k, now);
      var live := FreshOrigins(pool, now);
      assert keys * live == (keys - {k}) * live + (if k in live then {k} else {});
    }
  }

  /// One origin carries at most one weight, and none once its claim is stale.
  lemma {:induction false} OriginMass(pool: HearsayPool, k: AgentId, now: nat)
    requires k in pool
    ensures 0.0 <= SuccessIn(pool, now)(k) && 0.0 <= FailureIn(pool, now)(k)
    ensures SuccessIn(pool, now)(k) + FailureIn(pool, now)(k) <= if k in FreshOrigins(pool, now) then HEARSAY_WEIGHT else 0.0
  {
    EntryMass(pool[k], now);
    hide Hearsay.Success, Hearsay.Failure;
  }

  lemma EntryMass(h: Hearsay, now: nat)
    ensures 0.0 <= h.Success(now)
    ensures 0.0 <= h.Failure(now)
    ensures h.Success(now) + h.Failure(now) == if h.Stale(now) then 0.0 else h.Weight()
  {
    var t, w := Clamp(h.trust, 0.0, 1.0), h.Weight();
    MulNonNeg(t, w);
    MulNonNeg(1.0 - t, w);
    assert t * w + (1.0 - t) * w == w;
  }

  lemma HearsayMass(pool: HearsayPool, now: nat)
    ensures 0.0 <= HearsaySuccesses(pool, now)
    ensures 0.0 <= HearsayFailures(pool, now)
    ensures HearsaySuccesses(pool, now) + HearsayFailures(pool, now)
         <= HEARSAY_WEIGHT * |FreshOrigins(pool, now)| as real
  {
    MassOver(pool, pool.Keys, now);
    assert pool.Keys * FreshOrigins(pool, now) == FreshOrigins(pool, now);
  }

  lemma SnapshotDenominator(rec: Record, now: nat, decay: Decay)
    requires rec.directSuccesses >= 0.0 && rec.directFailures >= 0.0
    ensures rec.DecayedDirect(now, decay).0 >= 0.0
    ensures rec.DecayedDirect(now, decay).1 >= 0.0
    ensures rec.DecayedDirect(now, decay).0 + HearsaySuccesses(rec.hearsay, now)
          + (rec.DecayedDirect(now, decay).1 + HearsayFailures(rec.hearsay, now)) >= 0.0
  {
    HearsayMass(rec.hearsay, now);
    var f := DecayFactor(SaturatingSub(now, rec.lastEventCycle), decay);
    MulNonNeg(rec.directSuccesses, f);
    MulNonNeg(rec.directFailures, f);
  }
}
