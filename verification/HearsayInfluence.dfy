/// What hearsay can and cannot do to a standing, in every reachable state.
module HearsayInfluence {
  import opened Core
  import opened RealMath
  import opened Messages
  import opened Reputation
  import opened ReputationLaws
  import opened NegotiatorSpec
  import opened NegotiatorRuns

  ghost function BareTrust(rec: Record, now: nat, decay: Decay): real
    requires rec.Sound()
  {
    rec.(hearsay := map[]).Snapshot(now, decay).trust
  }

  /// After any run, with any messages, a peer's trust stays in the band its direct evidence
  /// and the number of distinct fresh witnesses allow.
  lemma TrustBandAlways(s: State, run: seq<Event>, peer: AgentId, now: nat)
    requires s.Valid() && Playable(s, run)
    ensures var t := Play(s, run);
      var rec := RecordOf(t.reputation, peer);
      WithinBand(rec.DecayedDirect(now, t.decay).0, rec.DecayedDirect(now, t.decay).1,
        |FreshOrigins(rec.hearsay, now)|, t.StandingOf(peer, now).trust)
  {
    var t := Play(s, run);
    hide WithinBand, Record.Snapshot, Record.DecayedDirect, FreshOrigins;
    BlankTrust(now, t.decay);
    TrustBand(RecordOf(t.reputation, peer), now, t.decay);
  }

  lemma BlankTrust(now: nat, decay: Decay)
    ensures BLANK.Sound() && BLANK.Snapshot(now, decay) == UNSEEN
  {
    assert BLANK.DecayedDirect(now, decay).0 == 0.0;
    assert BLANK.DecayedDirect(now, decay).1 == 0.0;
    NoHearsay(BLANK.hearsay, now);
    TrustIs(BLANK, now, decay);
  }

  /// In every reachable state a blacklisted peer has broken at least two bargains, whatever
  /// was said about it.
  lemma NobodyBlacklistedOnHearsay(s: State, run: seq<Event>, peer: AgentId, now: nat)
    requires s.Valid() && Playable(s, run)
    requires Play(s, run).Blacklists(peer, now)
    ensures RecordOf(Play(s, run).reputation, peer).dings >= 2
  {
    var t := Play(s, run);
    BlacklistNeedsTwoDings(t.reputation[peer], now, t.decay);
  }

  // ----- a report is documented as a direct view, but quotes the mixed score -----

  lemma CrossEqual(a: real, b: real, c: real, d: real)
    requires b > 0.0 && d > 0.0
    ensures a / b == c / d <==> a * d == c * b
  {
    var p, q := a / b, c / d;
    assert p * b == a && q * d == c;
    CrossDifference(p, b, q, d);
    MulPos(b, d);
    SameSign(q - p, b * d, c * b - a * d, 1.0);
  }

  lemma MixtureAlgebra(s: real, f: real, hs: real, hf: real)
    requires s >= 0.0 && f >= 0.0 && hs >= 0.0 && hf >= 0.0
    ensures (s + hs + 1.0) / (s + hs + 1.0 + (f + hf)) == (s + 1.0) / (s + 1.0 + f)
        <==> hs * f == (s + 1.0) * hf
  {
    CrossEqual(s + hs + 1.0, s + hs + 1.0 + (f + hf), s + 1.0, s + 1.0 + f);
    MixtureIdentity(s + 1.0, f, hs, hf);
  }

  lemma MixtureIdentity(n: real, f: real, hs: real, hf: real)
    ensures (n + hs) * (n + f) - n * (n + hs + (f + hf)) == hs * f - n * hf
  {
  }

  /// The collected hearsay pulls the score neither way.
  ghost predicate HearsayBalances(rec: Record, now: nat, decay: Decay) {
    Balanced(rec.DecayedDirect(now, decay).0, rec.DecayedDirect(now, decay).1,
      HearsaySuccesses(rec.hearsay, now), HearsayFailures(rec.hearsay, now))
  }

  /// Hearsay (hs, hf) is in proportion to direct evidence (s, f) and the prior.
  ghost predicate Balanced(s: real, f: real, hs: real, hf: real) {
    hs * f == (s + 1.0) * hf
  }

  /// A gossiped report carries the witness's own direct view exactly when the hearsay it has
  /// itself collected balances out; with no fresh hearsay it always does.
  lemma ReportIsDirectViewIff(s: State, subject: AgentId, now: nat)
    requires s.Valid()
    ensures var rec := RecordOf(s.reputation, subject);
      var quoted := ReportReputation(s, subject, now).payload.decoded.value.trust;
      && rec.Sound()
      && (quoted == BareTrust(rec, now, s.decay) <==> HearsayBalances(rec, now, s.decay))
      && (FreshOrigins(rec.hearsay, now) == {} ==> quoted == BareTrust(rec, now, s.decay))
  {
    var rec := RecordOf(s.reputation, subject);
    assert ReportReputation(s, subject, now).payload.decoded.value.trust == s.StandingOf(subject, now).trust;
    hide Record.Snapshot, Record.DecayedDirect, HearsayBalances, BareTrust, ReportReputation, FreshOrigins;
    BlankTrust(now, s.decay);
    DirectViewIff(rec, now, s.decay);
  }

  lemma DirectViewIff(rec: Record, now: nat, decay: Decay)
    requires rec.Sound()
    ensures rec.Snapshot(now, decay).trust == BareTrust(rec, now, decay) <==> HearsayBalances(rec, now, decay)
    ensures FreshOrigins(rec.hearsay, now) == {} ==> rec.Snapshot(now, decay).trust == BareTrust(rec, now, decay)
  {
    var bare := rec.(hearsay := map[]);
    assert BareTrust(rec, now, decay) == bare.Snapshot(now, decay).trust;
    hide Record.Snapshot, Record.DecayedDirect, HearsaySuccesses, HearsayFailures, BareTrust, Balanced, FreshOrigins;
    SameDirect(rec, map[], now, decay);
    NoHearsay(bare.hearsay, now);
    TrustIs(rec, now, decay);
    TrustIs(bare, now, decay);
    HearsayMass(rec.hearsay, now);
    SnapshotDenominator(rec, now, decay);
    var s, f := rec.DecayedDirect(now, decay).0, rec.DecayedDirect(now, decay).1;
    var hs, hf := HearsaySuccesses(rec.hearsay, now), HearsayFailures(rec.hearsay, now);
    var n := rec.DecayedDirect(now, decay).0 + HearsaySuccesses(rec.hearsay, now) + 1.0;
    var d := n + (rec.DecayedDirect(now, decay).1 + HearsayFailures(rec.hearsay, now));
    var n' := bare.DecayedDirect(now, decay).0 + HearsaySuccesses(bare.hearsay, now) + 1.0;
    var d' := n' + (bare.DecayedDirect(now, decay).1 + HearsayFailures(bare.hearsay, now));
    Mixture(s, f, hs, hf, n, d, n', d');
  }

  lemma Mixture(s: real, f: real, hs: real, hf: real, n: real, d: real, n': real, d': real)
    requires s >= 0.0 && f >= 0.0 && hs >= 0.0 && hf >= 0.0
    requires n == s + hs + 1.0 && d == n + (f + hf) && n' == s + 1.0 && d' == n' + f
    ensures d > 0.0 && d' > 0.0
    ensures n / d == n' / d' <==> Balanced(s, f, hs, hf)
    ensures hs == 0.0 && hf == 0.0 ==> n / d == n' / d'
  {
    MixtureAlgebra(s, f, hs, hf);
  }
}
