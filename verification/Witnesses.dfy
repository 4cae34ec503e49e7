/// Inputs at which the code departs from what its documentation says.
module Witnesses {
  import opened Core
  import opened RealMath
  import opened Messages
  import opened Reputation
  import opened ReputationLaws
  import opened NegotiatorSpec
  import opened NegotiatorRuns
  import opened HearsayInfluence
  import opened Convergence
  import opened HonestTrade
  import opened Members
  import NonInterference

  /// Member 0's report about agent 9, as of cycle 0.
  function Report(trust: real): SignedMessage {
    Sign(Member(0, 0.0), ReputationReport(UniformId(9), trust, 0, 0))
  }

  /// Member 1's relay of it.
  function Relay(trust: real): SignedMessage {
    Sign(Member(1, 0.0), RelayedReputationReport(UniformId(9), UniformId(0), 2, Intact(Report(trust))))
  }

  lemma {:induction false} RelayIsRelayed(trust: real)
    ensures RelayReputationReport(Member(1, 0.0), Report(trust)) == Some(Relay(trust))
    ensures Report(trust).Message().Ok? && Relay(trust).Message().Ok?
  {
    assert WireLength(ReputationReport(UniformId(9), trust, 0, 0)) == 1 + 32 + 8 + 1 + 1;
    assert VarintLength(64) == 1 && VarintLength(43) == 1 && VarintLength(1) == 1;
    assert VarintLength(2) == 1 && VarintLength(143) == 2;
  }

  /// Nothing is held against the two of them, and neither is bound to another key.
  predicate Open(s: State) {
    && s.reputation.Keys <= {UniformId(9)}
    && Trusts(s, UniformId(0), PublicKey([0])) && Trusts(s, UniformId(1), PublicKey([1]))
  }

  /// A report received from member 0 or relayed by member 1 claims the same, one hop apart.
  lemma {:induction false} ClaimsReceived(s: State, trust: real, now: nat)
    requires Open(s)
    ensures ReportClaim(s, Report(trust), now).1 == Ok(Some(Claim(UniformId(9), UniformId(0), trust, 0, 1)))
    ensures ReportClaim(s, Relay(trust), now).1 == Ok(Some(Claim(UniformId(9), UniformId(0), trust, 0, 2)))
    ensures Open(ReportClaim(s, Report(trust), now).0) && Open(ReportClaim(s, Relay(trust), now).0)
  {
    RelayIsRelayed(trust);
    UniformIdsDiffer(0, 9);
    UniformIdsDiffer(1, 9);
    UniformIdsDiffer(0, 1);
    hide WireLength, UniformId;
    Authentic(s, UniformId(0), PublicKey([0]), ReputationReport(UniformId(9), trust, 0, 0));
    Authentic(s, UniformId(1), PublicKey([1]), Relay(trust).payload.decoded.value);
    var s1 := s.(pins := s.pins[UniformId(1) := PublicKey([1])]);
    assert Verify(s, Relay(trust)) == (s1, true);
    Authentic(s1, UniformId(0), PublicKey([0]), ReputationReport(UniformId(9), trust, 0, 0));
    assert Verify(s1, Report(trust)).1;
  }

  /// The same opinion received directly and by relay is kept at one hop or at two, depending on
  /// which arrived last.
  lemma {:induction false} RelayOrderShows(trust: real)
    ensures var s := Member(2, 0.0);
      && Entry(ReceiveAll(s, [Relay(trust), Report(trust)], 0).reputation, UniformId(9), UniformId(0))
         == Some(Hearsay(Clamp(trust, 0.0, 1.0), 0, 1))
      && Entry(ReceiveAll(s, [Report(trust), Relay(trust)], 0).reputation, UniformId(9), UniformId(0))
         == Some(Hearsay(Clamp(trust, 0.0, 1.0), 0, 2))
  {
    UniformIdsDiffer(2, 9);
    UniformIdsDiffer(0, 9);
    Twice(Member(2, 0.0), Relay(trust), 2, Report(trust), 1, trust);
    Twice(Member(2, 0.0), Report(trust), 1, Relay(trust), 2, trust);
  }

  /// Of two messages that claim the same as of one cycle the later one stays.
  lemma {:induction false} Twice(s: State, a: SignedMessage, hopsA: nat, b: SignedMessage, hopsB: nat, trust: real)
    requires Open(s) && s.reputation == map[] && s.id != UniformId(9) && UniformId(0) != UniformId(9)
    requires (a == Report(trust) && hopsA == 1) || (a == Relay(trust) && hopsA == 2)
    requires (b == Report(trust) && hopsB == 1) || (b == Relay(trust) && hopsB == 2)
    ensures Entry(ReceiveAll(s, [a, b], 0).reputation, UniformId(9), UniformId(0))
         == Some(Hearsay(Clamp(trust, 0.0, 1.0), 0, hopsB))
  {
    hide ReportClaim, Report, Relay, UniformId;
    assert [a, b][..1] == [a] && [a][..0] == [];
    assert ReceiveAll(s, [a], 0) == ReceiveReport(s, a, 0).0;
    var t := ReceiveReport(s, a, 0).0;
    ClaimsReceived(s, trust, 0);
    var s1 := ReportClaim(s, a, 0).0;
    assert t == FoldHearsay(s1, Claim(UniformId(9), UniformId(0), trust, 0, hopsA), 0);
    assert s1.id == s.id && s1.reputation == s.reputation by { assert OnlyPinsGrow(s, s1); }
    assert Open(t);
    ClaimsReceived(t, trust, 0);
    var t1 := ReportClaim(t, b, 0).0;
    assert t1.id == t.id && t1.reputation == t.reputation by { assert OnlyPinsGrow(t, t1); }
    FoldOneEntry(s1, Claim(UniformId(9), UniformId(0), trust, 0, hopsA), UniformId(9), UniformId(0), 0);
    FoldOneEntry(t1, Claim(UniformId(9), UniformId(0), trust, 0, hopsB), UniformId(9), UniformId(0), 0);
  }

  /// Having heard one lukewarm report, an agent that never traded with the subject passes on that
  /// lukewarm score as its own direct view, which is full trust.
  lemma {:induction false} HearsayIsPassedOnAsDirect()
    ensures var t := ReceiveReport(Member(2, 0.0), Report(0.5), 0).0;
      && t.Valid()
      && BareTrust(RecordOf(t.reputation, UniformId(9)), 0, t.decay) == 1.0
      && ReportReputation(t, UniformId(9), 0).payload.decoded.value.trust < 1.0
  {
    var s := Member(2, 0.0);
    UniformIdsDiffer(2, 9);
    UniformIdsDiffer(0, 9);
    ClaimsReceived(s, 0.5, 0);
    ReportKeepsValid(s, Report(0.5), 0);
    var t := ReceiveReport(s, Report(0.5), 0).0;
    var claim := Hearsay(0.5, 0, 1);
    var s1 := ReportClaim(s, Report(0.5), 0).0;
    assert OnlyPinsGrow(s, s1);
    hide ReportClaim, Report, UniformId;
    assert RecordOf(t.reputation, UniformId(9)) == BLANK.(hearsay := BLANK.hearsay[UniformId(0) := claim]);
    BlankTrust(0, t.decay);
    hide Record.Snapshot;
    WitnessMovesTowardClaim(BLANK, UniformId(0), claim, 0, t.decay);
    assert RecordOf(t.reputation, UniformId(9)).(hearsay := map[]) == BLANK;
  }

  /// Member 0's offer is taken by an agent that has met nobody, but not once a single report
  /// signed in member 0's name under another key has come in.
  lemma {:induction false} OneReportLocksOut()
    ensures var s, r := Member(2, 0.0), Resource(Energy, 0.0, "J");
      var report := SignAs(UniformId(0), PublicKey([7]), ReputationReport(UniformId(9), 0.5, 0, 0));
      var offer := Sign(Member(0, 0.0), Offer(r, r, 7));
      && ReceiveOffer(s, offer, 0).1.Ok? && ReceiveOffer(s, offer, 0).1.value.Some?
      && ReceiveOffer(ReceiveReport(s, report, 0).0, offer, 0).1 == Err(IntegrityError)
  {
    var s, a, r := Member(2, 0.0), Member(0, 0.0), Resource(Energy, 0.0, "J");
    var report := SignAs(UniformId(0), PublicKey([7]), ReputationReport(UniformId(9), 0.5, 0, 0));
    var offer := Sign(a, Offer(r, r, 7));
    assert WireLength(Offer(r, r, 7)) <= 100 && report.payload.length <= 100;
    hide WireLength, UniformId;
    assert HeldWith(s.accepted, a.id) == {};
    OfferIsTaken(s, a, r, r, 7, 0);
    Authentic(s, UniformId(0), PublicKey([7]), ReputationReport(UniformId(9), 0.5, 0, 0));
    Authentic(s, a.id, a.key, Offer(r, r, 7));
    NonInterference.ForeignKeyLocksOut(s, report, 0, offer);
  }
}
