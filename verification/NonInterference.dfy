/// Hearsay never reaches trading: deleting every reputation report from a run changes no
/// balance, no pending trade, no direct evidence and no decision.
module NonInterference {
  import opened Core
  import opened RealMath
  import opened Messages
  import opened Reputation
  import opened NegotiatorSpec
  import opened NegotiatorRuns
  import Provenance

  type KeyOf = AgentId -> PublicKey

  /// A record without its hearsay.
  function Bare(rec: Record): Record {
    rec.(hearsay := map[])
  }

  ghost predicate SameDirect(reps: Reputations, other: Reputations) {
    forall p :: Bare(RecordOf(reps, p)) == Bare(RecordOf(other, p))
  }

  ghost predicate TruePins(s: State, keyOf: KeyOf) {
    forall a :: a in s.pins ==> s.pins[a] == keyOf(a)
  }

  /// The states differ at most in hearsay and in whom they have pinned already.
  ghost predicate Twins(s: State, t: State, keyOf: KeyOf) {
    && s.id == t.id && s.key == t.key && s.balances == t.balances
    && s.accepted == t.accepted && s.proposed == t.proposed
    && s.maxPending == t.maxPending && s.decay == t.decay
    && SameDirect(s.reputation, t.reputation)
    && TruePins(s, keyOf) && TruePins(t, keyOf)
  }

  predicate OneKey(m: SignedMessage, keyOf: KeyOf) {
    VerifySignature(m.publicKey, m.payload, m.signature) ==> m.publicKey == keyOf(m.signer)
  }

  /// Each identity in the event uses its one key.
  predicate EventOneKey(e: Event, keyOf: KeyOf) {
    match e
    case AcceptEvent(m) => OneKey(m, keyOf)
    case OfferEvent(m, _) => OneKey(m, keyOf)
    case SettleEvent(m, _) => OneKey(m, keyOf)
    case ReportEvent(m, _) =>
      OneKey(m, keyOf) && (Provenance.Embedded(m).Some? ==> OneKey(Provenance.Embedded(m).value, keyOf))
    case PinEvent(agent, key) => key == keyOf(agent)
    case _ => true
  }

  lemma VerifyTwins(s: State, t: State, m: SignedMessage, keyOf: KeyOf)
    requires TruePins(s, keyOf) && TruePins(t, keyOf) && OneKey(m, keyOf)
    ensures Verify(s, m).1 == Verify(t, m).1
    ensures TruePins(Verify(s, m).0, keyOf) && TruePins(Verify(t, m).0, keyOf)
  {
  }

  lemma VerifiedTwins(s: State, t: State, m: SignedMessage, keyOf: KeyOf)
    requires Twins(s, t, keyOf) && OneKey(m, keyOf)
    ensures Verify(s, m).1 == Verify(t, m).1
    ensures Twins(Verify(s, m).0, Verify(t, m).0, keyOf)
  {
    VerifyTwins(s, t, m, keyOf);
    hide SameDirect, TruePins, Verify;
  }

  lemma BlacklistTwins(s: State, t: State, peer: AgentId, now: nat)
    requires SameDirect(s.reputation, t.reputation) && s.decay == t.decay
    ensures s.Blacklists(peer, now) == t.Blacklists(peer, now)
  {
    var r, q := RecordOf(s.reputation, peer), RecordOf(t.reputation, peer);
    assert Bare(r) == Bare(q);
    assert r.directFailureWeight == Bare(r).directFailureWeight && q.directFailureWeight == Bare(q).directFailureWeight;
    assert r.lastEventCycle == Bare(r).lastEventCycle && q.lastEventCycle == Bare(q).lastEventCycle;
    assert !BLANK.Blacklisted(now, s.decay);
  }

  lemma JudgedTwins(reps: Reputations, other: Reputations, peer: AgentId, ratio: real, now: nat, decay: Decay)
    requires SameDirect(reps, other)
    ensures SameDirect(Judged(reps, peer, ratio, now, decay), Judged(other, peer, ratio, now, decay))
  {
    var r, q := RecordOf(reps, peer), RecordOf(other, peer);
    BareOutcome(r, ratio, now, decay);
    BareOutcome(q, ratio, now, decay);
    forall p ensures Bare(RecordOf(Judged(reps, peer, ratio, now, decay), p))
                  == Bare(RecordOf(Judged(other, peer, ratio, now, decay), p))
    {
      assert Bare(RecordOf(reps, p)) == Bare(RecordOf(other, p));
    }
  }

  /// Judging an outcome neither reads nor writes hearsay.
  lemma BareOutcome(rec: Record, ratio: real, now: nat, decay: Decay)
    ensures Bare(rec.WithOutcome(ratio, now, decay)) == Bare(rec).WithOutcome(ratio, now, decay)
  {
  }

  lemma {:induction false} PenalizeAllTwins(reps: Reputations, other: Reputations, peers: seq<AgentId>, now: nat, decay: Decay)
    requires SameDirect(reps, other)
    ensures SameDirect(PenalizeAll(reps, peers, now, decay), PenalizeAll(other, peers, now, decay))
  {
    if peers != [] {
      var init := peers[..|peers| - 1];
      PenalizeAllTwins(reps, other, init, now, decay);
      JudgedTwins(PenalizeAll(reps, init, now, decay), PenalizeAll(other, init, now, decay), peers[|peers| - 1], 0.0, now, decay);
    }
  }

  // ----- one step, side by side -----

  lemma AcceptTwins(s: State, t: State, m: SignedMessage, keyOf: KeyOf)
    requires Twins(s, t, keyOf) && OneKey(m, keyOf)
    ensures Twins(ReceiveAccept(s, m).0, ReceiveAccept(t, m).0, keyOf)
    ensures ReceiveAccept(s, m).1 == ReceiveAccept(t, m).1
  {
    VerifiedTwins(s, t, m, keyOf);
    hide SameDirect, TruePins, Verify, OneKey;
  }

  lemma OfferTwins(s: State, t: State, m: SignedMessage, now: nat, keyOf: KeyOf)
    requires Twins(s, t, keyOf) && OneKey(m, keyOf)
    ensures Twins(ReceiveOffer(s, m, now).0, ReceiveOffer(t, m, now).0, keyOf)
    ensures ReceiveOffer(s, m, now).1 == ReceiveOffer(t, m, now).1
  {
    VerifiedTwins(s, t, m, keyOf);
    BlacklistTwins(Verify(s, m).0, Verify(t, m).0, m.signer, now);
    hide SameDirect, TruePins, Verify, OneKey, State.Blacklists;
  }

  lemma {:induction false} SettledTwins(s: State, t: State, peer: AgentId, trade: Trade, gives: Resource, now: nat, keyOf: KeyOf)
    requires Twins(s, t, keyOf)
    ensures Twins(Settled(s, peer, trade, gives, now), Settled(t, peer, trade, gives, now), keyOf)
  {
    JudgedTwins(s.reputation, t.reputation, peer, FulfillmentRatio(trade.promised, gives), now, s.decay);
    hide SameDirect, TruePins, Judged, FulfillmentRatio;
  }

  lemma SettleTwins(s: State, t: State, m: SignedMessage, now: nat, keyOf: KeyOf)
    requires Twins(s, t, keyOf) && OneKey(m, keyOf)
    ensures Twins(ReceiveSettle(s, m, now).0, ReceiveSettle(t, m, now).0, keyOf)
    ensures ReceiveSettle(s, m, now).1 == ReceiveSettle(t, m, now).1
  {
    VerifiedTwins(s, t, m, keyOf);
    hide SameDirect, TruePins, Verify, Settled, OneKey;
    var s1, t1 := Verify(s, m).0, Verify(t, m).0;
    if Verify(s, m).1 && m.payload.decoded.value.Settle? {
      var Settle(gives, _, nonce) := m.payload.decoded.value;
      if nonce in s1.accepted {
        SettledTwins(s1.(accepted := s1.accepted - {nonce}), t1.(accepted := t1.accepted - {nonce}), m.signer,
          s1.accepted[nonce], gives, now, keyOf);
      } else if nonce in s1.proposed {
        SettledTwins(s1.(proposed := s1.proposed - {nonce}), t1.(proposed := t1.proposed - {nonce}), m.signer,
          s1.proposed[nonce], gives, now, keyOf);
      }
    }
  }

  lemma SweepTwins(s: State, t: State, e: Event, keyOf: KeyOf)
    requires s.Valid() && t.Valid() && e.SweepEvent? && Enabled(s, e)
    requires Twins(s, t, keyOf)
    ensures Enabled(t, e)
    ensures Twins(Step(s, e).0, Step(t, e).0, keyOf)
  {
    PenalizeAllTwins(s.reputation, t.reputation, SweepBlames(s, e.acceptedOrder, e.proposedOrder), e.now, s.decay);
    hide SameDirect;
  }

  lemma SimpleTwins(s: State, t: State, e: Event, keyOf: KeyOf)
    requires s.Valid() && t.Valid()
    requires Twins(s, t, keyOf) && EventOneKey(e, keyOf)
    requires e.ProposeEvent? || e.DeliverEvent? || e.GossipEvent? || e.RelayEvent? || e.PinEvent?
    ensures Twins(Step(s, e).0, Step(t, e).0, keyOf)
    ensures !e.GossipEvent? ==> Step(s, e).1 == Step(t, e).1
  {
    hide SameDirect;
  }

  /// Trading sees no difference between twins. A gossiped opinion is the one answer that
  /// may differ: it quotes the trust score, which hearsay does move.
  lemma StepTwins(s: State, t: State, e: Event, keyOf: KeyOf)
    requires s.Valid() && t.Valid() && Enabled(s, e)
    requires Twins(s, t, keyOf) && EventOneKey(e, keyOf) && !e.ReportEvent?
    ensures Enabled(t, e)
    ensures Twins(Step(s, e).0, Step(t, e).0, keyOf)
    ensures !e.GossipEvent? ==> Step(s, e).1 == Step(t, e).1
  {
    match e
    case AcceptEvent(m) => AcceptTwins(s, t, m, keyOf);
    case OfferEvent(m, now) => OfferTwins(s, t, m, now, keyOf);
    case SettleEvent(m, now) => SettleTwins(s, t, m, now, keyOf);
    case SweepEvent(_, _, _, _) => SweepTwins(s, t, e, keyOf);
    case PenalizeEvent(peer, now) => JudgedTwins(s.reputation, t.reputation, peer, 0.0, now, s.decay);
    case _ => SimpleTwins(s, t, e, keyOf);
  }

  /// Receiving a report leaves the twin relation intact.
  lemma ReportTwins(s: State, t: State, m: SignedMessage, now: nat, keyOf: KeyOf)
    requires Twins(s, t, keyOf) && EventOneKey(ReportEvent(m, now), keyOf)
    ensures Twins(ReceiveReport(s, m, now).0, t, keyOf)
  {
    var (s1, claim) := ReportClaim(s, m, now);
    ClaimKeepsTruePins(s, m, now, keyOf);
    hide ReportClaim, EventOneKey, TruePins;
    if claim.Ok? && claim.value.Some? {
      FoldKeepsBare(s1, claim.value.value, now);
      hide FoldHearsay, Bare;
    }
  }

  lemma VerifyKeepsTruePins(s: State, m: SignedMessage, keyOf: KeyOf)
    requires TruePins(s, keyOf) && OneKey(m, keyOf)
    ensures TruePins(Verify(s, m).0, keyOf)
    ensures TruePins(VerifyBinding(s, m.signer, m.publicKey, m.payload, m.signature).0, keyOf)
  {
  }

  lemma ClaimKeepsTruePins(s: State, m: SignedMessage, now: nat, keyOf: KeyOf)
    requires TruePins(s, keyOf) && EventOneKey(ReportEvent(m, now), keyOf)
    ensures TruePins(ReportClaim(s, m, now).0, keyOf)
  {
    VerifyKeepsTruePins(s, m, keyOf);
    var s1 := Verify(s, m).0;
    if Provenance.Embedded(m).Some? {
      VerifyKeepsTruePins(s1, Provenance.Embedded(m).value, keyOf);
    }
    hide TruePins, OneKey, Verify, VerifyBinding;
  }

  lemma FoldKeepsBare(s: State, claim: Claim, now: nat)
    ensures var t := FoldHearsay(s, claim, now);
      && t == s.(reputation := t.reputation)
      && forall p :: Bare(RecordOf(t.reputation, p)) == Bare(RecordOf(s.reputation, p))
  {
  }

  // ----- whole runs, side by side -----

  function WithoutReports(run: seq<Event>): seq<Event> {
    if run == [] then []
    else if run[0].ReportEvent? then WithoutReports(run[1..])
    else [run[0]] + WithoutReports(run[1..])
  }

  /// The answers given along a run, leaving out reports and the contents of gossip.
  ghost function Answers(s: State, run: seq<Event>): seq<Reply>
    requires s.Valid() && Playable(s, run)
    decreases |run|
  {
    if run == [] then []
    else
      StepKeepsValid(s, run[0]);
      var (t, reply) := Step(s, run[0]);
      (if run[0].ReportEvent? then [] else [if run[0].GossipEvent? then Silent else reply])
      + Answers(t, run[1..])
  }

  ghost predicate RunOneKey(run: seq<Event>, keyOf: KeyOf) {
    forall i :: 0 <= i < |run| ==> EventOneKey(run[i], keyOf)
  }

  lemma {:induction false} TwinRuns(s: State, t: State, run: seq<Event>, keyOf: KeyOf)
    requires s.Valid() && t.Valid() && Playable(s, run)
    requires Twins(s, t, keyOf) && RunOneKey(run, keyOf)
    ensures Playable(t, WithoutReports(run))
    ensures Twins(Play(s, run), Play(t, WithoutReports(run)), keyOf)
    ensures Answers(s, run) == Answers(t, WithoutReports(run))
    decreases |run|
  {
    if run != [] {
      var e, rest := run[0], run[1..];
      assert EventOneKey(e, keyOf);
      StepKeepsValid(s, e);
      if e.ReportEvent? {
        ReportTwins(s, t, e.msg, e.now, keyOf);
        hide Step, Twins, EventOneKey;
        assert Step(s, e).0 == ReceiveReport(s, e.msg, e.now).0 by { ReportStep(s, e); }
        TwinRuns(Step(s, e).0, t, rest, keyOf);
      } else {
        StepTwins(s, t, e, keyOf);
        StepKeepsValid(t, e);
        hide Step, Twins, EventOneKey;
        TwinRuns(Step(s, e).0, Step(t, e).0, rest, keyOf);
        var shorter := WithoutReports(run);
        assert shorter[0] == e && shorter[1..] == WithoutReports(rest);
      }
    }
  }

  lemma ReportStep(s: State, e: Event)
    requires s.Valid() && e.ReportEvent?
    ensures Step(s, e).0 == ReceiveReport(s, e.msg, e.now).0
  {
  }

  /// Deleting every reputation report from any run leaves the ledger, the pending trades, all
  /// direct evidence, every answer and every blacklist verdict at every cycle as they were.
  lemma HearsayNeverInterferes(s: State, run: seq<Event>, keyOf: KeyOf, peer: AgentId, now: nat)
    requires s.Valid() && Playable(s, run)
    requires TruePins(s, keyOf) && RunOneKey(run, keyOf)
    ensures Playable(s, WithoutReports(run))
    ensures var with, without := Play(s, run), Play(s, WithoutReports(run));
      && with.balances == without.balances
      && with.accepted == without.accepted
      && with.proposed == without.proposed
      && Bare(RecordOf(with.reputation, peer)) == Bare(RecordOf(without.reputation, peer))
      && with.StandingOf(peer, now).blacklisted == without.StandingOf(peer, now).blacklisted
      && with.StandingOf(peer, now).dings == without.StandingOf(peer, now).dings
    ensures Answers(s, run) == Answers(s, WithoutReports(run))
  {
    TwinRuns(s, s, run, keyOf);
    var with, without := Play(s, run), Play(s, WithoutReports(run));
    BlacklistTwins(with, without, peer, now);
    StandingVerdict(with, peer, now);
    StandingVerdict(without, peer, now);
    assert Bare(RecordOf(with.reputation, peer)) == Bare(RecordOf(without.reputation, peer));
  }

  lemma StandingVerdict(s: State, peer: AgentId, now: nat)
    requires s.Valid()
    ensures s.StandingOf(peer, now).blacklisted == s.Blacklists(peer, now)
    ensures s.StandingOf(peer, now).dings == Bare(RecordOf(s.reputation, peer)).dings
  {
  }

  // ----- where the hypothesis is needed -----

  /// Receiving the report will bind nobody new to a key: it is refused outright, or its signer
  /// is known and its embedded original is not looked at, not signed, or by a known origin.
  predicate PinsNobody(s: State, m: SignedMessage, now: nat) {
    !Acceptable(s, m)
    || (m.signer in s.pins
        && (s.Blacklists(m.signer, now)
            || match m.payload.decoded.value
               case RelayedReputationReport(_, origin, hops, provenance) =>
                 hops == 0 || hops > MAX_HOPS || provenance.Corrupt? || provenance.inner.signer != origin
                 || !VerifySignature(provenance.inner.publicKey, provenance.inner.payload, provenance.inner.signature)
                 || origin in s.pins
               case _ => true))
  }

  lemma {:induction false} PinsKeptIff(s: State, m: SignedMessage, now: nat)
    ensures ReceiveReport(s, m, now).0.pins == s.pins <==> PinsNobody(s, m, now)
  {
    hide Record.Blacklisted, Admissible, PoolWith;
    assert ReceiveReport(s, m, now).0.pins == ReportClaim(s, m, now).0.pins;
    var s1 := Verify(s, m).0;
    assert s1.Blacklists(m.signer, now) == s.Blacklists(m.signer, now);
    assert m.signer in s1.pins || !Acceptable(s, m);
    assert Verify(s, m).1 == Acceptable(s, m);
  }

  /// A report leaves the belief in every later message as it was exactly when it pins nobody
  /// new: reports and trades share one table of pins.
  lemma {:induction false} ReportHarmlessIff(s: State, m: SignedMessage, now: nat)
    ensures (forall o :: Verify(ReceiveReport(s, m, now).0, o).1 == Verify(s, o).1) <==> PinsNobody(s, m, now)
  {
    var after := ReceiveReport(s, m, now).0;
    PinsKeptIff(s, m, now);
    assert OnlyPinsGrow(s, ReportClaim(s, m, now).0);
    hide PinsNobody, ReportClaim;
    if after.pins != s.pins {
      var a :| a in after.pins && a !in s.pins;
      var other := PublicKey(after.pins[a].bytes + [0]);
      assert other != after.pins[a] by { assert |other.bytes| != |after.pins[a].bytes|; }
      var o := SignAs(a, other, Settle(Resource(Energy, 0.0, ""), Resource(Energy, 0.0, ""), 0));
      assert WireLength(o.payload.decoded.value) <= MAX_MESSAGE_BYTES;
      assert Verify(s, o).1 && !Verify(after, o).1;
    }
  }

  /// A report under a key that is not its signer's locks the real signer out of trading.
  lemma ForeignKeyLocksOut(s: State, report: SignedMessage, now: nat, offer: SignedMessage)
    requires Verify(s, report).1 && Verify(s, offer).1
    requires report.signer == offer.signer && report.publicKey != offer.publicKey
    requires report.signer !in s.pins
    ensures ReceiveOffer(ReceiveReport(s, report, now).0, offer, now).1 == Err(IntegrityError)
  {
    assert OnlyPinsGrow(Verify(s, report).0, ReportClaim(s, report, now).0);
  }
}
