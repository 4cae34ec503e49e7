/// Runs of one negotiator: any sequence of its operations, with any incoming messages.
module NegotiatorRuns {
  import opened Core
  import opened Messages
  import opened Reputation
  import opened NegotiatorSpec

  datatype Event =
    | ProposeEvent(gives: Resource, wants: Resource, nonce: nat, now: nat)
    | AcceptEvent(msg: SignedMessage)
    | OfferEvent(msg: SignedMessage, now: nat)
    | DeliverEvent(gives: Resource, nonce: nat)
    | SettleEvent(msg: SignedMessage, now: nat)
    | SweepEvent(now: nat, timeout: nat, acceptedOrder: seq<nat>, proposedOrder: seq<nat>)
    | PenalizeEvent(peer: AgentId, now: nat)
    | ReportEvent(msg: SignedMessage, now: nat)
    | GossipEvent(subject: AgentId, now: nat)
    | RelayEvent(msg: SignedMessage)
    | PinEvent(agent: AgentId, key: PublicKey)

  datatype Reply =
    | Silent
    | Emitted(msg: SignedMessage)
    | Verdict(result: Result<()>)
    | Decision(decision: Result<Option<SignedMessage>>)
    | Shipped(shipment: Result<SignedMessage>)

  /// The only thing asked of the environment: a sweep visits exactly the expired trades.
  ghost predicate Enabled(s: State, e: Event) {
    e.SweepEvent? ==> SweepOrders(s, e.now, e.timeout, e.acceptedOrder, e.proposedOrder)
  }

  ghost function Step(s: State, e: Event): (State, Reply)
    requires s.Valid() && Enabled(s, e)
  {
    match e
    case ProposeEvent(gives, wants, nonce, now) =>
      var (t, m) := ProposeOffer(s, gives, wants, nonce, now);
      (t, Emitted(m))
    case AcceptEvent(m) =>
      var (t, r) := ReceiveAccept(s, m);
      (t, Verdict(r))
    case OfferEvent(m, now) =>
      var (t, r) := ReceiveOffer(s, m, now);
      (t, Decision(r))
    case DeliverEvent(gives, nonce) =>
      var (t, r) := Deliver(s, gives, nonce);
      (t, Shipped(r))
    case SettleEvent(m, now) =>
      var (t, r) := ReceiveSettle(s, m, now);
      (t, Verdict(r))
    case SweepEvent(now, timeout, acceptedOrder, proposedOrder) =>
      (Sweep(s, now, timeout, acceptedOrder, proposedOrder), Silent)
    case PenalizeEvent(peer, now) => (Penalize(s, peer, now), Silent)
    case ReportEvent(m, now) =>
      var (t, r) := ReceiveReport(s, m, now);
      (t, Verdict(r))
    case GossipEvent(subject, now) => (s, Emitted(ReportReputation(s, subject, now)))
    case RelayEvent(m) =>
      (s, match RelayReputationReport(s, m) case Some(out) => Emitted(out) case None => Silent)
    case PinEvent(agent, key) => (Pin(s, agent, key), Silent)
  }

  /// The messages an answer puts on the wire.
  function Sent(r: Reply): set<SignedMessage> {
    match r
    case Emitted(m) => {m}
    case Decision(Ok(Some(m))) => {m}
    case Shipped(Ok(m)) => {m}
    case _ => {}
  }

  lemma FoldSound(s: State, claim: Claim, now: nat)
    requires s.Valid() && 1 <= claim.hops <= MAX_HOPS
    ensures FoldHearsay(s, claim, now).Valid()
  {
    var rec := RecordOf(s.reputation, claim.subject);
    assert rec.(hearsay := PoolWith(rec.hearsay, claim)).Sound();
  }

  lemma AcceptKeepsValid(s: State, m: SignedMessage)
    requires s.Valid()
    ensures ReceiveAccept(s, m).0.Valid()
  {
  }

  lemma OfferKeepsValid(s: State, m: SignedMessage, now: nat)
    requires s.Valid()
    ensures ReceiveOffer(s, m, now).0.Valid()
  {
  }

  /// An offer is answered with an acceptance exactly if it passes the guards.
  lemma {:induction false} TakenIff(s: State, m: SignedMessage, now: nat)
    ensures var (t, r) := ReceiveOffer(s, m, now);
      && (r.Ok? && r.value.Some? <==> Takes(s, m, now))
      && (Takes(s, m, now) ==>
            t.accepted == s.accepted[m.payload.decoded.value.nonce :=
              Trade(Some(m.signer), m.payload.decoded.value.gives, now)])
      && (!Takes(s, m, now) ==> t.accepted == s.accepted)
  {
    var s1 := Verify(s, m).0;
    assert s1.Blacklists(m.signer, now) == s.Blacklists(m.signer, now);
    assert Verify(s, m).1 == Acceptable(s, m);
    hide Verify, Acceptable, CanAfford, State.Blacklists, HeldWith;
  }

  lemma SettledValid(s: State, peer: AgentId, trade: Trade, gives: Resource, now: nat)
    requires s.Valid()
    ensures Settled(s, peer, trade, gives, now).Valid()
  {
    JudgedSound(s.reputation, peer, FulfillmentRatio(trade.promised, gives), now, s.decay);
  }

  lemma SettleKeepsValid(s: State, m: SignedMessage, now: nat)
    requires s.Valid()
    ensures ReceiveSettle(s, m, now).0.Valid()
  {
    var (s1, ok) := Verify(s, m);
    if ok && m.payload.decoded.value.Settle? {
      var Settle(gives, _, nonce) := m.payload.decoded.value;
      if nonce in s1.accepted {
        SettledValid(s1.(accepted := s1.accepted - {nonce}), m.signer, s1.accepted[nonce], gives, now);
      } else if nonce in s1.proposed {
        SettledValid(s1.(proposed := s1.proposed - {nonce}), m.signer, s1.proposed[nonce], gives, now);
      }
    }
  }

  lemma ReportKeepsValid(s: State, m: SignedMessage, now: nat)
    requires s.Valid()
    ensures ReceiveReport(s, m, now).0.Valid()
  {
    var (s1, claim) := ReportClaim(s, m, now);
    if claim.Ok? && claim.value.Some? {
      FoldSound(s1, claim.value.value, now);
    }
  }

  lemma StepKeepsValid(s: State, e: Event)
    requires s.Valid() && Enabled(s, e)
    ensures Step(s, e).0.Valid()
  {
    match e
    case AcceptEvent(m) => AcceptKeepsValid(s, m);
    case OfferEvent(m, now) => OfferKeepsValid(s, m, now);
    case SettleEvent(m, now) => SettleKeepsValid(s, m, now);
    case SweepEvent(now, timeout, acceptedOrder, proposedOrder) =>
      PenalizeAllSound(s.reputation, SweepBlames(s, acceptedOrder, proposedOrder), now, s.decay);
    case PenalizeEvent(peer, now) => JudgedSound(s.reputation, peer, 0.0, now, s.decay);
    case ReportEvent(m, now) => ReportKeepsValid(s, m, now);
    case _ =>
  }

  /// `run` can be played from `s`, each event being enabled when its turn comes.
  ghost predicate Playable(s: State, run: seq<Event>)
    requires s.Valid()
    decreases |run|
  {
    run == [] ||
    (Enabled(s, run[0])
     && (StepKeepsValid(s, run[0]); Playable(Step(s, run[0]).0, run[1..])))
  }

  ghost function Play(s: State, run: seq<Event>): (t: State)
    requires s.Valid() && Playable(s, run)
    ensures t.Valid()
    decreases |run|
  {
    if run == [] then s
    else
      StepKeepsValid(s, run[0]);
      Play(Step(s, run[0]).0, run[1..])
  }
}
