/// The negotiator as a state machine on values: what each operation answers and
/// which state it leaves. The class in Negotiator.dfy is proved against it.
module NegotiatorSpec {
  import opened Core
  import opened RealMath
  import opened Messages
  import opened Reputation
  import ReputationLaws

  // ----- resource ledger -----

  type Balances = map<ResourceKind, real>

  function Balance(b: Balances, kind: ResourceKind): real {
    if kind in b then b[kind] else 0.0
  }

  function Credited(b: Balances, r: Resource): Balances {
    b[r.kind := Balance(b, r.kind) + r.quantity]
  }

  function Debited(b: Balances, r: Resource): Balances {
    b[r.kind := Balance(b, r.kind) - r.quantity]
  }

  predicate CanAfford(b: Balances, r: Resource) {
    Balance(b, r.kind) >= r.quantity
  }

  /// The share of what was expected that was delivered; nothing across kinds.
  function FulfillmentRatio(expected: Resource, delivered: Resource): (r: real)
    ensures 0.0 <= r <= 1.0
  {
    if expected.kind != delivered.kind then 0.0
    else if expected.quantity <= 0.0 then 1.0
    else Clamp(delivered.quantity / expected.quantity, 0.0, 1.0)
  }

  // ----- state -----

  datatype Trade = Trade(counterparty: Option<AgentId>, promised: Resource, openedAt: nat)

  type Trades = map<nat, Trade>

  datatype BrokenBargain = BrokenBargain(peer: AgentId, trustAfter: real, dingsAfter: nat)

  type Reputations = map<AgentId, Record>

  datatype State = State(
    id: AgentId,
    key: PublicKey,
    balances: Balances,
    reputation: Reputations,
    accepted: Trades,
    proposed: Trades,
    pins: map<AgentId, PublicKey>,
    maxPending: nat,
    decay: Decay)
  {
    /// Every record is one this code can build, and the offeree side always knows its proposer.
    ghost predicate Valid() {
      && AllSound(reputation)
      && (forall n :: n in accepted ==> accepted[n].counterparty.Some?)
    }

    predicate Blacklists(peer: AgentId, now: nat) {
      peer in reputation && reputation[peer].Blacklisted(now, decay)
    }

    ghost function StandingOf(peer: AgentId, now: nat): Standing
      requires AllSound(reputation)
    {
      StandingIn(reputation, peer, now, decay)
    }
  }

  ghost predicate AllSound(reps: Reputations) {
    forall p :: p in reps ==> reps[p].Sound()
  }

  function RecordOf(reps: Reputations, peer: AgentId): Record {
    if peer in reps then reps[peer] else BLANK
  }

  ghost function StandingIn(reps: Reputations, peer: AgentId, now: nat, decay: Decay): Standing
    requires AllSound(reps)
  {
    if peer in reps then reps[peer].Snapshot(now, decay) else UNSEEN
  }

  function Initial(id: AgentId, key: PublicKey, initial: seq<Resource>, maxPending: nat, decay: Decay): State {
    State(id, key, CreditAll(map[], initial), map[], map[], map[], map[], maxPending, decay)
  }

  function CreditAll(b: Balances, rs: seq<Resource>): Balances {
    if rs == [] then b else Credited(CreditAll(b, rs[..|rs| - 1]), rs[|rs| - 1])
  }

  // ----- identity -----

  /// The states differ only in that `t` may pin more identities.
  ghost predicate OnlyPinsGrow(s: State, t: State) {
    && t == s.(pins := t.pins)
    && (forall a :: a in s.pins ==> a in t.pins && t.pins[a] == s.pins[a])
  }

  /// Check a signature and bind the signer to the key on first use.
  function VerifyBinding(s: State, signer: AgentId, key: PublicKey, payload: Payload, signature: Signature): (r: (State, bool))
    ensures OnlyPinsGrow(s, r.0)
  {
    if !VerifySignature(key, payload, signature) then (s, false)
    else if signer in s.pins then (s, s.pins[signer] == key)
    else (s.(pins := s.pins[signer := key]), true)
  }

  function Verify(s: State, sm: SignedMessage): (r: (State, bool))
    ensures OnlyPinsGrow(s, r.0)
    ensures r.1 ==> sm.Message().Ok?
  {
    if sm.Message().Err? then (s, false)
    else VerifyBinding(s, sm.signer, sm.publicKey, sm.payload, sm.signature)
  }

  /// `sm` is readable and signed under the key its signer is bound to, or under any key if the
  /// signer is new.
  predicate Acceptable(s: State, sm: SignedMessage) {
    && sm.Message().Ok?
    && VerifySignature(sm.publicKey, sm.payload, sm.signature)
    && (sm.signer in s.pins ==> s.pins[sm.signer] == sm.publicKey)
  }

  function Sign(s: State, msg: BarterMessage): SignedMessage {
    SignAs(s.id, s.key, msg)
  }

  function Pin(s: State, agent: AgentId, key: PublicKey): State {
    s.(pins := s.pins[agent := key])
  }

  // ----- trading -----

  function ProposeOffer(s: State, gives: Resource, wants: Resource, nonce: nat, now: nat): (State, SignedMessage) {
    (s.(proposed := s.proposed[nonce := Trade(None, wants, now)]), Sign(s, Offer(gives, wants, nonce)))
  }

  function ReceiveAccept(s: State, accept: SignedMessage): (State, Result<()>) {
    var (s1, ok) := Verify(s, accept);
    if !ok then (s1, Err(IntegrityError))
    else
      match accept.payload.decoded.value
      case Accept(_, _, nonce) =>
        if nonce !in s1.proposed then (s1, Err(InvalidError))
        else
          var trade := s1.proposed[nonce];
          if trade.counterparty.None? then
            (s1.(proposed := s1.proposed[nonce := trade.(counterparty := Some(accept.signer))]), Ok(()))
          else if trade.counterparty.value == accept.signer then (s1, Ok(()))
          else (s1, Err(IntegrityError))
      case _ => (s1, Err(InvalidError))
  }

  /// The nonces of the trades held with `peer`.
  function HeldWith(trades: Trades, peer: AgentId): set<nat> {
    set n | n in trades && trades[n].counterparty == Some(peer)
  }

  function ReceiveOffer(s: State, offer: SignedMessage, now: nat): (State, Result<Option<SignedMessage>>) {
    var (s1, ok) := Verify(s, offer);
    if !ok then (s1, Err(IntegrityError))
    else
      match offer.payload.decoded.value
      case Offer(gives, wants, nonce) =>
        if s1.Blacklists(offer.signer, now) then (s1, Ok(None))
        else if |HeldWith(s1.accepted, offer.signer)| >= s1.maxPending then (s1, Err(ResourceError))
        else if !CanAfford(s1.balances, wants) then (s1, Ok(None))
        else
          (s1.(accepted := s1.accepted[nonce := Trade(Some(offer.signer), gives, now)]),
           Ok(Some(Sign(s1, Accept(gives, wants, nonce)))))
      case _ => (s1, Err(InvalidError))
  }

  /// The guards of taking an offer.
  predicate Takes(s: State, offer: SignedMessage, now: nat) {
    && Acceptable(s, offer)
    && offer.payload.decoded.value.Offer?
    && !s.Blacklists(offer.signer, now)
    && |HeldWith(s.accepted, offer.signer)| < s.maxPending
    && CanAfford(s.balances, offer.payload.decoded.value.wants)
  }

  function Deliver(s: State, gives: Resource, nonce: nat): (State, Result<SignedMessage>) {
    if !CanAfford(s.balances, gives) then (s, Err(ResourceError))
    else
      (s.(balances := Debited(s.balances, gives)),
       Ok(Sign(s, Settle(gives, Resource(gives.kind, 0.0, gives.unit), nonce))))
  }

  function WithOutcome(s: State, peer: AgentId, ratio: real, now: nat): State {
    s.(reputation := Judged(s.reputation, peer, ratio, now, s.decay))
  }

  function Judged(reps: Reputations, peer: AgentId, ratio: real, now: nat, decay: Decay): Reputations {
    reps[peer := RecordOf(reps, peer).WithOutcome(ratio, now, decay)]
  }

  function Penalize(s: State, peer: AgentId, now: nat): State {
    WithOutcome(s, peer, 0.0, now)
  }

  /// A settlement is honoured from the recorded counterparty only, once, and scored
  /// against what was promised.
  function ReceiveSettle(s: State, settle: SignedMessage, now: nat): (State, Result<()>) {
    var (s1, ok) := Verify(s, settle);
    if !ok then (s1, Err(IntegrityError))
    else
      match settle.payload.decoded.value
      case Settle(gives, _, nonce) =>
        if nonce in s1.accepted then
          var trade := s1.accepted[nonce];
          if trade.counterparty != Some(settle.signer) then (s1, Err(IntegrityError))
          else
            (Settled(s1.(accepted := s1.accepted - {nonce}), settle.signer, trade, gives, now), Ok(()))
        else if nonce in s1.proposed then
          var trade := s1.proposed[nonce];
          if trade.counterparty != Some(settle.signer) then (s1, Err(IntegrityError))
          else
            (Settled(s1.(proposed := s1.proposed - {nonce}), settle.signer, trade, gives, now), Ok(()))
        else (s1, Err(IntegrityError))
      case _ => (s1, Err(InvalidError))
  }

  function Settled(s: State, peer: AgentId, trade: Trade, gives: Resource, now: nat): State {
    WithOutcome(s.(balances := Credited(s.balances, gives)), peer, FulfillmentRatio(trade.promised, gives), now)
  }

  // ----- timeouts -----

  function Expired(trades: Trades, now: nat, timeout: nat): set<nat> {
    set n | n in trades && SaturatingSub(now, trades[n].openedAt) >= timeout
  }

  /// `order` lists every element of `items` once.
  ghost predicate Enumerates(order: seq<nat>, items: set<nat>) {
    && (forall n :: n in order <==> n in items)
    && (forall i, j :: 0 <= i < j < |order| ==> order[i] != order[j])
  }

  /// Whom the trades name, in the given order; an unbound trade names no one.
  function Blamed(trades: Trades, order: seq<nat>): seq<AgentId>
    requires forall n :: n in order ==> n in trades
  {
    if order == [] then []
    else
      var n := order[|order| - 1];
      Blamed(trades, order[..|order| - 1])
      + (if trades[n].counterparty.Some? then [trades[n].counterparty.value] else [])
  }

  function PenalizeAll(reps: Reputations, peers: seq<AgentId>, now: nat, decay: Decay): Reputations {
    if peers == [] then reps
    else Judged(PenalizeAll(reps, peers[..|peers| - 1], now, decay), peers[|peers| - 1], 0.0, now, decay)
  }

  lemma {:induction false} PenalizeAllSound(reps: Reputations, peers: seq<AgentId>, now: nat, decay: Decay)
    requires AllSound(reps)
    ensures AllSound(PenalizeAll(reps, peers, now, decay))
  {
    if peers != [] {
      PenalizeAllSound(reps, peers[..|peers| - 1], now, decay);
      JudgedSound(PenalizeAll(reps, peers[..|peers| - 1], now, decay), peers[|peers| - 1], 0.0, now, decay);
    }
  }

  lemma JudgedSound(reps: Reputations, peer: AgentId, ratio: real, now: nat, decay: Decay)
    requires AllSound(reps)
    ensures AllSound(Judged(reps, peer, ratio, now, decay))
  {
    ReputationLaws.OutcomeKeepsSound(RecordOf(reps, peer), ratio, now, decay);
  }

  /// The reports a sweep returns: each penalty followed by the peer's standing then.
  ghost function Reports(reps: Reputations, peers: seq<AgentId>, now: nat, decay: Decay): seq<BrokenBargain>
    requires AllSound(reps)
  {
    if peers == [] then []
    else
      PenalizeAllSound(reps, peers, now, decay);
      var last := peers[|peers| - 1];
      var standing := StandingIn(PenalizeAll(reps, peers, now, decay), last, now, decay);
      Reports(reps, peers[..|peers| - 1], now, decay) + [BrokenBargain(last, standing.trust, standing.dings)]
  }

  /// Whom a sweep blames when it visits the expired trades in the given orders.
  function SweepBlames(s: State, acceptedOrder: seq<nat>, proposedOrder: seq<nat>): seq<AgentId>
    requires forall n :: n in acceptedOrder ==> n in s.accepted
    requires forall n :: n in proposedOrder ==> n in s.proposed
  {
    Blamed(s.accepted, acceptedOrder) + Blamed(s.proposed, proposedOrder)
  }

  /// A sweep visits the expired trades of each table in some order.
  ghost predicate SweepOrders(s: State, now: nat, timeout: nat, acceptedOrder: seq<nat>, proposedOrder: seq<nat>) {
    && Enumerates(acceptedOrder, Expired(s.accepted, now, timeout))
    && Enumerates(proposedOrder, Expired(s.proposed, now, timeout))
  }

  function Sweep(s: State, now: nat, timeout: nat, acceptedOrder: seq<nat>, proposedOrder: seq<nat>): State
    requires forall n :: n in acceptedOrder ==> n in s.accepted
    requires forall n :: n in proposedOrder ==> n in s.proposed
  {
    s.(accepted := s.accepted - Expired(s.accepted, now, timeout),
       proposed := s.proposed - Expired(s.proposed, now, timeout),
       reputation := PenalizeAll(s.reputation, SweepBlames(s, acceptedOrder, proposedOrder), now, s.decay))
  }

  // ----- gossip -----

  /// An opinion about `subject`, attributed to its original witness.
  datatype Claim = Claim(subject: AgentId, origin: AgentId, trust: real, asOfCycle: nat, hops: nat)

  ghost function ReportReputation(s: State, subject: AgentId, now: nat): SignedMessage
    requires AllSound(s.reputation)
  {
    var standing := s.StandingOf(subject, now);
    Sign(s, ReputationReport(subject, standing.trust, standing.dings, now))
  }

  function RelayReputationReport(s: State, msg: SignedMessage): Option<SignedMessage> {
    if msg.Message().Err? then None
    else
      match msg.payload.decoded.value
      case ReputationReport(subject, _, _, _) =>
        if 1 >= MAX_HOPS then None
        else Some(Sign(s, RelayedReputationReport(subject, msg.signer, 2, Intact(msg))))
      case RelayedReputationReport(subject, origin, hops, provenance) =>
        if hops >= MAX_HOPS then None
        else Some(Sign(s, RelayedReputationReport(subject, origin, hops + 1, provenance)))
      case _ => None
  }

  /// What a relayed report claims, anchored in the embedded original.
  function RelayedClaim(s: State, subject: AgentId, origin: AgentId, hops: nat, provenance: Provenance): (r: (State, Result<Option<Claim>>))
    ensures OnlyPinsGrow(s, r.0)
    ensures r.1.Ok? && r.1.value.Some? ==> 1 <= r.1.value.value.hops <= MAX_HOPS
  {
    if hops == 0 || hops > MAX_HOPS || provenance.Corrupt? || provenance.inner.signer != origin then (s, Ok(None))
    else
      var inner := provenance.inner;
      var (s1, ok) := VerifyBinding(s, inner.signer, inner.publicKey, inner.payload, inner.signature);
      if !ok then (s1, Ok(None))
      else if inner.Message().Err? then (s1, Err(inner.Message().error))
      else
        match inner.payload.decoded.value
        case ReputationReport(innerSubject, trust, _, asOfCycle) =>
          if innerSubject != subject then (s1, Ok(None))
          else (s1, Ok(Some(Claim(subject, origin, trust, asOfCycle, hops))))
        case _ => (s1, Ok(None))
  }

  /// What a report message claims, if anything, once its signatures are checked. The
  /// state changes only by pinning signers seen for the first time.
  function ReportClaim(s: State, report: SignedMessage, now: nat): (r: (State, Result<Option<Claim>>))
    ensures OnlyPinsGrow(s, r.0)
    ensures r.1.Ok? && r.1.value.Some? ==> 1 <= r.1.value.value.hops <= MAX_HOPS
  {
    var (s1, ok) := Verify(s, report);
    if !ok then (s1, Err(IntegrityError))
    else if s1.Blacklists(report.signer, now) then (s1, Ok(None))
    else
      match report.payload.decoded.value
      case ReputationReport(subject, trust, _, asOfCycle) =>
        (s1, Ok(Some(Claim(subject, report.signer, trust, asOfCycle, 1))))
      case RelayedReputationReport(subject, origin, hops, provenance) =>
        RelayedClaim(s1, subject, origin, hops, provenance)
      case _ => (s1, Err(InvalidError))
  }

  predicate Admissible(id: AgentId, claim: Claim, now: nat) {
    && claim.subject != id
    && claim.subject != claim.origin
    && claim.asOfCycle <= now
    && SaturatingSub(now, claim.asOfCycle) <= MAX_REPORT_AGE_CYCLES
  }

  function PoolWith(pool: HearsayPool, claim: Claim): HearsayPool {
    if claim.origin !in pool || claim.asOfCycle >= pool[claim.origin].asOfCycle then
      pool[claim.origin := Hearsay(Clamp(claim.trust, 0.0, 1.0), claim.asOfCycle, claim.hops)]
    else pool
  }

  function FoldHearsay(s: State, claim: Claim, now: nat): State {
    if !Admissible(s.id, claim, now) then s
    else
      var rec := RecordOf(s.reputation, claim.subject);
      s.(reputation := s.reputation[claim.subject := rec.(hearsay := PoolWith(rec.hearsay, claim))])
  }

  function ReceiveReport(s: State, report: SignedMessage, now: nat): (State, Result<()>) {
    var (s1, claim) := ReportClaim(s, report, now);
    match claim
    case Err(e) => (s1, Err(e))
    case Ok(None) => (s1, Ok(()))
    case Ok(Some(c)) => (FoldHearsay(s1, c, now), Ok(()))
  }
}
