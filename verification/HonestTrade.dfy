/// The exchange the protocol is for: two parties that keep their word both come out even.
module HonestTrade {
  import opened Core
  import opened RealMath
  import opened Messages
  import opened Reputation
  import opened NegotiatorSpec
  import opened Accounting

  /// `s` does not hold `id` to another key.
  predicate Trusts(s: State, id: AgentId, key: PublicKey) {
    id in s.pins ==> s.pins[id] == key
  }

  /// The settle that delivering `r` sends.
  function SettleOf(r: Resource, nonce: nat): BarterMessage {
    Settle(r, Resource(r.kind, 0.0, r.unit), nonce)
  }

  predicate Fits(msg: BarterMessage) {
    WireLength(msg) <= MAX_MESSAGE_BYTES
  }

  lemma {:induction false} Authentic(s: State, id: AgentId, key: PublicKey, msg: BarterMessage)
    requires Fits(msg) && Trusts(s, id, key)
    ensures Verify(s, SignAs(id, key, msg)) == (s.(pins := s.pins[id := key]), true)
  {
    hide WireLength;
    if id in s.pins {
      assert s.pins[id := key] == s.pins;
    }
  }

  lemma {:induction false} OfferIsTaken(b: State, a: State, gives: Resource, wants: Resource, nonce: nat, now: nat)
    requires Fits(Offer(gives, wants, nonce)) && Trusts(b, a.id, a.key)
    requires !b.Blacklists(a.id, now) && |HeldWith(b.accepted, a.id)| < b.maxPending && CanAfford(b.balances, wants)
    ensures ReceiveOffer(b, Sign(a, Offer(gives, wants, nonce)), now)
         == (b.(pins := b.pins[a.id := a.key], accepted := b.accepted[nonce := Trade(Some(a.id), gives, now)]),
             Ok(Some(Sign(b, Accept(gives, wants, nonce)))))
  {
    Authentic(b, a.id, a.key, Offer(gives, wants, nonce));
    hide Verify, WireLength;
  }

  lemma {:induction false} AcceptIsBound(a: State, b: State, gives: Resource, wants: Resource, nonce: nat)
    requires Fits(Accept(gives, wants, nonce)) && Trusts(a, b.id, b.key)
    requires nonce in a.proposed && a.proposed[nonce].counterparty.None?
    ensures ReceiveAccept(a, Sign(b, Accept(gives, wants, nonce)))
         == (a.(pins := a.pins[b.id := b.key],
                proposed := a.proposed[nonce := a.proposed[nonce].(counterparty := Some(b.id))]),
             Ok(()))
  {
    Authentic(a, b.id, b.key, Accept(gives, wants, nonce));
    hide Verify, WireLength;
  }

  /// A settle from the counterparty that delivers all that was promised is credited in full
  /// and costs the counterparty nothing.
  lemma {:induction false} FullSettleIsHonoured(s: State, from: State, r: Resource, nonce: nat, now: nat, side: Side)
    requires Fits(SettleOf(r, nonce)) && Trusts(s, from.id, from.key)
    requires side == Offeree <==> nonce in s.accepted
    requires nonce in TradesOn(s, side)
    requires TradesOn(s, side)[nonce].counterparty == Some(from.id) && TradesOn(s, side)[nonce].promised == r
    ensures var (t, verdict) := ReceiveSettle(s, Sign(from, SettleOf(r, nonce)), now);
      && verdict == Ok(())
      && t.balances == Credited(s.balances, r)
      && TradesOn(t, side) == TradesOn(s, side) - {nonce}
      && RecordOf(t.reputation, from.id).dings == RecordOf(s.reputation, from.id).dings
  {
    Authentic(s, from.id, from.key, SettleOf(r, nonce));
    RatioIsShareDelivered(r, r);
    hide Verify, WireLength, FulfillmentRatio, Record.DecayedDirect, Record.DecayedFailureWeight;
  }

  /// Proposal, acceptance, both deliveries and both settlements: every step is answered with
  /// success, each side's ledger has given what it promised and gained what it was promised,
  /// nothing is pending, and neither holds anything against the other.
  lemma {:induction false} HonestTradeCompletes(a: State, b: State, gives: Resource, wants: Resource, nonce: nat, now: nat, later: nat)
    requires a.id != b.id && Trusts(a, b.id, b.key) && Trusts(b, a.id, a.key)
    requires nonce !in a.accepted
    requires CanAfford(a.balances, gives) && CanAfford(b.balances, wants)
    requires !b.Blacklists(a.id, now) && |HeldWith(b.accepted, a.id)| < b.maxPending
    requires Fits(Offer(gives, wants, nonce)) && Fits(Accept(gives, wants, nonce))
    requires Fits(SettleOf(gives, nonce)) && Fits(SettleOf(wants, nonce))
    ensures var (a1, offer) := ProposeOffer(a, gives, wants, nonce, now);
      var (b1, decision) := ReceiveOffer(b, offer, now);
      && decision.Ok? && decision.value.Some?
      && var (a2, bound) := ReceiveAccept(a1, decision.value.value);
      bound == Ok(())
      && var (a3, fromA) := Deliver(a2, gives, nonce);
      var (b2, fromB) := Deliver(b1, wants, nonce);
      && fromA.Ok? && fromB.Ok?
      && var (a4, creditedA) := ReceiveSettle(a3, fromB.value, later);
      var (b3, creditedB) := ReceiveSettle(b2, fromA.value, later);
      && creditedA == Ok(()) && creditedB == Ok(())
      && a4.balances == Credited(Debited(a.balances, gives), wants)
      && b3.balances == Credited(Debited(b.balances, wants), gives)
      && nonce !in a4.proposed && nonce !in b3.accepted
      && RecordOf(a4.reputation, b.id).dings == RecordOf(a.reputation, b.id).dings
      && RecordOf(b3.reputation, a.id).dings == RecordOf(b.reputation, a.id).dings
  {
    hide ReceiveOffer, ReceiveAccept, ReceiveSettle, Fits, RecordOf, Credited, Debited, CanAfford, HeldWith, State.Blacklists;
    var a1 := ProposeOffer(a, gives, wants, nonce, now).0;
    OfferIsTaken(b, a, gives, wants, nonce, now);
    var b1 := ReceiveOffer(b, Sign(a, Offer(gives, wants, nonce)), now).0;
    AcceptIsBound(a1, b1, gives, wants, nonce);
    var a2 := ReceiveAccept(a1, Sign(b1, Accept(gives, wants, nonce))).0;
    var a3, b2 := Deliver(a2, gives, nonce).0, Deliver(b1, wants, nonce).0;
    FullSettleIsHonoured(a3, b1, wants, nonce, later, Proposer);
    FullSettleIsHonoured(b2, a2, gives, nonce, later, Offeree);
  }
}
