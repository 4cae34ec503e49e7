/// Nobody gives, or promises to give, what it does not have.
module Solvency {
  import opened Core
  import opened Messages
  import opened Reputation
  import opened NegotiatorSpec
  import opened NegotiatorRuns
  import opened Fleet

  /// A delivery goes out exactly if the balance of its kind covers the quantity. It takes the
  /// quantity from that balance and leaves every other as it was; a refusal leaves all of them.
  lemma {:induction false} DeliverIffFunded(s: State, gives: Resource, nonce: nat, kind: ResourceKind)
    ensures var (t, r) := Deliver(s, gives, nonce);
      && (r.Ok? <==> Balance(s.balances, gives.kind) >= gives.quantity)
      && (r.Ok? ==>
            Balance(t.balances, kind) == Balance(s.balances, kind) - (if kind == gives.kind then gives.quantity else 0.0))
      && (r.Err? ==> t == s && r == Err(ResourceError))
  {
    hide WireLength;
  }

  /// An offer is answered with an acceptance only if the balance covers what it asks for.
  lemma {:induction false} AcceptsOnlyIfFunded(s: State, offer: SignedMessage, now: nat)
    requires ReceiveOffer(s, offer, now).1.Ok? && ReceiveOffer(s, offer, now).1.value.Some?
    ensures IsOffer(offer)
    ensures var wants := offer.payload.decoded.value.wants; Balance(s.balances, wants.kind) >= wants.quantity
  {
    TakenIff(s, offer, now);
    hide ReceiveOffer, State.Blacklists, HeldWith;
  }

  /// No balance is in debt.
  ghost predicate Solvent(s: State) {
    forall kind :: Balance(s.balances, kind) >= 0.0
  }

  /// Every settle honoured along the run is of a non-negative quantity.
  ghost predicate GainsOnly(s: State, run: seq<Event>)
    requires s.Valid() && Playable(s, run)
    decreases |run|
  {
    run == []
    || (StepKeepsValid(s, run[0]);
        && (run[0].SettleEvent? && Step(s, run[0]).1 == Verdict(Ok(())) ==>
              forall kind :: ValueOf(run[0].msg, kind) >= 0.0)
        && GainsOnly(Step(s, run[0]).0, run[1..]))
  }

  lemma {:induction false} StepKeepsSolvent(s: State, e: Event)
    requires s.Valid() && Enabled(s, e) && Solvent(s)
    requires e.SettleEvent? && Step(s, e).1 == Verdict(Ok(())) ==> forall kind :: ValueOf(e.msg, kind) >= 0.0
    ensures Solvent(Step(s, e).0)
  {
    hide State.Valid, Balance, ValueOf;
    forall kind ensures Balance(Step(s, e).0.balances, kind) >= 0.0 {
      match e
      case SettleEvent(m, now) => SettleBalance(s, m, now, kind); hide ReceiveSettle;
      case DeliverEvent(gives, nonce) => DeliverIffFunded(s, gives, nonce, kind); hide Deliver;
      case _ => QuietBalance(s, e); hide Step;
    }
  }

  /// Whatever is proposed, accepted, delivered, swept or gossiped, and whatever arrives: an agent
  /// that starts without debts never runs into any, as long as nothing it is credited is negative.
  lemma {:induction false} NeverInDebt(s: State, run: seq<Event>)
    requires s.Valid() && Playable(s, run) && Solvent(s) && GainsOnly(s, run)
    ensures Solvent(Play(s, run))
    decreases |run|
  {
    if run != [] {
      StepKeepsValid(s, run[0]);
      StepKeepsSolvent(s, run[0]);
      hide Step, Solvent, Enabled, ValueOf;
      NeverInDebt(Step(s, run[0]).0, run[1..]);
    }
  }

  // ----- where balances come from -----

  /// What a list of resources holds of a kind.
  function HoldingOf(rs: seq<Resource>, kind: ResourceKind): real {
    if rs == [] then 0.0
    else HoldingOf(rs[1..], kind) + (if rs[0].kind == kind then rs[0].quantity else 0.0)
  }

  lemma {:induction false} HoldingOfMore(rs: seq<Resource>, r: Resource, kind: ResourceKind)
    ensures HoldingOf(rs + [r], kind) == HoldingOf(rs, kind) + (if r.kind == kind then r.quantity else 0.0)
  {
    if rs == [] {
      assert (rs + [r])[1..] == [];
    } else {
      HoldingOfMore(rs[1..], r, kind);
      assert (rs + [r])[1..] == rs[1..] + [r];
    }
  }

  lemma {:induction false} CreditAllAdds(rs: seq<Resource>, kind: ResourceKind)
    ensures Balance(CreditAll(map[], rs), kind) == HoldingOf(rs, kind)
  {
    if rs != [] {
      var init, last := rs[..|rs| - 1], rs[|rs| - 1];
      CreditAllAdds(init, kind);
      HoldingOfMore(init, last, kind);
      assert init + [last] == rs;
    }
  }

  /// A new agent owns exactly its initial resources, summed by kind, and owes nobody anything.
  lemma {:induction false} StartsWithWhatItBrings(id: AgentId, key: PublicKey, rs: seq<Resource>, maxPending: nat, decay: Decay, kind: ResourceKind)
    ensures var s := Initial(id, key, rs, maxPending, decay);
      && Balance(s.balances, kind) == HoldingOf(rs, kind)
      && s.accepted == map[] && s.proposed == map[] && s.reputation == map[] && s.pins == map[]
      && s.id == id && s.key == key && s.maxPending == maxPending && s.decay == decay
  {
    CreditAllAdds(rs, kind);
  }
}
