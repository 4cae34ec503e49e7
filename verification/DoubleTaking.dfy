/// Why conservation asks that an offer be taken once: an offer names no addressee.
module DoubleTaking {
  import opened Core
  import opened Messages
  import opened Reputation
  import opened NegotiatorSpec
  import opened NegotiatorRuns
  import opened Accounting
  import opened Fleet
  import opened HonestTrade
  import opened Members

  /// Two members take the same offer; its proposer delivers once; both receive the settle.
  function Moves(p: AgentId, key: PublicKey, x: AgentId, y: AgentId, gives: Resource, wants: Resource, nonce: nat, now: nat): seq<Move> {
    var offer, settle := SignAs(p, key, Offer(gives, wants, nonce)), SignAs(p, key, SettleOf(gives, nonce));
    [Move(p, ProposeEvent(gives, wants, nonce, now)),
     Move(x, OfferEvent(offer, now)),
     Move(y, OfferEvent(offer, now)),
     Move(p, DeliverEvent(gives, nonce)),
     Move(x, SettleEvent(settle, now)),
     Move(y, SettleEvent(settle, now))]
  }

  ghost predicate CanTake(s: State, p: AgentId, key: PublicKey, wants: Resource, now: nat) {
    && Trusts(s, p, key) && !s.Blacklists(p, now)
    && s.accepted == map[] && s.maxPending > 0 && CanAfford(s.balances, wants)
  }

  lemma {:induction false} Unfold(f: Fleet, move: Move, rest: seq<Move>, kind: ResourceKind)
    requires Happens(f, move) && Unfolds(Apply(f, move), rest)
    ensures Unfolds(f, [move] + rest)
    ensures Drift(f, [move] + rest, kind) == Unbacked(f, move, kind) + Drift(Apply(f, move), rest, kind)
  {
    assert ([move] + rest)[1..] == rest;
    hide Happens, Apply, Unbacked;
  }

  /// After the two acceptances and the delivery, both takers are owed what is in flight once.
  ghost predicate OwedTwice(f: Fleet, p: AgentId, key: PublicKey, x: AgentId, y: AgentId, gives: Resource, nonce: nat) {
    var settle := SignAs(p, key, SettleOf(gives, nonce));
    && settle in f.sent && f.inFlight == multiset{settle}
    && x in f.agents && y in f.agents
    && Owed(f.agents[x], p, key, gives, nonce) && Owed(f.agents[y], p, key, gives, nonce)
  }

  ghost predicate Owed(s: State, p: AgentId, key: PublicKey, gives: Resource, nonce: nat) {
    && s.Valid() && Trusts(s, p, key)
    && nonce in s.accepted && s.accepted[nonce].counterparty == Some(p) && s.accepted[nonce].promised == gives
  }

  lemma {:induction false} OwedIsPaid(f: Fleet, p: AgentId, key: PublicKey, x: AgentId, gives: Resource, nonce: nat, now: nat)
    requires Fits(SettleOf(gives, nonce)) && x in f.agents && Owed(f.agents[x], p, key, gives, nonce)
    requires SignAs(p, key, SettleOf(gives, nonce)) in f.sent
    ensures var settle := SignAs(p, key, SettleOf(gives, nonce));
      var move := Move(x, SettleEvent(settle, now));
      && Happens(f, move) && CreditsNow(f, move)
      && Apply(f, move).inFlight == f.inFlight - multiset{settle}
      && Apply(f, move).sent == f.sent
      && x in Apply(f, move).agents
      && Apply(f, move).agents == f.agents[x := Apply(f, move).agents[x]]
  {
    var s := f.agents[x];
    var from := s.(id := p, key := key);
    assert Sign(from, SettleOf(gives, nonce)) == SignAs(p, key, SettleOf(gives, nonce));
    FullSettleIsHonoured(s, from, gives, nonce, now, Offeree);
    hide ReceiveSettle, Fits;
  }

  lemma {:induction false} PaidTwice(f: Fleet, p: AgentId, key: PublicKey, x: AgentId, y: AgentId, gives: Resource, nonce: nat, now: nat)
    requires Fits(SettleOf(gives, nonce)) && x != y && OwedTwice(f, p, key, x, y, gives, nonce)
    ensures var settle := SignAs(p, key, SettleOf(gives, nonce));
      var run := [Move(x, SettleEvent(settle, now)), Move(y, SettleEvent(settle, now))];
      Unfolds(f, run) && Drift(f, run, gives.kind) == gives.quantity
  {
    hide Fits, Owed;
    var settle := SignAs(p, key, SettleOf(gives, nonce));
    var first, second := Move(x, SettleEvent(settle, now)), Move(y, SettleEvent(settle, now));
    OwedIsPaid(f, p, key, x, gives, nonce, now);
    var g := Apply(f, first);
    OwedIsPaid(g, p, key, y, gives, nonce, now);
    assert Unbacked(f, first, gives.kind) == 0.0;
    assert Unbacked(g, second, gives.kind) == gives.quantity;
    hide Happens, Apply, Unbacked;
    Unfold(g, second, [], gives.kind);
    Unfold(f, first, [second], gives.kind);
    assert [second] + [] == [second] && [first] + [second] == [first, second];
  }

  // ----- the way there -----

  /// A member that took the offer is owed what it gives.
  lemma {:induction false} TakingOwes(f: Fleet, p: AgentId, key: PublicKey, x: AgentId, gives: Resource, wants: Resource, nonce: nat, now: nat)
    requires Fits(Offer(gives, wants, nonce)) && x in f.agents && f.agents[x].Valid()
    requires CanTake(f.agents[x], p, key, wants, now)
    requires SignAs(p, key, Offer(gives, wants, nonce)) in f.sent
    ensures var move := Move(x, OfferEvent(SignAs(p, key, Offer(gives, wants, nonce)), now));
      && Happens(f, move)
      && var g := Apply(f, move);
      && f.sent <= g.sent && g.inFlight == f.inFlight
      && x in g.agents && g.agents == f.agents[x := g.agents[x]]
      && Owed(g.agents[x], p, key, gives, nonce)
      && forall kind :: Unbacked(f, move, kind) == 0.0
  {
    var s := f.agents[x];
    var from := s.(id := p, key := key);
    assert Sign(from, Offer(gives, wants, nonce)) == SignAs(p, key, Offer(gives, wants, nonce));
    assert HeldWith(s.accepted, p) == {};
    OfferIsTaken(s, from, gives, wants, nonce, now);
    OfferKeepsValid(s, SignAs(p, key, Offer(gives, wants, nonce)), now);
    hide ReceiveOffer, State.Valid, Fits, HeldWith, State.Blacklists;
  }

  lemma {:induction false} ProposingSends(f: Fleet, p: AgentId, gives: Resource, wants: Resource, nonce: nat, now: nat)
    requires p in f.agents && f.agents[p].Valid()
    ensures var move := Move(p, ProposeEvent(gives, wants, nonce, now));
      && Happens(f, move)
      && var g := Apply(f, move);
      && f.sent <= g.sent && g.inFlight == f.inFlight
      && p in g.agents && g.agents == f.agents[p := g.agents[p]]
      && g.agents[p].Valid() && g.agents[p].balances == f.agents[p].balances
      && g.agents[p].id == f.agents[p].id && g.agents[p].key == f.agents[p].key
      && Sign(f.agents[p], Offer(gives, wants, nonce)) in g.sent
      && forall kind :: Unbacked(f, move, kind) == 0.0
  {
    StepKeepsValid(f.agents[p], ProposeEvent(gives, wants, nonce, now));
    hide State.Valid, WireLength;
  }

  lemma {:induction false} DeliveringShips(f: Fleet, p: AgentId, gives: Resource, nonce: nat)
    requires p in f.agents && f.agents[p].Valid() && CanAfford(f.agents[p].balances, gives)
    ensures var move := Move(p, DeliverEvent(gives, nonce));
      && Happens(f, move)
      && var g := Apply(f, move);
      && Sign(f.agents[p], SettleOf(gives, nonce)) in g.sent
      && g.inFlight == f.inFlight + multiset{Sign(f.agents[p], SettleOf(gives, nonce))}
      && p in g.agents && g.agents == f.agents[p := g.agents[p]]
      && forall kind :: Unbacked(f, move, kind) == 0.0
  {
    hide State.Valid, WireLength, Balance;
  }

  /// In any fleet before its first operation, if two members can each take a proposer's offer and
  /// the proposer can afford it once, then both are paid by the one settle: the total of the
  /// kind grows by what the offer gives.
  lemma {:induction false} OneSettlePaysTwo(f: Fleet, p: AgentId, x: AgentId, y: AgentId, gives: Resource, wants: Resource, nonce: nat, now: nat)
    requires Starting(f) && p in f.agents && x in f.agents && y in f.agents && p != x && p != y && x != y
    requires CanAfford(f.agents[p].balances, gives)
    requires CanTake(f.agents[x], p, f.agents[p].key, wants, now) && CanTake(f.agents[y], p, f.agents[p].key, wants, now)
    requires Fits(Offer(gives, wants, nonce)) && Fits(SettleOf(gives, nonce))
    ensures var run := Moves(p, f.agents[p].key, x, y, gives, wants, nonce, now);
      Unfolds(f, run) && Total(After(f, run), gives.kind) == Total(f, gives.kind) + gives.quantity
  {
    hide Fits, CanTake, Owed, CanAfford, State.Valid, Happens, Apply, Unbacked, WireLength, SettleOf;
    var key, kind := f.agents[p].key, gives.kind;
    var run := Moves(p, key, x, y, gives, wants, nonce, now);
    ProposingSends(f, p, gives, wants, nonce, now);
    var f1 := Apply(f, run[0]);
    TakingOwes(f1, p, key, x, gives, wants, nonce, now);
    var f2 := Apply(f1, run[1]);
    TakingOwes(f2, p, key, y, gives, wants, nonce, now);
    var f3 := Apply(f2, run[2]);
    DeliveringShips(f3, p, gives, nonce);
    var f4 := Apply(f3, run[3]);
    PaidTwice(f4, p, key, x, y, gives, nonce, now);
    Unfold(f3, run[3], run[4..], kind);
    assert run[3..] == [run[3]] + run[4..];
    Unfold(f2, run[2], run[3..], kind);
    assert run[2..] == [run[2]] + run[3..];
    Unfold(f1, run[1], run[2..], kind);
    assert run[1..] == [run[1]] + run[2..];
    Unfold(f, run[0], run[1..], kind);
    assert run == [run[0]] + run[1..];
    TotalsDrift(f, run, kind);
  }

  // ----- a fleet in which it happens -----

  function ThreeMembers(): Fleet {
    Fleet(map[UniformId(0) := Member(0, 10.0), UniformId(1) := Member(1, 0.0), UniformId(2) := Member(2, 0.0)],
          {}, multiset{}, map[], map[], {})
  }

  lemma {:induction false} ThreeMembersStart()
    ensures var f, p, x, y, wants := ThreeMembers(), UniformId(0), UniformId(1), UniformId(2), Resource(Energy, 0.0, "J");
      && Starting(f) && p in f.agents && x in f.agents && y in f.agents && p != x && p != y && x != y
      && f.agents[p].key == PublicKey([0]) && CanAfford(f.agents[p].balances, Resource(Energy, 5.0, "J"))
      && CanTake(f.agents[x], p, PublicKey([0]), wants, 0) && CanTake(f.agents[y], p, PublicKey([0]), wants, 0)
  {
    UniformIdsDiffer(0, 1);
    UniformIdsDiffer(0, 2);
    UniformIdsDiffer(1, 2);
    hide UniformId;
  }

  /// Ten units of energy in the whole fleet become fifteen, although the one nonce is fresh, no
  /// message is forged and the proposer takes no offer: only the offer is taken twice.
  lemma {:induction false} TotalCanGrow()
    ensures var f, gives, wants := ThreeMembers(), Resource(Energy, 5.0, "J"), Resource(Energy, 0.0, "J");
      var run := Moves(UniformId(0), PublicKey([0]), UniformId(1), UniformId(2), gives, wants, 7, 0);
      Starting(f) && Unfolds(f, run) && Total(After(f, run), Energy) == Total(f, Energy) + 5.0
  {
    var f, gives, wants := ThreeMembers(), Resource(Energy, 5.0, "J"), Resource(Energy, 0.0, "J");
    ThreeMembersStart();
    assert WireLength(Offer(gives, wants, 7)) <= 100 && WireLength(SettleOf(gives, 7)) <= 100;
    hide Moves, Unfolds, WireLength, Total, After, ThreeMembers, Starting, CanTake, UniformId, Drift;
    OneSettlePaysTwo(f, UniformId(0), UniformId(1), UniformId(2), gives, wants, 7, 0);
  }
}
