/// Value conservation over a fleet of negotiators on a network that drops,
/// duplicates, reorders and misroutes messages.
module Fleet {
  import opened Core
  import opened RealMath
  import opened Messages
  import opened NegotiatorSpec
  import opened NegotiatorRuns

  datatype Fleet = Fleet(
    agents: map<AgentId, State>,
    /// Everything a member ever signed; the network may deliver any of it, anywhere, any number of times.
    sent: set<SignedMessage>,
    /// Settles issued and not yet credited to anyone.
    inFlight: multiset<SignedMessage>,
    /// Who proposed each nonce.
    proposer: map<nat, AgentId>,
    /// Who was handed the offer of each nonce.
    taker: map<nat, AgentId>,
    /// (signer, nonce) pairs whose settlement has been credited.
    spent: set<(AgentId, nat)>)

  /// One member performing one operation.
  datatype Move = Move(agent: AgentId, event: Event)

  function NonceOf(m: SignedMessage): Option<nat> {
    match m.payload.decoded
    case Some(Offer(_, _, n)) => Some(n)
    case Some(Accept(_, _, n)) => Some(n)
    case Some(Settle(_, _, n)) => Some(n)
    case _ => None
  }

  predicate IsOffer(m: SignedMessage) {
    m.payload.decoded.Some? && m.payload.decoded.value.Offer?
  }

  predicate IsAccept(m: SignedMessage) {
    m.payload.decoded.Some? && m.payload.decoded.value.Accept?
  }

  predicate IsSettle(m: SignedMessage) {
    m.payload.decoded.Some? && m.payload.decoded.value.Settle?
  }

  /// The message an event consumes from the network, if any.
  function Incoming(e: Event): Option<SignedMessage> {
    match e
    case AcceptEvent(m) => Some(m)
    case OfferEvent(m, _) => Some(m)
    case SettleEvent(m, _) => Some(m)
    case ReportEvent(m, _) => Some(m)
    case RelayEvent(m) => Some(m)
    case _ => None
  }

  /// What the network and the members are capable of: a member performs any operation, on any
  /// message some member sent.
  ghost predicate Happens(f: Fleet, move: Move) {
    && move.agent in f.agents
    && f.agents[move.agent].Valid()
    && Enabled(f.agents[move.agent], move.event)
    && (Incoming(move.event).Some? ==> Incoming(move.event).value in f.sent)
  }

  /// The hypotheses the code does not enforce: nonces are fresh, and each offer is handed to at
  /// most one member, once, and that member is not its proposer.
  ghost predicate Allowed(f: Fleet, move: Move) {
    && Happens(f, move)
    && (move.event.ProposeEvent? ==> move.event.nonce !in f.proposer)
    && (move.event.OfferEvent? && IsOffer(move.event.msg) ==>
          move.event.msg.signer != move.agent && NonceOf(move.event.msg).value !in f.taker)
  }

  ghost predicate CreditsNow(f: Fleet, move: Move)
    requires Happens(f, move)
  {
    move.event.SettleEvent? && Step(f.agents[move.agent], move.event).1 == Verdict(Ok(()))
  }

  ghost function Apply(f: Fleet, move: Move): Fleet
    requires Happens(f, move)
  {
    var (s, reply) := Step(f.agents[move.agent], move.event);
    var e := move.event;
    Fleet(
      f.agents[move.agent := s],
      f.sent + Sent(reply),
      if reply.Shipped? && reply.shipment.Ok? then f.inFlight + multiset{reply.shipment.value}
      else if CreditsNow(f, move) then f.inFlight - multiset{e.msg}
      else f.inFlight,
      if e.ProposeEvent? then f.proposer[e.nonce := move.agent] else f.proposer,
      if e.OfferEvent? && IsOffer(e.msg) then f.taker[NonceOf(e.msg).value := move.agent] else f.taker,
      if CreditsNow(f, move) && IsSettle(e.msg) then f.spent + {(e.msg.signer, NonceOf(e.msg).value)} else f.spent)
  }

  // ----- what is conserved -----

  function ValueOf(m: SignedMessage, kind: ResourceKind): real {
    match m.payload.decoded
    case Some(Settle(gives, _, _)) => if gives.kind == kind then gives.quantity else 0.0
    case _ => 0.0
  }

  ghost function Outstanding(inFlight: multiset<SignedMessage>, kind: ResourceKind): real
    decreases |inFlight|
  {
    if inFlight == multiset{} then 0.0
    else
      var m :| m in inFlight;
      ValueOf(m, kind) + Outstanding(inFlight - multiset{m}, kind)
  }

  ghost function Holding(agents: map<AgentId, State>, kind: ResourceKind): AgentId -> real {
    a => if a in agents then Balance(agents[a].balances, kind) else 0.0
  }

  ghost function Total(f: Fleet, kind: ResourceKind): real {
    SumOver(f.agents.Keys, Holding(f.agents, kind)) + Outstanding(f.inFlight, kind)
  }

  lemma {:induction false} OutstandingRemove(inFlight: multiset<SignedMessage>, kind: ResourceKind, m: SignedMessage)
    requires m in inFlight
    ensures Outstanding(inFlight, kind) == ValueOf(m, kind) + Outstanding(inFlight - multiset{m}, kind)
    decreases |inFlight|
  {
    var first :| first in inFlight
      && Outstanding(inFlight, kind) == ValueOf(first, kind) + Outstanding(inFlight - multiset{first}, kind);
    hide Outstanding, ValueOf;
    if first != m {
      var a, b := inFlight - multiset{first}, inFlight - multiset{m};
      assert m in a && first in b;
      assert a - multiset{m} == b - multiset{first};
      OutstandingRemove(a, kind, m);
      OutstandingRemove(b, kind, first);
    }
  }

  lemma OutstandingAdd(inFlight: multiset<SignedMessage>, kind: ResourceKind, m: SignedMessage)
    ensures Outstanding(inFlight + multiset{m}, kind) == Outstanding(inFlight, kind) + ValueOf(m, kind)
  {
    OutstandingRemove(inFlight + multiset{m}, kind, m);
    assert inFlight + multiset{m} - multiset{m} == inFlight;
  }

  // ----- the fleet invariant -----

  ghost predicate SentInv(f: Fleet) {
    forall m :: m in f.sent ==> MessageInv(f, m)
  }

  ghost predicate MessageInv(f: Fleet, m: SignedMessage) {
    && (IsOffer(m) ==>
          var n := NonceOf(m).value; n in f.proposer && f.proposer[n] == m.signer)
    && (IsAccept(m) ==>
          var n := NonceOf(m).value;
          n in f.proposer && n in f.taker && f.taker[n] == m.signer && f.proposer[n] != m.signer)
    && (IsSettle(m) ==>
          m in f.inFlight || (m.signer, NonceOf(m).value) in f.spent)
  }

  ghost predicate AgentInv(f: Fleet, a: AgentId, s: State) {
    && s.id == a
    && s.Valid()
    && (forall n :: n in s.accepted ==>
          && n in f.taker && f.taker[n] == a
          && n in f.proposer
          && s.accepted[n].counterparty == Some(f.proposer[n])
          && (f.proposer[n], n) !in f.spent)
    && (forall n :: n in s.proposed ==>
          && n in f.proposer && f.proposer[n] == a
          && (n in f.taker ==> (f.taker[n], n) !in f.spent)
          && (s.proposed[n].counterparty.Some? ==>
                n in f.taker && s.proposed[n].counterparty == Some(f.taker[n])))
  }

  /// Every offer taken was proposed, by someone else; every credited pair is of a taken nonce.
  ghost predicate BookInv(f: Fleet) {
    && (forall n :: n in f.taker ==> n in f.proposer && f.taker[n] != f.proposer[n])
    && (forall x, n :: (x, n) in f.spent ==> n in f.taker)
  }

  ghost predicate Inv(f: Fleet) {
    && SentInv(f)
    && BookInv(f)
    && forall a :: a in f.agents ==> AgentInv(f, a, f.agents[a])
  }

  /// A fleet before its first operation: any balances, nothing pending, nothing sent.
  ghost predicate Starting(f: Fleet) {
    && f.sent == {} && f.inFlight == multiset{} && f.proposer == map[] && f.taker == map[] && f.spent == {}
    && forall a :: a in f.agents ==>
         && f.agents[a].id == a && f.agents[a].Valid()
         && f.agents[a].accepted == map[] && f.agents[a].proposed == map[]
  }

  // ----- every move keeps the invariant and the totals -----

  ghost predicate Conserves(f: Fleet, g: Fleet) {
    Inv(g) && forall kind :: Total(g, kind) == Total(f, kind)
  }

  /// A member whose balances change by what goes into or comes out of flight.
  lemma BalanceMoves(f: Fleet, a: AgentId, s: State, inFlight: multiset<SignedMessage>, kind: ResourceKind)
    requires a in f.agents
    requires Balance(s.balances, kind) + Outstanding(inFlight, kind)
          == Balance(f.agents[a].balances, kind) + Outstanding(f.inFlight, kind)
    ensures SumOver(f.agents[a := s].Keys, Holding(f.agents[a := s], kind)) + Outstanding(inFlight, kind)
         == Total(f, kind)
  {
    assert f.agents[a := s].Keys == f.agents.Keys;
    SumOverUpdate(f.agents.Keys, Holding(f.agents, kind), Holding(f.agents[a := s], kind), a);
  }

  lemma TotalsKept(f: Fleet, move: Move)
    requires Allowed(f, move)
    requires forall kind ::
      Balance(Apply(f, move).agents[move.agent].balances, kind) + Outstanding(Apply(f, move).inFlight, kind)
      == Balance(f.agents[move.agent].balances, kind) + Outstanding(f.inFlight, kind)
    ensures forall kind :: Total(Apply(f, move), kind) == Total(f, kind)
  {
    var g := Apply(f, move);
    forall kind ensures Total(g, kind) == Total(f, kind) {
      BalanceMoves(f, move.agent, g.agents[move.agent], g.inFlight, kind);
    }
  }

  /// The fleet around one moving member: what the books may do without disturbing the others.
  ghost predicate BooksGrow(f: Fleet, g: Fleet) {
    && (forall n :: n in f.proposer ==> n in g.proposer && g.proposer[n] == f.proposer[n])
    && (forall n :: n in f.taker ==> n in g.taker && g.taker[n] == f.taker[n])
    && f.spent <= g.spent
    && f.inFlight <= g.inFlight
  }

  lemma AgentStable(f: Fleet, g: Fleet, a: AgentId, s: State)
    requires BookInv(f) && AgentInv(f, a, s)
    requires BooksGrow(f, g) && g.spent == f.spent
    ensures AgentInv(g, a, s)
  {
    hide State.Valid;
  }

  lemma MessageStable(f: Fleet, g: Fleet, m: SignedMessage)
    requires MessageInv(f, m) && BooksGrow(f, g)
    ensures MessageInv(g, m)
  {
  }

  /// A move that credits nothing keeps the invariant if the mover, the new messages and
  /// the new book entries are in order.
  lemma QuietMove(f: Fleet, g: Fleet, a: AgentId, s: State)
    requires Inv(f) && a in f.agents
    requires g.agents == f.agents[a := s]
    requires BooksGrow(f, g) && g.spent == f.spent
    requires AgentInv(g, a, s)
    requires forall m :: m in g.sent && m !in f.sent ==> MessageInv(g, m)
    requires forall n :: n in g.taker && n !in f.taker ==> n in g.proposer && g.taker[n] != g.proposer[n]
    ensures Inv(g)
  {
    hide AgentInv, MessageInv, BooksGrow;
    forall m | m in g.sent ensures MessageInv(g, m) {
      if m in f.sent { MessageStable(f, g, m); }
    }
    forall b | b in g.agents ensures AgentInv(g, b, g.agents[b]) {
      if b != a { AgentStable(f, g, b, f.agents[b]); }
    }
    assert BookInv(g) by { BookStable(f, g); }
  }

  lemma BookStable(f: Fleet, g: Fleet)
    requires BookInv(f) && BooksGrow(f, g) && g.spent == f.spent
    requires forall n :: n in g.taker && n !in f.taker ==> n in g.proposer && g.taker[n] != g.proposer[n]
    ensures BookInv(g)
  {
  }

  lemma ProposeApplied(f: Fleet, move: Move)
    requires Allowed(f, move) && move.event.ProposeEvent?
    ensures var e := move.event;
      var (t, offer) := ProposeOffer(f.agents[move.agent], e.gives, e.wants, e.nonce, e.now);
      Apply(f, move) == f.(
        agents := f.agents[move.agent := t],
        sent := f.sent + {offer},
        proposer := f.proposer[e.nonce := move.agent])
  {
  }

  /// The proposer's own books after its proposal.
  lemma ProposeMover(f: Fleet, g: Fleet, a: AgentId, t: State, n: nat)
    requires BookInv(f) && a in f.agents && AgentInv(f, a, f.agents[a]) && t.Valid()
    requires n !in f.proposer && g.proposer == f.proposer[n := a] && g.taker == f.taker && g.spent == f.spent
    requires t.id == f.agents[a].id && t.accepted == f.agents[a].accepted
    requires n in t.proposed && t.proposed[n].counterparty.None?
    requires t.proposed == f.agents[a].proposed[n := t.proposed[n]]
    ensures AgentInv(g, a, t)
  {
    hide State.Valid;
  }

  lemma {:induction false} ProposingKeeps(f: Fleet, g: Fleet, a: AgentId, t: State, offer: SignedMessage, n: nat)
    requires Inv(f) && a in f.agents && t.Valid() && n !in f.proposer
    requires g == f.(agents := f.agents[a := t], sent := f.sent + {offer}, proposer := f.proposer[n := a])
    requires IsOffer(offer) && NonceOf(offer) == Some(n) && offer.signer == a
    requires t.id == f.agents[a].id && t.accepted == f.agents[a].accepted
    requires n in t.proposed && t.proposed[n].counterparty.None?
    requires t.proposed == f.agents[a].proposed[n := t.proposed[n]]
    ensures Inv(g)
  {
    hide State.Valid, AgentInv;
    ProposeMover(f, g, a, t, n);
    assert MessageInv(g, offer);
    hide MessageInv, Inv, BookInv;
    QuietMove(f, g, a, t);
  }

  lemma ProposeMove(f: Fleet, move: Move)
    requires Inv(f) && Allowed(f, move) && move.event.ProposeEvent?
    ensures Conserves(f, Apply(f, move))
  {
    var e, s := move.event, f.agents[move.agent];
    var (t, offer) := ProposeOffer(s, e.gives, e.wants, e.nonce, e.now);
    assert s.id == move.agent by { assert AgentInv(f, move.agent, s); }
    ProposeApplied(f, move);
    StepKeepsValid(s, e);
    hide Apply, State.Valid, Inv, Total, WireLength;
    ProposingKeeps(f, Apply(f, move), move.agent, t, offer, e.nonce);
    TotalsKept(f, move);
  }

  lemma AcceptEffect(s: State, m: SignedMessage)
    ensures var (t, r) := ReceiveAccept(s, m);
      && t == s.(pins := t.pins, proposed := t.proposed)
      && (t.proposed == s.proposed ||
            (IsAccept(m) && NonceOf(m).value in s.proposed
             && s.proposed[NonceOf(m).value].counterparty.None?
             && t.proposed == s.proposed[NonceOf(m).value :=
                  s.proposed[NonceOf(m).value].(counterparty := Some(m.signer))]))
  {
  }

  lemma AcceptApplied(f: Fleet, move: Move)
    requires Allowed(f, move) && move.event.AcceptEvent?
    ensures Apply(f, move) == f.(agents := f.agents[move.agent := ReceiveAccept(f.agents[move.agent], move.event.msg).0])
  {
    hide ReceiveAccept;
  }

  /// The proposer's own books after an acceptance of its offer arrived.
  lemma AcceptMover(f: Fleet, a: AgentId, t: State, m: SignedMessage)
    requires BookInv(f) && MessageInv(f, m) && a in f.agents && AgentInv(f, a, f.agents[a]) && t.Valid()
    requires t.id == f.agents[a].id && t.accepted == f.agents[a].accepted
    requires t.proposed == f.agents[a].proposed ||
      (IsAccept(m) && NonceOf(m).value in f.agents[a].proposed && NonceOf(m).value in t.proposed
       && t.proposed == f.agents[a].proposed[NonceOf(m).value := t.proposed[NonceOf(m).value]]
       && t.proposed[NonceOf(m).value].counterparty == Some(m.signer))
    ensures AgentInv(f, a, t)
  {
    hide State.Valid;
  }

  lemma {:induction false} AcceptingKeeps(f: Fleet, g: Fleet, a: AgentId, t: State, m: SignedMessage)
    requires Inv(f) && a in f.agents && m in f.sent && t.Valid()
    requires g == f.(agents := f.agents[a := t])
    requires t.id == f.agents[a].id && t.accepted == f.agents[a].accepted
    requires t.proposed == f.agents[a].proposed ||
      (IsAccept(m) && NonceOf(m).value in f.agents[a].proposed && NonceOf(m).value in t.proposed
       && t.proposed == f.agents[a].proposed[NonceOf(m).value := t.proposed[NonceOf(m).value]]
       && t.proposed[NonceOf(m).value].counterparty == Some(m.signer))
    ensures Inv(g)
  {
    hide State.Valid, AgentInv, MessageInv, BookInv;
    AcceptMover(f, a, t, m);
    assert AgentInv(g, a, t) by { AgentStable(f, g, a, t); }
    hide Inv;
    QuietMove(f, g, a, t);
  }

  lemma AcceptMove(f: Fleet, move: Move)
    requires Inv(f) && Allowed(f, move) && move.event.AcceptEvent?
    ensures Conserves(f, Apply(f, move))
  {
    var s, m := f.agents[move.agent], move.event.msg;
    var t := ReceiveAccept(s, m).0;
    AcceptApplied(f, move);
    AcceptEffect(s, m);
    AcceptKeepsValid(s, m);
    hide Apply, ReceiveAccept, State.Valid, Inv, Total;
    AcceptingKeeps(f, Apply(f, move), move.agent, t, m);
    TotalsKept(f, move);
  }

  lemma OfferEffect(s: State, m: SignedMessage, now: nat)
    ensures var (t, r) := ReceiveOffer(s, m, now);
      && t == s.(pins := t.pins, accepted := t.accepted)
      && (t.accepted == s.accepted ||
            (IsOffer(m) && NonceOf(m).value in t.accepted
             && t.accepted == s.accepted[NonceOf(m).value := t.accepted[NonceOf(m).value]]
             && t.accepted[NonceOf(m).value].counterparty == Some(m.signer)))
      && (r.Ok? && r.value.Some? ==>
            IsOffer(m) && IsAccept(r.value.value) && NonceOf(r.value.value) == NonceOf(m)
            && r.value.value.signer == s.id)
  {
  }

  lemma OfferApplied(f: Fleet, move: Move)
    requires Allowed(f, move) && move.event.OfferEvent?
    ensures var (t, r) := ReceiveOffer(f.agents[move.agent], move.event.msg, move.event.now);
      Apply(f, move) == f.(
        agents := f.agents[move.agent := t],
        sent := f.sent + Sent(Decision(r)),
        taker := if IsOffer(move.event.msg) then f.taker[NonceOf(move.event.msg).value := move.agent] else f.taker)
  {
  }

  lemma OfferTakes(f: Fleet, g: Fleet, a: AgentId, m: SignedMessage, now: nat)
    requires Inv(f) && a in f.agents && m in f.sent
    requires IsOffer(m) ==> m.signer != a && NonceOf(m).value !in f.taker
    requires var (t, r) := ReceiveOffer(f.agents[a], m, now);
      g == f.(agents := f.agents[a := t],
              sent := f.sent + Sent(Decision(r)),
              taker := if IsOffer(m) then f.taker[NonceOf(m).value := a] else f.taker)
    ensures Inv(g)
  {
    var s := f.agents[a];
    var (t, r) := ReceiveOffer(s, m, now);
    assert AgentInv(f, a, s);
    assert s.Valid() && s.id == a;
    OfferEffect(s, m, now);
    OfferKeepsValid(s, m, now);
    hide ReceiveOffer, State.Valid, Inv, AgentInv;
    OfferingKeeps(f, g, a, t, m, Sent(Decision(r)));
  }

  lemma {:induction false} OfferingKeeps(f: Fleet, g: Fleet, a: AgentId, t: State, m: SignedMessage, answers: set<SignedMessage>)
    requires Inv(f) && a in f.agents && m in f.sent && t.Valid()
    requires IsOffer(m) ==> m.signer != a && NonceOf(m).value !in f.taker
    requires g == f.(agents := f.agents[a := t], sent := f.sent + answers,
                     taker := if IsOffer(m) then f.taker[NonceOf(m).value := a] else f.taker)
    requires t.id == f.agents[a].id && t.proposed == f.agents[a].proposed
    requires t.accepted == f.agents[a].accepted ||
      (IsOffer(m) && NonceOf(m).value in t.accepted
       && t.accepted == f.agents[a].accepted[NonceOf(m).value := t.accepted[NonceOf(m).value]]
       && t.accepted[NonceOf(m).value].counterparty == Some(m.signer))
    requires forall k :: k in answers ==> IsOffer(m) && IsAccept(k) && NonceOf(k) == NonceOf(m) && k.signer == a
    ensures Inv(g)
  {
    assert MessageInv(f, m);
    assert IsOffer(m) ==> NonceOf(m).value in f.proposer && f.proposer[NonceOf(m).value] == m.signer;
    hide State.Valid, AgentInv, MessageInv, BookInv;
    OfferMover(f, g, a, t, m);
    forall k | k in answers ensures MessageInv(g, k) {
      OfferAnswered(f, g, a, m, k);
    }
    hide Inv, IsOffer, IsAccept, NonceOf;
    QuietMove(f, g, a, t);
  }

  /// The acceptance that answers an offer is in order.
  lemma {:induction false} OfferAnswered(f: Fleet, g: Fleet, a: AgentId, m: SignedMessage, answer: SignedMessage)
    requires MessageInv(f, m) && IsOffer(m) && m.signer != a
    requires g.proposer == f.proposer && g.taker == f.taker[NonceOf(m).value := a]
    requires IsAccept(answer) && NonceOf(answer) == NonceOf(m) && answer.signer == a
    ensures MessageInv(g, answer)
  {
  }

  /// The offeree's own books after it took (or declined) an offer.
  lemma OfferMover(f: Fleet, g: Fleet, a: AgentId, t: State, m: SignedMessage)
    requires BookInv(f) && MessageInv(f, m) && a in f.agents && AgentInv(f, a, f.agents[a]) && t.Valid()
    requires IsOffer(m) ==> m.signer != a && NonceOf(m).value !in f.taker
    requires g.proposer == f.proposer && g.spent == f.spent
    requires g.taker == if IsOffer(m) then f.taker[NonceOf(m).value := a] else f.taker
    requires t.id == f.agents[a].id && t.proposed == f.agents[a].proposed
    requires t.accepted == f.agents[a].accepted ||
      (IsOffer(m) && NonceOf(m).value in t.accepted
       && t.accepted == f.agents[a].accepted[NonceOf(m).value := t.accepted[NonceOf(m).value]]
       && t.accepted[NonceOf(m).value].counterparty == Some(m.signer))
    ensures AgentInv(g, a, t)
  {
    hide State.Valid;
  }

  lemma OfferMove(f: Fleet, move: Move)
    requires Inv(f) && Allowed(f, move) && move.event.OfferEvent?
    ensures Conserves(f, Apply(f, move))
  {
    OfferApplied(f, move);
    hide Apply, Inv;
    OfferTakes(f, Apply(f, move), move.agent, move.event.msg, move.event.now);
    OfferEffect(f.agents[move.agent], move.event.msg, move.event.now);
    hide ReceiveOffer;
    TotalsKept(f, move);
  }

  lemma DeliverApplied(f: Fleet, move: Move)
    requires Allowed(f, move) && move.event.DeliverEvent?
    ensures var (t, r) := Deliver(f.agents[move.agent], move.event.gives, move.event.nonce);
      Apply(f, move) == f.(
        agents := f.agents[move.agent := t],
        sent := f.sent + Sent(Shipped(r)),
        inFlight := if r.Ok? then f.inFlight + multiset{r.value} else f.inFlight)
  {
  }

  lemma DeliverShips(f: Fleet, g: Fleet, a: AgentId, gives: Resource, nonce: nat)
    requires Inv(f) && a in f.agents
    requires var (t, r) := Deliver(f.agents[a], gives, nonce);
      g == f.(agents := f.agents[a := t],
              sent := f.sent + Sent(Shipped(r)),
              inFlight := if r.Ok? then f.inFlight + multiset{r.value} else f.inFlight)
    ensures Inv(g)
  {
    var s := f.agents[a];
    var (t, r) := Deliver(s, gives, nonce);
    assert AgentInv(f, a, s);
    DeliverKeepsValid(s, gives, nonce);
    hide State.Valid, AgentInv, WireLength;
    ShrunkMover(f, a, t);
    assert AgentInv(g, a, t) by { AgentStable(f, g, a, t); }
    if r.Ok? {
      assert IsSettle(r.value) && r.value in g.inFlight;
      assert MessageInv(g, r.value);
    }
    hide Deliver, MessageInv, BookInv, Inv;
    QuietMove(f, g, a, t);
  }

  lemma DeliverMove(f: Fleet, move: Move)
    requires Inv(f) && Allowed(f, move) && move.event.DeliverEvent?
    ensures Conserves(f, Apply(f, move))
  {
    var g, s := Apply(f, move), f.agents[move.agent];
    var (t, r) := Deliver(s, move.event.gives, move.event.nonce);
    DeliverApplied(f, move);
    hide Apply, Inv;
    DeliverShips(f, g, move.agent, move.event.gives, move.event.nonce);
    forall kind ensures Balance(t.balances, kind) + Outstanding(g.inFlight, kind)
                     == Balance(s.balances, kind) + Outstanding(f.inFlight, kind)
    {
      if r.Ok? { OutstandingAdd(f.inFlight, kind, r.value); }
    }
    TotalsKept(f, move);
  }

  lemma DeliverKeepsValid(s: State, gives: Resource, nonce: nat)
    requires s.Valid()
    ensures Deliver(s, gives, nonce).0.Valid()
  {
  }

  /// Trades may go away or stay as they are.
  lemma {:induction false} ShrunkMover(f: Fleet, a: AgentId, t: State)
    requires BookInv(f) && a in f.agents && AgentInv(f, a, f.agents[a]) && t.Valid() && t.id == f.agents[a].id
    requires forall n :: n in t.accepted ==> n in f.agents[a].accepted && t.accepted[n] == f.agents[a].accepted[n]
    requires forall n :: n in t.proposed ==> n in f.agents[a].proposed && t.proposed[n] == f.agents[a].proposed[n]
    ensures AgentInv(f, a, t)
  {
    hide State.Valid;
  }

  /// A move that sends nothing about trades and only shrinks the mover's tables.
  lemma {:induction false} ShrinkingMove(f: Fleet, g: Fleet, a: AgentId, t: State, sent: set<SignedMessage>)
    requires Inv(f) && a in f.agents && t.Valid() && t.id == f.agents[a].id
    requires g == f.(agents := f.agents[a := t], sent := f.sent + sent)
    requires forall m :: m in sent ==> !IsOffer(m) && !IsAccept(m) && !IsSettle(m)
    requires forall n :: n in t.accepted ==> n in f.agents[a].accepted && t.accepted[n] == f.agents[a].accepted[n]
    requires forall n :: n in t.proposed ==> n in f.agents[a].proposed && t.proposed[n] == f.agents[a].proposed[n]
    ensures Inv(g)
  {
    hide State.Valid, AgentInv, BookInv, IsOffer, IsAccept, IsSettle;
    ShrunkMover(f, a, t);
    assert AgentInv(g, a, t) by { AgentStable(f, g, a, t); }
    hide Inv, SentInv;
    QuietMove(f, g, a, t);
  }

  lemma {:induction false} OtherApplied(f: Fleet, move: Move)
    requires Allowed(f, move)
    requires move.event.SweepEvent? || move.event.PenalizeEvent? || move.event.ReportEvent?
          || move.event.GossipEvent? || move.event.RelayEvent? || move.event.PinEvent?
    requires !Step(f.agents[move.agent], move.event).1.Shipped?
    ensures var (t, r) := Step(f.agents[move.agent], move.event);
      Apply(f, move) == f.(agents := f.agents[move.agent := t], sent := f.sent + Sent(r))
  {
    hide Step, State.Valid;
  }

  /// Sweeps, penalties, gossip and pinning touch neither balances nor the books.
  lemma OtherMove(f: Fleet, move: Move)
    requires Inv(f) && Allowed(f, move)
    requires move.event.SweepEvent? || move.event.PenalizeEvent? || move.event.ReportEvent?
          || move.event.GossipEvent? || move.event.RelayEvent? || move.event.PinEvent?
    ensures Conserves(f, Apply(f, move))
  {
    var s := f.agents[move.agent];
    var (t, r) := Step(s, move.event);
    StepKeepsValid(s, move.event);
    OtherEffect(s, move.event);
    OtherApplied(f, move);
    hide Apply, Step, Inv, State.Valid, Total, Sent;
    ShrinkingMove(f, Apply(f, move), move.agent, t, Sent(r));
    TotalsKept(f, move);
  }

  lemma OtherEffect(s: State, e: Event)
    requires s.Valid() && Enabled(s, e)
    requires e.SweepEvent? || e.PenalizeEvent? || e.ReportEvent? || e.GossipEvent? || e.RelayEvent? || e.PinEvent?
    ensures var (t, r) := Step(s, e);
      && t.id == s.id && t.balances == s.balances
      && (forall n :: n in t.accepted ==> n in s.accepted && t.accepted[n] == s.accepted[n])
      && (forall n :: n in t.proposed ==> n in s.proposed && t.proposed[n] == s.proposed[n])
      && !r.Shipped?
      && forall m :: m in Sent(r) ==> !IsOffer(m) && !IsAccept(m) && !IsSettle(m)
  {
  }

  lemma SettleEffect(s: State, m: SignedMessage, now: nat)
    requires s.Valid()
    ensures var (t, r) := ReceiveSettle(s, m, now);
      && (r.Err? ==> t == s.(pins := t.pins))
      && (r.Ok? ==>
            && IsSettle(m)
            && SettledFrom(s, t, m.signer, NonceOf(m).value)
            && t.balances == Credited(s.balances, m.payload.decoded.value.gives))
  {
  }

  /// The trade `n` is gone, and it was held with `signer`.
  ghost predicate SettledFrom(s: State, t: State, signer: AgentId, n: nat) {
    && t.id == s.id
    && ((n in s.accepted && s.accepted[n].counterparty == Some(signer)
         && t.accepted == s.accepted - {n} && t.proposed == s.proposed)
        || (n !in s.accepted && n in s.proposed && s.proposed[n].counterparty == Some(signer)
            && t.accepted == s.accepted && t.proposed == s.proposed - {n}))
  }

  /// What a credit does: the pair was not spent, the settle was in flight, and now it is neither.
  lemma CreditIsFresh(f: Fleet, a: AgentId, t: State, m: SignedMessage)
    requires Inv(f) && a in f.agents && m in f.sent && IsSettle(m)
    requires SettledFrom(f.agents[a], t, m.signer, NonceOf(m).value)
    ensures (m.signer, NonceOf(m).value) !in f.spent
    ensures m in f.inFlight
    ensures NonceOf(m).value in f.taker
  {
    assert AgentInv(f, a, f.agents[a]) && MessageInv(f, m);
  }

  /// A credited pair disturbs no other trade.
  lemma CreditStable(f: Fleet, g: Fleet, a: AgentId, b: AgentId, t: State, signer: AgentId, n: nat)
    requires BookInv(f)
    requires a in f.agents && b in f.agents && a != b
    requires AgentInv(f, a, f.agents[a]) && AgentInv(f, b, f.agents[b])
    requires SettledFrom(f.agents[a], t, signer, n)
    requires g.proposer == f.proposer && g.taker == f.taker && g.spent == f.spent + {(signer, n)}
    ensures AgentInv(g, b, f.agents[b])
  {
    hide State.Valid;
  }

  lemma CreditMover(f: Fleet, g: Fleet, a: AgentId, t: State, signer: AgentId, n: nat)
    requires BookInv(f)
    requires a in f.agents && AgentInv(f, a, f.agents[a]) && t.Valid()
    requires SettledFrom(f.agents[a], t, signer, n)
    requires g.proposer == f.proposer && g.taker == f.taker && g.spent == f.spent + {(signer, n)}
    ensures AgentInv(g, a, t)
  {
    hide State.Valid;
  }

  lemma CreditMove(f: Fleet, move: Move)
    requires Inv(f) && Allowed(f, move) && CreditsNow(f, move)
    ensures Conserves(f, Apply(f, move))
    ensures move.event.msg in f.inFlight
    ensures (move.event.msg.signer, NonceOf(move.event.msg).value) !in f.spent
  {
    var s, m := f.agents[move.agent], move.event.msg;
    CreditApplied(f, move);
    hide Apply, Step, State.Valid, Inv, SettledFrom, Total, Outstanding, Balance, Enabled;
    var g := Apply(f, move);
    var t := g.agents[move.agent];
    CreditIsFresh(f, move.agent, t, m);
    CreditKeepsInv(f, g, move.agent, t, m);
    forall kind ensures Balance(t.balances, kind) + Outstanding(g.inFlight, kind)
                     == Balance(s.balances, kind) + Outstanding(f.inFlight, kind)
    {
      CreditBalance(s.balances, f.inFlight, m, kind);
    }
    TotalsKept(f, move);
  }

  /// What leaves the wire arrives in the ledger.
  lemma CreditBalance(b: Balances, inFlight: multiset<SignedMessage>, m: SignedMessage, kind: ResourceKind)
    requires IsSettle(m) && m in inFlight
    ensures Balance(Credited(b, m.payload.decoded.value.gives), kind) + Outstanding(inFlight - multiset{m}, kind)
         == Balance(b, kind) + Outstanding(inFlight, kind)
  {
    OutstandingRemove(inFlight, kind, m);
    hide Outstanding;
  }

  lemma CreditApplied(f: Fleet, move: Move)
    requires Allowed(f, move) && CreditsNow(f, move)
    ensures IsSettle(move.event.msg)
    ensures var g, s, m := Apply(f, move), f.agents[move.agent], move.event.msg;
      && move.agent in g.agents
      && var t := g.agents[move.agent];
      && t.Valid()
      && SettledFrom(s, t, m.signer, NonceOf(m).value)
      && t.balances == Credited(s.balances, m.payload.decoded.value.gives)
      && g == f.(agents := f.agents[move.agent := t],
                 inFlight := f.inFlight - multiset{m},
                 spent := f.spent + {(m.signer, NonceOf(m).value)})
  {
    var s, m := f.agents[move.agent], move.event.msg;
    SettleEffect(s, m, move.event.now);
    SettleKeepsValid(s, m, move.event.now);
  }

  lemma CreditKeepsInv(f: Fleet, g: Fleet, a: AgentId, t: State, m: SignedMessage)
    requires Inv(f) && a in f.agents && m in f.sent && IsSettle(m) && t.Valid()
    requires SettledFrom(f.agents[a], t, m.signer, NonceOf(m).value)
    requires g == f.(agents := f.agents[a := t],
                     inFlight := f.inFlight - multiset{m},
                     spent := f.spent + {(m.signer, NonceOf(m).value)})
    ensures Inv(g)
  {
    var n := NonceOf(m).value;
    CreditIsFresh(f, a, t, m);
    hide AgentInv, SettledFrom, State.Valid;
    assert BookInv(g);
    hide BookInv;
    forall k | k in g.sent ensures MessageInv(g, k) {
      assert MessageInv(f, k);
    }
    CreditMover(f, g, a, t, m.signer, n);
    forall b | b in g.agents ensures AgentInv(g, b, g.agents[b]) {
      if b != a { CreditStable(f, g, a, b, t, m.signer, n); }
    }
  }

  lemma {:induction false} SettleAnswers(s: State, m: SignedMessage, now: nat)
    ensures ReceiveSettle(s, m, now).1.Ok? ==> ReceiveSettle(s, m, now).1 == Ok(())
  {
    hide Verify, Settled;
  }

  lemma {:induction false} RefusedApplied(f: Fleet, move: Move)
    requires Allowed(f, move) && move.event.SettleEvent? && !CreditsNow(f, move)
    ensures var (t, r) := ReceiveSettle(f.agents[move.agent], move.event.msg, move.event.now);
      r.Err? && Apply(f, move) == f.(agents := f.agents[move.agent := t], sent := f.sent + {})
  {
    hide ReceiveSettle, State.Valid;
    SettleAnswers(f.agents[move.agent], move.event.msg, move.event.now);
    assert f.sent + {} == f.sent;
  }

  lemma RefusedSettleMove(f: Fleet, move: Move)
    requires Inv(f) && Allowed(f, move) && move.event.SettleEvent? && !CreditsNow(f, move)
    ensures Conserves(f, Apply(f, move))
  {
    var s, m := f.agents[move.agent], move.event.msg;
    var t := ReceiveSettle(s, m, move.event.now).0;
    SettleEffect(s, m, move.event.now);
    SettleKeepsValid(s, m, move.event.now);
    RefusedApplied(f, move);
    hide Apply, Step, ReceiveSettle, Inv, State.Valid, Total, SettledFrom;
    ShrinkingMove(f, Apply(f, move), move.agent, t, {});
    TotalsKept(f, move);
  }

  lemma MoveConserves(f: Fleet, move: Move)
    requires Inv(f) && Allowed(f, move)
    ensures Conserves(f, Apply(f, move))
  {
    hide Inv, Happens, Conserves, Apply;
    match move.event
    case ProposeEvent(_, _, _, _) => ProposeMove(f, move);
    case AcceptEvent(_) => AcceptMove(f, move);
    case OfferEvent(_, _) => OfferMove(f, move);
    case DeliverEvent(_, _) => DeliverMove(f, move);
    case SettleEvent(_, _) =>
      if CreditsNow(f, move) { CreditMove(f, move); } else { RefusedSettleMove(f, move); }
    case _ => OtherMove(f, move);
  }

  // ----- whole runs -----

  /// The moves can happen one after the other.
  ghost predicate Unfolds(f: Fleet, run: seq<Move>)
    decreases |run|
  {
    run == [] || (Happens(f, run[0]) && Unfolds(Apply(f, run[0]), run[1..]))
  }

  ghost function After(f: Fleet, run: seq<Move>): Fleet
    requires Unfolds(f, run)
    decreases |run|
  {
    if run == [] then f else After(Apply(f, run[0]), run[1..])
  }

  /// Every move of the run respects the hypotheses.
  ghost predicate Legal(f: Fleet, run: seq<Move>): (legal: bool)
    ensures legal ==> Unfolds(f, run)
    decreases |run|
  {
    run == [] || (Allowed(f, run[0]) && Legal(Apply(f, run[0]), run[1..]))
  }

  lemma StartingInv(f: Fleet)
    requires Starting(f)
    ensures Inv(f)
  {
  }

  lemma {:induction false} RunKeepsInv(f: Fleet, run: seq<Move>)
    requires Inv(f) && Legal(f, run)
    ensures Conserves(f, After(f, run))
    ensures f.spent <= After(f, run).spent
    decreases |run|
  {
    hide Inv, Allowed, Apply;
    if run != [] {
      MoveConserves(f, run[0]);
      RunKeepsInv(Apply(f, run[0]), run[1..]);
      assert f.spent <= Apply(f, run[0]).spent by { SpentGrows(f, run[0]); }
    }
  }

  lemma SpentGrows(f: Fleet, move: Move)
    requires Allowed(f, move)
    ensures f.spent <= Apply(f, move).spent
  {
  }

  lemma {:induction false} NothingOutstanding(f: Fleet, kind: ResourceKind)
    requires Starting(f)
    ensures Outstanding(f.inFlight, kind) == 0.0
  {
  }

  /// Per resource kind, the members' balances and the value still in flight add up to what
  /// the fleet started with, whatever the network did.
  lemma Conservation(f: Fleet, run: seq<Move>, kind: ResourceKind)
    requires Starting(f) && Legal(f, run)
    ensures var g := After(f, run);
      SumOver(g.agents.Keys, Holding(g.agents, kind)) + Outstanding(g.inFlight, kind)
      == SumOver(f.agents.Keys, Holding(f.agents, kind))
  {
    hide Inv, Legal, Unfolds, After, Starting, Outstanding, Holding;
    StartingInv(f);
    RunKeepsInv(f, run);
    assert Outstanding(f.inFlight, kind) == 0.0 by { NothingOutstanding(f, kind); }
    assert Total(f, kind) == SumOver(f.agents.Keys, Holding(f.agents, kind));
  }

  /// A settle credited once is refused by every member ever after.
  lemma NoDoubleCredit(f: Fleet, before: seq<Move>, credit: Move, after: seq<Move>, again: Move)
    requires Starting(f) && Legal(f, before)
    requires Allowed(After(f, before), credit) && CreditsNow(After(f, before), credit)
    requires Legal(Apply(After(f, before), credit), after)
    requires var h := After(Apply(After(f, before), credit), after);
      Allowed(h, again) && again.event.SettleEvent? && again.event.msg == credit.event.msg
    ensures credit.event.msg in After(f, before).inFlight
    ensures !CreditsNow(After(Apply(After(f, before), credit), after), again)
  {
    hide Inv, Happens, Apply, CreditsNow, Starting;
    StartingInv(f);
    RunKeepsInv(f, before);
    var g := After(f, before);
    CreditMove(g, credit);
    CreditSpends(g, credit);
    RunKeepsInv(Apply(g, credit), after);
    var h := After(Apply(g, credit), after);
    if CreditsNow(h, again) {
      CreditMove(h, again);
    }
  }

  lemma CreditSpends(f: Fleet, move: Move)
    requires Inv(f) && Allowed(f, move) && CreditsNow(f, move)
    ensures IsSettle(move.event.msg)
    ensures (move.event.msg.signer, NonceOf(move.event.msg).value) in Apply(f, move).spent
  {
    SettleEffect(f.agents[move.agent], move.event.msg, move.event.now);
  }

  // ----- without the hypotheses -----

  /// The value of `kind` a move credits out of nothing: that of a settle no longer in flight.
  ghost function Unbacked(f: Fleet, move: Move, kind: ResourceKind): real
    requires Happens(f, move)
  {
    if CreditsNow(f, move) && move.event.msg !in f.inFlight then ValueOf(move.event.msg, kind) else 0.0
  }

  lemma {:induction false} BalanceDrift(f: Fleet, a: AgentId, s: State, inFlight: multiset<SignedMessage>, kind: ResourceKind)
    requires a in f.agents
    ensures SumOver(f.agents[a := s].Keys, Holding(f.agents[a := s], kind)) + Outstanding(inFlight, kind)
         == Total(f, kind) + (Balance(s.balances, kind) - Balance(f.agents[a].balances, kind))
            + (Outstanding(inFlight, kind) - Outstanding(f.inFlight, kind))
  {
    assert f.agents[a := s].Keys == f.agents.Keys;
    SumOverUpdate(f.agents.Keys, Holding(f.agents, kind), Holding(f.agents[a := s], kind), a);
  }

  lemma {:induction false} SettleBalance(s: State, m: SignedMessage, now: nat, kind: ResourceKind)
    requires s.Valid()
    ensures var (t, r) := ReceiveSettle(s, m, now);
      Balance(t.balances, kind) == Balance(s.balances, kind) + (if r == Ok(()) then ValueOf(m, kind) else 0.0)
  {
    SettleEffect(s, m, now);
    hide ReceiveSettle, SettledFrom, State.Valid;
  }

  lemma {:induction false} DeliverBalance(s: State, gives: Resource, nonce: nat, kind: ResourceKind)
    ensures var (t, r) := Deliver(s, gives, nonce);
      Balance(t.balances, kind) == Balance(s.balances, kind) - (if r.Ok? then ValueOf(r.value, kind) else 0.0)
  {
    hide WireLength;
  }

  lemma {:induction false} QuietBalance(s: State, e: Event)
    requires s.Valid() && Enabled(s, e) && !e.SettleEvent? && !e.DeliverEvent?
    ensures Step(s, e).0.balances == s.balances && !Step(s, e).1.Shipped?
  {
    match e
    case OfferEvent(m, now) => OfferEffect(s, m, now); hide ReceiveOffer;
    case AcceptEvent(m) => AcceptEffect(s, m); hide ReceiveAccept;
    case ProposeEvent(_, _, _, _) => hide WireLength;
    case _ => OtherEffect(s, e); hide Step;
  }

  /// Only deliveries and honoured settles touch a balance.
  lemma {:induction false} BalanceAfter(s: State, e: Event, kind: ResourceKind)
    requires s.Valid() && Enabled(s, e)
    ensures var (t, r) := Step(s, e);
      Balance(t.balances, kind) == Balance(s.balances, kind)
        + (if e.SettleEvent? && r == Verdict(Ok(())) then ValueOf(e.msg, kind) else 0.0)
        - (if r.Shipped? && r.shipment.Ok? then ValueOf(r.shipment.value, kind) else 0.0)
  {
    hide ReceiveSettle, Deliver, Balance, ValueOf, State.Valid;
    match e
    case SettleEvent(m, now) => SettleBalance(s, m, now, kind);
    case DeliverEvent(gives, nonce) => DeliverBalance(s, gives, nonce, kind);
    case _ => QuietBalance(s, e); hide Step;
  }

  /// Whatever happens, each move changes a kind's total by exactly what it credits unbacked.
  lemma {:induction false} MoveDrift(f: Fleet, move: Move, kind: ResourceKind)
    requires Happens(f, move)
    ensures Total(Apply(f, move), kind) == Total(f, kind) + Unbacked(f, move, kind)
  {
    var g, s, e := Apply(f, move), f.agents[move.agent], move.event;
    var (t, r) := Step(s, e);
    BalanceAfter(s, e, kind);
    BalanceDrift(f, move.agent, t, g.inFlight, kind);
    hide Step, SumOver, Holding, Balance, ValueOf, Outstanding, State.Valid, Enabled;
    if CreditsNow(f, move) {
      if e.msg in f.inFlight {
        OutstandingRemove(f.inFlight, kind, e.msg);
      } else {
        assert f.inFlight - multiset{e.msg} == f.inFlight;
      }
    } else if r.Shipped? && r.shipment.Ok? {
      OutstandingAdd(f.inFlight, kind, r.shipment.value);
    }
  }

  /// Exactly when a credit keeps a kind's total: the settle was still in flight or is worthless.
  lemma {:induction false} CreditKeepsTotalIff(f: Fleet, move: Move, kind: ResourceKind)
    requires Happens(f, move) && CreditsNow(f, move)
    ensures Total(Apply(f, move), kind) == Total(f, kind)
        <==> move.event.msg in f.inFlight || ValueOf(move.event.msg, kind) == 0.0
  {
    MoveDrift(f, move, kind);
    hide Total, Apply;
  }

  ghost function Drift(f: Fleet, run: seq<Move>, kind: ResourceKind): real
    requires Unfolds(f, run)
    decreases |run|
  {
    if run == [] then 0.0 else Unbacked(f, run[0], kind) + Drift(Apply(f, run[0]), run[1..], kind)
  }

  /// Over any run of any fleet, under any hypotheses or none, the total moves by exactly what was
  /// credited unbacked on the way.
  lemma {:induction false} TotalsDrift(f: Fleet, run: seq<Move>, kind: ResourceKind)
    requires Unfolds(f, run)
    ensures Total(After(f, run), kind) == Total(f, kind) + Drift(f, run, kind)
    decreases |run|
  {
    if run != [] {
      MoveDrift(f, run[0], kind);
      hide Total, Apply, Unbacked;
      TotalsDrift(Apply(f, run[0]), run[1..], kind);
    }
  }

  /// Every settle credited in the run is in flight at that moment, or worth nothing of `kind`.
  ghost predicate Backed(f: Fleet, run: seq<Move>, kind: ResourceKind)
    requires Unfolds(f, run)
    decreases |run|
  {
    run == []
    || ((CreditsNow(f, run[0]) ==> run[0].event.msg in f.inFlight || ValueOf(run[0].event.msg, kind) == 0.0)
        && Backed(Apply(f, run[0]), run[1..], kind))
  }

  /// No settle handed out in the run is of a negative quantity.
  predicate NoNegativeSettles(run: seq<Move>, kind: ResourceKind) {
    forall i :: 0 <= i < |run| && run[i].event.SettleEvent? ==> ValueOf(run[i].event.msg, kind) >= 0.0
  }

  lemma {:induction false} DriftIsZeroIff(f: Fleet, run: seq<Move>, kind: ResourceKind)
    requires Unfolds(f, run) && NoNegativeSettles(run, kind)
    ensures Drift(f, run, kind) >= 0.0
    ensures Drift(f, run, kind) == 0.0 <==> Backed(f, run, kind)
    decreases |run|
  {
    hide Apply, NoNegativeSettles, ValueOf, Happens, Unbacked;
    if run != [] {
      RestNotNegative(run, kind);
      UnbackedIsZeroIff(f, run[0], kind);
      DriftIsZeroIff(Apply(f, run[0]), run[1..], kind);
    }
  }

  lemma {:induction false} RestNotNegative(run: seq<Move>, kind: ResourceKind)
    requires run != [] && NoNegativeSettles(run, kind)
    ensures NoNegativeSettles(run[1..], kind)
    ensures run[0].event.SettleEvent? ==> ValueOf(run[0].event.msg, kind) >= 0.0
  {
    hide ValueOf;
    assert forall i :: 0 <= i < |run| - 1 ==> run[1..][i] == run[i + 1];
  }

  lemma {:induction false} UnbackedIsZeroIff(f: Fleet, move: Move, kind: ResourceKind)
    requires Happens(f, move)
    requires move.event.SettleEvent? ==> ValueOf(move.event.msg, kind) >= 0.0
    ensures Unbacked(f, move, kind) >= 0.0
    ensures Unbacked(f, move, kind) == 0.0
        <==> (CreditsNow(f, move) ==> move.event.msg in f.inFlight || ValueOf(move.event.msg, kind) == 0.0)
  {
    hide ValueOf, Happens, Step;
  }

  /// Exactly when a run conserves a kind, whatever the nonces and whoever takes the offers: if
  /// and only if every settle credited in it is backed by one still in flight, or worthless.
  lemma {:induction false} ConservationIff(f: Fleet, run: seq<Move>, kind: ResourceKind)
    requires Unfolds(f, run) && NoNegativeSettles(run, kind)
    ensures Total(After(f, run), kind) == Total(f, kind) <==> Backed(f, run, kind)
  {
    TotalsDrift(f, run, kind);
    DriftIsZeroIff(f, run, kind);
    hide Total, After, Drift, Backed;
  }

  /// A spent settle is honoured again exactly if its offer, which re-opens the nonce when it is
  /// received again, passes the guards of taking an offer.
  lemma {:induction false} ReplayedOfferReopens(s: State, offer: SignedMessage, settle: SignedMessage, now: nat)
    requires s.Valid() && IsOffer(offer) && IsSettle(settle) && NonceOf(offer) == NonceOf(settle)
    requires offer.signer == settle.signer && Acceptable(s, offer) && Acceptable(s, settle)
    requires settle.publicKey == offer.publicKey
    requires NonceOf(settle).value !in s.accepted && NonceOf(settle).value !in s.proposed
    ensures ReceiveSettle(ReceiveOffer(s, offer, now).0, settle, now).1 == Ok(())
        <==> !s.Blacklists(offer.signer, now)
             && |HeldWith(s.accepted, offer.signer)| < s.maxPending
             && CanAfford(s.balances, offer.payload.decoded.value.wants)
  {
    TakenIff(s, offer, now);
    OfferEffect(s, offer, now);
    var t := ReceiveOffer(s, offer, now).0;
    assert Verify(t, settle).1 by {
      assert t.pins == Verify(s, offer).0.pins;
    }
    hide Verify, CanAfford, Settled, State.Blacklists, HeldWith, ReceiveOffer, State.Valid;
  }
}
