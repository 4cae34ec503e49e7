/// Settlement accounting of one negotiator under arbitrary incoming messages.
module Accounting {
  import opened Core
  import opened RealMath
  import opened Messages
  import opened Reputation
  import opened NegotiatorSpec
  import opened NegotiatorRuns
  import opened Fleet

  datatype Side = Offeree | Proposer

  function TradesOn(s: State, side: Side): Trades {
    match side
    case Offeree => s.accepted
    case Proposer => s.proposed
  }

  /// What happened to nonce `n` in one step, judged by the answer given.
  datatype Tally = Tally(openings: nat, overwrites: nat, credits: nat, expiries: nat)

  const NOTHING: Tally := Tally(0, 0, 0, 0)

  function Plus(a: Tally, b: Tally): Tally {
    Tally(a.openings + b.openings, a.overwrites + b.overwrites, a.credits + b.credits, a.expiries + b.expiries)
  }

  /// The step opened trade `n`: an offer answered with an acceptance, or an own proposal.
  ghost predicate Opens(s: State, e: Event, side: Side, n: nat)
    requires s.Valid() && Enabled(s, e)
  {
    match side
    case Offeree =>
      e.OfferEvent? && NonceOf(e.msg) == Some(n)
      && var reply := Step(s, e).1; reply.decision.Ok? && reply.decision.value.Some?
    case Proposer => e.ProposeEvent? && e.nonce == n
  }

  /// The step credited a settlement of `n` on this side: the offeree's table is looked up first.
  ghost predicate Credits(s: State, e: Event, side: Side, n: nat)
    requires s.Valid() && Enabled(s, e)
  {
    && e.SettleEvent? && NonceOf(e.msg) == Some(n) && Step(s, e).1 == Verdict(Ok(()))
    && (side == Offeree <==> n in s.accepted)
  }

  ghost predicate Expires(s: State, e: Event, side: Side, n: nat) {
    e.SweepEvent? && n in Expired(TradesOn(s, side), e.now, e.timeout)
  }

  ghost function StepTally(s: State, e: Event, side: Side, n: nat): Tally
    requires s.Valid() && Enabled(s, e)
  {
    Tally(
      if Opens(s, e, side, n) then 1 else 0,
      if Opens(s, e, side, n) && n in TradesOn(s, side) then 1 else 0,
      if Credits(s, e, side, n) then 1 else 0,
      if Expires(s, e, side, n) then 1 else 0)
  }

  ghost function RunTally(s: State, run: seq<Event>, side: Side, n: nat): Tally
    requires s.Valid() && Playable(s, run)
    decreases |run|
  {
    if run == [] then NOTHING
    else
      StepKeepsValid(s, run[0]);
      Plus(StepTally(s, run[0], side, n), RunTally(Step(s, run[0]).0, run[1..], side, n))
  }

  function Held(s: State, side: Side, n: nat): nat {
    if n in TradesOn(s, side) then 1 else 0
  }

  // ----- steps -----

  lemma SettleStep(s: State, e: Event, side: Side, n: nat)
    requires s.Valid() && e.SettleEvent?
    ensures var t, tally := Step(s, e).0, StepTally(s, e, side, n);
      Held(s, side, n) + tally.openings == Held(t, side, n) + tally.overwrites + tally.credits + tally.expiries
    ensures Credits(s, e, side, n) ==>
      n in TradesOn(s, side) && TradesOn(s, side)[n].counterparty == Some(e.msg.signer)
  {
    SettleEffect(s, e.msg, e.now);
    hide ReceiveSettle, State.Valid;
  }

  lemma OfferStep(s: State, e: Event, side: Side, n: nat)
    requires s.Valid() && e.OfferEvent?
    ensures var t, tally := Step(s, e).0, StepTally(s, e, side, n);
      Held(s, side, n) + tally.openings == Held(t, side, n) + tally.overwrites + tally.credits + tally.expiries
  {
    var (s1, ok) := Verify(s, e.msg);
    hide State.Valid, Verify;
  }

  lemma PlainStep(s: State, e: Event, side: Side, n: nat)
    requires s.Valid() && Enabled(s, e) && !e.SettleEvent? && !e.OfferEvent? && !e.AcceptEvent?
    ensures var t, tally := Step(s, e).0, StepTally(s, e, side, n);
      Held(s, side, n) + tally.openings == Held(t, side, n) + tally.overwrites + tally.credits + tally.expiries
  {
    hide State.Valid;
  }

  lemma AcceptStep(s: State, e: Event, side: Side, n: nat)
    requires s.Valid() && e.AcceptEvent?
    ensures var t, tally := Step(s, e).0, StepTally(s, e, side, n);
      Held(s, side, n) + tally.openings == Held(t, side, n) + tally.overwrites + tally.credits + tally.expiries
  {
    AcceptEffect(s, e.msg);
    hide ReceiveAccept, State.Valid;
  }

  lemma StepBalances(s: State, e: Event, side: Side, n: nat)
    requires s.Valid() && Enabled(s, e)
    ensures var t, tally := Step(s, e).0, StepTally(s, e, side, n);
      Held(s, side, n) + tally.openings == Held(t, side, n) + tally.overwrites + tally.credits + tally.expiries
  {
    match e
    case SettleEvent(_, _) => SettleStep(s, e, side, n);
    case OfferEvent(_, _) => OfferStep(s, e, side, n);
    case AcceptEvent(_) => AcceptStep(s, e, side, n);
    case _ => PlainStep(s, e, side, n);
  }

  /// For every nonce on either side: what was held or opened was credited, has expired, was
  /// overwritten, or is still pending. Nothing is credited that was not opened.
  lemma {:induction false} EveryTradeAccountedFor(s: State, run: seq<Event>, side: Side, n: nat)
    requires s.Valid() && Playable(s, run)
    ensures var tally := RunTally(s, run, side, n);
      Held(s, side, n) + tally.openings
      == tally.credits + tally.expiries + tally.overwrites + Held(Play(s, run), side, n)
    decreases |run|
  {
    if run != [] {
      StepBalances(s, run[0], side, n);
      StepKeepsValid(s, run[0]);
      hide Step, StepTally, Held;
      EveryTradeAccountedFor(Step(s, run[0]).0, run[1..], side, n);
    }
  }

  /// A credit consumes one entry, and the entry's counterparty is the settle's signer.
  lemma CreditConsumes(s: State, e: Event, side: Side, n: nat)
    requires s.Valid() && Enabled(s, e) && Credits(s, e, side, n)
    ensures n in TradesOn(s, side) && n !in TradesOn(Step(s, e).0, side)
    ensures TradesOn(s, side)[n].counterparty == Some(e.msg.signer)
    ensures Step(s, e).0.balances == Credited(s.balances, e.msg.payload.decoded.value.gives)
  {
    SettleStep(s, e, side, n);
    SettleEffect(s, e.msg, e.now);
    hide ReceiveSettle;
  }

  // ----- who may settle a proposal -----

  /// A bound counterparty never changes while its trade lives, unless this agent itself
  /// proposes the same nonce again.
  lemma BindingIsFinal(s: State, e: Event, n: nat)
    requires s.Valid() && Enabled(s, e)
    requires n in s.proposed && s.proposed[n].counterparty.Some?
    requires !(e.ProposeEvent? && e.nonce == n)
    ensures n in Step(s, e).0.proposed ==>
      Step(s, e).0.proposed[n].counterparty == s.proposed[n].counterparty
  {
    match e
    case AcceptEvent(m) => AcceptEffect(s, m);
    case SettleEvent(m, now) => SettleEffect(s, m, now);
    case OfferEvent(m, now) => OfferEffect(s, m, now);
    case _ =>
  }

  /// On the offeree's side a bound counterparty is replaced, while its trade lives, exactly by
  /// another signer's offer of the same nonce that passes the guards of taking an offer.
  lemma {:induction false} AcceptedRebindsIff(s: State, e: Event, n: nat)
    requires s.Valid() && Enabled(s, e) && n in s.accepted
    requires n in Step(s, e).0.accepted
    ensures Step(s, e).0.accepted[n].counterparty != s.accepted[n].counterparty
        <==> e.OfferEvent? && Takes(s, e.msg, e.now) && e.msg.payload.decoded.value.nonce == n
             && Some(e.msg.signer) != s.accepted[n].counterparty
  {
    if e.OfferEvent? {
      TakenIff(s, e.msg, e.now);
      hide ReceiveOffer, Takes, State.Valid;
    } else {
      hide Takes;
      AcceptedShrinks(s, e);
    }
  }

  ghost predicate AcceptsFrom(s: State, e: Event, signer: AgentId, n: nat)
    requires s.Valid() && Enabled(s, e)
  {
    e.AcceptEvent? && e.msg.signer == signer && NonceOf(e.msg) == Some(n) && Step(s, e).1 == Verdict(Ok(()))
  }

  /// Some acceptance of `n` by `signer` was answered with success along the run.
  ghost predicate AcceptedAlong(s: State, run: seq<Event>, signer: AgentId, n: nat)
    requires s.Valid() && Playable(s, run)
    decreases |run|
  {
    && run != []
    && (StepKeepsValid(s, run[0]);
        AcceptsFrom(s, run[0], signer, n) || AcceptedAlong(Step(s, run[0]).0, run[1..], signer, n))
  }

  lemma BindsOnlyByAccept(s: State, e: Event, n: nat)
    requires s.Valid() && Enabled(s, e)
    requires n in Step(s, e).0.proposed && Step(s, e).0.proposed[n].counterparty.Some?
    ensures (n in s.proposed && s.proposed[n].counterparty == Step(s, e).0.proposed[n].counterparty)
         || AcceptsFrom(s, e, Step(s, e).0.proposed[n].counterparty.value, n)
  {
    match e
    case AcceptEvent(m) =>
      AcceptEffect(s, m);
      AcceptAnswers(s, m, n);
    case SettleEvent(m, now) => SettleEffect(s, m, now);
    case OfferEvent(m, now) => OfferEffect(s, m, now);
    case _ =>
  }

  lemma AcceptAnswers(s: State, m: SignedMessage, n: nat)
    ensures ReceiveAccept(s, m).0.proposed != s.proposed ==> ReceiveAccept(s, m).1 == Ok(())
  {
  }

  lemma {:induction false} BoundAlong(s: State, run: seq<Event>, signer: AgentId, n: nat)
    requires s.Valid() && Playable(s, run)
    requires n in Play(s, run).proposed && Play(s, run).proposed[n].counterparty == Some(signer)
    ensures (n in s.proposed && s.proposed[n].counterparty == Some(signer)) || AcceptedAlong(s, run, signer, n)
    decreases |run|
  {
    if run != [] {
      StepKeepsValid(s, run[0]);
      var t := Step(s, run[0]).0;
      BoundAlong(t, run[1..], signer, n);
      if n in t.proposed && t.proposed[n].counterparty == Some(signer) {
        BindsOnlyByAccept(s, run[0], n);
      }
    }
  }

  /// Starting with no bound proposal, every credit on the proposer's side was preceded by an
  /// acceptance of that nonce signed by the very peer whose settle is credited.
  lemma CreditFollowsAccept(s: State, run: seq<Event>, e: Event, n: nat)
    requires s.Valid() && Playable(s, run)
    requires forall k :: k in s.proposed ==> s.proposed[k].counterparty.None?
    requires Enabled(Play(s, run), e) && Credits(Play(s, run), e, Proposer, n)
    ensures AcceptedAlong(s, run, e.msg.signer, n)
  {
    CreditConsumes(Play(s, run), e, Proposer, n);
    BoundAlong(s, run, e.msg.signer, n);
  }

  // ----- the per-peer cap -----

  ghost predicate Capped(s: State) {
    forall peer :: |HeldWith(s.accepted, peer)| <= s.maxPending
  }

  lemma SubsetSize<T>(a: set<T>, b: set<T>)
    requires a <= b
    ensures |a| <= |b|
  {
    assert b == a + (b - a);
  }

  lemma OfferKeepsCap(s: State, m: SignedMessage, now: nat)
    requires Capped(s)
    ensures Capped(ReceiveOffer(s, m, now).0)
  {
    OfferEffect(s, m, now);
    OfferAnswers(s, m, now);
    var t := ReceiveOffer(s, m, now).0;
    hide ReceiveOffer;
    if t.accepted != s.accepted {
      var n := NonceOf(m).value;
      forall peer ensures |HeldWith(t.accepted, peer)| <= t.maxPending {
        if peer == m.signer {
          SubsetSize(HeldWith(t.accepted, peer), HeldWith(s.accepted, peer) + {n});
        } else {
          SubsetSize(HeldWith(t.accepted, peer), HeldWith(s.accepted, peer));
        }
      }
    }
  }

  lemma OfferAnswers(s: State, m: SignedMessage, now: nat)
    ensures ReceiveOffer(s, m, now).0.accepted != s.accepted ==> |HeldWith(s.accepted, m.signer)| < s.maxPending
  {
  }

  lemma StepKeepsCap(s: State, e: Event)
    requires s.Valid() && Enabled(s, e) && Capped(s)
    ensures Capped(Step(s, e).0)
  {
    if e.OfferEvent? {
      OfferKeepsCap(s, e.msg, e.now);
    } else {
      var t := Step(s, e).0;
      AcceptedShrinks(s, e);
      hide Step;
      forall peer ensures |HeldWith(t.accepted, peer)| <= t.maxPending {
        SubsetSize(HeldWith(t.accepted, peer), HeldWith(s.accepted, peer));
      }
    }
  }

  lemma AcceptedShrinks(s: State, e: Event)
    requires s.Valid() && Enabled(s, e) && !e.OfferEvent?
    ensures Step(s, e).0.maxPending == s.maxPending
    ensures forall n :: n in Step(s, e).0.accepted ==> n in s.accepted && Step(s, e).0.accepted[n] == s.accepted[n]
  {
    match e
    case SettleEvent(m, now) => SettleShrinks(s, m, now);
    case AcceptEvent(m) => AcceptEffect(s, m);
    case _ =>
  }

  lemma SettleShrinks(s: State, m: SignedMessage, now: nat)
    requires s.Valid()
    ensures ReceiveSettle(s, m, now).0.maxPending == s.maxPending
    ensures forall n :: n in ReceiveSettle(s, m, now).0.accepted ==>
      n in s.accepted && ReceiveSettle(s, m, now).0.accepted[n] == s.accepted[n]
  {
    SettleEffect(s, m, now);
  }

  /// No peer ever holds more accepted trades than the cap, whatever it sends.
  lemma {:induction false} CapHolds(s: State, run: seq<Event>)
    requires s.Valid() && Playable(s, run) && Capped(s)
    ensures Capped(Play(s, run))
    decreases |run|
  {
    if run != [] {
      StepKeepsCap(s, run[0]);
      StepKeepsValid(s, run[0]);
      hide Step, Capped;
      CapHolds(Step(s, run[0]).0, run[1..]);
    }
  }

  // ----- how a settlement is scored -----

  /// Less arrived than was promised, or something else altogether.
  predicate ShortOf(promised: Resource, delivered: Resource) {
    promised.kind != delivered.kind || (promised.quantity > 0.0 && delivered.quantity < promised.quantity)
  }

  /// The ratio is the share of the promise that arrived; it is one exactly if nothing is short.
  lemma {:induction false} RatioIsShareDelivered(promised: Resource, delivered: Resource)
    ensures FulfillmentRatio(promised, delivered) == 1.0 <==> !ShortOf(promised, delivered)
    ensures promised.kind != delivered.kind ==> FulfillmentRatio(promised, delivered) == 0.0
    ensures promised.kind == delivered.kind && promised.quantity > 0.0 ==>
      FulfillmentRatio(promised, delivered) * promised.quantity == Clamp(delivered.quantity, 0.0, promised.quantity)
  {
    if promised.kind == delivered.kind && promised.quantity > 0.0 {
      ClampedShare(delivered.quantity, promised.quantity, delivered.quantity / promised.quantity);
    }
  }

  lemma {:induction false} ClampedShare(d: real, e: real, q: real)
    requires e > 0.0 && q == d / e
    ensures Clamp(q, 0.0, 1.0) * e == Clamp(d, 0.0, e)
    ensures Clamp(q, 0.0, 1.0) == 1.0 <==> d >= e
  {
    assert q * e == d;
    Scaled(q, 0.0, e, d, 0.0);
    Scaled(q, 1.0, e, d, e);
    Scaled(1.0, q, e, e, d);
  }

  /// An honoured settle costs its signer a ding exactly if it fell short of the recorded promise,
  /// and failure weight by exactly the share of the promise that is missing, all of it if another
  /// kind was delivered; nobody else's record changes.
  lemma {:induction false} SettleScoresThePromise(s: State, e: Event, side: Side, n: nat, other: AgentId)
    requires s.Valid() && Enabled(s, e) && Credits(s, e, side, n)
    requires other != e.msg.signer
    ensures n in TradesOn(s, side)
    ensures var promised, gives := TradesOn(s, side)[n].promised, e.msg.payload.decoded.value.gives;
      var before, after := RecordOf(s.reputation, e.msg.signer), RecordOf(Step(s, e).0.reputation, e.msg.signer);
      && after.dings == before.dings + (if ShortOf(promised, gives) then 1 else 0)
      && MissingShare(promised, gives, after.directFailureWeight - before.DecayedFailureWeight(e.now, s.decay))
      && after.lastEventCycle == e.now
      && RecordOf(Step(s, e).0.reputation, other) == RecordOf(s.reputation, other)
  {
    SettleStep(s, e, side, n);
    RatioIsShareDelivered(TradesOn(s, side)[n].promised, e.msg.payload.decoded.value.gives);
    RestIsMissing(TradesOn(s, side)[n].promised, e.msg.payload.decoded.value.gives);
    hide FulfillmentRatio, Record.DecayedFailureWeight, Record.DecayedDirect, ShortOf, MissingShare;
  }

  /// `share` of the promise did not arrive.
  predicate MissingShare(promised: Resource, delivered: Resource, share: real) {
    if promised.kind != delivered.kind then share == 1.0
    else if promised.quantity <= 0.0 then share == 0.0
    else share * promised.quantity == promised.quantity - Clamp(delivered.quantity, 0.0, promised.quantity)
  }

  lemma {:induction false} RestIsMissing(promised: Resource, delivered: Resource)
    ensures MissingShare(promised, delivered, 1.0 - FulfillmentRatio(promised, delivered))
  {
    RatioIsShareDelivered(promised, delivered);
    Rest(FulfillmentRatio(promised, delivered), promised.quantity);
    hide FulfillmentRatio, Clamp;
    assert ShortOf(promised, delivered) <==> promised.kind != delivered.kind || (promised.quantity > 0.0 && delivered.quantity < promised.quantity);
  }

  lemma {:induction false} Rest(share: real, whole: real)
    ensures (1.0 - share) * whole == whole - share * whole
  {
  }

  /// What a record gains by an outcome, over its evidence decayed to that moment.
  ghost predicate Gains(before: Record, after: Record, now: nat, decay: Decay, success: real, failure: real, dings: nat) {
    && after.directSuccesses == before.DecayedDirect(now, decay).0 + success
    && after.directFailures == before.DecayedDirect(now, decay).1 + failure
    && after.directFailureWeight == before.DecayedFailureWeight(now, decay) + failure
    && after.dings == before.dings + dings
    && after.lastEventCycle == now
  }

  lemma {:induction false} OutcomeGains(rec: Record, ratio: real, now: nat, decay: Decay)
    requires 0.0 <= ratio <= 1.0
    ensures Gains(rec, rec.WithOutcome(ratio, now, decay), now, decay, ratio, 1.0 - ratio, if ratio < 1.0 then 1 else 0)
  {
    hide Record.DecayedDirect, Record.DecayedFailureWeight;
  }

  lemma {:induction false} SettleGains(s: State, e: Event, side: Side, n: nat)
    requires s.Valid() && Enabled(s, e) && Credits(s, e, side, n)
    ensures n in TradesOn(s, side)
    ensures var ratio := FulfillmentRatio(TradesOn(s, side)[n].promised, e.msg.payload.decoded.value.gives);
      Gains(RecordOf(s.reputation, e.msg.signer), RecordOf(Step(s, e).0.reputation, e.msg.signer), e.now, s.decay,
        ratio, 1.0 - ratio, if ratio < 1.0 then 1 else 0)
  {
    SettleStep(s, e, side, n);
    var ratio := FulfillmentRatio(TradesOn(s, side)[n].promised, e.msg.payload.decoded.value.gives);
    OutcomeGains(RecordOf(s.reputation, e.msg.signer), ratio, e.now, s.decay);
    hide FulfillmentRatio, Record.WithOutcome, Gains, State.Valid;
  }

  /// Delivering another kind than promised is a complete failure, however much is delivered: one
  /// whole failure, no success at all, one ding.
  lemma {:induction false} OtherKindFailsCompletely(s: State, e: Event, side: Side, n: nat)
    requires s.Valid() && Enabled(s, e) && Credits(s, e, side, n)
    requires n in TradesOn(s, side) && TradesOn(s, side)[n].promised.kind != e.msg.payload.decoded.value.gives.kind
    ensures Gains(RecordOf(s.reputation, e.msg.signer), RecordOf(Step(s, e).0.reputation, e.msg.signer), e.now, s.decay,
              0.0, 1.0, 1)
  {
    SettleGains(s, e, side, n);
    hide Gains, Step, Credits, State.Valid;
  }

  /// Delivering the promised kind succeeds by the share that arrived and fails by the share that
  /// is missing; a promise of nothing is always kept.
  lemma {:induction false} SameKindIsScoredByShare(s: State, e: Event, side: Side, n: nat)
    returns (success: real)
    requires s.Valid() && Enabled(s, e) && Credits(s, e, side, n)
    requires n in TradesOn(s, side) && TradesOn(s, side)[n].promised.kind == e.msg.payload.decoded.value.gives.kind
    ensures var promised, got := TradesOn(s, side)[n].promised.quantity, e.msg.payload.decoded.value.gives.quantity;
      && (promised <= 0.0 ==> success == 1.0)
      && (promised > 0.0 ==> success * promised == Clamp(got, 0.0, promised))
    ensures Gains(RecordOf(s.reputation, e.msg.signer), RecordOf(Step(s, e).0.reputation, e.msg.signer), e.now, s.decay,
              success, 1.0 - success, if success < 1.0 then 1 else 0)
  {
    hide Gains, Step, State.Valid, FulfillmentRatio, Clamp;
    SettleGains(s, e, side, n);
    success := KeptShare(TradesOn(s, side)[n].promised, e.msg.payload.decoded.value.gives);
  }

  lemma {:induction false} KeptShare(promised: Resource, delivered: Resource) returns (share: real)
    requires promised.kind == delivered.kind
    ensures share == FulfillmentRatio(promised, delivered)
    ensures promised.quantity <= 0.0 ==> share == 1.0
    ensures promised.quantity > 0.0 ==> share * promised.quantity == Clamp(delivered.quantity, 0.0, promised.quantity)
  {
    RatioIsShareDelivered(promised, delivered);
    share := FulfillmentRatio(promised, delivered);
  }
}
