/// The negotiator as an object: a ledger, pending trades, pins and reputation records that
/// its operations update in place. Every operation is proved to do what NegotiatorSpec says.
module Negotiator {
  import opened Core
  import opened RealMath
  import opened Messages
  import opened Reputation
  import opened NegotiatorSpec
  import NegotiatorRuns

  class Ledger {
    var balances: Balances

    constructor ()
      ensures balances == map[]
    {
      balances := map[];
    }

    function BalanceOf(kind: ResourceKind): real
      reads this
    {
      Balance(balances, kind)
    }

    method Credit(r: Resource)
      modifies this
      ensures balances == Credited(old(balances), r)
    {
      balances := balances[r.kind := BalanceOf(r.kind) + r.quantity];
    }

    method Debit(r: Resource) returns (result: Result<()>)
      modifies this
      ensures result.Ok? <==> (if r.kind in old(balances) then old(balances)[r.kind] else 0.0) >= r.quantity
      ensures result.Ok? ==> balances == Debited(old(balances), r)
      ensures result.Err? ==> result == Err(ResourceError) && balances == old(balances)
    {
      var b := BalanceOf(r.kind);
      if b < r.quantity {
        return Err(ResourceError);
      }
      balances := balances[r.kind := b - r.quantity];
      return Ok(());
    }
  }

  lemma EntryShare(h: Hearsay, now: nat)
    ensures h.Stale(now) ==> h.Success(now) == 0.0 && h.Failure(now) == 0.0
    ensures !h.Stale(now) ==>
      && h.Success(now) == Clamp(h.trust, 0.0, 1.0) * h.Weight()
      && h.Failure(now) == (1.0 - Clamp(h.trust, 0.0, 1.0)) * h.Weight()
  {
  }

  /// Fold the entries that are not stale into extra evidence, in whatever order they come.
  method HearsayContribution(pool: HearsayPool, now: nat) returns (successes: real, failures: real)
    ensures successes == HearsaySuccesses(pool, now)
    ensures failures == HearsayFailures(pool, now)
  {
    hide Hearsay.Success, Hearsay.Failure, Hearsay.Weight, SumOver;
    successes, failures := 0.0, 0.0;
    var left := pool.Keys;
    while left != {}
      invariant left <= pool.Keys
      invariant successes + SumOver(left, SuccessIn(pool, now)) == HearsaySuccesses(pool, now)
      invariant failures + SumOver(left, FailureIn(pool, now)) == HearsayFailures(pool, now)
      decreases left
    {
      var origin :| origin in left;
      SumOverRemove(left, SuccessIn(pool, now), origin);
      SumOverRemove(left, FailureIn(pool, now), origin);
      var h := pool[origin];
      EntryShare(h, now);
      left := left - {origin};
      if !h.Stale(now) {
        var trust := Clamp(h.trust, 0.0, 1.0);
        successes := successes + trust * h.Weight();
        failures := failures + (1.0 - trust) * h.Weight();
      }
    }
    SumOverEmpty(SuccessIn(pool, now));
    SumOverEmpty(FailureIn(pool, now));
  }

  method Snapshot(rec: Record, now: nat, decay: Decay) returns (standing: Standing)
    requires rec.Sound()
    ensures standing == rec.Snapshot(now, decay)
  {
    var direct := rec.DecayedDirect(now, decay);
    var hearsaySuccesses, hearsayFailures := HearsayContribution(rec.hearsay, now);
    var successes := direct.0 + hearsaySuccesses;
    var failures := direct.1 + hearsayFailures;
    SnapshotDenominator(rec, now, decay);
    var trust := (successes + PRIOR_SUCCESS) / (successes + failures + PRIOR_SUCCESS + PRIOR_FAILURE);
    var weight := rec.DecayedFailureWeight(now, decay);
    standing := Standing(trust, weight >= DIRECT_BLACKLIST_THRESHOLD, rec.dings);
  }

  class Negotiator {
    const id: AgentId
    const key: PublicKey
    const ledger: Ledger
    const maxPending: nat
    const decay: Decay
    var reputation: Reputations
    var accepted: Trades
    var proposed: Trades
    var pins: map<AgentId, PublicKey>

    ghost function View(): State
      reads this, ledger
    {
      State(id, key, ledger.balances, reputation, accepted, proposed, pins, maxPending, decay)
    }

    ghost predicate Valid()
      reads this, ledger
    {
      View().Valid()
    }

    constructor (id: AgentId, key: PublicKey, initial: seq<Resource>, maxPending: nat, decay: Decay)
      ensures Valid() && fresh(ledger)
      ensures View() == Initial(id, key, initial, maxPending, decay)
    {
      var l := new Ledger();
      for i := 0 to |initial|
        invariant fresh(l)
        invariant l.balances == CreditAll(map[], initial[..i])
      {
        assert initial[..i + 1][..i] == initial[..i];
        l.Credit(initial[i]);
      }
      assert initial[..|initial|] == initial;
      this.id, this.key, this.ledger := id, key, l;
      this.maxPending, this.decay := maxPending, decay;
      reputation, accepted, proposed, pins := map[], map[], map[], map[];
    }

    method Pin(agent: AgentId, publicKey: PublicKey)
      requires Valid()
      modifies this`pins
      ensures Valid() && View() == NegotiatorSpec.Pin(old(View()), agent, publicKey)
    {
      pins := pins[agent := publicKey];
    }

    function Sign(msg: BarterMessage): SignedMessage {
      SignAs(id, key, msg)
    }

    method VerifyBinding(signer: AgentId, publicKey: PublicKey, payload: Payload, signature: Signature) returns (ok: bool)
      requires Valid()
      modifies this`pins
      ensures Valid()
      ensures (View(), ok) == NegotiatorSpec.VerifyBinding(old(View()), signer, publicKey, payload, signature)
    {
      if !VerifySignature(publicKey, payload, signature) {
        return false;
      }
      if signer in pins {
        return pins[signer] == publicKey;
      }
      pins := pins[signer := publicKey];
      return true;
    }

    method Verify(sm: SignedMessage) returns (ok: bool)
      requires Valid()
      modifies this`pins
      ensures Valid()
      ensures (View(), ok) == NegotiatorSpec.Verify(old(View()), sm)
    {
      if sm.Message().Err? {
        return false;
      }
      ok := VerifyBinding(sm.signer, sm.publicKey, sm.payload, sm.signature);
    }

    /// The nonce is drawn at random by the caller's environment.
    method ProposeOffer(gives: Resource, wants: Resource, nonce: nat, now: nat) returns (offer: SignedMessage)
      requires Valid()
      modifies this`proposed
      ensures Valid()
      ensures (View(), offer) == NegotiatorSpec.ProposeOffer(old(View()), gives, wants, nonce, now)
    {
      proposed := proposed[nonce := Trade(None, wants, now)];
      offer := Sign(Offer(gives, wants, nonce));
    }

    method ReceiveAccept(accept: SignedMessage) returns (result: Result<()>)
      requires Valid()
      modifies this`pins, this`proposed
      ensures Valid()
      ensures (View(), result) == NegotiatorSpec.ReceiveAccept(old(View()), accept)
    {
      var ok := Verify(accept);
      if !ok {
        return Err(IntegrityError);
      }
      var msg := accept.payload.decoded.value;
      if !msg.Accept? {
        return Err(InvalidError);
      }
      var nonce := msg.nonce;
      if nonce !in proposed {
        return Err(InvalidError);
      }
      var trade := proposed[nonce];
      match trade.counterparty {
        case None =>
          proposed := proposed[nonce := trade.(counterparty := Some(accept.signer))];
          return Ok(());
        case Some(existing) =>
          if existing == accept.signer {
            return Ok(());
          }
          return Err(IntegrityError);
      }
    }

    method ReceiveOffer(offer: SignedMessage, now: nat) returns (result: Result<Option<SignedMessage>>)
      requires Valid()
      modifies this`pins, this`accepted
      ensures Valid()
      ensures (View(), result) == NegotiatorSpec.ReceiveOffer(old(View()), offer, now)
    {
      var ok := Verify(offer);
      if !ok {
        return Err(IntegrityError);
      }
      var msg := offer.payload.decoded.value;
      if !msg.Offer? {
        return Err(InvalidError);
      }
      var standing := Reputation(offer.signer, now);
      if standing.blacklisted {
        return Ok(None);
      }
      var pendingForPeer := |HeldWith(accepted, offer.signer)|;
      if pendingForPeer >= maxPending {
        return Err(ResourceError);
      }
      if !CanAfford(ledger.balances, msg.wants) {
        return Ok(None);
      }
      accepted := accepted[msg.nonce := Trade(Some(offer.signer), msg.gives, now)];
      return Ok(Some(Sign(Accept(msg.gives, msg.wants, msg.nonce))));
    }

    method Deliver(gives: Resource, nonce: nat) returns (result: Result<SignedMessage>)
      requires Valid()
      modifies ledger
      ensures Valid()
      ensures (View(), result) == NegotiatorSpec.Deliver(old(View()), gives, nonce)
    {
      var debit := ledger.Debit(gives);
      if debit.Err? {
        return Err(debit.error);
      }
      return Ok(Sign(Settle(gives, Resource(gives.kind, 0.0, gives.unit), nonce)));
    }

    method RecordDirectOutcome(peer: AgentId, ratio: real, now: nat)
      requires Valid()
      modifies this`reputation
      ensures Valid() && View() == WithOutcome(old(View()), peer, ratio, now)
    {
      var rec := RecordOf(reputation, peer);
      JudgedSound(reputation, peer, ratio, now, decay);
      reputation := reputation[peer := rec.WithOutcome(ratio, now, decay)];
    }

    method ReceiveSettle(settle: SignedMessage, now: nat) returns (result: Result<()>)
      requires Valid()
      modifies this`pins, this`accepted, this`proposed, this`reputation, ledger
      ensures Valid()
      ensures (View(), result) == NegotiatorSpec.ReceiveSettle(old(View()), settle, now)
    {
      NegotiatorRuns.SettleKeepsValid(View(), settle, now);
      var ok := Verify(settle);
      if !ok {
        return Err(IntegrityError);
      }
      var msg := settle.payload.decoded.value;
      if !msg.Settle? {
        return Err(InvalidError);
      }
      var gives, nonce := msg.gives, msg.nonce;
      if nonce in accepted {
        var trade := accepted[nonce];
        if trade.counterparty.value != settle.signer {
          return Err(IntegrityError);
        }
        var ratio := FulfillmentRatio(trade.promised, gives);
        accepted := accepted - {nonce};
        ledger.Credit(gives);
        RecordDirectOutcome(settle.signer, ratio, now);
        return Ok(());
      }
      if nonce !in proposed {
        return Err(IntegrityError);
      }
      var trade := proposed[nonce];
      if trade.counterparty != Some(settle.signer) {
        return Err(IntegrityError);
      }
      proposed := proposed - {nonce};
      var ratio := FulfillmentRatio(trade.promised, gives);
      ledger.Credit(gives);
      RecordDirectOutcome(settle.signer, ratio, now);
      return Ok(());
    }

    method Reputation(peer: AgentId, now: nat) returns (standing: Standing)
      requires Valid()
      ensures standing == View().StandingOf(peer, now)
      ensures standing.blacklisted == View().Blacklists(peer, now)
    {
      if peer in reputation {
        standing := Snapshot(reputation[peer], now, decay);
      } else {
        standing := UNSEEN;
      }
    }

    method Penalize(peer: AgentId, now: nat)
      requires Valid()
      modifies this`reputation
      ensures Valid() && View() == NegotiatorSpec.Penalize(old(View()), peer, now)
    {
      RecordDirectOutcome(peer, 0.0, now);
    }

    method PenalizeAndSnapshot(peer: AgentId, now: nat) returns (broken: BrokenBargain)
      requires Valid()
      modifies this`reputation
      ensures Valid() && View() == NegotiatorSpec.Penalize(old(View()), peer, now)
      ensures broken.peer == peer
      ensures broken.trustAfter == View().StandingOf(peer, now).trust
      ensures broken.dingsAfter == View().StandingOf(peer, now).dings
    {
      RecordDirectOutcome(peer, 0.0, now);
      var standing := Reputation(peer, now);
      broken := BrokenBargain(peer, standing.trust, standing.dings);
    }

    method ReportReputation(subject: AgentId, now: nat) returns (report: SignedMessage)
      requires Valid()
      ensures report == NegotiatorSpec.ReportReputation(View(), subject, now)
    {
      var standing := Reputation(subject, now);
      report := Sign(ReputationReport(subject, standing.trust, standing.dings, now));
    }

    method FoldHearsay(claim: Claim, now: nat)
      requires Valid() && 1 <= claim.hops <= MAX_HOPS
      modifies this`reputation
      ensures Valid() && View() == NegotiatorSpec.FoldHearsay(old(View()), claim, now)
    {
      NegotiatorRuns.FoldSound(View(), claim, now);
      if claim.subject == id || claim.subject == claim.origin {
        return;
      }
      if claim.asOfCycle > now || SaturatingSub(now, claim.asOfCycle) > MAX_REPORT_AGE_CYCLES {
        return;
      }
      var entry := RecordOf(reputation, claim.subject);
      var fresher := claim.origin in entry.hearsay ==> claim.asOfCycle >= entry.hearsay[claim.origin].asOfCycle;
      if fresher {
        var h := Hearsay(Clamp(claim.trust, 0.0, 1.0), claim.asOfCycle, claim.hops);
        entry := entry.(hearsay := entry.hearsay[claim.origin := h]);
      }
      reputation := reputation[claim.subject := entry];
    }

    method ReceiveReputationReport(report: SignedMessage, now: nat) returns (result: Result<()>)
      requires Valid()
      modifies this`pins, this`reputation
      ensures Valid()
      ensures (View(), result) == NegotiatorSpec.ReceiveReport(old(View()), report, now)
    {
      var ok := Verify(report);
      if !ok {
        return Err(IntegrityError);
      }
      var standing := Reputation(report.signer, now);
      if standing.blacklisted {
        return Ok(());
      }
      match report.payload.decoded.value {
        case ReputationReport(subject, trust, _, asOfCycle) =>
          FoldHearsay(Claim(subject, report.signer, trust, asOfCycle, 1), now);
          return Ok(());
        case RelayedReputationReport(subject, origin, hops, provenance) =>
          if hops == 0 || hops > MAX_HOPS {
            return Ok(());
          }
          if provenance.Corrupt? {
            return Ok(());
          }
          var inner := provenance.inner;
          if inner.signer != origin {
            return Ok(());
          }
          var innerOk := VerifyBinding(inner.signer, inner.publicKey, inner.payload, inner.signature);
          if !innerOk {
            return Ok(());
          }
          if inner.Message().Err? {
            return Err(inner.Message().error);
          }
          match inner.payload.decoded.value {
            case ReputationReport(innerSubject, trust, _, asOfCycle) =>
              if innerSubject != subject {
                return Ok(());
              }
              FoldHearsay(Claim(subject, origin, trust, asOfCycle, hops), now);
              return Ok(());
            case _ => return Ok(());
          }
        case _ => return Err(InvalidError);
      }
    }

    /// Drop the accepted trades that are at least `timeout` cycles old, penalizing each proposer.
    /// The table is walked in some order, which the ghost result records.
    method DrainAccepted(now: nat, timeout: nat) returns (broken: seq<BrokenBargain>, ghost order: seq<nat>)
      requires Valid()
      modifies this`accepted, this`reputation
      ensures Valid()
      ensures Enumerates(order, Expired(old(accepted), now, timeout))
      ensures accepted == old(accepted) - Expired(old(accepted), now, timeout)
      ensures reputation == PenalizeAll(old(reputation), Blamed(old(accepted), order), now, decay)
      ensures broken == Reports(old(reputation), Blamed(old(accepted), order), now, decay)
    {
      hide Drained, AllSound, Expired, Enumerates, PenalizeAll, Reports, Blamed;
      ghost var start, reps := accepted, reputation;
      broken, order := [], [];
      var expired := Expired(accepted, now, timeout);
      DrainStarts(start, reps, now, timeout, decay);
      while expired != {}
        invariant Valid()
        invariant Drained(start, accepted, Expired(start, now, timeout), expired, order, reps, reputation, broken, now, decay)
        decreases expired
      {
        var nonce :| nonce in expired;
        DrainStep(start, accepted, Expired(start, now, timeout), expired, order, reps, reputation, broken, nonce, now, decay);
        var trade := accepted[nonce];
        expired, accepted := expired - {nonce}, accepted - {nonce};
        order := order + [nonce];
        if trade.counterparty.Some? {
          var b := PenalizeAndSnapshot(trade.counterparty.value, now);
          broken := broken + [b];
        }
      }
      DrainEnds(start, accepted, Expired(start, now, timeout), order, reps, reputation, broken, now, decay);
    }

    /// The same for the proposed trades; one nobody accepted has no one to blame.
    method DrainProposed(now: nat, timeout: nat) returns (broken: seq<BrokenBargain>, ghost order: seq<nat>)
      requires Valid()
      modifies this`proposed, this`reputation
      ensures Valid()
      ensures Enumerates(order, Expired(old(proposed), now, timeout))
      ensures proposed == old(proposed) - Expired(old(proposed), now, timeout)
      ensures reputation == PenalizeAll(old(reputation), Blamed(old(proposed), order), now, decay)
      ensures broken == Reports(old(reputation), Blamed(old(proposed), order), now, decay)
    {
      hide Drained, AllSound, Expired, Enumerates, PenalizeAll, Reports, Blamed;
      ghost var start, reps := proposed, reputation;
      broken, order := [], [];
      var expired := Expired(proposed, now, timeout);
      DrainStarts(start, reps, now, timeout, decay);
      while expired != {}
        invariant Valid()
        invariant Drained(start, proposed, Expired(start, now, timeout), expired, order, reps, reputation, broken, now, decay)
        decreases expired
      {
        var nonce :| nonce in expired;
        DrainStep(start, proposed, Expired(start, now, timeout), expired, order, reps, reputation, broken, nonce, now, decay);
        var trade := proposed[nonce];
        expired, proposed := expired - {nonce}, proposed - {nonce};
        order := order + [nonce];
        if trade.counterparty.Some? {
          var b := PenalizeAndSnapshot(trade.counterparty.value, now);
          broken := broken + [b];
        }
      }
      DrainEnds(start, proposed, Expired(start, now, timeout), order, reps, reputation, broken, now, decay);
    }

    /// Drop every trade that is at least `timeout` cycles old and penalize whoever it was held with.
    method SweepTimeouts(now: nat, timeout: nat)
      returns (broken: seq<BrokenBargain>, ghost acceptedOrder: seq<nat>, ghost proposedOrder: seq<nat>)
      requires Valid()
      modifies this`accepted, this`proposed, this`reputation
      ensures Valid()
      ensures SweepOrders(old(View()), now, timeout, acceptedOrder, proposedOrder)
      ensures View() == Sweep(old(View()), now, timeout, acceptedOrder, proposedOrder)
      ensures broken == Reports(old(reputation), SweepBlames(old(View()), acceptedOrder, proposedOrder), now, decay)
    {
      ghost var start := View();
      var fromAccepted, fromProposed;
      fromAccepted, acceptedOrder := DrainAccepted(now, timeout);
      fromProposed, proposedOrder := DrainProposed(now, timeout);
      broken := fromAccepted + fromProposed;
      BlameBoth(start.reputation, Blamed(start.accepted, acceptedOrder), Blamed(start.proposed, proposedOrder), now, decay);
    }
  }

  /// Part of the expired trades `all` has been removed, in the given order; `left` is to come.
  ghost predicate Walked(start: Trades, current: Trades, all: set<nat>, left: set<nat>, order: seq<nat>) {
    && left <= all <= start.Keys
    && current == start - (all - left)
    && (forall n :: n in order <==> n in all - left)
    && (forall i, j :: 0 <= i < j < |order| ==> order[i] != order[j])
  }

  /// So far the sweep has walked the trades in `order` and blamed whom they name.
  ghost predicate Drained(start: Trades, current: Trades, all: set<nat>, left: set<nat>, order: seq<nat>,
      before: Reputations, reps: Reputations, broken: seq<BrokenBargain>, now: nat, decay: Decay)
  {
    && Walked(start, current, all, left, order)
    && (forall n :: n in order ==> n in start)
    && AllSound(before) && AllSound(reps)
    && reps == PenalizeAll(before, Blamed(start, order), now, decay)
    && broken == Reports(before, Blamed(start, order), now, decay)
  }

  lemma {:induction false} DrainStarts(start: Trades, reps: Reputations, now: nat, timeout: nat, decay: Decay)
    requires AllSound(reps)
    ensures Drained(start, start, Expired(start, now, timeout), Expired(start, now, timeout), [], reps, reps, [], now, decay)
  {
    hide AllSound;
  }

  lemma {:induction false} DrainEnds(start: Trades, current: Trades, all: set<nat>, order: seq<nat>,
      before: Reputations, reps: Reputations, broken: seq<BrokenBargain>, now: nat, decay: Decay)
    requires Drained(start, current, all, {}, order, before, reps, broken, now, decay)
    ensures Enumerates(order, all) && current == start - all && AllSound(before)
    ensures forall n :: n in order ==> n in start
    ensures reps == PenalizeAll(before, Blamed(start, order), now, decay)
    ensures broken == Reports(before, Blamed(start, order), now, decay)
  {
    hide AllSound, PenalizeAll, Reports, Blamed;
  }

  /// One more expired trade: it leaves the table, and its counterparty, if known, is judged and
  /// reported.
  lemma {:induction false} DrainStep(start: Trades, current: Trades, all: set<nat>, left: set<nat>, order: seq<nat>,
      before: Reputations, reps: Reputations, broken: seq<BrokenBargain>, n: nat, now: nat, decay: Decay)
    requires Drained(start, current, all, left, order, before, reps, broken, now, decay) && n in left
    ensures n in current && n in start && current[n] == start[n]
    ensures var peer := current[n].counterparty;
      if peer.None? then
        Drained(start, current - {n}, all, left - {n}, order + [n], before, reps, broken, now, decay)
      else
        var next := Judged(reps, peer.value, 0.0, now, decay);
        && AllSound(next)
        && var standing := StandingIn(next, peer.value, now, decay);
        Drained(start, current - {n}, all, left - {n}, order + [n], before, next,
          broken + [BrokenBargain(peer.value, standing.trust, standing.dings)], now, decay)
  {
    WalkOneMore(start, current, all, left, order, n);
    BlamedOneMore(start, order, n);
    BlameOneMore(before, Blamed(start, order), start[n].counterparty, now, decay);
    hide Walked, AllSound, PenalizeAll, Reports, Blamed, Judged, StandingIn;
  }

  lemma WalkOneMore(start: Trades, current: Trades, all: set<nat>, left: set<nat>, order: seq<nat>, n: nat)
    requires Walked(start, current, all, left, order) && n in left
    ensures Walked(start, current - {n}, all, left - {n}, order + [n])
    ensures n in start && n in current && current[n] == start[n]
  {
  }

  lemma BlamedOneMore(trades: Trades, order: seq<nat>, n: nat)
    requires n in trades && forall k :: k in order ==> k in trades
    ensures forall k :: k in order + [n] ==> k in trades
    ensures Blamed(trades, order + [n]) == Blamed(trades, order) + Named(trades[n].counterparty)
  {
    assert (order + [n])[..|order|] == order;
  }

  function Named(peer: Option<AgentId>): seq<AgentId> {
    if peer.Some? then [peer.value] else []
  }

  lemma BlameOneMore(reps: Reputations, blamed: seq<AgentId>, peer: Option<AgentId>, now: nat, decay: Decay)
    requires AllSound(reps)
    ensures AllSound(PenalizeAll(reps, blamed + Named(peer), now, decay))
    ensures peer.None? ==>
      && PenalizeAll(reps, blamed + Named(peer), now, decay) == PenalizeAll(reps, blamed, now, decay)
      && Reports(reps, blamed + Named(peer), now, decay) == Reports(reps, blamed, now, decay)
    ensures peer.Some? ==>
      && PenalizeAll(reps, blamed + Named(peer), now, decay)
         == Judged(PenalizeAll(reps, blamed, now, decay), peer.value, 0.0, now, decay)
      && var standing := StandingIn(PenalizeAll(reps, blamed + Named(peer), now, decay), peer.value, now, decay);
         Reports(reps, blamed + Named(peer), now, decay)
         == Reports(reps, blamed, now, decay) + [BrokenBargain(peer.value, standing.trust, standing.dings)]
  {
    PenalizeAllSound(reps, blamed + Named(peer), now, decay);
    if peer.Some? {
      assert (blamed + [peer.value])[..|blamed|] == blamed;
    } else {
      assert blamed + Named(peer) == blamed;
    }
  }

  lemma {:induction false} BlameBoth(reps: Reputations, a: seq<AgentId>, b: seq<AgentId>, now: nat, decay: Decay)
    requires AllSound(reps)
    ensures AllSound(PenalizeAll(reps, a, now, decay))
    ensures PenalizeAll(PenalizeAll(reps, a, now, decay), b, now, decay) == PenalizeAll(reps, a + b, now, decay)
    ensures Reports(reps, a + b, now, decay)
         == Reports(reps, a, now, decay) + Reports(PenalizeAll(reps, a, now, decay), b, now, decay)
  {
    hide Judged, StandingIn, AllSound;
    PenalizeAllSound(reps, a, now, decay);
    if b == [] {
      assert a + b == a;
    } else {
      var init, last := b[..|b| - 1], b[|b| - 1];
      BlameBoth(reps, a, init, now, decay);
      assert (a + b)[..|a + b| - 1] == a + init;
    }
  }
}
