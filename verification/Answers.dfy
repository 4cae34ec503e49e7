/// What a negotiator answers to each message, spelled out in the message's and the state's own
/// terms, and how long what it answered lasts.
module Answers {
  import opened Core
  import opened RealMath
  import opened Messages
  import opened Reputation
  import opened NegotiatorSpec
  import opened NegotiatorRuns
  import opened Accounting
  import opened Convergence
  import opened HonestTrade
  import opened Provenance
  import opened ReputationLaws

  /// `m` says `content` over the signature of `s`.
  predicate SignedBy(s: State, m: SignedMessage, content: BarterMessage) {
    && m.signer == s.id && m.publicKey == s.key
    && m.payload.decoded == Some(content)
    && m.signature == Signed(s.key, m.payload)
  }

  // ----- signatures -----

  /// A message passes if it is no longer than 64 KiB, decodes, is signed under the key it names,
  /// and its signer is not bound to another one; then its signer is bound to that key. Nothing
  /// else changes, and nothing at all if it does not pass.
  lemma {:induction false} VerifyIff(s: State, m: SignedMessage)
    ensures var (t, ok) := Verify(s, m);
      && (ok <==>
            && m.payload.length <= 65536 && m.payload.decoded.Some?
            && m.signature == Signed(m.publicKey, m.payload)
            && (m.signer in s.pins ==> s.pins[m.signer] == m.publicKey))
      && (ok <==> Acceptable(s, m))
      && t == if ok then s.(pins := s.pins[m.signer := m.publicKey]) else s
  {
    if m.signer in s.pins && s.pins[m.signer] == m.publicKey {
      assert s.pins[m.signer := m.publicKey] == s.pins;
    }
  }

  // ----- trading -----

  /// The first accepter of a proposed trade is bound to it; it may repeat itself, and anybody
  /// else is refused.
  lemma {:induction false} AcceptAnswered(s: State, m: SignedMessage)
    ensures var (t, r) := ReceiveAccept(s, m);
      && (!Acceptable(s, m) ==> r == Err(IntegrityError) && t == s)
      && (Acceptable(s, m) ==>
            var content, s1 := m.payload.decoded.value, s.(pins := s.pins[m.signer := m.publicKey]);
            if !content.Accept? || content.nonce !in s.proposed then r == Err(InvalidError) && t == s1
            else
              var n, bound := content.nonce, s.proposed[content.nonce].counterparty;
              && (bound == None ==>
                    r == Ok(()) && t == s1.(proposed := s.proposed[n := s.proposed[n].(counterparty := Some(m.signer))]))
              && (bound == Some(m.signer) ==> r == Ok(()) && t == s1)
              && (bound != None && bound != Some(m.signer) ==> r == Err(IntegrityError) && t == s1))
  {
    VerifyIff(s, m);
    hide Verify, Acceptable;
  }

  /// An offer is answered, in this order: from a peer whose failures weigh one and a half or more,
  /// with nothing; from one that has as many trades pending as allowed, with a resource error; one
  /// whose price is not covered by the balance, with nothing; any other, with an acceptance.
  lemma {:induction false} OfferAnswered(s: State, m: SignedMessage, now: nat)
    ensures var (t, r) := ReceiveOffer(s, m, now);
      && (!Acceptable(s, m) ==> r == Err(IntegrityError) && t == s)
      && (Acceptable(s, m) ==>
            var content, s1, from := m.payload.decoded.value, s.(pins := s.pins[m.signer := m.publicKey]), m.signer;
            if !content.Offer? then r == Err(InvalidError) && t == s1
            else if from in s.reputation && s.reputation[from].DecayedFailureWeight(now, s.decay) >= 1.5 then
              r == Ok(None) && t == s1
            else if |set n | n in s.accepted && s.accepted[n].counterparty == Some(from)| >= s.maxPending then
              r == Err(ResourceError) && t == s1
            else if Balance(s.balances, content.wants.kind) < content.wants.quantity then r == Ok(None) && t == s1
            else
              && r.Ok? && r.value.Some?
              && SignedBy(s, r.value.value, Accept(content.gives, content.wants, content.nonce))
              && t == s1.(accepted := s.accepted[content.nonce := Trade(Some(from), content.gives, now)]))
  {
    VerifyIff(s, m);
    assert HeldWith(s.accepted, m.signer) == set n | n in s.accepted && s.accepted[n].counterparty == Some(m.signer);
    hide Verify, Acceptable, Balance, Record.DecayedFailureWeight, WireLength;
  }

  /// A settle is honoured exactly if its nonce is of a trade with its signer; a trade accepted
  /// from a peer hides one proposed under the same nonce.
  lemma {:induction false} SettleAnswered(s: State, m: SignedMessage, now: nat, kind: ResourceKind)
    ensures var (t, r) := ReceiveSettle(s, m, now);
      && (!Acceptable(s, m) ==> r == Err(IntegrityError) && t == s)
      && (Acceptable(s, m) ==>
            var content, s1, from := m.payload.decoded.value, s.(pins := s.pins[m.signer := m.publicKey]), m.signer;
            if !content.Settle? then r == Err(InvalidError) && t == s1
            else
              var n, gives := content.nonce, content.gives;
              var accepted := n in s.accepted && s.accepted[n].counterparty == Some(from);
              var proposed := n !in s.accepted && n in s.proposed && s.proposed[n].counterparty == Some(from);
              && (r == Ok(()) <==> accepted || proposed)
              && (r != Ok(()) ==> r == Err(IntegrityError) && t == s1)
              && (r == Ok(()) ==>
                    && t.accepted == (if accepted then s.accepted - {n} else s.accepted)
                    && t.proposed == (if accepted then s.proposed else s.proposed - {n})
                    && Balance(t.balances, kind) == Balance(s.balances, kind) + (if kind == gives.kind then gives.quantity else 0.0)
                    && t == s1.(accepted := t.accepted, proposed := t.proposed, balances := t.balances, reputation := t.reputation)))
  {
    VerifyIff(s, m);
    hide Verify, Acceptable, FulfillmentRatio, Judged;
  }

  /// Penalizing a peer is one whole failure and one ding; nobody else's record changes.
  lemma {:induction false} PenaltyIsOneFailure(s: State, peer: AgentId, now: nat, other: AgentId)
    requires other != peer
    ensures var t := Penalize(s, peer, now);
      && Gains(RecordOf(s.reputation, peer), RecordOf(t.reputation, peer), now, s.decay, 0.0, 1.0, 1)
      && RecordOf(t.reputation, other) == RecordOf(s.reputation, other)
      && t == s.(reputation := t.reputation)
  {
    OutcomeGains(RecordOf(s.reputation, peer), 0.0, now, s.decay);
    hide Gains, Record.WithOutcome;
  }

  // ----- how long a trade lasts -----

  /// A proposal is made under the agent's signature, and outlives a sweep exactly if fewer cycles
  /// than the timeout have passed since.
  lemma {:induction false} ProposalLasts(s: State, gives: Resource, wants: Resource, nonce: nat, now: nat,
                                         later: nat, timeout: nat, acceptedOrder: seq<nat>, proposedOrder: seq<nat>)
    requires var t := ProposeOffer(s, gives, wants, nonce, now).0; SweepOrders(t, later, timeout, acceptedOrder, proposedOrder)
    ensures var (t, m) := ProposeOffer(s, gives, wants, nonce, now);
      && SignedBy(s, m, Offer(gives, wants, nonce))
      && t == s.(proposed := t.proposed)
      && (nonce in Sweep(t, later, timeout, acceptedOrder, proposedOrder).proposed <==> timeout > 0 && later < now + timeout)
      && nonce in t.proposed && t.proposed[nonce].promised == wants && t.proposed[nonce].counterparty == None
      && forall n :: n != nonce ==> (n in t.proposed <==> n in s.proposed) && (n in s.proposed ==> t.proposed[n] == s.proposed[n])
  {
    hide PenalizeAll, WireLength, SweepBlames;
  }

  /// So does an offer taken.
  lemma {:induction false} AcceptanceLasts(s: State, m: SignedMessage, now: nat,
                                           later: nat, timeout: nat, acceptedOrder: seq<nat>, proposedOrder: seq<nat>)
    requires Takes(s, m, now)
    requires SweepOrders(ReceiveOffer(s, m, now).0, later, timeout, acceptedOrder, proposedOrder)
    ensures var t := ReceiveOffer(s, m, now).0;
      m.payload.decoded.value.nonce in Sweep(t, later, timeout, acceptedOrder, proposedOrder).accepted
      <==> timeout > 0 && later < now + timeout
  {
    TakenIff(s, m, now);
    hide PenalizeAll, WireLength, SweepBlames, ReceiveOffer, Takes;
  }

  // ----- gossip -----

  lemma {:induction false} PartOfWhole(n: real, d: real, q: real)
    requires 0.0 < n <= d && q * d == n
    ensures 0.0 < q <= 1.0
  {
    Scaled(1.0, q, d, d, n);
    Scaled(0.0, q, d, 0.0, n);
  }

  lemma {:induction false} TrustIsShare(rec: Record, now: nat, decay: Decay)
    requires rec.Sound()
    ensures 0.0 < rec.Snapshot(now, decay).trust <= 1.0
  {
    TrustIs(rec, now, decay);
    HearsayMass(rec.hearsay, now);
    SnapshotDenominator(rec, now, decay);
    hide HearsaySuccesses, HearsayFailures, Record.DecayedDirect, Record.Snapshot;
    var n := rec.DecayedDirect(now, decay).0 + HearsaySuccesses(rec.hearsay, now) + 1.0;
    var d := n + (rec.DecayedDirect(now, decay).1 + HearsayFailures(rec.hearsay, now));
    Undivided(n, d, rec.Snapshot(now, decay).trust);
    DirectIsNonNegative(rec, now, decay);
    PartOfWhole(n, d, rec.Snapshot(now, decay).trust);
  }

  lemma {:induction false} DirectIsNonNegative(rec: Record, now: nat, decay: Decay)
    requires rec.Sound()
    ensures rec.DecayedDirect(now, decay).1 >= 0.0
  {
    SnapshotDenominator(rec, now, decay);
  }

  /// A report quotes what is on record of the subject, full trust if nothing is, as of its cycle.
  lemma {:induction false} ReportQuotes(s: State, subject: AgentId, now: nat)
    requires s.Valid()
    ensures var m := ReportReputation(s, subject, now);
      && (subject in s.reputation ==>
            var standing := s.reputation[subject].Snapshot(now, s.decay);
            0.0 < standing.trust <= 1.0 && SignedBy(s, m, ReputationReport(subject, standing.trust, standing.dings, now)))
      && (subject !in s.reputation ==> SignedBy(s, m, ReputationReport(subject, 1.0, 0, now)))
  {
    if subject in s.reputation {
      TrustIsShare(s.reputation[subject], now, s.decay);
    }
    hide WireLength, Record.Snapshot;
  }

  /// A report is relayed as coming from its signer, two steps away and with the report itself for
  /// proof; a relayed one a step further with the same proof, until it is three steps away. Nothing
  /// else is relayed.
  lemma {:induction false} RelayAnswered(s: State, m: SignedMessage)
    ensures var r := RelayReputationReport(s, m);
      && (m.Message().Err? ==> r == None)
      && (m.Message().Ok? ==>
            match m.payload.decoded.value
            case ReputationReport(subject, _, _, _) =>
              r.Some? && SignedBy(s, r.value, RelayedReputationReport(subject, m.signer, 2, Intact(m)))
            case RelayedReputationReport(subject, origin, hops, provenance) =>
              && (r.Some? <==> hops < 3)
              && (r.Some? ==> SignedBy(s, r.value, RelayedReputationReport(subject, origin, hops + 1, provenance)))
            case _ => r == None)
  {
    hide WireLength;
  }

  /// A relayed report is backed if it is one to three steps from its origin and holds something
  /// signed by that origin, under the key the origin is bound to.
  predicate Backed(s: State, m: SignedMessage) {
    && m.payload.decoded.Some?
    && var content := m.payload.decoded.value;
       && content.RelayedReputationReport?
       && 1 <= content.hops <= 3
       && content.provenance.Intact?
       && var inner := content.provenance.inner;
          && inner.signer == content.origin
          && inner.signature == Signed(inner.publicKey, inner.payload)
          && (if inner.signer == m.signer then inner.publicKey == m.publicKey
              else inner.signer in s.pins ==> s.pins[inner.signer] == inner.publicKey)
  }

  /// What is held proves the claim if it is a readable report that says so.
  predicate Proves(m: SignedMessage, inner: SignedMessage, claim: Claim)
    requires m.payload.decoded.Some? && m.payload.decoded.value.RelayedReputationReport?
  {
    var content := m.payload.decoded.value;
    && content.subject == claim.subject && content.origin == claim.origin && content.hops == claim.hops
    && inner.payload.length <= 65536
    && inner.payload.decoded.Some?
    && inner.payload.decoded.value.ReputationReport?
    && inner.payload.decoded.value.subject == claim.subject
    && inner.payload.decoded.value.trust == claim.trust
    && inner.payload.decoded.value.asOfCycle == claim.asOfCycle
  }

  /// When a claim is read from a report, and which: the signer's own if it is a direct one, the
  /// origin's if it is a relayed one with proof; none from a blacklisted signer. What is held and
  /// backed but cannot be read is an error; anything else not proved is passed over.
  lemma {:induction false} ClaimReadIff(s: State, m: SignedMessage, now: nat, claim: Claim)
    ensures var r := ReportClaim(s, m, now).1;
      && (!Acceptable(s, m) ==> r == Err(IntegrityError))
      && (Acceptable(s, m) && s.Blacklists(m.signer, now) ==> r == Ok(None))
      && (Acceptable(s, m) && !s.Blacklists(m.signer, now) ==>
            var content := m.payload.decoded.value;
            && (content.Offer? || content.Accept? || content.Settle? ==> r == Err(InvalidError))
            && (content.ReputationReport? ==> r == Ok(Some(Claim(content.subject, m.signer, content.trust, content.asOfCycle, 1))))
            && (content.RelayedReputationReport? && !Backed(s, m) ==> r == Ok(None))
            && (content.RelayedReputationReport? && Backed(s, m) ==>
                  var inner := content.provenance.inner;
                  && (r == Err(InvalidError) <==> inner.payload.length > 65536)
                  && (r == Err(EncodeError) <==> inner.payload.length <= 65536 && inner.payload.decoded.None?)
                  && (r == Ok(Some(claim)) <==> Proves(m, inner, claim))
                  && (r.Err? ==> r == Err(InvalidError) || r == Err(EncodeError))))
  {
    VerifyIff(s, m);
    var s1 := Verify(s, m).0;
    assert s1.Blacklists(m.signer, now) == s.Blacklists(m.signer, now);
    hide Verify, State.Blacklists, Acceptable;
  }

  /// A claim is kept exactly if it is about a third party, neither from the future nor more than a
  /// hundred cycles old, and no older than what the same witness said before; then it replaces
  /// that. No other entry and nothing else changes.
  lemma {:induction false} ClaimKeptIff(s: State, claim: Claim, now: nat, subject: AgentId, origin: AgentId)
    ensures var t := FoldHearsay(s, claim, now);
      var before, after := Entry(s.reputation, subject, origin), Entry(t.reputation, subject, origin);
      && after ==
         (if claim.subject == subject && claim.origin == origin
             && subject != s.id && subject != origin
             && claim.asOfCycle <= now <= claim.asOfCycle + 100
             && (before.None? || before.value.asOfCycle <= claim.asOfCycle)
          then Some(Hearsay(Clamp(claim.trust, 0.0, 1.0), claim.asOfCycle, claim.hops))
          else before)
      && RecordOf(t.reputation, subject) == RecordOf(s.reputation, subject).(hearsay := RecordOf(t.reputation, subject).hearsay)
      && t == s.(reputation := t.reputation)
  {
    FoldOneEntry(s, claim, subject, origin, now);
  }

  /// The claim a listener reads from a report of `subject` or from a relay of it.
  lemma {:induction false} ReportIsRead(listener: State, m: SignedMessage, later: nat, origin: AgentId, key: PublicKey,
                                        report: SignedMessage, subject: AgentId, trust: real, dings: nat, now: nat, hops: nat)
    requires Acceptable(listener, m) && !listener.Blacklists(m.signer, later) && 1 <= hops <= 3
    requires report.signer == origin && report.publicKey == key && report.signature == Signed(key, report.payload)
    requires report.payload.decoded == Some(ReputationReport(subject, trust, dings, now)) && report.payload.length <= MAX_MESSAGE_BYTES
    requires Trusts(listener, origin, key) && (m.signer == origin ==> m.publicKey == key)
    requires if hops == 1 then m == report
             else m.payload.decoded == Some(RelayedReputationReport(subject, origin, hops, Intact(report)))
    ensures ReportClaim(listener, m, later).1 == Ok(Some(Claim(subject, origin, trust, now, hops)))
  {
    ClaimReadIff(listener, m, later, Claim(subject, origin, trust, now, hops));
    hide ReportClaim, State.Blacklists, Acceptable;
  }

  lemma {:induction false} ReadIsKept(s: State, m: SignedMessage, now: nat, claim: Claim)
    requires ReportClaim(s, m, now).1 == Ok(Some(claim))
    requires claim.subject != s.id && claim.subject != claim.origin && claim.asOfCycle <= now <= claim.asOfCycle + 100
    requires var known := Entry(s.reputation, claim.subject, claim.origin); known.None? || known.value.asOfCycle <= claim.asOfCycle
    ensures var (t, r) := ReceiveReport(s, m, now);
      && r == Ok(())
      && Entry(t.reputation, claim.subject, claim.origin) == Some(Hearsay(Clamp(claim.trust, 0.0, 1.0), claim.asOfCycle, claim.hops))
  {
    var s1 := ReportClaim(s, m, now).0;
    assert OnlyPinsGrow(s, s1);
    ClaimKeptIff(s1, claim, now, claim.subject, claim.origin);
    hide ReportClaim, FoldHearsay, Entry;
  }

  /// What `s` holds of `subject`: full trust if it never met it.
  ghost function TrustIn(s: State, subject: AgentId, now: nat): real
    requires s.Valid()
  {
    if subject in s.reputation then s.reputation[subject].Snapshot(now, s.decay).trust else 1.0
  }

  /// Gossip arrives: whoever hears the witness's own report, or its first or second relay, within a
  /// hundred cycles keeps it as the witness's claim, at that distance, unless it knows a fresher one
  /// of that witness or is itself the subject.
  lemma {:induction false} GossipArrives(first: State, subject: AgentId, now: nat,
                                         chain: seq<SignedMessage>, relayers: seq<State>, i: nat, listener: State, later: nat)
    requires first.Valid() && RelayChain(chain, relayers) && i < |chain|
    requires chain[0] == ReportReputation(first, subject, now) && chain[0].payload.length <= MAX_MESSAGE_BYTES
    requires Acceptable(listener, chain[i]) && !listener.Blacklists(chain[i].signer, later)
    requires Trusts(listener, first.id, first.key) && (chain[i].signer == first.id ==> chain[i].publicKey == first.key)
    requires subject != listener.id && subject != first.id && now <= later <= now + 100
    requires var known := Entry(listener.reputation, subject, first.id); known.None? || known.value.asOfCycle <= now
    ensures var (t, r) := ReceiveReport(listener, chain[i], later);
      && i <= 2
      && r == Ok(())
      && Entry(t.reputation, subject, first.id) == Some(Hearsay(TrustIn(first, subject, now), now, i + 1))
  {
    ReportQuotes(first, subject, now);
    var report := chain[0].payload.decoded.value;
    var trust := TrustIn(first, subject, now);
    if i > 0 {
      RelayBound(chain, relayers, i);
    }
    hide ReportClaim, Entry, State.Blacklists, Acceptable, RelayChain, ReceiveReport, ReportReputation, Trusts, State.Valid;
    assert Clamp(trust, 0.0, 1.0) == trust;
    hide TrustIn;
    ReportIsRead(listener, chain[i], later, first.id, first.key, chain[0], subject, trust, report.dings, now, i + 1);
    ReadIsKept(listener, chain[i], later, Claim(subject, first.id, trust, now, i + 1));
  }
}
