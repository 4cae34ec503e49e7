/// Provenance of hearsay under an adversarial network: relayers may send anything
/// they can build from signatures that key holders really made.
module Provenance {
  import opened Core
  import opened RealMath
  import opened Messages
  import opened Reputation
  import opened NegotiatorSpec
  import opened NegotiatorRuns

  /// One negotiator, everything key holders have signed so far, and every binding of an
  /// identity to a key this negotiator has ever held.
  datatype World = World(
    node: State,
    signed: set<(PublicKey, Payload)>,
    everPinned: set<(AgentId, PublicKey)>)

  datatype WorldEvent =
    | KeyHolderSigns(key: PublicKey, payload: Payload)
    | NodeActs(event: Event)

  /// A signature that verifies was made by the key's holder.
  ghost predicate Unforged(w: World, m: SignedMessage) {
    VerifySignature(m.publicKey, m.payload, m.signature) ==> (m.publicKey, m.payload) in w.signed
  }

  function Embedded(m: SignedMessage): Option<SignedMessage> {
    match m.payload.decoded
    case Some(RelayedReputationReport(_, _, _, Intact(inner))) => Some(inner)
    case _ => None
  }

  ghost predicate Possible(w: World, e: WorldEvent) {
    && w.node.Valid()
    && (e.NodeActs? ==> Enabled(w.node, e.event))
    && (e.NodeActs? && e.event.ReportEvent? ==>
          && Unforged(w, e.event.msg)
          && (Embedded(e.event.msg).Some? ==> Unforged(w, Embedded(e.event.msg).value)))
  }

  function Bindings(s: State): set<(AgentId, PublicKey)> {
    set a | a in s.pins :: (a, s.pins[a])
  }

  ghost function Next(w: World, e: WorldEvent): World
    requires Possible(w, e)
  {
    match e
    case KeyHolderSigns(key, payload) => w.(signed := w.signed + {(key, payload)})
    case NodeActs(event) =>
      var t := Step(w.node, event).0;
      World(t, w.signed, w.everPinned + Bindings(t))
  }

  /// `payload` is a report by its signer about `subject` that says what `h` records.
  predicate Backs(payload: Payload, subject: AgentId, h: Hearsay) {
    && payload.decoded.Some?
    && payload.decoded.value.ReputationReport?
    && payload.decoded.value.subject == subject
    && payload.decoded.value.asOfCycle == h.asOfCycle
    && Clamp(payload.decoded.value.trust, 0.0, 1.0) == h.trust
  }

  /// The holder of a key that was bound to `origin` signed exactly this claim.
  ghost predicate Vouched(w: World, subject: AgentId, origin: AgentId, h: Hearsay) {
    && 1 <= h.hops <= MAX_HOPS
    && origin != subject
    && subject != w.node.id
    && exists key, payload ::
         (origin, key) in w.everPinned && (key, payload) in w.signed && Backs(payload, subject, h)
  }

  ghost predicate Inv(w: World) {
    && w.node.Valid()
    && Bindings(w.node) <= w.everPinned
    && forall subject, origin ::
         subject in w.node.reputation && origin in w.node.reputation[subject].hearsay ==>
           Vouched(w, subject, origin, w.node.reputation[subject].hearsay[origin])
  }

  // ----- one report -----

  /// A claim extracted from a report was signed under the key now bound to its origin.
  lemma ClaimIsSigned(w: World, m: SignedMessage, now: nat)
    requires w.node.Valid() && Unforged(w, m)
    requires Embedded(m).Some? ==> Unforged(w, Embedded(m).value)
    ensures var (t, r) := ReportClaim(w.node, m, now);
      r.Ok? && r.value.Some? ==>
        var c := r.value.value;
        && c.origin in t.pins
        && exists payload :: (t.pins[c.origin], payload) in w.signed
             && Backs(payload, c.subject, Hearsay(Clamp(c.trust, 0.0, 1.0), c.asOfCycle, c.hops))
  {
    var (t, r) := ReportClaim(w.node, m, now);
    if r.Ok? && r.value.Some? {
      var c := r.value.value;
      var source := if m.payload.decoded.value.ReputationReport? then m else Embedded(m).value;
      assert t.pins[c.origin] == source.publicKey;
      assert (source.publicKey, source.payload) in w.signed;
      assert Backs(source.payload, c.subject, Hearsay(Clamp(c.trust, 0.0, 1.0), c.asOfCycle, c.hops));
    }
  }

  lemma VouchedStable(w: World, v: World, subject: AgentId, origin: AgentId, h: Hearsay)
    requires Vouched(w, subject, origin, h)
    requires w.everPinned <= v.everPinned && w.signed <= v.signed && v.node.id == w.node.id
    ensures Vouched(v, subject, origin, h)
  {
    var key, payload :|
      (origin, key) in w.everPinned && (key, payload) in w.signed && Backs(payload, subject, h);
    assert (origin, key) in v.everPinned && (key, payload) in v.signed;
  }

  /// Every entry of `t` is either an entry of `s` or the one claim folded in.
  ghost predicate PoolsFrom(s: State, t: State, claim: Option<Claim>) {
    forall subject, origin :: subject in t.reputation && origin in t.reputation[subject].hearsay ==>
      var h := t.reputation[subject].hearsay[origin];
      || (subject in s.reputation && origin in s.reputation[subject].hearsay
          && h == s.reputation[subject].hearsay[origin])
      || (claim.Some? && subject == claim.value.subject && origin == claim.value.origin
          && subject != s.id && subject != origin
          && h == Hearsay(Clamp(claim.value.trust, 0.0, 1.0), claim.value.asOfCycle, claim.value.hops))
  }

  lemma FoldPools(s: State, t: State, claim: Claim, now: nat)
    requires OnlyPinsGrow(s, t)
    ensures PoolsFrom(s, FoldHearsay(t, claim, now), Some(claim))
  {
  }

  lemma JudgedPools(s: State, peer: AgentId, ratio: real, now: nat)
    ensures PoolsFrom(s, WithOutcome(s, peer, ratio, now), None)
  {
  }

  lemma {:induction false} SweepPools(reps: Reputations, peers: seq<AgentId>, now: nat, decay: Decay, p: AgentId)
    ensures RecordOf(PenalizeAll(reps, peers, now, decay), p).hearsay == RecordOf(reps, p).hearsay
  {
    if peers != [] {
      SweepPools(reps, peers[..|peers| - 1], now, decay, p);
    }
  }

  lemma SettlePools(s: State, m: SignedMessage, now: nat)
    ensures PoolsFrom(s, ReceiveSettle(s, m, now).0, None)
    ensures ReceiveSettle(s, m, now).0.id == s.id
  {
  }

  lemma TradePools(s: State, e: Event)
    requires s.Valid() && Enabled(s, e)
    requires !e.ReportEvent? && !e.SettleEvent? && !e.SweepEvent? && !e.PenalizeEvent?
    ensures Step(s, e).0.reputation == s.reputation
    ensures Step(s, e).0.id == s.id
  {
  }

  lemma QuietPools(s: State, e: Event)
    requires s.Valid() && Enabled(s, e) && !e.ReportEvent?
    ensures PoolsFrom(s, Step(s, e).0, None)
    ensures Step(s, e).0.id == s.id
  {
    match e
    case SettleEvent(m, now) => SettlePools(s, m, now);
    case PenalizeEvent(peer, now) => JudgedPools(s, peer, 0.0, now);
    case SweepEvent(now, timeout, acceptedOrder, proposedOrder) =>
      var t := Step(s, e).0;
      forall p | p in t.reputation ensures t.reputation[p].hearsay == RecordOf(s.reputation, p).hearsay {
        SweepPools(s.reputation, SweepBlames(s, acceptedOrder, proposedOrder), now, s.decay, p);
      }
    case _ => TradePools(s, e);
  }

  // ----- every reachable world -----

  lemma ReportKeeps(w: World, m: SignedMessage, now: nat)
    requires Inv(w) && Possible(w, NodeActs(ReportEvent(m, now)))
    ensures Inv(Next(w, NodeActs(ReportEvent(m, now))))
  {
    var v := Next(w, NodeActs(ReportEvent(m, now)));
    var (s1, claim) := ReportClaim(w.node, m, now);
    ReportKeepsValid(w.node, m, now);
    ClaimIsSigned(w, m, now);
    hide ReportClaim;
    if claim.Ok? && claim.value.Some? {
      var c := claim.value.value;
      FoldPools(w.node, s1, c, now);
      assert (c.origin, s1.pins[c.origin]) in Bindings(v.node);
    }
    forall subject, origin | subject in v.node.reputation && origin in v.node.reputation[subject].hearsay
      ensures Vouched(v, subject, origin, v.node.reputation[subject].hearsay[origin])
    {
      if subject in w.node.reputation && origin in w.node.reputation[subject].hearsay
         && v.node.reputation[subject].hearsay[origin] == w.node.reputation[subject].hearsay[origin] {
        VouchedStable(w, v, subject, origin, w.node.reputation[subject].hearsay[origin]);
      }
    }
  }

  lemma NextKeeps(w: World, e: WorldEvent)
    requires Inv(w) && Possible(w, e)
    ensures Inv(Next(w, e))
  {
    var v := Next(w, e);
    if e.NodeActs? && e.event.ReportEvent? {
      ReportKeeps(w, e.event.msg, e.event.now);
    } else {
      if e.NodeActs? {
        StepKeepsValid(w.node, e.event);
        QuietPools(w.node, e.event);
      }
      hide Step;
      forall subject, origin | subject in v.node.reputation && origin in v.node.reputation[subject].hearsay
        ensures Vouched(v, subject, origin, v.node.reputation[subject].hearsay[origin])
      {
        VouchedStable(w, v, subject, origin, w.node.reputation[subject].hearsay[origin]);
      }
    }
  }

  ghost predicate Feasible(w: World, run: seq<WorldEvent>)
    decreases |run|
  {
    run == [] || (Possible(w, run[0]) && Feasible(Next(w, run[0]), run[1..]))
  }

  ghost function Later(w: World, run: seq<WorldEvent>): World
    requires Feasible(w, run)
    decreases |run|
  {
    if run == [] then w else Later(Next(w, run[0]), run[1..])
  }

  /// A negotiator that has heard nothing yet.
  ghost predicate Unheard(w: World) {
    && w.node.Valid()
    && w.everPinned == Bindings(w.node)
    && forall p :: p in w.node.reputation ==> w.node.reputation[p].hearsay == map[]
  }

  /// In every reachable world each hearsay entry records, under its origin's name, a claim
  /// about that subject which the holder of a key bound to that origin really signed.
  lemma {:induction false} HearsayIsVouched(w: World, run: seq<WorldEvent>)
    requires Inv(w) && Feasible(w, run)
    ensures Inv(Later(w, run))
    decreases |run|
  {
    if run != [] {
      NextKeeps(w, run[0]);
      HearsayIsVouched(Next(w, run[0]), run[1..]);
    }
  }

  lemma UnheardInv(w: World)
    requires Unheard(w)
    ensures Inv(w)
  {
  }

  /// Every binding this negotiator ever held for `origin` is the one it holds now.
  ghost predicate OneBinding(w: World, origin: AgentId) {
    forall k :: (origin, k) in w.everPinned ==> origin in w.node.pins && w.node.pins[origin] == k
  }

  /// Nobody re-pins `origin` out of band once it is bound, be it by hand or on first use.
  ghost predicate NeverRebinds(w: World, run: seq<WorldEvent>, origin: AgentId)
    requires Feasible(w, run)
    decreases |run|
  {
    run == []
    || (&& (run[0].NodeActs? && run[0].event.PinEvent? && run[0].event.agent == origin && origin in w.node.pins ==>
              run[0].event.key == w.node.pins[origin])
        && NeverRebinds(Next(w, run[0]), run[1..], origin))
  }

  lemma StepKeepsPin(s: State, e: Event, origin: AgentId)
    requires s.Valid() && Enabled(s, e)
    requires origin in s.pins
    ensures origin in Step(s, e).0.pins
    ensures !(e.PinEvent? && e.agent == origin) ==> Step(s, e).0.pins[origin] == s.pins[origin]
    ensures e.PinEvent? && e.agent == origin ==> Step(s, e).0.pins[origin] == e.key
  {
    hide Record.WithOutcome, FulfillmentRatio, PoolWith, Record.Blacklisted;
  }

  lemma {:induction false} BindingHolds(w: World, run: seq<WorldEvent>, origin: AgentId)
    requires Feasible(w, run) && NeverRebinds(w, run, origin)
    requires OneBinding(w, origin) && Bindings(w.node) <= w.everPinned
    ensures var v := Later(w, run);
      && OneBinding(v, origin)
      && (origin in w.node.pins ==> origin in v.node.pins && v.node.pins[origin] == w.node.pins[origin])
    decreases |run|
  {
    if run != [] {
      var v := Next(w, run[0]);
      if run[0].NodeActs? && origin in w.node.pins {
        StepKeepsPin(w.node, run[0].event, origin);
      }
      hide Step, Possible;
      assert OneBinding(v, origin) by {
        forall k | (origin, k) in v.everPinned ensures origin in v.node.pins && v.node.pins[origin] == k {
          if (origin, k) in w.everPinned {
            assert origin in w.node.pins;
          }
        }
      }
      assert Bindings(v.node) <= v.everPinned;
      BindingHolds(v, run[1..], origin);
    }
  }

  /// Against arbitrary relayers: as long as nobody re-pins an origin, every entry kept under its
  /// name is a claim signed under the one key it is bound to, whether that key was pinned by hand
  /// or on first use, before the run or during it.
  lemma {:induction false} OnlyTheOriginSpeaks(w: World, run: seq<WorldEvent>, origin: AgentId, subject: AgentId)
    requires Unheard(w) && Feasible(w, run) && NeverRebinds(w, run, origin)
    requires subject in Later(w, run).node.reputation
    requires origin in Later(w, run).node.reputation[subject].hearsay
    ensures var v := Later(w, run);
      var h := v.node.reputation[subject].hearsay[origin];
      && 1 <= h.hops <= MAX_HOPS && origin != subject && subject != v.node.id
      && origin in v.node.pins
      && (origin in w.node.pins ==> v.node.pins[origin] == w.node.pins[origin])
      && exists payload :: (v.node.pins[origin], payload) in v.signed && Backs(payload, subject, h)
  {
    UnheardInv(w);
    HearsayIsVouched(w, run);
    BindingHolds(w, run, origin);
    var v := Later(w, run);
    var h := v.node.reputation[subject].hearsay[origin];
    hide Later, Feasible, NeverRebinds;
    assert Vouched(v, subject, origin, h);
    var k, payload :| (origin, k) in v.everPinned && (k, payload) in v.signed && Backs(payload, subject, h);
  }

  // ----- chains of relays -----

  /// `chain[0]` is a direct report and each later message is a relay of the one before,
  /// signed by anyone.
  ghost predicate RelayChain(chain: seq<SignedMessage>, relayers: seq<State>) {
    && |chain| == |relayers| + 1
    && chain[0].payload.decoded.Some? && chain[0].payload.decoded.value.ReputationReport?
    && forall i :: 0 <= i < |relayers| ==> RelayReputationReport(relayers[i], chain[i]) == Some(chain[i + 1])
  }

  /// A chain has at most two relays, and every relay carries the original unchanged.
  lemma {:induction false} RelayBound(chain: seq<SignedMessage>, relayers: seq<State>, i: nat)
    requires RelayChain(chain, relayers) && 1 <= i < |chain|
    ensures i <= 2
    ensures chain[i].payload.decoded == Some(RelayedReputationReport(
              chain[0].payload.decoded.value.subject, chain[0].signer, i + 1, Intact(chain[0])))
    decreases i
  {
    assert RelayReputationReport(relayers[i - 1], chain[i - 1]) == Some(chain[i]);
    if i > 1 {
      RelayBound(chain, relayers, i - 1);
    }
  }

  /// Whoever receives a message of the chain and finds a claim in it finds the original's.
  lemma RelayCarriesClaim(chain: seq<SignedMessage>, relayers: seq<State>, i: nat, listener: State, now: nat)
    requires RelayChain(chain, relayers) && i < |chain|
    ensures var r := ReportClaim(listener, chain[i], now).1;
      r.Ok? && r.value.Some? ==>
        var report := chain[0].payload.decoded.value;
        r.value.value == Claim(report.subject, chain[0].signer, report.trust, report.asOfCycle, i + 1)
  {
    if i > 0 {
      RelayBound(chain, relayers, i);
    }
  }
}
