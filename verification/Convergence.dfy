/// Gossip convergence: which hearsay a batch of reports leaves does not depend on the
/// order, or on how often each of them arrives.
module Convergence {
  import opened Core
  import opened RealMath
  import opened Messages
  import opened Reputation
  import opened NegotiatorSpec
  import opened NegotiatorRuns
  import NonInterference

  function AsHearsay(c: Claim): Hearsay {
    Hearsay(Clamp(c.trust, 0.0, 1.0), c.asOfCycle, c.hops)
  }

  function Entry(reps: Reputations, subject: AgentId, origin: AgentId): Option<Hearsay> {
    if origin in RecordOf(reps, subject).hearsay then Some(RecordOf(reps, subject).hearsay[origin]) else None
  }

  function FoldAll(s: State, claims: seq<Claim>, now: nat): State {
    if claims == [] then s
    else FoldHearsay(FoldAll(s, claims[..|claims| - 1], now), claims[|claims| - 1], now)
  }

  /// `c` is a claim by `origin` about `subject` that this negotiator may keep.
  predicate Relevant(s: State, c: Claim, subject: AgentId, origin: AgentId, now: nat) {
    c.subject == subject && c.origin == origin && Admissible(s.id, c, now)
  }

  /// `c` is among the freshest relevant claims of the batch and not older than the prior entry.
  ghost predicate Wins(s: State, claims: seq<Claim>, c: Claim, subject: AgentId, origin: AgentId, now: nat, before: Option<Hearsay>) {
    && c in claims && Relevant(s, c, subject, origin, now)
    && (before.Some? ==> before.value.asOfCycle <= c.asOfCycle)
    && forall d :: d in claims && Relevant(s, d, subject, origin, now) ==> d.asOfCycle <= c.asOfCycle
  }

  /// `after` is the freshest among `before` and the batch; a claim wins over an entry of its own age.
  ghost predicate IsFreshest(s: State, claims: seq<Claim>, subject: AgentId, origin: AgentId, now: nat,
                             before: Option<Hearsay>, after: Option<Hearsay>) {
    || (after == before
        && forall c :: c in claims && Relevant(s, c, subject, origin, now) ==>
             before.Some? && c.asOfCycle < before.value.asOfCycle)
    || (exists c :: Wins(s, claims, c, subject, origin, now, before) && after == Some(AsHearsay(c)))
  }

  lemma FoldOneEntry(s: State, c: Claim, subject: AgentId, origin: AgentId, now: nat)
    ensures var before := Entry(s.reputation, subject, origin);
      var after := Entry(FoldHearsay(s, c, now).reputation, subject, origin);
      && FoldHearsay(s, c, now).id == s.id
      && after == if Relevant(s, c, subject, origin, now)
                     && (before.None? || c.asOfCycle >= before.value.asOfCycle)
                  then Some(AsHearsay(c)) else before
  {
  }

  lemma {:induction false} FoldKeepsFreshest(s: State, claims: seq<Claim>, subject: AgentId, origin: AgentId, now: nat)
    ensures FoldAll(s, claims, now).id == s.id
    ensures IsFreshest(s, claims, subject, origin, now,
              Entry(s.reputation, subject, origin),
              Entry(FoldAll(s, claims, now).reputation, subject, origin))
  {
    if claims != [] {
      var init, last := claims[..|claims| - 1], claims[|claims| - 1];
      FoldKeepsFreshest(s, init, subject, origin, now);
      FoldOneEntry(FoldAll(s, init, now), last, subject, origin, now);
      assert forall c :: c in claims <==> c in init || c == last;
      assert last in claims;
      hide FoldHearsay;
      var before := Entry(s.reputation, subject, origin);
      var middle := Entry(FoldAll(s, init, now).reputation, subject, origin);
      var after := Entry(FoldAll(s, claims, now).reputation, subject, origin);
      FreshestStep(s, init, claims, last, subject, origin, now, before, middle, after);
    }
  }

  lemma FreshestStep(s: State, init: seq<Claim>, claims: seq<Claim>, last: Claim,
                     subject: AgentId, origin: AgentId, now: nat,
                     before: Option<Hearsay>, middle: Option<Hearsay>, after: Option<Hearsay>)
    requires forall c :: c in claims <==> c in init || c == last
    requires IsFreshest(s, init, subject, origin, now, before, middle)
    requires after == if Relevant(s, last, subject, origin, now)
                         && (middle.None? || last.asOfCycle >= middle.value.asOfCycle)
                      then Some(AsHearsay(last)) else middle
    ensures IsFreshest(s, claims, subject, origin, now, before, after)
  {
    hide Admissible;
    if Relevant(s, last, subject, origin, now) && (middle.None? || last.asOfCycle >= middle.value.asOfCycle) {
      assert Wins(s, claims, last, subject, origin, now, before);
    } else if !(middle == before
        && forall c :: c in init && Relevant(s, c, subject, origin, now) ==>
             before.Some? && c.asOfCycle < before.value.asOfCycle) {
      var c :| Wins(s, init, c, subject, origin, now, before) && middle == Some(AsHearsay(c));
      assert Wins(s, claims, c, subject, origin, now, before);
    }
  }

  predicate SameAge(c: Claim, d: Claim) {
    c.subject == d.subject && c.origin == d.origin && c.asOfCycle == d.asOfCycle
  }

  /// Claims of one origin about one subject as of one cycle say one thing, at one distance.
  ghost predicate Consistent(claims: seq<Claim>) {
    forall c, d :: c in claims && d in claims && SameAge(c, d) ==> AsHearsay(c) == AsHearsay(d)
  }

  /// The claims that win for this subject and origin leave one entry.
  ghost predicate Agreed(s: State, claims: seq<Claim>, subject: AgentId, origin: AgentId, now: nat) {
    var before := Entry(s.reputation, subject, origin);
    forall c, d :: Wins(s, claims, c, subject, origin, now, before) && Wins(s, claims, d, subject, origin, now, before)
      ==> AsHearsay(c) == AsHearsay(d)
  }

  /// It is enough that claims of one age are one claim.
  lemma {:induction false} ConsistentAgrees(s: State, claims: seq<Claim>, subject: AgentId, origin: AgentId, now: nat)
    requires Consistent(claims)
    ensures Agreed(s, claims, subject, origin, now)
  {
    hide Admissible;
  }

  lemma {:induction false} FreshestIsUnique(s: State, a: seq<Claim>, b: seq<Claim>, subject: AgentId, origin: AgentId, now: nat,
                         x: Option<Hearsay>, y: Option<Hearsay>)
    requires forall c :: c in a <==> c in b
    requires Agreed(s, a, subject, origin, now)
    requires IsFreshest(s, a, subject, origin, now, Entry(s.reputation, subject, origin), x)
    requires IsFreshest(s, b, subject, origin, now, Entry(s.reputation, subject, origin), y)
    ensures x == y
  {
    hide Admissible, Entry;
    var before := Entry(s.reputation, subject, origin);
    assert forall c :: Wins(s, b, c, subject, origin, now, before) ==> Wins(s, a, c, subject, origin, now, before);
  }

  /// Reordering and repeating a batch of claims changes nothing that is kept, as long as those
  /// that win agree.
  lemma {:induction false} ClaimsConverge(s: State, a: seq<Claim>, b: seq<Claim>, now: nat, subject: AgentId)
    requires forall c :: c in a <==> c in b
    requires forall origin :: Agreed(s, a, subject, origin, now)
    ensures RecordOf(FoldAll(s, a, now).reputation, subject).hearsay
         == RecordOf(FoldAll(s, b, now).reputation, subject).hearsay
  {
    hide IsFreshest, FoldAll;
    var p := RecordOf(FoldAll(s, a, now).reputation, subject).hearsay;
    var q := RecordOf(FoldAll(s, b, now).reputation, subject).hearsay;
    forall origin ensures origin in p <==> origin in q
                  ensures origin in p ==> p[origin] == q[origin]
    {
      FoldKeepsFreshest(s, a, subject, origin, now);
      FoldKeepsFreshest(s, b, subject, origin, now);
      assert Agreed(s, a, subject, origin, now);
      FreshestIsUnique(s, a, b, subject, origin, now,
        Entry(FoldAll(s, a, now).reputation, subject, origin),
        Entry(FoldAll(s, b, now).reputation, subject, origin));
    }
  }

  /// The claim at `i` moved to the end.
  function Postponed(claims: seq<Claim>, i: nat): seq<Claim>
    requires i < |claims|
  {
    claims[..i] + claims[i + 1..] + [claims[i]]
  }

  lemma {:induction false} PostponedIsPermutation(claims: seq<Claim>, i: nat)
    requires i < |claims|
    ensures multiset(Postponed(claims, i)) == multiset(claims)
  {
    assert claims == claims[..i] + [claims[i]] + claims[i + 1..];
  }

  /// A winning claim that comes last is what is kept.
  lemma {:induction false} LastWins(s: State, claims: seq<Claim>, i: nat, subject: AgentId, origin: AgentId, now: nat)
    requires i < |claims|
    requires Wins(s, claims, claims[i], subject, origin, now, Entry(s.reputation, subject, origin))
    ensures Entry(FoldAll(s, Postponed(claims, i), now).reputation, subject, origin) == Some(AsHearsay(claims[i]))
  {
    hide Admissible, FoldHearsay, FoldAll, Entry;
    var rest, c := claims[..i] + claims[i + 1..], claims[i];
    assert forall d :: d in rest ==> d in claims;
    FoldKeepsFreshest(s, rest, subject, origin, now);
    FoldAllAppend(s, rest, c, now);
    FoldOneEntry(FoldAll(s, rest, now), c, subject, origin, now);
  }

  ghost predicate SameHearsay(t: State, u: State) {
    forall subject :: RecordOf(t.reputation, subject).hearsay == RecordOf(u.reputation, subject).hearsay
  }

  /// Every reordering of the batch leaves the same hearsay.
  ghost predicate OrderFree(s: State, claims: seq<Claim>, now: nat) {
    forall b: seq<Claim> :: multiset(b) == multiset(claims) ==> SameHearsay(FoldAll(s, b, now), FoldAll(s, claims, now))
  }

  lemma {:induction false} SameEntries(t: State, u: State, subject: AgentId, origin: AgentId)
    requires SameHearsay(t, u)
    ensures Entry(t.reputation, subject, origin) == Entry(u.reputation, subject, origin)
  {
    assert RecordOf(t.reputation, subject).hearsay == RecordOf(u.reputation, subject).hearsay;
    hide RecordOf;
  }

  lemma {:induction false} OrderFreeAgrees(s: State, claims: seq<Claim>, now: nat, subject: AgentId, origin: AgentId)
    requires OrderFree(s, claims, now)
    ensures Agreed(s, claims, subject, origin, now)
  {
    var before := Entry(s.reputation, subject, origin);
    var kept := Entry(FoldAll(s, claims, now).reputation, subject, origin);
    hide Entry, FoldAll, SameHearsay, AsHearsay, Relevant;
    forall c | Wins(s, claims, c, subject, origin, now, before) ensures Some(AsHearsay(c)) == kept {
      var i :| 0 <= i < |claims| && claims[i] == c;
      PostponedIsPermutation(claims, i);
      LastWins(s, claims, i, subject, origin, now);
      SameEntries(FoldAll(s, Postponed(claims, i), now), FoldAll(s, claims, now), subject, origin);
    }
  }

  /// Exactly when the order of a batch does not matter, for any batch: if and only if, for every
  /// subject and origin, the freshest relevant claims not older than the prior entry say the same
  /// at the same distance. The same claim heard over paths of different length does not.
  lemma {:induction false} OrderIrrelevantIff(s: State, claims: seq<Claim>, now: nat)
    ensures OrderFree(s, claims, now) <==> forall subject, origin :: Agreed(s, claims, subject, origin, now)
  {
    hide Agreed, FoldAll;
    if OrderFree(s, claims, now) {
      forall subject, origin ensures Agreed(s, claims, subject, origin, now) {
        OrderFreeAgrees(s, claims, now, subject, origin);
      }
    }
    if forall subject, origin :: Agreed(s, claims, subject, origin, now) {
      forall b: seq<Claim> | multiset(b) == multiset(claims)
        ensures SameHearsay(FoldAll(s, b, now), FoldAll(s, claims, now))
      {
        assert forall c :: c in claims <==> c in multiset(claims);
        assert forall c :: c in b <==> c in multiset(b);
        forall subject ensures RecordOf(FoldAll(s, b, now).reputation, subject).hearsay
                            == RecordOf(FoldAll(s, claims, now).reputation, subject).hearsay
        {
          ClaimsConverge(s, claims, b, now, subject);
        }
      }
    }
  }

  // ----- whole messages -----

  function ReceiveAll(s: State, reports: seq<SignedMessage>, now: nat): State {
    if reports == [] then s
    else ReceiveReport(ReceiveAll(s, reports[..|reports| - 1], now), reports[|reports| - 1], now).0
  }

  function ClaimFrom(s: State, m: SignedMessage, now: nat): Option<Claim> {
    match ReportClaim(s, m, now).1
    case Ok(c) => c
    case Err(_) => None
  }

  /// The claims a batch carries, each judged against the state before the batch.
  function ClaimsOf(s: State, reports: seq<SignedMessage>, now: nat): seq<Claim> {
    if reports == [] then []
    else
      ClaimsOf(s, reports[..|reports| - 1], now) + Listed(ClaimFrom(s, reports[|reports| - 1], now))
  }

  ghost predicate BatchOneKey(reports: seq<SignedMessage>, keyOf: NonInterference.KeyOf) {
    forall m :: m in reports ==> NonInterference.EventOneKey(ReportEvent(m, 0), keyOf)
  }

  lemma {:induction false} RelayedStable(s: State, t: State, subject: AgentId, origin: AgentId, hops: nat, provenance: Provenance,
      keyOf: NonInterference.KeyOf)
    requires NonInterference.TruePins(s, keyOf) && NonInterference.TruePins(t, keyOf)
    requires provenance.Intact? ==> NonInterference.OneKey(provenance.inner, keyOf)
    ensures RelayedClaim(s, subject, origin, hops, provenance).1 == RelayedClaim(t, subject, origin, hops, provenance).1
  {
  }

  /// What a message claims is settled by direct evidence and keys alone, so it does not
  /// depend on which reports came before it.
  lemma {:induction false} ClaimStable(s: State, t: State, m: SignedMessage, now: nat, keyOf: NonInterference.KeyOf)
    requires s.decay == t.decay
    requires NonInterference.SameDirect(s.reputation, t.reputation)
    requires NonInterference.TruePins(s, keyOf) && NonInterference.TruePins(t, keyOf)
    requires NonInterference.EventOneKey(ReportEvent(m, now), keyOf)
    ensures ReportClaim(s, m, now).1 == ReportClaim(t, m, now).1
  {
    var s1, t1 := Verify(s, m).0, Verify(t, m).0;
    assert OnlyPinsGrow(s, s1) && OnlyPinsGrow(t, t1);
    hide NonInterference.SameDirect, NonInterference.TruePins, NonInterference.OneKey, Verify, State.Blacklists, RelayedClaim;
    NonInterference.VerifyTwins(s, t, m, keyOf);
    NonInterference.BlacklistTwins(s1, t1, m.signer, now);
    if m.payload.decoded.Some? && m.payload.decoded.value.RelayedReputationReport? {
      var RelayedReputationReport(subject, origin, hops, provenance) := m.payload.decoded.value;
      RelayedStable(s1, t1, subject, origin, hops, provenance, keyOf);
    }
  }

  lemma {:induction false} ReceiveAllFolds(s: State, reports: seq<SignedMessage>, now: nat, keyOf: NonInterference.KeyOf)
    requires NonInterference.TruePins(s, keyOf) && BatchOneKey(reports, keyOf)
    ensures NonInterference.Twins(ReceiveAll(s, reports, now), s, keyOf)
    ensures ReceiveAll(s, reports, now).reputation == FoldAll(s, ClaimsOf(s, reports, now), now).reputation
    ensures FoldAll(s, ClaimsOf(s, reports, now), now).id == s.id
  {
    if reports != [] {
      var init, m := reports[..|reports| - 1], reports[|reports| - 1];
      assert m in reports;
      assert BatchOneKey(init, keyOf);
      ReceiveAllFolds(s, init, now, keyOf);
      hide ClaimsOf, FoldAll, BatchOneKey, NonInterference.EventOneKey;
      assert NonInterference.EventOneKey(ReportEvent(m, now), keyOf) by { BatchMember(reports, m, now, keyOf); }
      ReceiveOneMore(s, ReceiveAll(s, init, now), ClaimsOf(s, init, now), m, now, keyOf);
      assert ClaimsOf(s, reports, now) == ClaimsOf(s, init, now) + Listed(ClaimFrom(s, m, now)) by { ClaimsSplit(s, reports, now); }
    }
  }

  function Listed(c: Option<Claim>): seq<Claim> {
    match c
    case Some(claim) => [claim]
    case None => []
  }

  lemma ClaimsSplit(s: State, reports: seq<SignedMessage>, now: nat)
    requires reports != []
    ensures ClaimsOf(s, reports, now)
         == ClaimsOf(s, reports[..|reports| - 1], now) + Listed(ClaimFrom(s, reports[|reports| - 1], now))
  {
  }

  lemma BatchMember(reports: seq<SignedMessage>, m: SignedMessage, now: nat, keyOf: NonInterference.KeyOf)
    requires BatchOneKey(reports, keyOf) && m in reports
    ensures NonInterference.EventOneKey(ReportEvent(m, now), keyOf)
  {
    assert NonInterference.EventOneKey(ReportEvent(m, 0), keyOf);
  }

  lemma ReceiveOneMore(s: State, t: State, claims: seq<Claim>, m: SignedMessage, now: nat, keyOf: NonInterference.KeyOf)
    requires NonInterference.Twins(t, s, keyOf)
    requires NonInterference.EventOneKey(ReportEvent(m, now), keyOf)
    requires t.reputation == FoldAll(s, claims, now).reputation && FoldAll(s, claims, now).id == s.id
    ensures NonInterference.Twins(ReceiveReport(t, m, now).0, s, keyOf)
    ensures var more := claims + Listed(ClaimFrom(s, m, now));
      && ReceiveReport(t, m, now).0.reputation == FoldAll(s, more, now).reputation
      && FoldAll(s, more, now).id == s.id
  {
    NonInterference.ReportTwins(t, s, m, now, keyOf);
    assert ClaimFrom(t, m, now) == ClaimFrom(s, m, now) by { ClaimStable(t, s, m, now, keyOf); }
    hide FoldHearsay, ReportClaim, ReceiveReport, FoldAll, NonInterference.EventOneKey, NonInterference.SameDirect;
    FoldsAlike(t, FoldAll(s, claims, now), m, now, ClaimFrom(s, m, now));
    if ClaimFrom(s, m, now).Some? {
      FoldAllAppend(s, claims, ClaimFrom(s, m, now).value, now);
    } else {
      assert claims + Listed(ClaimFrom(s, m, now)) == claims;
    }
  }

  lemma FoldAllAppend(s: State, claims: seq<Claim>, c: Claim, now: nat)
    ensures FoldAll(s, claims + [c], now) == FoldHearsay(FoldAll(s, claims, now), c, now)
    ensures FoldAll(s, claims + [c], now).id == FoldAll(s, claims, now).id
  {
    assert (claims + [c])[..|claims|] == claims;
  }

  lemma FoldsAlike(t: State, u: State, m: SignedMessage, now: nat, claim: Option<Claim>)
    requires t.reputation == u.reputation && t.id == u.id
    requires ClaimFrom(t, m, now) == claim
    ensures ReceiveReport(t, m, now).0.reputation
         == if claim.Some? then FoldHearsay(u, claim.value, now).reputation else u.reputation
  {
    hide ReportClaim;
  }

  lemma {:induction false} ClaimsOfSame(s: State, reports: seq<SignedMessage>, now: nat, c: Claim)
    ensures c in ClaimsOf(s, reports, now) <==> exists m :: m in reports && ClaimFrom(s, m, now) == Some(c)
  {
    if reports != [] {
      ClaimsOfSame(s, reports[..|reports| - 1], now, c);
      assert forall m :: m in reports <==> m in reports[..|reports| - 1] || m == reports[|reports| - 1];
    }
  }

  /// Two deliveries of one batch of reports, in any order and with any repetitions, leave the
  /// same hearsay about everyone.
  lemma GossipConverges(s: State, a: seq<SignedMessage>, b: seq<SignedMessage>, now: nat,
                        keyOf: NonInterference.KeyOf, subject: AgentId)
    requires NonInterference.TruePins(s, keyOf) && BatchOneKey(a, keyOf)
    requires forall m :: m in a <==> m in b
    requires forall origin :: Agreed(s, ClaimsOf(s, a, now), subject, origin, now)
    ensures RecordOf(ReceiveAll(s, a, now).reputation, subject)
         == RecordOf(ReceiveAll(s, b, now).reputation, subject)
  {
    ReceiveAllFolds(s, a, now, keyOf);
    ReceiveAllFolds(s, b, now, keyOf);
    var x, y := ClaimsOf(s, a, now), ClaimsOf(s, b, now);
    forall c ensures c in x <==> c in y {
      ClaimsOfSame(s, a, now, c);
      ClaimsOfSame(s, b, now, c);
    }
    ClaimsConverge(s, x, y, now, subject);
    hide ReceiveAll, FoldAll;
    var r, q := RecordOf(ReceiveAll(s, a, now).reputation, subject), RecordOf(ReceiveAll(s, b, now).reputation, subject);
    assert NonInterference.Bare(r) == NonInterference.Bare(RecordOf(s.reputation, subject));
    assert NonInterference.Bare(q) == NonInterference.Bare(RecordOf(s.reputation, subject));
    assert r == NonInterference.Bare(r).(hearsay := r.hearsay) && q == NonInterference.Bare(q).(hearsay := q.hearsay);
  }
}
