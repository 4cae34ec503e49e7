/// Timeout sweeps are exact and do not depend on the order in which a hash map
/// hands out its entries.
module Sweeps {
  import opened Core
  import opened RealMath
  import opened Reputation
  import opened ReputationLaws
  import opened NegotiatorSpec

  /// How often `peer` occurs.
  function Count(peers: seq<AgentId>, peer: AgentId): nat {
    multiset(peers)[peer]
  }

  lemma CountLast(peers: seq<AgentId>, peer: AgentId)
    requires peers != []
    ensures Count(peers, peer) == Count(peers[..|peers| - 1], peer) + (if peers[|peers| - 1] == peer then 1 else 0)
  {
    assert peers == peers[..|peers| - 1] + [peers[|peers| - 1]];
  }

  lemma CountConcat(a: seq<AgentId>, b: seq<AgentId>, peer: AgentId)
    ensures Count(a + b, peer) == Count(a, peer) + Count(b, peer)
  {
  }

  // ----- whom a sweep blames -----

  /// The expired trades held with `peer`.
  function ExpiredWith(trades: Trades, now: nat, timeout: nat, peer: AgentId): set<nat> {
    set n | n in Expired(trades, now, timeout) && trades[n].counterparty == Some(peer)
  }

  function Elements(order: seq<nat>): set<nat> {
    set n | n in order
  }

  lemma {:induction false} ElementsOneMore(order: seq<nat>, of: set<nat>)
    requires order != []
    requires forall i, j :: 0 <= i < j < |order| ==> order[i] != order[j]
    ensures |Elements(order) * of|
         == |Elements(order[..|order| - 1]) * of| + (if order[|order| - 1] in of then 1 else 0)
  {
    var init, n := order[..|order| - 1], order[|order| - 1];
    assert n !in Elements(init);
    assert order == init + [n];
    assert Elements(order) * of == Elements(init) * of + (if n in of then {n} else {});
  }

  lemma {:induction false} BlamedCount(trades: Trades, order: seq<nat>, peer: AgentId)
    requires forall n :: n in order ==> n in trades
    requires forall i, j :: 0 <= i < j < |order| ==> order[i] != order[j]
    ensures Count(Blamed(trades, order), peer) == |Elements(order) * HeldWith(trades, peer)|
  {
    if order == [] {
      assert Elements(order) * HeldWith(trades, peer) == {};
    } else {
      var init, n := order[..|order| - 1], order[|order| - 1];
      BlamedCount(trades, init, peer);
      ElementsOneMore(order, HeldWith(trades, peer));
      hide Elements;
      CountConcat(Blamed(trades, init), if trades[n].counterparty.Some? then [trades[n].counterparty.value] else [], peer);
    }
  }

  lemma BlamedExpired(trades: Trades, order: seq<nat>, now: nat, timeout: nat, peer: AgentId)
    requires Enumerates(order, Expired(trades, now, timeout))
    ensures Count(Blamed(trades, order), peer) == |ExpiredWith(trades, now, timeout, peer)|
  {
    BlamedCount(trades, order, peer);
    assert Elements(order) * HeldWith(trades, peer) == ExpiredWith(trades, now, timeout, peer);
  }

  /// The trades whose counterparty is known.
  function BoundIn(trades: Trades): set<nat> {
    set n | n in trades && trades[n].counterparty.Some?
  }

  lemma {:induction false} BlamedLength(trades: Trades, order: seq<nat>)
    requires forall n :: n in order ==> n in trades
    requires forall i, j :: 0 <= i < j < |order| ==> order[i] != order[j]
    ensures |Blamed(trades, order)| == |Elements(order) * BoundIn(trades)|
  {
    if order == [] {
      assert Elements(order) * BoundIn(trades) == {};
    } else {
      BlamedLength(trades, order[..|order| - 1]);
      ElementsOneMore(order, BoundIn(trades));
      hide Elements;
    }
  }

  /// A sweep reports one entry per expired trade with a known counterparty.
  lemma SweepReportsEach(s: State, now: nat, timeout: nat, acceptedOrder: seq<nat>, proposedOrder: seq<nat>)
    requires SweepOrders(s, now, timeout, acceptedOrder, proposedOrder)
    ensures |SweepBlames(s, acceptedOrder, proposedOrder)|
         == |Expired(s.accepted, now, timeout) * BoundIn(s.accepted)|
            + |Expired(s.proposed, now, timeout) * BoundIn(s.proposed)|
  {
    BlamedLength(s.accepted, acceptedOrder);
    BlamedLength(s.proposed, proposedOrder);
    assert Elements(acceptedOrder) == Expired(s.accepted, now, timeout);
    assert Elements(proposedOrder) == Expired(s.proposed, now, timeout);
  }

  // ----- what the blamed peers are left with -----

  /// `m` full failures at `now` on top of `rec`.
  function Punished(rec: Record, m: nat, now: nat, decay: Decay): Record {
    if m == 0 then rec
    else
      Record(
        rec.DecayedDirect(now, decay).0,
        rec.DecayedDirect(now, decay).1 + m as real,
        rec.dings + m,
        rec.DecayedFailureWeight(now, decay) + m as real,
        rec.hearsay,
        now)
  }

  lemma PunishedOnce(rec: Record, m: nat, now: nat, decay: Decay)
    ensures Punished(rec, m, now, decay).WithOutcome(0.0, now, decay) == Punished(rec, m + 1, now, decay)
  {
    assert DecayFactor(0, decay) == 1.0;
    if m > 0 {
      var p := Punished(rec, m, now, decay);
      assert p.DecayedDirect(now, decay).0 == p.directSuccesses;
      assert p.DecayedDirect(now, decay).1 == p.directFailures;
      assert p.DecayedFailureWeight(now, decay) == p.directFailureWeight;
    }
  }

  lemma {:induction false} PenalizeAllExact(reps: Reputations, peers: seq<AgentId>, now: nat, decay: Decay, p: AgentId)
    ensures RecordOf(PenalizeAll(reps, peers, now, decay), p) == Punished(RecordOf(reps, p), Count(peers, p), now, decay)
    ensures p in PenalizeAll(reps, peers, now, decay) <==> p in reps || p in peers
  {
    if peers == [] {
    } else {
      var init, last := peers[..|peers| - 1], peers[|peers| - 1];
      PenalizeAllExact(reps, init, now, decay, p);
      CountLast(peers, p);
      assert p in peers <==> p in init || p == last;
      if p == last {
        PunishedOnce(RecordOf(reps, p), Count(init, p), now, decay);
      }
      hide Record.WithOutcome, Punished;
    }
  }

  /// After a sweep exactly the unexpired trades are left, and each peer has gained exactly one
  /// ding and one unit of failure weight per expired trade it was bound to, decayed to now.
  lemma SweepExact(s: State, now: nat, timeout: nat, acceptedOrder: seq<nat>, proposedOrder: seq<nat>, p: AgentId, n: nat)
    requires SweepOrders(s, now, timeout, acceptedOrder, proposedOrder)
    ensures var t := Sweep(s, now, timeout, acceptedOrder, proposedOrder);
      var m := |ExpiredWith(s.accepted, now, timeout, p)| + |ExpiredWith(s.proposed, now, timeout, p)|;
      && (n in t.accepted <==> n in s.accepted && SaturatingSub(now, s.accepted[n].openedAt) < timeout)
      && (n in t.proposed <==> n in s.proposed && SaturatingSub(now, s.proposed[n].openedAt) < timeout)
      && t == s.(accepted := t.accepted, proposed := t.proposed, reputation := t.reputation)
      && RecordOf(t.reputation, p) == Punished(RecordOf(s.reputation, p), m, now, s.decay)
  {
    hide Punished, PenalizeAll, ExpiredWith, Count, RecordOf, Blamed;
    BlamedExpired(s.accepted, acceptedOrder, now, timeout, p);
    BlamedExpired(s.proposed, proposedOrder, now, timeout, p);
    CountConcat(Blamed(s.accepted, acceptedOrder), Blamed(s.proposed, proposedOrder), p);
    PenalizeAllExact(s.reputation, SweepBlames(s, acceptedOrder, proposedOrder), now, s.decay, p);
  }

  /// Whatever order the tables are walked in, the sweep ends in the same state.
  lemma SweepOrderIrrelevant(s: State, now: nat, timeout: nat,
                             a: seq<nat>, b: seq<nat>, a': seq<nat>, b': seq<nat>)
    requires SweepOrders(s, now, timeout, a, b) && SweepOrders(s, now, timeout, a', b')
    ensures Sweep(s, now, timeout, a, b) == Sweep(s, now, timeout, a', b')
  {
    var x := Sweep(s, now, timeout, a, b).reputation;
    var y := Sweep(s, now, timeout, a', b').reputation;
    forall p ensures p in x <==> p in y ensures p in x ==> x[p] == y[p] {
      SameRecord(s, now, timeout, a, b, a', b', p);
    }
    assert x == y;
  }

  lemma SameRecord(s: State, now: nat, timeout: nat, a: seq<nat>, b: seq<nat>, a': seq<nat>, b': seq<nat>, p: AgentId)
    requires SweepOrders(s, now, timeout, a, b) && SweepOrders(s, now, timeout, a', b')
    ensures var x := Sweep(s, now, timeout, a, b).reputation;
      var y := Sweep(s, now, timeout, a', b').reputation;
      (p in x <==> p in y) && RecordOf(x, p) == RecordOf(y, p)
  {
    SweepExact(s, now, timeout, a, b, p, 0);
    SweepExact(s, now, timeout, a', b', p, 0);
    PenalizeAllExact(s.reputation, SweepBlames(s, a, b), now, s.decay, p);
    PenalizeAllExact(s.reputation, SweepBlames(s, a', b'), now, s.decay, p);
    SameBlame(s, now, timeout, a, b, a', b', p);
    hide Punished, PenalizeAll, SweepBlames, SweepOrders, ExpiredWith, Count;
  }

  lemma SameBlame(s: State, now: nat, timeout: nat, a: seq<nat>, b: seq<nat>, a': seq<nat>, b': seq<nat>, p: AgentId)
    requires SweepOrders(s, now, timeout, a, b) && SweepOrders(s, now, timeout, a', b')
    ensures p in SweepBlames(s, a, b) <==> p in SweepBlames(s, a', b')
  {
    BlamedExpired(s.accepted, a, now, timeout, p);
    BlamedExpired(s.proposed, b, now, timeout, p);
    BlamedExpired(s.accepted, a', now, timeout, p);
    BlamedExpired(s.proposed, b', now, timeout, p);
    CountConcat(Blamed(s.accepted, a), Blamed(s.proposed, b), p);
    CountConcat(Blamed(s.accepted, a'), Blamed(s.proposed, b'), p);
    assert p in SweepBlames(s, a, b) <==> Count(SweepBlames(s, a, b), p) > 0;
    assert p in SweepBlames(s, a', b') <==> Count(SweepBlames(s, a', b'), p) > 0;
  }

  // ----- the reports -----

  lemma {:induction false} ReportAt(reps: Reputations, peers: seq<AgentId>, now: nat, decay: Decay, i: nat)
    requires AllSound(reps) && i < |peers|
    ensures |Reports(reps, peers, now, decay)| == |peers|
    ensures AllSound(PenalizeAll(reps, peers[..i + 1], now, decay))
    ensures var standing := StandingIn(PenalizeAll(reps, peers[..i + 1], now, decay), peers[i], now, decay);
      Reports(reps, peers, now, decay)[i] == BrokenBargain(peers[i], standing.trust, standing.dings)
  {
    var init := peers[..|peers| - 1];
    PenalizeAllSound(reps, peers[..i + 1], now, decay);
    if i < |peers| - 1 {
      ReportAt(reps, init, now, decay, i);
      assert init[..i + 1] == peers[..i + 1];
    } else {
      assert peers[..i + 1] == peers;
      if init != [] { ReportAt(reps, init, now, decay, 0); }
    }
  }

  /// Every entry of the report, a peer's only one or its last, shows the dings the peer had
  /// before plus one for each of its entries so far.
  lemma {:induction false} EntryShowsDings(reps: Reputations, peers: seq<AgentId>, now: nat, decay: Decay, i: nat)
    requires AllSound(reps) && i < |peers|
    ensures |Reports(reps, peers, now, decay)| == |peers|
    ensures Reports(reps, peers, now, decay)[i].peer == peers[i]
    ensures Reports(reps, peers, now, decay)[i].dingsAfter == RecordOf(reps, peers[i]).dings + Count(peers[..i + 1], peers[i])
  {
    ReportAt(reps, peers, now, decay, i);
    PenalizeAllExact(reps, peers[..i + 1], now, decay, peers[i]);
    assert peers[..i + 1][i] == peers[i];
    PunishedDings(RecordOf(reps, peers[i]), Count(peers[..i + 1], peers[i]), now, decay);
    hide Reports, PenalizeAll, Punished, Count, Record.Sound;
  }

  lemma PunishedSound(rec: Record, m: nat, now: nat, decay: Decay)
    requires rec.Sound()
    ensures Punished(rec, m, now, decay).Sound()
  {
    MulNonNeg(rec.directSuccesses, DecayFactor(SaturatingSub(now, rec.lastEventCycle), decay));
    MulNonNeg(rec.directFailures, DecayFactor(SaturatingSub(now, rec.lastEventCycle), decay));
    MulLe(DecayFactor(SaturatingSub(now, rec.lastEventCycle), decay), 1.0, rec.directFailureWeight);
  }

  lemma PunishedReads(rec: Record, m: nat, now: nat, decay: Decay)
    ensures Punished(rec, m, now, decay).DecayedDirect(now, decay).0 == rec.DecayedDirect(now, decay).0
    ensures Punished(rec, m, now, decay).DecayedDirect(now, decay).1 == rec.DecayedDirect(now, decay).1 + m as real
  {
    assert DecayFactor(0, decay) == 1.0;
  }

  /// And it shows the trust left then: the share of the decayed successes in all evidence, one
  /// failure for each of the peer's entries so far included.
  lemma {:induction false} EntryShowsTrust(reps: Reputations, peers: seq<AgentId>, now: nat, decay: Decay, i: nat)
    requires AllSound(reps) && i < |peers|
    ensures |Reports(reps, peers, now, decay)| == |peers|
    ensures var rec := RecordOf(reps, peers[i]);
      IsTrust(Reports(reps, peers, now, decay)[i].trustAfter,
        rec.DecayedDirect(now, decay).0 + HearsaySuccesses(rec.hearsay, now),
        rec.DecayedDirect(now, decay).1 + Count(peers[..i + 1], peers[i]) as real + HearsayFailures(rec.hearsay, now))
  {
    hide IsTrust, Reports, PenalizeAll, Punished, Count, Record.Snapshot, Record.DecayedDirect, HearsaySuccesses, HearsayFailures;
    ReportAt(reps, peers, now, decay, i);
    PenalizeAllExact(reps, peers[..i + 1], now, decay, peers[i]);
    assert peers[..i + 1][i] == peers[i];
    var rec, m := RecordOf(reps, peers[i]), Count(peers[..i + 1], peers[i]);
    assert rec.Sound();
    hide Record.Sound;
    PunishedTrust(rec, m, now, decay);
  }

  lemma {:induction false} PunishedTrust(rec: Record, m: nat, now: nat, decay: Decay)
    requires rec.Sound()
    ensures Punished(rec, m, now, decay).Sound()
    ensures IsTrust(Punished(rec, m, now, decay).Snapshot(now, decay).trust,
              rec.DecayedDirect(now, decay).0 + HearsaySuccesses(rec.hearsay, now),
              rec.DecayedDirect(now, decay).1 + m as real + HearsayFailures(rec.hearsay, now))
  {
    hide IsTrust, Record.Snapshot, Record.Sound, Record.DecayedDirect, HearsaySuccesses, HearsayFailures;
    PunishedSound(rec, m, now, decay);
    PunishedReads(rec, m, now, decay);
    SnapshotIsTrust(Punished(rec, m, now, decay), now, decay);
    assert Punished(rec, m, now, decay).hearsay == rec.hearsay;
  }

  lemma SmallerShare(n: real, d: real, k: real)
    requires n > 0.0 && d > 0.0 && k > 0.0
    ensures n / d > n / (d + k)
  {
    var p, q := n / d, n / (d + k);
    assert p * d == n && q * (d + k) == n;
    CrossDifference(q, d + k, p, d);
    assert (p - q) * ((d + k) * d) == n * k by { Distribute(d, k, n); }
    MulPos(n, k);
    MulPos(d + k, d);
    PosFactor(p - q, (d + k) * d);
  }

  lemma PosFactor(x: real, y: real)
    requires y > 0.0 && x * y > 0.0
    ensures x > 0.0
  {
    if x <= 0.0 {
      MulNonNeg(-x, y);
    }
  }

  /// More punishment, less trust.
  lemma PunishedTrustFalls(rec: Record, m: nat, k: nat, now: nat, decay: Decay)
    requires rec.Sound() && m < k
    ensures Punished(rec, m, now, decay).Sound() && Punished(rec, k, now, decay).Sound()
    ensures Punished(rec, m, now, decay).Snapshot(now, decay).trust > Punished(rec, k, now, decay).Snapshot(now, decay).trust
  {
    PunishedSound(rec, m, now, decay);
    PunishedSound(rec, k, now, decay);
    PunishedReads(rec, m, now, decay);
    PunishedReads(rec, k, now, decay);
    var a, b := Punished(rec, m, now, decay), Punished(rec, k, now, decay);
    assert a.hearsay == b.hearsay == rec.hearsay;
    TrustIs(a, now, decay);
    TrustIs(b, now, decay);
    hide Record.Snapshot, Record.DecayedDirect, Punished, HearsaySuccesses, HearsayFailures;
    var n := a.DecayedDirect(now, decay).0 + HearsaySuccesses(rec.hearsay, now) + 1.0;
    var d := n + (a.DecayedDirect(now, decay).1 + HearsayFailures(rec.hearsay, now));
    ShareOf(n, d, (k - m) as real, n + (b.DecayedDirect(now, decay).1 + HearsayFailures(rec.hearsay, now)));
  }

  lemma ShareOf(n: real, d: real, k: real, e: real)
    requires n > 0.0 && d > 0.0 && k > 0.0 && e == d + k
    ensures n / d > n / e
  {
    SmallerShare(n, d, k);
  }

  lemma CountPrefix(peers: seq<AgentId>, i: nat, j: nat, p: AgentId)
    requires i < j < |peers| && peers[j] == p
    ensures Count(peers[..i + 1], p) < Count(peers[..j + 1], p)
  {
    assert peers[..j + 1] == peers[..i + 1] + peers[i + 1..j + 1];
    CountConcat(peers[..i + 1], peers[i + 1..j + 1], p);
    assert peers[i + 1..j + 1][j - i - 1] == p;
    assert p in peers[i + 1..j + 1];
  }

  /// A peer's entries count its dings up one by one, and its trust strictly falls from each
  /// of its entries to the next.
  lemma ReportsEscalate(reps: Reputations, peers: seq<AgentId>, now: nat, decay: Decay, i: nat, j: nat)
    requires AllSound(reps) && i < j < |peers| && peers[i] == peers[j]
    ensures var reports := Reports(reps, peers, now, decay);
      && |reports| == |peers|
      && reports[i].peer == peers[i] && reports[j].peer == peers[j]
      && reports[i].dingsAfter == RecordOf(reps, peers[i]).dings + Count(peers[..i + 1], peers[i])
      && reports[j].dingsAfter == RecordOf(reps, peers[j]).dings + Count(peers[..j + 1], peers[j])
      && reports[i].dingsAfter < reports[j].dingsAfter
      && reports[i].trustAfter > reports[j].trustAfter
  {
    var p := peers[i];
    ReportAt(reps, peers, now, decay, i);
    ReportAt(reps, peers, now, decay, j);
    PenalizeAllExact(reps, peers[..i + 1], now, decay, p);
    PenalizeAllExact(reps, peers[..j + 1], now, decay, p);
    CountPrefix(peers, i, j, p);
    assert peers[..i + 1][i] == p && peers[..j + 1][j] == p;
    assert RecordOf(reps, p).Sound();
    PunishedTrustFalls(RecordOf(reps, p), Count(peers[..i + 1], p), Count(peers[..j + 1], p), now, decay);
    PunishedDings(RecordOf(reps, p), Count(peers[..i + 1], p), now, decay);
    PunishedDings(RecordOf(reps, p), Count(peers[..j + 1], p), now, decay);
    hide Reports, PenalizeAll, Punished, Count, Record.Sound;
  }

  lemma PunishedDings(rec: Record, m: nat, now: nat, decay: Decay)
    requires Punished(rec, m, now, decay).Sound()
    ensures Punished(rec, m, now, decay).Snapshot(now, decay).dings == rec.dings + m
  {
  }
}
