/// How large the protocol's messages are on the wire, and that ordinary ones pass the size guard.
module WireSizes {
  import opened Core
  import opened Messages
  import opened CheckpointFormat

  /// The size counted for an integer is that of its encoding.
  lemma {:induction false} VarintLengthIs(n: nat)
    ensures VarintLength(n) == |VarintBytes(n)|
  {
    if n >= 128 {
      VarintLengthIs(n / 128);
    }
  }

  function Power128(k: nat): nat {
    if k == 0 then 1 else 128 * Power128(k - 1)
  }

  lemma {:induction false} VarintFits(n: nat, k: nat)
    requires k > 0 && n < Power128(k)
    ensures 1 <= VarintLength(n) <= k
    decreases k
  {
    if n >= 128 {
      assert k > 1;
      VarintFits(n / 128, k - 1);
    }
  }

  lemma {:induction false} IntegersFit(n: nat)
    ensures n < 0x1_0000_0000_0000_0000 ==> VarintLength(n) <= 10
    ensures n <= MAX_MESSAGE_BYTES ==> VarintLength(n) <= 3
  {
    assert Power128(3) == 2097152;
    assert Power128(6) == 2097152 * 2097152;
    assert Power128(9) == 2097152 * 2097152 * 2097152;
    if n < 0x1_0000_0000_0000_0000 { VarintFits(n, 10); }
    if n <= MAX_MESSAGE_BYTES { VarintFits(n, 3); }
  }

  /// A trade message is its tag, two resources of a kind, a quantity and a unit each, and the
  /// nonce; with units of up to 32000 characters it always passes the guard.
  lemma {:induction false} TradesFit(gives: Resource, wants: Resource, nonce: nat)
    ensures WireLength(Offer(gives, wants, nonce))
         == 1 + (9 + |VarintBytes(|gives.unit|)| + |gives.unit|) + (9 + |VarintBytes(|wants.unit|)| + |wants.unit|) + |VarintBytes(nonce)|
    ensures WireLength(Accept(gives, wants, nonce)) == WireLength(Offer(gives, wants, nonce))
    ensures WireLength(Settle(gives, wants, nonce)) == WireLength(Offer(gives, wants, nonce))
    ensures |gives.unit| <= 32000 && |wants.unit| <= 32000 && nonce < 0x1_0000_0000_0000_0000 ==>
      WireLength(Offer(gives, wants, nonce)) <= 65536
  {
    VarintLengthIs(|gives.unit|);
    VarintLengthIs(|wants.unit|);
    VarintLengthIs(nonce);
    IntegersFit(|gives.unit|);
    IntegersFit(|wants.unit|);
    IntegersFit(nonce);
    hide VarintLength, VarintBytes;
  }

  /// A reputation report takes at most 61 bytes.
  lemma {:induction false} ReportsFit(subject: AgentId, trust: real, dings: nat, asOfCycle: nat)
    requires dings < 0x1_0000_0000_0000_0000 && asOfCycle < 0x1_0000_0000_0000_0000
    ensures WireLength(ReputationReport(subject, trust, dings, asOfCycle)) == 41 + |VarintBytes(dings)| + |VarintBytes(asOfCycle)| <= 61
  {
    VarintLengthIs(dings);
    VarintLengthIs(asOfCycle);
    IntegersFit(dings);
    IntegersFit(asOfCycle);
    hide VarintLength, VarintBytes;
  }

  /// A relay is its tag, two identities, the distance and the whole original in an envelope of
  /// identity, key, payload and a signature of 64 bytes; an original of ordinary size with an
  /// ordinary key passes the guard.
  lemma {:induction false} RelaysFit(subject: AgentId, origin: AgentId, hops: nat, original: SignedMessage)
    requires original.signature.Signed? && hops <= 3
    requires |original.publicKey.bytes| <= 1000 && original.payload.length <= 1000
    ensures var envelope := 32 + (VarintLength(|original.publicKey.bytes|) + |original.publicKey.bytes|)
        + (VarintLength(original.payload.length) + original.payload.length) + 65;
      && WireLength(RelayedReputationReport(subject, origin, hops, Intact(original))) == 66 + VarintLength(envelope) + envelope
      && WireLength(RelayedReputationReport(subject, origin, hops, Intact(original))) <= 65536
  {
    assert VarintLength(hops) == 1 && VarintLength(64) == 1;
    IntegersFit(|original.publicKey.bytes|);
    IntegersFit(original.payload.length);
    hide VarintLength;
    IntegersFit(EnvelopeLength(original));
  }
}
