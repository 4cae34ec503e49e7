/// The alphabet of the barter protocol: messages, their signed envelopes and
/// the size guard applied before decoding.
///
/// Cryptography is symbolic. A signature is the pair of the key that made it
/// and the payload it covers; anything else is `Forged` and never verifies.
/// Byte strings are represented by what they decode to, together with their length.
module Messages {
  import opened Core

  const MAX_MESSAGE_BYTES: nat := 64 * 1024

  datatype PublicKey = PublicKey(bytes: seq<byte>)

  datatype BarterMessage =
    | Offer(gives: Resource, wants: Resource, nonce: nat)
    | Accept(gives: Resource, wants: Resource, nonce: nat)
    | Settle(gives: Resource, wants: Resource, nonce: nat)
    | ReputationReport(subject: AgentId, trust: real, dings: nat, asOfCycle: nat)
    | RelayedReputationReport(subject: AgentId, origin: AgentId, hops: nat, provenance: Provenance)

  /// Bytes that either decode to a signed message or do not.
  datatype Provenance = Intact(inner: SignedMessage) | Corrupt(corruptLength: nat)

  /// Bytes that either decode to a barter message or do not.
  datatype Payload = Payload(decoded: Option<BarterMessage>, length: nat)

  datatype Signature = Signed(key: PublicKey, payload: Payload) | Forged(bytes: seq<byte>)

  datatype SignedMessage = SignedMessage(
    signer: AgentId,
    publicKey: PublicKey,
    payload: Payload,
    signature: Signature)
  {
    /// The inner message, provided the payload is within the size limit and decodes.
    function Message(): (r: Result<BarterMessage>)
      ensures r.Ok? <==> payload.length <= MAX_MESSAGE_BYTES && payload.decoded.Some?
      ensures r.Ok? ==> payload.decoded == Some(r.value)
    {
      if payload.length > MAX_MESSAGE_BYTES then Err(InvalidError)
      else if payload.decoded.None? then Err(EncodeError)
      else Ok(payload.decoded.value)
    }
  }

  predicate VerifySignature(key: PublicKey, payload: Payload, signature: Signature) {
    signature == Signed(key, payload)
  }

  /// Bytes of a little-endian base-128 integer.
  function VarintLength(n: nat): nat {
    if n < 128 then 1 else 1 + VarintLength(n / 128)
  }

  function BlobLength(n: nat): nat {
    VarintLength(n) + n
  }

  function ResourceLength(r: Resource): nat {
    1 + 8 + BlobLength(|r.unit|)
  }

  function SignatureLength(s: Signature): nat {
    match s
    case Signed(_, _) => 64
    case Forged(bytes) => |bytes|
  }

  function EnvelopeLength(sm: SignedMessage): nat {
    AGENT_ID_LEN + BlobLength(|sm.publicKey.bytes|) + BlobLength(sm.payload.length)
    + BlobLength(SignatureLength(sm.signature))
  }

  function ProvenanceLength(p: Provenance): nat {
    match p
    case Intact(inner) => EnvelopeLength(inner)
    case Corrupt(n) => n
  }

  /// Size of a message's wire encoding.
  function WireLength(msg: BarterMessage): nat {
    1 + match msg
    case Offer(gives, wants, nonce) => ResourceLength(gives) + ResourceLength(wants) + VarintLength(nonce)
    case Accept(gives, wants, nonce) => ResourceLength(gives) + ResourceLength(wants) + VarintLength(nonce)
    case Settle(gives, wants, nonce) => ResourceLength(gives) + ResourceLength(wants) + VarintLength(nonce)
    case ReputationReport(_, _, dings, asOf) => AGENT_ID_LEN + 8 + VarintLength(dings) + VarintLength(asOf)
    case RelayedReputationReport(_, _, hops, provenance) =>
      2 * AGENT_ID_LEN + VarintLength(hops) + BlobLength(ProvenanceLength(provenance))
  }

  /// Sign `msg` as `id`, holding `key`.
  function SignAs(id: AgentId, key: PublicKey, msg: BarterMessage): SignedMessage {
    var payload := Payload(Some(msg), WireLength(msg));
    SignedMessage(id, key, payload, Signed(key, payload))
  }
}
