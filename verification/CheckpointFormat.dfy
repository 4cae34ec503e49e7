/// The checkpoint envelope: a magic-prefixed, versioned byte format.
///
/// The body follows the Postcard wire format: little-endian base-128 integers, byte vectors
/// with a length in front, raw fixed-size arrays, and a one-byte tag for optional values.
module CheckpointFormat {
  import opened Core

  const CHECKPOINT_MAGIC: seq<byte> := [0x56, 0x43, 0x50, 0x31]

  const CHECKPOINT_VERSION: nat := 1

  const MAX_CHECKPOINT_BYTES: nat := 64 * 1024 * 1024

  type u32 = n: nat | n < 0x1_0000_0000

  type u64 = n: nat | n < 0x1_0000_0000_0000_0000

  type Blob = s: seq<byte> | |s| < 0x1_0000_0000_0000_0000

  datatype Checkpoint = Checkpoint(
    version: u32,
    agentId: AgentId,
    payload: Blob,
    createdSecs: u64,
    seal: Option<Blob>)

  /// Outcome of reading one value from the front of a byte string.
  datatype Reading<+T> = Read(value: T, rest: seq<byte>) | Malformed

  // ----- integers -----

  function VarintBytes(n: nat): (s: seq<byte>)
    ensures s != []
  {
    if n < 128 then [n as byte] else [(n % 128 + 128) as byte] + VarintBytes(n / 128)
  }

  /// Read at most `left` bytes; the last one allowed may not exceed `lastMax`.
  /// Leading zeros are accepted.
  function ReadVarint(s: seq<byte>, left: nat, lastMax: byte): (r: Reading<nat>)
    ensures r.Read? ==> |r.rest| < |s|
    decreases left
  {
    if left == 0 || s == [] then Malformed
    else if s[0] < 128 then
      if left == 1 && s[0] > lastMax then Malformed else Read(s[0] as nat, s[1..])
    else
      match ReadVarint(s[1..], left - 1, lastMax)
      case Read(high, rest) => Read(s[0] as nat - 128 + 128 * high, rest)
      case Malformed => Malformed
  }

  function VarintLimit(left: nat, lastMax: byte): nat {
    if left == 0 then 0 else if left == 1 then lastMax as nat + 1 else 128 * VarintLimit(left - 1, lastMax)
  }

  lemma {:induction false} VarintRoundTrip(n: nat, left: nat, lastMax: byte, tail: seq<byte>)
    requires lastMax < 128 && n < VarintLimit(left, lastMax)
    ensures ReadVarint(VarintBytes(n) + tail, left, lastMax) == Read(n, tail)
    decreases left
  {
    var s := VarintBytes(n) + tail;
    if n < 128 {
      assert s[1..] == tail;
    } else {
      VarintRoundTrip(n / 128, left - 1, lastMax, tail);
      assert s[1..] == VarintBytes(n / 128) + tail;
    }
  }

  /// What is read fits the type, and no shorter way to write it exists.
  lemma {:induction false} VarintIsShortest(s: seq<byte>, left: nat, lastMax: byte)
    requires lastMax < 128 && ReadVarint(s, left, lastMax).Read?
    ensures var r := ReadVarint(s, left, lastMax);
      r.value < VarintLimit(left, lastMax) && |VarintBytes(r.value)| + |r.rest| <= |s|
    decreases left
  {
    if s[0] < 128 {
      LimitAtLeast(left, lastMax);
    } else {
      VarintIsShortest(s[1..], left - 1, lastMax);
    }
  }

  lemma {:induction false} LimitAtLeast(left: nat, lastMax: byte)
    requires left > 0
    ensures left == 1 ==> VarintLimit(left, lastMax) == lastMax as nat + 1
    ensures left > 1 ==> VarintLimit(left, lastMax) >= 128
  {
    if left > 1 {
      LimitAtLeast(left - 1, lastMax);
    }
  }

  const U32_LEFT: nat := 5
  const U32_LAST: byte := 15
  const U64_LEFT: nat := 10
  const U64_LAST: byte := 1

  lemma {:induction false} Limits()
    ensures VarintLimit(U32_LEFT, U32_LAST) == 0x1_0000_0000
    ensures VarintLimit(U64_LEFT, U64_LAST) == 0x1_0000_0000_0000_0000
  {
    assert VarintLimit(3, U32_LAST) == 16 * 128 * 128;
    assert VarintLimit(3, U64_LAST) == 2 * 128 * 128;
    assert VarintLimit(6, U64_LAST) == 2 * 128 * 128 * 128 * 128 * 128;
    assert VarintLimit(8, U64_LAST) == 2 * 128 * 128 * 128 * 128 * 128 * 128 * 128;
  }

  function ReadU32(s: seq<byte>): (r: Reading<u32>) {
    match ReadVarint(s, U32_LEFT, U32_LAST)
    case Read(n, rest) =>
      Limits();
      VarintIsShortest(s, U32_LEFT, U32_LAST);
      Read(n, rest)
    case Malformed => Malformed
  }

  function ReadU64(s: seq<byte>): (r: Reading<u64>) {
    match ReadVarint(s, U64_LEFT, U64_LAST)
    case Read(n, rest) =>
      Limits();
      VarintIsShortest(s, U64_LEFT, U64_LAST);
      Read(n, rest)
    case Malformed => Malformed
  }

  // ----- byte vectors -----

  function BlobBytes(b: Blob): seq<byte> {
    VarintBytes(|b|) + b
  }

  function ReadBlob(s: seq<byte>): (r: Reading<Blob>) {
    match ReadU64(s)
    case Read(n, rest) => if |rest| < n then Malformed else Read(rest[..n], rest[n..])
    case Malformed => Malformed
  }

  function OptionalBytes(o: Option<Blob>): seq<byte> {
    match o
    case None => [0]
    case Some(b) => [1] + BlobBytes(b)
  }

  function ReadOptional(s: seq<byte>): (r: Reading<Option<Blob>>) {
    if s == [] then Malformed
    else if s[0] == 0 then Read(None, s[1..])
    else if s[0] == 1 then
      match ReadBlob(s[1..])
      case Read(b, rest) => Read(Some(b), rest)
      case Malformed => Malformed
    else Malformed
  }

  function ReadId(s: seq<byte>): (r: Reading<AgentId>) {
    if |s| < AGENT_ID_LEN then Malformed else Read(AgentId(s[..AGENT_ID_LEN]), s[AGENT_ID_LEN..])
  }

  lemma {:induction false} BlobRoundTrip(b: Blob, tail: seq<byte>)
    ensures ReadBlob(BlobBytes(b) + tail) == Read(b, tail)
  {
    Limits();
    VarintRoundTrip(|b|, U64_LEFT, U64_LAST, b + tail);
    assert BlobBytes(b) + tail == VarintBytes(|b|) + (b + tail);
    hide VarintBytes, ReadVarint, VarintLimit;
    assert (b + tail)[..|b|] == b && (b + tail)[|b|..] == tail;
  }

  lemma {:induction false} OptionalRoundTrip(o: Option<Blob>, tail: seq<byte>)
    ensures ReadOptional(OptionalBytes(o) + tail) == Read(o, tail)
  {
    hide ReadBlob, BlobBytes;
    var s := OptionalBytes(o) + tail;
    match o {
      case None => assert s[1..] == tail;
      case Some(b) =>
        BlobRoundTrip(b, tail);
        assert s[1..] == BlobBytes(b) + tail;
    }
  }

  lemma {:induction false} BlobIsShortest(s: seq<byte>)
    requires ReadBlob(s).Read?
    ensures |BlobBytes(ReadBlob(s).value)| + |ReadBlob(s).rest| <= |s|
  {
    VarintIsShortest(s, U64_LEFT, U64_LAST);
    hide VarintBytes, ReadVarint;
  }

  lemma {:induction false} OptionalIsShortest(s: seq<byte>)
    requires ReadOptional(s).Read?
    ensures |OptionalBytes(ReadOptional(s).value)| + |ReadOptional(s).rest| <= |s|
  {
    hide ReadBlob, BlobBytes;
    if s[0] == 1 {
      BlobIsShortest(s[1..]);
    }
  }

  // ----- the envelope -----

  function Body(c: Checkpoint): seq<byte> {
    VarintBytes(c.version) + (c.agentId.bytes + (BlobBytes(c.payload) + (VarintBytes(c.createdSecs) + OptionalBytes(c.seal))))
  }

  function ReadBody(s: seq<byte>): (r: Reading<Checkpoint>) {
    match ReadU32(s)
    case Malformed => Malformed
    case Read(version, s1) =>
      match ReadId(s1)
      case Malformed => Malformed
      case Read(id, s2) =>
        match ReadBlob(s2)
        case Malformed => Malformed
        case Read(payload, s3) =>
          match ReadU64(s3)
          case Malformed => Malformed
          case Read(created, s4) =>
            match ReadOptional(s4)
            case Malformed => Malformed
            case Read(seal, s5) => Read(Checkpoint(version, id, payload, created, seal), s5)
  }

  function New(agentId: AgentId, payload: Blob, createdSecs: u64): Checkpoint {
    Checkpoint(CHECKPOINT_VERSION, agentId, payload, createdSecs, None)
  }

  /// What gets signed: everything but the seal.
  function SignableBytes(c: Checkpoint): seq<byte> {
    Body(c.(seal := None))
  }

  function Serialized(c: Checkpoint): seq<byte> {
    CHECKPOINT_MAGIC + Body(c)
  }

  method ToBytes(c: Checkpoint) returns (out: seq<byte>)
    ensures out == Serialized(c)
  {
    out := CHECKPOINT_MAGIC;
    out := out + VarintBytes(c.version);
    out := out + c.agentId.bytes;
    out := out + BlobBytes(c.payload);
    out := out + VarintBytes(c.createdSecs);
    out := out + OptionalBytes(c.seal);
    hide VarintBytes, BlobBytes, OptionalBytes;
    assert out == Serialized(c);
  }

  /// Size, magic, body, version, in that order; bytes after the body are ignored.
  function FromBytes(bytes: seq<byte>): (r: Result<Checkpoint>) {
    if |bytes| > MAX_CHECKPOINT_BYTES then Err(InvalidError)
    else if |bytes| < |CHECKPOINT_MAGIC| then Err(InvalidError)
    else if bytes[..|CHECKPOINT_MAGIC|] != CHECKPOINT_MAGIC then Err(InvalidError)
    else
      match ReadBody(bytes[|CHECKPOINT_MAGIC|..])
      case Malformed => Err(EncodeError)
      case Read(c, _) => if c.version > CHECKPOINT_VERSION then Err(InvalidError) else Ok(c)
  }

  lemma {:induction false} U32RoundTrip(n: u32, tail: seq<byte>)
    ensures ReadU32(VarintBytes(n) + tail) == Read(n, tail)
  {
    Limits();
    VarintRoundTrip(n, U32_LEFT, U32_LAST, tail);
    hide VarintBytes, ReadVarint, VarintLimit;
  }

  lemma {:induction false} U64RoundTrip(n: u64, tail: seq<byte>)
    ensures ReadU64(VarintBytes(n) + tail) == Read(n, tail)
  {
    Limits();
    VarintRoundTrip(n, U64_LEFT, U64_LAST, tail);
    hide VarintBytes, ReadVarint, VarintLimit;
  }

  /// Reading back a body gives the checkpoint and leaves what follows untouched.
  lemma {:induction false} BodyRoundTrip(c: Checkpoint, tail: seq<byte>)
    ensures ReadBody(Body(c) + tail) == Read(c, tail)
  {
    hide VarintBytes, BlobBytes, OptionalBytes, ReadU32, ReadU64, ReadBlob, ReadOptional;
    var s4 := OptionalBytes(c.seal) + tail;
    var s3 := VarintBytes(c.createdSecs) + s4;
    var s2 := BlobBytes(c.payload) + s3;
    var s1 := c.agentId.bytes + s2;
    assert Body(c) + tail == VarintBytes(c.version) + s1;
    U32RoundTrip(c.version, s1);
    assert ReadId(s1) == Read(c.agentId, s2) by {
      assert s1[..AGENT_ID_LEN] == c.agentId.bytes && s1[AGENT_ID_LEN..] == s2;
    }
    BlobRoundTrip(c.payload, s3);
    U64RoundTrip(c.createdSecs, s4);
    OptionalRoundTrip(c.seal, tail);
  }

  /// A serialized checkpoint parses back to itself exactly if it is within the size limit and
  /// of a supported version; otherwise it is refused.
  lemma {:induction false} CheckpointRoundTrip(c: Checkpoint)
    ensures FromBytes(Serialized(c))
         == if |Serialized(c)| <= MAX_CHECKPOINT_BYTES && c.version <= CHECKPOINT_VERSION then Ok(c) else Err(InvalidError)
  {
    hide Body, ReadBody;
    BodyRoundTrip(c, []);
    assert Body(c) + [] == Body(c);
    assert Serialized(c)[..4] == CHECKPOINT_MAGIC && Serialized(c)[4..] == Body(c);
  }

  /// Signable bytes pin down everything but the seal.
  lemma {:induction false} SignableIsInjective(c: Checkpoint, d: Checkpoint)
    ensures SignableBytes(c) == SignableBytes(d) <==> c.(seal := None) == d.(seal := None)
  {
    hide Body, ReadBody;
    var c0, d0 := c.(seal := None), d.(seal := None);
    BodyRoundTrip(c0, []);
    BodyRoundTrip(d0, []);
    assert Body(c0) + [] == Body(c0) && Body(d0) + [] == Body(d0);
  }

  lemma {:induction false} BodyIsShortest(s: seq<byte>)
    requires ReadBody(s).Read?
    ensures |Body(ReadBody(s).value)| + |ReadBody(s).rest| <= |s|
  {
    hide VarintBytes, BlobBytes, OptionalBytes, ReadVarint, ReadBlob, ReadOptional;
    VarintIsShortest(s, U32_LEFT, U32_LAST);
    var s1 := ReadU32(s).rest;
    var s2 := ReadId(s1).rest;
    BlobIsShortest(s2);
    var s3 := ReadBlob(s2).rest;
    VarintIsShortest(s3, U64_LEFT, U64_LAST);
    OptionalIsShortest(ReadU64(s3).rest);
  }

  /// Whatever bytes were accepted (over-long integers, trailing bytes), writing the result out
  /// again takes no more room and is accepted as the same checkpoint.
  lemma {:induction false} AcceptedReencodes(bytes: seq<byte>)
    requires FromBytes(bytes).Ok?
    ensures var c := FromBytes(bytes).value;
      |Serialized(c)| <= |bytes| && FromBytes(Serialized(c)) == Ok(c)
  {
    BodyIsShortest(bytes[4..]);
    CheckpointRoundTrip(FromBytes(bytes).value);
    hide Body, ReadBody;
  }

  // ----- what is refused -----

  /// Bytes are refused as invalid if there are more than 64 MiB of them, if they do not start with
  /// the letters VCP1, or if their version is not yet known; as undecodable if the body is malformed.
  lemma {:induction false} ParseAnswers(bytes: seq<byte>)
    ensures var r := FromBytes(bytes);
      if |bytes| > 67108864 || |bytes| < 4 || bytes[0] != 0x56 || bytes[1] != 0x43 || bytes[2] != 0x50 || bytes[3] != 0x31 then
        r == Err(InvalidError)
      else
        match ReadBody(bytes[4..])
        case Malformed => r == Err(EncodeError)
        case Read(c, _) => r == if c.version <= 1 then Ok(c) else Err(InvalidError)
  {
    hide ReadBody;
    if |bytes| >= 4 {
      assert bytes[..4] == [bytes[0], bytes[1], bytes[2], bytes[3]];
    }
  }

  /// What base-128 digits, the lowest first, are worth.
  function Base128(s: seq<byte>): nat {
    if s == [] then 0 else s[0] as nat % 128 + 128 * Base128(s[1..])
  }

  /// An integer ends with the first byte below 128, which is the m-th.
  predicate EndsAt(s: seq<byte>, m: nat) {
    1 <= m <= |s| && s[m - 1] < 128 && forall i :: 0 <= i < m - 1 ==> s[i] >= 128
  }

  /// An integer is read, with or without leading zeros, if it ends within as many bytes as its type
  /// may take and, taking them all, does not overflow in the last; it is malformed otherwise.
  lemma {:induction false} VarintReads(s: seq<byte>, m: nat, left: nat, lastMax: byte)
    ensures EndsAt(s, m) ==>
      ReadVarint(s, left, lastMax)
      == if m < left || (m == left && s[m - 1] <= lastMax) then Read(Base128(s[..m]), s[m..]) else Malformed
    ensures (forall i :: 0 <= i < |s| ==> s[i] >= 128) ==> ReadVarint(s, left, lastMax).Malformed?
    decreases left
  {
    if left > 0 && s != [] && s[0] >= 128 && m > 0 {
      VarintReads(s[1..], m - 1, left - 1, lastMax);
      if EndsAt(s, m) {
        assert s[..m][1..] == s[1..][..m - 1] && s[1..][m - 1..] == s[m..];
        assert EndsAt(s[1..], m - 1);
      }
    } else if left > 0 && s != [] && s[0] >= 128 {
      VarintReads(s[1..], 0, left - 1, lastMax);
    } else if EndsAt(s, m) && s[0] < 128 {
      assert m == 1;
      assert s[..1][1..] == [];
    }
  }

  /// Byte vectors are as long as they say, or malformed; an optional one starts with zero or one.
  lemma {:induction false} ReadersRefuse(s: seq<byte>)
    ensures ReadBlob(s).Read? <==> ReadU64(s).Read? && ReadU64(s).value <= |ReadU64(s).rest|
    ensures ReadBlob(s).Read? ==> |ReadBlob(s).value| == ReadU64(s).value && ReadBlob(s).value + ReadBlob(s).rest == ReadU64(s).rest
    ensures ReadOptional(s).Read? <==> s != [] && (s[0] == 0 || (s[0] == 1 && ReadBlob(s[1..]).Read?))
    ensures ReadId(s).Read? <==> |s| >= 32
  {
    hide ReadU64;
  }

  /// The bytes of one small checkpoint, written out.
  lemma {:induction false} WireExample(id: AgentId)
    ensures Serialized(New(id, [7], 300).(seal := Some([9, 8])))
         == [0x56, 0x43, 0x50, 0x31, 1] + id.bytes + [1, 7, 0xAC, 2, 1, 2, 9, 8]
    ensures SignableBytes(New(id, [7], 300)) == [1] + id.bytes + [1, 7, 0xAC, 2, 0]
  {
    assert VarintBytes(1) == [1] && VarintBytes(2) == [2];
    assert VarintBytes(300) == [0xAC] + VarintBytes(2);
    hide VarintBytes;
  }

  /// An integer is read off the front alone: what follows is passed on.
  lemma {:induction false} VarintExtends(s: seq<byte>, more: seq<byte>, left: nat, lastMax: byte)
    requires ReadVarint(s, left, lastMax).Read?
    ensures ReadVarint(s + more, left, lastMax) == Read(ReadVarint(s, left, lastMax).value, ReadVarint(s, left, lastMax).rest + more)
    decreases left
  {
    assert (s + more)[1..] == s[1..] + more;
    if s[0] >= 128 {
      VarintExtends(s[1..], more, left - 1, lastMax);
    }
  }

  lemma {:induction false} BlobExtends(s: seq<byte>, more: seq<byte>)
    requires ReadBlob(s).Read?
    ensures ReadBlob(s + more) == Read(ReadBlob(s).value, ReadBlob(s).rest + more)
  {
    hide ReadU64;
    U64Extends(s, more);
    SplitExtends(ReadU64(s).rest, more, ReadU64(s).value);
  }

  lemma {:induction false} SplitExtends(s: seq<byte>, more: seq<byte>, n: nat)
    requires n <= |s|
    ensures (s + more)[..n] == s[..n]
    ensures (s + more)[n..] == s[n..] + more
  {
  }

  lemma {:induction false} U64Extends(s: seq<byte>, more: seq<byte>)
    requires ReadU64(s).Read?
    ensures ReadU64(s + more) == Read(ReadU64(s).value, ReadU64(s).rest + more)
  {
    hide ReadVarint;
    VarintExtends(s, more, U64_LEFT, U64_LAST);
  }

  lemma {:induction false} U32Extends(s: seq<byte>, more: seq<byte>)
    requires ReadU32(s).Read?
    ensures ReadU32(s + more) == Read(ReadU32(s).value, ReadU32(s).rest + more)
  {
    hide ReadVarint;
    VarintExtends(s, more, U32_LEFT, U32_LAST);
  }

  lemma {:induction false} OptionalExtends(s: seq<byte>, more: seq<byte>)
    requires ReadOptional(s).Read?
    ensures ReadOptional(s + more) == Read(ReadOptional(s).value, ReadOptional(s).rest + more)
  {
    hide ReadBlob;
    assert (s + more)[1..] == s[1..] + more;
    if s[0] == 1 {
      BlobExtends(s[1..], more);
    }
  }

  lemma {:induction false} IdExtends(s: seq<byte>, more: seq<byte>)
    requires ReadId(s).Read?
    ensures ReadId(s + more) == Read(ReadId(s).value, ReadId(s).rest + more)
  {
    assert (s + more)[..AGENT_ID_LEN] == s[..AGENT_ID_LEN] && (s + more)[AGENT_ID_LEN..] == s[AGENT_ID_LEN..] + more;
  }

  lemma {:induction false} BodyExtends(s: seq<byte>, more: seq<byte>)
    requires ReadBody(s).Read?
    ensures ReadBody(s + more) == Read(ReadBody(s).value, ReadBody(s).rest + more)
  {
    hide ReadU32, ReadU64, ReadBlob, ReadOptional, ReadId;
    U32Extends(s, more);
    var s1 := ReadU32(s).rest;
    IdExtends(s1, more);
    var s2 := ReadId(s1).rest;
    BlobExtends(s2, more);
    var s3 := ReadBlob(s2).rest;
    U64Extends(s3, more);
    OptionalExtends(ReadU64(s3).rest, more);
  }

  lemma {:induction false} FrontOf(a: seq<byte>, b: seq<byte>, kept: nat)
    requires |a| <= kept <= |a + b|
    ensures (a + b)[..kept] == a + b[..kept - |a|]
  {
  }

  /// No proper front part of a body is one.
  lemma {:induction false} BodyIsNoPrefix(c: Checkpoint, kept: nat)
    requires kept < |Body(c)|
    ensures ReadBody(Body(c)[..kept]).Malformed?
  {
    hide Body, ReadBody;
    var part, lost := Body(c)[..kept], Body(c)[kept..];
    BodyRoundTrip(c, []);
    assert part + lost == Body(c) == Body(c) + [];
    if ReadBody(part).Read? {
      BodyExtends(part, lost);
    }
  }

  /// What follows a checkpoint is ignored, within the size limit; and no checkpoint that has lost
  /// bytes at its end is ever accepted.
  lemma {:induction false} TrailingAndTruncated(c: Checkpoint, tail: seq<byte>, kept: nat)
    requires c.version <= 1 && kept < |Serialized(c)|
    ensures FromBytes(Serialized(c) + tail) == if |Serialized(c)| + |tail| <= MAX_CHECKPOINT_BYTES then Ok(c) else Err(InvalidError)
    ensures FromBytes(Serialized(c)[..kept]).Err?
  {
    hide Body, ReadBody;
    BodyRoundTrip(c, tail);
    assert Serialized(c) + tail == CHECKPOINT_MAGIC + (Body(c) + tail);
    Unmagic(Body(c) + tail);
    if kept >= 4 {
      FrontOf(CHECKPOINT_MAGIC, Body(c), kept);
      Unmagic(Body(c)[..kept - 4]);
      BodyIsNoPrefix(c, kept - 4);
    }
  }

  lemma {:induction false} Unmagic(body: seq<byte>)
    ensures (CHECKPOINT_MAGIC + body)[..4] == CHECKPOINT_MAGIC
    ensures (CHECKPOINT_MAGIC + body)[4..] == body
  {
  }
}
