/// Erasure-coded shards: length prefix, padding, split, parity, reconstruction, trimming.
module Shards {
  import opened Core
  import opened ReedSolomon

  const PREFIX_LEN: nat := 8

  const TWO_TO_64: nat := 0x1_0000_0000_0000_0000

  // ----- the length prefix -----

  function LittleEndian(n: nat, k: nat): (s: seq<byte>)
    ensures |s| == k
    decreases k
  {
    if k == 0 then [] else [(n % 256) as byte] + LittleEndian(n / 256, k - 1)
  }

  function FromLittleEndian(s: seq<byte>): nat {
    if s == [] then 0 else s[0] as nat + 256 * FromLittleEndian(s[1..])
  }

  function Power256(k: nat): nat {
    if k == 0 then 1 else 256 * Power256(k - 1)
  }

  lemma {:induction false} LittleEndianRoundTrip(n: nat, k: nat)
    requires n < Power256(k)
    ensures FromLittleEndian(LittleEndian(n, k)) == n
    decreases k
  {
    if k > 0 {
      LittleEndianRoundTrip(n / 256, k - 1);
      assert LittleEndian(n, k)[1..] == LittleEndian(n / 256, k - 1);
    }
  }

  lemma {:induction false} PrefixHolds(n: nat)
    requires n < TWO_TO_64
    ensures FromLittleEndian(LittleEndian(n, PREFIX_LEN)) == n
  {
    assert Power256(8) == TWO_TO_64 by {
      assert Power256(4) == 0x1_0000_0000;
    }
    LittleEndianRoundTrip(n, 8);
  }

  // ----- layout -----

  function DivCeil(n: nat, k: nat): (q: nat)
    requires k > 0
    ensures q * k >= n
    ensures n > 0 ==> q > 0
  {
    n / k + (if n % k > 0 then 1 else 0)
  }

  function ShardSize(length: nat, k: nat): (size: nat)
    requires k > 0
    ensures size >= 1 && size * k >= length
  {
    var q := DivCeil(length, k);
    if q > 1 then q else 1
  }

  function Zeros(n: nat): (s: seq<byte>)
    ensures |s| == n
  {
    seq(n, i => 0)
  }

  /// The prefixed data, padded to fill `k` shards exactly.
  function Padded(data: seq<byte>, k: nat): (buf: seq<byte>)
    requires k > 0
    ensures |buf| == ShardSize(PREFIX_LEN + |data|, k) * k
  {
    var buf := LittleEndian(|data|, PREFIX_LEN) + data;
    buf + Zeros(ShardSize(|buf|, k) * k - |buf|)
  }

  lemma {:induction false} SliceFits(i: nat, k: nat, size: nat)
    requires i < k
    ensures i * size + size <= size * k
    ensures (i + 1) * size == i * size + size
  {
    assert size * k == size * (i + 1) + size * (k - i - 1);
  }

  function Slice(buf: seq<byte>, k: nat, size: nat, i: nat): (row: seq<byte>)
    requires i < k && |buf| == size * k
    ensures |row| == size
  {
    SliceFits(i, k, size);
    buf[i * size..i * size + size]
  }

  lemma {:induction false} SliceIs(buf: seq<byte>, k: nat, size: nat, i: nat)
    requires i < k && |buf| == size * k
    ensures i * size <= (i + 1) * size <= |buf|
    ensures Slice(buf, k, size, i) == buf[i * size..(i + 1) * size]
  {
    SliceFits(i, k, size);
  }

  function Split(buf: seq<byte>, k: nat, size: nat): (rows: seq<seq<byte>>)
    requires |buf| == size * k
    ensures |rows| == k
    ensures Rectangular(rows, size)
  {
    seq(k, i requires 0 <= i < k => Slice(buf, k, size, i))
  }

  lemma {:induction false} SlicesAreSplit(rows: seq<seq<byte>>, buf: seq<byte>, k: nat, size: nat)
    requires |rows| == k && |buf| == size * k
    requires forall i :: 0 <= i < k ==> rows[i] == Slice(buf, k, size, i)
    ensures rows == Split(buf, k, size)
  {
    hide Slice;
  }

  function Concat(rows: seq<seq<byte>>): seq<byte> {
    if rows == [] then [] else Concat(rows[..|rows| - 1]) + rows[|rows| - 1]
  }

  lemma {:induction false} ConcatSplit(buf: seq<byte>, k: nat, size: nat, n: nat)
    requires |buf| == size * k && n <= k
    ensures n * size <= |buf|
    ensures Concat(Split(buf, k, size)[..n]) == buf[..n * size]
  {
    if n == 0 {
    } else {
      SliceFits(n - 1, k, size);
      ConcatSplit(buf, k, size, n - 1);
      var rows := Split(buf, k, size);
      assert rows[..n][..n - 1] == rows[..n - 1];
      assert rows[..n][n - 1] == Slice(buf, k, size, n - 1);
    }
  }

  // ----- encoding -----

  predicate ValidCounts(k: nat, parity: nat) {
    k > 0 && parity > 0 && k + parity <= FIELD_ORDER
  }

  function Encoded(data: seq<byte>, k: nat, parity: nat): (shards: seq<seq<byte>>)
    requires ValidCounts(k, parity)
    ensures |shards| == k + parity
  {
    var size := ShardSize(PREFIX_LEN + |data|, k);
    CodeWord(Split(Padded(data, k), k, size), size, k + parity)
  }

  method EncodeShards(data: seq<byte>, k: nat, parity: nat) returns (r: Result<seq<seq<byte>>>)
    ensures k == 0 || parity == 0 ==> r == Err(InvalidError)
    ensures k > 0 && parity > 0 && k + parity > FIELD_ORDER ==> r == Err(ReplicationError)
    ensures ValidCounts(k, parity) ==> r == Ok(Encoded(data, k, parity))
  {
    if k == 0 {
      return Err(InvalidError);
    }
    if parity == 0 {
      return Err(InvalidError);
    }
    if k + parity > FIELD_ORDER {
      return Err(ReplicationError);
    }
    hide Row, CodeWord, LittleEndian, Zeros, ShardSize, Slice, Split;
    var buf := LittleEndian(|data|, PREFIX_LEN);
    buf := buf + data;
    var total := k + parity;
    var size := ShardSize(|buf|, k);
    buf := buf + Zeros(size * k - |buf|);
    assert buf == Padded(data, k);
    var shards := new seq<byte>[total](i => []);
    for i := 0 to k
      invariant forall q :: 0 <= q < i ==> shards[q] == Slice(buf, k, size, q)
    {
      var start := i * size;
      SliceIs(buf, k, size, i);
      var end := if (i + 1) * size < |buf| then (i + 1) * size else |buf|;
      shards[i] := buf[start..end];
    }
    SlicesAreSplit(shards[..k], buf, k, size);
    ReedSolomon.Encode(shards, k, size);
    return Ok(shards[..]);
  }

  // ----- decoding -----

  /// An empty shard stands for a missing one.
  function Marked(shards: seq<seq<byte>>): (opt: seq<Option<seq<byte>>>)
    ensures |opt| == |shards|
  {
    seq(|shards|, i requires 0 <= i < |shards| => if shards[i] == [] then None else Some(shards[i]))
  }

  /// Read the length prefix and drop it and the padding.
  function Unwrap(buf: seq<byte>): Result<seq<byte>> {
    if |buf| < PREFIX_LEN then Err(InvalidError)
    else
      var length := FromLittleEndian(buf[..PREFIX_LEN]);
      if |buf| < PREFIX_LEN + length then Err(InvalidError)
      else Ok(buf[PREFIX_LEN..PREFIX_LEN + length])
  }

  function Decoded(shards: seq<seq<byte>>, k: nat, parity: nat): Result<seq<byte>> {
    if |shards| != k + parity then Err(InvalidError)
    else if !ValidCounts(k, parity) then Err(ReplicationError)
    else if !Recoverable(Marked(shards), k) then Err(ReplicationError)
    else Unwrap(Concat(Restored(Marked(shards), k)))
  }

  method DecodeShards(shards: seq<seq<byte>>, k: nat, parity: nat) returns (r: Result<seq<byte>>)
    ensures r == Decoded(shards, k, parity)
  {
    if |shards| != k + parity {
      return Err(InvalidError);
    }
    if !ValidCounts(k, parity) {
      return Err(ReplicationError);
    }
    var opt := new Option<seq<byte>>[|shards|](i requires 0 <= i < |shards| => if shards[i] == [] then None else Some(shards[i]));
    assert opt[..] == Marked(shards);
    var ok := ReedSolomon.Reconstruct(opt, k);
    if !ok {
      return Err(ReplicationError);
    }
    ghost var rows := Restored(Marked(shards), k);
    var buf := [];
    for i := 0 to k
      invariant buf == Concat(rows[..i])
    {
      assert rows[..i + 1][..i] == rows[..i];
      buf := buf + opt[i].value;
    }
    assert rows[..k] == rows;
    if |buf| < PREFIX_LEN {
      return Err(InvalidError);
    }
    var length := FromLittleEndian(buf[..PREFIX_LEN]);
    if |buf| < PREFIX_LEN + length {
      return Err(InvalidError);
    }
    return Ok(buf[PREFIX_LEN..PREFIX_LEN + length]);
  }

  // ----- the round trip -----

  /// `shards` is `full` with some shards blanked out.
  ghost predicate Blanked(shards: seq<seq<byte>>, full: seq<seq<byte>>) {
    && |shards| == |full|
    && forall i :: 0 <= i < |shards| ==> shards[i] == full[i] || shards[i] == []
  }

  function BlankCount(shards: seq<seq<byte>>): nat {
    if shards == [] then 0
    else BlankCount(shards[..|shards| - 1]) + (if shards[|shards| - 1] == [] then 1 else 0)
  }

  lemma {:induction false} BlanksAreMissing(shards: seq<seq<byte>>)
    ensures MissingCount(Marked(shards)) == BlankCount(shards)
  {
    if shards != [] {
      var n := |shards| - 1;
      BlanksAreMissing(shards[..n]);
      assert Marked(shards)[..n] == Marked(shards[..n]);
    }
  }

  lemma {:induction false} UnwrapPadded(data: seq<byte>, k: nat)
    requires k > 0 && |data| < TWO_TO_64
    ensures Unwrap(Padded(data, k)) == Ok(data)
  {
    PrefixHolds(|data|);
    var buf := Padded(data, k);
    assert buf[..PREFIX_LEN] == LittleEndian(|data|, PREFIX_LEN);
    assert buf[PREFIX_LEN..PREFIX_LEN + |data|] == data;
  }

  /// An encoded shard is never empty, so an empty vector always means a missing shard.
  lemma {:induction false} ShardsNeverEmpty(data: seq<byte>, k: nat, parity: nat)
    requires ValidCounts(k, parity)
    ensures Rectangular(Encoded(data, k, parity), ShardSize(PREFIX_LEN + |data|, k))
    ensures [] !in Encoded(data, k, parity)
  {
    hide Padded, ShardSize, Split, Row;
    var full := Encoded(data, k, parity);
    var size := ShardSize(PREFIX_LEN + |data|, k);
    assert forall i :: 0 <= i < |full| ==> |full[i]| == size;
  }

  /// The data shards spell out the prefixed, padded data.
  lemma {:induction false} DataShardsSpellData(data: seq<byte>, k: nat, parity: nat)
    requires ValidCounts(k, parity)
    ensures Concat(Encoded(data, k, parity)[..k]) == Padded(data, k)
  {
    var size := ShardSize(PREFIX_LEN + |data|, k);
    var buf := Padded(data, k);
    var rows := Split(buf, k, size);
    ConcatSplit(buf, k, size, k);
    assert rows[..k] == rows;
    hide Row, Padded, Split, ShardSize, Concat;
    assert Encoded(data, k, parity)[..k] == rows;
    assert buf[..k * size] == buf;
  }

  /// Blank out any set of shards: decoding gives back exactly the original bytes if at most
  /// `parity` shards are gone, and fails otherwise.
  lemma {:induction false} ErasureRoundTrip(data: seq<byte>, k: nat, parity: nat, shards: seq<seq<byte>>)
    requires ValidCounts(k, parity) && |data| < TWO_TO_64
    requires Blanked(shards, Encoded(data, k, parity))
    ensures BlankCount(shards) <= parity ==> Decoded(shards, k, parity) == Ok(data)
    ensures BlankCount(shards) > parity ==> Decoded(shards, k, parity) == Err(ReplicationError)
  {
    hide Padded, ShardSize, Split, CodeWord, Recoverable, Restored, Unwrap, Concat, BlankCount, MissingCount;
    var size := ShardSize(PREFIX_LEN + |data|, k);
    var rows := Split(Padded(data, k), k, size);
    ShardsNeverEmpty(data, k, parity);
    BlanksAreMissing(shards);
    ReconstructionIsExact(rows, size, k + parity, Marked(shards));
    ConcatSplit(Padded(data, k), k, size, k);
    assert rows[..k] == rows;
    assert Padded(data, k)[..k * size] == Padded(data, k);
    UnwrapPadded(data, k);
  }

  // ----- sizes and refusals -----

  /// The shard size is the least that fits, but never zero.
  lemma {:induction false} ShardSizeIsLeast(length: nat, k: nat, smaller: nat)
    requires k > 0 && 1 <= smaller < ShardSize(length, k)
    ensures smaller * k < length <= ShardSize(length, k) * k
  {
    var q := length / k;
    assert length == q * k + length % k;
    if length % k > 0 {
      assert smaller <= q;
      Stacks(smaller, q, k);
    } else {
      assert smaller < q;
      Stacks(smaller + 1, q, k);
      assert (smaller + 1) * k == smaller * k + k;
    }
  }

  lemma {:induction false} Stacks(a: nat, b: nat, k: nat)
    requires a <= b
    ensures a * k <= b * k
  {
  }

  /// The buffer that is split: the length in eight bytes, the data, and nothing but zeros.
  lemma {:induction false} PaddedIs(data: seq<byte>, k: nat, i: nat)
    requires k > 0 && i < |Padded(data, k)|
    ensures Padded(data, k)[..8] == LittleEndian(|data|, 8)
    ensures i >= 8 ==> Padded(data, k)[i] == if i - 8 < |data| then data[i - 8] else 0
    ensures LittleEndian(300, 8) == [44, 1, 0, 0, 0, 0, 0, 0]
  {
    assert LittleEndian(0, 6) == [0, 0, 0, 0, 0, 0] by {
      assert LittleEndian(0, 3) == [0, 0, 0];
    }
    assert LittleEndian(1, 7) == [1] + LittleEndian(0, 6);
    hide ShardSize, LittleEndian;
  }

  /// The shards that are there agree in length.
  predicate Uniform(shards: seq<seq<byte>>) {
    forall i, j :: 0 <= i < j < |shards| && shards[i] != [] && shards[j] != [] ==> |shards[i]| == |shards[j]|
  }

  lemma {:induction false} RecoverableIff(shards: seq<seq<byte>>, k: nat)
    requires k > 0
    ensures Recoverable(Marked(shards), k) <==> BlankCount(shards) + k <= |shards| && Uniform(shards)
  {
    BlanksAreMissing(shards);
    var opt := Marked(shards);
    var idx := Present(opt);
    assert MissingCount(opt) + |idx| == |opt|;
    hide MissingCount, BlankCount, Present;
    if k <= |idx| {
      assert idx[0] in idx;
      var first := idx[0];
      assert opt[first].Some? && opt[first].value == shards[first];
      assert forall i :: 0 <= i < |opt| && opt[i].Some? ==> opt[i].value == shards[i];
      assert forall i :: 0 <= i < |shards| && shards[i] != [] ==> opt[i].Some?;
    }
  }

  /// What is refused before anything is decoded: another number of shards than configured, counts
  /// that cannot be, fewer than k shards, and shards of different lengths.
  lemma {:induction false} DecodeRefusals(shards: seq<seq<byte>>, k: nat, parity: nat)
    ensures |shards| != k + parity ==> Decoded(shards, k, parity) == Err(InvalidError)
    ensures |shards| == k + parity && (k == 0 || parity == 0 || k + parity > 256) ==> Decoded(shards, k, parity) == Err(ReplicationError)
    ensures |shards| == k + parity && (BlankCount(shards) > parity || !Uniform(shards)) ==> Decoded(shards, k, parity) == Err(ReplicationError)
  {
    if k > 0 {
      RecoverableIff(shards, k);
    }
    hide Recoverable, Marked, Uniform, BlankCount, Restored, Unwrap, Concat;
  }

  /// With all data shards there, decoding reads them in a row: eight bytes of length and that many
  /// of data; a buffer too short for either is refused.
  lemma {:induction false} DataShardsAreRead(shards: seq<seq<byte>>, k: nat, parity: nat)
    requires ValidCounts(k, parity) && |shards| == k + parity && Uniform(shards) && [] !in shards[..k]
    ensures var buf := Concat(shards[..k]);
      Decoded(shards, k, parity) ==
        if |buf| < 8 || |buf| < 8 + FromLittleEndian(buf[..8]) then Err(InvalidError)
        else Ok(buf[8..8 + FromLittleEndian(buf[..8])])
  {
    forall i | 0 <= i < k ensures shards[i] != [] {
      assert shards[..k][i] == shards[i];
    }
    BlanksAtMost(shards, k);
    RecoverableIff(shards, k);
    hide Recoverable, BlankCount, Concat, Uniform, Present;
    assert Restored(Marked(shards), k) == shards[..k];
  }

  lemma {:induction false} BlanksAtMost(shards: seq<seq<byte>>, k: nat)
    requires k <= |shards| && forall i :: 0 <= i < k ==> shards[i] != []
    ensures BlankCount(shards) <= |shards| - k
  {
    if |shards| > k {
      BlanksAtMost(shards[..|shards| - 1], k);
    } else {
      NotBlank(shards);
    }
  }

  lemma {:induction false} NotBlank(shards: seq<seq<byte>>)
    requires forall i :: 0 <= i < |shards| ==> shards[i] != []
    ensures BlankCount(shards) == 0
  {
    if shards != [] {
      NotBlank(shards[..|shards| - 1]);
    }
  }
}
