/// The systematic erasure code over the field of bytes.
///
/// Shard i of a code word holds, at each byte position, the value at point i of the polynomial
/// of fewer than k coefficients through the k data bytes at points 0 to k - 1.
module ReedSolomon {
  import opened Core
  import opened Polynomials

  const FIELD_ORDER: nat := 256

  ghost predicate Rectangular(rows: seq<seq<byte>>, size: nat) {
    forall i :: 0 <= i < |rows| ==> |rows[i]| == size
  }

  function Point(i: nat): byte
    requires i < FIELD_ORDER
  {
    i as byte
  }

  function Points(k: nat): (xs: seq<byte>)
    requires k <= FIELD_ORDER
    ensures |xs| == k
  {
    seq(k, i requires 0 <= i < k => Point(i))
  }

  function Column(rows: seq<seq<byte>>, j: nat): (ys: seq<byte>)
    requires forall i :: 0 <= i < |rows| ==> j < |rows[i]|
    ensures |ys| == |rows|
  {
    seq(|rows|, i requires 0 <= i < |rows| => rows[i][j])
  }

  /// The shard at point `x` of the code word that has `rows` at the points `xs`.
  function Row(xs: seq<byte>, rows: seq<seq<byte>>, size: nat, x: byte): (row: seq<byte>)
    requires |xs| == |rows| && Rectangular(rows, size)
    ensures |row| == size
  {
    seq(size, j requires 0 <= j < size => Eval(Through(xs, Column(rows, j)), x))
  }

  /// All `total` shards of the code word whose data shards are `rows`.
  function CodeWord(rows: seq<seq<byte>>, size: nat, total: nat): (shards: seq<seq<byte>>)
    requires |rows| <= total <= FIELD_ORDER && Rectangular(rows, size)
    ensures |shards| == total
  {
    seq(total, i requires 0 <= i < total => if i < |rows| then rows[i] else Row(Points(|rows|), rows, size, Point(i)))
  }

  lemma {:induction false} PointsDistinct(k: nat)
    requires k <= FIELD_ORDER
    ensures Distinct(Points(k))
  {
  }

  /// Every shard, data or parity, lies on the code word's polynomials.
  lemma {:induction false} OnPolynomial(rows: seq<seq<byte>>, size: nat, total: nat, i: nat, j: nat)
    requires 0 < |rows| <= total <= FIELD_ORDER && Rectangular(rows, size)
    requires i < total && j < size
    ensures |CodeWord(rows, size, total)[i]| == size
    ensures CodeWord(rows, size, total)[i][j] == Eval(Through(Points(|rows|), Column(rows, j)), Point(i))
  {
    hide Eval, Through;
    var xs := Points(|rows|);
    if i < |rows| {
      PointsDistinct(|rows|);
      ThroughHits(xs, Column(rows, j), i);
      assert xs[i] == Point(i);
    }
  }

  /// The code word is the values of a polynomial: whatever polynomial of k coefficients the data
  /// shards have at the points 0 to k - 1, all shards have at 0 to total - 1.
  lemma {:induction false} CodeWordIsPolynomial(rows: seq<seq<byte>>, size: nat, total: nat, p: seq<byte>, i: nat, j: nat)
    requires 0 < |rows| <= total <= FIELD_ORDER && Rectangular(rows, size) && |p| == |rows|
    requires j < size && forall t :: 0 <= t < |rows| ==> rows[t][j] == Eval(p, t as byte)
    requires i < total
    ensures |CodeWord(rows, size, total)[i]| == size && CodeWord(rows, size, total)[i][j] == Eval(p, i as byte)
  {
    hide Eval, Through, CodeWord;
    var xs := Points(|rows|);
    var q := Through(xs, Column(rows, j));
    PointsDistinct(|rows|);
    forall t | 0 <= t < |xs| ensures Eval(p, xs[t]) == Eval(q, xs[t]) {
      ThroughHits(xs, Column(rows, j), t);
    }
    AgreeEverywhere(p, q, xs, Point(i));
    OnPolynomial(rows, size, total, i, j);
  }

  ghost predicate Ascending(idx: seq<nat>, total: nat) {
    && (forall t :: 0 <= t < |idx| ==> idx[t] < total)
    && (forall s, t :: 0 <= s < t < |idx| ==> idx[s] < idx[t])
  }

  function PointsOf(idx: seq<nat>): (xs: seq<byte>)
    requires forall t :: 0 <= t < |idx| ==> idx[t] < FIELD_ORDER
    ensures |xs| == |idx|
  {
    seq(|idx|, t requires 0 <= t < |idx| => Point(idx[t]))
  }

  function Chosen(shards: seq<seq<byte>>, idx: seq<nat>): (rows: seq<seq<byte>>)
    requires forall t :: 0 <= t < |idx| ==> idx[t] < |shards|
    ensures |rows| == |idx|
  {
    seq(|idx|, t requires 0 <= t < |idx| => shards[idx[t]])
  }

  lemma {:induction false} SameValue(rows: seq<seq<byte>>, size: nat, total: nat, idx: seq<nat>, i: nat, j: nat)
    requires 0 < |rows| == |idx| <= total <= FIELD_ORDER && Rectangular(rows, size)
    requires Ascending(idx, total) && i < total && j < size
    requires Rectangular(Chosen(CodeWord(rows, size, total), idx), size)
    ensures Eval(Through(PointsOf(idx), Column(Chosen(CodeWord(rows, size, total), idx), j)), Point(i))
         == Eval(Through(Points(|rows|), Column(rows, j)), Point(i))
  {
    hide Eval, Through, CodeWord, Point;
    var xs, known := PointsOf(idx), Chosen(CodeWord(rows, size, total), idx);
    var p, q := Through(xs, Column(known, j)), Through(Points(|rows|), Column(rows, j));
    PointsOfDistinct(idx, total);
    forall t | 0 <= t < |xs| ensures Eval(p, xs[t]) == Eval(q, xs[t]) {
      ThroughHits(xs, Column(known, j), t);
      OnPolynomial(rows, size, total, idx[t], j);
    }
    AgreeEverywhere(p, q, xs, Point(i));
  }

  lemma {:induction false} PointsOfDistinct(idx: seq<nat>, total: nat)
    requires Ascending(idx, total) && total <= FIELD_ORDER
    ensures Distinct(PointsOf(idx))
  {
  }

  /// Any k shards of a code word determine all of it.
  lemma {:induction false} AnyKDetermineAll(rows: seq<seq<byte>>, size: nat, total: nat, idx: seq<nat>, i: nat)
    requires 0 < |rows| == |idx| <= total <= FIELD_ORDER && Rectangular(rows, size)
    requires Ascending(idx, total) && i < total
    ensures var word := CodeWord(rows, size, total);
      && Rectangular(Chosen(word, idx), size)
      && Row(PointsOf(idx), Chosen(word, idx), size, Point(i)) == word[i]
  {
    var word := CodeWord(rows, size, total);
    var known := Chosen(word, idx);
    assert Rectangular(known, size);
    forall j | 0 <= j < size ensures |word[i]| == size && Row(PointsOf(idx), known, size, Point(i))[j] == word[i][j] {
      OnPolynomial(rows, size, total, i, j);
      SameValue(rows, size, total, idx, i, j);
    }
    hide Through, Eval, PointsOf, Chosen;
    assert |word[i]| == size;
  }

  // ----- reconstruction -----

  /// Indices of the shards that are there, in order.
  function Present(opt: seq<Option<seq<byte>>>): (idx: seq<nat>)
    ensures Ascending(idx, |opt|)
    ensures forall i :: i in idx <==> 0 <= i < |opt| && opt[i].Some?
  {
    if opt == [] then []
    else
      var n := |opt| - 1;
      var idx := Present(opt[..n]);
      if opt[n].Some? then idx + [n] else idx
  }

  function MissingCount(opt: seq<Option<seq<byte>>>): (n: nat)
    ensures n + |Present(opt)| == |opt|
  {
    if opt == [] then 0
    else MissingCount(opt[..|opt| - 1]) + (if opt[|opt| - 1].None? then 1 else 0)
  }

  /// Enough shards, all of one length.
  predicate Recoverable(opt: seq<Option<seq<byte>>>, k: nat) {
    && 0 < k <= |Present(opt)|
    && forall i :: 0 <= i < |opt| && opt[i].Some? ==> |opt[i].value| == |opt[Present(opt)[0]].value|
  }

  /// The first k shards that are there.
  function Known(opt: seq<Option<seq<byte>>>, k: nat): (rows: seq<seq<byte>>)
    requires Recoverable(opt, k)
    ensures |rows| == k && Rectangular(rows, |opt[Present(opt)[0]].value|)
  {
    var idx := Present(opt);
    assert forall t :: 0 <= t < k ==> idx[t] in idx;
    seq(k, t requires 0 <= t < k => opt[idx[t]].value)
  }

  /// Data shard i, as given or recomputed from the known shards.
  function RestoredShard(opt: seq<Option<seq<byte>>>, k: nat, i: nat): (row: seq<byte>)
    requires Recoverable(opt, k) && |opt| <= FIELD_ORDER && i < k
    ensures |row| == |opt[Present(opt)[0]].value|
  {
    PresentEnough(opt);
    if opt[i].Some? then opt[i].value
    else Row(PointsOf(Present(opt)[..k]), Known(opt, k), |opt[Present(opt)[0]].value|, Point(i))
  }

  lemma {:induction false} PresentEnough(opt: seq<Option<seq<byte>>>)
    ensures |Present(opt)| <= |opt|
  {
    assert MissingCount(opt) >= 0;
  }

  function Restored(opt: seq<Option<seq<byte>>>, k: nat): (rows: seq<seq<byte>>)
    requires Recoverable(opt, k) && |opt| <= FIELD_ORDER
    ensures |rows| == k && Rectangular(rows, |opt[Present(opt)[0]].value|)
  {
    seq(k, i requires 0 <= i < k => RestoredShard(opt, k, i))
  }

  /// All shards, the missing parity shards recomputed from the restored data shards.
  function Refilled(opt: seq<Option<seq<byte>>>, k: nat): (shards: seq<seq<byte>>)
    requires Recoverable(opt, k) && |opt| <= FIELD_ORDER
    ensures |shards| == |opt|
  {
    PresentEnough(opt);
    var rows := Restored(opt, k);
    var size := |opt[Present(opt)[0]].value|;
    seq(|opt|, i requires 0 <= i < |opt| =>
      if i < k then rows[i] else if opt[i].Some? then opt[i].value else Row(Points(k), rows, size, Point(i)))
  }

  /// `opt` is the code word with some shards missing.
  ghost predicate Erased(opt: seq<Option<seq<byte>>>, word: seq<seq<byte>>) {
    && |opt| == |word|
    && forall i :: 0 <= i < |opt| && opt[i].Some? ==> opt[i].value == word[i]
  }

  /// Whatever is erased, as long as k shards remain, reconstruction gives back the data shards
  /// and with them the whole code word.
  lemma {:induction false} ReconstructionIsExact(rows: seq<seq<byte>>, size: nat, total: nat, opt: seq<Option<seq<byte>>>)
    requires 0 < |rows| <= total <= FIELD_ORDER && Rectangular(rows, size)
    requires Erased(opt, CodeWord(rows, size, total))
    ensures Recoverable(opt, |rows|) <==> MissingCount(opt) <= total - |rows|
    ensures Recoverable(opt, |rows|) ==> Restored(opt, |rows|) == rows && Refilled(opt, |rows|) == CodeWord(rows, size, total)
  {
    hide MissingCount, Present, Row;
    var k, word, idx := |rows|, CodeWord(rows, size, total), Present(opt);
    assert forall i :: 0 <= i < total ==> |word[i]| == size;
    if |idx| >= k {
      assert forall t :: 0 <= t < |idx| ==> idx[t] in idx;
      assert Recoverable(opt, k);
      var chosen := idx[..k];
      assert Known(opt, k) == Chosen(word, chosen);
      forall i | 0 <= i < k ensures RestoredShard(opt, k, i) == rows[i] {
        AnyKDetermineAll(rows, size, total, chosen, i);
      }
      assert Restored(opt, k) == rows;
    }
  }

  // ----- in place -----

  /// Compute the parity shards from the data shards in front of them.
  method Encode(shards: array<seq<byte>>, k: nat, size: nat)
    requires 0 < k <= shards.Length <= FIELD_ORDER
    requires Rectangular(shards[..k], size)
    modifies shards
    ensures shards[..] == CodeWord(old(shards[..k]), size, shards.Length)
  {
    ghost var rows := shards[..k];
    for i := k to shards.Length
      invariant shards[..k] == rows
      invariant forall r :: k <= r < i ==> shards[r] == Row(Points(k), rows, size, Point(r))
    {
      shards[i] := Row(Points(k), shards[..k], size, Point(i));
    }
  }

  /// Fill in the missing shards, data first; fails if too few are there or their sizes differ.
  method Reconstruct(opt: array<Option<seq<byte>>>, k: nat) returns (ok: bool)
    requires 0 < k <= opt.Length <= FIELD_ORDER
    modifies opt
    ensures ok == Recoverable(old(opt[..]), k)
    ensures ok ==> forall i :: 0 <= i < opt.Length ==> opt[i] == Some(Refilled(old(opt[..]), k)[i])
  {
    hide Row, PointsOf, Points, Known, MissingCount, Rectangular, Present, RestoredShard;
    ghost var was := opt[..];
    var indices := CheckShards(opt, k);
    if indices == [] {
      return false;
    }
    PresentEnough(was);
    var size := |opt[indices[0]].value|;
    var rows := Known(opt[..], k);
    var data: seq<seq<byte>> := [];
    for i := 0 to k
      invariant forall r :: i <= r < opt.Length ==> opt[r] == was[r]
      invariant data == Restored(was, k)[..i]
      invariant forall r :: 0 <= r < i ==> opt[r] == Some(data[r])
    {
      DataShard(was, k, i);
      if opt[i].None? {
        opt[i] := Some(Row(PointsOf(indices[..k]), rows, size, Point(i)));
      }
      data := data + [opt[i].value];
    }
    assert data == Restored(was, k);
    for i := k to opt.Length
      invariant forall r :: i <= r < opt.Length ==> opt[r] == was[r]
      invariant forall r :: 0 <= r < i ==> opt[r] == Some(Refilled(was, k)[r])
    {
      if opt[i].None? {
        opt[i] := Some(Row(Points(k), data, size, Point(i)));
      }
    }
    return true;
  }

  lemma {:induction false} DataShard(opt: seq<Option<seq<byte>>>, k: nat, i: nat)
    requires Recoverable(opt, k) && |opt| <= FIELD_ORDER && i < k
    ensures |Present(opt)| <= |opt|
    ensures Restored(opt, k)[i]
         == if opt[i].Some? then opt[i].value
            else Row(PointsOf(Present(opt)[..k]), Known(opt, k), |opt[Present(opt)[0]].value|, Point(i))
  {
    PresentEnough(opt);
    hide Row, PointsOf, Known;
  }

  /// The indices of the shards that are there, or none if they do not suffice.
  method CheckShards(opt: array<Option<seq<byte>>>, k: nat) returns (indices: seq<nat>)
    requires 0 < k
    ensures indices == if Recoverable(opt[..], k) then Present(opt[..]) else []
  {
    hide MissingCount, Recoverable, Present;
    ghost var was := opt[..];
    NonePresent();
    var length: Option<nat> := None;
    indices := [];
    for i := 0 to opt.Length
      invariant indices == Present(was[..i])
      invariant length == if indices == [] then None else Some(|was[indices[0]].value|)
      invariant forall r :: 0 <= r < i && was[r].Some? ==> length == Some(|was[r].value|)
    {
      PresentNext(was, i);
      if opt[i].Some? {
        if length.Some? && |opt[i].value| != length.value {
          Unequal(was, i);
          return [];
        }
        length := Some(|opt[i].value|);
        indices := indices + [i];
      }
    }
    assert was[..opt.Length] == was;
    AllEqual(was, k);
    if |indices| < k {
      return [];
    }
  }

  lemma {:induction false} NonePresent()
    ensures Present([]) == []
  {
  }

  lemma {:induction false} PresentNext(opt: seq<Option<seq<byte>>>, i: nat)
    requires i < |opt|
    ensures Present(opt[..i + 1]) == if opt[i].Some? then Present(opt[..i]) + [i] else Present(opt[..i])
  {
    assert opt[..i + 1][..i] == opt[..i];
  }

  lemma {:induction false} AllEqual(opt: seq<Option<seq<byte>>>, k: nat)
    requires k > 0
    requires Present(opt) != [] ==> forall r :: 0 <= r < |opt| && opt[r].Some? ==> |opt[r].value| == |opt[Present(opt)[0]].value|
    ensures Recoverable(opt, k) <==> |Present(opt)| >= k
  {
    hide Present;
  }

  lemma {:induction false} Unequal(opt: seq<Option<seq<byte>>>, i: nat)
    requires i < |opt| && opt[i].Some? && Present(opt[..i]) != []
    requires |opt[i].value| != |opt[Present(opt[..i])[0]].value|
    ensures forall k :: !Recoverable(opt, k)
  {
    PresentPrefix(opt, i);
    hide Present;
    assert Present(opt)[0] == Present(opt[..i])[0];
  }

  lemma {:induction false} PresentPrefix(opt: seq<Option<seq<byte>>>, n: nat)
    requires n <= |opt|
    ensures Present(opt[..n]) <= Present(opt)
    decreases |opt| - n
  {
    if n == |opt| {
      assert opt[..n] == opt;
    } else {
      PresentPrefix(opt, n + 1);
      assert opt[..n + 1][..n] == opt[..n];
    }
  }
}
