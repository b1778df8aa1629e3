/** Sizes of frames and of the pieces they travel in, and the test on sizes that tells
    whether a read buffer is large enough. */
module FrameSizes {
  function Sum(s: seq<nat>): nat {
    if s == [] then 0 else s[0] + Sum(s[1..])
  }

  /** What pieces take on the wire, each with `overhead` bytes in front. */
  function Wire(s: seq<nat>, overhead: nat): nat {
    if s == [] then 0 else s[0] + overhead + Wire(s[1..], overhead)
  }

  lemma {:induction false} SumConcat(a: seq<nat>, b: seq<nat>)
    ensures Sum(a + b) == Sum(a) + Sum(b)
  {
    if a == [] {
      assert a + b == b;
    } else {
      assert (a + b)[1..] == a[1..] + b;
      SumConcat(a[1..], b);
    }
  }

  lemma {:induction false} WireConcat(a: seq<nat>, b: seq<nat>, overhead: nat)
    ensures Wire(a + b, overhead) == Wire(a, overhead) + Wire(b, overhead)
  {
    if a == [] {
      assert a + b == b;
    } else {
      assert (a + b)[1..] == a[1..] + b;
      WireConcat(a[1..], b, overhead);
    }
  }

  /** The stretch from `i` to `j`. */
  lemma Stretch(s: seq<nat>, overhead: nat, i: nat, j: nat)
    requires i <= j <= |s|
    ensures Wire(s[..j], overhead) == Wire(s[..i], overhead) + Wire(s[i..j], overhead)
    ensures Sum(s[..j]) == Sum(s[..i]) + Sum(s[i..j])
  {
    assert s[..j] == s[..i] + s[i..j];
    WireConcat(s[..i], s[i..j], overhead);
    SumConcat(s[..i], s[i..j]);
  }

  lemma OneOf(s: seq<nat>, overhead: nat, i: nat)
    requires i < |s|
    ensures Wire(s[i..i + 1], overhead) == s[i] + overhead && Sum(s[i..i + 1]) == s[i]
  {
    assert s[i..i + 1] == [s[i]] && [s[i]][1..] == [];
  }

  predicate Positive(s: seq<nat>) {
    forall i :: 0 <= i < |s| ==> s[i] >= 1
  }

  // Which piece a position on the wire is in

  /** How many pieces are complete in the first `x` bytes. */
  function PieceIndex(s: seq<nat>, overhead: nat, x: nat): (k: nat)
    ensures k <= |s|
  {
    if s == [] || x < s[0] + overhead then 0 else 1 + PieceIndex(s[1..], overhead, x - s[0] - overhead)
  }

  lemma {:induction false} IndexBounds(s: seq<nat>, overhead: nat, x: nat)
    ensures var k := PieceIndex(s, overhead, x);
            Wire(s[..k], overhead) <= x && (k < |s| ==> x < Wire(s[..k + 1], overhead))
    decreases |s|
  {
    if s != [] {
      assert s[..1] == [s[0]] && [s[0]][1..] == [];
      if x >= s[0] + overhead {
        var k := PieceIndex(s[1..], overhead, x - s[0] - overhead);
        IndexBounds(s[1..], overhead, x - s[0] - overhead);
        assert s[..k + 1][1..] == s[1..][..k];
        if k < |s[1..]| {
          assert s[..k + 2][1..] == s[1..][..k + 1];
        }
      }
    }
  }

  lemma {:induction false} IndexIs(s: seq<nat>, overhead: nat, x: nat, k: nat)
    requires k <= |s| && Wire(s[..k], overhead) <= x && (k < |s| ==> x < Wire(s[..k + 1], overhead))
    ensures PieceIndex(s, overhead, x) == k
    decreases |s|
  {
    IndexBounds(s, overhead, x);
    var j := PieceIndex(s, overhead, x);
    if j < k {
      Stretch(s, overhead, j + 1, k);
    } else if k < j {
      Stretch(s, overhead, k + 1, j);
    }
  }

  /** Counting on from a position where a piece ends. */
  lemma IndexSplits(s: seq<nat>, overhead: nat, k: nat, x: nat)
    requires k <= |s|
    ensures PieceIndex(s, overhead, Wire(s[..k], overhead) + x) == k + PieceIndex(s[k..], overhead, x)
  {
    var j := PieceIndex(s[k..], overhead, x);
    IndexBounds(s[k..], overhead, x);
    assert s[k..][..j] == s[k..k + j];
    Stretch(s, overhead, k, k + j);
    if j < |s[k..]| {
      assert s[k..][..j + 1] == s[k..k + j + 1];
      Stretch(s, overhead, k, k + j + 1);
    }
    IndexIs(s, overhead, Wire(s[..k], overhead) + x, k + j);
  }

  // Offsets in frames

  /** The position inside the frame that byte `n` of the stream belongs to. */
  function Offset(sizes: seq<nat>, n: nat): nat {
    if sizes == [] || n < sizes[0] then n else Offset(sizes[1..], n - sizes[0])
  }

  lemma {:induction false} OffsetIs(sizes: seq<nat>, k: nat, r: nat)
    requires k <= |sizes| && (k < |sizes| ==> r < sizes[k])
    ensures Offset(sizes, Sum(sizes[..k]) + r) == r
    decreases k
  {
    if k > 0 {
      assert sizes[..k][1..] == sizes[1..][..k - 1];
      OffsetIs(sizes[1..], k - 1, r);
    }
  }

  lemma {:induction false} OffsetGrows(sizes: seq<nat>, n: nat, d: nat)
    ensures Offset(sizes, n + d) <= Offset(sizes, n) + d
    decreases |sizes|, d
  {
    if sizes != [] && n + d >= sizes[0] {
      if n >= sizes[0] {
        OffsetGrows(sizes[1..], n - sizes[0], d);
      } else {
        OffsetBound(sizes[1..], n + d - sizes[0]);
      }
    }
  }

  lemma {:induction false} OffsetBound(sizes: seq<nat>, n: nat)
    ensures Offset(sizes, n) <= n
  {
    if sizes != [] && n >= sizes[0] {
      OffsetBound(sizes[1..], n - sizes[0]);
    }
  }

  // Cutting frames into pieces

  function Cut(size: nat, piece: nat): (s: seq<nat>)
    requires piece > 0
    ensures Positive(s)
    decreases size
  {
    if size == 0 then [] else if size <= piece then [size] else [piece] + Cut(size - piece, piece)
  }

  function Pieces(sizes: seq<nat>, piece: nat): (s: seq<nat>)
    requires piece > 0
    ensures Positive(s)
  {
    if sizes == [] then [] else Cut(sizes[0], piece) + Pieces(sizes[1..], piece)
  }

  lemma {:induction false} CutSum(size: nat, piece: nat)
    requires piece > 0
    ensures Sum(Cut(size, piece)) == size
    decreases size
  {
    if size > piece {
      CutSum(size - piece, piece);
      assert Cut(size, piece)[1..] == Cut(size - piece, piece);
    } else if size > 0 {
      assert [size][1..] == [];
    }
  }

  lemma {:induction false} PiecesSum(sizes: seq<nat>, piece: nat)
    requires piece > 0
    ensures Sum(Pieces(sizes, piece)) == Sum(sizes)
  {
    if sizes != [] {
      PiecesSum(sizes[1..], piece);
      CutSum(sizes[0], piece);
      SumConcat(Cut(sizes[0], piece), Pieces(sizes[1..], piece));
    }
  }

  // The test

  /** The pieces `b` to `m` can come out of one read that begins inside piece `b`. */
  predicate OneReadBrings(pieces: seq<nat>, overhead: nat, limit: nat, b: nat, m: nat) {
    b <= m < |pieces| && 1 + Wire(pieces[b + 1..m + 1], overhead) <= limit
  }

  /** The first `m + 1` pieces can come in one read. */
  predicate FirstReadBrings(pieces: seq<nat>, overhead: nat, limit: nat, m: nat) {
    m < |pieces| && Wire(pieces[..m + 1], overhead) <= limit
  }

  /** Whatever one read can bring fits behind what can stand in the buffer before it:
      the begun frame, or at the very start the `held` bytes. */
  ghost predicate PiecesFit(sizes: seq<nat>, held: nat, pieces: seq<nat>, overhead: nat, limit: nat, capacity: nat) {
    && held <= capacity
    && (forall b: nat, m: nat :: OneReadBrings(pieces, overhead, limit, b, m) ==>
          Offset(sizes, held + Sum(pieces[..b])) + Sum(pieces[b..m + 1]) <= capacity)
    && (forall m: nat :: FirstReadBrings(pieces, overhead, limit, m) ==> held + Sum(pieces[..m + 1]) <= capacity)
  }

  // The test in closed form where frames travel byte by byte

  function Min(a: nat, b: nat): nat {
    if a < b then a else b
  }

  /** All of a frame but its last byte, and a read behind it, or all that is left. */
  predicate BytesFit(sizes: seq<nat>, limit: nat, capacity: nat) {
    forall i :: 0 <= i < |sizes| ==> sizes[i] - 1 + Min(limit, 1 + Sum(sizes[i + 1..])) <= capacity
  }

  predicate Ones(s: seq<nat>) {
    forall i :: 0 <= i < |s| ==> s[i] == 1
  }

  lemma {:induction false} OnesSum(s: seq<nat>)
    requires Ones(s)
    ensures Sum(s) == Wire(s, 0) == |s|
  {
    if s != [] {
      OnesSum(s[1..]);
    }
  }

  lemma {:induction false} CutInBytes(size: nat)
    ensures Ones(Cut(size, 1))
  {
    if size > 1 {
      CutInBytes(size - 1);
    }
  }

  lemma {:induction false} PiecesAreBytes(sizes: seq<nat>)
    ensures Ones(Pieces(sizes, 1)) && |Pieces(sizes, 1)| == Sum(sizes)
  {
    if sizes != [] {
      CutInBytes(sizes[0]);
      PiecesAreBytes(sizes[1..]);
    }
    OnesSum(Pieces(sizes, 1));
    PiecesSum(sizes, 1);
  }

  /** The frame a byte belongs to. */
  lemma {:induction false} Locate(sizes: seq<nat>, n: nat) returns (i: nat)
    requires n < Sum(sizes)
    ensures i < |sizes| && Offset(sizes, n) < sizes[i] && Sum(sizes[..i]) + Offset(sizes, n) == n
    ensures Sum(sizes) == Sum(sizes[..i]) + sizes[i] + Sum(sizes[i + 1..])
  {
    if n < sizes[0] {
      i := 0;
    } else {
      var j := Locate(sizes[1..], n - sizes[0]);
      i := j + 1;
      assert sizes[..i][1..] == sizes[1..][..j];
    }
  }

  lemma SumParts(sizes: seq<nat>, i: nat)
    requires i < |sizes|
    ensures Sum(sizes) == Sum(sizes[..i]) + sizes[i] + Sum(sizes[i + 1..])
  {
    assert sizes == sizes[..i] + ([sizes[i]] + sizes[i + 1..]);
    SumConcat(sizes[..i], [sizes[i]] + sizes[i + 1..]);
    assert ([sizes[i]] + sizes[i + 1..])[1..] == sizes[i + 1..];
  }

  lemma BytesRead(pieces: seq<nat>, limit: nat, b: nat, m: nat)
    requires Ones(pieces) && b <= m < |pieces|
    ensures OneReadBrings(pieces, 0, limit, b, m) <==> 1 + m - b <= limit
    ensures Sum(pieces[..b]) == b && Sum(pieces[b..m + 1]) == m + 1 - b
    ensures FirstReadBrings(pieces, 0, limit, m) <==> m + 1 <= limit
    ensures Sum(pieces[..m + 1]) == m + 1
  {
    OnesSum(pieces[b + 1..m + 1]);
    OnesSum(pieces[..b]);
    OnesSum(pieces[b..m + 1]);
    OnesSum(pieces[..m + 1]);
  }

  lemma ByteFits(sizes: seq<nat>, limit: nat, capacity: nat, b: nat, m: nat)
    requires BytesFit(sizes, limit, capacity) && b <= m < Sum(sizes) && 1 + m - b <= limit
    ensures Offset(sizes, b) + (m + 1 - b) <= capacity
  {
    var i := Locate(sizes, b);
  }

  /** Where the last byte of a frame stands, and what one read brings from there. */
  lemma LastByte(sizes: seq<nat>, limit: nat, i: nat) returns (b: nat, m: nat)
    requires Positive(sizes) && limit >= 1 && i < |sizes|
    ensures b <= m < Sum(sizes) && Offset(sizes, b) == sizes[i] - 1
    ensures m + 1 - b == Min(limit, 1 + Sum(sizes[i + 1..]))
  {
    SumParts(sizes, i);
    OffsetIs(sizes, i, sizes[i] - 1);
    b := Sum(sizes[..i]) + sizes[i] - 1;
    m := b + Min(limit, 1 + Sum(sizes[i + 1..])) - 1;
  }

  lemma FrameTails(sizes: seq<nat>, pieces: seq<nat>, limit: nat, capacity: nat, i: nat)
    requires Positive(sizes) && limit >= 1 && i < |sizes| && Ones(pieces) && |pieces| == Sum(sizes)
    requires PiecesFit(sizes, 0, pieces, 0, limit, capacity)
    ensures sizes[i] - 1 + Min(limit, 1 + Sum(sizes[i + 1..])) <= capacity
  {
    var b, m := LastByte(sizes, limit, i);
    BytesRead(pieces, limit, b, m);
    assert Offset(sizes, 0 + Sum(pieces[..b])) + Sum(pieces[b..m + 1]) <= capacity;
  }

  lemma BytesFitIsTheTest(sizes: seq<nat>, limit: nat, capacity: nat)
    requires Positive(sizes) && 1 <= limit <= capacity
    ensures PiecesFit(sizes, 0, Pieces(sizes, 1), 0, limit, capacity) <==> BytesFit(sizes, limit, capacity)
  {
    var pieces := Pieces(sizes, 1);
    PiecesAreBytes(sizes);
    if BytesFit(sizes, limit, capacity) {
      forall b: nat, m: nat | OneReadBrings(pieces, 0, limit, b, m)
        ensures Offset(sizes, 0 + Sum(pieces[..b])) + Sum(pieces[b..m + 1]) <= capacity
      {
        BytesRead(pieces, limit, b, m);
        ByteFits(sizes, limit, capacity, b, m);
      }
      forall m: nat | FirstReadBrings(pieces, 0, limit, m)
        ensures 0 + Sum(pieces[..m + 1]) <= capacity
      {
        BytesRead(pieces, limit, 0, m);
      }
    }
    if PiecesFit(sizes, 0, pieces, 0, limit, capacity) {
      forall i | 0 <= i < |sizes|
        ensures sizes[i] - 1 + Min(limit, 1 + Sum(sizes[i + 1..])) <= capacity
      {
        FrameTails(sizes, pieces, limit, capacity, i);
      }
    }
  }

  // A simple bound that is enough for every transport

  lemma {:induction false} SumBelowWire(s: seq<nat>, overhead: nat)
    ensures Sum(s) <= Wire(s, overhead)
  {
    if s != [] {
      SumBelowWire(s[1..], overhead);
    }
  }

  /** Behind every frame, and behind what is held, there is room for a piece and a read. */
  predicate SmallFrames(sizes: seq<nat>, held: nat, piece: nat, limit: nat, capacity: nat) {
    held + limit <= capacity && piece + limit <= capacity
    && forall i :: 0 <= i < |sizes| ==> sizes[i] + piece + limit <= capacity
  }

  lemma {:induction false} OffsetIsSmall(sizes: seq<nat>, n: nat, bound: nat)
    requires n <= Sum(sizes) && forall i :: 0 <= i < |sizes| ==> sizes[i] <= bound
    ensures Offset(sizes, n) <= bound
  {
    if sizes != [] && n >= sizes[0] {
      OffsetIsSmall(sizes[1..], n - sizes[0], bound);
    }
  }

  lemma SmallReadFits(sizes: seq<nat>, held: nat, pieces: seq<nat>, piece: nat, overhead: nat, limit: nat, capacity: nat,
                      b: nat, m: nat)
    requires SmallFrames(sizes, held, piece, limit, capacity) && OneReadBrings(pieces, overhead, limit, b, m)
    requires held + Sum(pieces) <= Sum(sizes) && pieces[b] <= piece
    ensures Offset(sizes, held + Sum(pieces[..b])) + Sum(pieces[b..m + 1]) <= capacity
  {
    assert pieces == pieces[..b] + pieces[b..];
    SumConcat(pieces[..b], pieces[b..]);
    OffsetIsSmall(sizes, held + Sum(pieces[..b]), capacity - piece - limit);
    assert pieces[b..m + 1] == [pieces[b]] + pieces[b + 1..m + 1];
    SumBelowWire(pieces[b + 1..m + 1], overhead);
  }

  lemma SmallFramesFit(sizes: seq<nat>, held: nat, pieces: seq<nat>, piece: nat, overhead: nat, limit: nat, capacity: nat)
    requires SmallFrames(sizes, held, piece, limit, capacity)
    requires held + Sum(pieces) <= Sum(sizes) && forall i :: 0 <= i < |pieces| ==> pieces[i] <= piece
    ensures PiecesFit(sizes, held, pieces, overhead, limit, capacity)
  {
    forall b: nat, m: nat | OneReadBrings(pieces, overhead, limit, b, m)
      ensures Offset(sizes, held + Sum(pieces[..b])) + Sum(pieces[b..m + 1]) <= capacity
    {
      SmallReadFits(sizes, held, pieces, piece, overhead, limit, capacity, b, m);
    }
    forall m: nat | FirstReadBrings(pieces, overhead, limit, m)
      ensures held + Sum(pieces[..m + 1]) <= capacity
    {
      SumBelowWire(pieces[..m + 1], overhead);
    }
  }
}
