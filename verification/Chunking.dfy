/** Cutting decoded key bytes at character boundaries: `chunk_len` in src/pending_input.rs. */
module Chunking {
  import opened Utf8

  /** The last index at or below `i` that does not continue a character, or 0. */
  function BackToStart(data: seq<Byte>, i: nat): (r: nat)
    requires i < |data|
    ensures r <= i && (r > 0 ==> !IsContinuation(data[r]))
    ensures forall j | r < j <= i :: IsContinuation(data[j])
  {
    if i > 0 && IsContinuation(data[i]) then BackToStart(data, i - 1) else i
  }

  /** The first index at or above `i` that does not continue a character, or the end. */
  function OnToStart(data: seq<Byte>, i: nat): (r: nat)
    requires i <= |data|
    ensures i <= r <= |data| && (r < |data| ==> !IsContinuation(data[r]))
    ensures forall j | i <= j < r :: IsContinuation(data[j])
    decreases |data| - i
  {
    if i < |data| && IsContinuation(data[i]) then OnToStart(data, i + 1) else i
  }

  function ChunkEnd(data: seq<Byte>, limit: nat): nat {
    if limit == 0 || |data| <= limit then |data|
    else if BackToStart(data, limit) == 0 then OnToStart(data, limit)
    else BackToStart(data, limit)
  }

  method ChunkLen(data: seq<Byte>, limit: nat) returns (end: nat)
    ensures end == ChunkEnd(data, limit)
  {
    if limit == 0 || |data| <= limit {
      return |data|;
    }
    end := limit;
    while end > 0 && IsContinuation(data[end])
      invariant end <= limit && BackToStart(data, end) == BackToStart(data, limit)
    {
      end := end - 1;
    }
    if end == 0 {
      end := limit;
      while end < |data| && IsContinuation(data[end])
        invariant limit <= end <= |data| && OnToStart(data, end) == OnToStart(data, limit)
      {
        end := end + 1;
      }
    }
  }

  /** Arbitrary bytes: every chunk makes progress and stops at a character boundary. */
  lemma ChunkProgresses(data: seq<Byte>, limit: nat)
    ensures ChunkEnd(data, limit) <= |data|
    ensures data != [] ==> ChunkEnd(data, limit) > 0
    ensures IsBoundary(data, ChunkEnd(data, limit))
  {
  }

  /** A chunk is as long as the limit allows: no later boundary lies within the limit, and one beyond the limit is the
      first boundary there is. With limit 0, or data within the limit, it is everything. */
  lemma ChunkIsLongest(data: seq<Byte>, limit: nat)
    ensures limit == 0 || |data| <= limit ==> ChunkEnd(data, limit) == |data|
    ensures limit > 0 ==>
              && (forall b | ChunkEnd(data, limit) < b <= |data| && IsBoundary(data, b) :: b > limit)
              && (ChunkEnd(data, limit) > limit ==> forall b | 0 < b < ChunkEnd(data, limit) :: !IsBoundary(data, b))
  {
  }

  lemma ChunkIsOfTail(data: seq<Byte>, c: nat, limit: nat)
    requires c <= |data|
    ensures c + ChunkEnd(data[c..], limit) <= |data|
    ensures c < |data| ==> c < c + ChunkEnd(data[c..], limit)
    ensures ChunkEnd(data[c..], limit) > 0 ==> IsBoundary(data, c + ChunkEnd(data[c..], limit))
  {
    ChunkProgresses(data[c..], limit);
  }

  /** Valid UTF-8: a chunk is within the limit, or it is one whole character longer than the limit. */
  lemma ChunkWithinLimit(s: seq<Scalar>, limit: nat)
    requires s != [] && limit > 0
    ensures var end := ChunkEnd(Encode(s), limit);
            end <= limit || end == |EncodeScalar(s[0])|
  {
    var data, head := Encode(s), |EncodeScalar(s[0])|;
    if |data| > limit && BackToStart(data, limit) == 0 {
      BoundaryIsScalarEdge(s, head);
      assert s[..1] == [s[0]] && Encode([s[0]]) == EncodeScalar(s[0]) + Encode([s[0]][1..]);
      assert head == |Encode(s[..1])|;
      assert IsBoundary(data, head);
      assert head > limit;
      forall j | limit <= j < head
        ensures IsContinuation(data[j])
      {
        assert data[j] == EncodeScalar(s[0])[j];
      }
    }
  }

  /** From any character boundary of valid UTF-8, the next chunk carries at most `max(limit, 4)` bytes. */
  lemma ChunkSize(s: seq<Scalar>, c: nat, limit: nat)
    requires limit > 0 && c <= |Encode(s)| && IsBoundary(Encode(s), c)
    ensures ChunkEnd(Encode(s)[c..], limit) <= (if limit > 4 then limit else 4)
  {
    BoundaryIsScalarEdge(s, c);
    var k :| 0 <= k <= |s| && c == |Encode(s[..k])|;
    assert s == s[..k] + s[k..];
    EncodeConcat(s[..k], s[k..]);
    assert Encode(s)[c..] == Encode(s[k..]);
    if s[k..] != [] {
      ChunkWithinLimit(s[k..], limit);
    }
  }

  // ----- the cuts of a whole message

  /** Steps that lead from every place short of the end to a later one, up to the end. */
  ghost predicate Advances(next: nat -> nat, size: nat) {
    forall s: nat | s < size :: s < next(s) <= size
  }

  /** The first place after `offset` on the way from `start`. */
  ghost function PlaceAfter(next: nat -> nat, size: nat, start: nat, offset: nat): (end: nat)
    requires Advances(next, size) && start <= offset < size
    ensures offset < end <= size
    decreases size - start
  {
    if offset < next(start) then next(start) else PlaceAfter(next, size, next(start), offset)
  }

  lemma {:induction false} PlaceAfterHolds(next: nat -> nat, size: nat, start: nat, offset: nat, further: nat)
    requires Advances(next, size) && start <= offset <= further < size
    requires further < PlaceAfter(next, size, start, offset)
    ensures PlaceAfter(next, size, start, further) == PlaceAfter(next, size, start, offset)
    decreases size - start
  {
    if offset >= next(start) {
      PlaceAfterHolds(next, size, next(start), offset, further);
    }
  }

  lemma {:induction false} PlaceAfterPlace(next: nat -> nat, size: nat, start: nat, offset: nat)
    requires Advances(next, size) && start <= offset < size && PlaceAfter(next, size, start, offset) < size
    ensures var place := PlaceAfter(next, size, start, offset);
            PlaceAfter(next, size, start, place) == next(place)
    decreases size - start
  {
    if offset >= next(start) {
      PlaceAfterPlace(next, size, next(start), offset);
    }
  }

  function ChunksOf(data: seq<Byte>, limit: nat): nat -> nat {
    (s: nat) => if s <= |data| then s + ChunkEnd(data[s..], limit) else s
  }

  lemma ChunksAdvance(data: seq<Byte>, limit: nat)
    ensures Advances(ChunksOf(data, limit), |data|)
  {
    forall s: nat | s < |data|
      ensures s < ChunksOf(data, limit)(s) <= |data|
    {
      ChunkIsOfTail(data, s, limit);
    }
  }

  /** The first cut after `offset` when `data` is cut up from its beginning. */
  ghost function CutAfter(data: seq<Byte>, offset: nat, limit: nat): (end: nat)
    requires offset < |data|
    ensures offset < end <= |data|
  {
    ChunksAdvance(data, limit);
    PlaceAfter(ChunksOf(data, limit), |data|, 0, offset)
  }

  /** Moving on within the data moves the cut exactly when it is reached, by one chunk. */
  lemma NextCut(data: seq<Byte>, offset: nat, further: nat, limit: nat)
    requires offset <= further < |data| && further <= CutAfter(data, offset, limit)
    ensures var cut := CutAfter(data, offset, limit);
            CutAfter(data, further, limit) == if further < cut then cut else cut + ChunkEnd(data[cut..], limit)
  {
    ChunksAdvance(data, limit);
    if further < CutAfter(data, offset, limit) {
      PlaceAfterHolds(ChunksOf(data, limit), |data|, 0, offset, further);
    } else {
      PlaceAfterPlace(ChunksOf(data, limit), |data|, 0, offset);
    }
  }

  /** The first cut is the first chunk's end. */
  lemma FirstCut(data: seq<Byte>, limit: nat)
    requires data != []
    ensures CutAfter(data, 0, limit) == ChunkEnd(data, limit)
  {
    ChunksAdvance(data, limit);
    assert data[0..] == data;
  }

  /** The whole message cut up as the writer cuts it. */
  function Pieces(data: seq<Byte>, limit: nat): seq<seq<Byte>>
    decreases |data|
  {
    ChunkProgresses(data, limit);
    if data == [] then []
    else
      var end := ChunkEnd(data, limit);
      [data[..end]] + Pieces(data[end..], limit)
  }

  function Joined(pieces: seq<seq<Byte>>): seq<Byte> {
    if pieces == [] then [] else pieces[0] + Joined(pieces[1..])
  }

  /** The chunks of arbitrary bytes join up to those bytes again. */
  lemma {:induction false} PiecesJoin(data: seq<Byte>, limit: nat)
    ensures Joined(Pieces(data, limit)) == data
    decreases |data|
  {
    ChunkProgresses(data, limit);
    if data != [] {
      var end := ChunkEnd(data, limit);
      PiecesJoin(data[end..], limit);
      assert Pieces(data, limit)[1..] == Pieces(data[end..], limit);
      assert data == data[..end] + data[end..];
    }
  }

  /** On valid UTF-8 every chunk is a whole number of characters, within the limit or a single character. */
  ghost predicate WholeCharacters(piece: seq<Byte>, limit: nat) {
    exists t: seq<Scalar> :: t != [] && piece == Encode(t) && (limit == 0 || |piece| <= limit || |t| == 1)
  }

  lemma {:induction false} PiecesAreWholeCharacters(s: seq<Scalar>, limit: nat)
    ensures forall p | p in Pieces(Encode(s), limit) :: WholeCharacters(p, limit)
    decreases |s|
  {
    var data := Encode(s);
    EncodeIsEmpty(s);
    if s != [] {
      var k := FirstPiece(s, limit);
      PiecesAreWholeCharacters(s[k..], limit);
      ChunkProgresses(data, limit);
      assert Pieces(data, limit) == [data[..ChunkEnd(data, limit)]] + Pieces(data[ChunkEnd(data, limit)..], limit);
    }
  }

  lemma FirstPiece(s: seq<Scalar>, limit: nat) returns (k: nat)
    requires s != []
    ensures 0 < k <= |s|
    ensures var data, end := Encode(s), ChunkEnd(Encode(s), limit);
            && end <= |data| && data[..end] == Encode(s[..k]) && data[end..] == Encode(s[k..])
            && WholeCharacters(data[..end], limit)
  {
    var end := ChunkEnd(Encode(s), limit);
    EncodeIsEmpty(s);
    ChunkProgresses(Encode(s), limit);
    k := ScalarEdge(s, end);
    if limit > 0 && end > limit {
      ChunkWithinLimit(s, limit);
      FirstScalarAlone(s, k);
    }
  }

  lemma ScalarEdge(s: seq<Scalar>, end: nat) returns (k: nat)
    requires 0 < end <= |Encode(s)| && IsBoundary(Encode(s), end)
    ensures 0 < k <= |s| && |Encode(s[..k])| == end
    ensures Encode(s)[..end] == Encode(s[..k]) && Encode(s)[end..] == Encode(s[k..])
  {
    BoundaryIsScalarEdge(s, end);
    k :| 0 <= k <= |s| && end == |Encode(s[..k])|;
    EncodeIsEmpty(s[..k]);
    assert s == s[..k] + s[k..];
    EncodeConcat(s[..k], s[k..]);
  }

  lemma FirstScalarAlone(s: seq<Scalar>, k: nat)
    requires 0 < k <= |s| && |Encode(s[..k])| == |EncodeScalar(s[0])|
    ensures k == 1
  {
    assert s[..k][1..] == s[1..k];
    EncodeIsEmpty(s[1..k]);
  }
}
