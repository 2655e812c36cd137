/**
  `das_req_prefetch`: a prefetch range is cut into one request per 4 MiB object.
 */
module Prefetch {

  const SEGMENT_SIZE: nat := 4194304

  const WORD: nat := 0x1_0000_0000

  /** A request for bytes of object `id`, sent to the object whose 32-bit number is `sentTo`. */
  datatype Piece = Piece(id: nat, sentTo: nat, offset: nat, len: nat)

  /** First byte of a piece and the byte after its last, counted over the whole image. */
  function Start(p: Piece): nat { p.id * SEGMENT_SIZE + p.offset }

  function End(p: Piece): nat { Start(p) + p.len }

  predicate Covers(p: Piece, b: nat) { Start(p) <= b < End(p) }

  /** Non-empty pieces, each inside one object, in consecutive objects, meeting end to end. */
  ghost predicate Chained(pieces: seq<Piece>, id: nat, begin: nat, end: nat) {
    && (forall i :: 0 <= i < |pieces| ==>
          && pieces[i].id == id + i && pieces[i].sentTo == (id + i) % WORD
          && 0 < pieces[i].len && pieces[i].offset + pieces[i].len <= SEGMENT_SIZE)
    && (forall i :: 0 < i < |pieces| ==> Start(pieces[i]) == End(pieces[i - 1]))
    && (pieces != [] ==> Start(pieces[0]) == begin && End(pieces[|pieces| - 1]) == end)
    && (pieces == [] ==> begin == end)
  }

  /** One more piece, where the last one ended. */
  lemma ChainedMore(pieces: seq<Piece>, id: nat, begin: nat, end: nat, p: Piece)
    requires Chained(pieces, id, begin, end) && p.id == id + |pieces| && p.sentTo == p.id % WORD
    requires 0 < p.len && p.offset + p.len <= SEGMENT_SIZE && Start(p) == end
    ensures Chained(pieces + [p], id, begin, End(p))
  {
  }

  method DasReqPrefetch(objId: nat, offset: nat, len: nat) returns (pieces: seq<Piece>)
    ensures var begin := objId * SEGMENT_SIZE + offset % SEGMENT_SIZE;
            Chained(pieces, objId, begin, begin + len)
  {
    pieces := [];
    var off, id, left := offset % SEGMENT_SIZE, objId, len;
    ghost var begin := objId * SEGMENT_SIZE + offset % SEGMENT_SIZE;
    while left > 0
      invariant 0 <= left <= len && off < SEGMENT_SIZE && id == objId + |pieces|
      invariant left > 0 ==> id * SEGMENT_SIZE + off == begin + len - left
      invariant pieces != [] && left > 0 ==> off == 0
      invariant Chained(pieces, objId, begin, begin + len - left)
      decreases left
    {
      var most := if SEGMENT_SIZE - off < left then SEGMENT_SIZE - off else left;
      ChainedMore(pieces, objId, begin, begin + len - left, Piece(id, id % WORD, off, most));
      pieces := pieces + [Piece(id, id % WORD, off, most)];
      left := left - most;
      off := 0;
      id := id + 1;
    }
  }

  lemma {:induction false} ChainedPrefix(pieces: seq<Piece>, id: nat, begin: nat, end: nat)
    requires Chained(pieces, id, begin, end) && pieces != []
    ensures begin <= Start(pieces[|pieces| - 1]) < end
    ensures Chained(pieces[..|pieces| - 1], id, begin, Start(pieces[|pieces| - 1]))
  {
    if |pieces| > 1 {
      var init := pieces[..|pieces| - 1];
      assert Chained(init, id, begin, End(init[|init| - 1]));
      ChainedPrefix(init, id, begin, End(init[|init| - 1]));
    }
  }

  /** Every requested byte lies in exactly one piece and no piece covers any other byte. */
  lemma {:induction false} EachByteOnce(pieces: seq<Piece>, id: nat, begin: nat, end: nat, b: nat)
    requires Chained(pieces, id, begin, end)
    ensures begin <= b < end <==> exists i :: 0 <= i < |pieces| && Covers(pieces[i], b)
    ensures forall i, j :: 0 <= i < j < |pieces| ==> !(Covers(pieces[i], b) && Covers(pieces[j], b))
  {
    if pieces != [] {
      var last, init := pieces[|pieces| - 1], pieces[..|pieces| - 1];
      ChainedPrefix(pieces, id, begin, end);
      EachByteOnce(init, id, begin, Start(last), b);
      assert forall i :: 0 <= i < |init| ==> pieces[i] == init[i];
      assert Covers(last, b) ==> !(begin <= b < Start(last));
    }
  }

  /** The number of requests is the number of objects the range touches. */
  lemma {:induction false} PieceCount(pieces: seq<Piece>, id: nat, begin: nat, end: nat)
    requires Chained(pieces, id, begin, end) && begin < end
    ensures |pieces| == (end - 1) / SEGMENT_SIZE - begin / SEGMENT_SIZE + 1
  {
    var first, last := pieces[0], pieces[|pieces| - 1];
    assert begin == id * SEGMENT_SIZE + first.offset && first.offset < SEGMENT_SIZE;
    assert end - 1 == (id + |pieces| - 1) * SEGMENT_SIZE + (last.offset + last.len - 1);
  }

  /** Every piece goes to the object its bytes lie in exactly when no object number reaches 2^32. */
  lemma AddressedIff(pieces: seq<Piece>, id: nat, begin: nat, end: nat)
    requires Chained(pieces, id, begin, end)
    ensures (forall i :: 0 <= i < |pieces| ==> pieces[i].sentTo == pieces[i].id) <==>
            pieces == [] || id + |pieces| <= WORD
  {
    if pieces != [] {
      var last := |pieces| - 1;
      assert pieces[last].sentTo == (id + last) % WORD;
      if id + |pieces| <= WORD {
        forall i | 0 <= i < |pieces|
          ensures pieces[i].sentTo == pieces[i].id
        {
          Fits(id + i);
        }
      } else {
        Fits(id + last);
      }
    }
  }

  lemma Fits(n: nat)
    ensures n % WORD == n <==> n < WORD
  {
  }
}
