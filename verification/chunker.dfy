/** Cutting a long novel into pieces small enough to summarise one request
    at a time (services/geminiService.ts, splitTextIntoChunks). */
module Chunker {
  import opened JsText

  /** Characters per piece. */
  const CHUNK_SIZE: nat := 100000
  /** Pieces kept; anything after the first MAX_CHUNKS pieces is dropped. */
  const MAX_CHUNKS: nat := 20

  /** The number of pieces of size `d` needed to cover `n` characters. */
  function CeilDiv(n: nat, d: nat): nat
    requires d > 0
  {
    (n + d - 1) / d
  }

  /** Reference definition of the uncapped cut: piece `k` is the text from
      `k * CHUNK_SIZE` on, at most CHUNK_SIZE characters, for every `k` whose
      start lies inside the text. */
  function AllChunks(text: string): seq<string>
  {
    seq(CeilDiv(|text|, CHUNK_SIZE),
        k => Slice(text, k * CHUNK_SIZE, k * CHUNK_SIZE + CHUNK_SIZE))
  }

  /** Reference definition of what the chunker returns: the first MAX_CHUNKS
      pieces of the uncapped cut. */
  function Chunks(text: string): seq<string>
  {
    var all := AllChunks(text);
    all[..Min(|all|, MAX_CHUNKS)]
  }

  /** The chunker as the program writes it: a loop stepping `i` by CHUNK_SIZE
      while `i` is inside the text, pushing `text.slice(i, i + CHUNK_SIZE)`,
      then keeping the first MAX_CHUNKS pieces. */
  method SplitTextIntoChunks(text: string) returns (chunks: seq<string>)
    ensures chunks == Chunks(text)
  {
    var all: seq<string> := [];
    var i := 0;
    while i < |text|
      invariant i == |all| * CHUNK_SIZE
      invariant |all| == 0 || (|all| - 1) * CHUNK_SIZE < |text|
      invariant forall k :: 0 <= k < |all| ==>
        all[k] == Slice(text, k * CHUNK_SIZE, k * CHUNK_SIZE + CHUNK_SIZE)
    {
      all := all + [Slice(text, i, i + CHUNK_SIZE)];
      i := i + CHUNK_SIZE;
    }
    CoverCount(|text|, |all|);
    chunks := all[..Min(|all|, MAX_CHUNKS)];
  }

  /** `m` pieces whose last one starts inside the text and which reach its
      end are exactly the `CeilDiv` pieces the reference definition uses. */
  lemma CoverCount(n: nat, m: nat)
    requires n <= m * CHUNK_SIZE
    requires m == 0 || (m - 1) * CHUNK_SIZE < n
    ensures m == CeilDiv(n, CHUNK_SIZE)
  {
  }

  /** Every piece of the uncapped cut starts inside the text. */
  lemma PieceStartsInside(n: nat, k: nat)
    requires k < CeilDiv(n, CHUNK_SIZE)
    ensures k * CHUNK_SIZE < n
  {
  }

  /** The text is empty exactly when there is no piece. */
  lemma EmptyIffNoChunks(text: string)
    ensures |Chunks(text)| == Min(CeilDiv(|text|, CHUNK_SIZE), MAX_CHUNKS)
    ensures |text| == 0 <==> Chunks(text) == []
  {
    if |text| > 0 {
      assert CeilDiv(|text|, CHUNK_SIZE) >= 1;
    }
  }

  /** Every piece but the last holds exactly CHUNK_SIZE characters, and the
      last holds between 1 and CHUNK_SIZE. */
  lemma ChunkSizes(text: string)
    ensures var chunks := Chunks(text);
      forall k :: 0 <= k < |chunks| - 1 ==> |chunks[k]| == CHUNK_SIZE
    ensures var chunks := Chunks(text);
      |chunks| > 0 ==> 1 <= |chunks[|chunks| - 1]| <= CHUNK_SIZE
  {
    var n := |text|;
    var chunks := Chunks(text);
    forall k | 0 <= k < |chunks|
      ensures 1 <= |chunks[k]| <= CHUNK_SIZE
      ensures k < |chunks| - 1 ==> |chunks[k]| == CHUNK_SIZE
    {
      PieceStartsInside(n, k);
      if k < |chunks| - 1 {
        PieceStartsInside(n, k + 1);
      }
    }
  }

  /** Piece `k` of the uncapped cut is the text between `k * CHUNK_SIZE`
      and the next multiple, or the end of the text. */
  lemma PieceIs(text: string, k: nat)
    requires k < |AllChunks(text)|
    ensures k * CHUNK_SIZE < |text|
    ensures AllChunks(text)[k] == text[k * CHUNK_SIZE..Min(k * CHUNK_SIZE + CHUNK_SIZE, |text|)]
  {
    PieceStartsInside(|text|, k);
  }

  /** Putting back one more piece extends the concatenation by that piece. */
  lemma FlattenPrefix(parts: seq<string>, m: nat)
    requires 0 < m <= |parts|
    ensures Flatten(parts[..m]) == Flatten(parts[..m - 1]) + parts[m - 1]
  {
    assert parts[..m][..m - 1] == parts[..m - 1];
  }

  /** The first `m` pieces of the uncapped cut, put back together, are the
      first `m * CHUNK_SIZE` characters of the text (or all of it). */
  lemma {:induction false} AllChunksPrefix(text: string, m: nat)
    requires m <= |AllChunks(text)|
    ensures Flatten(AllChunks(text)[..m]) == text[..Min(m * CHUNK_SIZE, |text|)]
  {
    if m > 0 {
      var all := AllChunks(text);
      AllChunksPrefix(text, m - 1);
      PieceIs(text, m - 1);
      FlattenPrefix(all, m);
      var lo := (m - 1) * CHUNK_SIZE;
      var hi := Min(m * CHUNK_SIZE, |text|);
      assert lo + CHUNK_SIZE == m * CHUNK_SIZE;
      assert text[..lo] + text[lo..hi] == text[..hi];
    }
  }

  /** Without the cap, the pieces put back together are the whole text. */
  lemma AllChunksConcat(text: string)
    ensures Flatten(AllChunks(text)) == text
  {
    var all := AllChunks(text);
    AllChunksPrefix(text, |all|);
    assert all[..|all|] == all;
    assert |text| <= |all| * CHUNK_SIZE;
  }

  /** With the cap, the pieces put back together are the longest prefix of
      the text that MAX_CHUNKS pieces can hold: whatever lies beyond
      MAX_CHUNKS * CHUNK_SIZE characters is dropped. */
  lemma ChunksConcat(text: string)
    ensures Flatten(Chunks(text)) == text[..Min(|text|, MAX_CHUNKS * CHUNK_SIZE)]
  {
    var all := AllChunks(text);
    var m := Min(|all|, MAX_CHUNKS);
    AllChunksPrefix(text, m);
    if m < |all| {
      assert m == MAX_CHUNKS;
      PieceStartsInside(|text|, m);
    } else {
      assert |text| <= |all| * CHUNK_SIZE;
    }
  }
}
