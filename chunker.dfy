/**
 * `compute_text_chunks`, shared verbatim by both RAG variants: overlapping windows of
 * `size` characters whose starts advance by `size - overlap`, each with a "unique" sub-range
 * meant to tile the text when the unique parts are concatenated in order.
 */
module Chunker {
  import opened Wrappers
  import opened Strings

  /** `((start, end), (start_unique, end_unique), text)` of one chunk. */
  datatype Chunk = Chunk(start: int, end: int, uniqueStart: int, uniqueEnd: int, text: string)

  /** `range(...)` raises `ValueError` when its step is zero, i.e. when `size == overlap`. */
  datatype ChunkError = ZeroStep

  /** The configured defaults (`CHUNK_SIZE`, `CHUNK_OVERLAP_SIZE`). */
  const CHUNK_SIZE: nat := 512
  const CHUNK_OVERLAP_SIZE: nat := 128

  /** `single_side_overlap_size = (overlap + 1) // 2`, i.e. the overlap halved, rounded up. */
  function HalfOverlap(overlap: nat): (h: nat)
    ensures 2 * h == overlap || 2 * h == overlap + 1
  {
    (overlap + 1) / 2
  }

  /** `len(range(lo, hi, step))` */
  function RangeLength(lo: int, hi: int, step: int): nat
    requires step != 0
  {
    if step > 0 then (if lo < hi then (hi - lo + step - 1) / step else 0)
    else (if hi < lo then (lo - hi - step - 1) / (-step) else 0)
  }

  /** A positive-step range stops at the first element that reaches `hi`. */
  lemma RangeLengthBounds(lo: int, hi: int, step: int)
    requires step > 0
    ensures lo + RangeLength(lo, hi, step) * step >= hi
    ensures RangeLength(lo, hi, step) > 0 ==> lo + (RangeLength(lo, hi, step) - 1) * step < hi
  {
    if lo < hi {
      var d := hi - lo + step - 1;
      var q, r := d / step, d % step;
      assert d == q * step + r && 0 <= r < step;
      assert (q - 1) * step == q * step - step;
    }
  }

  /** The chunk that the `k`-th iteration of the loop appends. */
  function ChunkAt(text: string, size: nat, overlap: nat, k: nat): Chunk {
    var start := k * (size - overlap);
    var end := start + size;
    var piece := PySlice(text, start, end);
    Chunk(start, end, 0, if end >= |text| then |piece| else |piece| - 2 * HalfOverlap(overlap), piece)
  }

  /** Number of chunks of a text that is at least as long as the overlap. */
  function ChunkCount(n: nat, size: nat, overlap: nat): nat
    requires size != overlap
  {
    RangeLength(HalfOverlap(overlap), n, size - overlap)
  }

  /** What `compute_text_chunks(text, size, overlap)` returns, chunk by chunk. */
  function TextChunks(text: string, size: nat, overlap: nat): Result<seq<Chunk>, ChunkError> {
    if |text| < overlap then Success([Chunk(0, |text|, 0, |text|, text)])
    else if size == overlap then Failure(ZeroStep)
    else Success(seq(ChunkCount(|text|, size, overlap), k requires 0 <= k => ChunkAt(text, size, overlap, k)))
  }

  /** The loop of `compute_text_chunks`, appending one chunk per value of `idx`. */
  method ComputeTextChunks(text: string, size: nat, overlap: nat) returns (r: Result<seq<Chunk>, ChunkError>)
    ensures r == TextChunks(text, size, overlap)
  {
    var chunks: seq<Chunk> := [];
    var half := (overlap + 1) / 2;
    if |text| < overlap {
      chunks := chunks + [Chunk(0, |text|, 0, |text|, text)];
      assert chunks == [Chunk(0, |text|, 0, |text|, text)];
      return Success(chunks);
    }
    var step := size - overlap;
    if step == 0 {
      return Failure(ZeroStep);
    }
    // With a negative step, range(half, |text|, step) is empty because half <= overlap <= |text|.
    if step > 0 {
      var idx := half;
      while idx < |text|
        invariant idx == half + |chunks| * step
        invariant |chunks| > 0 ==> idx - step < |text|
        invariant forall k :: 0 <= k < |chunks| ==> chunks[k] == ChunkAt(text, size, overlap, k)
        decreases |text| - idx
      {
        var start := idx - half;
        var end := idx + size - half;
        NextChunk(text, size, overlap, |chunks|, idx);
        var piece := text[start..if end < |text| then end else |text|];
        var uniqueEnd := |piece| - half * 2;
        if end >= |text| {
          uniqueEnd := |piece|;
        }
        assert (|chunks| + 1) * step == |chunks| * step + step;
        chunks := chunks + [Chunk(start, end, 0, uniqueEnd, piece)];
        idx := idx + step;
      }
      LoopCount(half, |text|, step, |chunks|, idx);
    }
    ChunksMatchSpec(text, size, overlap, chunks);
    return Success(chunks);
  }

  lemma ChunksMatchSpec(text: string, size: nat, overlap: nat, chunks: seq<Chunk>)
    requires |text| >= overlap && size != overlap
    requires |chunks| == ChunkCount(|text|, size, overlap)
    requires forall k :: 0 <= k < |chunks| ==> chunks[k] == ChunkAt(text, size, overlap, k)
    ensures TextChunks(text, size, overlap) == Success(chunks)
  {
    var expected := seq(ChunkCount(|text|, size, overlap), k requires 0 <= k => ChunkAt(text, size, overlap, k));
    assert |expected| == |chunks|;
    assert forall k :: 0 <= k < |chunks| ==> chunks[k] == expected[k];
    assert chunks == expected;
  }

  /** The chunk built from `idx = half + k * step` is `ChunkAt(..., k)`. */
  lemma NextChunk(text: string, size: nat, overlap: nat, k: nat, idx: int)
    requires size > overlap
    requires idx == HalfOverlap(overlap) + k * (size - overlap) && idx < |text|
    ensures var h := HalfOverlap(overlap);
      var start, end := idx - h, idx + size - h;
      && 0 <= start <= |text|
      && var piece := text[start..if end < |text| then end else |text|];
      ChunkAt(text, size, overlap, k)
      == Chunk(start, end, 0, if end >= |text| then |piece| else |piece| - 2 * h, piece)
  {
    var h := HalfOverlap(overlap);
    MulMonotone(0, k, size - overlap);
    PySliceFrom(text, idx - h, idx + size - h);
  }

  /** On exit the loop has run `len(range(half, |text|, step))` times. */
  lemma LoopCount(half: nat, n: nat, step: int, k: nat, idx: int)
    requires step > 0 && idx == half + k * step && idx >= n
    requires k > 0 ==> idx - step < n
    requires k == 0 ==> half >= n
    ensures RangeLength(half, n, step) == k
  {
    if k > 0 {
      assert (k - 1) * step == k * step - step;
    }
    ChunkCountUnique(half, n, step, k);
  }

  /** The loop stops after exactly `len(range(...))` iterations. */
  lemma ChunkCountUnique(lo: int, hi: int, step: int, k: nat)
    requires step > 0
    requires lo + k * step >= hi
    requires k > 0 ==> lo + (k - 1) * step < hi
    requires k == 0 ==> lo >= hi
    ensures RangeLength(lo, hi, step) == k
  {
    RangeLengthBounds(lo, hi, step);
    var n := RangeLength(lo, hi, step);
    MulMonotone(n, k as int - 1, step);
    MulMonotone(k, n as int - 1, step);
  }

  lemma MulMonotone(a: int, b: int, c: nat)
    ensures a <= b ==> a * c <= b * c
  {
  }
}

module ChunkerProperties {
  import opened Wrappers
  import opened Strings
  import opened Chunker

  /** `chunk[start_unique:end_unique]` */
  function UniquePart(c: Chunk): string {
    PySlice(c.text, c.uniqueStart, c.uniqueEnd)
  }

  /** The unique parts concatenated in chunk order, which the docstring says rebuilds the text. */
  function Rebuild(cs: seq<Chunk>): string
    decreases |cs|
  {
    if cs == [] then "" else Rebuild(cs[..|cs| - 1]) + UniquePart(cs[|cs| - 1])
  }

  /** The chunk before the last already reaches the end of the text. */
  predicate RedundantTrailingChunk(cs: seq<Chunk>, n: int) {
    |cs| >= 2 && cs[|cs| - 2].end >= n
  }

  /**
   * The outcomes by case: one whole-text chunk for a text shorter than the overlap, an error
   * for a zero step, no chunk for a negative step, and otherwise `len(range(half, n, step))`
   * chunks, where the range stops at the first cursor that reaches the end of the text.
   */
  lemma ChunkCountCases(text: string, size: nat, overlap: nat)
    ensures |text| < overlap ==> TextChunks(text, size, overlap) == Success([Chunk(0, |text|, 0, |text|, text)])
    ensures |text| >= overlap && size == overlap ==> TextChunks(text, size, overlap) == Failure(ZeroStep)
    ensures |text| >= overlap && size < overlap ==> TextChunks(text, size, overlap) == Success([])
    ensures overlap == |text| == 1 && size != 1 ==> TextChunks(text, size, overlap) == Success([])
    ensures |text| >= overlap && size > overlap ==>
      var h, step := HalfOverlap(overlap), size - overlap;
      var k := |TextChunks(text, size, overlap).value|;
      && TextChunks(text, size, overlap).Success?
      && h + k * step >= |text|
      && (k > 0 ==> h + (k - 1) * step < |text|)
  {
    if |text| >= overlap && size > overlap {
      RangeLengthBounds(HalfOverlap(overlap), |text|, size - overlap);
    }
  }

  /**
   * Chunk `k` covers `[k * step, k * step + size)`, an end that is not clamped to the text, holds
   * `text[start:min(end, n)]`, and has unique range `(0, len - 2 * half)`, or `(0, len)` once its
   * end reaches the end of the text.
   */
  lemma ChunkLayout(text: string, size: nat, overlap: nat, k: nat)
    requires size > overlap && |text| >= overlap
    requires k < |TextChunks(text, size, overlap).value|
    ensures var c, n, h := TextChunks(text, size, overlap).value[k], |text|, HalfOverlap(overlap);
      && c.start == k * (size - overlap)
      && 0 <= c.start < n
      && c.end == c.start + size
      && c.text == text[c.start..if c.end < n then c.end else n]
      && c.uniqueStart == 0
      && (c.end < n ==> |c.text| == size && c.uniqueEnd == size - 2 * h)
      && (c.end >= n ==> c.uniqueEnd == |c.text| == n - c.start)
      && 0 <= c.uniqueEnd <= |c.text|
  {
    var step, h := size - overlap, HalfOverlap(overlap);
    var count := ChunkCount(|text|, size, overlap);
    RangeLengthBounds(h, |text|, step);
    MulMonotone(k, count - 1, step);
    MulMonotone(0, k, step);
    PySliceFrom(text, k * step, k * step + size);
  }

  /** Chunk ends strictly increase. */
  lemma EndsIncrease(text: string, size: nat, overlap: nat, i: nat, j: nat)
    requires size > overlap && |text| >= overlap
    requires i < j < |TextChunks(text, size, overlap).value|
    ensures TextChunks(text, size, overlap).value[i].end < TextChunks(text, size, overlap).value[j].end
  {
    MulMonotone(i + 1, j, size - overlap);
    assert (i + 1) * (size - overlap) == i * (size - overlap) + (size - overlap);
  }

  /** The last chunk always reaches the end of the text, so its unique range is the whole chunk. */
  lemma LastChunkAbsorbsOverlap(text: string, size: nat, overlap: nat)
    requires size > overlap && |text| >= overlap
    requires |TextChunks(text, size, overlap).value| > 0
    ensures var cs := TextChunks(text, size, overlap).value;
      cs[|cs| - 1].end >= |text| && cs[|cs| - 1].uniqueEnd == |cs[|cs| - 1].text|
  {
    var cs := TextChunks(text, size, overlap).value;
    var k := |cs|;
    LastStartReaches(HalfOverlap(overlap), |text|, size - overlap, k - 1);
    ChunkLayout(text, size, overlap, k - 1);
  }

  /** The last element of `range(lo, hi, step)` is less than a step short of `hi`. */
  lemma LastStartReaches(lo: nat, hi: nat, step: nat, last: nat)
    requires step > 0 && last + 1 == RangeLength(lo, hi, step)
    ensures lo + last * step + step >= hi
  {
    RangeLengthBounds(lo, hi, step);
    assert (last + 1) * step == last * step + step;
  }

  /**
   * What is known of one chunk without its index: it starts inside the text (with room for the
   * half overlap), spans `size` characters, holds the text it covers, and its unique range is
   * `(0, size - 2 * h)` or, once it reaches the end of the text, the whole chunk.
   */
  predicate Shaped(c: Chunk, text: string, size: nat, h: nat) {
    && 0 <= c.start && c.start + h < |text|
    && c.end == c.start + size
    && c.text == text[c.start..if c.end < |text| then c.end else |text|]
    && c.uniqueStart == 0
    && (c.end < |text| ==> c.uniqueEnd == size - 2 * h)
    && (c.end >= |text| ==> c.uniqueEnd == |c.text|)
  }

  /** The chunks as the loop lays them out: starts `step` apart from 0, the last reaching the end. */
  predicate Tiling(cs: seq<Chunk>, text: string, size: nat, h: nat, step: nat) {
    && size >= 2 * h
    && (forall k :: 0 <= k < |cs| ==> Shaped(cs[k], text, size, h))
    && (|cs| > 0 ==> cs[0].start == 0 && cs[|cs| - 1].end >= |text|)
    && (forall k :: 1 <= k < |cs| ==> cs[k].start == cs[k - 1].start + step)
  }

  /** Each chunk of a text at least as long as the overlap is shaped as its start says. */
  lemma ChunkShaped(text: string, size: nat, overlap: nat, k: nat)
    requires size > overlap && |text| >= overlap
    requires k < |TextChunks(text, size, overlap).value|
    ensures Shaped(TextChunks(text, size, overlap).value[k], text, size, HalfOverlap(overlap))
  {
    var step, h := size - overlap, HalfOverlap(overlap);
    var n := |TextChunks(text, size, overlap).value|;
    ChunkLayout(text, size, overlap, k);
    RangeLengthBounds(h, |text|, step);
    MulMonotone(k, n - 1, step);
  }

  /** Consecutive chunks start one step apart. */
  lemma ChunkStep(text: string, size: nat, overlap: nat, k: nat)
    requires size > overlap && |text| >= overlap
    requires 1 <= k < |TextChunks(text, size, overlap).value|
    ensures var cs := TextChunks(text, size, overlap).value;
      cs[k].start == cs[k - 1].start + (size - overlap)
  {
    var step := size - overlap;
    ChunkLayout(text, size, overlap, k - 1);
    ChunkLayout(text, size, overlap, k);
    assert k * step == (k - 1) * step + step;
  }

  /** The chunks of a text at least as long as the overlap are laid out as a tiling. */
  lemma ChunksTile(text: string, size: nat, overlap: nat)
    requires size > overlap && |text| >= overlap
    ensures Tiling(TextChunks(text, size, overlap).value, text, size, HalfOverlap(overlap), size - overlap)
  {
    var cs, step, h := TextChunks(text, size, overlap).value, size - overlap, HalfOverlap(overlap);
    forall k | 0 <= k < |cs| ensures Shaped(cs[k], text, size, h) {
      ChunkShaped(text, size, overlap, k);
    }
    forall k | 1 <= k < |cs| ensures cs[k].start == cs[k - 1].start + step {
      ChunkStep(text, size, overlap, k);
    }
    if |cs| > 0 {
      ChunkLayout(text, size, overlap, 0);
      LastChunkAbsorbsOverlap(text, size, overlap);
    }
  }

  /** Starts increase by at least a step from one chunk to any later one. */
  lemma {:induction false} StartsIncrease(cs: seq<Chunk>, text: string, size: nat, h: nat, step: nat, i: nat, j: nat)
    requires Tiling(cs, text, size, h, step)
    requires i < j < |cs|
    ensures cs[i].start + step <= cs[j].start
    decreases j - i
  {
    if i + 1 < j {
      StartsIncrease(cs, text, size, h, step, i, j - 1);
    }
  }

  /** The unique part of a chunk that stops before the end of the text. */
  lemma InnerPart(c: Chunk, text: string, size: nat, h: nat)
    requires Shaped(c, text, size, h) && size >= 2 * h && c.end < |text|
    ensures UniquePart(c) == text[c.start..c.start + size - 2 * h]
  {
    PySliceFrom(c.text, 0, c.uniqueEnd);
  }

  /** The unique part of a chunk that reaches the end of the text is the rest of the text. */
  lemma OuterPart(c: Chunk, text: string, size: nat, h: nat)
    requires Shaped(c, text, size, h) && c.end >= |text|
    ensures UniquePart(c) == text[c.start..]
  {
    PySliceFrom(c.text, 0, c.uniqueEnd);
    assert c.text[..c.uniqueEnd] == c.text;
  }

  lemma RebuildAppend(cs: seq<Chunk>, m: nat)
    requires 0 < m <= |cs|
    ensures Rebuild(cs[..m]) == Rebuild(cs[..m - 1]) + UniquePart(cs[m - 1])
  {
    assert cs[..m][..m - 1] == cs[..m - 1];
  }

  /** The rebuilt text is the rebuilt text of all chunks but the last, then the last unique part. */
  lemma RebuildSplitLast(cs: seq<Chunk>)
    requires |cs| > 0
    ensures Rebuild(cs) == Rebuild(cs[..|cs| - 1]) + UniquePart(cs[|cs| - 1])
  {
    RebuildAppend(cs, |cs|);
    assert cs[..|cs|] == cs;
  }

  /** Without a redundant trailing chunk, every chunk but the last stops before the end of the text. */
  lemma OnlyLastReachesEnd(cs: seq<Chunk>, text: string, size: nat, h: nat, step: nat)
    requires Tiling(cs, text, size, h, step)
    requires !RedundantTrailingChunk(cs, |text|)
    ensures forall i :: 0 <= i < |cs| - 1 ==> cs[i].end < |text|
  {
    forall i | 0 <= i < |cs| - 2 ensures cs[i].end < |text| {
      StartsIncrease(cs, text, size, h, step, i, |cs| - 2);
    }
  }

  /** With an even overlap, inner chunks tile the text up to the start of the next chunk. */
  lemma {:induction false} TilesUpTo(cs: seq<Chunk>, text: string, size: nat, h: nat, step: nat, m: nat)
    requires Tiling(cs, text, size, h, step) && size == step + 2 * h
    requires m < |cs| && forall i :: 0 <= i < m ==> cs[i].end < |text|
    ensures Rebuild(cs[..m]) == text[..cs[m].start]
  {
    if m > 0 {
      TilesUpTo(cs, text, size, h, step, m - 1);
      RebuildAppend(cs, m);
      InnerTile(cs, text, size, h, step, m - 1);
      SliceJoin(text, cs[m - 1].start, cs[m].start);
    }
  }

  /** With an even overlap, an inner chunk's unique part runs up to the next chunk's start. */
  lemma InnerTile(cs: seq<Chunk>, text: string, size: nat, h: nat, step: nat, j: nat)
    requires Tiling(cs, text, size, h, step) && size == step + 2 * h
    requires j + 1 < |cs| && cs[j].end < |text|
    ensures cs[j].start <= cs[j + 1].start <= |text|
    ensures UniquePart(cs[j]) == text[cs[j].start..cs[j + 1].start]
  {
    InnerPart(cs[j], text, size, h);
  }

  lemma SliceJoin(text: string, a: nat, b: nat)
    requires a <= b <= |text|
    ensures text[..a] + text[a..b] == text[..b]
  {
  }

  /** With an odd overlap, each inner chunk contributes one character less than its step. */
  lemma {:induction false} LosesUpTo(cs: seq<Chunk>, text: string, size: nat, h: nat, step: nat, m: nat)
    requires Tiling(cs, text, size, h, step) && size + 1 == step + 2 * h
    requires m < |cs| && forall i :: 0 <= i < m ==> cs[i].end < |text|
    ensures |Rebuild(cs[..m])| == cs[m].start - m
  {
    if m > 0 {
      LosesUpTo(cs, text, size, h, step, m - 1);
      RebuildAppend(cs, m);
      InnerPart(cs[m - 1], text, size, h);
    }
  }

  /** With an even overlap, every chunk before the `m`-th contributes at least a step. */
  lemma {:induction false} AtLeastUpTo(cs: seq<Chunk>, text: string, size: nat, h: nat, step: nat, m: nat)
    requires Tiling(cs, text, size, h, step) && size == step + 2 * h
    requires m < |cs|
    ensures |Rebuild(cs[..m])| >= cs[m].start
  {
    if m > 0 {
      AtLeastUpTo(cs, text, size, h, step, m - 1);
      RebuildAppend(cs, m);
      var c := cs[m - 1];
      if c.end < |text| {
        InnerPart(c, text, size, h);
      } else {
        OuterPart(c, text, size, h);
        assert cs[m].start == c.start + step && cs[m].start < |text|;
      }
    }
  }

  /** Even overlap, no redundant trailing chunk: the unique parts tile the text. */
  lemma RebuildExact(text: string, size: nat, overlap: nat)
    requires size > overlap && |text| >= overlap && overlap % 2 == 0
    requires !RedundantTrailingChunk(TextChunks(text, size, overlap).value, |text|)
    ensures Rebuild(TextChunks(text, size, overlap).value) == text
  {
    var cs := TextChunks(text, size, overlap).value;
    if |cs| == 0 {
      EmptyWhenNoChunks(text, size, overlap);
    } else {
      var h, step := HalfOverlap(overlap), size - overlap;
      assert size == step + 2 * h;
      ChunksTile(text, size, overlap);
      TilingExact(cs, text, size, h, step);
    }
  }

  /** With an even overlap, a text at least as long as the overlap gets no chunk only when it is empty. */
  lemma EmptyWhenNoChunks(text: string, size: nat, overlap: nat)
    requires size > overlap && |text| >= overlap && overlap % 2 == 0
    requires |TextChunks(text, size, overlap).value| == 0
    ensures text == ""
  {
    ChunkCountCases(text, size, overlap);
  }

  /** Inner chunks tile the text up to the last one, which holds the rest. */
  lemma TilingExact(cs: seq<Chunk>, text: string, size: nat, h: nat, step: nat)
    requires Tiling(cs, text, size, h, step) && size == step + 2 * h
    requires |cs| > 0 && !RedundantTrailingChunk(cs, |text|)
    ensures Rebuild(cs) == text
  {
    var last := cs[|cs| - 1];
    assert Shaped(last, text, size, h) && last.end >= |text|;
    OuterPart(last, text, size, h);
    OnlyLastReachesEnd(cs, text, size, h, step);
    TilesUpTo(cs, text, size, h, step, |cs| - 1);
    RebuildSplitLast(cs);
    RestJoin(text, last.start);
  }

  lemma RestJoin(text: string, a: nat)
    requires a <= |text|
    ensures text[..a] + text[a..] == text
  {
  }

  /** Even overlap with a redundant trailing chunk: the unique parts are longer than the text. */
  lemma RebuildTooLong(text: string, size: nat, overlap: nat)
    requires size > overlap && |text| >= overlap && overlap % 2 == 0
    requires RedundantTrailingChunk(TextChunks(text, size, overlap).value, |text|)
    ensures |Rebuild(TextChunks(text, size, overlap).value)| > |text|
  {
    var cs := TextChunks(text, size, overlap).value;
    var h, step := HalfOverlap(overlap), size - overlap;
    assert size == step + 2 * h;
    ChunksTile(text, size, overlap);
    TilingTooLong(cs, text, size, h, step);
  }

  /** Two chunks reaching the end of the text both contribute the rest of the text. */
  lemma TilingTooLong(cs: seq<Chunk>, text: string, size: nat, h: nat, step: nat)
    requires Tiling(cs, text, size, h, step) && size == step + 2 * h
    requires RedundantTrailingChunk(cs, |text|)
    ensures |Rebuild(cs)| > |text|
  {
    var k := |cs|;
    AtLeastUpTo(cs, text, size, h, step, k - 2);
    OuterPart(cs[k - 2], text, size, h);
    OuterPart(cs[k - 1], text, size, h);
    RebuildSplitLast(cs);
    RebuildAppend(cs, k - 1);
  }

  /** Odd overlap, no redundant trailing chunk: each chunk boundary loses one character. */
  lemma RebuildLosesOnePerBoundary(text: string, size: nat, overlap: nat)
    requires size > overlap && |text| >= overlap && overlap % 2 == 1
    requires !RedundantTrailingChunk(TextChunks(text, size, overlap).value, |text|)
    ensures var cs := TextChunks(text, size, overlap).value;
      |cs| > 0 ==> |Rebuild(cs)| == |text| - (|cs| - 1)
  {
    var cs := TextChunks(text, size, overlap).value;
    var h, step := HalfOverlap(overlap), size - overlap;
    assert size + 1 == step + 2 * h;
    ChunksTile(text, size, overlap);
    if |cs| > 0 {
      TilingLoses(cs, text, size, h, step);
    }
  }

  /** With an odd overlap, the inner chunks lose one character each and the last holds the rest. */
  lemma TilingLoses(cs: seq<Chunk>, text: string, size: nat, h: nat, step: nat)
    requires Tiling(cs, text, size, h, step) && size + 1 == step + 2 * h
    requires |cs| > 0 && !RedundantTrailingChunk(cs, |text|)
    ensures |Rebuild(cs)| == |text| - (|cs| - 1)
  {
    OnlyLastReachesEnd(cs, text, size, h, step);
    LosesUpTo(cs, text, size, h, step, |cs| - 1);
    OuterPart(cs[|cs| - 1], text, size, h);
    RebuildSplitLast(cs);
  }

  /**
   * When the unique parts rebuild the text. Shorter than the overlap: always. Even overlap:
   * exactly when no chunk but the last reaches the end of the text. Odd overlap without a
   * redundant trailing chunk: exactly when there is a single chunk.
   */
  lemma RebuildCharacterization(text: string, size: nat, overlap: nat)
    requires size > overlap
    ensures |text| < overlap ==> Rebuild(TextChunks(text, size, overlap).value) == text
    ensures |text| >= overlap && overlap % 2 == 0 ==>
      (Rebuild(TextChunks(text, size, overlap).value) == text
       <==> !RedundantTrailingChunk(TextChunks(text, size, overlap).value, |text|))
    ensures |text| >= overlap && overlap % 2 == 1
            && !RedundantTrailingChunk(TextChunks(text, size, overlap).value, |text|) ==>
      (Rebuild(TextChunks(text, size, overlap).value) == text <==> |TextChunks(text, size, overlap).value| == 1)
  {
    var cs := TextChunks(text, size, overlap).value;
    if |text| < overlap {
      assert cs == [Chunk(0, |text|, 0, |text|, text)];
      assert cs[..0] == [];
    } else if overlap % 2 == 0 {
      if RedundantTrailingChunk(cs, |text|) {
        RebuildTooLong(text, size, overlap);
      } else {
        RebuildExact(text, size, overlap);
      }
    } else if !RedundantTrailingChunk(cs, |text|) {
      if |cs| == 0 {
        assert Rebuild(cs) == "";
      } else {
        RebuildLosesOnePerBoundary(text, size, overlap);
      }
    }
  }

  /** Odd overlap: "abcd" cut with size 3 and overlap 1 rebuilds to "acd", losing the "b". */
  lemma OddOverlapLosesCharacter()
    ensures Rebuild(TextChunks("abcd", 3, 1).value) == "acd"
  {
    var cs := TextChunks("abcd", 3, 1).value;
    assert HalfOverlap(1) == 1;
    assert ChunkCount(4, 3, 1) == 2;
    assert cs == [ChunkAt("abcd", 3, 1, 0), ChunkAt("abcd", 3, 1, 1)];
    assert cs[0] == Chunk(0, 3, 0, 1, "abc");
    assert cs[1] == Chunk(2, 5, 0, 2, "cd");
    assert cs[..1] == [cs[0]];
    assert cs[..2] == cs;
  }

  /** With the configured 512/128, a 500-character text yields a second chunk that repeats its tail. */
  lemma TrailingChunkRepeatsTail(text: string)
    requires |text| == 500
    ensures Rebuild(TextChunks(text, CHUNK_SIZE, CHUNK_OVERLAP_SIZE).value) == text + text[384..]
    ensures |Rebuild(TextChunks(text, CHUNK_SIZE, CHUNK_OVERLAP_SIZE).value)| == 616
  {
    var cs := TextChunks(text, CHUNK_SIZE, CHUNK_OVERLAP_SIZE).value;
    assert ChunkCount(500, 512, 128) == 2;
    assert cs == [ChunkAt(text, 512, 128, 0), ChunkAt(text, 512, 128, 1)];
    assert cs[0].text == text && UniquePart(cs[0]) == text;
    assert cs[1].text == text[384..] && UniquePart(cs[1]) == text[384..];
    assert cs[..1] == [cs[0]];
    assert cs[..1][..0] == [];
    assert Rebuild(cs[..1]) == text;
    assert cs[..2] == cs;
  }

  /**
   * With the configured 512/128 and a text at least as long as the overlap, a redundant trailing
   * chunk appears exactly when the length is past 448 and falls in the first 64 of every 384.
   */
  lemma ConfiguredRedundancy(text: string)
    requires |text| >= CHUNK_OVERLAP_SIZE
    ensures RedundantTrailingChunk(TextChunks(text, CHUNK_SIZE, CHUNK_OVERLAP_SIZE).value, |text|)
      <==> |text| > 448 && (|text| - 449) % 384 < 64
  {
    var n, cs := |text|, TextChunks(text, CHUNK_SIZE, CHUNK_OVERLAP_SIZE).value;
    assert HalfOverlap(128) == 64;
    ChunkCountCases(text, CHUNK_SIZE, CHUNK_OVERLAP_SIZE);
    if n > 448 {
      var q, r := (n - 449) / 384, (n - 449) % 384;
      assert n == 384 * q + r + 449;
      assert (q + 2) * 384 == q * 384 + 768;
      assert (q + 1) * 384 == q * 384 + 384;
      ChunkCountUnique(64, n, 384, q + 2);
      assert |cs| == q + 2;
      ChunkLayout(text, CHUNK_SIZE, CHUNK_OVERLAP_SIZE, q);
      assert cs[q].end == q * 384 + 512;
    }
  }

  /**
   * The configured 512/128 rebuild any text shorter than 449 characters, and a longer one exactly
   * when its length is not within the first 64 of a 384-character period starting at 449.
   */
  lemma ConfiguredReconstruction(text: string)
    ensures Rebuild(TextChunks(text, CHUNK_SIZE, CHUNK_OVERLAP_SIZE).value) == text
      <==> !(|text| > 448 && (|text| - 449) % 384 < 64)
  {
    RebuildCharacterization(text, CHUNK_SIZE, CHUNK_OVERLAP_SIZE);
    if |text| >= CHUNK_OVERLAP_SIZE {
      ConfiguredRedundancy(text);
    }
  }
}
