/**
 * The token-window chunker of the ingestion command (`_chunk_text`).
 *
 * The tokenizer's `encode` and `decode` are outside the model: a document
 * arrives as its sequence of token ids and a chunk is the id window that
 * `decode` would turn back into text.
 */
module Chunker {
  import opened Outcomes

  type TokenId = int
  type Chunk = seq<TokenId>

  /** Python's `range(0, n, 0)` raises `ValueError`: a zero step is refused. */
  datatype ChunkError = ZeroStep

  /** The keyword defaults `max_tokens=512, overlap=50`, used by `embed`. */
  const DefaultMaxTokens: nat := 512
  const DefaultOverlap: int := 50

  function Min(a: int, b: int): int {
    if a <= b then a else b
  }

  /** `token_ids[start:start + max_tokens]`: up to `maxTokens` ids from `start` on. */
  function Window(ids: seq<TokenId>, start: nat, maxTokens: nat): (w: Chunk)
    requires start <= |ids|
    ensures |w| == Min(maxTokens, |ids| - start)
    ensures forall k :: 0 <= k < |w| ==> w[k] == ids[start + k]
  {
    ids[start..Min(start + maxTokens, |ids|)]
  }

  /** The windows at `start`, `start + step`, `start + 2*step`, ... that begin before the end. */
  function WindowsFrom(ids: seq<TokenId>, start: nat, step: nat, maxTokens: nat): seq<Chunk>
    requires step > 0
    decreases |ids| - start
  {
    if start >= |ids| then []
    else [Window(ids, start, maxTokens)] + WindowsFrom(ids, start + step, step, maxTokens)
  }

  /**
   * What `_chunk_text` returns for the token ids of a text. The step is
   * `maxTokens - overlap`: zero raises, a negative step makes `range` empty.
   */
  function ChunkIds(ids: seq<TokenId>, maxTokens: nat, overlap: int): (r: Result<seq<Chunk>, ChunkError>)
    ensures r.Err? <==> overlap == maxTokens
    ensures overlap > maxTokens ==> r == Ok([])
  {
    var step := maxTokens - overlap;
    if step == 0 then Err(ZeroStep)
    else if step < 0 then Ok([])
    else Ok(WindowsFrom(ids, 0, step, maxTokens))
  }

  /** The `for start in range(0, len(token_ids), step)` loop of `_chunk_text`. */
  method ChunkText(ids: seq<TokenId>, maxTokens: nat, overlap: int) returns (r: Result<seq<Chunk>, ChunkError>)
    ensures r == ChunkIds(ids, maxTokens, overlap)
  {
    var step := maxTokens - overlap;
    if step == 0 {
      return Err(ZeroStep);
    }
    var chunks: seq<Chunk> := [];
    if step > 0 {
      var start: nat := 0;
      while start < |ids|
        invariant chunks + WindowsFrom(ids, start, step, maxTokens) == WindowsFrom(ids, 0, step, maxTokens)
        decreases |ids| - start
      {
        chunks := chunks + [ids[start..Min(start + maxTokens, |ids|)]];
        start := start + step;
      }
      assert WindowsFrom(ids, start, step, maxTokens) == [];
      assert chunks == WindowsFrom(ids, 0, step, maxTokens);
    }
    return Ok(chunks);
  }

  /** Integer ceiling of `n / step` for a positive step (zero for `n <= 0`). */
  function CeilDiv(n: int, step: nat): nat
    requires step > 0
    decreases if n > 0 then n else 0
  {
    if n <= 0 then 0 else 1 + CeilDiv(n - step, step)
  }

  /** `CeilDiv(n, step)` is the least count of `step`-sized strides that reaches `n`. */
  lemma {:induction false} CeilDivIsCeiling(n: nat, step: nat)
    requires step > 0
    ensures CeilDiv(n, step) * step >= n
    ensures n > 0 ==> (CeilDiv(n, step) - 1) * step < n
    decreases n
  {
    if n > step {
      CeilDivIsCeiling(n - step, step);
      var c := CeilDiv(n - step, step);
      assert CeilDiv(n, step) == c + 1;
      assert (c + 1) * step == c * step + step;
    } else if n > 0 {
      assert CeilDiv(n - step, step) == 0;
    }
  }

  lemma {:induction false} WindowsFromCount(ids: seq<TokenId>, start: nat, step: nat, maxTokens: nat)
    requires step > 0
    ensures |WindowsFrom(ids, start, step, maxTokens)| == CeilDiv(|ids| - start, step)
    decreases |ids| - start
  {
    if start < |ids| {
      WindowsFromCount(ids, start + step, step, maxTokens);
    }
  }

  /** Window `i` of the run from `start` begins `i` strides after `start`, before the end. */
  lemma {:induction false} WindowsFromAt(ids: seq<TokenId>, start: nat, step: nat, maxTokens: nat, i: nat)
    requires step > 0
    requires i < |WindowsFrom(ids, start, step, maxTokens)|
    ensures start + i * step < |ids|
    ensures WindowsFrom(ids, start, step, maxTokens)[i] == Window(ids, start + i * step, maxTokens)
    decreases i
  {
    if i > 0 {
      WindowsFromAt(ids, start + step, step, maxTokens, i - 1);
      assert start + step + (i - 1) * step == start + i * step;
    }
  }

  /**
   * With `step = maxTokens - overlap > 0` there are exactly `ceil(n / step)`
   * chunks, so no chunk at all for an empty token list.
   */
  lemma ChunkCount(ids: seq<TokenId>, maxTokens: nat, overlap: int)
    requires overlap < maxTokens
    ensures ChunkIds(ids, maxTokens, overlap).Ok?
    ensures |ChunkIds(ids, maxTokens, overlap).value| == CeilDiv(|ids|, maxTokens - overlap)
    ensures ids == [] <==> ChunkIds(ids, maxTokens, overlap).value == []
  {
    WindowsFromCount(ids, 0, maxTokens - overlap, maxTokens);
  }

  /**
   * Chunk `i` is exactly `ids[i*step .. min(i*step + maxTokens, n))`; it holds
   * at most `maxTokens` ids and at least one when `maxTokens` is positive.
   */
  lemma ChunkAt(ids: seq<TokenId>, maxTokens: nat, overlap: int, i: nat)
    requires overlap < maxTokens
    requires i < |ChunkIds(ids, maxTokens, overlap).value|
    ensures var lo, c := i * (maxTokens - overlap), ChunkIds(ids, maxTokens, overlap).value[i];
      && lo < |ids|
      && c == ids[lo..Min(lo + maxTokens, |ids|)]
      && |c| <= maxTokens
      && (maxTokens > 0 ==> |c| >= 1)
  {
    WindowsFromAt(ids, 0, maxTokens - overlap, maxTokens, i);
  }

  lemma {:induction false} WindowsFromCover(ids: seq<TokenId>, start: nat, step: nat, maxTokens: nat, j: nat)
    requires 0 < step <= maxTokens
    requires start <= j < |ids|
    ensures exists i ::
      && 0 <= i < |WindowsFrom(ids, start, step, maxTokens)|
      && start + i * step <= j < start + i * step + |WindowsFrom(ids, start, step, maxTokens)[i]|
    decreases |ids| - start
  {
    var ws := WindowsFrom(ids, start, step, maxTokens);
    if j < start + step {
      assert start + 0 * step <= j < start + 0 * step + |ws[0]|;
    } else {
      WindowsFromCover(ids, start + step, step, maxTokens, j);
      var rest := WindowsFrom(ids, start + step, step, maxTokens);
      var i :| 0 <= i < |rest| && start + step + i * step <= j < start + step + i * step + |rest[i]|;
      assert ws[i + 1] == rest[i];
      assert start + (i + 1) * step == start + step + i * step;
    }
  }

  /**
   * With `0 <= overlap < maxTokens` every token index `j` falls inside some
   * chunk `i`, at offset `j - i*step`.
   */
  lemma ChunkCoverage(ids: seq<TokenId>, maxTokens: nat, overlap: int, j: nat)
    requires 0 <= overlap < maxTokens
    requires j < |ids|
    ensures var chunks, step := ChunkIds(ids, maxTokens, overlap).value, maxTokens - overlap;
      exists i :: 0 <= i < |chunks| && i * step <= j < i * step + |chunks[i]| && chunks[i][j - i * step] == ids[j]
  {
    var step := maxTokens - overlap;
    WindowsFromCover(ids, 0, step, maxTokens, j);
    var chunks := ChunkIds(ids, maxTokens, overlap).value;
    var i :| 0 <= i < |chunks| && 0 + i * step <= j < 0 + i * step + |chunks[i]|;
    WindowsFromAt(ids, 0, step, maxTokens, i);
  }

  /** Two windows `step` apart, both starting before the end, share the first window's tail. */
  lemma WindowsOverlap(ids: seq<TokenId>, start: nat, step: nat, maxTokens: nat)
    requires 0 < step <= maxTokens
    requires start + step < |ids|
    ensures var a, b := Window(ids, start, maxTokens), Window(ids, start + step, maxTokens);
      && step <= |a| <= maxTokens
      && |a| - step <= |b|
      && a[step..] == b[..|a| - step]
      && (start + maxTokens >= |ids| ==> b == a[step..])
  {
    var a, b := Window(ids, start, maxTokens), Window(ids, start + step, maxTokens);
    assert forall k :: 0 <= k < |a| - step ==> a[step..][k] == ids[start + step + k] == b[k];
  }

  /**
   * Consecutive chunks start `step` ids apart: chunk `i` has at least `step`
   * ids, its ids after the first `step` are the first ids of chunk `i + 1`,
   * and that shared run is at most `overlap` long. Once a chunk reaches the
   * end of the ids, the next chunk is just its tail.
   */
  lemma ChunkAdjacent(ids: seq<TokenId>, maxTokens: nat, overlap: int, i: nat)
    requires 0 <= overlap < maxTokens
    requires i + 1 < |ChunkIds(ids, maxTokens, overlap).value|
    ensures var chunks, step := ChunkIds(ids, maxTokens, overlap).value, maxTokens - overlap;
      && step <= |chunks[i]| <= step + overlap
      && |chunks[i]| - step <= |chunks[i + 1]|
      && chunks[i][step..] == chunks[i + 1][..|chunks[i]| - step]
      && (i * step + maxTokens >= |ids| ==> chunks[i + 1] == chunks[i][step..])
  {
    var chunks, step := ChunkIds(ids, maxTokens, overlap).value, maxTokens - overlap;
    var s0 := i * step;
    WindowsFromAt(ids, 0, step, maxTokens, i);
    assert chunks[i] == Window(ids, s0, maxTokens);
    WindowsFromAt(ids, 0, step, maxTokens, i + 1);
    assert (i + 1) * step == s0 + step;
    assert chunks[i + 1] == Window(ids, s0 + step, maxTokens);
    WindowsOverlap(ids, s0, step, maxTokens);
  }

  /** A 1000-token document with the defaults 512 / 50 gives `ceil(1000 / 462) = 3` chunks. */
  lemma DefaultsOnThousandTokens(ids: seq<TokenId>)
    requires |ids| == 1000
    ensures ChunkIds(ids, DefaultMaxTokens, DefaultOverlap).Ok?
    ensures |ChunkIds(ids, DefaultMaxTokens, DefaultOverlap).value| == 3
  {
    ChunkCount(ids, DefaultMaxTokens, DefaultOverlap);
    assert CeilDiv(1000, 462) == 1 + CeilDiv(538, 462) == 2 + CeilDiv(76, 462) == 3 + CeilDiv(-386, 462);
  }
}
