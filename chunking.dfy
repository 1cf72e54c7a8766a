/**
  * `DocumentEmbedder.chunk_text`: a sliding window over the whitespace
  * separated words of a text. The window holds `chunk_size` words and moves
  * by `chunk_size - overlap` words; each window is joined back with single
  * spaces, and an empty window is dropped.
  */
module Chunking {
  import opened Wrappers
  import opened Text

  /** The defaults `embed_documents` relies on. */
  const ChunkSize: int := 300
  const Overlap: int := 50

  /** One bound of a Python slice: a negative bound counts from the end; both are clamped to `0..n`. */
  function SliceBound(b: int, n: nat): (r: nat)
    ensures r <= n
    ensures 0 <= b <= n ==> r == b
  {
    if b < 0 then (if b + n < 0 then 0 else b + n) else if b > n then n else b
  }

  /** `s[lo:hi]`. */
  function Slice(s: seq<string>, lo: int, hi: int): seq<string>
  {
    var a, b := SliceBound(lo, |s|), SliceBound(hi, |s|);
    if a < b then s[a..b] else []
  }

  /** `" ".join(words[i : i + size])`. */
  function Window(words: seq<string>, i: int, size: int): string
  {
    Join(" ", Slice(words, i, i + size))
  }

  /** `[f(p) for p in range(i, n, step) if f(p)]`: the stepped loop of `chunk_text`, with the window as `f`. */
  function Strided(f: int -> string, n: nat, step: int, i: nat): seq<string>
    requires step > 0
    decreases n - i
  {
    if i >= n then []
    else (if f(i) != "" then [f(i)] else []) + Strided(f, n, step, i + step)
  }

  /** The window of `size` words at each start. */
  function WindowOf(words: seq<string>, size: int): int -> string
  {
    start => Window(words, start, size)
  }

  /** The chunks of the windows starting at `i`, `i + step`, ... below `|words|`; empty ones are dropped. */
  function ChunksFrom(words: seq<string>, size: int, step: int, i: nat): seq<string>
    requires step > 0
  {
    Strided(WindowOf(words, size), |words|, step, i)
  }

  /**
    * What `chunk_text(text, chunk_size, overlap)` returns: `range` raises on
    * a zero step, and a negative step gives an empty range.
    */
  function Chunks(text: string, size: int, overlap: int): Result<seq<string>, string>
  {
    var step := size - overlap;
    if step == 0 then Failure("range() arg 3 must not be zero")
    else if step < 0 then Success([])
    else Success(ChunksFrom(Words(text), size, step, 0))
  }

  /** `chunk_text`. */
  method ChunkText(text: string, chunkSize: int, overlap: int) returns (r: Result<seq<string>, string>)
    ensures r == Chunks(text, chunkSize, overlap)
  {
    var words := Words(text);
    var step := chunkSize - overlap;
    if step == 0 {
      return Failure("range() arg 3 must not be zero");
    } else if step < 0 {
      return Success([]);
    }
    var chunks := ChunkLoop(words, chunkSize, step);
    return Success(chunks);
  }

  /** The loop of `chunk_text` over `range(0, len(words), step)` for a positive step. */
  method ChunkLoop(words: seq<string>, size: int, step: int) returns (chunks: seq<string>)
    requires step > 0
    ensures chunks == ChunksFrom(words, size, step, 0)
  {
    chunks := [];
    var i: nat := 0;
    while i < |words|
      invariant chunks + ChunksFrom(words, size, step, i) == ChunksFrom(words, size, step, 0)
      decreases |words| - i
    {
      var chunk := Window(words, i, size);
      ghost var before, kept := chunks, if chunk != "" then [chunk] else [];
      ChunksFromStep(words, size, step, i);
      AppendAssoc(chunks, kept, ChunksFrom(words, size, step, i + step));
      if chunk != "" {
        chunks := chunks + [chunk];
      }
      assert chunks == before + kept;
      i := i + step;
    }
    assert ChunksFrom(words, size, step, i) == [];
  }

  /** One round of `chunk_text`'s loop: the window at `i`, if not empty, then the rest. */
  lemma ChunksFromStep(words: seq<string>, size: int, step: int, i: nat)
    requires step > 0 && i < |words|
    ensures ChunksFrom(words, size, step, i) ==
      (if Window(words, i, size) != "" then [Window(words, i, size)] else []) + ChunksFrom(words, size, step, i + step)
  {
  }

  // ---------------------------------------------------------------- arithmetic

  /** Euclidean division is unique. */
  lemma DivUnique(a: int, d: int, q: int, r: int)
    requires d > 0 && 0 <= r < d && a == d * q + r
    ensures a / d == q
  {
    var k := a / d - q;
    assert d * k == r - a % d by {
      assert d * (a / d) + a % d == a;
    }
    MulBound(d, k);
  }

  /** A non-zero multiple of `d > 0` is at least `d` away from zero. */
  lemma MulBound(d: int, k: int)
    requires d > 0
    ensures k >= 1 ==> d * k >= d
    ensures k <= -1 ==> d * k <= -d
  {
  }

  /** The start of window `k` is one step past the start of window `k - 1`. */
  lemma MulStep(i: int, k: int, step: int)
    ensures (i + step) + (k - 1) * step == i + k * step
  {
  }

  // ---------------------------------------------------------------- the stepped loop

  /** No position below `n` gives an empty chunk. */
  predicate NoneEmpty(f: int -> string, n: nat)
  {
    forall p :: 0 <= p < n ==> f(p) != ""
  }

  /** Item `k` of the loop from `i` is `f` at `start == i + k * step`. */
  lemma {:induction false} StridedAt(f: int -> string, n: nat, step: int, i: nat, k: nat, start: int)
    requires step > 0 && NoneEmpty(f, n)
    requires k < |Strided(f, n, step, i)|
    requires start == i + k * step
    ensures 0 <= start < n
    ensures Strided(f, n, step, i)[k] == f(start)
    decreases k
  {
    if k == 0 {
      assert k * step == 0;
    } else {
      MulStep(i, k, step);
      StridedAt(f, n, step, i + step, k - 1, start);
    }
  }

  /** From `i`, the loop yields the ceiling of `(n - i) / step` items. */
  lemma {:induction false} StridedCount(f: int -> string, n: nat, step: int, i: nat)
    requires step > 0 && NoneEmpty(f, n)
    ensures |Strided(f, n, step, i)| == if i >= n then 0 else (n - i + step - 1) / step
    decreases n - i
  {
    if i < n {
      StridedCount(f, n, step, i + step);
      if i + step >= n {
        DivUnique(n - i + step - 1, step, 1, n - i - 1);
      } else {
        var q := (n - (i + step) + step - 1) / step;
        DivUnique(n - i + step - 1, step, q + 1, (n - (i + step) + step - 1) % step);
      }
    }
  }

  /** Every position from `i` below `n` lies in the step after some item's start. */
  lemma {:induction false} StridedCover(f: int -> string, n: nat, step: int, i: nat, j: nat)
    requires step > 0 && NoneEmpty(f, n)
    requires i <= j < n
    ensures exists k :: 0 <= k < |Strided(f, n, step, i)| && i + k * step <= j < i + k * step + step
    decreases n - i
  {
    if j >= i + step {
      StridedCover(f, n, step, i + step, j);
      var k :| 0 <= k < |Strided(f, n, step, i + step)| && i + step + k * step <= j < i + step + k * step + step;
      MulStep(i, k + 1, step);
      assert k + 1 < |Strided(f, n, step, i)|;
    } else {
      assert i + 0 * step <= j < i + 0 * step + step;
    }
  }

  /** The loop from `i < n` yields something, and its last item starts less than a step before `n`. */
  lemma {:induction false} StridedLast(f: int -> string, n: nat, step: int, i: nat)
    requires step > 0 && NoneEmpty(f, n) && i < n
    ensures |Strided(f, n, step, i)| >= 1
    ensures i + (|Strided(f, n, step, i)| - 1) * step + step >= n
    decreases n - i
  {
    if i + step < n {
      StridedLast(f, n, step, i + step);
      MulStep(i, |Strided(f, n, step, i + step)|, step);
    } else {
      var m := |Strided(f, n, step, i)|;
      assert m == 1;
      assert (m - 1) * step == 0;
    }
  }

  // ---------------------------------------------------------------- windows

  /** Where the window at `start` ends: `size` words on, or the end of the words. */
  function WindowEnd(n: nat, start: nat, size: nat): nat
  {
    if start + size <= n then start + size else n
  }

  /** A window that starts inside the words, with a positive size, is the words from there up to `size` of them, and is kept. */
  lemma WindowAt(words: seq<string>, start: nat, size: int)
    requires AllWords(words)
    requires start < |words| && size >= 1
    ensures Slice(words, start, start + size) == words[start..WindowEnd(|words|, start, size)]
    ensures Window(words, start, size) != ""
  {
    var parts := Slice(words, start, start + size);
    assert parts[0] == words[start];
    assert IsWord(words[start]);
    JoinStartsWithFirst(" ", parts);
  }

  /** Over words, no window that starts inside them is dropped. */
  lemma WindowsNoneEmpty(words: seq<string>, size: int)
    requires AllWords(words) && size >= 1
    ensures NoneEmpty(WindowOf(words, size), |words|)
  {
    forall p | 0 <= p < |words|
      ensures WindowOf(words, size)(p) != ""
    {
      WindowAt(words, p, size);
    }
  }

  /** Chunk `k` is the window of words at `start == k * step`. */
  lemma ChunkWindow(words: seq<string>, size: int, step: int, k: nat, start: int)
    requires AllWords(words) && 0 < step <= size
    requires k < |ChunksFrom(words, size, step, 0)| && start == k * step
    ensures 0 <= start < |words|
    ensures ChunksFrom(words, size, step, 0)[k] == Join(" ", words[start..WindowEnd(|words|, start, size)])
  {
    WindowsNoneEmpty(words, size);
    StridedAt(WindowOf(words, size), |words|, step, 0, k, start);
    WindowAt(words, start, size);
  }

  /** Chunk `k`, read back with `split()`, gives the window of words at `start == k * step`. */
  lemma ChunkWords(words: seq<string>, size: int, step: int, k: nat, start: int)
    requires AllWords(words) && 0 < step <= size
    requires k < |ChunksFrom(words, size, step, 0)| && start == k * step
    ensures 0 <= start < |words|
    ensures Words(ChunksFrom(words, size, step, 0)[k]) == words[start..WindowEnd(|words|, start, size)]
  {
    ChunkWindow(words, size, step, k, start);
    var window := words[start..WindowEnd(|words|, start, size)];
    assert forall t :: 0 <= t < |window| ==> IsWord(window[t]);
    WordsOfJoin(window);
  }

  // ---------------------------------------------------------------- chunk_text's promises

  /** For `0 <= overlap < chunk_size`, with step `s = chunk_size - overlap`, there are `ceil(|words| / s)` chunks. */
  lemma ChunkCount(text: string, size: int, overlap: int)
    requires 0 <= overlap < size
    ensures Chunks(text, size, overlap).Success?
    ensures |Chunks(text, size, overlap).value| == (|Words(text)| + (size - overlap) - 1) / (size - overlap)
  {
    var words, step := Words(text), size - overlap;
    WordsAreWords(text);
    WindowsNoneEmpty(words, size);
    StridedCount(WindowOf(words, size), |words|, step, 0);
    if |words| == 0 {
      DivUnique(step - 1, step, 0, step - 1);
    }
  }

  /**
    * Chunk `k` is `" ".join(words[k*s : k*s + chunk_size])`, and its words
    * are exactly that window, between 1 and `chunk_size` of them.
    */
  lemma ChunkAt(text: string, size: int, overlap: int, k: nat)
    requires 0 <= overlap < size
    requires k < |Chunks(text, size, overlap).value|
    ensures var words, step, chunk := Words(text), size - overlap, Chunks(text, size, overlap).value[k];
      k * step < |words| &&
      chunk == Join(" ", words[k * step..WindowEnd(|words|, k * step, size)]) &&
      Words(chunk) == words[k * step..WindowEnd(|words|, k * step, size)] &&
      1 <= |Words(chunk)| <= size
  {
    var words, step := Words(text), size - overlap;
    var start := k * step;
    WordsAreWords(text);
    ChunkWindow(words, size, step, k, start);
    ChunkWords(words, size, step, k, start);
  }

  // ---------------------------------------------------------------- the loop over `text.split()`

  /** For `0 <= overlap < chunk_size`, `chunk_text` runs its stepped loop over `text.split()`, whose entries are all words. */
  lemma ChunksOfText(text: string, size: int, overlap: int)
    requires 0 <= overlap < size
    ensures Chunks(text, size, overlap) == Success(ChunksFrom(Words(text), size, size - overlap, 0))
    ensures AllWords(Words(text))
  {
    WordsAreWords(text);
  }

  /** `chunks[k]` is the space-joined window of `words` that starts at `k * step`. */
  predicate ChunkIsWindow(words: seq<string>, size: nat, step: int, chunks: seq<string>, k: int)
  {
    0 <= k < |chunks| && 0 <= k * step < |words| &&
    chunks[k] == Join(" ", words[k * step..WindowEnd(|words|, k * step, size)])
  }

  /** Every word lies in the window of some chunk, within its first `chunk_size - overlap` words. */
  lemma WordInSomeChunk(words: seq<string>, size: int, overlap: int, j: nat)
    requires AllWords(words) && 0 <= overlap < size && j < |words|
    ensures var step := size - overlap;
      exists k :: ChunkIsWindow(words, size, step, ChunksFrom(words, size, step, 0), k) && k * step <= j < k * step + step
  {
    var step := size - overlap;
    var chunks := ChunksFrom(words, size, step, 0);
    WindowsNoneEmpty(words, size);
    StridedCover(WindowOf(words, size), |words|, step, 0, j);
    var k :| 0 <= k < |chunks| && 0 + k * step <= j < 0 + k * step + step;
    ChunkWindow(words, size, step, k, k * step);
    assert ChunkIsWindow(words, size, step, chunks, k);
  }

  /** The first chunk is the window at word 0, and the last chunk's window runs to the final word. */
  lemma ChunksFirstAndLast(words: seq<string>, size: int, overlap: int)
    requires AllWords(words) && 0 <= overlap < size && words != []
    ensures var step := size - overlap;
      var chunks := ChunksFrom(words, size, step, 0);
      ChunkIsWindow(words, size, step, chunks, 0) &&
      ChunkIsWindow(words, size, step, chunks, |chunks| - 1) &&
      (|chunks| - 1) * step + size >= |words|
  {
    var step := size - overlap;
    var chunks := ChunksFrom(words, size, step, 0);
    WindowsNoneEmpty(words, size);
    StridedLast(WindowOf(words, size), |words|, step, 0);
    ChunkWindow(words, size, step, 0, 0);
    ChunkWindow(words, size, step, |chunks| - 1, (|chunks| - 1) * step);
  }

  /** A full window and the window one step later share `overlap` words. */
  lemma WindowsOverlap(words: seq<string>, size: int, overlap: int, start: nat, next: nat)
    requires 0 <= overlap < size && start + size <= |words| && next == start + (size - overlap)
    ensures var cur, nxt := words[start..WindowEnd(|words|, start, size)], words[next..WindowEnd(|words|, next, size)];
      |cur| == size && |nxt| >= overlap && cur[size - overlap..] == nxt[..overlap]
  {
  }

  /**
    * Consecutive chunks share exactly `overlap` words whenever the earlier
    * one is full: the last `overlap` words of chunk `k` open chunk `k + 1`.
    */
  lemma ChunksOverlap(words: seq<string>, size: int, overlap: int, k: nat)
    requires AllWords(words) && 0 <= overlap < size
    requires k + 1 < |ChunksFrom(words, size, size - overlap, 0)|
    requires k * (size - overlap) + size <= |words|
    ensures var step, chunks := size - overlap, ChunksFrom(words, size, size - overlap, 0);
      var cur, nxt := words[k * step..WindowEnd(|words|, k * step, size)],
        words[(k + 1) * step..WindowEnd(|words|, (k + 1) * step, size)];
      chunks[k] == Join(" ", cur) && chunks[k + 1] == Join(" ", nxt) &&
      |cur| == size && |nxt| >= overlap && cur[step..] == nxt[..overlap]
  {
    var step := size - overlap;
    MulStep(0, k + 1, step);
    ChunkWindow(words, size, step, k, k * step);
    ChunkWindow(words, size, step, k + 1, (k + 1) * step);
    WindowsOverlap(words, size, overlap, k * step, (k + 1) * step);
  }

  /** Empty or whitespace-only text gives no chunks, and any other text gives some. */
  lemma BlankTextNoChunks(text: string, size: int, overlap: int)
    requires size - overlap != 0
    ensures Chunks(text, size, overlap).Success?
    ensures IsBlank(text) ==> Chunks(text, size, overlap).value == []
    ensures !IsBlank(text) && 0 <= overlap < size ==> Chunks(text, size, overlap).value != []
  {
    WordsEmptyIffBlank(text);
    if !IsBlank(text) && 0 <= overlap < size {
      WordsAreWords(text);
      WindowAt(Words(text), 0, size);
    }
  }
}
