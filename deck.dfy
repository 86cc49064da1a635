/** The part of the PowerPoint host the two presentation tools read: the slides of the open deck,
    each a list of shapes whose text may or may not be readable, and the host's `PowerPoint.run`
    batches, any one of which may reject. Shared by both tools, together with the JavaScript
    `Array.prototype.slice` they use and the chunking of a slide range into batches. */
module Deck {
  import opened Wrappers
  import opened Protocol

  /** What either tool answers for a deck without slides. */
  const NO_SLIDES: string := "Presentation has no slides."

  /** A shape's text: `None` when the shape has no text frame or reading its text throws. */
  datatype Shape = Shape(text: Option<string>)

  type Slide = seq<Shape>

  /** The point at which the host fails: the `run`-th `PowerPoint.run` batch of one tool call
      (0 is the batch that counts the slides) rejects with `message`. Later batches are never
      issued, so at most one failure matters. */
  datatype RunFailure = RunFailure(run: nat, message: string)

  /** The deck as every batch of one tool call sees it, and where (if anywhere) the host fails. */
  datatype Host = Host(slides: seq<Slide>, failure: Option<RunFailure>)

  /** The rejection message of batch `run`, if that batch fails. */
  function FailsAt(host: Host, run: nat): (m: Option<string>)
    ensures m.Some? <==> host.failure.Some? && host.failure.value.run == run
    ensures m.Some? ==> m.value == host.failure.value.message
  {
    if host.failure.Some? && host.failure.value.run == run then Some(host.failure.value.message) else None
  }

  /** Either tool's `catch`: a rejected host run is reported as a failure whose text and error
      are both the rejection's message. */
  function HostFailure(message: string): (r: ToolResult)
    ensures r.ResultObject? && r.resultType == Failure && r.textResultForLlm == message && r.error == Some(message)
  {
    FailureResult(message, message)
  }

  /** Whether one of the batches numbered 1 to `n` fails. */
  predicate FailsWithin(host: Host, n: nat)
  {
    host.failure.Some? && 1 <= host.failure.value.run <= n
  }

  function Min(a: int, b: int): int { if a <= b then a else b }
  function Max(a: int, b: int): int { if a >= b then a else b }

  /** `slice`'s index normalisation: a negative index counts from the end, and the result is
      clamped to `[0, len]`. */
  function ClampIndex(k: int, len: nat): (r: nat)
    ensures r <= len
    ensures 0 <= k <= len ==> r == k
    ensures k < 0 ==> r == Max(len + k, 0)
    ensures len < k ==> r == len
  {
    if k < 0 then (if len + k < 0 then 0 else len + k) else if k > len then len else k
  }

  /** `s.slice(start, end)`. */
  function JsSlice<T>(s: seq<T>, start: int, end: int): (r: seq<T>)
    ensures |r| <= |s|
  {
    var a, b := ClampIndex(start, |s|), ClampIndex(end, |s|);
    if a <= b then s[a..b] else []
  }

  /** Within bounds, `slice` is the subsequence between the two indices. */
  lemma JsSliceInRange<T>(s: seq<T>, start: int, end: int)
    requires 0 <= start <= end <= |s|
    ensures JsSlice(s, start, end) == s[start..end]
  {
  }

  /** `slice(0, n)` with `n >= 0` keeps the first `n` elements, or all of them if there are fewer. */
  lemma JsSliceHead<T>(s: seq<T>, n: nat)
    ensures JsSlice(s, 0, n) == s[..Min(n, |s|)]
  {
  }

  /** `f` applied to each element of `xs` together with its number, counting from `first`: the
      shape of both tools' extraction loops, which render slide `startIdx + i` from `slideRefs[i]`. */
  function MapNumbered<A, B>(f: (A, int) -> B, xs: seq<A>, first: int): (r: seq<B>)
    ensures |r| == |xs|
    decreases |xs|
  {
    if xs == [] then [] else MapNumbered(f, xs[..|xs| - 1], first) + [f(xs[|xs| - 1], first + |xs| - 1)]
  }

  /** Element `k` is `f` of `xs[k]` and its number. */
  lemma {:induction false} MapNumberedAt<A, B>(f: (A, int) -> B, xs: seq<A>, first: int, k: nat)
    requires k < |xs|
    ensures MapNumbered(f, xs, first)[k] == f(xs[k], first + k)
    decreases |xs|
  {
    if k < |xs| - 1 {
      MapNumberedAt(f, xs[..|xs| - 1], first, k);
    }
  }

  /** Mapping two runs one after the other is mapping them together, the second numbered on
      from where the first stops. */
  lemma {:induction false} MapNumberedAppend<A, B>(f: (A, int) -> B, a: seq<A>, b: seq<A>, first: int)
    ensures MapNumbered(f, a + b, first) == MapNumbered(f, a, first) + MapNumbered(f, b, first + |a|)
    decreases |b|
  {
    if b == [] {
      assert a + b == a;
    } else {
      var init := b[..|b| - 1];
      MapNumberedAppend(f, a, init, first);
      assert (a + b)[..|a + b| - 1] == a + init;
    }
  }

  /** Mapping adjacent slices of one sequence, each numbered from where it starts, gives the
      mapping of their union. */
  lemma MapNumberedSplit<A, B>(f: (A, int) -> B, xs: seq<A>, lo: nat, mid: nat, hi: nat)
    requires lo <= mid <= hi <= |xs|
    ensures MapNumbered(f, xs[lo..mid], lo) + MapNumbered(f, xs[mid..hi], mid) == MapNumbered(f, xs[lo..hi], lo)
  {
    assert xs[lo..hi] == xs[lo..mid] + xs[mid..hi];
    MapNumberedAppend(f, xs[lo..mid], xs[mid..hi], lo);
  }

  /** Mapping a slice `xs[mid..top]` of `xs[lo..hi]`, numbered from where it starts, gives that
      part of the mapping of `xs[lo..hi]`. */
  lemma MapNumberedSlice<A, B>(f: (A, int) -> B, xs: seq<A>, lo: nat, mid: nat, top: nat, hi: nat)
    requires lo <= mid <= top <= hi <= |xs|
    ensures MapNumbered(f, xs[mid..top], mid) == MapNumbered(f, xs[lo..hi], lo)[mid - lo..top - lo]
  {
    MapNumberedSplit(f, xs, mid, top, hi);
    MapNumberedSplit(f, xs, lo, mid, hi);
    SliceOfSplits(MapNumbered(f, xs[lo..hi], lo), MapNumbered(f, xs[lo..mid], lo), MapNumbered(f, xs[mid..top], mid),
                  MapNumbered(f, xs[top..hi], top), MapNumbered(f, xs[mid..hi], mid), mid - lo, top - lo);
  }

  /** One more element extends the mapped prefix by one. */
  lemma MapNumberedSnoc<A, B>(f: (A, int) -> B, xs: seq<A>, i: nat, first: int)
    requires i < |xs|
    ensures MapNumbered(f, xs[..i + 1], first) == MapNumbered(f, xs[..i], first) + [f(xs[i], first + i)]
  {
    assert xs[..i + 1][..i] == xs[..i];
  }

  /** The batches `for (i = start; i <= end; i += size)` issues, each as `(i, min(i + size - 1, end))`. */
  function ChunkRanges(start: int, end: int, size: nat): (cs: seq<(int, int)>)
    requires size > 0
    ensures start > end <==> cs == []
    decreases if start <= end then end - start + 1 else 0
  {
    if start > end then [] else [(start, Min(start + size - 1, end))] + ChunkRanges(start + size, end, size)
  }

  /** The batches are contiguous, in order, each non-empty and at most `size` slides long, and
      together cover exactly the slides `start` to `end`. */
  lemma {:induction false} ChunkRangesPartition(start: int, end: int, size: nat)
    requires size > 0 && start <= end
    ensures var cs := ChunkRanges(start, end, size);
      && cs[0].0 == start && cs[|cs| - 1].1 == end
      && (forall k :: 0 <= k < |cs| ==> cs[k].0 <= cs[k].1 < cs[k].0 + size)
      && (forall k :: 0 <= k < |cs| - 1 ==> cs[k + 1].0 == cs[k].1 + 1 && cs[k].1 - cs[k].0 + 1 == size)
    decreases end - start + 1
  {
    var cs := ChunkRanges(start, end, size);
    if start + size <= end {
      ChunkRangesPartition(start + size, end, size);
      var rest := ChunkRanges(start + size, end, size);
      assert cs == [(start, start + size - 1)] + rest;
      assert forall k :: 1 <= k < |cs| ==> cs[k] == rest[k - 1];
    } else {
      assert cs == [(start, end)];
    }
  }

  /** There are `ceil((end - start + 1) / size)` batches: the smallest count whose batches of
      `size` slides reach `end`. */
  lemma {:induction false} ChunkRangesCount(start: int, end: int, size: nat)
    requires size > 0 && start <= end
    ensures var n := |ChunkRanges(start, end, size)|; (n - 1) * size <= end - start < n * size
    decreases end - start + 1
  {
    var n := |ChunkRanges(start, end, size)|;
    if start + size <= end {
      ChunkRangesCount(start + size, end, size);
      assert n == |ChunkRanges(start + size, end, size)| + 1;
      assert (n - 1) * size == (n - 2) * size + size;
      assert n * size == (n - 1) * size + size;
    } else {
      assert n == 1;
    }
  }

  /** Moving the head of the batches still to come onto the batches issued keeps their sum. */
  lemma MoveFirst<T>(done: seq<T>, x: T, rest: seq<T>)
    ensures (done + [x]) + rest == done + ([x] + rest)
  {
  }

  /** A sequence split into `before` and `rest`, with `rest` split into `chunk` and `after`,
      holds `chunk` right after `before`. */
  lemma SliceOfSplits<T>(whole: seq<T>, before: seq<T>, chunk: seq<T>, after: seq<T>, rest: seq<T>, lo: nat, hi: nat)
    requires before + rest == whole && chunk + after == rest
    requires lo == |before| && hi == |before| + |chunk|
    ensures hi <= |whole| && whole[lo..hi] == chunk
  {
    assert whole == before + (chunk + after);
  }

  lemma PrefixOfAppend<T>(done: seq<T>, rest: seq<T>)
    ensures |done| <= |done + rest| && (done + rest)[..|done|] == done
  {
  }
}
