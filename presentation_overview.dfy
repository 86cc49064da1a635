/** The `get_presentation_overview` tool: the slide count and a one-line preview of every slide,
    read in batches of `CHUNK_SIZE` slides per host run. */
module PresentationOverview {
  import opened Wrappers
  import opened Strings
  import opened Protocol
  import opened Deck

  const CHUNK_SIZE: nat := 10
  /** Only the first shapes of a slide are read, and only the first fragments are shown. */
  const PREVIEW_SHAPES: nat := 5
  const PREVIEW_FRAGMENTS: nat := 3
  /** A fragment longer than this is cut to this many characters and marked with `ELLIPSIS`. */
  const FRAGMENT_LIMIT: nat := 100
  const ELLIPSIS: string := "..."
  const FRAGMENT_SEPARATOR: string := " | "
  const EMPTY_PREVIEW: string := "(empty or images only)"
  const LINE_SEPARATOR: string := "\n"

  /** The longest preview: three fragments at the limit with their ellipses, and two separators. */
  const MAX_PREVIEW: nat := 3 * (100 + 3) + 2 * 3

  /** A trimmed text as it enters the preview. */
  function Truncate(t: string): (r: string)
    ensures |r| <= FRAGMENT_LIMIT + |ELLIPSIS|
    ensures |t| <= FRAGMENT_LIMIT ==> r == t
    ensures |t| > FRAGMENT_LIMIT ==> |r| == FRAGMENT_LIMIT + |ELLIPSIS| && r[..FRAGMENT_LIMIT] == t[..FRAGMENT_LIMIT]
    ensures |t| > FRAGMENT_LIMIT ==> r[FRAGMENT_LIMIT..] == ELLIPSIS
  {
    if |t| > FRAGMENT_LIMIT then t[..FRAGMENT_LIMIT] + ELLIPSIS else t
  }

  /** What one shape contributes to the preview: its text, trimmed and truncated, unless it has
      no readable text or nothing is left after trimming. */
  function FragmentOf(shape: Shape): (f: Option<string>)
    ensures f.Some? <==> shape.text.Some? && !AllWhitespace(shape.text.value)
    ensures f.Some? ==> f.value != "" && |f.value| <= FRAGMENT_LIMIT + |ELLIPSIS|
  {
    if shape.text.Some? then
      var text := Trim(shape.text.value);
      TrimEmptyIff(shape.text.value);
      if text != "" then Some(Truncate(text)) else None
    else None
  }

  /** The fragments of `shapes`, in shape order. */
  function Fragments(shapes: seq<Shape>): (fs: seq<string>)
    ensures |fs| <= |shapes|
    ensures forall k :: 0 <= k < |fs| ==> fs[k] != "" && |fs[k]| <= FRAGMENT_LIMIT + |ELLIPSIS|
    decreases |shapes|
  {
    if shapes == [] then []
    else
      var rest := Fragments(shapes[..|shapes| - 1]);
      match FragmentOf(shapes[|shapes| - 1])
      case Some(f) => rest + [f]
      case None => rest
  }

  /** One more shape adds its fragment, if it has one, to the end. */
  lemma FragmentsStep(shapes: seq<Shape>, j: nat)
    requires j < |shapes|
    ensures FragmentOf(shapes[j]).Some? ==>
      Fragments(shapes[..j + 1]) == Fragments(shapes[..j]) + [FragmentOf(shapes[j]).value]
    ensures FragmentOf(shapes[j]).None? ==> Fragments(shapes[..j + 1]) == Fragments(shapes[..j])
  {
    assert shapes[..j + 1][..j] == shapes[..j];
  }

  /** A slide's fragments come from its first `PREVIEW_SHAPES` shapes only. */
  function SlideFragments(slide: Slide): (fs: seq<string>)
    ensures |fs| <= PREVIEW_SHAPES
  {
    JsSliceHead(slide, PREVIEW_SHAPES);
    Fragments(JsSlice(slide, 0, PREVIEW_SHAPES))
  }

  /** No shape carries anything but whitespace. */
  predicate Blank(shapes: seq<Shape>)
  {
    forall i :: 0 <= i < |shapes| ==> shapes[i].text.None? || AllWhitespace(shapes[i].text.value)
  }

  /** A list of shapes yields no fragment exactly when none of them has non-whitespace text. */
  lemma {:induction false} FragmentsEmptyIff(shapes: seq<Shape>)
    ensures Fragments(shapes) == [] <==> Blank(shapes)
    decreases |shapes|
  {
    if shapes != [] {
      var init := shapes[..|shapes| - 1];
      FragmentsEmptyIff(init);
      assert forall i :: 0 <= i < |init| ==> init[i] == shapes[i];
    }
  }

  /** The preview of a slide with fragments `fs`: its first three, or the empty marker. */
  function Preview(fs: seq<string>): string
  {
    if |fs| > 0 then Join(JsSlice(fs, 0, PREVIEW_FRAGMENTS), FRAGMENT_SEPARATOR) else EMPTY_PREVIEW
  }

  /** A slide without fragments shows the empty marker; any other preview opens with the first
      fragment and closes with the last one shown, the third at most. */
  lemma PreviewEnds(fs: seq<string>)
    ensures var p := Preview(fs);
      && (fs == [] ==> p == EMPTY_PREVIEW)
      && (fs != [] ==> fs[0] <= p)
      && (fs != [] ==> var last := fs[Deck.Min(PREVIEW_FRAGMENTS, |fs|) - 1]; |last| <= |p| && p[|p| - |last|..] == last)
  {
    JsSliceHead(fs, PREVIEW_FRAGMENTS);
    if fs != [] {
      JoinEnds(JsSlice(fs, 0, PREVIEW_FRAGMENTS), FRAGMENT_SEPARATOR);
    }
  }

  /** The empty marker is shown exactly for a slide whose first five shapes are blank, and every
      preview is non-empty and at most `MAX_PREVIEW` characters long. */
  lemma PreviewShape(slide: Slide)
    ensures var p := Preview(SlideFragments(slide));
      && (SlideFragments(slide) == [] <==> Blank(slide[..Deck.Min(PREVIEW_SHAPES, |slide|)]))
      && 1 <= |p| <= MAX_PREVIEW
  {
    JsSliceHead(slide, PREVIEW_SHAPES);
    FragmentsEmptyIff(slide[..Deck.Min(PREVIEW_SHAPES, |slide|)]);
    var fs := SlideFragments(slide);
    if |fs| > 0 {
      JsSliceHead(fs, PREVIEW_FRAGMENTS);
      var shown := fs[..Deck.Min(PREVIEW_FRAGMENTS, |fs|)];
      JoinLength(shown, FRAGMENT_SEPARATOR);
      FragmentsLength(shown);
      assert |shown[0]| >= 1;
    }
  }

  /** The fragments shown, each at most the limit plus the ellipsis, add up to at most that many
      times their count. */
  lemma {:induction false} FragmentsLength(fs: seq<string>)
    requires forall k :: 0 <= k < |fs| ==> fs[k] != "" && |fs[k]| <= FRAGMENT_LIMIT + |ELLIPSIS|
    ensures |fs| <= TotalLength(fs) <= |fs| * (FRAGMENT_LIMIT + |ELLIPSIS|)
    decreases |fs|
  {
    if fs != [] {
      FragmentsLength(fs[1..]);
    }
  }

  /** The line of slide `k` (0-based). */
  function PreviewLine(slide: Slide, k: int): string
  {
    "Slide " + IntToString(k + 1) + ": " + Preview(SlideFragments(slide))
  }

  /** A line opens with `Slide ` and closes with the slide's preview. */
  lemma PreviewLineShape(slide: Slide, k: int)
    ensures var l, p := PreviewLine(slide, k), Preview(SlideFragments(slide));
      |l| >= 6 && l[..6] == "Slide " && |p| <= |l| && l[|l| - |p|..] == p
  {
    LineLayout(IntToString(k + 1), Preview(SlideFragments(slide)));
  }

  lemma LineLayout(n: string, p: string)
    ensures var l := "Slide " + n + ": " + p; |l| >= 6 && l[..6] == "Slide " && |p| <= |l| && l[|l| - |p|..] == p
  {
  }

  /** A slide's preview line as a function of the slide and its number. */
  function Previewer(): (Slide, int) -> string
  {
    (slide: Slide, k: int) => PreviewLine(slide, k)
  }

  /** The lines of the slides `refs`, numbered from `first`. */
  function Lines(refs: seq<Slide>, first: int): (r: seq<string>)
    ensures |r| == |refs|
  {
    MapNumbered(Previewer(), refs, first)
  }

  /** What `getSlidePreviewChunk(startIdx, endIdx)` returns: one line per slide of
      `slides.slice(startIdx, endIdx + 1)`, numbered from `startIdx`. */
  function ChunkPreviews(slides: seq<Slide>, startIdx: int, endIdx: int): seq<string>
  {
    Lines(JsSlice(slides, startIdx, endIdx + 1), startIdx)
  }

  /** The lines of slides `lo` to `hi - 1`. */
  function Previewed(slides: seq<Slide>, lo: nat, hi: nat): (r: seq<string>)
    requires lo <= hi <= |slides|
    ensures |r| == hi - lo
  {
    Lines(slides[lo..hi], lo)
  }

  /** The inner loop of `getSlidePreviewChunk`: the fragments from the first five shapes. */
  method CollectFragments(slide: Slide) returns (texts: seq<string>)
    ensures texts == SlideFragments(slide)
  {
    var shapes := JsSlice(slide, 0, PREVIEW_SHAPES);
    texts := [];
    for j := 0 to |shapes|
      invariant texts == Fragments(shapes[..j])
    {
      FragmentsStep(shapes, j);
      var fragment := FragmentOf(shapes[j]);
      if fragment.Some? {
        texts := texts + [fragment.value];
      }
    }
    assert shapes[..|shapes|] == shapes;
  }

  /** One iteration of `getSlidePreviewChunk`'s extraction loop: a slide's line. */
  method ReadPreview(slide: Slide, k: int) returns (line: string)
    ensures line == PreviewLine(slide, k)
  {
    var texts := CollectFragments(slide);
    var preview := if |texts| > 0 then Join(JsSlice(texts, 0, PREVIEW_FRAGMENTS), FRAGMENT_SEPARATOR) else EMPTY_PREVIEW;
    line := "Slide " + IntToString(k + 1) + ": " + preview;
  }

  /** `getSlidePreviewChunk`: one host run that reads the chunk's slides and their first shapes. */
  method GetSlidePreviewChunk(slides: seq<Slide>, startIdx: int, endIdx: int) returns (results: seq<string>)
    ensures results == ChunkPreviews(slides, startIdx, endIdx)
  {
    var refs := JsSlice(slides, startIdx, endIdx + 1);
    results := [];
    for i := 0 to |refs|
      invariant results == Lines(refs[..i], startIdx)
    {
      MapNumberedSnoc(Previewer(), refs, i, startIdx);
      var line := ReadPreview(refs[i], startIdx + i);
      results := results + [line];
    }
    assert refs[..|refs|] == refs;
  }

  /** The first line of a successful overview. */
  function Heading(slideCount: nat): string
  {
    "Presentation has " + NatToString(slideCount) + " slide(s):\n\n"
  }

  /** The heading is `Presentation has `, the count's digits and ` slide(s):` with a blank line;
      the digits read back as the count. */
  lemma HeadingShape(slideCount: nat)
    ensures var h := Heading(slideCount);
      && |h| > 29 && h[..17] == "Presentation has " && h[|h| - 12..] == " slide(s):\n\n"
      && DigitsValue(h[17..|h| - 12]) == slideCount
  {
    var n := NatToString(slideCount);
    NatToStringDigits(slideCount);
    NatToStringRoundTrip(slideCount);
    assert Heading(slideCount)[17..|n| + 17] == n;
  }

  /** The handler's result, stated over the whole deck at once. */
  function Expected(host: Host): (r: ToolResult)
    ensures r.ResultObject? ==> host.failure.Some? && r == HostFailure(host.failure.value.message)
    ensures FailsAt(host, 0).Some? ==> r == HostFailure(host.failure.value.message)
    ensures host.failure.None? && |host.slides| == 0 ==> r == TextResult(NO_SLIDES)
    ensures host.failure.None? && |host.slides| > 0 ==> r.TextResult? && Heading(|host.slides|) <= r.text
  {
    var count := |host.slides|;
    if FailsAt(host, 0).Some? then HostFailure(FailsAt(host, 0).value)
    else if count == 0 then TextResult(NO_SLIDES)
    else if FailsWithin(host, |ChunkRanges(0, count - 1, CHUNK_SIZE)|) then HostFailure(host.failure.value.message)
    else TextResult(Heading(count) + Join(Previewed(host.slides, 0, count), LINE_SEPARATOR))
  }

  /** The handler: count the slides, then preview them chunk by chunk; any rejected host run
      becomes a failure carrying its message. */
  method GetPresentationOverview(host: Host) returns (r: ToolResult, batches: seq<(int, int)>)
    ensures r == Expected(host)
    ensures FailsAt(host, 0).Some? || host.slides == [] ==> batches == []
    ensures FailsAt(host, 0).None? && host.slides != [] ==>
              var all := ChunkRanges(0, |host.slides| - 1, CHUNK_SIZE);
              && (!FailsWithin(host, |all|) ==> batches == all)
              && (FailsWithin(host, |all|) ==> batches == all[..host.failure.value.run])
  {
    batches := [];
    var countFailure := FailsAt(host, 0);
    if countFailure.Some? {
      return HostFailure(countFailure.value), batches;
    }
    var slideCount := |host.slides|;
    if slideCount == 0 {
      return TextResult(NO_SLIDES), batches;
    }
    var overviews: seq<string> := [];
    var i := 0;
    assert Previewed(host.slides, 0, 0) == [];
    while i < slideCount
      invariant Previewing(host, i, batches, overviews)
      decreases slideCount - i
    {
      var failure;
      batches, overviews, failure := PreviewNextBatch(host, i, batches, overviews);
      if failure.Some? {
        return HostFailure(failure.value), batches;
      }
      i := i + CHUNK_SIZE;
    }
    PreviewingDone(host, i, batches, overviews);
    r := TextResult(Heading(slideCount) + Join(overviews, LINE_SEPARATOR));
  }

  /** What holds of the handler's loop before each batch: the batches issued and those still to
      come make up all of the deck's batches, none of the issued ones failed, and the lines of the
      slides before `i` have been produced. */
  ghost predicate Previewing(host: Host, i: int, batches: seq<(int, int)>, overviews: seq<string>)
  {
    var count := |host.slides|;
    && count > 0 && 0 <= i
    && batches + ChunkRanges(i, count - 1, CHUNK_SIZE) == ChunkRanges(0, count - 1, CHUNK_SIZE)
    && !FailsWithin(host, |batches|)
    && overviews == Previewed(host.slides, 0, Deck.Min(i, count))
  }

  /** Once `i` is past the last slide, every batch was issued and every slide previewed. */
  lemma PreviewingDone(host: Host, i: int, batches: seq<(int, int)>, overviews: seq<string>)
    requires Previewing(host, i, batches, overviews) && |host.slides| <= i
    ensures batches == ChunkRanges(0, |host.slides| - 1, CHUNK_SIZE) && !FailsWithin(host, |batches|)
    ensures overviews == Previewed(host.slides, 0, |host.slides|)
  {
    assert batches + [] == batches;
    assert Deck.Min(i, |host.slides|) == |host.slides|;
  }

  /** One iteration of the handler's loop: issue the batch starting at `i`; it either fails,
      ending the call, or appends its lines. */
  method PreviewNextBatch(host: Host, i: nat, batches: seq<(int, int)>, overviews: seq<string>)
    returns (batches': seq<(int, int)>, overviews': seq<string>, failure: Option<string>)
    requires Previewing(host, i, batches, overviews) && i < |host.slides|
    ensures failure.None? ==> Previewing(host, i + CHUNK_SIZE, batches', overviews')
    ensures failure.Some? ==>
              && FailsWithin(host, |ChunkRanges(0, |host.slides| - 1, CHUNK_SIZE)|)
              && failure == Some(host.failure.value.message)
              && batches' == ChunkRanges(0, |host.slides| - 1, CHUNK_SIZE)[..host.failure.value.run]
  {
    var chunkEnd := Deck.Min(i + CHUNK_SIZE - 1, |host.slides| - 1);
    batches' := batches + [(i, chunkEnd)];
    failure := FailsAt(host, |batches'|);
    if failure.Some? {
      PreviewingFails(host, i, batches, overviews);
      overviews' := overviews;
    } else {
      overviews' := PreviewChunk(host.slides, i, chunkEnd, overviews);
      PreviewingStep(host, i, batches, overviews, overviews');
    }
  }

  /** The batch starting at `i` is the next of the deck's batches, and the ones after it are
      those starting at `i + CHUNK_SIZE`. */
  lemma PreviewingNext(host: Host, i: nat, batches: seq<(int, int)>, overviews: seq<string>)
    requires Previewing(host, i, batches, overviews) && i < |host.slides|
    ensures var last := |host.slides| - 1;
      (batches + [(i, Deck.Min(i + CHUNK_SIZE - 1, last))]) + ChunkRanges(i + CHUNK_SIZE, last, CHUNK_SIZE)
        == ChunkRanges(0, last, CHUNK_SIZE)
  {
    var last := |host.slides| - 1;
    var rest := ChunkRanges(i + CHUNK_SIZE, last, CHUNK_SIZE);
    assert ChunkRanges(i, last, CHUNK_SIZE) == [(i, Deck.Min(i + CHUNK_SIZE - 1, last))] + rest;
    MoveFirst(batches, (i, Deck.Min(i + CHUNK_SIZE - 1, last)), rest);
  }

  /** When the batch starting at `i` fails, the batches issued are the deck's batches up to
      that one. */
  lemma PreviewingFails(host: Host, i: nat, batches: seq<(int, int)>, overviews: seq<string>)
    requires Previewing(host, i, batches, overviews) && i < |host.slides|
    requires FailsAt(host, |batches| + 1).Some?
    ensures var all := ChunkRanges(0, |host.slides| - 1, CHUNK_SIZE);
      && FailsWithin(host, |all|)
      && batches + [(i, Deck.Min(i + CHUNK_SIZE - 1, |host.slides| - 1))] == all[..host.failure.value.run]
  {
    PreviewingNext(host, i, batches, overviews);
    PrefixOfAppend(batches + [(i, Deck.Min(i + CHUNK_SIZE - 1, |host.slides| - 1))],
                   ChunkRanges(i + CHUNK_SIZE, |host.slides| - 1, CHUNK_SIZE));
  }

  /** When it succeeds, with its lines appended, the loop's invariant holds for the next batch. */
  lemma PreviewingStep(host: Host, i: nat, batches: seq<(int, int)>, overviews: seq<string>, overviews': seq<string>)
    requires Previewing(host, i, batches, overviews) && i < |host.slides|
    requires FailsAt(host, |batches| + 1).None?
    requires overviews' == Previewed(host.slides, 0, Deck.Min(i + CHUNK_SIZE - 1, |host.slides| - 1) + 1)
    ensures Previewing(host, i + CHUNK_SIZE, batches + [(i, Deck.Min(i + CHUNK_SIZE - 1, |host.slides| - 1))], overviews')
  {
    PreviewingNext(host, i, batches, overviews);
    assert Deck.Min(i + CHUNK_SIZE, |host.slides|) == Deck.Min(i + CHUNK_SIZE - 1, |host.slides| - 1) + 1;
  }

  /** One chunk of the handler's loop: `getSlidePreviewChunk(i, chunkEnd)`, its lines appended to
      those produced so far. */
  method PreviewChunk(slides: seq<Slide>, i: nat, chunkEnd: nat, overviews: seq<string>) returns (extended: seq<string>)
    requires i <= chunkEnd < |slides|
    requires overviews == Previewed(slides, 0, i)
    ensures extended == Previewed(slides, 0, chunkEnd + 1)
  {
    var chunk := GetSlidePreviewChunk(slides, i, chunkEnd);
    PreviewChunkExtends(slides, i, chunkEnd);
    extended := overviews + chunk;
  }

  /** Previewing one more chunk extends the lines produced so far to the chunk's last slide. */
  lemma PreviewChunkExtends(slides: seq<Slide>, i: nat, chunkEnd: nat)
    requires i <= chunkEnd < |slides|
    ensures Previewed(slides, 0, i) + ChunkPreviews(slides, i, chunkEnd) == Previewed(slides, 0, chunkEnd + 1)
  {
    ChunkPreviewsInRange(slides, i, chunkEnd);
    PreviewedSplit(slides, 0, i, chunkEnd + 1);
  }

  /** Within the deck, a chunk holds exactly the lines of the slides it names. */
  lemma ChunkPreviewsInRange(slides: seq<Slide>, startIdx: nat, endIdx: nat)
    requires startIdx <= endIdx < |slides|
    ensures ChunkPreviews(slides, startIdx, endIdx) == Previewed(slides, startIdx, endIdx + 1)
  {
    JsSliceInRange(slides, startIdx, endIdx + 1);
  }

  lemma PreviewedSplit(slides: seq<Slide>, lo: nat, mid: nat, hi: nat)
    requires lo <= mid <= hi <= |slides|
    ensures Previewed(slides, lo, mid) + Previewed(slides, mid, hi) == Previewed(slides, lo, hi)
  {
    MapNumberedSplit(Previewer(), slides, lo, mid, hi);
  }

  /** A successful overview lists every slide once, in order: after the heading come exactly as
      many lines as there are slides, line `k` being slide `k`'s line. */
  lemma OverviewListsEverySlide(host: Host)
    requires host.failure.None? && host.slides != []
    ensures var lines := Previewed(host.slides, 0, |host.slides|);
      && Expected(host) == TextResult(Heading(|host.slides|) + Join(lines, LINE_SEPARATOR))
      && |lines| == |host.slides|
      && forall k :: 0 <= k < |lines| ==> lines[k] == PreviewLine(host.slides[k], k)
  {
    var slides := host.slides;
    assert slides[0..|slides|] == slides;
    forall k | 0 <= k < |slides| ensures Previewed(slides, 0, |slides|)[k] == PreviewLine(slides[k], k) {
      MapNumberedAt(Previewer(), slides, 0, k);
    }
  }
}
