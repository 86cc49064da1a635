/** The `get_presentation_content` tool: the text of one slide, of a range of slides, or of the
    whole deck, read in batches of `CHUNK_SIZE` slides per host run. */
module PresentationContent {
  import opened Wrappers
  import opened Strings
  import opened Protocol
  import opened Deck

  const CHUNK_SIZE: nat := 10
  const EMPTY_SLIDE: string := "(empty slide)"
  const SLIDE_SEPARATOR: string := "\n\n"
  const TEXT_SEPARATOR: string := "\n\n"

  /** The tool's arguments; an absent property is `None`. */
  datatype ContentArgs = ContentArgs(slideIndex: Option<int>, startIndex: Option<int>, endIndex: Option<int>)

  /** The slides to read, inclusive at both ends, or the failure to report. */
  datatype Selection = Slides(start: int, end: int) | Invalid(text: string, error: string)

  /** Slide `k` is both requested (`lo <= k <= hi`) and in the deck. */
  predicate Wanted(k: int, lo: int, hi: int, count: nat)
  {
    lo <= k <= hi && 0 <= k < count
  }

  /** How the handler picks its slides in a deck of `count > 0` slides: a `slideIndex` must name
      a slide; a range is clipped to the deck and must not end up empty; otherwise every slide. */
  function SelectRange(args: ContentArgs, count: nat): (sel: Selection)
    requires count > 0
    ensures sel.Slides? ==> 0 <= sel.start <= sel.end < count
    ensures args.slideIndex.Some? ==>
              var idx := args.slideIndex.value;
              && (sel.Slides? <==> 0 <= idx < count)
              && (sel.Slides? ==> sel.start == idx == sel.end)
              && (sel.Invalid? ==> sel == Invalid("Invalid slideIndex " + IntToString(idx) + ". Must be 0-"
                                                     + NatToString(count - 1) + " (current slide count: "
                                                     + NatToString(count) + ")", "Invalid slideIndex"))
    ensures args.slideIndex.None? && args.startIndex.Some? && args.endIndex.Some? ==>
              var lo, hi := args.startIndex.value, args.endIndex.value;
              && (sel.Slides? ==> forall k :: sel.start <= k <= sel.end <==> Wanted(k, lo, hi, count))
              && (sel.Invalid? ==> forall k :: !Wanted(k, lo, hi, count))
              && (sel.Invalid? ==> sel == Invalid("Invalid range: startIndex (" + IntToString(lo)
                                                     + ") must be <= endIndex (" + IntToString(hi) + ")",
                                                     "Invalid range"))
    ensures args.slideIndex.None? && (args.startIndex.None? || args.endIndex.None?) ==>
              sel == Slides(0, count - 1)
  {
    if args.slideIndex.Some? then
      var idx := args.slideIndex.value;
      if idx < 0 || idx >= count then
        Invalid("Invalid slideIndex " + IntToString(idx) + ". Must be 0-" + NatToString(count - 1)
                + " (current slide count: " + NatToString(count) + ")", "Invalid slideIndex")
      else Slides(idx, idx)
    else if args.startIndex.Some? && args.endIndex.Some? then
      var start := Max(0, args.startIndex.value);
      var end := Min(count - 1, args.endIndex.value);
      if start > end then
        Invalid("Invalid range: startIndex (" + IntToString(args.startIndex.value) + ") must be <= endIndex ("
                + IntToString(args.endIndex.value) + ")", "Invalid range")
      else Slides(start, end)
    else Slides(0, count - 1)
  }

  /** The texts of a slide's shapes that have a non-empty text, in shape order. */
  function NonEmptyTexts(shapes: seq<Shape>): (texts: seq<string>)
    ensures |texts| <= |shapes|
    ensures forall k :: 0 <= k < |texts| ==> texts[k] != ""
    decreases |shapes|
  {
    if shapes == [] then []
    else
      var last := shapes[|shapes| - 1];
      NonEmptyTexts(shapes[..|shapes| - 1]) + (if last.text.Some? && last.text.value != "" then [last.text.value] else [])
  }

  /** A string is collected exactly when it is the non-empty text of some shape. */
  lemma {:induction false} NonEmptyTextsMembers(shapes: seq<Shape>, t: string)
    ensures t in NonEmptyTexts(shapes) <==> t != "" && exists i :: 0 <= i < |shapes| && shapes[i].text == Some(t)
    decreases |shapes|
  {
    if shapes != [] {
      var init := shapes[..|shapes| - 1];
      NonEmptyTextsMembers(init, t);
      if exists i :: 0 <= i < |init| && init[i].text == Some(t) {
        var i :| 0 <= i < |init| && init[i].text == Some(t);
        assert shapes[i] == init[i];
      }
      if exists i :: 0 <= i < |shapes| && shapes[i].text == Some(t) {
        var i :| 0 <= i < |shapes| && shapes[i].text == Some(t);
        if i < |init| {
          assert init[i] == shapes[i];
        }
      }
    }
  }

  /** No shape of the slide has a non-empty text. */
  predicate NoText(slide: Slide)
  {
    forall i :: 0 <= i < |slide| ==> slide[i].text.None? || slide[i].text.value == ""
  }

  /** The line that opens each slide's block; `k` is the 0-based index. */
  function SlideHeader(k: int, slideCount: nat): string
  {
    "=== Slide " + IntToString(k + 1) + " of " + NatToString(slideCount) + " ===\n"
  }

  /** The header is one line: it opens with `=== Slide `, ends with ` ===` and a line feed,
      and holds no other line feed. */
  lemma SlideHeaderShape(k: int, slideCount: nat)
    ensures var h := SlideHeader(k, slideCount);
      |h| > 15 && h[..10] == "=== Slide " && h[|h| - 5..] == " ===\n" && OneLine(h[..|h| - 1])
  {
    IntToStringShape(k + 1);
    NatToStringDigits(slideCount);
    HeaderLayout(IntToString(k + 1), NatToString(slideCount));
  }

  lemma HeaderLayout(n: string, c: string)
    requires OneLine(n) && OneLine(c) && |n| >= 1 && |c| >= 1
    ensures var h := "=== Slide " + n + " of " + c + " ===\n";
      |h| > 15 && h[..10] == "=== Slide " && h[|h| - 5..] == " ===\n" && OneLine(h[..|h| - 1])
  {
    OneLineConcat("=== Slide ", n);
    OneLineConcat("=== Slide " + n, " of ");
    OneLineConcat("=== Slide " + n + " of ", c);
    OneLineConcat("=== Slide " + n + " of " + c, " ===");
    var h := "=== Slide " + n + " of " + c + " ===\n";
    assert h[..|h| - 1] == "=== Slide " + n + " of " + c + " ===";
  }

  /** The slide's block from its collected texts: the texts joined, or the empty-slide marker
      when that join is empty. */
  function SlideBlock(texts: seq<string>, k: int, slideCount: nat): string
  {
    var body := Join(texts, TEXT_SEPARATOR);
    SlideHeader(k, slideCount) + (if body != "" then body else EMPTY_SLIDE)
  }

  /** A block is its header followed by a non-empty body: the joined texts, or the empty-slide
      marker when they join to nothing. */
  lemma SlideBlockShape(texts: seq<string>, k: int, slideCount: nat)
    ensures var b, h, body := SlideBlock(texts, k, slideCount), SlideHeader(k, slideCount), Join(texts, TEXT_SEPARATOR);
      && h <= b && |b| > |h|
      && b[|h|..] == (if body == "" then EMPTY_SLIDE else body)
  {
  }

  function RenderSlide(slide: Slide, k: int, slideCount: nat): string
  {
    SlideBlock(NonEmptyTexts(slide), k, slideCount)
  }

  /** The empty-slide marker appears exactly for a slide none of whose shapes has text; any other
      slide shows its texts separated by blank lines. */
  lemma RenderSlideBody(slide: Slide, k: int, slideCount: nat)
    ensures RenderSlide(slide, k, slideCount) ==
              SlideHeader(k, slideCount) + (if NoText(slide) then EMPTY_SLIDE else Join(NonEmptyTexts(slide), TEXT_SEPARATOR))
  {
    var texts := NonEmptyTexts(slide);
    JoinEmptyIff(texts, TEXT_SEPARATOR);
    if NoText(slide) {
      if texts != [] {
        NonEmptyTextsMembers(slide, texts[0]);
        assert false;
      }
    } else {
      var i :| 0 <= i < |slide| && !(slide[i].text.None? || slide[i].text.value == "");
      NonEmptyTextsMembers(slide, slide[i].text.value);
    }
  }

  /** A slide's block as a function of the slide and its number. */
  function Renderer(slideCount: nat): (Slide, int) -> string
  {
    (slide: Slide, k: int) => RenderSlide(slide, k, slideCount)
  }

  /** The blocks of the slides `refs`, numbered from `first`. */
  function Blocks(refs: seq<Slide>, first: int, slideCount: nat): (r: seq<string>)
    ensures |r| == |refs|
  {
    MapNumbered(Renderer(slideCount), refs, first)
  }

  /** What `getSlideChunkContent(startIdx, endIdx, slideCount)` returns: one block per slide of
      `slides.slice(startIdx, endIdx + 1)`, numbered from `startIdx`. */
  function ChunkContent(slides: seq<Slide>, startIdx: int, endIdx: int, slideCount: nat): seq<string>
  {
    Blocks(JsSlice(slides, startIdx, endIdx + 1), startIdx, slideCount)
  }

  /** The blocks of slides `lo` to `hi - 1`. */
  function Rendered(slides: seq<Slide>, lo: nat, hi: nat, slideCount: nat): (r: seq<string>)
    requires lo <= hi <= |slides|
    ensures |r| == hi - lo
  {
    Blocks(slides[lo..hi], lo, slideCount)
  }

  /** Within the deck, a chunk holds exactly the blocks of the slides it names. */
  lemma ChunkContentInRange(slides: seq<Slide>, startIdx: nat, endIdx: nat, slideCount: nat)
    requires startIdx <= endIdx < |slides|
    ensures ChunkContent(slides, startIdx, endIdx, slideCount) == Rendered(slides, startIdx, endIdx + 1, slideCount)
  {
    JsSliceInRange(slides, startIdx, endIdx + 1);
  }

  lemma RenderedSplit(slides: seq<Slide>, lo: nat, mid: nat, hi: nat, slideCount: nat)
    requires lo <= mid <= hi <= |slides|
    ensures Rendered(slides, lo, mid, slideCount) + Rendered(slides, mid, hi, slideCount) == Rendered(slides, lo, hi, slideCount)
  {
    MapNumberedSplit(Renderer(slideCount), slides, lo, mid, hi);
  }

  /** The inner loop of `getSlideChunkContent`: the shapes' texts that are present and non-empty. */
  method CollectTexts(slide: Slide) returns (texts: seq<string>)
    ensures texts == NonEmptyTexts(slide)
  {
    texts := [];
    for j := 0 to |slide|
      invariant texts == NonEmptyTexts(slide[..j])
    {
      assert slide[..j + 1][..j] == slide[..j];
      var shape := slide[j];
      if shape.text.Some? && shape.text.value != "" {
        texts := texts + [shape.text.value];
      }
    }
    assert slide[..|slide|] == slide;
  }

  /** One iteration of `getSlideChunkContent`'s extraction loop: a slide's block. */
  method ReadSlide(slide: Slide, k: int, slideCount: nat) returns (block: string)
    ensures block == RenderSlide(slide, k, slideCount)
  {
    var texts := CollectTexts(slide);
    block := SlideBlock(texts, k, slideCount);
  }

  /** `getSlideChunkContent`: one host run that reads the chunk's slides and the texts of their
      shapes. */
  method GetSlideChunkContent(slides: seq<Slide>, startIdx: int, endIdx: int, slideCount: nat)
    returns (results: seq<string>)
    ensures results == ChunkContent(slides, startIdx, endIdx, slideCount)
  {
    var refs := JsSlice(slides, startIdx, endIdx + 1);
    results := [];
    for i := 0 to |refs|
      invariant results == Blocks(refs[..i], startIdx, slideCount)
    {
      MapNumberedSnoc(Renderer(slideCount), refs, i, startIdx);
      var block := ReadSlide(refs[i], startIdx + i, slideCount);
      results := results + [block];
    }
    assert refs[..|refs|] == refs;
  }

  /** Within the selection `start..end`, the chunk from `i` to `chunkEnd` holds the selection's
      blocks at those positions. */
  lemma ChunkOfSelection(slides: seq<Slide>, start: nat, end: nat, i: nat, chunkEnd: nat, slideCount: nat)
    requires start <= i <= chunkEnd <= end < |slides|
    ensures ChunkContent(slides, i, chunkEnd, slideCount)
            == Rendered(slides, start, end + 1, slideCount)[i - start..chunkEnd + 1 - start]
  {
    JsSliceInRange(slides, i, chunkEnd + 1);
    MapNumberedSlice(Renderer(slideCount), slides, start, i, chunkEnd + 1, end + 1);
  }

  /** One chunk of the handler's loop: `getSlideChunkContent(i, chunkEnd, slideCount)`, its
      blocks appended to those read so far; `all` is the blocks of the whole selection. */
  method ReadChunk(slides: seq<Slide>, start: nat, end: nat, i: nat, chunkEnd: nat, slideCount: nat,
                   results: seq<string>, ghost all: seq<string>)
    returns (extended: seq<string>)
    requires start <= i <= chunkEnd <= end < |slides|
    requires all == Rendered(slides, start, end + 1, slideCount)
    requires results == all[..i - start]
    ensures extended == all[..chunkEnd + 1 - start]
  {
    var chunk := GetSlideChunkContent(slides, i, chunkEnd, slideCount);
    ChunkOfSelection(slides, start, end, i, chunkEnd, slideCount);
    extended := results + chunk;
    assert all[..chunkEnd + 1 - start] == all[..i - start] + all[i - start..chunkEnd + 1 - start];
  }

  /** The batches a successful call over a deck of `count` slides issues after counting them. */
  function Batches(args: ContentArgs, count: nat): seq<(int, int)>
  {
    if count == 0 then []
    else match SelectRange(args, count)
      case Invalid(_, _) => []
      case Slides(start, end) => ChunkRanges(start, end, CHUNK_SIZE)
  }

  /** The handler's result, stated over the whole selection at once. */
  function Expected(args: ContentArgs, host: Host): (r: ToolResult)
    ensures r.ResultObject? ==> r.resultType == Failure
    ensures FailsAt(host, 0).Some? ==> r == HostFailure(host.failure.value.message)
    ensures host.failure.None? && |host.slides| == 0 ==> r == TextResult(NO_SLIDES)
    ensures host.failure.None? ==> (r.ResultObject? <==> |host.slides| > 0 && SelectRange(args, |host.slides|).Invalid?)
  {
    var count := |host.slides|;
    if FailsAt(host, 0).Some? then HostFailure(FailsAt(host, 0).value)
    else if count == 0 then TextResult(NO_SLIDES)
    else match SelectRange(args, count)
      case Invalid(text, error) => FailureResult(text, error)
      case Slides(start, end) => SelectionResult(host, start, end)
  }

  /** The result of reading the slides `start` to `end`: their blocks separated by blank lines,
      unless one of the batches covering them fails. */
  function SelectionResult(host: Host, start: nat, end: nat): ToolResult
    requires start <= end < |host.slides|
  {
    if FailsWithin(host, |ChunkRanges(start, end, CHUNK_SIZE)|) then HostFailure(host.failure.value.message)
    else TextResult(Join(Rendered(host.slides, start, end + 1, |host.slides|), SLIDE_SEPARATOR))
  }

  /** The handler: count the slides, pick the selection, then read it chunk by chunk and join
      the blocks; any rejected host run becomes a failure carrying its message. */
  method GetPresentationContent(args: ContentArgs, host: Host) returns (r: ToolResult, batches: seq<(int, int)>)
    ensures r == Expected(args, host)
    ensures FailsAt(host, 0).Some? ==> batches == []
    ensures FailsAt(host, 0).None? && !FailsWithin(host, |Batches(args, |host.slides|)|) ==>
              batches == Batches(args, |host.slides|)
    ensures FailsAt(host, 0).None? && FailsWithin(host, |Batches(args, |host.slides|)|) ==>
              batches == Batches(args, |host.slides|)[..host.failure.value.run]
  {
    batches := [];
    var countFailure := FailsAt(host, 0);
    if countFailure.Some? {
      return HostFailure(countFailure.value), batches;
    }
    var slideCount := |host.slides|;
    if slideCount == 0 {
      return TextResult(NO_SLIDES), batches;
    }
    var sel := SelectRange(args, slideCount);
    if sel.Invalid? {
      return FailureResult(sel.text, sel.error), batches;
    }
    r, batches := ReadSelection(host, sel.start, sel.end);
  }

  /** The handler's chunk loop: one batch of at most `CHUNK_SIZE` slides per host run, until the
      selection is read or a run fails. */
  method ReadSelection(host: Host, start: nat, end: nat) returns (r: ToolResult, batches: seq<(int, int)>)
    requires start <= end < |host.slides|
    ensures r == SelectionResult(host, start, end)
    ensures !FailsWithin(host, |ChunkRanges(start, end, CHUNK_SIZE)|) ==> batches == ChunkRanges(start, end, CHUNK_SIZE)
    ensures FailsWithin(host, |ChunkRanges(start, end, CHUNK_SIZE)|) ==>
              batches == ChunkRanges(start, end, CHUNK_SIZE)[..host.failure.value.run]
  {
    ghost var all := Rendered(host.slides, start, end + 1, |host.slides|);
    var results: seq<string> := [];
    batches := [];
    var i := start;
    while i <= end
      invariant Reading(host, start, end, i, batches, results, all)
      decreases end + 1 - i
    {
      var failure;
      batches, results, failure := ReadNextBatch(host, start, end, i, batches, results, all);
      if failure.Some? {
        return HostFailure(failure.value), batches;
      }
      i := i + CHUNK_SIZE;
    }
    ReadingDone(host, start, end, i, batches, results, all);
    r := TextResult(Join(results, SLIDE_SEPARATOR));
  }

  /** What holds of the chunk loop before each batch: the batches issued and those still to come
      make up all of the selection's batches, none of the issued ones failed, and the blocks of
      the selected slides before `i` have been read; `all` is the blocks of the whole selection. */
  ghost predicate Reading(host: Host, start: nat, end: nat, i: int, batches: seq<(int, int)>, results: seq<string>,
                          all: seq<string>)
  {
    && start <= end < |host.slides| && start <= i && |all| == end + 1 - start
    && batches + ChunkRanges(i, end, CHUNK_SIZE) == ChunkRanges(start, end, CHUNK_SIZE)
    && !FailsWithin(host, |batches|)
    && results == all[..Min(i, end + 1) - start]
  }

  /** Once `i` is past the selection, every batch was issued and every selected slide read. */
  lemma ReadingDone(host: Host, start: nat, end: nat, i: int, batches: seq<(int, int)>, results: seq<string>,
                    all: seq<string>)
    requires Reading(host, start, end, i, batches, results, all) && end < i
    ensures batches == ChunkRanges(start, end, CHUNK_SIZE) && !FailsWithin(host, |batches|)
    ensures results == all
  {
    assert batches + [] == batches;
    assert Min(i, end + 1) == end + 1;
  }

  /** One iteration of the chunk loop: issue the batch starting at `i`; it either fails, ending
      the call, or appends its blocks. */
  method ReadNextBatch(host: Host, start: nat, end: nat, i: nat, batches: seq<(int, int)>, results: seq<string>,
                       ghost all: seq<string>)
    returns (batches': seq<(int, int)>, results': seq<string>, failure: Option<string>)
    requires Reading(host, start, end, i, batches, results, all) && i <= end
    requires all == Rendered(host.slides, start, end + 1, |host.slides|)
    ensures failure.None? ==> Reading(host, start, end, i + CHUNK_SIZE, batches', results', all)
    ensures failure.Some? ==>
              && FailsWithin(host, |ChunkRanges(start, end, CHUNK_SIZE)|)
              && failure == Some(host.failure.value.message)
              && batches' == ChunkRanges(start, end, CHUNK_SIZE)[..host.failure.value.run]
  {
    var chunkEnd := Min(i + CHUNK_SIZE - 1, end);
    batches' := batches + [(i, chunkEnd)];
    failure := FailsAt(host, |batches'|);
    if failure.Some? {
      ReadingFails(host, start, end, i, batches, results, all);
      results' := results;
    } else {
      assert Min(i, end + 1) == i;
      results' := ReadChunk(host.slides, start, end, i, chunkEnd, |host.slides|, results, all);
      ReadingStep(host, start, end, i, batches, results, all, results');
    }
  }

  /** The batch starting at `i` is the next of the selection's batches, and the ones after it
      are those starting at `i + CHUNK_SIZE`. */
  lemma ReadingNext(host: Host, start: nat, end: nat, i: nat, batches: seq<(int, int)>, results: seq<string>,
                    all: seq<string>)
    requires Reading(host, start, end, i, batches, results, all) && i <= end
    ensures (batches + [(i, Min(i + CHUNK_SIZE - 1, end))]) + ChunkRanges(i + CHUNK_SIZE, end, CHUNK_SIZE)
            == ChunkRanges(start, end, CHUNK_SIZE)
  {
    var rest := ChunkRanges(i + CHUNK_SIZE, end, CHUNK_SIZE);
    assert ChunkRanges(i, end, CHUNK_SIZE) == [(i, Min(i + CHUNK_SIZE - 1, end))] + rest;
    MoveFirst(batches, (i, Min(i + CHUNK_SIZE - 1, end)), rest);
  }

  /** When the batch starting at `i` fails, the batches issued are the selection's batches up
      to that one. */
  lemma ReadingFails(host: Host, start: nat, end: nat, i: nat, batches: seq<(int, int)>, results: seq<string>,
                     all: seq<string>)
    requires Reading(host, start, end, i, batches, results, all) && i <= end
    requires FailsAt(host, |batches| + 1).Some?
    ensures var every := ChunkRanges(start, end, CHUNK_SIZE);
      && FailsWithin(host, |every|)
      && batches + [(i, Min(i + CHUNK_SIZE - 1, end))] == every[..host.failure.value.run]
  {
    ReadingNext(host, start, end, i, batches, results, all);
    PrefixOfAppend(batches + [(i, Min(i + CHUNK_SIZE - 1, end))], ChunkRanges(i + CHUNK_SIZE, end, CHUNK_SIZE));
  }

  /** When it succeeds, with its blocks appended, the loop's invariant holds for the next batch. */
  lemma ReadingStep(host: Host, start: nat, end: nat, i: nat, batches: seq<(int, int)>, results: seq<string>,
                    all: seq<string>, results': seq<string>)
    requires Reading(host, start, end, i, batches, results, all) && i <= end
    requires FailsAt(host, |batches| + 1).None?
    requires results' == all[..Min(i + CHUNK_SIZE - 1, end) + 1 - start]
    ensures Reading(host, start, end, i + CHUNK_SIZE, batches + [(i, Min(i + CHUNK_SIZE - 1, end))], results', all)
  {
    ReadingNext(host, start, end, i, batches, results, all);
    assert Min(i + CHUNK_SIZE, end + 1) == Min(i + CHUNK_SIZE - 1, end) + 1;
  }

  /** A valid `slideIndex` reads exactly that slide, whatever range arguments come with it. */
  lemma SingleSlideRead(args: ContentArgs, host: Host)
    requires args.slideIndex.Some? && 0 <= args.slideIndex.value < |host.slides|
    requires host.failure.None?
    ensures Expected(args, host) ==
              TextResult(RenderSlide(host.slides[args.slideIndex.value], args.slideIndex.value, |host.slides|))
    ensures Batches(args, |host.slides|) == [(args.slideIndex.value, args.slideIndex.value)]
  {
    var k := args.slideIndex.value;
    MapNumberedAt(Renderer(|host.slides|), host.slides[k..k + 1], k, 0);
  }

  /** A successful read of a selection lists each selected slide once, in order: block `k` is
      the block of slide `start + k`, numbered as that slide. */
  lemma SelectionListsEverySlide(host: Host, start: nat, end: nat)
    requires start <= end < |host.slides| && host.failure.None?
    ensures var blocks := Rendered(host.slides, start, end + 1, |host.slides|);
      && SelectionResult(host, start, end) == TextResult(Join(blocks, SLIDE_SEPARATOR))
      && |blocks| == end + 1 - start
      && forall k :: 0 <= k < |blocks| ==>
           blocks[k] == RenderSlide(host.slides[start + k], start + k, |host.slides|)
  {
    var slides := host.slides[start..end + 1];
    var blocks := Rendered(host.slides, start, end + 1, |host.slides|);
    forall k | 0 <= k < |slides| ensures blocks[k] == RenderSlide(slides[k], start + k, |host.slides|) {
      MapNumberedAt(Renderer(|host.slides|), slides, start, k);
    }
  }

  /** A range reaching past both ends of the deck reads the same as no arguments at all. */
  lemma OversizedRangeReadsAll(lo: int, hi: int, host: Host)
    requires lo <= 0 && |host.slides| <= hi + 1
    ensures Expected(ContentArgs(None, Some(lo), Some(hi)), host) == Expected(ContentArgs(None, None, None), host)
  {
  }

  /** A range given by only one of its ends is ignored: every slide is read. */
  lemma HalfRangeReadsAll(lo: Option<int>, hi: Option<int>, host: Host)
    requires lo.None? || hi.None?
    ensures Expected(ContentArgs(None, lo, hi), host) == Expected(ContentArgs(None, None, None), host)
  {
  }
}
