/**
 `KnowledgeIngestionService.chunk_text` and `ingest` (backend/app/services/knowledge/ingestion.py):
 overlapping windows over the normalised text, ended early at a line feed when there is one in the
 second half of the window.
 */
module Chunking {
  import opened Wrappers
  import opened Text
  import opened Normalisation

  datatype Chunk = Chunk(index: nat, content: string, charStart: nat, charEnd: nat)

  datatype ChunkError = MaxCharsNotPositive | OverlapOutOfRange

  predicate ValidSizes(maxChars: int, overlap: int) {
    maxChars > 0 && 0 <= overlap < maxChars
  }

  // ---------------------------------------------------------------- what the chunks promise

  /** The chunk is a stripped, non-empty, short enough slice of the text, and its offsets say which. */
  predicate ExactChunk(text: string, c: Chunk, maxChars: int) {
    c.charStart < c.charEnd <= |text| && c.charEnd - c.charStart <= maxChars &&
    c.content == text[c.charStart..c.charEnd] && !IsSpace(text[c.charStart]) && !IsSpace(text[c.charEnd - 1])
  }

  ghost predicate Exact(text: string, chunks: seq<Chunk>, maxChars: int) {
    forall k | 0 <= k < |chunks| :: chunks[k].index == k && ExactChunk(text, chunks[k], maxChars)
  }

  ghost predicate InSomeChunk(p: int, chunks: seq<Chunk>) {
    exists k :: 0 <= k < |chunks| && chunks[k].charStart <= p < chunks[k].charEnd
  }

  /** Every character before `upto` that is not whitespace lies in some chunk. */
  ghost predicate Covered(text: string, chunks: seq<Chunk>, upto: nat)
    requires upto <= |text|
  {
    forall p | 0 <= p < upto :: IsSpace(text[p]) || InSomeChunk(p, chunks)
  }

  predicate InOrder(a: Chunk, b: Chunk) {
    a.charStart <= b.charStart && a.charEnd <= b.charEnd
  }

  ghost predicate Ordered(chunks: seq<Chunk>) {
    forall i, j | 0 <= i < j < |chunks| :: InOrder(chunks[i], chunks[j])
  }

  /** The smallest advance of a window that is not the last one, as far as it is known in advance. */
  function Advance(maxChars: nat, overlap: nat): (advance: nat)
    ensures advance >= 1 && advance >= maxChars / 2 - overlap
  {
    if maxChars / 2 > overlap then maxChars / 2 - overlap else 1
  }

  // ---------------------------------------------------------------- one window

  /** Where the window that begins at `start` ends. */
  function WindowEnd(text: string, start: nat, maxChars: int): (end: nat)
    requires start < |text| && maxChars > 0
    ensures start < end <= |text| && end <= start + maxChars
    ensures end < |text| ==> end - start >= maxChars / 2
  {
    var end := if start + maxChars < |text| then start + maxChars else |text|;
    if end < |text| then
      var boundary := RFind(text, '\n', start + maxChars / 2, end);
      if boundary > start then boundary else end
    else end
  }

  /** A line feed in the second half of the longest window from `start`, but not at its very beginning. */
  predicate BreaksAt(text: string, start: nat, p: nat, maxChars: nat) {
    start < p < |text| && start + maxChars / 2 <= p < start + maxChars && text[p] == '\n'
  }

  /**
   A window is as long as it may be, or reaches the end of the text; but when text follows it, it ends
   before the last line feed of its second half if there is one.
   */
  ghost predicate EndsRight(text: string, start: nat, end: nat, maxChars: nat) {
    if |text| <= start + maxChars then end == |text|
    else if BreaksAt(text, start, end, maxChars)
    then forall p: nat | BreaksAt(text, start, p, maxChars) :: p <= end
    else end == start + maxChars && forall p: nat :: !BreaksAt(text, start, p, maxChars)
  }

  lemma WindowEndsRight(text: string, start: nat, end: nat, maxChars: nat)
    requires start < |text| && maxChars > 0
    ensures EndsRight(text, start, end, maxChars) <==> end == WindowEnd(text, start, maxChars)
  {
    if start + maxChars < |text| {
      var boundary := RFind(text, '\n', start + maxChars / 2, start + maxChars);
      forall p: nat | BreaksAt(text, start, p, maxChars) ensures p <= boundary {
        assert !(start + maxChars / 2 <= p < start + maxChars && boundary < p);
      }
      if boundary > start {
        assert BreaksAt(text, start, boundary, maxChars);
      }
    }
  }

  /** Despite the back-off to a line feed, a later window never ends earlier. */
  lemma WindowEndMonotone(text: string, start: nat, start': nat, maxChars: int)
    requires start < start' < |text| && maxChars > 0
    ensures WindowEnd(text, start, maxChars) <= WindowEnd(text, start', maxChars)
  {
  }

  /** A chunk that takes all of the window but whitespace. */
  ghost predicate FillsWindow(text: string, c: Chunk, start: nat, end: nat, maxChars: int)
    requires end <= |text|
  {
    start <= c.charStart && c.charEnd <= end && ExactChunk(text, c, maxChars) &&
    (forall p | start <= p < c.charStart :: IsSpace(text[p])) && (forall p | c.charEnd <= p < end :: IsSpace(text[p]))
  }

  lemma SliceOfSlice(text: string, a: nat, b: nat, c: nat, d: nat)
    requires a <= b <= |text| && c <= d <= b - a
    ensures text[a..b][c..d] == text[a + c..a + d]
  {
    var inner, outer := text[a..b][c..d], text[a + c..a + d];
    assert forall i | 0 <= i < d - c :: inner[i] == outer[i];
  }

  /** The first `find` hit of a window's stripped content is the stripped window itself. */
  lemma FindStripped(text: string, start: nat, end: nat, lo: nat, hi: nat)
    requires start <= lo < hi <= end <= |text|
    requires forall p | start <= p < lo :: IsSpace(text[p])
    requires !IsSpace(text[lo])
    ensures Find(text, text[lo..hi], start, end) == lo
  {
    var content := text[lo..hi];
    assert OccursAt(text, content, lo);
    var r := Find(text, content, start, end);
    assert content[0] == text[r] && content[0] == text[lo];
  }

  lemma WindowOffsets(text: string, start: nat, end: nat, a: nat, b: nat)
    requires start <= end <= |text| && a < b <= end - start
    requires var window := text[start..end];
             !IsSpace(window[a]) && !IsSpace(window[b - 1]) &&
             (forall i | 0 <= i < a :: IsSpace(window[i])) && (forall i | b <= i < |window| :: IsSpace(window[i]))
    ensures !IsSpace(text[start + a]) && !IsSpace(text[start + b - 1])
    ensures forall p | start <= p < start + a :: IsSpace(text[p])
    ensures forall p | start + b <= p < end :: IsSpace(text[p])
    ensures text[start..end][a..b] == text[start + a..start + b]
  {
    SliceOfSlice(text, start, end, a, b);
    assert forall p | start <= p < end :: text[p] == text[start..end][p - start];
  }

  lemma BlankWindow(text: string, start: nat, end: nat)
    requires start <= end <= |text| && Strip(text[start..end]) == ""
    ensures forall p | start <= p < end :: IsSpace(text[p])
  {
  }

  /** `normalized[start:end].strip()` with the offsets that `find` gives, or nothing for a blank window. */
  method ChunkOfWindow(text: string, start: nat, end: nat, index: nat, ghost maxChars: int) returns (c: Option<Chunk>)
    requires start < end <= |text| && end - start <= maxChars
    ensures c.None? ==> forall p | start <= p < end :: IsSpace(text[p])
    ensures c.Some? ==> c.value.index == index && FillsWindow(text, c.value, start, end, maxChars)
  {
    var content := Strip(text[start..end]);
    if content == "" {
      BlankWindow(text, start, end);
      return None;
    }
    ghost var lo, hi := StrippedContent(text, start, end, content);
    var actualStart := Find(text, content, start, end);
    var actualEnd := actualStart + |content|;
    return Some(Chunk(index, content, actualStart, actualEnd));
  }

  /** Where a window's stripped content lies. */
  lemma StrippedWindow(text: string, start: nat, end: nat, content: string) returns (lo: nat, hi: nat)
    requires start <= end <= |text| && content == Strip(text[start..end]) && content != ""
    ensures start <= lo < hi <= end && content == text[lo..hi] && !IsSpace(text[lo]) && !IsSpace(text[hi - 1])
    ensures forall p | start <= p < lo :: IsSpace(text[p])
    ensures forall p | hi <= p < end :: IsSpace(text[p])
  {
    var a, b := StripShape(text[start..end]);
    WindowOffsets(text, start, end, a, b);
    return start + a, start + b;
  }

  lemma StrippedContent(text: string, start: nat, end: nat, content: string) returns (lo: nat, hi: nat)
    requires start <= end <= |text| && content == Strip(text[start..end]) && content != ""
    ensures start <= lo < hi <= end && content == text[lo..hi] && Find(text, content, start, end) == lo
    ensures !IsSpace(text[lo]) && !IsSpace(text[hi - 1])
    ensures forall p | start <= p < lo :: IsSpace(text[p])
    ensures forall p | hi <= p < end :: IsSpace(text[p])
  {
    lo, hi := StrippedWindow(text, start, end, content);
    FindStripped(text, start, end, lo, hi);
  }

  /**
   The last chunk ends no later than the window, and nothing readable lies between the window's start
   and the chunk's.
   */
  ghost predicate LastNear(text: string, last: Chunk, start: nat, end: nat) {
    last.charEnd <= end && last.charStart <= |text| && (forall p | start <= p < last.charStart :: IsSpace(text[p]))
  }

  /** What the chunks of the windows before `start` look like. */
  ghost predicate Progress(text: string, chunks: seq<Chunk>, start: nat, maxChars: int)
    requires start <= |text|
  {
    Exact(text, chunks, maxChars) && Ordered(chunks) && Covered(text, chunks, start) &&
    (chunks != [] && start < |text| ==>
       LastNear(text, chunks[|chunks| - 1], start, WindowEnd(text, start, maxChars)))
  }

  lemma OrderedSnoc(chunks: seq<Chunk>, c: Chunk)
    requires Ordered(chunks)
    requires chunks != [] ==> InOrder(chunks[|chunks| - 1], c)
    ensures Ordered(chunks + [c])
  {
  }

  lemma CoveredBy(text: string, chunks: seq<Chunk>, c: Chunk, start: nat, end: nat)
    requires start <= end <= |text| && Covered(text, chunks, start) && start <= c.charStart <= c.charEnd <= end
    requires forall p | start <= p < c.charStart :: IsSpace(text[p])
    requires forall p | c.charEnd <= p < end :: IsSpace(text[p])
    ensures Covered(text, chunks + [c], end)
  {
    forall p | 0 <= p < end && !IsSpace(text[p]) ensures InSomeChunk(p, chunks + [c]) {
      if p < start {
        var k :| 0 <= k < |chunks| && chunks[k].charStart <= p < chunks[k].charEnd;
        assert (chunks + [c])[k] == chunks[k];
      } else {
        assert (chunks + [c])[|chunks|] == c;
      }
    }
  }

  /** The next chunk does not begin or end before the last one. */
  lemma NextInOrder(text: string, last: Chunk, c: Chunk, start: nat, end: nat, maxChars: int)
    requires start <= c.charStart && c.charEnd <= end <= |text| && last.charEnd <= end
    requires ExactChunk(text, last, maxChars) && ExactChunk(text, c, maxChars)
    requires forall p | start <= p < last.charStart :: IsSpace(text[p])
    requires forall p | c.charEnd <= p < end :: IsSpace(text[p])
    ensures InOrder(last, c)
  {
  }

  lemma CoveredFurther(text: string, chunks: seq<Chunk>, start: nat, end: nat)
    requires start <= end <= |text| && Covered(text, chunks, start)
    requires forall p | start <= p < end :: IsSpace(text[p])
    ensures Covered(text, chunks, end)
  {
  }

  /** The least position that `n` advances by `step` reach. */
  function Reach(n: nat, step: nat): nat {
    if n == 0 then 0 else Reach(n - 1, step) + step
  }

  lemma {:induction false} ReachIsProduct(n: nat, step: nat)
    ensures Reach(n, step) == n * step
  {
    if n > 0 {
      ReachIsProduct(n - 1, step);
    }
  }

  lemma ReachNext(n: nat, n': nat, step: nat, start: nat)
    requires Reach(n, step) <= start && n <= n' <= n + 1
    ensures n' > 0 ==> Reach(n' - 1, step) <= start
    ensures Reach(n', step) <= start + step
  {
  }

  lemma ExactSnoc(text: string, chunks: seq<Chunk>, c: Chunk, maxChars: int)
    requires Exact(text, chunks, maxChars) && c.index == |chunks| && ExactChunk(text, c, maxChars)
    ensures Exact(text, chunks + [c], maxChars)
  {
  }

  /** One window more keeps all promises. */
  lemma WindowDone(text: string, chunks: seq<Chunk>, start: nat, maxChars: int, c: Option<Chunk>, chunks': seq<Chunk>)
    requires start < |text| && maxChars > 0 && Progress(text, chunks, start, maxChars)
    requires var end := WindowEnd(text, start, maxChars);
             if c.None? then chunks' == chunks && forall p | start <= p < end :: IsSpace(text[p])
             else
               chunks' == chunks + [c.value] && c.value.index == |chunks| &&
               FillsWindow(text, c.value, start, end, maxChars)
    ensures Exact(text, chunks', maxChars) && Ordered(chunks') && |chunks| <= |chunks'| <= |chunks| + 1
    ensures Covered(text, chunks', WindowEnd(text, start, maxChars))
    ensures chunks' != [] ==> LastNear(text, chunks'[|chunks'| - 1], start, WindowEnd(text, start, maxChars))
  {
    var end := WindowEnd(text, start, maxChars);
    if c.None? {
      CoveredFurther(text, chunks, start, end);
    } else {
      if chunks != [] {
        NextInOrder(text, chunks[|chunks| - 1], c.value, start, end, maxChars);
      }
      ExactSnoc(text, chunks, c.value, maxChars);
      OrderedSnoc(chunks, c.value);
      CoveredBy(text, chunks, c.value, start, end);
    }
  }

  /** The next window begins where nothing is skipped. */
  lemma {:induction false} ProgressNext(text: string, chunks: seq<Chunk>, start: nat, next: nat, maxChars: int)
    requires start < |text| && maxChars > 0 && start < next <= WindowEnd(text, start, maxChars)
    requires Exact(text, chunks, maxChars) && Ordered(chunks) && Covered(text, chunks, WindowEnd(text, start, maxChars))
    requires chunks != [] ==> LastNear(text, chunks[|chunks| - 1], start, WindowEnd(text, start, maxChars))
    ensures Progress(text, chunks, next, maxChars)
  {
    if next < |text| {
      WindowEndMonotone(text, start, next, maxChars);
    }
  }

  // ---------------------------------------------------------------- the windows

  datatype Window = Window(start: nat, end: nat)

  /** From the beginning of the text, each window ends right and the next begins `overlap` before its end. */
  ghost predicate Chained(text: string, windows: seq<Window>, maxChars: nat, overlap: nat) {
    (windows != [] ==> windows[0].start == 0) &&
    (forall k | 0 <= k < |windows| ::
       windows[k].start < windows[k].end <= |text| && EndsRight(text, windows[k].start, windows[k].end, maxChars)) &&
    forall k | 0 <= k < |windows| - 1 :: windows[k].end < |text| && Follows(windows[k], windows[k + 1].start, overlap)
  }

  /** The next window overlaps this one as asked for, unless it would not begin later. */
  predicate Follows(w: Window, next: nat, overlap: nat) {
    if w.start + overlap < w.end then next == w.end - overlap else next == w.start + 1
  }

  /** Each chunk is all of one window but the whitespace around it; only blank windows have none. */
  ghost predicate MadeFrom(text: string, windows: seq<Window>, chunks: seq<Chunk>, maxChars: nat) {
    if windows == [] then chunks == []
    else
      var w, before := windows[|windows| - 1], windows[..|windows| - 1];
      w.start <= w.end <= |text| &&
      if forall p | w.start <= p < w.end :: IsSpace(text[p]) then MadeFrom(text, before, chunks, maxChars)
      else
        chunks != [] && FillsWindow(text, chunks[|chunks| - 1], w.start, w.end, maxChars) &&
        MadeFrom(text, before, chunks[..|chunks| - 1], maxChars)
  }

  /** The chunks are made from windows that go through the whole text. */
  ghost predicate CutFrom(text: string, windows: seq<Window>, chunks: seq<Chunk>, maxChars: nat, overlap: nat) {
    windows != [] && windows[|windows| - 1].end == |text| &&
    Chained(text, windows, maxChars, overlap) && MadeFrom(text, windows, chunks, maxChars)
  }

  /** Where the loop goes on after these windows. */
  ghost predicate GoesOn(text: string, windows: seq<Window>, start: nat, overlap: nat) {
    if windows == [] then start == 0
    else windows[|windows| - 1].end < |text| && Follows(windows[|windows| - 1], start, overlap)
  }

  lemma ChainedSnoc(text: string, windows: seq<Window>, w: Window, maxChars: nat, overlap: nat)
    requires Chained(text, windows, maxChars, overlap) && GoesOn(text, windows, w.start, overlap)
    requires w.start < w.end <= |text| && EndsRight(text, w.start, w.end, maxChars)
    ensures Chained(text, windows + [w], maxChars, overlap)
  {
  }

  lemma MadeFromSnoc(text: string, windows: seq<Window>, w: Window, chunks: seq<Chunk>, c: Option<Chunk>, maxChars: nat)
    requires MadeFrom(text, windows, chunks, maxChars) && w.start < w.end <= |text|
    requires c.None? ==> forall p | w.start <= p < w.end :: IsSpace(text[p])
    requires c.Some? ==> FillsWindow(text, c.value, w.start, w.end, maxChars)
    ensures MadeFrom(text, windows + [w], if c.None? then chunks else chunks + [c.value], maxChars)
  {
    assert (windows + [w])[..|windows|] == windows;
    if c.Some? {
      assert (chunks + [c.value])[..|chunks|] == chunks;
      assert !IsSpace(text[c.value.charStart]);
    }
  }

  // ---------------------------------------------------------------- the loop

  /** Exact slices in order, from which nothing readable is missing. */
  ghost predicate Faithful(normalized: string, chunks: seq<Chunk>, maxChars: int) {
    Exact(normalized, chunks, maxChars) && Covered(normalized, chunks, |normalized|) && Ordered(chunks)
  }

  /** The window of the last chunk begins inside the text. */
  predicate Within(count: nat, advance: nat, length: nat) {
    count > 0 ==> Reach(count - 1, advance) < length
  }

  /** At most as many chunks as advances, and one more, fit into the length: `ceil(length / advance)`. */
  predicate Few(count: nat, advance: nat, length: nat) {
    count > 0 ==> (count - 1) * advance < length
  }

  lemma {:induction false} ReachAtLeast(n: nat, step: nat)
    requires step > 0
    ensures n <= Reach(n, step)
  {
    if n > 0 {
      ReachAtLeast(n - 1, step);
    }
  }

  lemma AtMostLength(count: nat, advance: nat, length: nat)
    requires advance > 0 && Within(count, advance, length)
    ensures count <= length
  {
    if count > 0 {
      ReachAtLeast(count - 1, advance);
    }
  }

  lemma FewByReach(count: nat, advance: nat, length: nat)
    requires Within(count, advance, length)
    ensures Few(count, advance, length)
  {
    if count > 0 {
      ReachIsProduct(count - 1, advance);
    }
  }

  function NextStart(start: nat, end: nat, overlap: nat): nat {
    if end - overlap > start + 1 then end - overlap else start + 1
  }

  /** One round of the loop: the promises hold up to the next window, or for the whole text after the last one. */
  lemma Round(text: string, chunks: seq<Chunk>, start: nat, maxChars: nat, overlap: nat, c: Option<Chunk>,
              chunks': seq<Chunk>)
    requires start < |text| && ValidSizes(maxChars, overlap)
    requires Progress(text, chunks, start, maxChars) && Reach(|chunks|, Advance(maxChars, overlap)) <= start
    requires var end := WindowEnd(text, start, maxChars);
             if c.None? then chunks' == chunks && forall p | start <= p < end :: IsSpace(text[p])
             else
               chunks' == chunks + [c.value] && c.value.index == |chunks| &&
               FillsWindow(text, c.value, start, end, maxChars)
    ensures var end := WindowEnd(text, start, maxChars); var next := NextStart(start, end, overlap);
            if end == |text|
            then
              Faithful(text, chunks', maxChars) && Within(|chunks'|, Advance(maxChars, overlap), |text|)
            else
              start < next < |text| && Progress(text, chunks', next, maxChars) &&
              Reach(|chunks'|, Advance(maxChars, overlap)) <= next
  {
    var end := WindowEnd(text, start, maxChars);
    WindowDone(text, chunks, start, maxChars, c, chunks');
    ReachNext(|chunks|, |chunks'|, Advance(maxChars, overlap), start);
    if end < |text| {
      ProgressNext(text, chunks', start, NextStart(start, end, overlap), maxChars);
    }
  }

  /** The windows before `start`, and the chunks made from them. */
  ghost predicate Cutting(text: string, windows: seq<Window>, chunks: seq<Chunk>, start: nat, maxChars: nat,
                          overlap: nat) {
    Chained(text, windows, maxChars, overlap) && GoesOn(text, windows, start, overlap) &&
    MadeFrom(text, windows, chunks, maxChars)
  }

  lemma CutNext(text: string, windows: seq<Window>, chunks: seq<Chunk>, start: nat, c: Option<Chunk>, maxChars: nat,
                overlap: nat)
    requires ValidSizes(maxChars, overlap) && start < |text| && Cutting(text, windows, chunks, start, maxChars, overlap)
    requires var end := WindowEnd(text, start, maxChars);
             (c.None? ==> forall p | start <= p < end :: IsSpace(text[p])) &&
             (c.Some? ==> FillsWindow(text, c.value, start, end, maxChars))
    ensures var end := WindowEnd(text, start, maxChars);
            var windows', chunks' := windows + [Window(start, end)], if c.None? then chunks else chunks + [c.value];
            if end == |text| then CutFrom(text, windows', chunks', maxChars, overlap)
            else Cutting(text, windows', chunks', NextStart(start, end, overlap), maxChars, overlap)
  {
    var end := WindowEnd(text, start, maxChars);
    WindowEndsRight(text, start, end, maxChars);
    ChainedSnoc(text, windows, Window(start, end), maxChars, overlap);
    MadeFromSnoc(text, windows, Window(start, end), chunks, c, maxChars);
  }

  method CutWindows(normalized: string, maxChars: nat, overlap: nat)
    returns (chunks: seq<Chunk>, ghost windows: seq<Window>)
    requires ValidSizes(maxChars, overlap) && normalized != ""
    ensures CutFrom(normalized, windows, chunks, maxChars, overlap)
    ensures Faithful(normalized, chunks, maxChars) && Within(|chunks|, Advance(maxChars, overlap), |normalized|)
  {
    chunks, windows := [], [];
    var start, index := 0, 0;
    while true
      invariant start < |normalized| && index == |chunks|
      invariant Cutting(normalized, windows, chunks, start, maxChars, overlap)
      invariant Progress(normalized, chunks, start, maxChars)
      invariant Reach(|chunks|, Advance(maxChars, overlap)) <= start
      decreases |normalized| - start
    {
      var end := WindowEnd(normalized, start, maxChars);
      ghost var before := chunks;
      var c := ChunkOfWindow(normalized, start, end, index, maxChars);
      if c.Some? {
        chunks := chunks + [c.value];
        index := index + 1;
      }
      Round(normalized, before, start, maxChars, overlap, c, chunks);
      CutNext(normalized, windows, before, start, c, maxChars, overlap);
      windows := windows + [Window(start, end)];
      if end >= |normalized| {
        break;
      }
      start := NextStart(start, end, overlap);
    }
  }

  method ChunkText(text: string, maxChars: int, overlap: int)
    returns (r: Result<seq<Chunk>, ChunkError>, ghost windows: seq<Window>)
    ensures r.Success? <==> ValidSizes(maxChars, overlap)
    ensures r.Failure? ==> r.error == if maxChars <= 0 then MaxCharsNotPositive else OverlapOutOfRange
    ensures r.Success? ==> Faithful(Normalize(text), r.value, maxChars)
    ensures r.Success? ==>
            if Normalize(text) == "" then r.value == []
            else CutFrom(Normalize(text), windows, r.value, maxChars, overlap)
    ensures r.Success? ==>
            Few(|r.value|, Advance(maxChars, overlap), |Normalize(text)|) && |r.value| <= |Normalize(text)|
  {
    if maxChars <= 0 {
      return Failure(MaxCharsNotPositive), [];
    }
    if overlap < 0 || overlap >= maxChars {
      return Failure(OverlapOutOfRange), [];
    }
    var normalized := Normalize(text);
    if normalized == "" {
      return Success([]), [];
    }
    var chunks;
    chunks, windows := CutWindows(normalized, maxChars, overlap);
    FewByReach(|chunks|, Advance(maxChars, overlap), |normalized|);
    AtMostLength(|chunks|, Advance(maxChars, overlap), |normalized|);
    return Success(chunks), windows;
  }

  // ---------------------------------------------------------------- ingest

  /** The status `processing` is never committed. */
  datatype IngestionStatus = Pending | Ready | Failed

  datatype IngestError = NoContent | DocumentMissing | BadSizes(error: ChunkError) | IndexingFailed

  /** A document version with its committed chunks. `hashed` is the text whose hash is stored. */
  class DocumentVersion {
    const contentText: Option<string>
    var ingestionStatus: IngestionStatus
    var hashed: Option<string>
    var chunks: seq<Chunk>

    constructor (contentText: Option<string>)
      ensures this.contentText == contentText && ingestionStatus == Pending && hashed == None && chunks == []
    {
      this.contentText, ingestionStatus, hashed, chunks := contentText, Pending, None, [];
    }

    /** The normalised text of the version. */
    function Content(): string {
      Normalize(if contentText.Some? then contentText.value else "")
    }

    /**
     `ingest`: normalises, chunks the normalised text (which normalises it again) and commits both.
     `documentExists` and `indexed` stand for the row lookup and for the vector index provider; a
     request that ends without a commit leaves the version as it was.
     */
    method Ingest(maxChars: int, overlap: int, documentExists: bool, indexed: bool)
      returns (r: Result<nat, IngestError>)
      modifies this
      ensures r.Success? || r == Failure(IndexingFailed) ==>
              ValidSizes(maxChars, overlap) && hashed == Some(Content()) &&
              Faithful(hashed.value, chunks, maxChars) &&
              exists windows :: CutFrom(hashed.value, windows, chunks, maxChars, overlap)
      ensures r.Success? ==> ingestionStatus == Ready && r.value == |chunks|
      ensures r == Failure(DocumentMissing) ==> unchanged(this)
      ensures r.Failure? && !r.error.DocumentMissing? ==> ingestionStatus == Failed
      ensures r.Failure? && (r.error.NoContent? || r.error.BadSizes?) ==> hashed == old(hashed) && chunks == old(chunks)
      ensures r == Failure(NoContent) <==> Content() == ""
      ensures r.Failure? && r.error.BadSizes? <==> Content() != "" && !ValidSizes(maxChars, overlap)
      ensures r == Failure(DocumentMissing) <==> Content() != "" && ValidSizes(maxChars, overlap) && !documentExists
      ensures r == Failure(IndexingFailed) <==>
              Content() != "" && ValidSizes(maxChars, overlap) && documentExists && !indexed
    {
      var content := Content();
      if content == "" {
        ingestionStatus := Failed;
        return Failure(NoContent);
      }
      var made := ChunkContent(content, maxChars, overlap);
      if made.Failure? {
        ingestionStatus := Failed;
        return Failure(BadSizes(made.error));
      }
      if !documentExists {
        return Failure(DocumentMissing);
      }
      hashed, chunks, ingestionStatus := Some(content), made.value, Ready;
      if !indexed {
        ingestionStatus := Failed;
        return Failure(IndexingFailed);
      }
      return Success(|chunks|);
    }

    method ChunkContent(content: string, maxChars: int, overlap: int) returns (made: Result<seq<Chunk>, ChunkError>)
      requires content == Content()
      ensures made.Success? <==> ValidSizes(maxChars, overlap)
      ensures made.Success? ==> Faithful(content, made.value, maxChars)
      ensures made.Success? && content != "" ==>
                exists windows :: CutFrom(content, windows, made.value, maxChars, overlap)
    {
      NormalizeIdempotent(if contentText.Some? then contentText.value else "");
      ghost var windows;
      made, windows := ChunkText(content, maxChars, overlap);
    }
  }
}
