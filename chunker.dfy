/**
 * `VectorStore.chunkText` (src/services/vectorStore.ts): split a text into windows of
 * `chunkSize` characters, cutting at the window's last space when that space lies
 * strictly past 80% of `chunkSize`, stepping the cursor back by `overlap` characters
 * for the next window, trimming each piece and dropping the empty ones.
 */
module Chunker {
  import opened Text

  /** A window `text[lo..hi]` before trimming; `lo` is the cursor the window started at. */
  datatype Span = Span(lo: nat, hi: nat)

  /** How one window is cut: the piece is `window[..len]`, and the cursor moves by `advance`. */
  datatype Cut = Cut(len: nat, advance: int)

  /** The parameters under which the cursor always moves forward. */
  predicate Advancing(chunkSize: int, overlap: int) {
    0 < chunkSize && 5 * overlap <= 4 * chunkSize
  }

  /**
   * `k > chunkSize * 0.8`, the test for cutting at a space. For integers it is the
   * exact comparison `5 * k > 4 * chunkSize`.
   */
  predicate PastFourFifths(k: int, chunkSize: int) {
    5 * k > 4 * chunkSize
  }

  function Min(a: int, b: int): int { if a <= b then a else b }

  /** `text.slice(start, start + chunkSize)`. */
  function Window(text: string, chunkSize: int, start: nat): (w: string)
    requires start < |text| && 0 < chunkSize
    ensures 0 < |w| <= chunkSize && start + |w| <= |text|
    ensures |w| < chunkSize ==> start + |w| == |text|
  {
    text[start..Min(start + chunkSize, |text|)]
  }

  /**
   * The cut of one window. It ends just before the window's last space when that
   * space lies strictly past 80% of `chunkSize`; otherwise the whole window is kept.
   */
  function CutWindow(window: string, chunkSize: int, overlap: int): (c: Cut)
    requires 0 < chunkSize
    ensures c.len <= |window| && (window != [] ==> 0 < c.len)
    ensures Advancing(chunkSize, overlap) ==> c.advance > 0
  {
    var lastSpace := LastIndexOf(window, ' ');
    if PastFourFifths(lastSpace, chunkSize) then Cut(lastSpace, lastSpace + 1 - overlap)
    else Cut(|window|, chunkSize - overlap)
  }

  /**
   * The cut ends just before a space exactly when the window's last space lies past
   * 80% of `chunkSize`, and the cursor then moves to just after that space, less the
   * overlap; otherwise the whole window is kept and the cursor moves by
   * `chunkSize - overlap`.
   */
  lemma CutWindowSpec(window: string, chunkSize: int, overlap: int)
    requires 0 < chunkSize
    ensures var c := CutWindow(window, chunkSize, overlap);
      && (c.len < |window| ==>
        && window[c.len] == ' '
        && PastFourFifths(c.len, chunkSize)
        && (forall k :: c.len < k < |window| ==> window[k] != ' ')
        && c.advance == c.len + 1 - overlap)
      && (c.len == |window| ==>
        && (forall k :: 0 <= k < |window| && PastFourFifths(k, chunkSize) ==> window[k] != ' ')
        && c.advance == chunkSize - overlap)
  {
    var lastSpace := LastIndexOf(window, ' ');
    LastIndexOfSpec(window, ' ');
    if !PastFourFifths(lastSpace, chunkSize) {
      forall k | 0 <= k < |window| && PastFourFifths(k, chunkSize)
        ensures window[k] != ' '
      {
        assert lastSpace < k;
      }
    }
  }

  /** The windows the chunking loop visits from cursor `start` on, in order. */
  function Spans(text: string, chunkSize: int, overlap: int, start: nat): (spans: seq<Span>)
    requires Advancing(chunkSize, overlap)
    decreases |text| - start
    ensures |spans| > 0 <==> start < |text|
    ensures |spans| > 0 ==> spans[0].lo == start
  {
    if start >= |text| then []
    else
      var c := CutWindow(Window(text, chunkSize, start), chunkSize, overlap);
      [Span(start, start + c.len)] + Spans(text, chunkSize, overlap, start + c.advance)
  }

  /** Every span starts at or after `start`, is non-empty, lies inside `text` and is at most `chunkSize` long. */
  predicate Placed(text: string, chunkSize: int, start: nat, spans: seq<Span>) {
    forall i :: 0 <= i < |spans| ==>
      start <= spans[i].lo < spans[i].hi <= |text| && spans[i].hi - spans[i].lo <= chunkSize
  }

  /**
   * Every window starts at or after the cursor it was reached from, is non-empty,
   * lies inside `text` and holds at most `chunkSize` characters.
   */
  lemma {:induction false} SpansBounded(text: string, chunkSize: int, overlap: int, start: nat)
    requires Advancing(chunkSize, overlap)
    decreases |text| - start
    ensures Placed(text, chunkSize, start, Spans(text, chunkSize, overlap, start))
  {
    if start < |text| {
      var w := Window(text, chunkSize, start);
      var c := CutWindow(w, chunkSize, overlap);
      var rest := Spans(text, chunkSize, overlap, start + c.advance);
      SpansBounded(text, chunkSize, overlap, start + c.advance);
      var spans := Spans(text, chunkSize, overlap, start);
      assert spans == [Span(start, start + c.len)] + rest;
      forall i | 0 <= i < |spans|
        ensures start <= spans[i].lo < spans[i].hi <= |text| && spans[i].hi - spans[i].lo <= chunkSize
      {
        if i > 0 {
          assert spans[i] == rest[i - 1];
        }
      }
    }
  }

  /** The characters a span covers; empty for a span that does not lie inside `text`. */
  function SpanText(text: string, span: Span): (t: string)
    ensures |t| <= span.hi - span.lo || t == []
  {
    if span.lo <= span.hi <= |text| then text[span.lo..span.hi] else []
  }

  /** The trimmed text of each span, in order: what the loop pushes before filtering. */
  function Pieces(text: string, spans: seq<Span>): (pieces: seq<string>)
    ensures |pieces| == |spans|
  {
    if spans == [] then []
    else Pieces(text, spans[..|spans| - 1]) + [Trim(SpanText(text, spans[|spans| - 1]))]
  }

  /** `pieces.filter(c => c.length > 0)`. */
  function NonEmpty(pieces: seq<string>): (r: seq<string>)
    ensures |r| <= |pieces|
    ensures forall p :: p in r <==> p in pieces && p != []
  {
    if pieces == [] then []
    else if pieces[0] == [] then NonEmpty(pieces[1..])
    else [pieces[0]] + NonEmpty(pieces[1..])
  }

  /** What `chunkText(text, chunkSize, overlap)` returns. */
  function ChunkPieces(text: string, chunkSize: int, overlap: int): seq<string>
    requires Advancing(chunkSize, overlap)
  {
    NonEmpty(Pieces(text, Spans(text, chunkSize, overlap, 0)))
  }

  /** The chunking loop, as `chunkText` runs it. */
  method ChunkText(text: string, chunkSize: int, overlap: int) returns (chunks: seq<string>)
    requires Advancing(chunkSize, overlap)
    ensures chunks == ChunkPieces(text, chunkSize, overlap)
    ensures text == [] ==> chunks == []
    ensures forall i :: 0 <= i < |chunks| ==>
      chunks[i] != [] && IsTrimmed(chunks[i]) && |chunks[i]| <= chunkSize
  {
    var pieces: seq<string> := [];
    var start: nat := 0;
    ghost var done: seq<Span> := [];
    ghost var total := Spans(text, chunkSize, overlap, start);
    while start < |text|
      invariant done + Spans(text, chunkSize, overlap, start) == total
      invariant pieces == Pieces(text, done)
      decreases |text| - start
    {
      var chunk, next := CutAt(text, chunkSize, overlap, start);
      SpansStep(text, chunkSize, overlap, start, done, total, Span(start, start + |chunk|), next);
      PiecesSnoc(text, done, Span(start, start + |chunk|));
      pieces := pieces + [Trim(chunk)];
      done := done + [Span(start, start + |chunk|)];
      start := next;
    }
    assert done + [] == done;
    chunks := NonEmpty(pieces);
    PiecesShape(text, chunkSize, overlap);
  }

  /**
   * The body of the chunking loop: the window at `start`, cut just before its last
   * space when that space lies past 80% of `chunkSize`, and the next cursor.
   */
  method CutAt(text: string, chunkSize: int, overlap: int, start: nat) returns (chunk: string, next: int)
    requires Advancing(chunkSize, overlap) && start < |text|
    ensures var c := CutWindow(Window(text, chunkSize, start), chunkSize, overlap);
      chunk == SpanText(text, Span(start, start + c.len)) && |chunk| == c.len && next == start + c.advance
  {
    var end := start + chunkSize;
    chunk := text[start..Min(end, |text|)];
    ghost var w := chunk;
    var lastSpace := LastIndexOf(chunk, ' ');
    if PastFourFifths(lastSpace, chunkSize) {
      chunk := chunk[..lastSpace];
      next := start + lastSpace + 1 - overlap;
    } else {
      next := start + chunkSize - overlap;
    }
    assert chunk == text[start..start + |chunk|];
  }

  /** One turn of the chunking loop moves the cursor forward and consumes the next span. */
  lemma SpansStep(text: string, chunkSize: int, overlap: int, start: nat,
                  done: seq<Span>, total: seq<Span>, span: Span, next: int)
    requires Advancing(chunkSize, overlap) && start < |text|
    requires done + Spans(text, chunkSize, overlap, start) == total
    requires var c := CutWindow(Window(text, chunkSize, start), chunkSize, overlap);
      span == Span(start, start + c.len) && next == start + c.advance
    ensures start < next
    ensures (done + [span]) + Spans(text, chunkSize, overlap, next) == total
  {
    SpansUnfold(text, chunkSize, overlap, start);
    Regroup(done, span, Spans(text, chunkSize, overlap, next), Spans(text, chunkSize, overlap, start), total);
  }

  /** Moving the head of the remainder onto the end of the consumed part keeps the whole. */
  lemma Regroup<T>(done: seq<T>, x: T, rest: seq<T>, remaining: seq<T>, total: seq<T>)
    requires remaining == [x] + rest && done + remaining == total
    ensures (done + [x]) + rest == total
  {
    assert done + ([x] + rest) == (done + [x]) + rest;
  }

  /** The windows from a cursor inside the text: the window there, then those from the next cursor. */
  lemma SpansUnfold(text: string, chunkSize: int, overlap: int, start: nat)
    requires Advancing(chunkSize, overlap) && start < |text|
    ensures var c := CutWindow(Window(text, chunkSize, start), chunkSize, overlap);
      Spans(text, chunkSize, overlap, start) == [Span(start, start + c.len)] + Spans(text, chunkSize, overlap, start + c.advance)
  {
  }

  /** Appending a span appends its trimmed text. */
  lemma PiecesSnoc(text: string, done: seq<Span>, span: Span)
    ensures Pieces(text, done + [span]) == Pieces(text, done) + [Trim(SpanText(text, span))]
  {
    assert (done + [span])[..|done|] == done;
  }

  /** Every piece is trimmed and no longer than its span. */
  lemma {:induction false} PiecesBounded(text: string, spans: seq<Span>, bound: nat)
    requires forall i :: 0 <= i < |spans| ==> spans[i].hi - spans[i].lo <= bound
    ensures forall p :: p in Pieces(text, spans) ==> IsTrimmed(p) && |p| <= bound
  {
    if spans != [] {
      PiecesBounded(text, spans[..|spans| - 1], bound);
      TrimSpec(SpanText(text, spans[|spans| - 1]));
    }
  }

  /** Every chunk is non-empty, trimmed and no longer than `chunkSize`. */
  lemma PiecesShape(text: string, chunkSize: int, overlap: int)
    requires Advancing(chunkSize, overlap)
    ensures forall p :: p in ChunkPieces(text, chunkSize, overlap) ==>
      p != [] && IsTrimmed(p) && |p| <= chunkSize
  {
    SpansBounded(text, chunkSize, overlap, 0);
    PiecesBounded(text, Spans(text, chunkSize, overlap, 0), chunkSize);
  }

  /** The `k`-th piece is the trimmed text of the `k`-th span. */
  lemma {:induction false} PiecesAt(text: string, spans: seq<Span>)
    ensures forall k :: 0 <= k < |spans| ==> Pieces(text, spans)[k] == Trim(SpanText(text, spans[k]))
  {
    if spans != [] {
      var init := spans[..|spans| - 1];
      PiecesAt(text, init);
      assert Pieces(text, spans) == Pieces(text, init) + [Trim(SpanText(text, spans[|spans| - 1]))];
      forall k | 0 <= k < |init| ensures Pieces(text, spans)[k] == Trim(SpanText(text, spans[k])) {
        assert spans[k] == init[k];
      }
    }
  }

  /** Index `i` lies inside one of `spans`. */
  ghost predicate Covered(spans: seq<Span>, i: int) {
    exists k :: 0 <= k < |spans| && spans[k].lo <= i < spans[k].hi
  }

  /**
   * With a non-negative overlap, the windows leave out only spaces: every character
   * from the cursor on that is not `' '` lies in some window.
   */
  lemma {:induction false} SpansCover(text: string, chunkSize: int, overlap: int, start: nat)
    requires Advancing(chunkSize, overlap) && 0 <= overlap
    decreases |text| - start
    ensures forall i :: start <= i < |text| && text[i] != ' ' ==>
      Covered(Spans(text, chunkSize, overlap, start), i)
  {
    if start < |text| {
      var w := Window(text, chunkSize, start);
      var c := CutWindow(w, chunkSize, overlap);
      var next := start + c.advance;
      var spans := Spans(text, chunkSize, overlap, start);
      var rest := Spans(text, chunkSize, overlap, next);
      CutWindowSpec(w, chunkSize, overlap);
      SpansCover(text, chunkSize, overlap, next);
      assert spans == [Span(start, start + c.len)] + rest;
      forall i | start <= i < |text| && text[i] != ' '
        ensures Covered(spans, i)
      {
        if i < start + c.len {
          assert spans[0].lo <= i < spans[0].hi;
        } else {
          assert next <= i;
          var k :| 0 <= k < |rest| && rest[k].lo <= i < rest[k].hi;
          assert spans[k + 1] == rest[k];
        }
      }
    }
  }

  /** A text of whitespace only yields no chunk. */
  lemma AllSpaceNoChunks(text: string, chunkSize: int, overlap: int)
    requires Advancing(chunkSize, overlap) && AllSpace(text)
    ensures ChunkPieces(text, chunkSize, overlap) == []
  {
    var spans := Spans(text, chunkSize, overlap, 0);
    var pieces := Pieces(text, spans);
    PiecesAt(text, spans);
    forall k | 0 <= k < |pieces| ensures pieces[k] == [] {
      BlankSpan(text, spans[k]);
    }
    NoneKept(pieces);
  }

  /** A span of a whitespace-only text trims to nothing. */
  lemma BlankSpan(text: string, span: Span)
    requires AllSpace(text)
    ensures Trim(SpanText(text, span)) == []
  {
    var t := SpanText(text, span);
    assert AllSpace(t) by {
      if t != [] {
        assert forall m :: 0 <= m < |t| ==> t[m] == text[span.lo + m];
      }
    }
    TrimSpec(t);
  }

  /** Filtering a list of empty pieces leaves nothing. */
  lemma {:induction false} NoneKept(pieces: seq<string>)
    requires forall k :: 0 <= k < |pieces| ==> pieces[k] == []
    ensures NonEmpty(pieces) == []
  {
    if pieces != [] {
      NoneKept(pieces[1..]);
    }
  }

  /** With a non-negative overlap, a text holding a non-whitespace character yields a chunk. */
  lemma SomeTextSomeChunk(text: string, chunkSize: int, overlap: int, i: nat)
    requires Advancing(chunkSize, overlap) && 0 <= overlap
    requires i < |text| && !IsSpace(text[i])
    ensures ChunkPieces(text, chunkSize, overlap) != []
  {
    var spans := Spans(text, chunkSize, overlap, 0);
    var pieces := Pieces(text, spans);
    SpansBounded(text, chunkSize, overlap, 0);
    SpansCover(text, chunkSize, overlap, 0);
    var k :| 0 <= k < |spans| && spans[k].lo <= i < spans[k].hi;
    PieceKeepsText(text, spans[k], i);
    PiecesAt(text, spans);
    OneKept(pieces, k);
  }

  /** A span covering a non-whitespace character trims to a non-empty piece. */
  lemma PieceKeepsText(text: string, span: Span, i: nat)
    requires span.lo <= i < span.hi <= |text| && !IsSpace(text[i])
    ensures Trim(SpanText(text, span)) != []
  {
    var t := SpanText(text, span);
    assert t[i - span.lo] == text[i];
    TrimSpec(t);
  }

  /** Filtering keeps a non-empty piece, so the result is not empty. */
  lemma {:induction false} OneKept(pieces: seq<string>, k: nat)
    requires k < |pieces| && pieces[k] != []
    ensures NonEmpty(pieces) != []
  {
    if pieces[0] == [] {
      OneKept(pieces[1..], k - 1);
    }
  }

  /**
   * With a non-negative overlap, `chunkText` returns no chunk exactly when the text
   * is all whitespace.
   */
  lemma ChunkPiecesEmpty(text: string, chunkSize: int, overlap: int)
    requires Advancing(chunkSize, overlap) && 0 <= overlap
    ensures ChunkPieces(text, chunkSize, overlap) == [] <==> AllSpace(text)
  {
    if AllSpace(text) {
      AllSpaceNoChunks(text, chunkSize, overlap);
    } else {
      var i :| 0 <= i < |text| && !IsSpace(text[i]);
      SomeTextSomeChunk(text, chunkSize, overlap, i);
    }
  }

  /** `c` is the trimmed text of one of `spans`, a non-empty window inside `text`. */
  ghost predicate FromSpan(text: string, spans: seq<Span>, c: string) {
    exists k :: 0 <= k < |spans| && spans[k].lo < spans[k].hi <= |text| && c == Trim(text[spans[k].lo..spans[k].hi])
  }

  /** Every chunk `chunkText` returns is the trimmed text of one of the windows the loop visits. */
  lemma ChunksFromWindows(text: string, chunkSize: int, overlap: int)
    requires Advancing(chunkSize, overlap)
    ensures forall c :: c in ChunkPieces(text, chunkSize, overlap) ==> FromSpan(text, Spans(text, chunkSize, overlap, 0), c)
  {
    var spans := Spans(text, chunkSize, overlap, 0);
    var pieces := Pieces(text, spans);
    SpansBounded(text, chunkSize, overlap, 0);
    PiecesAt(text, spans);
    forall c | c in ChunkPieces(text, chunkSize, overlap)
      ensures FromSpan(text, spans, c)
    {
      assert c in pieces;
      var k :| 0 <= k < |pieces| && pieces[k] == c;
      assert spans[k].lo < spans[k].hi <= |text|;
    }
  }

  /** Index `i` lies inside one of `spans` whose trimmed text is among `chunks`. */
  ghost predicate InKeptWindow(text: string, spans: seq<Span>, chunks: seq<string>, i: int) {
    exists k :: 0 <= k < |spans| && spans[k].lo <= i < spans[k].hi && Trim(SpanText(text, spans[k])) in chunks
  }

  /**
   * With a non-negative overlap, no text is lost: every non-whitespace character lies
   * in a visited window whose chunk `chunkText` returns.
   */
  lemma ChunksCoverText(text: string, chunkSize: int, overlap: int)
    requires Advancing(chunkSize, overlap) && 0 <= overlap
    ensures forall i :: 0 <= i < |text| && !IsSpace(text[i]) ==>
      InKeptWindow(text, Spans(text, chunkSize, overlap, 0), ChunkPieces(text, chunkSize, overlap), i)
  {
    var spans := Spans(text, chunkSize, overlap, 0);
    var pieces := Pieces(text, spans);
    SpansCover(text, chunkSize, overlap, 0);
    PiecesAt(text, spans);
    forall i | 0 <= i < |text| && !IsSpace(text[i])
      ensures InKeptWindow(text, spans, ChunkPieces(text, chunkSize, overlap), i)
    {
      assert text[i] != ' ';
      assert Covered(spans, i);
      var k :| 0 <= k < |spans| && spans[k].lo <= i < spans[k].hi;
      SpansBounded(text, chunkSize, overlap, 0);
      PieceKeepsText(text, spans[k], i);
      assert pieces[k] in pieces;
    }
  }
}
