/**
 Splitting a long message for Telegram (pkg/tools/delivery.go). Text is a sequence of bytes;
 one `char` stands for one byte.
 */
module Telegram {

  const LIMIT: nat := 4096

  // -- Text and paragraphs ---------------------------------------------------------------

  /** `strings.Split(text, "\n")`. */
  function Paragraphs(text: string): (ps: seq<string>)
    ensures |ps| >= 1
  {
    if text == [] then [""]
    else if text[0] == '\n' then [""] + Paragraphs(text[1..])
    else
      var rest := Paragraphs(text[1..]);
      [[text[0]] + rest[0]] + rest[1..]
  }

  /** The first `i` paragraphs with a newline between neighbours. */
  function Joined(ps: seq<string>, i: nat): string
    requires i <= |ps|
  {
    if i == 0 then "" else Joined(ps, i - 1) + Separator(i - 1) + ps[i - 1]
  }

  /** What stands before paragraph `i` in the text. */
  function Separator(i: nat): string {
    if i == 0 then "" else "\n"
  }

  lemma {:induction false} JoinedShift(p: string, ps: seq<string>, i: nat)
    requires 1 <= i <= |ps|
    ensures Joined([p] + ps, i + 1) == p + "\n" + Joined(ps, i)
  {
    assert ([p] + ps)[i] == ps[i - 1];
    if i > 1 {
      JoinedShift(p, ps, i - 1);
    } else {
      assert Joined([p] + ps, 1) == p;
    }
  }

  lemma {:induction false} JoinedPrepend(c: string, ps: seq<string>, i: nat)
    requires 1 <= i <= |ps|
    ensures Joined([c + ps[0]] + ps[1..], i) == c + Joined(ps, i)
  {
    var qs := [c + ps[0]] + ps[1..];
    if i > 1 {
      JoinedPrepend(c, ps, i - 1);
      assert qs[i - 1] == ps[i - 1];
    }
  }

  predicate IsLine(p: string) {
    '\n' !in p
  }

  ghost predicate AreLines(ps: seq<string>) {
    forall i :: 0 <= i < |ps| ==> IsLine(ps[i])
  }

  lemma {:induction false} ParagraphsAreLines(text: string)
    ensures AreLines(Paragraphs(text))
  {
    if text != [] {
      ParagraphsAreLines(text[1..]);
    }
  }

  /** Splitting at newlines loses nothing: joining the paragraphs gives the text back. */
  lemma {:induction false} JoinParagraphs(text: string)
    ensures Joined(Paragraphs(text), |Paragraphs(text)|) == text
  {
    if text != [] {
      var rest := Paragraphs(text[1..]);
      JoinParagraphs(text[1..]);
      if text[0] == '\n' {
        JoinedShift("", rest, |rest|);
        assert "" + "\n" + text[1..] == text;
      } else {
        JoinedPrepend([text[0]], rest, |rest|);
        assert [text[0]] + text[1..] == text;
      }
    }
  }

  // -- How chunks relate to the text -----------------------------------------------------

  ghost predicate NewlinesOnly(s: string) {
    forall k :: 0 <= k < |s| ==> s[k] == '\n'
  }

  /** `gaps[0] + chunks[0] + gaps[1] + chunks[1] + ...` */
  ghost function Weave(gaps: seq<string>, chunks: seq<string>): string
    requires |gaps| == |chunks|
  {
    if chunks == [] then ""
    else
      var n := |chunks| - 1;
      Weave(gaps[..n], chunks[..n]) + gaps[n] + chunks[n]
  }

  ghost predicate WovenFrom(text: string, chunks: seq<string>, gaps: seq<string>, tail: string) {
    && |gaps| == |chunks|
    && (forall g :: g in gaps ==> NewlinesOnly(g))
    && NewlinesOnly(tail)
    && text == Weave(gaps, chunks) + tail
  }

  /** The chunks are consecutive slices of the text, and only newlines lie between them. */
  ghost predicate SlicesOf(chunks: seq<string>, text: string) {
    exists gaps, tail :: WovenFrom(text, chunks, gaps, tail)
  }

  lemma WeaveSnoc(gaps: seq<string>, chunks: seq<string>, g: string, c: string)
    requires |gaps| == |chunks|
    ensures Weave(gaps + [g], chunks + [c]) == Weave(gaps, chunks) + g + c
  {
    assert (gaps + [g])[..|gaps|] == gaps;
    assert (chunks + [c])[..|chunks|] == chunks;
  }

  function Concat(chunks: seq<string>): string {
    if chunks == [] then "" else Concat(chunks[..|chunks| - 1]) + chunks[|chunks| - 1]
  }

  function WithoutNewlines(s: string): string {
    if s == [] then ""
    else WithoutNewlines(s[..|s| - 1]) + (if s[|s| - 1] == '\n' then "" else [s[|s| - 1]])
  }

  lemma {:induction false} WithoutNewlinesConcat(a: string, b: string)
    ensures WithoutNewlines(a + b) == WithoutNewlines(a) + WithoutNewlines(b)
  {
    if b == [] {
      assert a + b == a;
    } else {
      var n := |b| - 1;
      WithoutNewlinesConcat(a, b[..n]);
      assert (a + b)[..|a + b| - 1] == a + b[..n];
    }
  }

  lemma {:induction false} NewlinesVanish(s: string)
    requires NewlinesOnly(s)
    ensures WithoutNewlines(s) == ""
  {
    if s != [] {
      NewlinesVanish(s[..|s| - 1]);
    }
  }

  lemma {:induction false} WeaveContent(gaps: seq<string>, chunks: seq<string>)
    requires |gaps| == |chunks|
    requires forall g :: g in gaps ==> NewlinesOnly(g)
    ensures WithoutNewlines(Weave(gaps, chunks)) == WithoutNewlines(Concat(chunks))
    ensures |Concat(chunks)| <= |Weave(gaps, chunks)|
  {
    if chunks != [] {
      var n := |chunks| - 1;
      var w := Weave(gaps[..n], chunks[..n]);
      assert forall g :: g in gaps[..n] ==> g in gaps;
      WeaveContent(gaps[..n], chunks[..n]);
      assert gaps[n] in gaps;
      NewlinesVanish(gaps[n]);
      assert WithoutNewlines(w + gaps[n]) == WithoutNewlines(w) by {
        WithoutNewlinesConcat(w, gaps[n]);
      }
      WithoutNewlinesConcat(w + gaps[n], chunks[n]);
      WithoutNewlinesConcat(Concat(chunks[..n]), chunks[n]);
    }
  }

  /** Apart from newlines, the chunks put one after another are the text, in order. */
  lemma ContentPreserved(text: string, chunks: seq<string>)
    requires SlicesOf(chunks, text)
    ensures WithoutNewlines(Concat(chunks)) == WithoutNewlines(text)
    ensures |Concat(chunks)| <= |text|
  {
    var gaps, tail :| WovenFrom(text, chunks, gaps, tail);
    WeaveContent(gaps, chunks);
    NewlinesVanish(tail);
    WithoutNewlinesConcat(Weave(gaps, chunks), tail);
  }

  // -- Where lines are cut ---------------------------------------------------------------

  /** Place `p` lies inside a line. */
  predicate InsideLine(text: string, p: nat) {
    0 < p < |text| && text[p - 1] != '\n' && text[p] != '\n'
  }

  /** A stretch of the text around place `p` without a newline. */
  ghost predicate Stretch(text: string, lo: nat, p: nat, hi: nat) {
    lo < p < hi <= |text| && forall k :: lo <= k < hi ==> text[k] != '\n'
  }

  /** The line around place `p` is longer than a message. */
  ghost predicate InLongLine(text: string, p: nat) {
    exists lo: nat, hi: nat :: Stretch(text, lo, p, hi) && hi - lo > LIMIT
  }

  ghost predicate MayCut(text: string, p: nat) {
    InsideLine(text, p) ==> InLongLine(text, p)
  }

  /** Where two neighbouring chunks, or the last one and the rest, meet without a newline, the text may be cut. */
  ghost predicate CutsOk(text: string, chunks: seq<string>, gaps: seq<string>, tail: string)
    requires |gaps| == |chunks|
  {
    && (forall j :: 0 < j < |chunks| && gaps[j] == "" ==> MayCut(text, |Weave(gaps[..j], chunks[..j])|))
    && (chunks != [] && tail == "" ==> MayCut(text, |Weave(gaps, chunks)|))
  }

  /** The chunks are slices of the text, and a line is cut only if it is itself longer than a message. */
  ghost predicate CutsOnlyLongLines(chunks: seq<string>, text: string) {
    exists gaps, tail :: WovenFrom(text, chunks, gaps, tail) && CutsOk(text, chunks, gaps, tail)
  }

  lemma MayCutLater(text: string, more: string, p: nat)
    requires MayCut(text, p) && p <= |text| && (p == |text| ==> MayCut(text + more, p))
    ensures MayCut(text + more, p)
  {
    if InsideLine(text + more, p) && p < |text| {
      var lo: nat, hi: nat :| Stretch(text, lo, p, hi) && hi - lo > LIMIT;
      assert Stretch(text + more, lo, p, hi);
    }
  }

  lemma {:induction false} WeavePrefix(gaps: seq<string>, chunks: seq<string>, j: nat)
    requires |gaps| == |chunks| && j <= |chunks|
    ensures |Weave(gaps[..j], chunks[..j])| <= |Weave(gaps, chunks)|
  {
    if j == |chunks| {
      assert gaps[..j] == gaps && chunks[..j] == chunks;
    } else {
      var n := |chunks| - 1;
      WeavePrefix(gaps[..n], chunks[..n], j);
      assert gaps[..n][..j] == gaps[..j] && chunks[..n][..j] == chunks[..j];
    }
  }

  /** Text that is added may be cut off from what stands before it, so the earlier cuts stay in order. */
  lemma CutsStayOk(text: string, more: string, chunks: seq<string>, gaps: seq<string>, tail: string)
    requires |gaps| == |chunks| && CutsOk(text, chunks, gaps, tail) && |Weave(gaps, chunks)| <= |text|
    requires MayCut(text + more, |text|)
    ensures CutsOk(text + more, chunks, gaps, tail)
  {
    forall j | 0 < j < |chunks| && gaps[j] == ""
      ensures MayCut(text + more, |Weave(gaps[..j], chunks[..j])|)
    {
      WeavePrefix(gaps, chunks, j);
      MayCutLater(text, more, |Weave(gaps[..j], chunks[..j])|);
    }
    if chunks != [] && tail == "" {
      MayCutLater(text, more, |Weave(gaps, chunks)|);
    }
  }

  lemma CutsSnoc(text: string, chunks: seq<string>, gaps: seq<string>, gap: string, current: string, newlines: string)
    requires |gaps| == |chunks| && CutsOk(text, chunks, gaps, gap)
    requires newlines == "" ==> MayCut(text, |Weave(gaps, chunks) + gap + current|)
    ensures CutsOk(text, chunks + [current], gaps + [gap], newlines)
  {
    WeaveSnoc(gaps, chunks, gap, current);
    forall j | 0 < j < |chunks + [current]| && (gaps + [gap])[j] == ""
      ensures MayCut(text, |Weave((gaps + [gap])[..j], (chunks + [current])[..j])|)
    {
      assert (gaps + [gap])[..j] == gaps[..j] && (chunks + [current])[..j] == chunks[..j];
      if j == |chunks| {
        assert gaps[..j] == gaps && chunks[..j] == chunks;
      }
    }
  }

  /** The text ends with a full piece of a line. */
  ghost predicate EndsInPiece(text: string) {
    |text| >= LIMIT && forall k :: |text| - LIMIT <= k < |text| ==> text[k] != '\n'
  }

  /** What follows after these newlines starts a line, or goes on with one that fills more than a message. */
  ghost predicate Joins(text: string, newlines: string) {
    NewlinesOnly(newlines) && (newlines != "" || text == "" || EndsInPiece(text))
  }

  lemma JoinMayCut(text: string, newlines: string, next: string)
    requires Joins(text, newlines) && IsLine(next)
    ensures MayCut(text + newlines + next, |text|)
  {
    var all, p := text + newlines + next, |text|;
    if newlines == "" && text != "" && next != "" {
      assert Stretch(all, p - LIMIT, p, p + 1);
    }
  }

  lemma PieceEndsInPiece(text: string, piece: string)
    requires |piece| == LIMIT && IsLine(piece)
    ensures EndsInPiece(text + piece)
  {
  }

  // -- How full the chunks are -----------------------------------------------------------

  /** Any two neighbours together fill at least one message. */
  ghost predicate Packed(chunks: seq<string>) {
    forall i, j :: 0 <= i < j < |chunks| && j == i + 1 ==> |chunks[i]| + |chunks[j]| >= LIMIT
  }

  lemma {:induction false} PackedTotal(chunks: seq<string>)
    requires Packed(chunks)
    ensures LIMIT * (|chunks| / 2) <= |Concat(chunks)|
  {
    if |chunks| >= 2 {
      var n := |chunks| - 2;
      PackedTotal(chunks[..n]);
      assert chunks[..n + 1][..n] == chunks[..n];
      assert Concat(chunks) == Concat(chunks[..n]) + chunks[n] + chunks[n + 1];
    }
  }

  /** The number of messages is at most twice the number of full messages in the text, plus one. */
  lemma ChunkCountBound(text: string, chunks: seq<string>)
    requires SlicesOf(chunks, text) && Packed(chunks)
    ensures |chunks| <= 2 * (|text| / LIMIT) + 1
  {
    ContentPreserved(text, chunks);
    PackedTotal(chunks);
  }

  // -- When an empty message is sent -----------------------------------------------------

  /** What is left of a paragraph once full pieces were cut off its front. */
  function Remainder(n: nat): (r: nat)
    ensures r <= LIMIT
  {
    if n <= LIMIT then n else Remainder(n - LIMIT)
  }

  /** Bytes buffered before paragraph `i`, computed from paragraph lengths alone. */
  function Buffered(ps: seq<string>, i: nat): nat
    requires i <= |ps|
  {
    if i == 0 then 0
    else
      var before := if |ps[i - 1]| > LIMIT then 0 else Buffered(ps, i - 1);
      var r := Remainder(|ps[i - 1]|);
      if before == 0 || before + r + 1 > LIMIT then r else before + 1 + r
  }

  /** A remainder of exactly one full message meets an empty buffer. */
  predicate FlushesNothing(ps: seq<string>, i: nat)
    requires i < |ps|
  {
    Remainder(|ps[i]|) == LIMIT && (|ps[i]| > LIMIT || Buffered(ps, i) == 0)
  }

  ghost predicate SomeFlushesNothing(ps: seq<string>, n: nat)
    requires n <= |ps|
  {
    exists i :: 0 <= i < n && FlushesNothing(ps, i)
  }

  lemma SomeFlushesNothingStep(ps: seq<string>, n: nat)
    requires n < |ps|
    ensures SomeFlushesNothing(ps, n + 1) <==> SomeFlushesNothing(ps, n) || FlushesNothing(ps, n)
  {
    if SomeFlushesNothing(ps, n + 1) {
      var i :| 0 <= i < n + 1 && FlushesNothing(ps, i);
      assert i < n || i == n;
    }
  }

  lemma RemainderOfRest(rest: string)
    requires |rest| > LIMIT
    ensures Remainder(|rest|) == Remainder(|rest[LIMIT..]|)
  {
    assert |rest[LIMIT..]| == |rest| - LIMIT;
  }

  function Repeated(c: char, n: nat): (s: string)
    ensures |s| == n && forall k :: 0 <= k < n ==> s[k] == c
  {
    if n == 0 then "" else Repeated(c, n - 1) + [c]
  }

  lemma {:induction false} OneLine(p: string)
    requires '\n' !in p
    ensures Paragraphs(p + "\n") == [p, ""]
  {
    var text := p + "\n";
    if p == [] {
      assert text == "\n" && text[1..] == "";
    } else {
      OneLine(p[1..]);
      assert text[1..] == p[1..] + "\n" && text[0] == p[0];
      assert [p[0]] + p[1..] == p;
    }
  }

  /** A text of one full line: its line fills a message exactly while nothing is buffered. */
  lemma FullLineFlushesNothing(p: string)
    requires '\n' !in p && |p| == LIMIT
    ensures SomeFlushesNothing(Paragraphs(p + "\n"), |Paragraphs(p + "\n")|)
  {
    OneLine(p);
    assert FlushesNothing(Paragraphs(p + "\n"), 0);
  }

  // -- The splitter ----------------------------------------------------------------------

  /** The text consumed so far is the emitted chunks, then newlines, then the buffer. */
  ghost predicate Buffering(done: string, chunks: seq<string>, current: string, gaps: seq<string>, gap: string) {
    && |gaps| == |chunks|
    && (forall g :: g in gaps ==> NewlinesOnly(g))
    && NewlinesOnly(gap)
    && done == Weave(gaps, chunks) + gap + current
    && CutsOk(done, chunks, gaps, gap)
  }

  ghost predicate Tracks(done: string, chunks: seq<string>, current: string) {
    exists gaps, gap :: Buffering(done, chunks, current, gaps, gap)
  }

  /** Chunks and buffer fit a message, and every chunk with its successor fills one. */
  ghost predicate Sized(chunks: seq<string>, current: string) {
    && |current| <= LIMIT
    && Fits(chunks)
    && Packed(chunks)
    && (chunks != [] ==> |chunks[|chunks| - 1]| + |current| >= LIMIT)
  }

  ghost predicate Fits(chunks: seq<string>) {
    forall i :: 0 <= i < |chunks| ==> |chunks[i]| <= LIMIT
  }

  ghost predicate Progress(done: string, chunks: seq<string>, current: string) {
    Tracks(done, chunks, current) && Sized(chunks, current)
  }

  lemma EmitTracks(done: string, chunks: seq<string>, current: string, newlines: string, next: string)
    requires Tracks(done, chunks, current)
    requires NewlinesOnly(newlines) && MayCut(done + newlines + next, |done|)
    ensures Tracks(done + newlines + next, chunks + [current], next)
  {
    var gaps, gap :| Buffering(done, chunks, current, gaps, gap);
    WeaveSnoc(gaps, chunks, gap, current);
    assert done + newlines + next == done + (newlines + next);
    CutsStayOk(done, newlines + next, chunks, gaps, gap);
    CutsSnoc(done + newlines + next, chunks, gaps, gap, current, newlines);
    assert forall g :: g in gaps + [gap] ==> g in gaps || g == gap;
    assert Buffering(done + newlines + next, chunks + [current], next, gaps + [gap], newlines);
  }

  /** Emitting the buffer and starting a new one with `next`. */
  lemma Emit(done: string, chunks: seq<string>, current: string, newlines: string, next: string)
    requires Progress(done, chunks, current)
    requires NewlinesOnly(newlines) && MayCut(done + newlines + next, |done|)
    requires |next| <= LIMIT <= |current| + |next|
    ensures Progress(done + newlines + next, chunks + [current], next)
  {
    EmitTracks(done, chunks, current, newlines, next);
  }

  /** Filling an empty buffer; newlines before it are dropped. */
  lemma Fill(done: string, chunks: seq<string>, newlines: string, next: string)
    requires Progress(done, chunks, "")
    requires NewlinesOnly(newlines) && MayCut(done + newlines + next, |done|)
    requires |next| <= LIMIT
    ensures Progress(done + newlines + next, chunks, next)
  {
    var gaps, gap :| Buffering(done, chunks, "", gaps, gap);
    assert done + newlines + next == done + (newlines + next);
    CutsStayOk(done, newlines + next, chunks, gaps, gap);
    assert Buffering(done + newlines + next, chunks, next, gaps, gap + newlines);
  }

  /** Adding to the buffer. */
  lemma Extend(done: string, chunks: seq<string>, current: string, more: string)
    requires Progress(done, chunks, current)
    requires |current| + |more| <= LIMIT && MayCut(done + more, |done|)
    ensures Progress(done + more, chunks, current + more)
  {
    var gaps, gap :| Buffering(done, chunks, current, gaps, gap);
    CutsStayOk(done, more, chunks, gaps, gap);
    assert done + more == Weave(gaps, chunks) + gap + (current + more);
    assert Buffering(done + more, chunks, current + more, gaps, gap);
  }

  lemma Reassociate(a: string, rest: string)
    requires |rest| >= LIMIT
    ensures a + rest == a + rest[..LIMIT] + rest[LIMIT..]
  {
    assert rest == rest[..LIMIT] + rest[LIMIT..];
  }

  /** Chunks once a non-empty buffer was emitted. */
  function Flush(chunks: seq<string>, current: string): seq<string> {
    if |current| > 0 then chunks + [current] else chunks
  }

  /** One full piece of a long paragraph: the buffer, if any, goes out before it. */
  lemma Cut(done: string, chunks: seq<string>, current: string, newlines: string, piece: string)
    requires Progress(done, chunks, current)
    requires NewlinesOnly(newlines) && MayCut(done + newlines + piece, |done|)
    requires |piece| == LIMIT
    ensures Progress(done + newlines + piece, Flush(chunks, current) + [piece], "")
    ensures "" in Flush(chunks, current) + [piece] <==> "" in chunks
  {
    if |current| > 0 {
      Emit(done, chunks, current, newlines, piece);
    } else {
      Fill(done, chunks, newlines, piece);
    }
    assert done + newlines + piece + "" + "" == done + newlines + piece;
    Emit(done + newlines + piece, Flush(chunks, current), piece, "", "");
  }

  lemma Whole(text: string)
    ensures SlicesOf([text], text) && CutsOnlyLongLines([text], text)
  {
    assert Weave([""], [text]) == text by {
      WeaveSnoc([], [], "", text);
      assert [] + [""] == [""] && [] + [text] == [text];
    }
    assert WovenFrom(text, [text], [""], "") && CutsOk(text, [text], [""], "");
  }

  lemma Begin(ps: seq<string>)
    ensures Progress(Joined(ps, 0), [], "")
  {
    assert Buffering("", [], "", [], "");
  }

  /** The text is used up: what is still buffered is the last chunk. */
  lemma Finish(text: string, chunks: seq<string>, current: string)
    requires Progress(text, chunks, current)
    ensures SlicesOf(Flush(chunks, current), text) && CutsOnlyLongLines(Flush(chunks, current), text)
    ensures Fits(Flush(chunks, current)) && Packed(Flush(chunks, current))
  {
    var gaps, gap :| Buffering(text, chunks, current, gaps, gap);
    if |current| > 0 {
      assert text + "" + "" == text;
      EmitTracks(text, chunks, current, "", "");
      var gaps', gap' :| Buffering(text, chunks + [current], "", gaps', gap');
      assert WovenFrom(text, chunks + [current], gaps', gap');
    } else {
      assert WovenFrom(text, chunks, gaps, gap);
    }
  }

  /**
   The inner loop: full messages are cut off a paragraph that is too long. `done` is the text before
   the paragraph and `newlines` the separator between them.
   */
  method CutPieces(
      paragraph: string, chunks0: seq<string>, current0: string, ghost done: string, ghost newlines: string)
    returns (rest: string, chunks: seq<string>, current: string, ghost before: string)
    requires Progress(done, chunks0, current0) && Joins(done, newlines) && IsLine(paragraph)
    ensures Progress(before, chunks, current) && IsLine(rest)
    ensures |rest| == Remainder(|paragraph|)
    ensures "" in chunks <==> "" in chunks0
    ensures if |paragraph| <= LIMIT then before == done && chunks == chunks0 && current == current0 && rest == paragraph
            else current == "" && before + rest == done + newlines + paragraph && EndsInPiece(before)
  {
    rest, chunks, current, before := paragraph, chunks0, current0, done;
    ghost var sep := newlines;

    while |rest| > LIMIT
      invariant Progress(before, chunks, current)
      invariant Joins(before, sep) && IsLine(rest)
      invariant before + sep + rest == done + newlines + paragraph
      invariant Remainder(|rest|) == Remainder(|paragraph|)
      invariant if |rest| == |paragraph|
                then before == done && chunks == chunks0 && current == current0 && rest == paragraph
                else |rest| < |paragraph| && LIMIT < |paragraph| && sep == "" && current == "" && EndsInPiece(before)
      invariant "" in chunks <==> "" in chunks0
    {
      var piece := rest[..LIMIT];
      JoinMayCut(before, sep, piece);
      Cut(before, chunks, current, sep, piece);
      PieceEndsInPiece(before + sep, piece);
      if |current| > 0 {
        chunks := chunks + [current];
        current := "";
      }
      chunks := chunks + [piece];
      Reassociate(before + sep, rest);
      RemainderOfRest(rest);
      before, sep := before + sep + piece, "";
      assert before + sep == before;
      rest := rest[LIMIT..];
    }
  }

  /** What is left of a paragraph goes into the buffer or, once that is emitted, starts a new one. */
  method BufferRest(rest: string, chunks0: seq<string>, current0: string, ghost before: string, ghost newlines: string)
    returns (chunks: seq<string>, current: string)
    requires Progress(before, chunks0, current0) && Joins(before, newlines) && IsLine(rest) && |rest| <= LIMIT
    requires current0 != "" ==> newlines == "\n"
    ensures Progress(before + newlines + rest, chunks, current)
    ensures |current| == if current0 == "" || |current0| + |rest| + 1 > LIMIT then |rest| else |current0| + 1 + |rest|
    ensures "" in chunks <==> "" in chunks0 || (current0 == "" && |rest| == LIMIT)
  {
    chunks, current := chunks0, current0;
    JoinMayCut(before, newlines, rest);
    if |current| + |rest| + 1 > LIMIT {
      Emit(before, chunks, current, newlines, rest);
      chunks := chunks + [current];
      current := "";
    } else if |current| > 0 {
      assert before + ("\n" + rest) == before + newlines + rest;
      Extend(before, chunks, current, "\n" + rest);
      assert current + ("\n" + rest) == current + "\n" + rest;
    } else {
      Fill(before, chunks, newlines, rest);
    }
    assert "" + rest == rest;
    if |current| > 0 {
      current := current + "\n";
    }
    current := current + rest;
  }

  lemma SeparatorJoins(ps: seq<string>, i: nat)
    requires i <= |ps|
    ensures Joins(Joined(ps, i), Separator(i))
  {
  }

  /** One turn of the outer loop: full pieces of paragraph `i` go out, the rest is buffered. */
  method AddParagraph(ps: seq<string>, i: nat, chunks0: seq<string>, current0: string)
    returns (chunks: seq<string>, current: string)
    requires i < |ps| && IsLine(ps[i])
    requires Progress(Joined(ps, i), chunks0, current0)
    requires |current0| == Buffered(ps, i)
    ensures Progress(Joined(ps, i + 1), chunks, current)
    ensures |current| == Buffered(ps, i + 1)
    ensures "" in chunks <==> "" in chunks0 || FlushesNothing(ps, i)
  {
    var rest;
    ghost var newlines, before := Separator(i), Joined(ps, i);
    SeparatorJoins(ps, i);
    rest, chunks, current, before := CutPieces(ps[i], chunks0, current0, before, newlines);
    if |ps[i]| > LIMIT {
      assert before + "" == before;
      newlines := "";
    }
    assert Joined(ps, i + 1) == before + newlines + rest;
    chunks, current := BufferRest(rest, chunks, current, before, newlines);
  }

  /** The outer loop: what is emitted and what is still buffered after all paragraphs. */
  method AddParagraphs(ps: seq<string>) returns (chunks: seq<string>, current: string)
    requires AreLines(ps)
    ensures Progress(Joined(ps, |ps|), chunks, current)
    ensures "" in chunks <==> SomeFlushesNothing(ps, |ps|)
  {
    chunks, current := [], "";
    Begin(ps);
    for i := 0 to |ps|
      invariant Progress(Joined(ps, i), chunks, current)
      invariant |current| == Buffered(ps, i)
      invariant "" in chunks <==> SomeFlushesNothing(ps, i)
    {
      SomeFlushesNothingStep(ps, i);
      chunks, current := AddParagraph(ps, i, chunks, current);
    }
  }

  method SplitForTelegram(text: string) returns (chunks: seq<string>)
    ensures |text| <= 4096 ==> chunks == [text]
    ensures Fits(chunks) && forall c :: c in chunks ==> |c| <= 4096
    ensures SlicesOf(chunks, text) && CutsOnlyLongLines(chunks, text)
    ensures |text| > 4096 ==> Packed(chunks)
    ensures |text| > 4096 ==> ("" in chunks <==> SomeFlushesNothing(Paragraphs(text), |Paragraphs(text)|))
  {
    if |text| <= LIMIT {
      chunks := [text];
      Whole(text);
      return;
    }

    var current;
    ParagraphsAreLines(text);
    chunks, current := AddParagraphs(Paragraphs(text));
    JoinParagraphs(text);
    Finish(text, chunks, current);
    if |current| > 0 {
      chunks := chunks + [current];
    }
  }

  /** A full line and its newline are sent with an empty message. */
  method SplitFullLine() returns (text: string, chunks: seq<string>)
    ensures |text| == LIMIT + 1 && "" in chunks
  {
    var line := Repeated('a', LIMIT);
    text := line + "\n";
    FullLineFlushesNothing(line);
    chunks := SplitForTelegram(text);
  }
}
