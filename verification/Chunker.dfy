/**
 * The deterministic chunker: a preference-ordered backwards boundary search, a cursor that
 * always moves, and the cover check made on the result.
 *
 * Texts here are already normalised.
 */
module Chunker {
  import opened Prelude

  datatype Piece = Piece(text: string, startOffset: int, endOffset: int)

  datatype Chunk = Chunk(
    index: int, total: int, text: string, tokenEstimate: nat, startOffset: int, endOffset: int)

  function WindowChars(chunkSizeTokens: int): int {
    Max(16, chunkSizeTokens * 4)
  }

  function OverlapChars(chunkOverlapTokens: int): int {
    Max(0, chunkOverlapTokens * 4)
  }

  // ---------------------------------------------------------------------------
  // Boundaries
  // ---------------------------------------------------------------------------

  datatype Softness = Paragraph | Sentence | Newline | Space

  function Width(k: Softness): nat {
    if k == Paragraph || k == Sentence then 2 else 1
  }

  /** A mark of softness `k` stands at `j`. */
  predicate MarkAt(s: string, k: Softness, j: int) {
    && 0 <= j && j + Width(k) <= |s|
    && match k
       case Paragraph => s[j] == '\n' && s[j + 1] == '\n'
       case Sentence => (s[j] == '.' && (s[j + 1] == ' ' || s[j + 1] == '\n'))
                        || ((s[j] == '?' || s[j] == '!') && s[j + 1] == ' ')
       case Newline => s[j] == '\n'
       case Space => s[j] == ' '
  }

  /** A boundary of softness `k` ends at `b`, inside the window at `c` and past its middle. */
  predicate Admissible(text: string, c: int, w: int, k: Softness, b: int) {
    c + Width(k) <= b <= c + w && c + w / 2 < b && MarkAt(text, k, b - Width(k))
  }

  ghost predicate NoneAdmissible(text: string, c: int, w: int, k: Softness) {
    forall b :: !Admissible(text, c, w, k, b)
  }

  ghost predicate IsLastAdmissible(text: string, c: int, w: int, k: Softness, cut: int) {
    Admissible(text, c, w, k, cut) && forall b :: Admissible(text, c, w, k, b) ==> b <= cut
  }

  /** The most preferred softness that has an admissible boundary in the window, if any has. */
  ghost function BestSoftness(text: string, c: int, w: int): Option<Softness> {
    if !NoneAdmissible(text, c, w, Paragraph) then Some(Paragraph)
    else if !NoneAdmissible(text, c, w, Sentence) then Some(Sentence)
    else if !NoneAdmissible(text, c, w, Newline) then Some(Newline)
    else if !NoneAdmissible(text, c, w, Space) then Some(Space)
    else None
  }

  /**
   * The cut the design asks for: the last admissible boundary of the most preferred
   * softness that has one, and the window's end only if no softness has one.
   */
  ghost predicate IsBestCut(text: string, c: int, w: int, cut: int) {
    match BestSoftness(text, c, w)
    case Some(k) => IsLastAdmissible(text, c, w, k, cut)
    case None => cut == c + w
  }

  lemma {:induction false} BestCutIsUnique(text: string, c: int, w: int, cut: int, cut': int)
    requires IsBestCut(text, c, w, cut) && IsBestCut(text, c, w, cut')
    ensures cut == cut'
  {
  }

  /** The last admissible boundary at or before `b`, or -1. */
  function LastAdmissible(text: string, c: int, w: int, k: Softness, b: int): (r: int)
    requires 0 <= c
    ensures r != -1 ==> Admissible(text, c, w, k, r) && r <= b
    ensures forall b' :: r < b' <= b ==> !Admissible(text, c, w, k, b')
    decreases b - c
  {
    if b <= c then -1
    else if Admissible(text, c, w, k, b) then b
    else LastAdmissible(text, c, w, k, b - 1)
  }

  function Cut(text: string, c: int, w: int): (cut: int)
    requires 0 <= c && 2 <= w
    ensures c + w / 2 < cut <= c + w
    ensures IsBestCut(text, c, w, cut)
  {
    var p := LastAdmissible(text, c, w, Paragraph, c + w);
    var s := LastAdmissible(text, c, w, Sentence, c + w);
    var n := LastAdmissible(text, c, w, Newline, c + w);
    var b := LastAdmissible(text, c, w, Space, c + w);
    if p != -1 then p
    else if s != -1 then s
    else if n != -1 then n
    else if b != -1 then b
    else c + w
  }

  // ---------------------------------------------------------------------------
  // The boundary search as the code runs it
  // ---------------------------------------------------------------------------

  predicate Occurs(s: string, pat: string, j: int) {
    0 <= j && j + |pat| <= |s| && s[j..j + |pat|] == pat
  }

  /** `String.prototype.lastIndexOf`. */
  function LastIndexOf(s: string, pat: string): int {
    LastIndexFrom(s, pat, |s| - |pat|)
  }

  function LastIndexFrom(s: string, pat: string, i: int): int
    decreases i + 1
  {
    if i < 0 then -1
    else if Occurs(s, pat, i) then i
    else LastIndexFrom(s, pat, i - 1)
  }

  lemma {:induction false} LastIndexFromIsLast(s: string, pat: string, i: int)
    ensures var r := LastIndexFrom(s, pat, i);
      && (r == -1 || Occurs(s, pat, r))
      && forall j :: Occurs(s, pat, j) && j <= i ==> j <= r
    decreases i + 1
  {
    if i >= 0 && !Occurs(s, pat, i) {
      LastIndexFromIsLast(s, pat, i - 1);
    }
  }

  lemma {:induction false} LastIndexIsLast(s: string, pat: string)
    ensures LastIndexOf(s, pat) == -1 || Occurs(s, pat, LastIndexOf(s, pat))
    ensures forall j :: Occurs(s, pat, j) ==> j <= LastIndexOf(s, pat)
  {
    LastIndexFromIsLast(s, pat, |s| - |pat|);
  }

  lemma {:induction false} OccursAt(s: string, pat: string, j: int)
    requires 0 <= j && j + |pat| <= |s|
    ensures |pat| == 1 ==> (Occurs(s, pat, j) <==> s[j] == pat[0])
    ensures |pat| == 2 ==> (Occurs(s, pat, j) <==> s[j] == pat[0] && s[j + 1] == pat[1])
  {
    if Occurs(s, pat, j) {
      assert forall i :: 0 <= i < |pat| ==> s[j..j + |pat|][i] == s[j + i] == pat[i];
    }
  }

  /** `last` is the position of the last mark of softness `k` in `s`, or -1. */
  ghost predicate IsLastMark(s: string, k: Softness, last: int) {
    && (last == -1 || MarkAt(s, k, last))
    && forall j :: MarkAt(s, k, j) ==> j <= last
  }

  lemma {:induction false} ParagraphMark(s: string)
    ensures IsLastMark(s, Paragraph, LastIndexOf(s, "\n\n"))
  {
    LastIndexIsLast(s, "\n\n");
    forall j | 0 <= j < |s| - 1
      ensures MarkAt(s, Paragraph, j) <==> Occurs(s, "\n\n", j)
    {
      OccursAt(s, "\n\n", j);
    }
  }

  lemma {:induction false} SentenceMark(s: string)
    ensures IsLastMark(s, Sentence, Max(Max(LastIndexOf(s, ". "), LastIndexOf(s, ".\n")),
                                        Max(LastIndexOf(s, "? "), LastIndexOf(s, "! "))))
  {
    LastIndexIsLast(s, ". ");
    LastIndexIsLast(s, ".\n");
    LastIndexIsLast(s, "? ");
    LastIndexIsLast(s, "! ");
    forall j | 0 <= j < |s| - 1
      ensures MarkAt(s, Sentence, j) <==>
        Occurs(s, ". ", j) || Occurs(s, ".\n", j) || Occurs(s, "? ", j) || Occurs(s, "! ", j)
    {
      OccursAt(s, ". ", j);
      OccursAt(s, ".\n", j);
      OccursAt(s, "? ", j);
      OccursAt(s, "! ", j);
    }
  }

  lemma {:induction false} LineAndWordMarks(s: string)
    ensures IsLastMark(s, Newline, LastIndexOf(s, "\n"))
    ensures IsLastMark(s, Space, LastIndexOf(s, " "))
  {
    LastIndexIsLast(s, "\n");
    LastIndexIsLast(s, " ");
    forall j | 0 <= j < |s|
      ensures MarkAt(s, Newline, j) <==> Occurs(s, "\n", j)
      ensures MarkAt(s, Space, j) <==> Occurs(s, " ", j)
    {
      OccursAt(s, "\n", j);
      OccursAt(s, " ", j);
    }
  }

  /** One look at the last mark of a window settles whether its softness has an admissible boundary. */
  ghost predicate Decides(text: string, c: int, w: int, k: Softness, last: int) {
    if last >= 0 && c + last + Width(k) > c + w / 2
    then IsLastAdmissible(text, c, w, k, c + last + Width(k))
    else NoneAdmissible(text, c, w, k)
  }

  lemma {:induction false} LastMarkDecides(text: string, c: int, w: int, window: string, k: Softness, last: int)
    requires 0 <= c && c + w <= |text| && 2 <= w
    requires window == text[c..c + w] && IsLastMark(window, k, last)
    ensures Decides(text, c, w, k, last)
  {
    forall b | Admissible(text, c, w, k, b)
      ensures b - Width(k) - c <= last
    {
      assert MarkAt(window, k, b - Width(k) - c);
    }
  }

  lemma {:induction false} ParagraphDecides(text: string, c: int, w: int, window: string)
    requires 0 <= c && c + w <= |text| && 2 <= w && window == text[c..c + w]
    ensures Decides(text, c, w, Paragraph, LastIndexOf(window, "\n\n"))
  {
    ParagraphMark(window);
    LastMarkDecides(text, c, w, window, Paragraph, LastIndexOf(window, "\n\n"));
  }

  lemma {:induction false} SentenceDecides(text: string, c: int, w: int, window: string, last: int)
    requires 0 <= c && c + w <= |text| && 2 <= w && window == text[c..c + w]
    requires last == Max(Max(LastIndexOf(window, ". "), LastIndexOf(window, ".\n")),
                         Max(LastIndexOf(window, "? "), LastIndexOf(window, "! ")))
    ensures Decides(text, c, w, Sentence, last)
  {
    SentenceMark(window);
    LastMarkDecides(text, c, w, window, Sentence, last);
  }

  lemma {:induction false} LineAndWordDecide(text: string, c: int, w: int, window: string)
    requires 0 <= c && c + w <= |text| && 2 <= w && window == text[c..c + w]
    ensures Decides(text, c, w, Newline, LastIndexOf(window, "\n"))
    ensures Decides(text, c, w, Space, LastIndexOf(window, " "))
  {
    LineAndWordMarks(window);
    LastMarkDecides(text, c, w, window, Newline, LastIndexOf(window, "\n"));
    LastMarkDecides(text, c, w, window, Space, LastIndexOf(window, " "));
  }

  /** The four-way search of `chunkText`, statement by statement. */
  method FindCut(text: string, cursor: int, windowChars: int) returns (cut: int)
    requires 0 <= cursor && cursor + windowChars <= |text| && 2 <= windowChars
    ensures IsBestCut(text, cursor, windowChars, cut)
  {
    var floor := cursor + windowChars / 2;
    var window := text[cursor..cursor + windowChars];
    cut := -1;
    var paragraph := LastIndexOf(window, "\n\n");
    ParagraphDecides(text, cursor, windowChars, window);
    if paragraph >= 0 && cursor + paragraph + 2 > floor {
      cut := cursor + paragraph + 2;
    }
    if cut < 0 {
      var sentence := Max(Max(LastIndexOf(window, ". "), LastIndexOf(window, ".\n")),
                          Max(LastIndexOf(window, "? "), LastIndexOf(window, "! ")));
      SentenceDecides(text, cursor, windowChars, window, sentence);
      if sentence >= 0 && cursor + sentence + 2 > floor {
        cut := cursor + sentence + 2;
      }
    }
    if cut < 0 {
      cut := FindSoftCut(text, cursor, windowChars, window, floor);
    }
  }

  /** The search continued: a line break, then a space, then the hard limit. */
  method FindSoftCut(text: string, cursor: int, windowChars: int, window: string, floor: int) returns (cut: int)
    requires 0 <= cursor && cursor + windowChars <= |text| && 2 <= windowChars
    requires window == text[cursor..cursor + windowChars] && floor == cursor + windowChars / 2
    requires NoneAdmissible(text, cursor, windowChars, Paragraph)
    requires NoneAdmissible(text, cursor, windowChars, Sentence)
    ensures IsBestCut(text, cursor, windowChars, cut)
  {
    cut := -1;
    LineAndWordDecide(text, cursor, windowChars, window);
    var newline := LastIndexOf(window, "\n");
    if newline >= 0 && cursor + newline + 1 > floor {
      cut := cursor + newline + 1;
    }
    if cut < 0 {
      var space := LastIndexOf(window, " ");
      if space >= 0 && cursor + space + 1 > floor {
        cut := cursor + space + 1;
      }
    }
    if cut < 0 {
      cut := cursor + windowChars;
    }
  }

  // ---------------------------------------------------------------------------
  // The cursor loop
  // ---------------------------------------------------------------------------

  function Next(c: int, cut: int, overlap: int): int {
    if cut - c - overlap > 0 then cut - overlap else cut
  }

  /** The pieces cut from position `c` on. Its termination is the code's strict cursor progress. */
  function PiecesFrom(text: string, c: int, w: int, overlap: int): (r: seq<Piece>)
    requires 0 <= c < |text| && 2 <= w && 0 <= overlap
    ensures r != []
    decreases |text| - c
  {
    if |text| - c <= w then [Piece(text[c..], c, |text|)]
    else
      var cut := Cut(text, c, w);
      [Piece(text[c..cut], c, cut)] + PiecesFrom(text, Next(c, cut, overlap), w, overlap)
  }

  lemma {:induction false} PiecesStep(raw: seq<Piece>, text: string, c: int, w: int, overlap: int)
    requires 0 <= c && w < |text| - c && 2 <= w && 0 <= overlap
    ensures var cut := Cut(text, c, w);
      raw + PiecesFrom(text, c, w, overlap)
      == raw + [Piece(text[c..cut], c, cut)] + PiecesFrom(text, Next(c, cut, overlap), w, overlap)
  {
  }

  /** ECMAScript white space and line terminators, as stripped by `trim`. */
  predicate IsSpace(ch: char) {
    ch in "\t\n\r \U{B}\U{C}\U{A0}\U{1680}\U{2028}\U{2029}\U{202F}\U{205F}\U{3000}\U{FEFF}"
    || '\U{2000}' <= ch <= '\U{200A}'
  }

  function TrimStart(s: string): string {
    if s != "" && IsSpace(s[0]) then TrimStart(s[1..]) else s
  }

  function TrimEnd(s: string): string {
    if s != "" && IsSpace(s[|s| - 1]) then TrimEnd(s[..|s| - 1]) else s
  }

  /** `t` is `s` without its leading and trailing white space. */
  ghost predicate IsTrimmed(t: string, s: string) {
    && (t != "" ==> !IsSpace(t[0]) && !IsSpace(t[|t| - 1]))
    && exists a: nat, b: nat :: IsInside(t, s, a, b)
  }

  ghost predicate IsInside(t: string, s: string, a: nat, b: nat) {
    && a <= b <= |s| && t == s[a..b]
    && (forall i :: 0 <= i < a ==> IsSpace(s[i])) && (forall i :: b <= i < |s| ==> IsSpace(s[i]))
  }

  /** `t` is what is left of `s` after its first `n` characters, all white space; likewise before its last ones. */
  ghost predicate DropsFirst(s: string, t: string, n: nat) {
    n <= |s| && t == s[n..] && forall i :: 0 <= i < n ==> IsSpace(s[i])
  }

  ghost predicate DropsLast(s: string, t: string) {
    t <= s && forall i :: |t| <= i < |s| ==> IsSpace(s[i])
  }

  lemma {:induction false} TrimStartDrops(s: string)
    ensures var t := TrimStart(s);
      |t| <= |s| && DropsFirst(s, t, |s| - |t|) && (t != "" ==> !IsSpace(t[0]))
  {
    hide IsSpace;
    if s != "" && IsSpace(s[0]) {
      var rest := s[1..];
      TrimStartDrops(rest);
      var n := |rest| - |TrimStart(rest)|;
      assert rest[n..] == s[n + 1..];
      assert forall i :: 1 <= i < n + 1 ==> s[i] == rest[i - 1];
    } else {
      assert s[0..] == s;
    }
  }

  lemma {:induction false} TrimEndDrops(s: string)
    ensures DropsLast(s, TrimEnd(s)) && (TrimEnd(s) != "" ==> !IsSpace(TrimEnd(s)[|TrimEnd(s)| - 1]))
  {
    hide IsSpace;
    if s != "" && IsSpace(s[|s| - 1]) {
      TrimEndDrops(s[..|s| - 1]);
    }
  }

  lemma {:induction false} TrimIsExact(s: string)
    ensures IsTrimmed(TrimEnd(TrimStart(s)), s)
  {
    hide IsSpace, TrimStart, TrimEnd;
    var u := TrimStart(s);
    var t := TrimEnd(u);
    TrimStartDrops(s);
    TrimEndDrops(u);
    assert t != "" ==> t[0] == u[0];
    assert IsInside(t, s, |s| - |u|, |s| - |u| + |t|);
  }

  /** The token estimate is taken of the piece before it is trimmed. */
  function ToChunk(p: Piece, index: int, total: int, estimateTokens: string -> nat): Chunk {
    Chunk(index, total, TrimEnd(TrimStart(p.text)), estimateTokens(p.text), p.startOffset, p.endOffset)
  }

  function Number(pieces: seq<Piece>, estimateTokens: string -> nat): (r: seq<Chunk>)
    ensures |r| == |pieces|
  {
    seq(|pieces|, i requires 0 <= i < |pieces| => ToChunk(pieces[i], i, |pieces|, estimateTokens))
  }

  /** `chunkText`, for any normalisation and any token estimate. */
  method ChunkText(input: string, normalise: string -> string, estimateTokens: string -> nat,
                   chunkSizeTokens: int, chunkOverlapTokens: int)
    returns (r: Result<seq<Chunk>, string>)
    ensures r.Success? <==> chunkOverlapTokens < chunkSizeTokens && normalise(input) != ""
    ensures r.Success? ==>
      r.value == Number(PiecesFrom(normalise(input), 0, WindowChars(chunkSizeTokens), OverlapChars(chunkOverlapTokens)),
                        estimateTokens)
    ensures r.Success? ==>
      IsChunked(normalise(input), Max(16, 4 * chunkSizeTokens), Max(0, 4 * chunkOverlapTokens), estimateTokens, r.value)
  {
    hide IsChunked;
    var text := normalise(input);
    if chunkOverlapTokens >= chunkSizeTokens {
      return Failure("chunk overlap must be strictly smaller than chunk size");
    }
    if |text| == 0 {
      return Failure("content is empty after normalisation");
    }
    var windowChars, overlapChars := WindowChars(chunkSizeTokens), OverlapChars(chunkOverlapTokens);
    var raw: seq<Piece> := [];
    var cursor := 0;
    while cursor < |text|
      invariant 0 <= cursor <= |text|
      invariant raw + (if cursor < |text| then PiecesFrom(text, cursor, windowChars, overlapChars) else [])
             == PiecesFrom(text, 0, windowChars, overlapChars)
      decreases |text| - cursor
    {
      if |text| - cursor <= windowChars {
        raw := raw + [Piece(text[cursor..], cursor, |text|)];
        break;
      }
      var cut := FindCut(text, cursor, windowChars);
      BestCutIsUnique(text, cursor, windowChars, cut, Cut(text, cursor, windowChars));
      ghost var before := raw;
      raw := raw + [Piece(text[cursor..cut], cursor, cut)];
      var advance := cut - cursor - overlapChars;
      ghost var start := cursor;
      cursor := cursor + if advance > 0 then advance else cut - cursor;
      assert cursor == Next(start, cut, overlapChars);
      PiecesStep(before, text, start, windowChars, overlapChars);
    }
    r := Success(Number(raw, estimateTokens));
    NumberedIsChunked(text, windowChars, overlapChars, estimateTokens);
  }

  // ---------------------------------------------------------------------------
  // What every chunking is
  // ---------------------------------------------------------------------------

  /** `q` is where and how the piece after `p` starts. */
  ghost predicate Follows(p: Piece, q: Piece, w: int, overlap: int) {
    q.startOffset == if p.endOffset - overlap > p.startOffset then p.endOffset - overlap else p.endOffset
  }

  /**
   * A chunking from `c` to the end of the text: every piece but the last ends at the best cut
   * of its window, the last fits in one window, and each starts where the rule says.
   */
  ghost predicate IsChunking(text: string, c: int, w: int, overlap: int, ps: seq<Piece>)
    requires 0 <= c && 2 <= w
  {
    && ps != [] && ps[0].startOffset == c
    && (forall i :: 0 <= i < |ps| ==>
          && 0 <= ps[i].startOffset < ps[i].endOffset <= |text|
          && ps[i].text == text[ps[i].startOffset..ps[i].endOffset])
    && (forall i :: 0 <= i < |ps| - 1 ==>
          && ps[i].startOffset + w < |text|
          && IsBestCut(text, ps[i].startOffset, w, ps[i].endOffset)
          && ps[i].startOffset + w / 2 < ps[i].endOffset <= ps[i].startOffset + w)
    && (forall i :: 0 <= i < |ps| - 1 ==> Follows(ps[i], ps[i + 1], w, overlap))
    && ps[|ps| - 1].endOffset == |text| <= ps[|ps| - 1].startOffset + w
  }

  /** The chunks are the pieces of a chunking, numbered, trimmed, and estimated before trimming. */
  ghost predicate IsChunked(text: string, w: int, overlap: int, estimateTokens: string -> nat, chunks: seq<Chunk>)
    requires 2 <= w
  {
    exists ps :: IsChunking(text, 0, w, overlap, ps) && AreNumbered(ps, estimateTokens, chunks)
  }

  ghost predicate AreNumbered(ps: seq<Piece>, estimateTokens: string -> nat, chunks: seq<Chunk>) {
    && |chunks| == |ps|
    && forall i :: 0 <= i < |chunks| ==>
         && chunks[i].index == i && chunks[i].total == |chunks|
         && chunks[i].startOffset == ps[i].startOffset && chunks[i].endOffset == ps[i].endOffset
         && chunks[i].tokenEstimate == estimateTokens(ps[i].text) && IsTrimmed(chunks[i].text, ps[i].text)
  }

  lemma {:induction false} NumberedIsChunked(text: string, w: int, overlap: int, estimateTokens: string -> nat)
    requires text != "" && 2 <= w && 0 <= overlap
    ensures IsChunked(text, w, overlap, estimateTokens, Number(PiecesFrom(text, 0, w, overlap), estimateTokens))
  {
    hide PiecesFrom, IsChunking, IsTrimmed, TrimStart, TrimEnd;
    var ps := PiecesFrom(text, 0, w, overlap);
    PiecesAreChunking(text, 0, w, overlap);
    forall i | 0 <= i < |ps|
      ensures IsTrimmed(TrimEnd(TrimStart(ps[i].text)), ps[i].text)
    {
      TrimIsExact(ps[i].text);
    }
    assert AreNumbered(ps, estimateTokens, Number(ps, estimateTokens));
  }

  lemma {:induction false} PiecesAreChunking(text: string, c: int, w: int, overlap: int)
    requires 0 <= c < |text| && 2 <= w && 0 <= overlap
    ensures IsChunking(text, c, w, overlap, PiecesFrom(text, c, w, overlap))
    decreases |text| - c
  {
    hide IsBestCut, Cut;
    if |text| - c > w {
      hide IsChunking;
      var cut := Cut(text, c, w);
      PiecesAreChunking(text, Next(c, cut, overlap), w, overlap);
      ChunkingCons(text, c, w, overlap, cut, PiecesFrom(text, Next(c, cut, overlap), w, overlap));
    }
  }

  lemma {:induction false} ChunkingCons(text: string, c: int, w: int, overlap: int, cut: int, rest: seq<Piece>)
    requires 0 <= c && 2 <= w && 0 <= overlap && c + w < |text|
    requires IsBestCut(text, c, w, cut) && c + w / 2 < cut <= c + w
    requires IsChunking(text, Next(c, cut, overlap), w, overlap, rest)
    ensures IsChunking(text, c, w, overlap, [Piece(text[c..cut], c, cut)] + rest)
  {
    hide IsBestCut;
    var ps := [Piece(text[c..cut], c, cut)] + rest;
    assert forall i :: 0 < i < |ps| ==> ps[i] == rest[i - 1];
    forall i | 0 <= i < |ps| - 1
      ensures Follows(ps[i], ps[i + 1], w, overlap)
    {
      if i > 0 {
        assert Follows(rest[i - 1], rest[i], w, overlap);
      }
    }
  }

  lemma {:induction false} ChunkingTail(text: string, c: int, w: int, overlap: int, ps: seq<Piece>)
    requires 0 <= c && 2 <= w && 0 <= overlap && |ps| > 1
    requires IsChunking(text, c, w, overlap, ps)
    ensures IsChunking(text, Next(c, ps[0].endOffset, overlap), w, overlap, ps[1..])
  {
    assert Follows(ps[0], ps[1], w, overlap);
    forall i | 0 <= i < |ps[1..]| - 1
      ensures Follows(ps[1..][i], ps[1..][i + 1], w, overlap)
    {
      assert Follows(ps[i + 1], ps[i + 2], w, overlap);
    }
  }

  /** The rule leaves no freedom: a text has one chunking under a configuration. */
  lemma {:induction false} ChunkingIsUnique(text: string, c: int, w: int, overlap: int, ps: seq<Piece>)
    requires 0 <= c < |text| && 2 <= w && 0 <= overlap
    requires IsChunking(text, c, w, overlap, ps)
    ensures ps == PiecesFrom(text, c, w, overlap)
    decreases |text| - c
  {
    if |ps| == 1 {
      assert text[c..|text|] == text[c..];
      assert ps == [ps[0]];
    } else {
      ChunkingTail(text, c, w, overlap, ps);
      BestCutIsUnique(text, c, w, ps[0].endOffset, Cut(text, c, w));
      ChunkingIsUnique(text, Next(c, ps[0].endOffset, overlap), w, overlap, ps[1..]);
      assert ps == [ps[0]] + ps[1..];
    }
  }

  // ---------------------------------------------------------------------------
  // Ends never go backwards
  // ---------------------------------------------------------------------------

  /**
   * A cut made from `c` is not undone from the next cursor: if it lies past the new middle it
   * is still admissible there, and nothing preferred to it can appear before it.
   */
  lemma {:induction false} CutsDoNotGoBack(text: string, c: int, w: int, overlap: int, cut: int, cut': int)
    requires 0 <= c && 2 <= w && (overlap == 0 || 2 <= overlap)
    requires IsBestCut(text, c, w, cut) && c + w / 2 < cut <= c + w
    requires var c' := Next(c, cut, overlap); IsBestCut(text, c', w, cut') && c' + w / 2 < cut' <= c' + w
    ensures cut <= cut'
  {
    var c' := Next(c, cut, overlap);
    if c' != cut && c' + w / 2 < cut {
      forall k | Admissible(text, c, w, k, cut)
        ensures Admissible(text, c', w, k, cut)
      {
      }
      forall k, b | Admissible(text, c', w, k, b) && b <= c + w
        ensures Admissible(text, c, w, k, b)
      {
      }
    }
  }

  ghost predicate EndsNeverGoBack(ps: seq<Piece>) {
    forall i :: 0 <= i < |ps| - 1 ==> ps[i].endOffset <= ps[i + 1].endOffset
  }

  ghost predicate EndsGrow(ps: seq<Piece>) {
    forall i :: 0 <= i < |ps| - 1 ==> ps[i].endOffset < ps[i + 1].endOffset
  }

  /** For every text, every window and every overlap the configuration allows. */
  lemma {:induction false} ChunkEndsNeverGoBack(text: string, w: int, overlap: int, ps: seq<Piece>)
    requires 2 <= w && (overlap == 0 || 2 <= overlap)
    requires IsChunking(text, 0, w, overlap, ps)
    ensures EndsNeverGoBack(ps)
  {
    hide IsBestCut, Admissible;
    forall i | 0 <= i < |ps| - 1
      ensures ps[i].endOffset <= ps[i + 1].endOffset
    {
      assert Follows(ps[i], ps[i + 1], w, overlap);
      if i + 1 < |ps| - 1 {
        CutsDoNotGoBack(text, ps[i].startOffset, w, overlap, ps[i].endOffset, ps[i + 1].endOffset);
      }
    }
  }

  /** No gap: each piece starts at or before the end of the one before it, and strictly after its start. */
  lemma {:induction false} ChunksLeaveNoGap(text: string, w: int, overlap: int, ps: seq<Piece>)
    requires 2 <= w && 0 <= overlap
    requires IsChunking(text, 0, w, overlap, ps)
    ensures forall i :: 0 <= i < |ps| - 1 ==> ps[i].startOffset < ps[i + 1].startOffset <= ps[i].endOffset
  {
    forall i | 0 <= i < |ps| - 1
      ensures ps[i].startOffset < ps[i + 1].startOffset <= ps[i].endOffset
    {
      assert Follows(ps[i], ps[i + 1], w, overlap);
    }
  }

  lemma {:induction false} StepAt(text: string, w: int, overlap: int, ps: seq<Piece>, i: nat)
    requires 2 <= w && (overlap == 0 || 2 <= overlap)
    requires IsChunking(text, 0, w, overlap, ps) && i < |ps| - 1
    ensures 0 <= ps[i + 1].startOffset <= ps[i].endOffset <= ps[i + 1].endOffset <= |text|
    ensures ps[i + 1].text == text[ps[i + 1].startOffset..ps[i + 1].endOffset]
  {
    ChunkEndsNeverGoBack(text, w, overlap, ps);
    ChunksLeaveNoGap(text, w, overlap, ps);
  }

  /** Concatenate the pieces, dropping from each the part the piece before it already covered. */
  ghost function Rebuild(ps: seq<Piece>): string {
    if ps == [] then ""
    else if |ps| == 1 then ps[0].text
    else
      var p, q := ps[|ps| - 2], ps[|ps| - 1];
      var covered := p.endOffset - q.startOffset;
      Rebuild(ps[..|ps| - 1]) + if 0 <= covered <= |q.text| then q.text[covered..] else ""
  }

  lemma {:induction false} SliceJoin(text: string, a: int, b: int, c: int)
    requires 0 <= a <= b <= c <= |text|
    ensures text[a..c][b - a..] == text[b..c]
    ensures text[..b] + text[b..c] == text[..c]
  {
  }

  lemma {:induction false} RebuildSnoc(ps: seq<Piece>, text: string)
    requires |ps| >= 2
    requires var p, q := ps[|ps| - 2], ps[|ps| - 1];
      && 0 <= q.startOffset <= p.endOffset <= q.endOffset <= |text|
      && q.text == text[q.startOffset..q.endOffset]
    requires Rebuild(ps[..|ps| - 1]) == text[..ps[|ps| - 2].endOffset]
    ensures Rebuild(ps) == text[..ps[|ps| - 1].endOffset]
  {
    SliceJoin(text, ps[|ps| - 1].startOffset, ps[|ps| - 2].endOffset, ps[|ps| - 1].endOffset);
  }

  lemma {:induction false} ChunkingEnds(text: string, w: int, overlap: int, ps: seq<Piece>)
    requires 2 <= w && IsChunking(text, 0, w, overlap, ps)
    ensures ps != [] && ps[|ps| - 1].endOffset == |text|
  {
    hide IsBestCut;
  }

  lemma {:induction false} RebuildPrefix(text: string, w: int, overlap: int, ps: seq<Piece>, n: nat)
    requires 2 <= w && (overlap == 0 || 2 <= overlap)
    requires IsChunking(text, 0, w, overlap, ps) && 0 < n <= |ps|
    ensures Rebuild(ps[..n]) == text[..ps[n - 1].endOffset]
  {
    if n == 1 {
      assert ps[..1] == [ps[0]];
    } else {
      RebuildPrefix(text, w, overlap, ps, n - 1);
      StepAt(text, w, overlap, ps, n - 2);
      assert ps[..n][..n - 1] == ps[..n - 1];
      RebuildSnoc(ps[..n], text);
    }
  }

  /** Round trip: dropping the overlaps and concatenating gives back the normalised text. */
  lemma {:induction false} RebuildIsText(text: string, chunkSizeTokens: int, chunkOverlapTokens: int)
    requires chunkOverlapTokens < chunkSizeTokens && text != ""
    ensures Rebuild(PiecesFrom(text, 0, WindowChars(chunkSizeTokens), OverlapChars(chunkOverlapTokens))) == text
  {
    hide IsChunking, PiecesFrom, Rebuild;
    var w, overlap := WindowChars(chunkSizeTokens), OverlapChars(chunkOverlapTokens);
    var ps := PiecesFrom(text, 0, w, overlap);
    PiecesAreChunking(text, 0, w, overlap);
    ChunkingEnds(text, w, overlap, ps);
    RebuildPrefix(text, w, overlap, ps, |ps|);
    assert ps[..|ps|] == ps;
  }

  // ---------------------------------------------------------------------------
  // When ends strictly grow
  // ---------------------------------------------------------------------------

  lemma {:induction false} EndsGrowUpToHalf(text: string, w: int, overlap: int, ps: seq<Piece>)
    requires 2 <= w && 0 <= overlap <= w / 2
    requires IsChunking(text, 0, w, overlap, ps)
    ensures EndsGrow(ps)
  {
    forall i | 0 <= i < |ps| - 1
      ensures ps[i].endOffset < ps[i + 1].endOffset
    {
      assert Follows(ps[i], ps[i + 1], w, overlap);
    }
  }

  /** One paragraph break at the end of the first window, and no other boundary. */
  function LonelyBreak(w: int): string
    requires 2 <= w
  {
    seq(w - 2, _ => 'a') + "\n\n" + seq(w, _ => 'a')
  }

  lemma {:induction false} LonelyBreakRepeats(w: int, overlap: int)
    requires 16 <= w && w / 2 < overlap < w
    ensures !EndsGrow(PiecesFrom(LonelyBreak(w), 0, w, overlap))
  {
    var text := LonelyBreak(w);
    assert text[w - 2] == '\n' && text[w - 1] == '\n';
    assert forall k, b :: Admissible(text, 0, w, k, b) ==> b <= w;
    assert forall j :: w <= j < |text| ==> text[j] == 'a';
    var c' := w - overlap;
    assert IsLastAdmissible(text, 0, w, Paragraph, w);
    assert IsBestCut(text, 0, w, w);
    BestCutIsUnique(text, 0, w, w, Cut(text, 0, w));
    assert IsLastAdmissible(text, c', w, Paragraph, w);
    assert IsBestCut(text, c', w, w);
    BestCutIsUnique(text, c', w, w, Cut(text, c', w));
    var ps := PiecesFrom(text, 0, w, overlap);
    assert ps[0].endOffset == w && ps[1] == PiecesFrom(text, c', w, overlap)[0];
    assert ps[1].endOffset == w;
  }

  /**
   * The exact condition: chunk ends strictly grow on every text if and only if the overlap is
   * at most half the window. With a larger one, some text has a chunk inside the one before it.
   */
  lemma {:induction false} EndsGrowExactly(chunkSizeTokens: int, chunkOverlapTokens: int)
    requires chunkOverlapTokens < chunkSizeTokens
    ensures var w, overlap := WindowChars(chunkSizeTokens), OverlapChars(chunkOverlapTokens);
      (forall text :: text != "" ==> EndsGrow(PiecesFrom(text, 0, w, overlap))) <==> overlap <= w / 2
  {
    var w, overlap := WindowChars(chunkSizeTokens), OverlapChars(chunkOverlapTokens);
    if overlap <= w / 2 {
      forall text | text != ""
        ensures EndsGrow(PiecesFrom(text, 0, w, overlap))
      {
        PiecesAreChunking(text, 0, w, overlap);
        EndsGrowUpToHalf(text, w, overlap, PiecesFrom(text, 0, w, overlap));
      }
    } else {
      LonelyBreakRepeats(w, overlap);
      assert LonelyBreak(w) != "";
    }
  }

  // ---------------------------------------------------------------------------
  // The cover check
  // ---------------------------------------------------------------------------

  ghost predicate HasIndexBefore(chunks: seq<Chunk>, n: nat, k: int) {
    exists i :: 0 <= i < n && i < |chunks| && chunks[i].index == k
  }

  ghost predicate HasIndex(chunks: seq<Chunk>, k: int) {
    HasIndexBefore(chunks, |chunks|, k)
  }

  /** What K-INV-5 asks: every index from 0 to total - 1 appears exactly once. */
  ghost predicate IsCover(chunks: seq<Chunk>) {
    && chunks != []
    && (forall i :: 0 <= i < |chunks| ==> chunks[i].total == |chunks| && 0 <= chunks[i].index < |chunks|)
    && (forall i, j :: 0 <= i < j < |chunks| ==> chunks[i].index != chunks[j].index)
    && (forall k :: 0 <= k < |chunks| ==> HasIndex(chunks, k))
  }

  ghost function Range(n: nat): (r: set<int>)
    ensures forall k :: k in r <==> 0 <= k < n
    ensures |r| == n
  {
    if n == 0 then {} else Range(n - 1) + {n - 1}
  }

  /** Pigeonhole: as many distinct indices as there are places fill every place. */
  lemma {:induction false} DistinctInRangeIsCover(chunks: seq<Chunk>, seen: set<int>)
    requires |seen| == |chunks|
    requires forall x :: x in seen ==> 0 <= x < |chunks| && HasIndex(chunks, x)
    ensures forall k :: 0 <= k < |chunks| ==> HasIndex(chunks, k)
  {
    var all := Range(|chunks|);
    assert seen <= all;
    assert |all - seen| == |all| - |seen|;
    forall k | 0 <= k < |chunks|
      ensures HasIndex(chunks, k)
    {
      assert k !in all - seen;
    }
  }

  /** The code never looks for a missing index; counting distinct ones in range is enough. */
  method IsGaplessCover(chunks: seq<Chunk>) returns (ok: bool)
    ensures ok <==> IsCover(chunks)
  {
    if |chunks| == 0 {
      return false;
    }
    var total := chunks[0].total;
    if |chunks| != total {
      return false;
    }
    if !(forall i :: 0 <= i < |chunks| ==> chunks[i].total == total) {
      return false;
    }
    var seen: set<int> := {};
    for i := 0 to |chunks|
      invariant |seen| == i
      invariant forall j :: 0 <= j < i ==> chunks[j].index in seen && 0 <= chunks[j].index < total
      invariant forall x :: x in seen ==> HasIndexBefore(chunks, i, x)
      invariant forall j, k :: 0 <= j < k < i ==> chunks[j].index != chunks[k].index
    {
      var index := chunks[i].index;
      if index < 0 || index >= total {
        return false;
      }
      if index in seen {
        assert HasIndexBefore(chunks, i, index);
        return false;
      }
      assert chunks[i].index == index;
      seen := seen + {index};
    }
    DistinctInRangeIsCover(chunks, seen);
    ok := |seen| == total;
  }

  /** Whatever the chunker produces, the check accepts. */
  lemma {:induction false} ChunksAreCover(pieces: seq<Piece>, estimateTokens: string -> nat)
    requires pieces != []
    ensures IsCover(Number(pieces, estimateTokens))
  {
    var chunks := Number(pieces, estimateTokens);
    forall k | 0 <= k < |chunks|
      ensures HasIndex(chunks, k)
    {
      assert chunks[k].index == k;
    }
  }
}
