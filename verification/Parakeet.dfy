/**
 Recognised tokens become words, and words become segments. Times are real seconds; a time is
 written rounded half-even to milliseconds.
 */
module Parakeet {
  import opened Decimal

  const FRAME_S := 0.08
  const LAST_TOKEN_MAX_S := 0.4
  const SEGMENT_MAX_S := 30.0
  const SEGMENT_GAP_S := 1.0

  function MinR(x: real, y: real): real {
    if x <= y then x else y
  }

  function MaxR(x: real, y: real): real {
    if x >= y then x else y
  }

  /** The nearest integer, an even one on a tie. */
  function Nearest(y: real): int {
    var f := y.Floor;
    var d := y - f as real;
    if d < 0.5 || (d == 0.5 && f % 2 == 0) then f else f + 1
  }

  /** Python's `round(x, 3)`. */
  function Round3(x: real): real {
    Nearest(x * 1000.0) as real / 1000.0
  }

  predicate IsSpace(c: char) {
    c == ' ' || c == '\t' || c == '\n' || c == '\r'
  }

  // ---------------------------------------------------------------- tokens to words

  /** A token as the word builder keeps it: the word mark is a space, the probability is in [0, 1]. */
  datatype Piece = Piece(text: string, start: real, prob: Option<real>)

  datatype Word = Word(word: string, start: real, end: real, prob: Option<real>)

  function Unmark(t: string): string {
    if t == "" then "" else Unmark(t[..|t| - 1]) + [if t[|t| - 1] == '▁' then ' ' else t[|t| - 1]]
  }

  predicate OpensWord(t: string) {
    t != "" && (t[0] == ' ' || t[0] == '▁')
  }

  function Clamp(p: real): real {
    MaxR(0.0, MinR(1.0, p))
  }

  /** Token k with its start; likelihoods holds exp of the log probabilities and may be shorter, or empty. */
  function PieceAt(tokens: seq<string>, starts: seq<real>, likelihoods: seq<real>, k: nat): Piece
    requires k < |tokens| && k < |starts|
  {
    Piece(Unmark(tokens[k]), starts[k], if k < |likelihoods| then Some(Clamp(likelihoods[k])) else None)
  }

  function Text(ps: seq<Piece>): string {
    if ps == [] then "" else Text(ps[..|ps| - 1]) + ps[|ps| - 1].text
  }

  function StripEnd(s: string): string {
    if s != "" && IsSpace(s[|s| - 1]) then StripEnd(s[..|s| - 1]) else s
  }

  function StripStart(s: string): string {
    if s != "" && IsSpace(s[0]) then StripStart(s[1..]) else s
  }

  function Strip(s: string): string {
    StripStart(StripEnd(s))
  }

  /** The lowest probability among the pieces that have one. */
  function Lowest(ps: seq<Piece>): Option<real> {
    if ps == [] then None
    else
      var r, p := Lowest(ps[..|ps| - 1]), ps[|ps| - 1].prob;
      if p == None then r
      else if r == None then p
      else Some(MinR(r.value, p.value))
  }

  function EndOf(ps: seq<Piece>, next: Option<real>, duration: Option<real>): real
    requires ps != []
  {
    var last := ps[|ps| - 1].start;
    var end := if next.Some? then MinR(next.value, last + LAST_TOKEN_MAX_S) else last + FRAME_S;
    if duration.Some? then MinR(end, duration.value) else end
  }

  /** `flush`: the pieces as a word, or nothing when they are only white space. */
  function Flushed(ps: seq<Piece>, next: Option<real>, duration: Option<real>): seq<Word>
    requires ps != []
  {
    var text, start := Strip(Text(ps)), ps[0].start;
    if text == "" then []
    else [Word(text, Round3(start), Round3(MaxR(EndOf(ps, next, duration), start)), Lowest(ps))]
  }

  /** The words closed so far and the pieces of the word that is open. */
  datatype Build = Build(out: seq<Word>, open: seq<Piece>)

  /** One more token; opens says whether it carries the word mark. */
  function Add(b: Build, opens: bool, p: Piece, duration: Option<real>): Build {
    if opens && b.open != [] then Build(b.out + Flushed(b.open, Some(p.start), duration), [p])
    else b.(open := b.open + [p])
  }

  function BuildUp(tokens: seq<string>, starts: seq<real>, likelihoods: seq<real>, duration: Option<real>, n: nat): Build
    requires n <= |tokens| && n <= |starts|
  {
    if n == 0 then Build([], [])
    else
      Add(BuildUp(tokens, starts, likelihoods, duration, n - 1), OpensWord(tokens[n - 1]),
          PieceAt(tokens, starts, likelihoods, n - 1), duration)
  }

  /** `zip` stops at the shorter list. */
  function Zipped(tokens: seq<string>, starts: seq<real>): nat {
    if |tokens| <= |starts| then |tokens| else |starts|
  }

  function Words(tokens: seq<string>, starts: seq<real>, likelihoods: seq<real>, duration: Option<real>): seq<Word> {
    var b := BuildUp(tokens, starts, likelihoods, duration, Zipped(tokens, starts));
    b.out + (if b.open == [] then [] else Flushed(b.open, None, duration))
  }

  /** `words_from_tokens`. */
  method WordsFromTokens(tokens: seq<string>, starts: seq<real>, likelihoods: seq<real>, duration: Option<real>)
    returns (out: seq<Word>)
    ensures out == Words(tokens, starts, likelihoods, duration)
  {
    out := [];
    var pieces: seq<Piece> := [];
    for k := 0 to Zipped(tokens, starts)
      invariant Build(out, pieces) == BuildUp(tokens, starts, likelihoods, duration, k)
    {
      var p := PieceAt(tokens, starts, likelihoods, k);
      if OpensWord(tokens[k]) && pieces != [] {
        out := out + Flushed(pieces, Some(p.start), duration);
        pieces := [];
      }
      pieces := pieces + [p];
    }
    if pieces != [] {
      out := out + Flushed(pieces, None, duration);
    }
  }

  // ---------------------------------------------------------------- words to segments

  predicate EndsSentence(w: Word) {
    w.word != "" && w.word[|w.word| - 1] in ".?!…"
  }

  /** The segments closed so far and the words of the open one. */
  datatype Cut = Cut(closed: seq<seq<Word>>, current: seq<Word>)

  function Close(c: Cut): Cut {
    if c.current == [] then c else Cut(c.closed + [c.current], [])
  }

  /** A pause of a second, or more than 30 s from the open segment's start. */
  predicate CutBefore(current: seq<Word>, w: Word) {
    current != [] &&
    (w.start - current[|current| - 1].end >= SEGMENT_GAP_S || w.end - current[0].start > SEGMENT_MAX_S)
  }

  function Next(c: Cut, w: Word): Cut {
    var d := if CutBefore(c.current, w) then Close(c) else c;
    var e := d.(current := d.current + [w]);
    if EndsSentence(w) then Close(e) else e
  }

  function CutUp(ws: seq<Word>): Cut {
    if ws == [] then Cut([], []) else Next(CutUp(ws[..|ws| - 1]), ws[|ws| - 1])
  }

  function Groups(ws: seq<Word>): seq<seq<Word>> {
    Close(CutUp(ws)).closed
  }

  datatype Segment = Segment(id: nat, start: real, end: real, text: string)

  function Join(ws: seq<Word>): string {
    if ws == [] then ""
    else if |ws| == 1 then ws[0].word
    else Join(ws[..|ws| - 1]) + " " + ws[|ws| - 1].word
  }

  function SegmentOf(id: nat, ws: seq<Word>): Segment
    requires ws != []
  {
    Segment(id, ws[0].start, ws[|ws| - 1].end, " " + Join(ws))
  }

  predicate NoneEmpty(gs: seq<seq<Word>>) {
    forall i :: 0 <= i < |gs| ==> gs[i] != []
  }

  function SegmentsOf(gs: seq<seq<Word>>): (segments: seq<Segment>)
    requires NoneEmpty(gs)
    ensures |segments| == |gs|
  {
    if gs == [] then []
    else SegmentsOf(gs[..|gs| - 1]) + [SegmentOf(|gs| - 1, gs[|gs| - 1])]
  }

  lemma {:induction false} CutUpHasNoEmpty(ws: seq<Word>)
    ensures NoneEmpty(CutUp(ws).closed) && NoneEmpty(Groups(ws))
  {
    if ws != [] {
      CutUpHasNoEmpty(ws[..|ws| - 1]);
    }
  }

  /** `segments_from_words`. */
  method SegmentsFromWords(words: seq<Word>) returns (segments: seq<Segment>)
    ensures NoneEmpty(Groups(words)) && segments == SegmentsOf(Groups(words))
  {
    segments := [];
    var current: seq<Word> := [];
    ghost var closed: seq<seq<Word>> := [];
    for k := 0 to |words|
      invariant Cut(closed, current) == CutUp(words[..k])
      invariant NoneEmpty(closed) && segments == SegmentsOf(closed)
    {
      assert words[..k + 1][..k] == words[..k];
      var w := words[k];
      if CutBefore(current, w) {
        segments := CloseOne(closed, segments, current);
        closed, current := closed + [current], [];
      }
      current := current + [w];
      if EndsSentence(w) {
        segments := CloseOne(closed, segments, current);
        closed, current := closed + [current], [];
      }
    }
    assert words[..|words|] == words;
    if current != [] {
      segments := CloseOne(closed, segments, current);
    }
  }

  /** `close` on an open segment with words. */
  method CloseOne(ghost closed: seq<seq<Word>>, segments: seq<Segment>, current: seq<Word>) returns (r: seq<Segment>)
    requires NoneEmpty(closed) && segments == SegmentsOf(closed) && current != []
    ensures NoneEmpty(closed + [current]) && r == SegmentsOf(closed + [current])
  {
    assert (closed + [current])[..|closed|] == closed;
    r := segments + [SegmentOf(|segments|, current)];
  }
}
