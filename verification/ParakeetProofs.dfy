/** What the Parakeet formatter guarantees of words and segments. */
module ParakeetProofs {
  import opened Decimal
  import opened Parakeet

  // ---------------------------------------------------------------- rounding

  lemma Round3IsMonotone(x: real, y: real)
    requires x <= y
    ensures Round3(x) <= Round3(y)
  {
    NearestIsMonotone(x * 1000.0, y * 1000.0);
  }

  lemma NearestIsMonotone(x: real, y: real)
    requires x <= y
    ensures Nearest(x) <= Nearest(y)
  {
    assert x.Floor <= y.Floor;
  }

  // ---------------------------------------------------------------- times

  /** Each word starts no later than it ends, and ends no later than any later word starts. */
  predicate InTime(ws: seq<Word>) {
    && (forall i :: 0 <= i < |ws| ==> ws[i].start <= ws[i].end)
    && (forall i, j :: 0 <= i < j < |ws| ==> ws[i].end <= ws[j].start)
  }

  predicate EndsBy(ws: seq<Word>, t: real) {
    forall i :: 0 <= i < |ws| ==> ws[i].end <= t
  }

  predicate Rising(starts: seq<real>) {
    forall i, j :: 0 <= i < j < |starts| ==> starts[i] <= starts[j]
  }

  lemma FlushedInTime(ps: seq<Piece>, next: Option<real>, duration: Option<real>)
    requires ps != [] && (next.Some? ==> ps[0].start <= next.value)
    ensures var ws := Flushed(ps, next, duration);
            && InTime(ws)
            && (ws != [] ==> ws[0].start == Round3(ps[0].start))
            && (next.Some? ==> EndsBy(ws, Round3(next.value)))
  {
    var end := MaxR(EndOf(ps, next, duration), ps[0].start);
    Round3IsMonotone(ps[0].start, end);
    if next.Some? {
      Round3IsMonotone(end, next.value);
    }
  }

  lemma InTimeMore(ws: seq<Word>, more: seq<Word>, t: real)
    requires InTime(ws) && EndsBy(ws, t) && InTime(more) && (more != [] ==> more[0].start >= t) && |more| <= 1
    ensures InTime(ws + more)
  {
  }

  /** What holds while the words are built: the closed words end by the start of the open one. */
  predicate BuildInTime(b: Build, starts: seq<real>, n: nat)
    requires n <= |starts|
  {
    && InTime(b.out)
    && (n > 0 <==> b.open != [])
    && (n == 0 ==> b.out == [])
    && (b.open != [] ==> EndsBy(b.out, Round3(b.open[0].start)))
    && (forall i :: 0 <= i < |b.open| ==> b.open[i].start <= starts[n - 1])
  }

  lemma EndsByLater(ws: seq<Word>, more: seq<Word>, s: real, t: real)
    requires EndsBy(ws, s) && s <= t && EndsBy(more, t)
    ensures EndsBy(ws + more, t)
  {
  }

  lemma FlushKeepsTime(b: Build, p: Piece, duration: Option<real>)
    requires InTime(b.out) && b.open != [] && EndsBy(b.out, Round3(b.open[0].start)) && b.open[0].start <= p.start
    ensures var out := b.out + Flushed(b.open, Some(p.start), duration); InTime(out) && EndsBy(out, Round3(p.start))
  {
    FlushedInTime(b.open, Some(p.start), duration);
    InTimeMore(b.out, Flushed(b.open, Some(p.start), duration), Round3(b.open[0].start));
    Round3IsMonotone(b.open[0].start, p.start);
    EndsByLater(b.out, Flushed(b.open, Some(p.start), duration), Round3(b.open[0].start), Round3(p.start));
  }

  lemma AddKeepsTime(b: Build, opens: bool, p: Piece, duration: Option<real>, starts: seq<real>, n: nat)
    requires n < |starts| && Rising(starts) && BuildInTime(b, starts, n) && p.start == starts[n]
    ensures BuildInTime(Add(b, opens, p, duration), starts, n + 1)
  {
    if opens && b.open != [] {
      assert b.open[0].start <= p.start;
      FlushKeepsTime(b, p, duration);
    }
  }

  lemma {:induction false} BuildKeepsTime(tokens: seq<string>, starts: seq<real>, likelihoods: seq<real>, duration: Option<real>, n: nat)
    requires n <= |tokens| && n <= |starts| && Rising(starts)
    ensures BuildInTime(BuildUp(tokens, starts, likelihoods, duration, n), starts, n)
  {
    if n > 0 {
      BuildKeepsTime(tokens, starts, likelihoods, duration, n - 1);
      AddKeepsTime(BuildUp(tokens, starts, likelihoods, duration, n - 1), OpensWord(tokens[n - 1]),
                   PieceAt(tokens, starts, likelihoods, n - 1), duration, starts, n - 1);
    }
  }

  /** For tokens whose starts do not fall, every word has start <= end <= the start of every later word. */
  lemma WordsInTime(tokens: seq<string>, starts: seq<real>, likelihoods: seq<real>, duration: Option<real>)
    requires Rising(starts)
    ensures InTime(Words(tokens, starts, likelihoods, duration))
  {
    var n := Zipped(tokens, starts);
    BuildKeepsTime(tokens, starts, likelihoods, duration, n);
    var b := BuildUp(tokens, starts, likelihoods, duration, n);
    if b.open != [] {
      FlushedInTime(b.open, None, duration);
      InTimeMore(b.out, Flushed(b.open, None, duration), Round3(b.open[0].start));
    }
  }

  // ---------------------------------------------------------------- characters

  /** The characters that are not white space, in order. */
  function Ink(s: string): string {
    if s == "" then "" else Ink(s[..|s| - 1]) + (if IsSpace(s[|s| - 1]) then "" else [s[|s| - 1]])
  }

  lemma {:induction false} InkConcat(a: string, b: string)
    ensures Ink(a + b) == Ink(a) + Ink(b)
  {
    if b == "" {
      assert a + b == a;
    } else {
      assert (a + b)[..|a + b| - 1] == a + b[..|b| - 1];
      InkConcat(a, b[..|b| - 1]);
    }
  }

  lemma {:induction false} StripEndKeepsInk(s: string)
    ensures Ink(StripEnd(s)) == Ink(s)
  {
    if s != "" && IsSpace(s[|s| - 1]) {
      StripEndKeepsInk(s[..|s| - 1]);
    }
  }

  lemma {:induction false} StripStartKeepsInk(s: string)
    ensures Ink(StripStart(s)) == Ink(s)
  {
    if s != "" && IsSpace(s[0]) {
      StripStartKeepsInk(s[1..]);
      assert s == [s[0]] + s[1..];
      InkConcat([s[0]], s[1..]);
      assert [s[0]][..0] == "";
    }
  }

  function InkOfWords(ws: seq<Word>): string {
    if ws == [] then "" else InkOfWords(ws[..|ws| - 1]) + Ink(ws[|ws| - 1].word)
  }

  lemma InkOfMore(ws: seq<Word>, more: seq<Word>)
    requires |more| <= 1
    ensures InkOfWords(ws + more) == InkOfWords(ws) + (if more == [] then "" else Ink(more[0].word))
  {
    if more == [] {
      assert ws + more == ws;
    } else {
      assert (ws + more)[..|ws|] == ws;
    }
  }

  lemma FlushedKeepsInk(ws: seq<Word>, ps: seq<Piece>, next: Option<real>, duration: Option<real>)
    requires ps != []
    ensures InkOfWords(ws + Flushed(ps, next, duration)) == InkOfWords(ws) + Ink(Text(ps))
  {
    StripEndKeepsInk(Text(ps));
    StripStartKeepsInk(StripEnd(Text(ps)));
    InkOfMore(ws, Flushed(ps, next, duration));
  }

  /** The text of the first n tokens. */
  function TokenText(tokens: seq<string>, n: nat): string
    requires n <= |tokens|
  {
    if n == 0 then "" else TokenText(tokens, n - 1) + Unmark(tokens[n - 1])
  }

  lemma TextMore(ps: seq<Piece>, p: Piece)
    ensures Text(ps + [p]) == Text(ps) + p.text
  {
    assert (ps + [p])[..|ps|] == ps;
  }

  /** The ink built so far: that of the closed words and of the open one. */
  function InkOf(b: Build): string {
    InkOfWords(b.out) + Ink(Text(b.open))
  }

  lemma TextOne(p: Piece)
    ensures Text([p]) == p.text
  {
    assert [p][..0] == [];
  }

  lemma Regroup(x: string, y: string, z: string)
    ensures (x + y) + z == x + (y + z)
  {
  }

  lemma OpenKeepsInk(b: Build, p: Piece)
    ensures InkOf(Build(b.out, b.open + [p])) == InkOf(b) + Ink(p.text)
  {
    TextMore(b.open, p);
    InkConcat(Text(b.open), p.text);
    Regroup(InkOfWords(b.out), Ink(Text(b.open)), Ink(p.text));
  }

  lemma FlushKeepsInk(b: Build, p: Piece, duration: Option<real>)
    requires b.open != []
    ensures InkOf(Build(b.out + Flushed(b.open, Some(p.start), duration), [p])) == InkOf(b) + Ink(p.text)
  {
    FlushedKeepsInk(b.out, b.open, Some(p.start), duration);
    TextOne(p);
  }

  lemma AddKeepsInk(b: Build, opens: bool, p: Piece, duration: Option<real>)
    ensures InkOf(Add(b, opens, p, duration)) == InkOf(b) + Ink(p.text)
  {
    if opens && b.open != [] {
      FlushKeepsInk(b, p, duration);
    } else {
      OpenKeepsInk(b, p);
    }
  }

  lemma AddKeepsInkOf(b: Build, opens: bool, p: Piece, duration: Option<real>, before: string)
    requires InkOf(b) == Ink(before)
    ensures InkOf(Add(b, opens, p, duration)) == Ink(before + p.text)
  {
    AddKeepsInk(b, opens, p, duration);
    InkConcat(before, p.text);
  }

  lemma {:induction false} BuildKeepsInk(tokens: seq<string>, starts: seq<real>, likelihoods: seq<real>, duration: Option<real>, n: nat)
    requires n <= |tokens| && n <= |starts|
    ensures InkOf(BuildUp(tokens, starts, likelihoods, duration, n)) == Ink(TokenText(tokens, n))
  {
    if n > 0 {
      BuildKeepsInk(tokens, starts, likelihoods, duration, n - 1);
      AddKeepsInkOf(BuildUp(tokens, starts, likelihoods, duration, n - 1), OpensWord(tokens[n - 1]),
                    PieceAt(tokens, starts, likelihoods, n - 1), duration, TokenText(tokens, n - 1));
    }
  }

  /** Nothing but white space is lost: the words hold the tokens' other characters, in order. */
  lemma WordsKeepInk(tokens: seq<string>, starts: seq<real>, likelihoods: seq<real>, duration: Option<real>)
    ensures InkOfWords(Words(tokens, starts, likelihoods, duration)) == Ink(TokenText(tokens, Zipped(tokens, starts)))
  {
    var n := Zipped(tokens, starts);
    BuildKeepsInk(tokens, starts, likelihoods, duration, n);
    var b := BuildUp(tokens, starts, likelihoods, duration, n);
    if b.open != [] {
      FlushedKeepsInk(b.out, b.open, None, duration);
    } else {
      assert b.out + [] == b.out;
    }
  }

  /** A word's probability is the lowest of its tokens': below all of them, and one of them. */
  lemma {:induction false} LowestIsLeast(ps: seq<Piece>)
    ensures Lowest(ps) == None <==> forall p :: p in ps ==> p.prob == None
    ensures Lowest(ps).Some? ==>
              (exists p :: p in ps && p.prob == Lowest(ps))
              && forall p :: p in ps && p.prob.Some? ==> Lowest(ps).value <= p.prob.value
  {
    if ps != [] {
      var init, last := ps[..|ps| - 1], ps[|ps| - 1];
      LowestIsLeast(init);
      assert forall p :: p in ps <==> p in init || p == last;
    }
  }

  // ---------------------------------------------------------------- segments

  function Flat(gs: seq<seq<Word>>): seq<Word> {
    if gs == [] then [] else gs[0] + Flat(gs[1..])
  }

  /** Why w starts a new segment behind the words g: a full stop or its like, a pause of a second, or more than 30 s. */
  predicate CutsAt(g: seq<Word>, w: Word)
    requires g != []
  {
    var last := g[|g| - 1];
    || (last.word != "" && var c := last.word[|last.word| - 1]; c == '.' || c == '?' || c == '!' || c == '…')
    || w.start - last.end >= 1.0
    || w.end - g[0].start > 30.0
  }

  /** Word k stays in the segment that starts at g[0]. */
  predicate Joins(g: seq<Word>, k: nat)
    requires 0 < k < |g|
  {
    !CutsAt(g[..k], g[k])
  }

  predicate Unbroken(g: seq<Word>) {
    forall k :: 0 < k < |g| ==> Joins(g, k)
  }

  /** There is a reason to cut between one segment and the next: a sentence end, a pause, or the 30 s limit. */
  predicate Breaks(g: seq<Word>, h: seq<Word>)
    requires g != [] && h != []
  {
    CutsAt(g, h[0])
  }

  /** The words cut exactly where there is a reason to. */
  predicate IsPartition(gs: seq<seq<Word>>, ws: seq<Word>) {
    && NoneEmpty(gs)
    && Flat(gs) == ws
    && (forall i :: 0 <= i < |gs| ==> Unbroken(gs[i]))
    && (forall i :: 0 <= i < |gs| - 1 ==> Breaks(gs[i], gs[i + 1]))
  }

  lemma {:induction false} FlatConcat(gs: seq<seq<Word>>, g: seq<Word>)
    ensures Flat(gs + [g]) == Flat(gs) + g
  {
    if gs == [] {
      assert [g][1..] == [] && gs + [g] == [g];
    } else {
      assert (gs + [g])[1..] == gs[1..] + [g];
      FlatConcat(gs[1..], g);
    }
  }

  /** What holds while the words are cut: a good partition so far, with the open segment still unbroken. */
  predicate CutOk(c: Cut, ws: seq<Word>) {
    && NoneEmpty(c.closed)
    && Flat(c.closed) + c.current == ws
    && (forall i :: 0 <= i < |c.closed| ==> Unbroken(c.closed[i]))
    && (forall i :: 0 <= i < |c.closed| - 1 ==> Breaks(c.closed[i], c.closed[i + 1]))
    && Unbroken(c.current)
    && (c.current != [] ==> !EndsSentence(c.current[|c.current| - 1]))
    && (c.closed != [] && c.current != [] ==> Breaks(c.closed[|c.closed| - 1], c.current))
    && (c.closed != [] && c.current == [] ==> EndsSentence(LastWord(c.closed)))
  }

  function LastWord(gs: seq<seq<Word>>): Word
    requires NoneEmpty(gs) && gs != []
  {
    var g := gs[|gs| - 1];
    g[|g| - 1]
  }

  /** A segment just closed, whatever closed it, and the word that starts the next. */
  predicate StartsAfter(closed: seq<seq<Word>>, g: seq<Word>)
    requires NoneEmpty(closed)
  {
    g != [] && Unbroken(g) && (closed != [] ==> Breaks(closed[|closed| - 1], g))
  }

  predicate Good(gs: seq<seq<Word>>) {
    && NoneEmpty(gs)
    && (forall i :: 0 <= i < |gs| ==> Unbroken(gs[i]))
    && (forall i :: 0 <= i < |gs| - 1 ==> Breaks(gs[i], gs[i + 1]))
  }

  lemma GoodMore(gs: seq<seq<Word>>, g: seq<Word>)
    requires Good(gs) && StartsAfter(gs, g)
    ensures Good(gs + [g]) && LastWord(gs + [g]) == g[|g| - 1]
  {
  }

  lemma OneWordUnbroken(w: Word)
    ensures Unbroken([w])
  {
  }

  lemma UnbrokenMore(g: seq<Word>, w: Word)
    requires g != [] && Unbroken(g) && !EndsSentence(g[|g| - 1]) && !CutBefore(g, w)
    ensures Unbroken(g + [w])
  {
    var h := g + [w];
    forall k | 0 < k < |h| ensures Joins(h, k) {
      assert h[..k] == g[..k];
      if k < |g| {
        assert Joins(g, k);
      } else {
        assert g[..k] == g;
      }
    }
  }

  /** The segment that w goes to, and the segments closed before it. */
  lemma PlaceWord(c: Cut, ws: seq<Word>, w: Word)
    requires CutOk(c, ws)
    ensures var d := if CutBefore(c.current, w) then Close(c) else c;
            && Good(d.closed) && StartsAfter(d.closed, d.current + [w])
            && Flat(d.closed) + (d.current + [w]) == ws + [w]
  {
    assert Good(c.closed);
    if CutBefore(c.current, w) {
      GoodMore(c.closed, c.current);
      FlatConcat(c.closed, c.current);
      OneWordUnbroken(w);
      assert [] + [w] == [w];
    } else if c.current == [] {
      OneWordUnbroken(w);
      assert [] + [w] == [w];
    } else {
      UnbrokenMore(c.current, w);
    }
  }

  lemma NextKeepsCut(c: Cut, ws: seq<Word>, w: Word)
    requires CutOk(c, ws)
    ensures CutOk(Next(c, w), ws + [w])
  {
    PlaceWord(c, ws, w);
    var d := if CutBefore(c.current, w) then Close(c) else c;
    var g := d.current + [w];
    if EndsSentence(w) {
      GoodMore(d.closed, g);
      FlatConcat(d.closed, g);
    }
  }

  lemma {:induction false} CutUpOk(ws: seq<Word>)
    ensures CutOk(CutUp(ws), ws)
  {
    if ws != [] {
      CutUpOk(ws[..|ws| - 1]);
      NextKeepsCut(CutUp(ws[..|ws| - 1]), ws[..|ws| - 1], ws[|ws| - 1]);
      assert ws[..|ws| - 1] + [ws[|ws| - 1]] == ws;
    }
  }

  /** The segments partition the words, cut exactly at sentence ends, pauses of a second and the 30 s limit. */
  lemma GroupsPartition(ws: seq<Word>)
    ensures IsPartition(Groups(ws), ws)
  {
    CutUpOk(ws);
    var c := CutUp(ws);
    assert Good(c.closed);
    if c.current != [] {
      GoodMore(c.closed, c.current);
      FlatConcat(c.closed, c.current);
    }
  }

  /** There is a reason to cut the words before the k-th, were they one segment so far. */
  predicate Reason(ws: seq<Word>, k: nat)
    requires 0 < k < |ws|
  {
    CutsAt(ws[..k], ws[k])
  }

  /** The first segment of a partition runs to the first reason to cut, or to the end. */
  lemma FirstCut(a: seq<seq<Word>>, ws: seq<Word>)
    requires IsPartition(a, ws) && a != []
    ensures var n := |a[0]|;
            && 0 < n <= |ws| && a[0] == ws[..n]
            && (n < |ws| ==> Reason(ws, n))
            && forall k :: 0 < k < n ==> !Reason(ws, k)
  {
    var n := |a[0]|;
    forall k | 0 < k < n ensures !Reason(ws, k) {
      assert Joins(a[0], k);
      assert a[0][..k] == ws[..k];
    }
    if n < |ws| {
      NothingToCut(a[1..]);
      assert Breaks(a[0], a[0 + 1]);
      assert Flat(a) == a[0] + (a[1] + Flat(a[1..][1..]));
      assert a[1][0] == ws[n];
    }
  }

  lemma NothingToCut(gs: seq<seq<Word>>)
    requires NoneEmpty(gs)
    ensures Flat(gs) == [] <==> gs == []
  {
  }

  /** There is only one way to cut the words so. */
  lemma {:induction false} PartitionIsUnique(a: seq<seq<Word>>, b: seq<seq<Word>>, ws: seq<Word>)
    requires IsPartition(a, ws) && IsPartition(b, ws)
    ensures a == b
    decreases |a|
  {
    if a == [] || b == [] {
      NothingToCut(a);
      NothingToCut(b);
    } else {
      FirstCut(a, ws);
      FirstCut(b, ws);
      var n := |a[0]|;
      TailIsPartition(a, ws);
      TailIsPartition(b, ws);
      PartitionIsUnique(a[1..], b[1..], ws[n..]);
      assert a == [a[0]] + a[1..] && b == [b[0]] + b[1..];
    }
  }

  lemma TailIsPartition(a: seq<seq<Word>>, ws: seq<Word>)
    requires IsPartition(a, ws) && a != []
    ensures IsPartition(a[1..], ws[|a[0]|..])
  {
    forall i | 0 <= i < |a[1..]| - 1 ensures Breaks(a[1..][i], a[1..][i + 1]) {
      assert Breaks(a[i + 1], a[i + 1 + 1]);
    }
  }

  /** A segment of several words spans at most 30 s. */
  lemma LongSegmentsAreBounded(ws: seq<Word>, i: nat)
    requires i < |Groups(ws)| && |Groups(ws)[i]| > 1
    ensures var g := Groups(ws)[i]; g[|g| - 1].end - g[0].start <= 30.0
  {
    GroupsPartition(ws);
    var g := Groups(ws)[i];
    assert Joins(g, |g| - 1);
  }

  // ---------------------------------------------------------------- texts

  function TextOf(segments: seq<Segment>): string {
    if segments == [] then "" else TextOf(segments[..|segments| - 1]) + segments[|segments| - 1].text
  }

  lemma {:induction false} JoinConcat(a: seq<Word>, b: seq<Word>)
    requires a != [] && b != []
    ensures Join(a + b) == Join(a) + " " + Join(b)
  {
    assert (a + b)[..|a + b| - 1] == a + b[..|b| - 1];
    if |b| == 1 {
      assert a + b[..0] == a;
    } else {
      JoinConcat(a, b[..|b| - 1]);
    }
  }

  lemma TextOfMore(gs: seq<seq<Word>>, g: seq<Word>)
    requires NoneEmpty(gs) && g != []
    ensures NoneEmpty(gs + [g]) && TextOf(SegmentsOf(gs + [g])) == TextOf(SegmentsOf(gs)) + (" " + Join(g))
  {
    assert (gs + [g])[..|gs|] == gs;
    var last := SegmentOf(|gs|, g);
    assert SegmentsOf(gs + [g]) == SegmentsOf(gs) + [last];
    assert (SegmentsOf(gs) + [last])[..|gs|] == SegmentsOf(gs);
  }

  lemma {:induction false} TextsOfGroups(gs: seq<seq<Word>>)
    requires NoneEmpty(gs)
    ensures TextOf(SegmentsOf(gs)) == if gs == [] then "" else " " + Join(Flat(gs))
    ensures gs != [] ==> Flat(gs) != []
  {
    if gs != [] {
      var init, g := gs[..|gs| - 1], gs[|gs| - 1];
      assert gs == init + [g];
      TextsOfGroups(init);
      TextOfMore(init, g);
      FlatConcat(init, g);
      JoinMore(Flat(init), g);
    }
  }

  lemma JoinMore(a: seq<Word>, b: seq<Word>)
    requires b != []
    ensures (if a == [] then "" else " " + Join(a)) + (" " + Join(b)) == " " + Join(a + b)
  {
    if a == [] {
      assert a + b == b;
    } else {
      JoinConcat(a, b);
    }
  }

  /** The segments' texts put together are the reply's text, with one space before it. */
  lemma SegmentTextsRejoin(ws: seq<Word>)
    requires ws != []
    ensures NoneEmpty(Groups(ws)) && TextOf(SegmentsOf(Groups(ws))) == " " + Join(ws)
  {
    GroupsPartition(ws);
    TextsOfGroups(Groups(ws));
  }

  /** Segments are numbered from 0 and carry the times of their first and last words. */
  lemma {:induction false} SegmentsCarryTimes(gs: seq<seq<Word>>, i: nat)
    requires NoneEmpty(gs) && i < |gs|
    ensures var s := SegmentsOf(gs)[i];
            s.id == i && s.start == gs[i][0].start && s.end == gs[i][|gs[i]| - 1].end
  {
    if i < |gs| - 1 {
      SegmentsCarryTimes(gs[..|gs| - 1], i);
    }
  }
}
