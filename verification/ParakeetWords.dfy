/** The words of a reply from its tokens: which tokens make each word, and its text, times and probability. */
module ParakeetWords {
  import opened Decimal
  import opened Parakeet
  import opened ParakeetProofs

  // ---------------------------------------------------------------- the runs of tokens

  /** A word mark in front: a space or a low block. */
  predicate StartsWord(t: string) {
    t != "" && (t[0] == ' ' || t[0] == '▁')
  }

  /** Where the runs among the first n tokens start: at the first token and at every later one with a word mark. */
  ghost predicate AreCuts(tokens: seq<string>, n: nat, cuts: seq<nat>)
    requires n <= |tokens|
  {
    && (forall i, j :: 0 <= i < j < |cuts| ==> cuts[i] < cuts[j])
    && (forall k :: k in cuts <==> 0 <= k < n && (k == 0 || StartsWord(tokens[k])))
  }

  function CutsOf(tokens: seq<string>, n: nat): (cuts: seq<nat>)
    requires n <= |tokens|
  {
    if n == 0 then []
    else CutsOf(tokens, n - 1) + (if n == 1 || StartsWord(tokens[n - 1]) then [n - 1] else [])
  }

  lemma {:induction false} CutsAreCuts(tokens: seq<string>, n: nat)
    requires n <= |tokens|
    ensures AreCuts(tokens, n, CutsOf(tokens, n)) && (n > 0 ==> CutsOf(tokens, n) != [] && CutsOf(tokens, n)[0] == 0)
  {
    if n > 0 {
      CutsAreCuts(tokens, n - 1);
      if n == 1 || StartsWord(tokens[n - 1]) {
        OneMoreCut(tokens, n - 1, CutsOf(tokens, n - 1));
      }
    }
  }

  lemma OneMoreCut(tokens: seq<string>, n: nat, cuts: seq<nat>)
    requires n < |tokens| && AreCuts(tokens, n, cuts) && (n == 0 || StartsWord(tokens[n]))
    ensures AreCuts(tokens, n + 1, cuts + [n])
  {
    forall k ensures k in cuts + [n] <==> 0 <= k < n + 1 && (k == 0 || StartsWord(tokens[k])) {
      assert k in cuts + [n] <==> k in cuts || k == n;
    }
    forall i, j | 0 <= i < j < |cuts + [n]| ensures (cuts + [n])[i] < (cuts + [n])[j] {
      assert cuts[i] in cuts;
    }
  }

  lemma LastIsGreatest(cuts: seq<nat>, k: nat)
    requires (forall i, j :: 0 <= i < j < |cuts| ==> cuts[i] < cuts[j]) && k in cuts
    ensures cuts[|cuts| - 1] >= k
  {
  }

  /** There is only one way to cut the tokens so. */
  lemma {:induction false} CutsAreUnique(tokens: seq<string>, n: nat, a: seq<nat>, b: seq<nat>)
    requires n <= |tokens| && AreCuts(tokens, n, a) && AreCuts(tokens, n, b)
    ensures a == b
  {
    SameRising(a, b);
  }

  lemma WithoutLast(a: seq<nat>, k: nat)
    requires a != [] && forall i, j :: 0 <= i < j < |a| ==> a[i] < a[j]
    ensures k in a[..|a| - 1] <==> k in a && k != a[|a| - 1]
  {
    var init, last := a[..|a| - 1], a[|a| - 1];
    assert a == init + [last];
    assert last !in init;
  }

  lemma {:induction false} SameRising(a: seq<nat>, b: seq<nat>)
    requires forall i, j :: 0 <= i < j < |a| ==> a[i] < a[j]
    requires forall i, j :: 0 <= i < j < |b| ==> b[i] < b[j]
    requires forall k :: k in a <==> k in b
    ensures a == b
  {
    assert (a == [] || a[0] in a) && (b == [] || b[0] in b);
    if a != [] && b != [] {
      var x, y := a[|a| - 1], b[|b| - 1];
      assert x in a && y in b;
      LastIsGreatest(a, y);
      LastIsGreatest(b, x);
      var a', b' := a[..|a| - 1], b[..|b| - 1];
      forall k ensures k in a' <==> k in b' {
        WithoutLast(a, k);
        WithoutLast(b, k);
      }
      SameRising(a', b');
      assert a == a' + [x] && b == b' + [y];
    }
  }

  // ---------------------------------------------------------------- a word of a run

  /** A token as it is shown: every low block is a space. */
  function Shown(t: string): string {
    seq(|t|, k requires 0 <= k < |t| => if t[k] == '▁' then ' ' else t[k])
  }

  function RunText(tokens: seq<string>, i: nat, j: nat): string
    requires i <= j <= |tokens|
  {
    if i == j then "" else RunText(tokens, i, j - 1) + Shown(tokens[j - 1])
  }

  predicate Blank(s: string) {
    forall k :: 0 <= k < |s| ==> s[k] == ' ' || s[k] == '\t' || s[k] == '\n' || s[k] == '\r'
  }

  /** r is s without the white space around it. */
  ghost predicate IsStripped(s: string, r: string) {
    && (exists u, v :: Blank(u) && Blank(v) && s == u + r + v)
    && (r != "" ==> !Blank(r[..1]) && !Blank(r[|r| - 1..]))
  }

  /** y is x to the nearest thousandth, an even one on a tie. */
  ghost predicate IsRounded(x: real, y: real) {
    exists m: int :: RoundsTo(x, y, m)
  }

  predicate RoundsTo(x: real, y: real, m: int) {
    var off := x * 1000.0 - m as real;
    y == m as real / 1000.0 && -0.5 <= off <= 0.5 && (off == 0.5 || off == -0.5 ==> m % 2 == 0)
  }

  /** Where the run's last token ends: at the next run's start, 0.4 s after its own at most; 0.08 s after it at the end of all; never after the duration. */
  function RunEnd(last: real, next: Option<real>, duration: Option<real>): real {
    var end := if next == None then last + 0.08 else if next.value <= last + 0.4 then next.value else last + 0.4;
    if duration.Some? && duration.value < end then duration.value else end
  }

  function Between01(p: real): real {
    if p < 0.0 then 0.0 else if p > 1.0 then 1.0 else p
  }

  /** p is the least of the likelihoods, each kept between 0 and 1, that the tokens i to j have. */
  ghost predicate IsLeast(likelihoods: seq<real>, i: nat, j: nat, p: Option<real>) {
    && (p == None <==> i >= |likelihoods| || i >= j)
    && (p.Some? ==>
          && (exists k :: i <= k < j && k < |likelihoods| && p.value == Between01(likelihoods[k]))
          && forall k :: i <= k < j && k < |likelihoods| ==> p.value <= Between01(likelihoods[k]))
  }

  /** ws is the word of the tokens i to j, or nothing when they are blank; next is the next run's start, if there is one. */
  ghost predicate IsWordOf(tokens: seq<string>, starts: seq<real>, likelihoods: seq<real>, duration: Option<real>,
                           i: nat, j: nat, next: Option<real>, ws: seq<Word>)
    requires i < j <= |tokens| && j <= |starts|
  {
    var text := RunText(tokens, i, j);
    var end := RunEnd(starts[j - 1], next, duration);
    if Blank(text) then ws == []
    else
      |ws| == 1 && ws[0].word != "" && IsStripped(text, ws[0].word)
      && IsRounded(starts[i], ws[0].start)
      && IsRounded(if end <= starts[i] then starts[i] else end, ws[0].end)
      && IsLeast(likelihoods, i, j, ws[0].prob)
  }

  // ---------------------------------------------------------------- the formatter's pieces

  lemma RoundIsNearest(x: real)
    ensures IsRounded(x, Round3(x))
  {
    var y, m := x * 1000.0, Nearest(x * 1000.0);
    assert -0.5 <= y - m as real <= 0.5;
    assert y - m as real == 0.5 || y - m as real == -0.5 ==> m % 2 == 0;
    assert RoundsTo(x, Round3(x), m);
  }

  lemma {:induction false} UnmarkIsShown(t: string)
    ensures Unmark(t) == Shown(t)
  {
    if t != "" {
      UnmarkIsShown(t[..|t| - 1]);
      assert Shown(t) == Shown(t[..|t| - 1]) + [if t[|t| - 1] == '▁' then ' ' else t[|t| - 1]];
    }
  }

  lemma BlankConcat(u: string, v: string)
    requires Blank(u) && Blank(v)
    ensures Blank(u + v)
  {
  }

  lemma {:induction false} StripEndTakesBlank(s: string) returns (v: string)
    ensures Blank(v) && s == StripEnd(s) + v
    ensures StripEnd(s) != "" ==> !Blank(StripEnd(s)[|StripEnd(s)| - 1..])
  {
    if s != "" && IsSpace(s[|s| - 1]) {
      var init, last := s[..|s| - 1], [s[|s| - 1]];
      var w := StripEndTakesBlank(init);
      BlankConcat(w, last);
      v := w + last;
      Regroup(StripEnd(init), w, last);
      assert s == init + last;
    } else {
      v := "";
      if s != "" {
        assert s[|s| - 1..][0] == s[|s| - 1];
      }
    }
  }

  lemma {:induction false} StripEndOfBlank(s: string)
    requires Blank(s)
    ensures StripEnd(s) == ""
  {
    if s != "" {
      assert IsSpace(s[|s| - 1]);
      StripEndOfBlank(s[..|s| - 1]);
    }
  }

  lemma {:induction false} StripStartTakesBlank(s: string) returns (u: string)
    ensures Blank(u) && s == u + StripStart(s)
    ensures StripStart(s) != "" ==> !Blank(StripStart(s)[..1])
  {
    if s != "" && IsSpace(s[0]) {
      var w := StripStartTakesBlank(s[1..]);
      BlankConcat([s[0]], w);
      u := [s[0]] + w;
      Regroup([s[0]], w, StripStart(s[1..]));
      assert s == [s[0]] + s[1..];
    } else {
      u := "";
      if s != "" {
        assert s[..1][0] == s[0];
      }
    }
  }

  lemma StripIs(s: string)
    ensures IsStripped(s, Strip(s)) && (Strip(s) == "" <==> Blank(s))
  {
    var v := StripEndTakesBlank(s);
    var u := StripStartTakesBlank(StripEnd(s));
    var r := Strip(s);
    assert s == u + r + v;
    if Blank(s) {
      StripEndOfBlank(s);
    }
    if r != "" {
      assert r[|r| - 1] == StripEnd(s)[|StripEnd(s)| - 1];
      assert r[|r| - 1..] == StripEnd(s)[|StripEnd(s)| - 1..];
      assert r[|r| - 1] == s[|u| + |r| - 1];
    } else {
      assert s == u + v;
    }
  }

  /** The pieces of the tokens i to j. */
  function PiecesOf(tokens: seq<string>, starts: seq<real>, likelihoods: seq<real>, i: nat, j: nat): (ps: seq<Piece>)
    requires i <= j <= |tokens| && j <= |starts|
    ensures |ps| == j - i
    ensures forall k :: 0 <= k < j - i ==> ps[k] == PieceAt(tokens, starts, likelihoods, i + k)
  {
    if i == j then [] else PiecesOf(tokens, starts, likelihoods, i, j - 1) + [PieceAt(tokens, starts, likelihoods, j - 1)]
  }

  lemma {:induction false} TextIsRunText(tokens: seq<string>, starts: seq<real>, likelihoods: seq<real>, i: nat, j: nat)
    requires i <= j <= |tokens| && j <= |starts|
    ensures Text(PiecesOf(tokens, starts, likelihoods, i, j)) == RunText(tokens, i, j)
  {
    if i < j {
      var init, p := PiecesOf(tokens, starts, likelihoods, i, j - 1), PieceAt(tokens, starts, likelihoods, j - 1);
      TextIsRunText(tokens, starts, likelihoods, i, j - 1);
      TextOfMore(init, p, RunText(tokens, i, j - 1), tokens[j - 1]);
    }
  }

  lemma TextOfMore(init: seq<Piece>, p: Piece, text: string, t: string)
    requires Text(init) == text && p.text == Unmark(t)
    ensures Text(init + [p]) == text + Shown(t)
  {
    UnmarkIsShown(t);
    TextMore(init, p);
  }

  lemma LowestOfRun(tokens: seq<string>, starts: seq<real>, likelihoods: seq<real>, i: nat, j: nat)
    requires i < j <= |tokens| && j <= |starts|
    ensures IsLeast(likelihoods, i, j, Lowest(PiecesOf(tokens, starts, likelihoods, i, j)))
  {
    var ps := PiecesOf(tokens, starts, likelihoods, i, j);
    LowestIsLeast(ps);
    ProbsOfRun(tokens, starts, likelihoods, i, j);
    var p := Lowest(ps);
    if p == None {
      assert ps[0].prob == None;
    } else {
      forall k | i <= k < j && k < |likelihoods| ensures p.value <= Between01(likelihoods[k]) {
        assert ps[k - i] in ps;
      }
      var q :| q in ps && q.prob == p;
      var m :| 0 <= m < |ps| && ps[m] == q;
      assert i + m < |likelihoods| && p.value == Between01(likelihoods[i + m]);
    }
  }

  lemma ProbsOfRun(tokens: seq<string>, starts: seq<real>, likelihoods: seq<real>, i: nat, j: nat)
    requires i < j <= |tokens| && j <= |starts|
    ensures var ps := PiecesOf(tokens, starts, likelihoods, i, j);
            forall m :: 0 <= m < |ps| ==>
              ps[m].prob == if i + m < |likelihoods| then Some(Between01(likelihoods[i + m])) else None
  {
  }

  lemma EndOfRun(tokens: seq<string>, starts: seq<real>, likelihoods: seq<real>, duration: Option<real>, i: nat, j: nat, next: Option<real>)
    requires i < j <= |tokens| && j <= |starts|
    ensures var ps := PiecesOf(tokens, starts, likelihoods, i, j);
            ps[0].start == starts[i] && EndOf(ps, next, duration) == RunEnd(starts[j - 1], next, duration)
  {
  }

  lemma FlushedIsWordOf(tokens: seq<string>, starts: seq<real>, likelihoods: seq<real>, duration: Option<real>, i: nat, j: nat, next: Option<real>)
    requires i < j <= |tokens| && j <= |starts|
    ensures IsWordOf(tokens, starts, likelihoods, duration, i, j, next,
                     Flushed(PiecesOf(tokens, starts, likelihoods, i, j), next, duration))
  {
    var ps := PiecesOf(tokens, starts, likelihoods, i, j);
    TextIsRunText(tokens, starts, likelihoods, i, j);
    StripIs(Text(ps));
    LowestOfRun(tokens, starts, likelihoods, i, j);
    EndOfRun(tokens, starts, likelihoods, duration, i, j, next);
    RoundIsNearest(starts[i]);
    RoundIsNearest(MaxR(EndOf(ps, next, duration), starts[i]));
  }

  // ---------------------------------------------------------------- the words are the runs

  function Concat(parts: seq<seq<Word>>): seq<Word> {
    if parts == [] then [] else Concat(parts[..|parts| - 1]) + parts[|parts| - 1]
  }

  /** ws is the word of the k-th run of the first n tokens. */
  ghost predicate IsWordOfRun(tokens: seq<string>, starts: seq<real>, likelihoods: seq<real>, duration: Option<real>,
                              cuts: seq<nat>, n: nat, k: nat, ws: seq<Word>)
    requires n <= |tokens| && n <= |starts| && k < |cuts|
  {
    if k + 1 < |cuts| then
      var i, j := cuts[k], cuts[k + 1];
      i < j < n && IsWordOf(tokens, starts, likelihoods, duration, i, j, Some(starts[j]), ws)
    else
      cuts[k] < n && IsWordOf(tokens, starts, likelihoods, duration, cuts[k], n, None, ws)
  }

  /** What the formatter has built from the first n tokens: the words of all runs but the last, and the last run's pieces. */
  ghost predicate BuiltFrom(tokens: seq<string>, starts: seq<real>, likelihoods: seq<real>, duration: Option<real>,
                            n: nat, b: Build, cuts: seq<nat>, parts: seq<seq<Word>>)
    requires n <= |tokens| && n <= |starts|
  {
    && cuts != [] && |parts| == |cuts| - 1 && cuts[|cuts| - 1] < n
    && (forall k :: 0 <= k < |parts| ==> IsWordOfRun(tokens, starts, likelihoods, duration, cuts, n, k, parts[k]))
    && b.out == Concat(parts) && b.open == PiecesOf(tokens, starts, likelihoods, cuts[|cuts| - 1], n)
  }

  lemma ConcatMore(parts: seq<seq<Word>>, ws: seq<Word>)
    ensures Concat(parts + [ws]) == Concat(parts) + ws
  {
    assert (parts + [ws])[..|parts|] == parts;
  }

  /** Token n carries a word mark: the run before it becomes its word. */
  lemma RunCloses(tokens: seq<string>, starts: seq<real>, likelihoods: seq<real>, duration: Option<real>,
                  n: nat, b: Build, cuts: seq<nat>, parts: seq<seq<Word>>) returns (more: seq<seq<Word>>)
    requires n < |tokens| && n < |starts| && BuiltFrom(tokens, starts, likelihoods, duration, n, b, cuts, parts)
    ensures BuiltFrom(tokens, starts, likelihoods, duration, n + 1,
                      Add(b, true, PieceAt(tokens, starts, likelihoods, n), duration), cuts + [n], more)
  {
    var i := cuts[|cuts| - 1];
    var ws := Flushed(b.open, Some(starts[n]), duration);
    FlushedIsWordOf(tokens, starts, likelihoods, duration, i, n, Some(starts[n]));
    more := parts + [ws];
    ConcatMore(parts, ws);
    forall k | 0 <= k < |more| ensures IsWordOfRun(tokens, starts, likelihoods, duration, cuts + [n], n + 1, k, more[k]) {
      if k < |parts| {
        assert IsWordOfRun(tokens, starts, likelihoods, duration, cuts, n, k, parts[k]);
      }
    }
    OnePieceOf(tokens, starts, likelihoods, n);
  }

  lemma OnePieceOf(tokens: seq<string>, starts: seq<real>, likelihoods: seq<real>, n: nat)
    requires n < |tokens| && n < |starts|
    ensures PiecesOf(tokens, starts, likelihoods, n, n + 1) == [PieceAt(tokens, starts, likelihoods, n)]
  {
  }

  /** Token n goes on with its run. */
  lemma RunGoesOn(tokens: seq<string>, starts: seq<real>, likelihoods: seq<real>, duration: Option<real>,
                  n: nat, b: Build, cuts: seq<nat>, parts: seq<seq<Word>>)
    requires n < |tokens| && n < |starts| && BuiltFrom(tokens, starts, likelihoods, duration, n, b, cuts, parts)
    ensures BuiltFrom(tokens, starts, likelihoods, duration, n + 1,
                      Add(b, false, PieceAt(tokens, starts, likelihoods, n), duration), cuts, parts)
  {
    forall k | 0 <= k < |parts| ensures IsWordOfRun(tokens, starts, likelihoods, duration, cuts, n + 1, k, parts[k]) {
      assert IsWordOfRun(tokens, starts, likelihoods, duration, cuts, n, k, parts[k]);
    }
  }

  /** One more token. */
  lemma RunStep(tokens: seq<string>, starts: seq<real>, likelihoods: seq<real>, duration: Option<real>,
                n: nat, b: Build, parts: seq<seq<Word>>) returns (more: seq<seq<Word>>)
    requires 0 < n < |tokens| && n < |starts|
    requires BuiltFrom(tokens, starts, likelihoods, duration, n, b, CutsOf(tokens, n), parts)
    ensures BuiltFrom(tokens, starts, likelihoods, duration, n + 1,
                      Add(b, OpensWord(tokens[n]), PieceAt(tokens, starts, likelihoods, n), duration), CutsOf(tokens, n + 1), more)
  {
    var cuts := CutsOf(tokens, n);
    if StartsWord(tokens[n]) {
      assert CutsOf(tokens, n + 1) == cuts + [n];
      more := RunCloses(tokens, starts, likelihoods, duration, n, b, cuts, parts);
    } else {
      more := parts;
      assert CutsOf(tokens, n + 1) == cuts;
      RunGoesOn(tokens, starts, likelihoods, duration, n, b, cuts, parts);
    }
  }

  lemma {:induction false} BuildIsFromRuns(tokens: seq<string>, starts: seq<real>, likelihoods: seq<real>, duration: Option<real>, n: nat)
    returns (parts: seq<seq<Word>>)
    requires 0 < n <= |tokens| && n <= |starts|
    ensures BuiltFrom(tokens, starts, likelihoods, duration, n, BuildUp(tokens, starts, likelihoods, duration, n), CutsOf(tokens, n), parts)
  {
    if n == 1 {
      parts := [];
      FirstRun(tokens, starts, likelihoods, duration);
    } else {
      parts := BuildIsFromRuns(tokens, starts, likelihoods, duration, n - 1);
      parts := RunStep(tokens, starts, likelihoods, duration, n - 1, BuildUp(tokens, starts, likelihoods, duration, n - 1), parts);
    }
  }

  lemma FirstRun(tokens: seq<string>, starts: seq<real>, likelihoods: seq<real>, duration: Option<real>)
    requires |tokens| > 0 && |starts| > 0
    ensures BuiltFrom(tokens, starts, likelihoods, duration, 1, BuildUp(tokens, starts, likelihoods, duration, 1), CutsOf(tokens, 1), [])
  {
    OnePieceOf(tokens, starts, likelihoods, 0);
    assert CutsOf(tokens, 0) == [] && CutsOf(tokens, 1) == [0];
    assert BuildUp(tokens, starts, likelihoods, duration, 0) == Build([], []);
    assert [] + [PieceAt(tokens, starts, likelihoods, 0)] == [PieceAt(tokens, starts, likelihoods, 0)];
  }

  /**
   The words of a reply: the tokens are cut before each one with a word mark, which can be done in one
   way only, and every run that is not blank is one word, with its text, times and probability.
   */
  lemma WordsAreRuns(tokens: seq<string>, starts: seq<real>, likelihoods: seq<real>, duration: Option<real>)
    returns (cuts: seq<nat>, parts: seq<seq<Word>>)
    ensures var n := if |tokens| <= |starts| then |tokens| else |starts|;
            && AreCuts(tokens, n, cuts) && |parts| == |cuts|
            && (forall k :: 0 <= k < |parts| ==> IsWordOfRun(tokens, starts, likelihoods, duration, cuts, n, k, parts[k]))
            && Words(tokens, starts, likelihoods, duration) == Concat(parts)
  {
    var n := Zipped(tokens, starts);
    cuts := CutsOf(tokens, n);
    CutsAreCuts(tokens, n);
    if n == 0 {
      parts := [];
    } else {
      var b := BuildUp(tokens, starts, likelihoods, duration, n);
      var closed := BuildIsFromRuns(tokens, starts, likelihoods, duration, n);
      parts := LastRunCloses(tokens, starts, likelihoods, duration, n, b, cuts, closed);
    }
  }

  lemma LastRunCloses(tokens: seq<string>, starts: seq<real>, likelihoods: seq<real>, duration: Option<real>,
                      n: nat, b: Build, cuts: seq<nat>, closed: seq<seq<Word>>) returns (parts: seq<seq<Word>>)
    requires n <= |tokens| && n <= |starts| && BuiltFrom(tokens, starts, likelihoods, duration, n, b, cuts, closed)
    ensures |parts| == |cuts| && b.open != [] && Concat(parts) == b.out + Flushed(b.open, None, duration)
    ensures forall k :: 0 <= k < |parts| ==> IsWordOfRun(tokens, starts, likelihoods, duration, cuts, n, k, parts[k])
  {
    FlushedIsWordOf(tokens, starts, likelihoods, duration, cuts[|cuts| - 1], n, None);
    ConcatMore(closed, Flushed(b.open, None, duration));
    parts := closed + [Flushed(b.open, None, duration)];
  }
}
