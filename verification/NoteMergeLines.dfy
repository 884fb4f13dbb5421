/** What merging notes does to lines, told from their text. */
module NoteMergeLines {
  import Decimal
  import opened NoteMerge
  import opened NoteMergeProofs

  // ---------------------------------------------------------------- what a line says

  predicate IsUpper(c: char) {
    'A' <= c <= 'Z'
  }

  predicate IsWhite(c: char) {
    c == ' ' || c == '\t' || c == '\n'
  }

  predicate White(s: string) {
    forall i :: 0 <= i < |s| ==> IsWhite(s[i])
  }

  predicate IsMark(c: char) {
    c == '.' || c == ';' || c == ','
  }

  predicate Marks(s: string) {
    forall i :: 0 <= i < |s| ==> IsMark(s[i])
  }

  predicate IsDash(c: char) {
    c == '-' || c == '•' || c == '*' || c == '·'
  }

  predicate IsSquare(c: char) {
    c == '▪' || c == '◦'
  }

  predicate IsDigit(c: char) {
    '0' <= c <= '9'
  }

  /** Small letters and single spaces, none at an end. */
  predicate IsCore(c: string) {
    && c != "" && c[0] != ' ' && c[|c| - 1] != ' '
    && IsSmall(c)
  }

  predicate IsSmall(c: string) {
    && (forall i :: 0 <= i < |c| ==> !IsUpper(c[i]) && c[i] != '\t' && c[i] != '\n')
    && (forall i :: 0 < i < |c| ==> c[i - 1] != ' ' || c[i] != ' ')
  }

  /** The same letter, in either case. */
  predicate SameLetter(x: char, y: char) {
    if IsUpper(x) then x as int + 32 == y as int else x == y
  }

  /** body is c in any case, with any white space where c has a space. */
  predicate Says(body: string, c: string)
    decreases |body|
  {
    if c == "" then body == ""
    else if body == "" then false
    else
      var x, y := body[|body| - 1], c[|c| - 1];
      if y == ' ' then
        IsWhite(x) && (Says(body[..|body| - 1], c) || Says(body[..|body| - 1], c[..|c| - 1]))
      else !IsWhite(x) && SameLetter(x, y) && Says(body[..|body| - 1], c[..|c| - 1])
  }

  predicate StartsNumber(s: string) {
    || (|s| >= 2 && IsDigit(s[0]) && (s[1] == '.' || s[1] == ')'))
    || (|s| >= 3 && IsDigit(s[0]) && IsDigit(s[1]) && (s[2] == '.' || s[2] == ')'))
  }

  /** One or two digits and a dot or bracket, or nothing. */
  predicate IsListNumber(s: string) {
    || s == ""
    || (|s| == 2 && IsDigit(s[0]) && (s[1] == '.' || s[1] == ')'))
    || (|s| == 3 && IsDigit(s[0]) && IsDigit(s[1]) && (s[2] == '.' || s[2] == ')'))
  }

  /** A line: bullets, a list number, more bullets, what it says, and marks with white space around them. */
  datatype Parts = Parts(before: string, number: string, after: string, body: string, gap: string, marks: string, end: string)

  function Rest(p: Parts): string {
    p.body + (p.gap + (p.marks + p.end))
  }

  function Whole(p: Parts): string {
    p.before + (p.number + (p.after + Rest(p)))
  }

  predicate FrontIs(p: Parts) {
    && (forall i :: 0 <= i < |p.before| ==> IsDash(p.before[i]) || IsSquare(p.before[i]) || IsWhite(p.before[i]))
    && IsListNumber(p.number)
    && (forall i :: 0 <= i < |p.after| ==> IsDash(p.after[i]) || IsWhite(p.after[i]))
  }

  /** No more of the front, and no more of the marks, can be cut off. */
  predicate CutIs(p: Parts, c: string)
    requires c != ""
  {
    && !IsDash(c[0])
    && (p.number == "" ==> !IsSquare(c[0]) && !StartsNumber(Rest(p)))
    && (IsMark(c[|c| - 1]) ==> p.gap != "" && p.marks != "")
  }

  predicate SaysIn(p: Parts, c: string) {
    && IsCore(c) && FrontIs(p) && CutIs(p, c)
    && Says(p.body, c) && White(p.gap) && Marks(p.marks) && White(p.end)
  }

  ghost predicate LineSays(line: string, c: string) {
    exists p: Parts :: Whole(p) == line && SaysIn(p, c)
  }

  // ---------------------------------------------------------------- the front

  lemma {:induction false} SaysFirst(body: string, c: string)
    requires Says(body, c) && c != "" && c[0] != ' '
    ensures body != "" && SameLetter(body[0], c[0]) && !IsWhite(body[0])
  {
    var body', c' := body[..|body| - 1], c[..|c| - 1];
    if |c| > 1 {
      if Says(body', c) && c[|c| - 1] == ' ' { SaysFirst(body', c); } else { SaysFirst(body', c'); }
    }
  }

  lemma {:induction false} SkipsAll(p: char -> bool, a: string, r: string)
    requires forall i :: 0 <= i < |a| ==> p(a[i])
    requires r != "" ==> !p(r[0])
    ensures SkipWhile(p, a + r) == r
  {
    if a == "" {
      assert a + r == r;
    } else {
      assert (a + r)[1..] == a[1..] + r;
      SkipsAll(p, a[1..], r);
    }
  }

  lemma {:induction false} SkipsMore(s: string)
    ensures SkipWhile(AfterNumber, SkipWhile(IsSpace, s)) == SkipWhile(AfterNumber, s)
  {
    if s != "" && IsSpace(s[0]) {
      SkipsMore(s[1..]);
    }
  }

  /** SkipNumber, where a number starts and where none does. */
  lemma NumberIsSkipped(number: string, r: string)
    requires number != "" && IsListNumber(number)
    ensures SkipNumber(number + r) == SkipWhile(IsSpace, r)
  {
    var s := number + r;
    assert s[..|number|] == number && s[|number|..] == r;
    assert s[0] == number[0] && s[1] == number[1];
    if |number| == 3 {
      assert s[2] == number[2];
    }
  }

  lemma FrontIsDropped(before: string, number: string, after: string, r: string)
    requires FrontIs(Parts(before, number, after, "", "", "", ""))
    requires r != "" && !IsDash(r[0]) && !IsWhite(r[0])
    requires number == "" ==> !IsSquare(r[0]) && !StartsNumber(r)
    ensures DropBullet(before + (number + (after + r))) == r
  {
    if number == "" {
      assert before + (number + (after + r)) == (before + after) + r;
      SkipsAll(BeforeNumber, before + after, r);
      SkipsAll(AfterNumber, "", r);
      assert "" + r == r;
    } else {
      var s := number + (after + r);
      assert s[0] == number[0];
      SkipsAll(BeforeNumber, before, s);
      NumberIsSkipped(number, after + r);
      SkipsMore(after + r);
      SkipsAll(AfterNumber, after, r);
    }
  }

  // ---------------------------------------------------------------- white space and case

  lemma CollapseOne(s: string, x: char)
    ensures Collapse(s + [x]) == if !IsSpace(x) then Collapse(s) + [x] else if Collapse(s) != "" && Collapse(s)[|Collapse(s)| - 1] == ' ' then Collapse(s) else Collapse(s) + " "
  {
    assert (s + [x])[..|s|] == s;
  }

  lemma LowerOne(s: string, x: char)
    ensures Lower(s + [x]) == Lower(s) + [LowerChar(x)]
  {
  }

  /** What a body says is its collapsed text in small letters. */
  lemma {:induction false} SaidIsCollapsed(body: string, c: string)
    requires Says(body, c) && IsSmall(c)
    ensures Lower(Collapse(body)) == c
    decreases |body|
  {
    if c == "" {
      assert Lower("") == "";
    } else {
      var body', c', x, y := body[..|body| - 1], c[..|c| - 1], body[|body| - 1], c[|c| - 1];
      assert body == body' + [x] && c == c' + [y];
      CollapseOne(body', x);
      if y == ' ' && Says(body', c) {
        SaidIsCollapsed(body', c);
        LastOfLower(Collapse(body'), c);
      } else {
        SaidIsCollapsed(body', c');
        LowerOne(Collapse(body'), if IsSpace(x) then ' ' else x);
        if c' != "" { LastOfLower(Collapse(body'), c'); }
      }
    }
  }

  lemma LastOfLower(b: string, c: string)
    requires Lower(b) == c && c != ""
    ensures |b| == |c| && LowerChar(b[|b| - 1]) == c[|c| - 1] && LowerChar(b[0]) == c[0]
    ensures b[|b| - 1] == ' ' <==> c[|c| - 1] == ' '
  {
    assert |Lower(b)| == |b|;
  }

  /** Every collapsed text in small letters is said. */
  lemma {:induction false} CollapsedIsSaid(body: string)
    requires body != "" ==> !IsWhite(body[0])
    ensures Says(body, Lower(Collapse(body))) && IsSmall(Lower(Collapse(body)))
    ensures body != "" ==> Lower(Collapse(body)) != "" && Lower(Collapse(body))[0] == LowerChar(body[0])
  {
    if body == "" {
      assert Lower("") == "";
    } else {
      var body', x := body[..|body| - 1], body[|body| - 1];
      assert body == body' + [x];
      CollapsedIsSaid(body');
      CollapseOne(body', x);
      var r := Collapse(body');
      if IsSpace(x) {
        SpaceIsSaid(body', x, r, Lower(r));
      } else {
        LowerOne(r, x);
        LetterIsSaid(body', x, Lower(r));
      }
      if body' != "" {
        assert body[0] == body'[0];
      }
    }
  }

  lemma SpaceIsSaid(body: string, x: char, r: string, c: string)
    requires c == Lower(r) && c != "" && Says(body, c) && IsSmall(c) && IsSpace(x)
    ensures r[|r| - 1] == ' ' ==> Says(body + [x], c)
    ensures r[|r| - 1] != ' ' ==> Lower(r + " ") == c + " " && Says(body + [x], c + " ") && IsSmall(c + " ")
  {
    LastOfLower(r, c);
    assert (body + [x])[..|body|] == body;
    if r[|r| - 1] != ' ' {
      LowerOne(r, ' ');
      assert (c + " ")[..|c|] == c;
      SmallMore(c, ' ');
    }
  }

  lemma LetterIsSaid(body: string, x: char, c: string)
    requires Says(body, c) && IsSmall(c) && !IsSpace(x)
    ensures Says(body + [x], c + [LowerChar(x)]) && IsSmall(c + [LowerChar(x)])
  {
    assert (body + [x])[..|body|] == body && (c + [LowerChar(x)])[..|c|] == c;
    assert SameLetter(x, LowerChar(x)) && LowerChar(x) != ' ';
    SmallMore(c, LowerChar(x));
  }

  lemma SmallMore(c: string, z: char)
    requires IsSmall(c) && !IsUpper(z) && z != '\t' && z != '\n'
    requires z == ' ' && c != "" ==> c[|c| - 1] != ' '
    ensures IsSmall(c + [z])
  {
  }

  // ---------------------------------------------------------------- the end

  lemma {:induction false} CollapseWhite(s: string, w: string)
    requires White(w) && Collapse(s) != "" && Collapse(s)[|Collapse(s)| - 1] != ' '
    ensures Collapse(s + w) == Collapse(s) + if w == "" then "" else " "
  {
    if w == "" {
      assert s + w == s;
    } else {
      var w', x := w[..|w| - 1], w[|w| - 1];
      CollapseWhite(s, w');
      assert s + w == (s + w') + [x];
      CollapseOne(s + w', x);
      assert IsWhite(x);
    }
  }

  lemma LastOfTwo(a: string, b: string, c: string, x: char)
    requires c == b + [x]
    ensures a + c == (a + b) + [x]
  {
  }

  lemma CollapseOneMark(s: string, m: string, x: char)
    requires Collapse(s + m) == Collapse(s) + m && IsMark(x)
    ensures Collapse(s + (m + [x])) == Collapse(s) + (m + [x])
  {
    LastOfTwo(s, m, m + [x], x);
    CollapseOne(s + m, x);
    LastOfTwo(Collapse(s), m, m + [x], x);
  }

  lemma {:induction false} CollapseMarks(s: string, m: string)
    requires Marks(m)
    ensures Collapse(s + m) == Collapse(s) + m
  {
    if m == "" {
      assert s + m == s;
    } else {
      var m', x := m[..|m| - 1], m[|m| - 1];
      CollapseMarks(s, m');
      assert m == m' + [x] && IsMark(x);
      CollapseOneMark(s, m', x);
    }
  }

  predicate EndsPlain(s: string) {
    s != "" && !IsWhite(s[|s| - 1])
  }

  function OneSpace(gap: string): string {
    if gap == "" then "" else " "
  }

  lemma CollapseTail(s: string, gap: string, marks: string, end: string) returns (e: string)
    requires White(gap) && Marks(marks) && White(end) && EndsPlain(Collapse(s))
    ensures White(e) && Collapse(s + (gap + (marks + end))) == Collapse(s) + (OneSpace(gap) + (marks + e))
  {
    if marks == "" {
      e := OneSpace(gap + end)[|OneSpace(gap)|..];
      CollapseWhite(s, gap + end);
      assert gap + (marks + end) == gap + end;
      assert OneSpace(gap) + (marks + e) == OneSpace(gap + end);
    } else {
      e := OneSpace(end);
      var t := (s + gap) + marks;
      CollapseWhite(s, gap);
      CollapseMarks(s + gap, marks);
      EndsInMark(Collapse(s + gap), marks);
      CollapseWhite(t, end);
      TwiceConcat(s, gap, marks, end);
      TwiceConcat(Collapse(s), OneSpace(gap), marks, e);
    }
  }

  lemma EndsInMark(r: string, marks: string)
    requires Marks(marks) && marks != ""
    ensures EndsPlain(r + marks)
  {
    assert (r + marks)[|r + marks| - 1] == marks[|marks| - 1];
  }

  lemma TwiceConcat(a: string, b: string, c: string, d: string)
    ensures ((a + b) + c) + d == a + (b + (c + d))
  {
  }

  lemma {:induction false} TrimEndWhite(s: string, w: string)
    requires White(w) && (s == "" || EndsPlain(s))
    ensures TrimEnd(s + w) == s
  {
    if w == "" {
      assert s + w == s;
    } else {
      assert (s + w)[..|s + w| - 1] == s + w[..|w| - 1];
      assert IsWhite(w[|w| - 1]);
      TrimEndWhite(s, w[..|w| - 1]);
    }
  }

  lemma TrimWhite(s: string, w: string)
    requires White(w) && (s == "" || (EndsPlain(s) && !IsWhite(s[0])))
    ensures Trim(s + w) == s
  {
    TrimEndWhite(s, w);
  }

  lemma {:induction false} DropMarksAll(s: string, m: string)
    requires Marks(m) && (s == "" || !IsMark(s[|s| - 1]))
    ensures DropMarks(s + m) == s
  {
    if m == "" {
      assert s + m == s;
    } else {
      assert (s + m)[..|s + m| - 1] == s + m[..|m| - 1];
      assert IsMark(m[|m| - 1]);
      DropMarksAll(s, m[..|m| - 1]);
    }
  }

  lemma TailIsDropped(b: string, gap: string, marks: string, end: string)
    requires EndsPlain(b) && !IsWhite(b[0]) && White(gap) && Marks(marks) && White(end)
    requires IsMark(b[|b| - 1]) ==> gap != "" && marks != ""
    ensures Trim(DropMarks(Trim(b + (gap + (marks + end))))) == b
  {
    if marks == "" {
      assert b + (gap + (marks + end)) == b + (gap + end);
      TrimWhite(b, gap + end);
      DropMarksAll(b, "");
      TrimWhite(b, "");
      assert b + "" == b;
    } else {
      var t := b + gap + marks;
      assert b + (gap + (marks + end)) == t + end;
      assert t[|t| - 1] == marks[|marks| - 1] && t[0] == b[0];
      TrimWhite(t, end);
      var u := b + gap;
      assert u[|u| - 1] == if gap == "" then b[|b| - 1] else gap[|gap| - 1];
      DropMarksAll(u, marks);
      TrimWhite(b, gap);
    }
  }

  // ---------------------------------------------------------------- a line's key is what it says

  lemma {:induction false} SaidIsKey(p: Parts, c: string)
    requires SaysIn(p, c)
    ensures Normalise(Whole(p)) == c
  {
    SaysFirst(p.body, c);
    SameLetterIsPlain(p.body[0], c[0]);
    FrontIsDropped(p.before, p.number, p.after, Rest(p));
    SaidIsCollapsed(p.body, c);
    var b := Collapse(p.body);
    LastOfLower(b, c);
    CoreEnds(b, c);
    var e := CollapseTail(p.body, p.gap, p.marks, p.end);
    TailIsDropped(b, OneSpace(p.gap), p.marks, e);
  }

  lemma SameLetterIsPlain(x: char, y: char)
    requires SameLetter(x, y)
    ensures IsDash(x) <==> IsDash(y)
    ensures IsSquare(x) <==> IsSquare(y)
  {
  }

  lemma CoreEnds(b: string, c: string)
    requires IsCore(c) && |b| == |c| && LowerChar(b[|b| - 1]) == c[|c| - 1] && LowerChar(b[0]) == c[0]
    ensures EndsPlain(b) && !IsWhite(b[0]) && (IsMark(b[|b| - 1]) ==> IsMark(c[|c| - 1]))
  {
  }

  // ---------------------------------------------------------------- every line says its key

  lemma {:induction false} SkippedPart(p: char -> bool, s: string) returns (a: string)
    ensures s == a + SkipWhile(p, s) && forall i :: 0 <= i < |a| ==> p(a[i])
    ensures SkipWhile(p, s) != "" ==> !p(SkipWhile(p, s)[0])
  {
    if s != "" && p(s[0]) {
      var a' := SkippedPart(p, s[1..]);
      a := [s[0]] + a';
      FirstOfTwo(s, a', SkipWhile(p, s[1..]));
    } else {
      a := "";
    }
  }

  lemma FirstOfTwo(s: string, a: string, b: string)
    requires s != "" && s[1..] == a + b
    ensures s == ([s[0]] + a) + b
  {
    assert s == [s[0]] + s[1..];
  }

  lemma SkippedNumber(s: string) returns (number: string, white: string)
    ensures s == number + (white + SkipNumber(s)) && IsListNumber(number) && White(white)
    ensures number == "" ==> white == "" && !StartsNumber(SkipNumber(s))
  {
    if StartsNumber(s) {
      number := if s[1] == '.' || s[1] == ')' then s[..2] else s[..3];
      assert s == number + s[|number|..];
      white := SkippedPart(IsSpace, s[|number|..]);
    } else {
      number, white := "", "";
    }
  }

  lemma {:induction false} TrimmedPart(s: string) returns (w: string)
    ensures s == TrimEnd(s) + w && White(w)
    ensures TrimEnd(s) != "" ==> EndsPlain(TrimEnd(s)) && TrimEnd(s)[0] == s[0]
  {
    if s != "" && IsSpace(s[|s| - 1]) {
      var w' := TrimmedPart(s[..|s| - 1]);
      w := w' + [s[|s| - 1]];
      assert s == s[..|s| - 1] + [s[|s| - 1]];
    } else {
      w := "";
    }
  }

  lemma {:induction false} MarksPart(s: string) returns (m: string)
    ensures s == DropMarks(s) + m && Marks(m)
    ensures DropMarks(s) != "" ==> !IsMark(DropMarks(s)[|DropMarks(s)| - 1]) && DropMarks(s)[0] == s[0]
  {
    if s != "" && IsTrailingMark(s[|s| - 1]) {
      var m' := MarksPart(s[..|s| - 1]);
      m := m' + [s[|s| - 1]];
      assert s == s[..|s| - 1] + [s[|s| - 1]];
    } else {
      m := "";
    }
  }

  /** The front of a line, up to what DropBullet leaves. */
  lemma FrontOf(line: string) returns (before: string, number: string, after: string)
    ensures line == before + (number + (after + DropBullet(line)))
    ensures FrontIs(Parts(before, number, after, "", "", "", ""))
    ensures var r := DropBullet(line); r != "" ==> !IsDash(r[0]) && !IsWhite(r[0]) && (number == "" ==> !IsSquare(r[0]) && !StartsNumber(r))
  {
    before := SkippedPart(BeforeNumber, line);
    number, after := FrontFromNumber(SkipWhile(BeforeNumber, line));
  }

  lemma FrontFromNumber(s: string) returns (number: string, after: string)
    requires s != "" ==> !BeforeNumber(s[0])
    ensures s == number + (after + SkipWhile(AfterNumber, SkipNumber(s)))
    ensures FrontIs(Parts("", number, after, "", "", "", ""))
    ensures SkipWhile(AfterNumber, SkipNumber(s)) != "" ==> !AfterNumber(SkipWhile(AfterNumber, SkipNumber(s))[0])
    ensures number == "" ==> SkipWhile(AfterNumber, SkipNumber(s)) == s && !StartsNumber(s)
  {
    var white;
    number, white := SkippedNumber(s);
    var t := SkipNumber(s);
    var dashes := SkippedPart(AfterNumber, t);
    after := white + dashes;
    TwoParts(s, number, white, t, dashes, SkipWhile(AfterNumber, t));
    if number == "" {
      assert s == t;
      assert SkipWhile(AfterNumber, s) == s;
    }
  }

  lemma TwoParts(s: string, number: string, white: string, t: string, dashes: string, r: string)
    requires s == number + (white + t) && t == dashes + r
    ensures s == number + ((white + dashes) + r)
  {
    assert white + (dashes + r) == (white + dashes) + r;
  }

  /** The end of a text that starts with no white space. */
  lemma EndOf(r: string) returns (body: string, gap: string, marks: string, end: string)
    requires r == "" || !IsWhite(r[0])
    ensures r == body + (gap + (marks + end)) && White(gap) && Marks(marks) && White(end)
    ensures if body == "" then gap == "" else EndsPlain(body) && body[0] == r[0]
    ensures body != "" && IsMark(body[|body| - 1]) ==> gap != "" && marks != ""
  {
    end := TrimmedPart(r);
    var t := TrimEnd(r);
    marks := MarksPart(t);
    var u := DropMarks(t);
    gap := TrimmedPart(u);
    body := TrimEnd(u);
    TwiceConcat(body, gap, marks, end);
  }

  lemma NothingSaid(marks: string, end: string)
    requires Marks(marks) && White(end)
    ensures Lower(Trim(DropMarks(Trim(Collapse(marks + end))))) == ""
  {
    CollapseMarks("", marks);
    assert "" + marks == marks;
    if marks == "" {
      assert marks + end == end;
      AllWhite(end);
      TrimWhite("", Collapse(end));
      assert "" + Collapse(end) == Collapse(end);
    } else {
      EndsInMark("", marks);
      CollapseWhite(marks, end);
      assert IsMark(marks[0]);
      TrimWhite(marks, OneSpace(end));
    }
    MarksAreDropped(marks);
  }

  lemma MarksAreDropped(marks: string)
    requires Marks(marks)
    ensures Lower(Trim(DropMarks(marks))) == ""
  {
    DropMarksAll("", marks);
    assert "" + marks == marks;
    TrimWhite("", "");
    assert "" + "" == "";
  }

  lemma {:induction false} AllWhite(w: string)
    requires White(w)
    ensures White(Collapse(w))
  {
    if w != "" {
      AllWhite(w[..|w| - 1]);
    }
  }

  lemma CutOf(line: string) returns (p: Parts)
    ensures Whole(p) == line && FrontIs(p)
    ensures White(p.gap) && Marks(p.marks) && White(p.end)
    ensures Rest(p) == DropBullet(line)
    ensures if p.body == "" then p.gap == "" else
            && EndsPlain(p.body) && !IsWhite(p.body[0]) && !IsDash(p.body[0])
            && (p.number == "" ==> !IsSquare(p.body[0]) && !StartsNumber(Rest(p)))
            && (IsMark(p.body[|p.body| - 1]) ==> p.gap != "" && p.marks != "")
  {
    var before, number, after := FrontOf(line);
    var body, gap, marks, end := EndOf(DropBullet(line));
    p := Parts(before, number, after, body, gap, marks, end);
  }

  lemma KeyIsSaid(line: string)
    ensures Normalise(line) == "" || LineSays(line, Normalise(line))
  {
    var p := CutOf(line);
    if p.body == "" {
      assert Rest(p) == p.marks + p.end;
      NothingSaid(p.marks, p.end);
    } else {
      CollapsedIsSaid(p.body);
      var c := Lower(Collapse(p.body));
      SaidEnds(p.body, c);
      assert SaysIn(p, c);
      SaidIsKey(p, c);
    }
  }

  lemma SaidEnds(body: string, c: string)
    requires Says(body, c) && body != "" && EndsPlain(body) && !IsWhite(body[0])
    requires c != "" && c[0] == LowerChar(body[0]) && IsSmall(c)
    ensures IsCore(c) && (IsDash(c[0]) ==> IsDash(body[0])) && (IsSquare(c[0]) ==> IsSquare(body[0]))
    ensures IsMark(c[|c| - 1]) ==> IsMark(body[|body| - 1])
  {
  }

  /** A line's key is what its text says; without a key it says nothing. */
  lemma {:induction false} KeyIsWhatIsSaid(line: string, c: string)
    ensures LineSays(line, c) <==> c != "" && Normalise(line) == c
  {
    if LineSays(line, c) {
      var p: Parts :| Whole(p) == line && SaysIn(p, c);
      SaidIsKey(p, c);
    }
    KeyIsSaid(line);
  }

  /** A text in its own key's form says itself. */
  lemma CoreSaysItself(c: string)
    requires IsCore(c) && !IsDash(c[0]) && !IsSquare(c[0]) && !IsMark(c[|c| - 1]) && !StartsNumber(c)
    ensures Normalise(c) == c
  {
    var p := Parts("", "", "", c, "", "", "");
    SmallSaysItself(c);
    assert Rest(p) == c;
    assert Whole(p) == c;
    SaidIsKey(p, c);
  }

  lemma {:induction false} SmallSaysItself(c: string)
    requires IsSmall(c)
    ensures Says(c, c)
  {
    if c != "" {
      SmallSaysItself(c[..|c| - 1]);
    }
  }

  // ---------------------------------------------------------------- the merge

  /** Both lines say the same, or both say nothing. */
  ghost predicate SaySame(l: string, m: string) {
    forall c :: LineSays(l, c) <==> LineSays(m, c)
  }

  lemma SameKeySaySame(l: string, m: string)
    ensures SaySame(l, m) <==> Normalise(l) == Normalise(m)
  {
    KeyIsWhatIsSaid(l, Normalise(l));
    KeyIsWhatIsSaid(m, Normalise(l));
    KeyIsWhatIsSaid(l, Normalise(m));
    KeyIsWhatIsSaid(m, Normalise(m));
    if Normalise(l) == Normalise(m) {
      forall c ensures LineSays(l, c) <==> LineSays(m, c) {
        KeyIsWhatIsSaid(l, c);
        KeyIsWhatIsSaid(m, c);
      }
    }
  }

  ghost predicate IsHeld(l: string, held: seq<string>) {
    exists m :: m in held && SaySame(l, m)
  }

  /** The lines that say nothing held already, in order. */
  ghost function NotHeld(ls: seq<string>, held: seq<string>): seq<string> {
    if ls == [] then []
    else NotHeld(ls[..|ls| - 1], held) + (if IsHeld(ls[|ls| - 1], held) then [] else [ls[|ls| - 1]])
  }

  lemma HeldIsKey(l: string, s: string)
    ensures IsHeld(l, Lines(s)) <==> Normalise(l) in Keys(s)
  {
    if IsHeld(l, Lines(s)) {
      var m :| m in Lines(s) && SaySame(l, m);
      SameKeySaySame(l, m);
    }
    if Normalise(l) in Keys(s) {
      var m :| m in Lines(s) && Normalise(m) == Normalise(l);
      SameKeySaySame(l, m);
    }
  }

  lemma {:induction false} NotHeldIsUnseen(ls: seq<string>, s: string)
    ensures NotHeld(ls, Lines(s)) == Unseen(ls, Keys(s))
  {
    if ls != [] {
      NotHeldIsUnseen(ls[..|ls| - 1], s);
      HeldIsKey(ls[|ls| - 1], s);
    }
  }

  lemma WhiteIsBlank(s: string)
    ensures White(s) <==> AllSpace(s)
  {
    if White(s) {
      forall i | 0 <= i < |s| ensures IsSpace(s[i]) { assert IsWhite(s[i]); }
    }
    if AllSpace(s) {
      forall i | 0 <= i < |s| ensures IsWhite(s[i]) { assert IsSpace(s[i]); }
    }
  }

  /** The text of a merge: nothing new leaves the remote text, and what is new goes below it as typed. */
  lemma MergeIs(remote: string, local: string) returns (base: string, white: string)
    ensures remote == base + white && White(white) && (base == "" || EndsPlain(base))
    ensures White(local) ==> Merge(remote, local) == remote
    ensures White(remote) && !White(local) ==> Merge(remote, local) == local
    ensures !White(remote) && !White(local) ==>
      var news := NotHeld(Lines(local), Lines(remote));
      Merge(remote, local) == if news == [] then remote else base + ("\n\n---\n" + Join(news))
  {
    base := TrimEnd(remote);
    white := TrimmedPart(remote);
    WhiteIsBlank(remote);
    WhiteIsBlank(local);
    NotHeldIsUnseen(Lines(local), remote);
    if remote == local {
      forall l | l in Lines(local) ensures Normalise(l) in Keys(remote) {}
      NothingUnseen(Lines(local), Keys(remote));
    }
    BelowDivider(base, Join(Unseen(Lines(local), Keys(remote))));
  }

  lemma BelowDivider(base: string, below: string)
    ensures base + "\n" + "" + "\n" + DIVIDER + "\n" + below == base + ("\n\n---\n" + below)
  {
  }

  /** A joined text is cut by one newline between any two of its lines. */
  lemma {:induction false} JoinOfTwo(a: seq<string>, b: seq<string>)
    requires a != [] && b != []
    ensures Join(a + b) == Join(a) + ("\n" + Join(b))
  {
    assert (a + b)[..|a + b| - 1] == a + b[..|b| - 1];
    if |b| == 1 {
      assert a + b[..0] == a;
    } else {
      JoinOfTwo(a, b[..|b| - 1]);
      var x, y := Join(a), Join(b[..|b| - 1]);
      assert (x + ("\n" + y)) + "\n" + b[|b| - 1] == x + ("\n" + (y + "\n" + b[|b| - 1]));
    }
  }

  lemma JoinOfOne(l: string)
    ensures Join([l]) == l
  {
  }

  /** What is typed is in the merge, as it was typed or because the remote already says it. */
  lemma TypedIsKept(remote: string, local: string, l: string)
    requires l in Lines(local)
    ensures l in Lines(Merge(remote, local)) || IsHeld(l, Lines(remote))
  {
    HeldIsKey(l, remote);
    UnseenMembers(Lines(local), Keys(remote));
    if AllSpace(local) {
      BlankHasNoLines(local);
    } else if Appends(remote, local) {
      AppendsFreshLines(remote, local);
    }
  }

  /** A line the remote already says is not written again. */
  lemma HeldIsNotRepeated(remote: string, local: string, l: string)
    requires !White(remote) && IsHeld(l, Lines(remote)) && l != "---"
    ensures l in Lines(Merge(remote, local)) ==> l in Lines(remote) || l in Lines(TrimEnd(remote))
  {
    HeldIsKey(l, remote);
    WhiteIsBlank(remote);
    if Appends(remote, local) {
      AppendsFreshLines(remote, local);
    }
  }

  /** Newlines alone cut a text into lines, and blank lines are dropped. */
  lemma LinesAreCut(s: string, rest: string)
    requires '\n' !in s
    ensures Lines(s) == if White(s) then [] else [s]
    ensures Lines(s + "\n" + rest) == Lines(s) + Lines(rest)
  {
    LinesOfOneLine(s);
    WhiteIsBlank(s);
    LinesOfTwo(s, rest);
  }
}
