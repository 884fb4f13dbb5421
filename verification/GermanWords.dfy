/** Which tokens the German parser leaves alone, and what every token that it reads is made of. */
module GermanWords {
  import opened Decimal
  import opened German
  import opened GermanMorphs
  import opened GermanScan
  import opened GermanProofs
  import opened GermanParser

  // ---------------------------------------------------------------- tokens that are left alone

  lemma {:induction false} LandsBefore(read: string -> Option<nat>, x: seq<string>, t: string, y: seq<string>)
    requires read(t) == None && t != "komma"
    ensures Lands(read, x, [t] + y)
  {
    if x != [] {
      var n := Width(read, x + ([t] + y));
      assert (x + ([t] + y))[|x|] == t;
      LandsBefore(read, x[n..], t, y);
    }
  }

  /** A token that is neither a number word nor "komma" is copied and cuts the stream. */
  lemma {:induction false} UnreadCuts(read: string -> Option<nat>, x: seq<string>, t: string, y: seq<string>)
    requires read(t) == None && t != "komma"
    ensures Rewrite(read, x + ([t] + y)) == Rewrite(read, x) + ([t] + Rewrite(read, y))
  {
    LandsBefore(read, x, t, y);
    Split(read, x, [t] + y);
    assert ([t] + y)[1..] == y;
    RewriteStep(read, [t] + y);
  }

  /** The articles stay as they are, in any surroundings. */
  lemma ArticleStays(x: seq<string>, a: string, y: seq<string>)
    requires a == "ein" || a == "eine" || a == "einen" || a == "einem" || a == "einer" || a == "eines"
    ensures DeNumbers(x + [a] + y) == DeNumbers(x) + [a] + DeNumbers(y)
  {
    UnreadCuts(ParseDe, x, a, y);
    Associate(x, [a], y);
    Associate(DeNumbers(x), [a], DeNumbers(y));
  }

  lemma StrippedEin(w: string, c: string)
    requires (c == "ein" || c == "eins") && Strip(w) == c && w != c
    ensures Compound(w) == None
  {
    IrregularStrips(w);
    CompoundOfStem(w, c);
  }

  /** "ein" and "eins" make no ordinal: einte, einste, einsste and their other forms are not read. */
  lemma EinIsNoOrdinal(e: string)
    requires e == "e" || e == "en" || e == "er" || e == "es" || e == "em"
    ensures ParseDe("eint" + e) == ParseDe("einst" + e) == ParseDe("einsst" + e) == None
  {
    assert IsEnding(e) && "ein" + "t" == "eint" && "ein" + "st" == "einst" && "eins" + "st" == "einsst";
    StripPlain("ein", e);
    StripWithS("ein", e);
    StripWithS("eins", e);
    StrippedEin("eint" + e, "ein");
    StrippedEin("einst" + e, "ein");
    StrippedEin("einsst" + e, "eins");
  }

  /** The stems of the irregular ordinals are read by themselves. */
  lemma IrregularStemsAreRead()
    ensures ParseDe("erst") == Some(1) && ParseDe("dritt") == Some(3) && ParseDe("siebt") == Some(7) && ParseDe("acht") == Some(8)
  {
    assert Strip("erst") == "erst" && Strip("dritt") == "dritt" && Strip("siebt") == "siebt" && Strip("acht") == "acht";
    NotTheOthers("dritt");
    NotTheOthers("siebt");
    NotTheOthers("acht");
  }

  lemma NotTheOthers(w: string)
    requires Strip(w) == w
    ensures w == "dritt" ==> !IsFormOf(w, "erst")
    ensures w == "siebt" ==> !IsFormOf(w, "erst") && !IsFormOf(w, "dritt")
    ensures w == "acht" ==> !IsFormOf(w, "erst") && !IsFormOf(w, "dritt") && !IsFormOf(w, "siebt")
  {
    IrregularStrips(w);
  }

  // ---------------------------------------------------------------- hundreds counted in tens

  /** "neunzehnhundertfünf": h hundreds, h up to 99, and t. */
  function Hundreds99(h: nat, t: nat, s: Style): string
    requires 0 < h < 100 && t < 100
  {
    HundredFront(h, s) + HundredRest(h, t, s)
  }

  function HundredFront(h: nat, s: Style): string
    requires 0 < h < 100
  {
    Below100(h, false, s) + "hundert"
  }

  function HundredRest(h: nat, t: nat, s: Style): string
    requires t < 100
  {
    Link(h, t, s.und) + Tail100(t, true, s)
  }

  /** x is read as v in front of "hundert" or "tausend". */
  ghost predicate ReadsBefore(ms: seq<Morph>, x: string, v: nat) {
    forall u: string, a {:trigger Scan(ms, x + u, a)} :: u != "" && u[0] in "ht" ==> Scan(ms, x + u, a) == Scan(ms, u, a.Plus(v))
  }

  lemma Below100Reads(h: nat, s: Style)
    requires 0 < h < 100
    ensures ReadsBefore(MORPHS, Below100(h, false, s), h)
  {
    forall u: string, a | u != "" && u[0] in "ht"
      ensures Scan(MORPHS, Below100(h, false, s) + u, a) == Scan(MORPHS, u, a.Plus(h))
    {
      ScanBelow100(h, false, s, u, a);
    }
  }

  lemma LinkReads(h: nat, t: nat, s: Style, a: Acc)
    requires h > 0 && t < 100 && a.matched
    ensures Scan(MORPHS, HundredRest(h, t, s), a) == Scan(MORPHS, Tail100(t, true, s), a)
  {
    ScanLink(h, t, s.und, Tail100(t, true, s), a);
  }

  lemma RestReads(h: nat, t: nat, s: Style, a: Acc)
    requires 0 < h < 100 && t < 100 && a == Acc(0, 100 * h, true)
    ensures Scan(MORPHS, HundredRest(h, t, s), a) == Some(Acc(0, 100 * h + t, true))
  {
    LinkReads(h, t, s, a);
    ScanLast(t, s, a);
  }

  lemma HundredReads(ms: seq<Morph>, h: nat, tail: string, a: Acc)
    requires h > 0 && a == Acc(0, h, true)
    ensures Scan(ms, "hundert" + tail, a) == Scan(ms, tail, Acc(0, 100 * h, true))
  {
    ScanHundert(ms, tail, a);
    assert a.Hundred() == Acc(0, 100 * h, true);
  }

  lemma BeforeHundred(ms: seq<Morph>, x: string, h: nat, u: string, a: Acc)
    requires ReadsBefore(ms, x, h) && u != "" && u[0] == 'h' && a == Acc(0, 0, false)
    ensures Scan(ms, x + u, a) == Scan(ms, u, Acc(0, h, true))
  {
    assert u[0] in "ht" && a.Plus(h) == Acc(0, h, true);
  }

  lemma AllReads(ms: seq<Morph>, x: string, h: nat, tail: string, t: nat, a: Acc)
    requires h > 0 && ReadsBefore(ms, x, h) && a == Acc(0, 0, false)
    requires Scan(ms, tail, Acc(0, 100 * h, true)) == Some(Acc(0, 100 * h + t, true))
    ensures Scan(ms, x + ("hundert" + tail), a) == Some(Acc(0, 100 * h + t, true))
  {
    var u := "hundert" + tail;
    assert u[0] == 'h';
    BeforeHundred(ms, x, h, u, a);
    HundredReads(ms, h, tail, Acc(0, h, true));
  }

  lemma Regroup(x: string, y: string, z: string)
    ensures (x + y) + z == x + (y + z)
  {
  }

  lemma ScanHundreds99(h: nat, t: nat, s: Style)
    requires 0 < h < 100 && t < 100
    ensures Scan(MORPHS, Hundreds99(h, t, s), START) == Some(Acc(0, 100 * h + t, true))
  {
    Below100Reads(h, s);
    RestReads(h, t, s, Acc(0, 100 * h, true));
    AllReads(MORPHS, Below100(h, false, s), h, HundredRest(h, t, s), t, START);
    Regroup(Below100(h, false, s), "hundert", HundredRest(h, t, s));
  }

  lemma Hundreds99End(h: nat, t: nat, s: Style)
    requires 0 < h < 100 && t < 100
    ensures CardinalEnd(Hundreds99(h, t, s)) && |Hundreds99(h, t, s)| > 6
  {
    EndOfConcat(Below100(h, false, s), "hundert");
    if t == 0 {
      assert Hundreds99(h, t, s) == HundredFront(h, s);
    } else {
      Below100End(t, s);
      EndOfConcat(Link(h, t, s.und), Tail100(t, true, s));
      EndOfConcat(HundredFront(h, s), HundredRest(h, t, s));
    }
  }

  lemma CompoundOfCardinal(w: string, a: Acc)
    requires CardinalEnd(w) && |w| > 6 && Scan(MORPHS, w, START) == Some(a) && a.matched
    ensures Compound(w) == Some(a.Value())
  {
    CardinalKeepsItsEnd(w);
    CardinalIsNotIrregular(w);
  }

  lemma CompoundOfHundreds(h: nat, t: nat, s: Style)
    requires 0 < h < 100 && t < 100
    ensures Compound(Hundreds99(h, t, s)) == Some(100 * h + t)
  {
    ScanHundreds99(h, t, s);
    Hundreds99End(h, t, s);
    CompoundOfCardinal(Hundreds99(h, t, s), Acc(0, 100 * h + t, true));
  }

  /** Such a token is read as 100h+t. */
  lemma HundredsInTens(h: nat, t: nat, s: Style)
    requires 0 < h < 100 && t < 100
    ensures ParseDe(Hundreds99(h, t, s)) == Some(100 * h + t)
  {
    CompoundOfHundreds(h, t, s);
    Hundreds99End(h, t, s);
    CardinalIsNoArticle(Hundreds99(h, t, s));
  }

  // ---------------------------------------------------------------- what is read is made of pieces

  /** What a word is made of; a number piece is an entry of the table. */
  datatype Piece = Tausend | Hundert | Und | Number(word: string, v: nat)

  function TextOf(p: Piece): string {
    match p
    case Tausend => "tausend"
    case Hundert => "hundert"
    case Und => "und"
    case Number(w, _) => w
  }

  function Text(ps: seq<Piece>): string {
    if ps == [] then "" else TextOf(ps[0]) + Text(ps[1..])
  }

  /** Thousands said before, and what was said since. */
  type Sum = (nat, nat)

  /** What a piece does to the sum: a number is added, "hundert" and "tausend" multiply, or stand for one of themselves. */
  function Say(p: Piece, s: Sum): Sum {
    match p
    case Tausend => (s.0 + (if s.1 == 0 then 1 else s.1) * 1000, 0)
    case Hundert => (s.0, (if s.1 == 0 then 1 else s.1) * 100)
    case Und => s
    case Number(_, v) => (s.0, s.1 + v)
  }

  function SayAll(ps: seq<Piece>, s: Sum): Sum {
    if ps == [] then s else SayAll(ps[1..], Say(ps[0], s))
  }

  ghost predicate IsPiece(ms: seq<Morph>, p: Piece) {
    p.Number? ==> (p.word, p.v) in ms
  }

  /** The pieces make up the word, they come to the accumulator, and "und" is not the first. */
  ghost predicate MakesUp(ms: seq<Morph>, ps: seq<Piece>, w: string, a: Acc, b: Acc) {
    && (forall p :: p in ps ==> IsPiece(ms, p))
    && Text(ps) == w && SayAll(ps, (a.total, a.current)) == (b.total, b.current)
    && (ps != [] ==> b.matched && (!a.matched ==> ps[0] != Und))
    && (ps == [] ==> a == b)
  }

  lemma {:induction false} FirstIsMember(ms: seq<Morph>, r: string, tensOnly: bool)
    ensures First(ms, r, tensOnly).Some? ==> First(ms, r, tensOnly).value in ms && First(ms, r, tensOnly).value.0 <= r
  {
    if ms != [] {
      FirstIsMember(ms[1..], r, tensOnly);
    }
  }

  /** One turn of the matching loop is one piece, or a number, "und" and a ten. */
  lemma TurnIsPieces(ms: seq<Morph>, r: string, a: Acc) returns (ps: seq<Piece>)
    requires TurnOf(ms, r, a).Some? && 0 < TurnOf(ms, r, a).value.length <= |r|
    ensures ps != [] && MakesUp(ms, ps, r[..TurnOf(ms, r, a).value.length], a, TurnOf(ms, r, a).value.acc)
  {
    StartsWithIsPrefix(r, "tausend");
    StartsWithIsPrefix(r, "hundert");
    StartsWithIsPrefix(r, "und");
    if StartsWith(r, "tausend") {
      ps := [Tausend];
    } else if StartsWith(r, "hundert") {
      ps := [Hundert];
    } else if StartsWith(r, "und") && a.matched {
      ps := [Und];
    } else {
      ps := MorphIsPieces(ms, r, a);
    }
    OnePiece(ps[0]);
  }

  lemma OnePiece(p: Piece)
    ensures Text([p]) == TextOf(p) && forall s: Sum :: SayAll([p], s) == Say(p, s)
  {
    assert [p][1..] == [] && TextOf(p) + "" == TextOf(p);
  }

  lemma MorphIsPieces(ms: seq<Morph>, r: string, a: Acc) returns (ps: seq<Piece>)
    requires MorphTurn(ms, r, a).Some? && 0 < MorphTurn(ms, r, a).value.length <= |r|
    ensures ps != [] && MakesUp(ms, ps, r[..MorphTurn(ms, r, a).value.length], a, MorphTurn(ms, r, a).value.acc)
  {
    var m := First(ms, r, false).value;
    FirstIsMember(ms, r, false);
    var nxt := r[|m.0|..];
    if StartsWith(nxt, "und") && |nxt| >= 3 && First(ms, nxt[3..], true).Some? {
      ps := TensIsPieces(ms, r, m, nxt, a);
    } else {
      ps := [Number(m.0, m.1)];
      OnePiece(ps[0]);
    }
  }

  lemma TensIsPieces(ms: seq<Morph>, r: string, m: Morph, nxt: string, a: Acc) returns (ps: seq<Piece>)
    requires m in ms && r == m.0 + nxt && StartsWith(nxt, "und") && |nxt| >= 3 && First(ms, nxt[3..], true).Some?
    ensures WithTens(ms, m, nxt, a).length <= |r| && ps != []
    ensures MakesUp(ms, ps, r[..WithTens(ms, m, nxt, a).length], a, WithTens(ms, m, nxt, a).acc)
  {
    StartsWithIsPrefix(nxt, "und");
    var tens := First(ms, nxt[3..], true).value;
    FirstIsMember(ms, nxt[3..], true);
    ps := ThreePieces(ms, m, tens, a);
    FrontOf(r, m.0, nxt, tens.0);
  }

  lemma FrontOf(r: string, m: string, nxt: string, tens: string)
    requires r == m + nxt && "und" <= nxt && tens <= nxt[3..]
    ensures |m| + 3 + |tens| <= |r| && r[..|m| + 3 + |tens|] == m + ("und" + tens)
  {
    assert nxt == "und" + nxt[3..];
  }

  lemma PieceFirst(p: Piece, y: seq<Piece>)
    ensures Text([p] + y) == TextOf(p) + Text(y) && forall s: Sum :: SayAll([p] + y, s) == SayAll(y, Say(p, s))
  {
    assert ([p] + y)[1..] == y;
  }

  lemma TwoPieces(p: Piece, q: Piece)
    ensures Text([p, q]) == TextOf(p) + TextOf(q) && forall s: Sum :: SayAll([p, q], s) == Say(q, Say(p, s))
  {
    OnePiece(q);
    PieceFirst(p, [q]);
    assert [p] + [q] == [p, q];
  }

  lemma ThreePieces(ms: seq<Morph>, m: Morph, tens: Morph, a: Acc) returns (ps: seq<Piece>)
    requires m in ms && tens in ms
    ensures ps != [] && MakesUp(ms, ps, m.0 + ("und" + tens.0), a, a.Plus(m.1 + tens.1))
  {
    var p, q := Number(m.0, m.1), Number(tens.0, tens.1);
    TwoPieces(Und, q);
    PieceFirst(p, [Und, q]);
    ps := [p] + [Und, q];
  }

  lemma {:induction false} TextConcat(x: seq<Piece>, y: seq<Piece>, s: Sum)
    ensures Text(x + y) == Text(x) + Text(y) && SayAll(x + y, s) == SayAll(y, SayAll(x, s))
  {
    if x == [] {
      assert x + y == y;
    } else {
      assert (x + y)[1..] == x[1..] + y;
      TextConcat(x[1..], y, Say(x[0], s));
    }
  }

  lemma {:induction false} ScanIsPieces(ms: seq<Morph>, r: string, a: Acc) returns (ps: seq<Piece>)
    requires Scan(ms, r, a).Some?
    ensures MakesUp(ms, ps, r, a, Scan(ms, r, a).value)
    decreases |r|
  {
    if r == "" {
      ps := [];
    } else {
      var t := TurnOf(ms, r, a).value;
      var x := TurnIsPieces(ms, r, a);
      var y := ScanIsPieces(ms, r[t.length..], t.acc);
      ps := x + y;
      JoinPieces(ms, x, r[..t.length], y, r[t.length..], a, t.acc, Scan(ms, r, a).value);
      assert r[..t.length] + r[t.length..] == r;
    }
  }

  lemma JoinPieces(ms: seq<Morph>, x: seq<Piece>, u: string, y: seq<Piece>, w: string, a: Acc, b: Acc, c: Acc)
    requires x != [] && MakesUp(ms, x, u, a, b) && MakesUp(ms, y, w, b, c)
    ensures MakesUp(ms, x + y, u + w, a, c)
  {
    TextConcat(x, y, (a.total, a.current));
  }

  // ---------------------------------------------------------------- everything that is read

  /** What the suffix pattern takes away, or nothing. */
  predicate IsOrdinalEnding(e: string) {
    || e == "" || e == "te" || e == "ten" || e == "ter" || e == "tes" || e == "tem"
    || e == "ste" || e == "sten" || e == "ster" || e == "stes" || e == "stem"
  }

  lemma StripIs(w: string)
    ensures IsOrdinalEnding(w[|Strip(w)|..])
  {
    var e := w[|Strip(w)|..];
    assert w == Strip(w) + e;
    if |e| == 4 {
      assert e == [e[0], e[1], e[2], e[3]];
    } else if |e| == 3 {
      assert e == [e[0], e[1], e[2]];
    } else if |e| == 2 {
      assert e == [e[0], e[1]];
    }
  }

  /** t is an irregular stem, perhaps with "e", and perhaps with an ending. */
  predicate IsIrregularWord(t: string, stem: string) {
    stem <= t &&
    var e := t[|stem|..];
    || IsOrdinalEnding(e) || e == "e" || e == "en" || e == "er" || e == "es" || e == "em"
    || (e != "" && e[0] == 'e' && IsOrdinalEnding(e[1..]))
  }

  lemma IrregularBy(w: string, stem: string, e: string)
    requires w == stem + e
    requires IsOrdinalEnding(e) || e == "e" || e == "en" || e == "er" || e == "es" || e == "em"
    ensures IsIrregularWord(w, stem)
  {
    assert w[|stem|..] == e;
  }

  lemma IrregularWithE(w: string, stem: string, e: string)
    requires w == stem + "e" + e && IsOrdinalEnding(e)
    ensures IsIrregularWord(w, stem)
  {
    assert w[|stem|..] == "e" + e && ("e" + e)[1..] == e;
  }

  lemma FormIsIrregularWord(w: string, stem: string)
    requires IsFormOf(w, stem)
    ensures IsIrregularWord(w, stem)
  {
    StripIs(w);
    var e := w[|Strip(w)|..];
    assert w == Strip(w) + e;
    if Strip(w) == stem {
      IrregularBy(w, stem, e);
    } else if Strip(w) == stem + "e" {
      IrregularWithE(w, stem, e);
    } else {
      var x := if w == stem + "e" then "e" else if w == stem + "en" then "en" else if w == stem + "er" then "er"
               else if w == stem + "es" then "es" else "em";
      IrregularBy(w, stem, x);
    }
  }

  /** The value of pieces said one after the other. */
  function Worth(ps: seq<Piece>): nat {
    SayAll(ps, (0, 0)).0 + SayAll(ps, (0, 0)).1
  }

  /** t is the pieces with an ordinal ending or none, and they are worth v. */
  ghost predicate IsMadeOf(t: string, ps: seq<Piece>, v: nat) {
    && ps != [] && ps[0] != Und && (forall p :: p in ps ==> IsPiece(MORPHS, p))
    && Text(ps) <= t && IsOrdinalEnding(t[|Text(ps)|..]) && v == Worth(ps)
  }

  lemma RegularIsMade(body: string, ordinal: bool, t: string) returns (ps: seq<Piece>)
    requires Regular(body, ordinal).Some? && body <= t && IsOrdinalEnding(t[|body|..])
    ensures IsMadeOf(t, ps, Regular(body, ordinal).value)
  {
    ps := ScanIsPieces(MORPHS, body, START);
  }

  /** Every token that is read is an irregular ordinal, or pieces of the table with an ordinal ending or none, and its value is theirs. */
  lemma WhatIsRead(t: string) returns (ps: seq<Piece>)
    requires ParseDe(t).Some?
    ensures || (IsIrregularWord(t, "erst") && ParseDe(t) == Some(1)) || (IsIrregularWord(t, "dritt") && ParseDe(t) == Some(3))
            || (IsIrregularWord(t, "siebt") && ParseDe(t) == Some(7)) || (IsIrregularWord(t, "acht") && ParseDe(t) == Some(8))
            || IsMadeOf(t, ps, ParseDe(t).value)
  {
    ps := [];
    if IsFormOf(t, "erst") {
      FormIsIrregularWord(t, "erst");
    } else if IsFormOf(t, "dritt") {
      FormIsIrregularWord(t, "dritt");
    } else if IsFormOf(t, "siebt") {
      FormIsIrregularWord(t, "siebt");
    } else if IsFormOf(t, "acht") {
      FormIsIrregularWord(t, "acht");
    } else {
      ps := CompoundIsMade(t);
    }
  }

  lemma CompoundIsMade(t: string) returns (ps: seq<Piece>)
    requires Irregular(t) == None && Compound(t).Some?
    ensures IsMadeOf(t, ps, Compound(t).value)
  {
    if Strip(t) != t && Strip(t) != "" {
      StripIs(t);
      ps := RegularIsMade(Strip(t), true, t);
    } else {
      assert t[|t|..] == "";
      ps := RegularIsMade(t, false, t);
    }
  }
}
