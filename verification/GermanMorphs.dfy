/** Which morpheme the ordered search finds, decided by a word's first letters. */
module GermanMorphs {
  import opened Decimal
  import opened German

  predicate Hit(m: Morph, r: string, tensOnly: bool) {
    m.0 <= r && (tensOnly ==> IsTens(m.1))
  }

  /** The morphemes that begin with a letter, in order. */
  function Keep(ms: seq<Morph>, c: char): seq<Morph> {
    if ms == [] then []
    else (if ms[0].0 != "" && ms[0].0[0] == c then [ms[0]] else []) + Keep(ms[1..], c)
  }

  lemma {:induction false} KeepConcat(x: seq<Morph>, y: seq<Morph>, c: char)
    ensures Keep(x + y, c) == Keep(x, c) + Keep(y, c)
  {
    if x == [] {
      assert x + y == y;
    } else {
      assert (x + y)[1..] == x[1..] + y;
      KeepConcat(x[1..], y, c);
    }
  }

  /** Only morphemes with the word's first letter can be found. */
  lemma {:induction false} FirstByLetter(ms: seq<Morph>, r: string, tensOnly: bool)
    requires r != "" && forall i :: 0 <= i < |ms| ==> ms[i].0 != ""
    ensures First(ms, r, tensOnly) == First(Keep(ms, r[0]), r, tensOnly)
  {
    if ms != [] {
      FirstByLetter(ms[1..], r, tensOnly);
      var kept := Keep(ms[1..], r[0]);
      if ms[0].0[0] == r[0] {
        FirstPeels(ms[0], kept, r, tensOnly);
      } else {
        assert !(ms[0].0 <= r);
        assert Keep(ms, r[0]) == kept;
      }
    }
  }

  lemma FirstPeels(m: Morph, ms: seq<Morph>, r: string, tensOnly: bool)
    ensures First([m] + ms, r, tensOnly) == if Hit(m, r, tensOnly) then Some(m) else First(ms, r, tensOnly)
  {
    assert ([m] + ms)[1..] == ms;
  }

  function One(m: Morph, c: char): seq<Morph> {
    if m.0 != "" && m.0[0] == c then [m] else []
  }

  lemma KeepPeels(m: Morph, ms: seq<Morph>, c: char)
    ensures Keep([m] + ms, c) == One(m, c) + Keep(ms, c)
  {
    assert ([m] + ms)[1..] == ms;
  }

  lemma KeepFour(m: Morph, n: Morph, o: Morph, p: Morph, c: char)
    ensures Keep([m, n, o, p], c) == One(m, c) + One(n, c) + One(o, c) + One(p, c)
  {
    KeepPeels(m, [n, o, p], c);
    KeepPeels(n, [o, p], c);
    KeepPeels(o, [p], c);
    KeepPeels(p, [], c);
    assert [m, n, o, p] == [m] + [n, o, p] && [n, o, p] == [n] + [o, p] && [o, p] == [o] + [p] && [p] == [p] + [];
  }

  function Group(c: char): seq<Morph> {
    match c
    case 'd' => [("dreizehn", 13), ("dreißig", 30), ("dreissig", 30), ("drei", 3)]
    case 'v' => [("vierzehn", 14), ("vierzig", 40), ("vier", 4)]
    case 'f' => [("fünfzehn", 15), ("fünfzig", 50), ("fünf", 5)]
    case 's' => [("sechzehn", 16), ("siebzehn", 17), ("sechzig", 60), ("siebzig", 70), ("sechs", 6), ("sieben", 7)]
    case 'a' => [("achtzehn", 18), ("achtzig", 80), ("acht", 8)]
    case 'n' => [("neunzehn", 19), ("neunzig", 90), ("null", 0), ("neun", 9)]
    case 'z' => [("zwanzig", 20), ("zwölf", 12), ("zehn", 10), ("zwei", 2), ("zwo", 2)]
    case 'e' => [("elf", 11), ("eins", 1), ("ein", 1)]
    case _ => []
  }

  function OfLine1(c: char): seq<Morph> {
    match c
    case 'd' => [("dreizehn", 13)]
    case 'v' => [("vierzehn", 14)]
    case 'f' => [("fünfzehn", 15)]
    case 's' => [("sechzehn", 16)]
    case _ => []
  }

  lemma KeepLine1(c: char)
    ensures Keep(LINE1, c) == OfLine1(c)
  {
    KeepFour(LINE1[0], LINE1[1], LINE1[2], LINE1[3], c);
  }

  function OfLine2(c: char): seq<Morph> {
    match c
    case 's' => [("siebzehn", 17)]
    case 'a' => [("achtzehn", 18)]
    case 'n' => [("neunzehn", 19)]
    case 'z' => [("zwanzig", 20)]
    case _ => []
  }

  lemma KeepLine2(c: char)
    ensures Keep(LINE2, c) == OfLine2(c)
  {
    KeepFour(LINE2[0], LINE2[1], LINE2[2], LINE2[3], c);
  }

  function OfLine3(c: char): seq<Morph> {
    match c
    case 'd' => [("dreißig", 30), ("dreissig", 30)]
    case 'v' => [("vierzig", 40)]
    case 'f' => [("fünfzig", 50)]
    case _ => []
  }

  lemma KeepLine3(c: char)
    ensures Keep(LINE3, c) == OfLine3(c)
  {
    KeepFour(LINE3[0], LINE3[1], LINE3[2], LINE3[3], c);
  }

  function OfLine4(c: char): seq<Morph> {
    match c
    case 's' => [("sechzig", 60), ("siebzig", 70)]
    case 'a' => [("achtzig", 80)]
    case 'n' => [("neunzig", 90)]
    case _ => []
  }

  lemma KeepLine4(c: char)
    ensures Keep(LINE4, c) == OfLine4(c)
  {
    KeepFour(LINE4[0], LINE4[1], LINE4[2], LINE4[3], c);
  }

  function OfLine5(c: char): seq<Morph> {
    match c
    case 'z' => [("zwölf", 12), ("zehn", 10)]
    case 'e' => [("elf", 11)]
    case 'n' => [("null", 0)]
    case _ => []
  }

  lemma KeepLine5(c: char)
    ensures Keep(LINE5, c) == OfLine5(c)
  {
    KeepFour(LINE5[0], LINE5[1], LINE5[2], LINE5[3], c);
  }

  function OfLine6(c: char): seq<Morph> {
    match c
    case 'e' => [("eins", 1), ("ein", 1)]
    case 'z' => [("zwei", 2), ("zwo", 2)]
    case _ => []
  }

  lemma KeepLine6(c: char)
    ensures Keep(LINE6, c) == OfLine6(c)
  {
    KeepFour(LINE6[0], LINE6[1], LINE6[2], LINE6[3], c);
  }

  function OfLine7(c: char): seq<Morph> {
    match c
    case 'd' => [("drei", 3)]
    case 'v' => [("vier", 4)]
    case 'f' => [("fünf", 5)]
    case 's' => [("sechs", 6)]
    case _ => []
  }

  lemma KeepLine7(c: char)
    ensures Keep(LINE7, c) == OfLine7(c)
  {
    KeepFour(LINE7[0], LINE7[1], LINE7[2], LINE7[3], c);
  }

  function OfLine8(c: char): seq<Morph> {
    match c
    case 's' => [("sieben", 7)]
    case 'a' => [("acht", 8)]
    case 'n' => [("neun", 9)]
    case _ => []
  }

  lemma KeepLine8(c: char)
    ensures Keep(LINE8, c) == OfLine8(c)
  {
    KeepPeels(LINE8[0], [LINE8[1], LINE8[2]], c);
    KeepPeels(LINE8[1], [LINE8[2]], c);
    KeepPeels(LINE8[2], [], c);
    assert LINE8 == [LINE8[0]] + [LINE8[1], LINE8[2]] && [LINE8[1], LINE8[2]] == [LINE8[1]] + [LINE8[2]];
    assert [LINE8[2]] == [LINE8[2]] + [];
  }

  lemma KeepLines(a: seq<Morph>, b: seq<Morph>, c: seq<Morph>, d: seq<Morph>,
                  e: seq<Morph>, f: seq<Morph>, g: seq<Morph>, h: seq<Morph>, l: char)
    ensures Keep(a + b + c + d + e + f + g + h, l)
         == Keep(a, l) + Keep(b, l) + Keep(c, l) + Keep(d, l) + Keep(e, l) + Keep(f, l) + Keep(g, l) + Keep(h, l)
  {
    KeepConcat(a, b, l);
    KeepConcat(a + b, c, l);
    KeepConcat(a + b + c, d, l);
    KeepConcat(a + b + c + d, e, l);
    KeepConcat(a + b + c + d + e, f, l);
    KeepConcat(a + b + c + d + e + f, g, l);
    KeepConcat(a + b + c + d + e + f + g, h, l);
  }

  function OfLines(c: char): seq<Morph> {
    OfLine1(c) + OfLine2(c) + OfLine3(c) + OfLine4(c) + OfLine5(c) + OfLine6(c) + OfLine7(c) + OfLine8(c)
  }

  lemma OfLinesAtoF(c: char)
    requires c <= 'f'
    ensures OfLines(c) == Group(c)
  {
  }

  lemma OfLinesGtoS(c: char)
    requires 'f' < c <= 's'
    ensures OfLines(c) == Group(c)
  {
  }

  lemma OfLinesTtoZ(c: char)
    requires 's' < c
    ensures OfLines(c) == Group(c)
  {
  }

  lemma KeepMorphs(c: char)
    ensures Keep(MORPHS, c) == Group(c)
  {
    KeepLines(LINE1, LINE2, LINE3, LINE4, LINE5, LINE6, LINE7, LINE8, c);
    KeepLine1(c);
    KeepLine2(c);
    KeepLine3(c);
    KeepLine4(c);
    KeepLine5(c);
    KeepLine6(c);
    KeepLine7(c);
    KeepLine8(c);
    if c <= 'f' {
      OfLinesAtoF(c);
    } else if c <= 's' {
      OfLinesGtoS(c);
    } else {
      OfLinesTtoZ(c);
    }
  }

  /** The ordered search in a list of at most six. */
  function Pick(ms: seq<Morph>, r: string, tensOnly: bool): Option<Morph>
    requires |ms| <= 6
  {
    if |ms| > 0 && Hit(ms[0], r, tensOnly) then Some(ms[0])
    else if |ms| > 1 && Hit(ms[1], r, tensOnly) then Some(ms[1])
    else if |ms| > 2 && Hit(ms[2], r, tensOnly) then Some(ms[2])
    else if |ms| > 3 && Hit(ms[3], r, tensOnly) then Some(ms[3])
    else if |ms| > 4 && Hit(ms[4], r, tensOnly) then Some(ms[4])
    else if |ms| > 5 && Hit(ms[5], r, tensOnly) then Some(ms[5])
    else None
  }

  lemma {:induction false} FirstIsPick(ms: seq<Morph>, r: string, tensOnly: bool)
    requires |ms| <= 6
    ensures First(ms, r, tensOnly) == Pick(ms, r, tensOnly)
  {
    if ms != [] {
      FirstIsPick(ms[1..], r, tensOnly);
    }
  }

  /** The ordered search, reduced to the morphemes with the word's first letter. */
  lemma FirstInGroup(r: string, tensOnly: bool)
    requires r != ""
    ensures First(MORPHS, r, tensOnly) == Pick(Group(r[0]), r, tensOnly)
  {
    FirstByLetter(MORPHS, r, tensOnly);
    KeepMorphs(r[0]);
    FirstIsPick(Group(r[0]), r, tensOnly);
  }

  // ---------------------------------------------------------------- the words of the small numbers

  function Unit(v: nat, zwo: bool): string
    requires 1 <= v <= 9
  {
    match v
    case 1 => "ein"
    case 2 => if zwo then "zwo" else "zwei"
    case 3 => "drei"
    case 4 => "vier"
    case 5 => "fünf"
    case 6 => "sechs"
    case 7 => "sieben"
    case 8 => "acht"
    case _ => "neun"
  }

  function Teen(v: nat): string
    requires 10 <= v <= 19
  {
    match v
    case 10 => "zehn"
    case 11 => "elf"
    case 12 => "zwölf"
    case 13 => "dreizehn"
    case 14 => "vierzehn"
    case 15 => "fünfzehn"
    case 16 => "sechzehn"
    case 17 => "siebzehn"
    case 18 => "achtzehn"
    case _ => "neunzehn"
  }

  function Tens(v: nat, ss: bool): string
    requires 20 <= v <= 90 && v % 10 == 0
  {
    match v
    case 20 => "zwanzig"
    case 30 => if ss then "dreissig" else "dreißig"
    case 40 => "vierzig"
    case 50 => "fünfzig"
    case 60 => "sechzig"
    case 70 => "siebzig"
    case 80 => "achtzig"
    case _ => "neunzig"
  }

  lemma FirstEin(t: string)
    requires t == "" || t[0] in "htu"
    ensures First(MORPHS, "ein" + t, false) == Some(("ein", 1))
  {
    var r := "ein" + t;
    FirstInGroup(r, false);
    assert r[..3] == "ein";
    assert r[1] == 'i' && (t != "" ==> r[3] == t[0]);
  }

  lemma FirstZwei(t: string)
    ensures First(MORPHS, "zwei" + t, false) == Some(("zwei", 2))
  {
    var r := "zwei" + t;
    FirstInGroup(r, false);
    assert r[..4] == "zwei";
    assert r[1] == 'w' && r[2] == 'e';
  }

  lemma FirstZwo(t: string)
    ensures First(MORPHS, "zwo" + t, false) == Some(("zwo", 2))
  {
    var r := "zwo" + t;
    FirstInGroup(r, false);
    assert r[..3] == "zwo";
    assert r[1] == 'w' && r[2] == 'o';
  }

  lemma FirstDrei(t: string)
    requires t == "" || t[0] in "htu"
    ensures First(MORPHS, "drei" + t, false) == Some(("drei", 3))
  {
    var r := "drei" + t;
    FirstInGroup(r, false);
    assert r[..4] == "drei";
    assert (t != "" ==> r[4] == t[0]);
  }

  lemma FirstVier(t: string)
    requires t == "" || t[0] in "htu"
    ensures First(MORPHS, "vier" + t, false) == Some(("vier", 4))
  {
    var r := "vier" + t;
    FirstInGroup(r, false);
    assert r[..4] == "vier";
    assert (t != "" ==> r[4] == t[0]);
  }

  lemma FirstFuenf(t: string)
    requires t == "" || t[0] in "htu"
    ensures First(MORPHS, "fünf" + t, false) == Some(("fünf", 5))
  {
    var r := "fünf" + t;
    FirstInGroup(r, false);
    assert r[..4] == "fünf";
    assert (t != "" ==> r[4] == t[0]);
  }

  lemma FirstSechs(t: string)
    ensures First(MORPHS, "sechs" + t, false) == Some(("sechs", 6))
  {
    var r := "sechs" + t;
    FirstInGroup(r, false);
    assert r[..5] == "sechs";
    assert r[1] == 'e' && r[4] == 's';
  }

  lemma FirstSieben(t: string)
    ensures First(MORPHS, "sieben" + t, false) == Some(("sieben", 7))
  {
    var r := "sieben" + t;
    FirstInGroup(r, false);
    assert r[..6] == "sieben";
    assert r[1] == 'i' && r[4] == 'e';
  }

  lemma FirstAcht(t: string)
    requires t == "" || t[0] in "htu"
    ensures First(MORPHS, "acht" + t, false) == Some(("acht", 8))
  {
    var r := "acht" + t;
    FirstInGroup(r, false);
    assert r[..4] == "acht";
    assert (t != "" ==> r[4] == t[0]);
  }

  lemma FirstNeun(t: string)
    requires t == "" || t[0] in "htu"
    ensures First(MORPHS, "neun" + t, false) == Some(("neun", 9))
  {
    var r := "neun" + t;
    FirstInGroup(r, false);
    assert r[..4] == "neun";
    assert r[1] == 'e' && (t != "" ==> r[4] == t[0]);
  }

  lemma FirstZehn(t: string)
    ensures First(MORPHS, "zehn" + t, false) == Some(("zehn", 10))
  {
    var r := "zehn" + t;
    FirstInGroup(r, false);
    assert r[..4] == "zehn";
    assert r[1] == 'e';
  }

  lemma FirstElf(t: string)
    ensures First(MORPHS, "elf" + t, false) == Some(("elf", 11))
  {
    var r := "elf" + t;
    FirstInGroup(r, false);
    assert r[..3] == "elf";
  }

  lemma FirstZwoelf(t: string)
    ensures First(MORPHS, "zwölf" + t, false) == Some(("zwölf", 12))
  {
    var r := "zwölf" + t;
    FirstInGroup(r, false);
    assert r[..5] == "zwölf";
    assert r[2] == 'ö';
  }

  lemma FirstDreizehn(t: string)
    ensures First(MORPHS, "dreizehn" + t, false) == Some(("dreizehn", 13))
  {
    var r := "dreizehn" + t;
    FirstInGroup(r, false);
    assert r[..8] == "dreizehn";
  }

  lemma FirstVierzehn(t: string)
    ensures First(MORPHS, "vierzehn" + t, false) == Some(("vierzehn", 14))
  {
    var r := "vierzehn" + t;
    FirstInGroup(r, false);
    assert r[..8] == "vierzehn";
  }

  lemma FirstFuenfzehn(t: string)
    ensures First(MORPHS, "fünfzehn" + t, false) == Some(("fünfzehn", 15))
  {
    var r := "fünfzehn" + t;
    FirstInGroup(r, false);
    assert r[..8] == "fünfzehn";
  }

  lemma FirstSechzehn(t: string)
    ensures First(MORPHS, "sechzehn" + t, false) == Some(("sechzehn", 16))
  {
    var r := "sechzehn" + t;
    FirstInGroup(r, false);
    assert r[..8] == "sechzehn";
  }

  lemma FirstSiebzehn(t: string)
    ensures First(MORPHS, "siebzehn" + t, false) == Some(("siebzehn", 17))
  {
    var r := "siebzehn" + t;
    FirstInGroup(r, false);
    assert r[..8] == "siebzehn";
    assert r[1] == 'i';
  }

  lemma FirstAchtzehn(t: string)
    ensures First(MORPHS, "achtzehn" + t, false) == Some(("achtzehn", 18))
  {
    var r := "achtzehn" + t;
    FirstInGroup(r, false);
    assert r[..8] == "achtzehn";
  }

  lemma FirstNeunzehn(t: string)
    ensures First(MORPHS, "neunzehn" + t, false) == Some(("neunzehn", 19))
  {
    var r := "neunzehn" + t;
    FirstInGroup(r, false);
    assert r[..8] == "neunzehn";
  }

  lemma FirstEins(t: string)
    ensures First(MORPHS, "eins" + t, false) == Some(("eins", 1))
  {
    var r := "eins" + t;
    FirstInGroup(r, false);
    assert r[..4] == "eins";
    assert r[1] == 'i';
  }

  lemma FirstNull(t: string)
    ensures First(MORPHS, "null" + t, false) == Some(("null", 0))
  {
    var r := "null" + t;
    FirstInGroup(r, false);
    assert r[..4] == "null";
    assert r[1] == 'u';
  }

  lemma FirstZwanzig(t: string, tensOnly: bool)
    ensures First(MORPHS, "zwanzig" + t, tensOnly) == Some(("zwanzig", 20))
  {
    var r := "zwanzig" + t;
    FirstInGroup(r, tensOnly);
    assert r[..7] == "zwanzig";
  }

  lemma FirstDreiszig(t: string, tensOnly: bool)
    ensures First(MORPHS, "dreißig" + t, tensOnly) == Some(("dreißig", 30))
  {
    var r := "dreißig" + t;
    FirstInGroup(r, tensOnly);
    assert r[..7] == "dreißig";
    assert r[4] == 'ß';
  }

  lemma FirstDreissig(t: string, tensOnly: bool)
    ensures First(MORPHS, "dreissig" + t, tensOnly) == Some(("dreissig", 30))
  {
    var r := "dreissig" + t;
    FirstInGroup(r, tensOnly);
    assert r[..8] == "dreissig";
    assert r[4] == 's';
  }

  lemma FirstVierzig(t: string, tensOnly: bool)
    ensures First(MORPHS, "vierzig" + t, tensOnly) == Some(("vierzig", 40))
  {
    var r := "vierzig" + t;
    FirstInGroup(r, tensOnly);
    assert r[..7] == "vierzig";
    assert r[5] == 'i';
  }

  lemma FirstFuenfzig(t: string, tensOnly: bool)
    ensures First(MORPHS, "fünfzig" + t, tensOnly) == Some(("fünfzig", 50))
  {
    var r := "fünfzig" + t;
    FirstInGroup(r, tensOnly);
    assert r[..7] == "fünfzig";
    assert r[5] == 'i';
  }

  lemma FirstSechzig(t: string, tensOnly: bool)
    ensures First(MORPHS, "sechzig" + t, tensOnly) == Some(("sechzig", 60))
  {
    var r := "sechzig" + t;
    FirstInGroup(r, tensOnly);
    assert r[..7] == "sechzig";
    assert r[1] == 'e' && r[5] == 'i';
  }

  lemma FirstSiebzig(t: string, tensOnly: bool)
    ensures First(MORPHS, "siebzig" + t, tensOnly) == Some(("siebzig", 70))
  {
    var r := "siebzig" + t;
    FirstInGroup(r, tensOnly);
    assert r[..7] == "siebzig";
    assert r[1] == 'i' && r[5] == 'i';
  }

  lemma FirstAchtzig(t: string, tensOnly: bool)
    ensures First(MORPHS, "achtzig" + t, tensOnly) == Some(("achtzig", 80))
  {
    var r := "achtzig" + t;
    FirstInGroup(r, tensOnly);
    assert r[..7] == "achtzig";
    assert r[5] == 'i';
  }

  lemma FirstNeunzig(t: string, tensOnly: bool)
    ensures First(MORPHS, "neunzig" + t, tensOnly) == Some(("neunzig", 90))
  {
    var r := "neunzig" + t;
    FirstInGroup(r, tensOnly);
    assert r[..7] == "neunzig";
    assert r[5] == 'i';
  }

  // ---------------------------------------------------------------- any small number, followed by anything that may follow it

  lemma FirstUnit(v: nat, zwo: bool, t: string)
    requires 1 <= v <= 9 && (t == "" || t[0] in "htu")
    ensures First(MORPHS, Unit(v, zwo) + t, false) == Some((Unit(v, zwo), v))
  {
    match v
    case 1 => FirstEin(t);
    case 2 => FirstZwei(t); FirstZwo(t);
    case 3 => FirstDrei(t);
    case 4 => FirstVier(t);
    case 5 => FirstFuenf(t);
    case 6 => FirstSechs(t);
    case 7 => FirstSieben(t);
    case 8 => FirstAcht(t);
    case _ => FirstNeun(t);
  }

  lemma FirstTeen(v: nat, t: string)
    requires 10 <= v <= 19
    ensures First(MORPHS, Teen(v) + t, false) == Some((Teen(v), v))
  {
    match v
    case 10 => FirstZehn(t);
    case 11 => FirstElf(t);
    case 12 => FirstZwoelf(t);
    case 13 => FirstDreizehn(t);
    case 14 => FirstVierzehn(t);
    case 15 => FirstFuenfzehn(t);
    case 16 => FirstSechzehn(t);
    case 17 => FirstSiebzehn(t);
    case 18 => FirstAchtzehn(t);
    case _ => FirstNeunzehn(t);
  }

  lemma FirstTens(v: nat, ss: bool, t: string, tensOnly: bool)
    requires 20 <= v <= 90 && v % 10 == 0
    ensures First(MORPHS, Tens(v, ss) + t, tensOnly) == Some((Tens(v, ss), v))
  {
    match v
    case 20 => FirstZwanzig(t, tensOnly);
    case 30 => FirstDreiszig(t, tensOnly); FirstDreissig(t, tensOnly);
    case 40 => FirstVierzig(t, tensOnly);
    case 50 => FirstFuenfzig(t, tensOnly);
    case 60 => FirstSechzig(t, tensOnly);
    case 70 => FirstSiebzig(t, tensOnly);
    case 80 => FirstAchtzig(t, tensOnly);
    case _ => FirstNeunzig(t, tensOnly);
  }
}
