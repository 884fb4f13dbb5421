/** What the German parser guarantees: round trips, exactly which ordinals it reads, decimals, idempotence. */
module GermanProofs {
  import opened Decimal
  import opened German
  import opened GermanMorphs
  import opened GermanScan

  // ---------------------------------------------------------------- how a cardinal ends

  /** The last letters of the German cardinals; no ordinal, article or irregular form ends so. */
  predicate CardinalEnd(s: string) {
    |s| >= 3 &&
    var x, y, z := s[|s| - 3], s[|s| - 2], s[|s| - 1];
    || (z == 's' && (y == 'n' || y == 'h')) || (y == 'e' && z == 'i') || (y == 'w' && z == 'o')
    || (z == 'f' && (y == 'n' || y == 'l')) || (y == 'h' && z == 't') || (z == 'n' && (y == 'u' || y == 'h'))
    || (y == 'i' && z == 'g') || (y == 'r' && z == 't') || (y == 'n' && z == 'd') || (y == 'l' && z == 'l')
    || (x == 'i' && y == 'e' && z == 'r') || (x == 'b' && y == 'e' && z == 'n')
  }

  lemma EndOfConcat(a: string, b: string)
    requires CardinalEnd(b)
    ensures CardinalEnd(a + b)
  {
    var s := a + b;
    assert s[|s| - 3] == b[|b| - 3] && s[|s| - 2] == b[|b| - 2] && s[|s| - 1] == b[|b| - 1];
  }

  lemma UnitEnd(v: nat, zwo: bool)
    requires 2 <= v <= 9
    ensures CardinalEnd(Unit(v, zwo))
  {
  }

  lemma TeenEnd(v: nat)
    requires 10 <= v <= 19
    ensures CardinalEnd(Teen(v))
  {
  }

  lemma TensEnd(v: nat, ss: bool)
    requires 20 <= v <= 90 && v % 10 == 0
    ensures CardinalEnd(Tens(v, ss))
  {
  }

  lemma Below100End(n: nat, s: Style)
    requires 0 < n < 100
    ensures CardinalEnd(Below100(n, true, s))
  {
    if 2 <= n < 10 {
      UnitEnd(n, s.zwo);
    } else if 10 <= n < 20 {
      TeenEnd(n);
    } else if n >= 20 {
      TensEnd(n / 10 * 10, s.ss);
      EndOfConcat(if n % 10 == 0 then "" else Unit(n % 10, s.zwo) + "und", Tens(n / 10 * 10, s.ss));
    }
  }

  lemma HundredsEnd(h: nat, s: Style)
    requires 0 < h < 10
    ensures CardinalEnd(Hundreds(h, s))
  {
    EndOfConcat(if h == 1 && !s.ein then "" else Unit(h, s.zwoHundred), "hundert");
  }

  lemma ThousandsEnd(n: nat, st: Styles)
    requires 1000 <= n < 1_000_000 && n % 1000 == 0
    ensures CardinalEnd(ThousandsPart(n, st))
  {
    var high := if n / 1000 == 1 && !st.ein then ""
                else HundredsPart(n / 1000, st.high) + Tail100(n / 1000 % 100, false, st.high);
    EndOfConcat(high, "tausend");
    assert ThousandsPart(n, st) == high + "tausend";
  }

  lemma PrefixEnd(n: nat, st: Styles)
    requires 100 <= n < 1_000_000 && n % 100 == 0
    ensures CardinalEnd(Prefix(n, st))
  {
    LastTwoDigits(n);
    var h := n % 1000 / 100;
    if h == 0 {
      ThousandsEnd(n, st);
      assert Prefix(n, st) == ThousandsPart(n, st);
    } else {
      HundredsEnd(h, st.low);
      assert HundredsPart(n % 1000, st.low) == Hundreds(h, st.low);
      EndOfConcat(ThousandsPart(n, st), HundredsPart(n % 1000, st.low));
    }
  }

  lemma SpellEnd(n: nat, st: Styles)
    requires n < 1_000_000
    ensures CardinalEnd(Spell(n, st))
  {
    if n % 100 != 0 {
      Below100End(n % 100, st.low);
      EndOfConcat(Prefix(n, st), Tail100(n % 100, true, st.low));
    } else if n != 0 {
      PrefixEnd(n, st);
      assert Spell(n, st) == Prefix(n, st);
    }
  }

  // ---------------------------------------------------------------- a cardinal is no ordinal and no article

  lemma CardinalKeepsItsEnd(s: string)
    requires CardinalEnd(s)
    ensures EndingLength(s) == 0 && Strip(s) == s
  {
  }

  lemma CardinalIsNotIrregular(s: string)
    requires CardinalEnd(s)
    ensures Irregular(s).Some? ==> s == "acht" && Irregular(s) == Some(8)
  {
    CardinalKeepsItsEnd(s);
  }

  lemma ScanOfAcht()
    ensures Scan(MORPHS, "acht", START) == Some(START.Plus(8))
  {
    FirstAcht("");
    assert "acht" + "" == "acht";
    ScanMorph(MORPHS, "acht", 8, "", START);
  }

  lemma ScanOfEins()
    ensures Scan(MORPHS, "eins", START) == Some(START.Plus(1))
  {
    FirstEins("");
    assert "eins" + "" == "eins";
    ScanMorph(MORPHS, "eins", 1, "", START);
  }

  /** Round trip of one compound, whatever the choices of spelling. */
  lemma CompoundOfSpell(n: nat, st: Styles)
    requires n < 1_000_000
    ensures Compound(Spell(n, st)) == Some(n)
  {
    var s := Spell(n, st);
    SpellEnd(n, st);
    ScanSpell(n, st);
    CardinalKeepsItsEnd(s);
    CardinalIsNotIrregular(s);
    ScanOfAcht();
  }

  lemma CardinalIsNoArticle(s: string)
    requires CardinalEnd(s)
    ensures !IsArticle(s) && !IsNumeral(s)
  {
    assert !IsDigit(s[|s| - 1]);
  }

  lemma ParseOfSpell(n: nat, st: Styles)
    requires n < 1_000_000
    ensures ParseDe(Spell(n, st)) == Some(n)
  {
    CompoundOfSpell(n, st);
    SpellEnd(n, st);
    CardinalIsNoArticle(Spell(n, st));
  }

  // ---------------------------------------------------------------- ordinals

  predicate IsEnding(e: string) {
    e == "e" || e == "en" || e == "er" || e == "es" || e == "em"
  }

  /** The last two digits' ordinal has a stem of its own, or (sechst) an "s" that looks like part of the ending. */
  predicate IsIrregularEnd(k: nat) {
    k == 1 || k == 3 || k == 6 || k == 7 || k == 8
  }

  function IrregularStem(k: nat): string
    requires IsIrregularEnd(k)
  {
    match k
    case 1 => "erst"
    case 3 => "dritt"
    case 6 => "sechst"
    case 7 => "siebt"
    case _ => "acht"
  }

  /** The ordinal of n as German writes it, up to its case ending. */
  function OrdinalStem(n: nat, st: Styles): string
    requires n < 1_000_000
  {
    if IsIrregularEnd(n % 100) then Prefix(n, st) + IrregularStem(n % 100)
    else if n == 0 || 0 < n % 100 < 20 then Spell(n, st) + "t"
    else Spell(n, st) + "st"
  }

  lemma StripPlain(c: string, e: string)
    requires IsEnding(e) && (c == "" || c[|c| - 1] != 's')
    ensures Strip(c + "t" + e) == c && EndingLength(c + "t" + e) > 0
  {
    var w := c + "t" + e;
    assert w[|c|] == 't' && w[|c| + 1] == 'e';
    assert EndingLength(w) == 1 + |e|;
    assert w[..|w| - EndingLength(w)] == c;
  }

  lemma StripWithS(c: string, e: string)
    requires IsEnding(e)
    ensures Strip(c + "st" + e) == c && EndingLength(c + "st" + e) > 0
  {
    var w := c + "st" + e;
    assert w[|c|] == 's' && w[|c| + 1] == 't' && w[|c| + 2] == 'e';
    assert EndingLength(w) == 1 + |e|;
    assert w[..|w| - EndingLength(w)] == c + "s";
    assert (c + "s")[..|c|] == c;
  }

  /** Every form of an irregular ordinal strips to its stem, its stem and "e", or its stem less the ending. */
  lemma FormStrips(w: string, c: string, stripped: string)
    requires c != "" && stripped == (if c[|c| - 1] == 's' then c[..|c| - 1] else c)
    ensures IsFormOf(w, c + "t") ==> Strip(w) == c + "t" || Strip(w) == c + "t" + "e" || Strip(w) == stripped
  {
    forall e | IsEnding(e) ensures Strip(c + "t" + e) == stripped {
      if c[|c| - 1] == 's' {
        assert c + "t" + e == c[..|c| - 1] + "st" + e;
        StripWithS(c[..|c| - 1], e);
      } else {
        StripPlain(c, e);
      }
    }
    if IsFormOf(w, c + "t") && Strip(w) != c + "t" && Strip(w) != c + "t" + "e" {
      assert IsEnding("e") && IsEnding("en") && IsEnding("er") && IsEnding("es") && IsEnding("em");
    }
  }

  lemma IrregularStrips(w: string)
    ensures IsFormOf(w, "erst") ==> Strip(w) == "erst" || Strip(w) == "erste" || Strip(w) == "er"
    ensures IsFormOf(w, "dritt") ==> Strip(w) == "dritt" || Strip(w) == "dritte" || Strip(w) == "drit"
    ensures IsFormOf(w, "siebt") ==> Strip(w) == "siebt" || Strip(w) == "siebte" || Strip(w) == "sieb"
    ensures IsFormOf(w, "acht") ==> Strip(w) == "acht" || Strip(w) == "achte" || Strip(w) == "ach"
  {
    assert "ers" + "t" == "erst" && "erst" + "e" == "erste" && "ers"[..2] == "er";
    assert "drit" + "t" == "dritt" && "dritt" + "e" == "dritte";
    assert "sieb" + "t" == "siebt" && "siebt" + "e" == "siebte";
    assert "ach" + "t" == "acht" && "acht" + "e" == "achte";
    FormStrips(w, "ers", "er");
    FormStrips(w, "drit", "drit");
    FormStrips(w, "sieb", "sieb");
    FormStrips(w, "ach", "ach");
  }

  lemma StemOfCardinalIsNotIrregular(w: string)
    requires CardinalEnd(Strip(w)) && Strip(w) != "acht"
    ensures Irregular(w) == None
  {
    IrregularStrips(w);
  }

  lemma LongWordIsNotIrregular(w: string)
    requires |Strip(w)| > 6
    ensures Irregular(w) == None
  {
    IrregularStrips(w);
  }

  /** An ordinal whose stem is not irregular is read as its stem is. */
  lemma CompoundOfStem(w: string, c: string)
    requires Irregular(w) == None && Strip(w) == c && c != w && c != ""
    ensures Compound(w) == Regular(c, true)
  {
  }

  lemma StripOfRegular(n: nat, st: Styles, e: string)
    requires n < 1_000_000 && !IsIrregularEnd(n % 100) && IsEnding(e)
    ensures var w := OrdinalStem(n, st) + e; Strip(w) == Spell(n, st) && EndingLength(w) > 0
  {
    if n == 0 || 0 < n % 100 < 20 {
      RegularEndIsNoS(n, st);
      StripPlain(Spell(n, st), e);
    } else {
      StripWithS(Spell(n, st), e);
    }
  }

  lemma SpellIsNoSmallWord(n: nat, st: Styles)
    requires n < 1_000_000
    ensures var c := Spell(n, st);
            (c == "acht" ==> n == 8) && (c == "eins" ==> n == 1) && c != "ein" && c != ""
  {
    SpellEnd(n, st);
    ScanSpell(n, st);
    ScanOfAcht();
    ScanOfEins();
  }

  /** c is read as n by the matching loop, and is no word that is treated apart. */
  predicate ReadsAs(c: string, n: nat) {
    CardinalEnd(c) && c != "acht" && c != "ein" && c != "eins" && Scan(MORPHS, c, START) == Some(ScanOf(c))
    && ScanOf(c).Value() == n && ScanOf(c).matched
  }

  function ScanOf(c: string): Acc {
    var r := Scan(MORPHS, c, START);
    if r.Some? then r.value else START
  }

  lemma CompoundOfCardinalStem(w: string, c: string, n: nat)
    requires ReadsAs(c, n) && Strip(w) == c && EndingLength(w) > 0
    ensures Compound(w) == Some(n)
  {
    CardinalKeepsItsEnd(c);
    StemOfCardinalIsNotIrregular(w);
    CompoundOfStem(w, c);
  }

  lemma SpellReadsAs(n: nat, st: Styles) returns (c: string)
    requires n < 1_000_000 && n != 1 && n != 8
    ensures c == Spell(n, st) && ReadsAs(c, n)
  {
    c := Spell(n, st);
    assert CardinalEnd(c) by { SpellEnd(n, st); }
    assert c != "acht" && c != "ein" && c != "eins" by { SpellIsNoSmallWord(n, st); }
    ScanSpell(n, st);
  }

  /** A regular ordinal is read as its number. */
  lemma CompoundOfRegular(n: nat, st: Styles, e: string)
    requires n < 1_000_000 && !IsIrregularEnd(n % 100) && IsEnding(e)
    ensures Compound(OrdinalStem(n, st) + e) == Some(n)
  {
    var w := OrdinalStem(n, st) + e;
    var c := SpellReadsAs(n, st);
    assert Strip(w) == c && EndingLength(w) > 0 by { StripOfRegular(n, st, e); }
    CompoundOfCardinalStem(w, c, n);
  }

  lemma LastOfConcat(a: string, b: string)
    requires b != ""
    ensures (a + b)[|a + b| - 1] == b[|b| - 1]
  {
  }

  lemma RegularEndIsNoS(n: nat, st: Styles)
    requires n < 1_000_000 && !IsIrregularEnd(n % 100) && (n == 0 || 0 < n % 100 < 20)
    ensures Spell(n, st) != "" && Spell(n, st)[|Spell(n, st)| - 1] != 's'
  {
    var k := n % 100;
    if n != 0 {
      LastOfConcat(Prefix(n, st), Tail100(k, true, st.low));
      if k < 10 {
        UnitEndsInNoS(k, st.low.zwo);
      } else {
        TeenEndsInNoS(k);
      }
    }
  }

  lemma UnitEndsInNoS(v: nat, zwo: bool)
    requires 2 <= v <= 9 && v != 6
    ensures Unit(v, zwo)[|Unit(v, zwo)| - 1] != 's'
  {
  }

  lemma TeenEndsInNoS(v: nat)
    requires 10 <= v <= 19
    ensures Teen(v)[|Teen(v)| - 1] != 's'
  {
  }

  /** The irregular ordinals are read when they are the whole word. */
  lemma CompoundOfSmallIrregular(n: nat, st: Styles, e: string)
    requires (n == 1 || n == 3 || n == 7 || n == 8) && IsEnding(e)
    ensures Compound(OrdinalStem(n, st) + e) == Some(n)
  {
    assert Prefix(n, st) == "";
    var stem := IrregularStem(n);
    assert OrdinalStem(n, st) == stem;
    IrregularStrips(stem + e);
    SmallIrregularForm(n, e);
  }

  lemma SmallIrregularForm(n: nat, e: string)
    requires (n == 1 || n == 3 || n == 7 || n == 8) && IsEnding(e)
    ensures Irregular(IrregularStem(n) + e) == Some(n)
  {
    var w := IrregularStem(n) + e;
    assert IsFormOf(w, IrregularStem(n));
    IrregularStrips(w);
  }

  /** What is left of an irregular ordinal's stem once the ending is cut off: no morpheme begins it. */
  function Stump(k: nat): string
    requires IsIrregularEnd(k)
  {
    match k
    case 1 => "er"
    case 3 => "drit"
    case 6 => "sech"
    case 7 => "sieb"
    case _ => "ach"
  }

  lemma NoMorphAtStump(k: nat)
    requires IsIrregularEnd(k)
    ensures StartsMorph(Stump(k)) && First(MORPHS, Stump(k), false) == None
  {
    var r := Stump(k);
    FirstInGroup(r, false);
    assert k == 3 ==> r[2] == 'i';
  }

  lemma ScanIsStuck(ms: seq<Morph>, r: string, a: Acc)
    requires StartsMorph(r) && First(ms, r, false) == None
    ensures Scan(ms, r, a) == None
  {
    TurnIsMorph(ms, r, a);
  }

  lemma ScanOfStump(k: nat, a: Acc)
    requires IsIrregularEnd(k)
    ensures Scan(MORPHS, Stump(k), a) == None
  {
    NoMorphAtStump(k);
    ScanIsStuck(MORPHS, Stump(k), a);
  }

  lemma StripToStump(p: string, k: nat, e: string)
    requires IsIrregularEnd(k) && IsEnding(e)
    ensures Strip(p + IrregularStem(k) + e) == p + Stump(k) && p + IrregularStem(k) + e != p + Stump(k)
  {
    if k == 1 {
      assert p + "erst" + e == (p + "er") + "st" + e;
      StripWithS(p + "er", e);
    } else if k == 6 {
      assert p + "sechst" + e == (p + "sech") + "st" + e;
      StripWithS(p + "sech", e);
    } else {
      assert IrregularStem(k) == Stump(k) + "t";
      assert p + IrregularStem(k) + e == (p + Stump(k)) + "t" + e;
      StripPlain(p + Stump(k), e);
    }
  }

  lemma PrefixIsLong(n: nat, st: Styles)
    requires 100 <= n < 1_000_000
    ensures |Prefix(n, st)| >= 7
  {
    LastTwoDigits(n);
  }

  lemma StumpIsNotIrregular(n: nat, st: Styles, w: string)
    requires n < 1_000_000 && IsIrregularEnd(n % 100) && (n == 6 || n >= 100)
    requires Strip(w) == Prefix(n, st) + Stump(n % 100)
    ensures Irregular(w) == None
  {
    if n >= 100 {
      PrefixIsLong(n, st);
      LongWordIsNotIrregular(w);
    } else {
      assert Prefix(n, st) == "" && Strip(w) == "sech";
      IrregularStrips(w);
    }
  }

  lemma StumpIsNotRead(n: nat, st: Styles)
    requires n < 1_000_000 && IsIrregularEnd(n % 100)
    ensures Regular(Prefix(n, st) + Stump(n % 100), true) == None
  {
    ScanPrefix(n, st, Stump(n % 100));
    ScanOfStump(n % 100, AfterPrefix(n));
  }

  /** Elsewhere the irregular ordinals, and the sixth, are not read at all. */
  lemma CompoundOfOtherIrregular(n: nat, st: Styles, e: string)
    requires n < 1_000_000 && IsIrregularEnd(n % 100) && (n == 6 || n >= 100) && IsEnding(e)
    ensures Compound(OrdinalStem(n, st) + e) == None
  {
    var w := OrdinalStem(n, st) + e;
    StripToStump(Prefix(n, st), n % 100, e);
    StumpIsNotIrregular(n, st, w);
    CompoundOfStem(w, Prefix(n, st) + Stump(n % 100));
    StumpIsNotRead(n, st);
  }

  lemma CompoundOfOrdinal(n: nat, st: Styles, e: string)
    requires n < 1_000_000 && IsEnding(e)
    ensures Compound(OrdinalStem(n, st) + e)
         == if IsIrregularEnd(n % 100) && !(n == 1 || n == 3 || n == 7 || n == 8) then None else Some(n)
  {
    if !IsIrregularEnd(n % 100) {
      CompoundOfRegular(n, st, e);
    } else if n == 1 || n == 3 || n == 7 || n == 8 {
      CompoundOfSmallIrregular(n, st, e);
    } else {
      CompoundOfOtherIrregular(n, st, e);
    }
  }

  lemma StemEndsInT(n: nat, st: Styles)
    requires n < 1_000_000
    ensures var c := OrdinalStem(n, st); c != "" && c[|c| - 1] == 't'
  {
    if IsIrregularEnd(n % 100) {
      LastOfConcat(Prefix(n, st), IrregularStem(n % 100));
    }
  }

  /** No article has a "t" before an ending or is a numeral. */
  lemma OrdinalIsNoArticle(c: string, e: string)
    requires IsEnding(e) && c != "" && c[|c| - 1] == 't'
    ensures !IsArticle(c + e) && !IsNumeral(c + e)
  {
    var w := c + e;
    assert w[|c| - 1] == 't';
  }

  /**
   Exactly which ordinals are read: all but those whose last two digits are 1, 3, 6, 7 or 8, of which
   only erste, dritte, siebte and achte themselves are. The sixth fails because its "s" is cut off
   with the ending.
   */
  lemma OrdinalIsRead(n: nat, st: Styles, e: string)
    requires n < 1_000_000 && IsEnding(e)
    ensures ParseDe(OrdinalStem(n, st) + e)
         == if IsIrregularEnd(n % 100) && !(n == 1 || n == 3 || n == 7 || n == 8) then None else Some(n)
  {
    CompoundOfOrdinal(n, st, e);
    StemEndsInT(n, st);
    OrdinalIsNoArticle(OrdinalStem(n, st), e);
  }

  /** "sechste" is not read as 6. */
  lemma SechsteIsNotRead()
    ensures ParseDe("sechste") == None
  {
    var st := Styles(Style(false, false, false, false, false), Style(false, false, false, false, false), false, false);
    assert Prefix(6, st) == "" && OrdinalStem(6, st) + "e" == "sechste";
    OrdinalIsRead(6, st, "e");
  }

  // ---------------------------------------------------------------- the token stream

  lemma DigitStartsNoCompound(w: string)
    requires w != "" && IsDigit(w[0])
    ensures Compound(w) == None
  {
    IrregularStrips(w);
    assert Strip(w) != "" ==> Strip(w)[0] == w[0];
    assert Irregular(w) == None;
    var body := if Strip(w) != w && Strip(w) != "" then Strip(w) else w;
    FirstInGroup(body, false);
    assert Group(body[0]) == [];
    ScanIsStuck(MORPHS, body, START);
  }

  /** A token that starts with a digit is never read as a number word. */
  lemma DigitIsNotParsed(t: string)
    requires t != "" && IsDigit(t[0])
    ensures ParseDe(t) == None
  {
    DigitStartsNoCompound(t);
  }

  lemma KommaIsNoNumber()
    ensures ParseDe("komma") == None
  {
    var w := "komma";
    IrregularStrips(w);
    assert EndingLength(w) == 0 && Strip(w) == w;
    FirstInGroup(w, false);
    ScanIsStuck(MORPHS, w, START);
  }

  lemma {:induction false} OutputIsNotParsed(read: string -> Option<nat>, x: seq<string>)
    requires forall t :: t != "" && IsDigit(t[0]) ==> read(t) == None
    ensures forall t :: t in Rewrite(read, x) ==> read(t) == None
  {
    if x != [] {
      var t := Rewrite(read, x)[0];
      if read(x[0]).Some? {
        assert IsDigit(t[0]);
      }
      OutputIsNotParsed(read, if StartsDecimal(read, x) then x[3..] else x[1..]);
    }
  }

  lemma {:induction false} UnparsedIsKept(read: string -> Option<nat>, x: seq<string>)
    requires forall t :: t in x ==> read(t) == None
    ensures Rewrite(read, x) == x
  {
    if x != [] {
      assert x[0] in x;
      UnparsedIsKept(read, x[1..]);
    }
  }

  lemma Idempotent(x: seq<string>)
    ensures DeNumbers(DeNumbers(x)) == DeNumbers(x)
  {
    forall t: string | t != "" && IsDigit(t[0]) ensures ParseDe(t) == None {
      DigitIsNotParsed(t);
    }
    OutputIsNotParsed(ParseDe, x);
    UnparsedIsKept(ParseDe, DeNumbers(x));
  }

  /** How many tokens the scan reads next, and the token it puts out for them. */
  function Width(read: string -> Option<nat>, x: seq<string>): (n: nat)
    requires x != []
    ensures 0 < n <= |x|
  {
    if StartsDecimal(read, x) then 3 else 1
  }

  function FirstOut(read: string -> Option<nat>, x: seq<string>): (t: string)
    requires x != []
  {
    if StartsDecimal(read, x) then Str(read(x[0]).value) + "." + Str(read(x[2]).value)
    else if read(x[0]).Some? then Str(read(x[0]).value)
    else x[0]
  }

  lemma {:induction false} RewriteStep(read: string -> Option<nat>, x: seq<string>)
    requires x != []
    ensures Rewrite(read, x) == [FirstOut(read, x)] + Rewrite(read, x[Width(read, x)..])
  {
  }

  /** The scan of x + y comes to a stop between x and y: no decimal that it takes lies across. */
  predicate Lands(read: string -> Option<nat>, x: seq<string>, y: seq<string>) {
    x == [] || (Width(read, x + y) <= |x| && Lands(read, x[Width(read, x + y)..], y))
  }

  lemma {:induction false} SameFront(read: string -> Option<nat>, x: seq<string>, y: seq<string>)
    requires x != [] && Width(read, x + y) <= |x|
    ensures Width(read, x) == Width(read, x + y) && FirstOut(read, x + y) == FirstOut(read, x)
  {
    assert (x + y)[0] == x[0];
  }

  /** The stream parses in two parts where the scan stops between them. */
  lemma {:induction false} Split(read: string -> Option<nat>, x: seq<string>, y: seq<string>)
    requires Lands(read, x, y)
    ensures Rewrite(read, x + y) == Rewrite(read, x) + Rewrite(read, y)
  {
    if x == [] {
      assert x + y == y;
    } else {
      var n := Width(read, x + y);
      SameFront(read, x, y);
      RewriteStep(read, x);
      Split(read, x[n..], y);
      SplitStep(read, x, y, Rewrite(read, x[n..]), Rewrite(read, y));
    }
  }

  lemma {:induction false} SplitStep(
    read: string -> Option<nat>, x: seq<string>, y: seq<string>, u: seq<string>, v: seq<string>)
    requires x != [] && Width(read, x + y) <= |x| && Rewrite(read, x[Width(read, x + y)..] + y) == u + v
    ensures Rewrite(read, x + y) == [FirstOut(read, x)] + u + v
  {
    var n := Width(read, x + y);
    SameFront(read, x, y);
    RewriteStep(read, x + y);
    assert (x + y)[n..] == x[n..] + y;
  }

  lemma {:induction false} NumeralHasNoPoint(n: nat)
    ensures forall i :: 0 <= i < |Str(n)| ==> Str(n)[i] != '.'
  {
    assert IsNumeral(Str(n));
  }

  lemma PointDiffers(m: nat, s: string, n: nat)
    ensures Str(m) + "." + s != Str(n)
  {
    NumeralHasNoPoint(n);
    assert (Str(m) + "." + s)[|Str(m)|] == '.';
  }

  /** A decimal across the cut changes a token of x. */
  lemma {:induction false} CutDecimalShows(read: string -> Option<nat>, x: seq<string>, y: seq<string>)
    requires !Lands(read, x, y)
    ensures !(Rewrite(read, x) <= Rewrite(read, x + y))
  {
    var n := Width(read, x + y);
    RewriteStep(read, x);
    RewriteStep(read, x + y);
    if n <= |x| {
      SameFront(read, x, y);
      CutDecimalShows(read, x[n..], y);
      assert (x + y)[n..] == x[n..] + y;
      NoPrefixBehind(FirstOut(read, x), Rewrite(read, x[n..]), Rewrite(read, x[n..] + y));
    } else {
      assert (x + y)[0] == x[0] && StartsDecimal(read, x + y) && !StartsDecimal(read, x);
      PointDiffers(read(x[0]).value, Str(read((x + y)[2]).value), read(x[0]).value);
      assert Rewrite(read, x)[0] == FirstOut(read, x) != FirstOut(read, x + y) == Rewrite(read, x + y)[0];
    }
  }

  lemma NoPrefixBehind(t: string, u: seq<string>, v: seq<string>)
    requires !(u <= v)
    ensures !([t] + u <= [t] + v)
  {
    assert ([t] + u)[1..] == u && ([t] + v)[1..] == v;
  }

  /** The two parts parse as they would alone exactly when no decimal the scan takes lies across the cut. */
  lemma SplitsIffLands(read: string -> Option<nat>, x: seq<string>, y: seq<string>)
    ensures Rewrite(read, x + y) == Rewrite(read, x) + Rewrite(read, y) <==> Lands(read, x, y)
    ensures Rewrite(read, x) <= Rewrite(read, x + y) <==> Lands(read, x, y)
  {
    if Lands(read, x, y) {
      Split(read, x, y);
    } else {
      CutDecimalShows(read, x, y);
    }
  }

  /** "A komma B" is the one token A.B, with both sides as they would be alone, exactly when the scan comes to A. */
  lemma DecimalInContext(x: seq<string>, a: string, b: string, y: seq<string>)
    requires ParseDe(a).Some? && ParseDe(b).Some?
    ensures DeNumbers(x + ([a, "komma", b] + y))
         == DeNumbers(x) + [Str(ParseDe(a).value) + "." + Str(ParseDe(b).value)] + DeNumbers(y)
       <==> Lands(ParseDe, x, [a, "komma", b] + y)
  {
    var z := [a, "komma", b] + y;
    assert z[3..] == y;
    RewriteStep(ParseDe, z);
    SplitsIffLands(ParseDe, x, z);
    Associate(DeNumbers(x), [FirstOut(ParseDe, z)], DeNumbers(y));
  }

  lemma Associate<T>(x: seq<T>, y: seq<T>, z: seq<T>)
    ensures x + (y + z) == x + y + z
  {
  }

  /**
   A spelled number is its numeral, with both sides as they would be alone, exactly when the scan
   comes to it and it does not begin a decimal.
   */
  lemma RoundTrip(x: seq<string>, n: nat, st: Styles, y: seq<string>)
    requires n < 1_000_000
    ensures DeNumbers(x + ([Spell(n, st)] + y)) == DeNumbers(x) + [Str(n)] + DeNumbers(y)
       <==> Lands(ParseDe, x, [Spell(n, st)] + y) && !StartsDecimal(ParseDe, [Spell(n, st)] + y)
  {
    var z := [Spell(n, st)] + y;
    ParseOfSpell(n, st);
    assert z[0] == Spell(n, st) && z[1..] == y;
    RewriteStep(ParseDe, z);
    SplitsIffLands(ParseDe, x, z);
    Associate(DeNumbers(x), [Str(n)], DeNumbers(y));
    if Lands(ParseDe, x, z) && StartsDecimal(ParseDe, z) {
      DecimalIsNotNumeral(DeNumbers(x), FirstOut(ParseDe, z), Rewrite(ParseDe, z[3..]), n, DeNumbers(y), Str(ParseDe(z[2]).value));
    }
  }

  lemma DecimalIsNotNumeral(x: seq<string>, t: string, u: seq<string>, n: nat, v: seq<string>, s: string)
    requires t == Str(n) + "." + s
    ensures x + ([t] + u) != x + [Str(n)] + v
  {
    PointDiffers(n, s, n);
    assert (x + ([t] + u))[|x|] == t && (x + [Str(n)] + v)[|x|] == Str(n);
  }

  /**
   Two cuts inside what looks like a decimal: after "zwei komma drei komma" the scan comes to the
   next number, for the first "komma" has taken drei; and "zwei" before a "komma" that no number
   follows is rewritten by itself.
   */
  lemma CutsThatLand(read: string -> Option<nat>, a: string, b: string, w: string)
    requires read(a).Some? && read(b).Some? && read(w) == None && read("komma") == None
    ensures forall y :: Lands(read, [a, "komma", b, "komma"], y)
    ensures Lands(read, [a], ["komma", w])
  {
    forall y ensures Lands(read, [a, "komma", b, "komma"], y) {
      var x := [a, "komma", b, "komma"];
      assert StartsDecimal(read, x + y) && x[3..] == ["komma"] && ["komma"][1..] == [];
      assert Width(read, ["komma"] + y) == 1;
      assert Lands(read, x[3..], y);
    }
    assert !StartsDecimal(read, [a] + ["komma", w]) && [a][1..] == [];
  }

  lemma DannIsNoNumber()
    ensures ParseDe("dann") == None
  {
    var w := "dann";
    IrregularStrips(w);
    assert EndingLength(w) == 0 && Strip(w) == w;
    FirstInGroup(w, false);
    assert w[1] == 'a';
    ScanIsStuck(MORPHS, w, START);
  }

  lemma UnitIsRead(v: nat)
    requires 2 <= v <= 9
    ensures ParseDe(Unit(v, false)) == Some(v)
  {
    var st := Styles(Style(false, false, false, false, false), Style(false, false, false, false, false), false, false);
    assert Prefix(v, st) == "" && Tail100(v, true, st.low) == Unit(v, false);
    assert Spell(v, st) == Unit(v, false);
    ParseOfSpell(v, st);
  }

  lemma SmallWordsAreRead()
    ensures ParseDe("zwei") == Some(2) && ParseDe("drei") == Some(3)
    ensures ParseDe("fünf") == Some(5) && ParseDe("sechs") == Some(6)
  {
    UnitIsRead(2);
    UnitIsRead(3);
    UnitIsRead(5);
    UnitIsRead(6);
  }

  function Point(m: nat, n: nat): string {
    Str(m) + "." + Str(n)
  }

  lemma {:induction false} DecimalAndKomma(read: string -> Option<nat>, a: string, b: string, m: nat, n: nat)
    requires read(a) == Some(m) && read(b) == Some(n) && read("komma") == None
    ensures Rewrite(read, [a, "komma", b, "komma"]) == [Point(m, n), "komma"]
  {
    var x := [a, "komma", b, "komma"];
    assert x[3..] == ["komma"] && ["komma"][1..] == [];
    RewriteStep(read, x);
    RewriteStep(read, ["komma"]);
  }

  lemma {:induction false} DecimalFirst(read: string -> Option<nat>, a: string, b: string, m: nat, n: nat, y: seq<string>)
    requires read(a) == Some(m) && read(b) == Some(n)
    ensures Rewrite(read, [a, "komma", b] + y) == [Point(m, n)] + Rewrite(read, y)
  {
    assert ([a, "komma", b] + y)[3..] == y;
    RewriteStep(read, [a, "komma", b] + y);
  }

  lemma {:induction false} DecimalsInARow(
    read: string -> Option<nat>, a: string, b: string, c: string, d: string, j: nat, k: nat, m: nat, n: nat, y: seq<string>)
    requires read(a) == Some(j) && read(b) == Some(k) && read(c) == Some(m) && read(d) == Some(n) && read("komma") == None
    ensures Rewrite(read, [a, "komma", b, "komma"] + ([c, "komma", d] + y)) == [Point(j, k), "komma"] + [Point(m, n)] + Rewrite(read, y)
  {
    CutsThatLand(read, a, b, "komma");
    Split(read, [a, "komma", b, "komma"], [c, "komma", d] + y);
    DecimalAndKomma(read, a, b, j, k);
    DecimalFirst(read, c, d, m, n, y);
    Associate([Point(j, k), "komma"], [Point(m, n)], Rewrite(read, y));
  }

  /** "zwei komma drei komma fünf komma sechs" is 2.3, komma, 5.6: the second decimal is met although a number and "komma" come before it. */
  lemma TwoDecimals(y: seq<string>)
    ensures DeNumbers(["zwei", "komma", "drei", "komma"] + (["fünf", "komma", "sechs"] + y))
         == [Point(2, 3), "komma"] + [Point(5, 6)] + DeNumbers(y)
  {
    SmallWordsAreRead();
    KommaIsNoNumber();
    DecimalsInARow(ParseDe, "zwei", "drei", "fünf", "sechs", 2, 3, 5, 6, y);
  }

  lemma {:induction false} NumberAndWord(read: string -> Option<nat>, a: string, w: string, n: nat)
    requires read(a) == Some(n) && read(w) == None && read("komma") == None
    ensures Rewrite(read, [a, "komma", w]) == [Str(n), "komma", w]
  {
    CutsThatLand(read, a, a, w);
    Split(read, [a], ["komma", w]);
    assert [a] + ["komma", w] == [a, "komma", w] && [a][1..] == [];
    RewriteStep(read, [a]);
    UnparsedIsKept(read, ["komma", w]);
  }

  /** "zwei komma dann" is 2, komma, dann: no decimal begins at a "komma" that no number follows. */
  lemma NumberBeforeKomma()
    ensures DeNumbers(["zwei", "komma", "dann"]) == [Str(2), "komma", "dann"]
  {
    SmallWordsAreRead();
    KommaIsNoNumber();
    DannIsNoNumber();
    NumberAndWord(ParseDe, "zwei", "dann", 2);
  }
}
