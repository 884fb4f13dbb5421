/** The English tables of number words. */
module EnglishTables {
  import opened Decimal
  import opened English
  import opened EnglishProofs

  const UNITS: Lexicon := map[
    "zero" := Unit(0), "oh" := Oh, "one" := Unit(1), "two" := Unit(2), "three" := Unit(3),
    "four" := Unit(4), "five" := Unit(5), "six" := Unit(6), "seven" := Unit(7), "eight" := Unit(8),
    "nine" := Unit(9), "ten" := Unit(10), "eleven" := Unit(11), "twelve" := Unit(12),
    "thirteen" := Unit(13), "fourteen" := Unit(14), "fifteen" := Unit(15), "sixteen" := Unit(16),
    "seventeen" := Unit(17), "eighteen" := Unit(18), "nineteen" := Unit(19)]

  const TENS: Lexicon := map[
    "twenty" := Tens(20), "thirty" := Tens(30), "forty" := Tens(40), "fifty" := Tens(50),
    "sixty" := Tens(60), "seventy" := Tens(70), "eighty" := Tens(80), "ninety" := Tens(90)]

  const ORDINALS_LOW: Lexicon := map[
    "first" := Ordinal(1), "second" := Ordinal(2), "third" := Ordinal(3), "fourth" := Ordinal(4),
    "fifth" := Ordinal(5), "sixth" := Ordinal(6), "seventh" := Ordinal(7), "eighth" := Ordinal(8),
    "ninth" := Ordinal(9), "tenth" := Ordinal(10), "eleventh" := Ordinal(11), "twelfth" := Ordinal(12),
    "thirteenth" := Ordinal(13), "fourteenth" := Ordinal(14)]

  const ORDINALS_HIGH: Lexicon := map[
    "fifteenth" := Ordinal(15), "sixteenth" := Ordinal(16), "seventeenth" := Ordinal(17),
    "eighteenth" := Ordinal(18), "nineteenth" := Ordinal(19), "twentieth" := Ordinal(20),
    "thirtieth" := Ordinal(30), "fortieth" := Ordinal(40), "fiftieth" := Ordinal(50),
    "sixtieth" := Ordinal(60), "seventieth" := Ordinal(70), "eightieth" := Ordinal(80),
    "ninetieth" := Ordinal(90), "hundredth" := Ordinal(100), "thousandth" := Ordinal(1000)]

  const ORDINALS: Lexicon := ORDINALS_LOW + ORDINALS_HIGH

  const CONNECTIVES: Lexicon := map["hundred" := Hundred, "thousand" := Thousand, "and" := And]

  const ENGLISH: Lexicon := ORDINALS + TENS + UNITS + CONNECTIVES

  lemma UnitsAreUnits()
    ensures forall t :: t in UNITS ==> WfKind(UNITS[t])
  {
  }

  lemma UnitsAreWords()
    ensures forall t :: t in UNITS ==> !IsNumeral(t)
  {
    forall t | t in UNITS ensures !IsNumeral(t) { assert t[0] >= 'a'; }
  }

  lemma UnitsAreWf()
    ensures Wf(UNITS)
  {
    UnitsAreUnits();
    UnitsAreWords();
  }

  lemma TensAreWf()
    ensures Wf(TENS)
  {
    assert forall t :: t in TENS ==> WfKind(TENS[t]);
    forall t | t in TENS ensures !IsNumeral(t) { assert t[0] >= 'a'; }
  }

  lemma OrdinalsAreWf()
    ensures Wf(ORDINALS)
  {
    LowOrdinalsAreWf();
    HighOrdinalsAreWf();
    WfUnion(ORDINALS_LOW, ORDINALS_HIGH);
  }

  lemma LowOrdinalsAreWf()
    ensures Wf(ORDINALS_LOW)
  {
    assert forall t :: t in ORDINALS_LOW ==> WfKind(ORDINALS_LOW[t]);
    forall t | t in ORDINALS_LOW ensures !IsNumeral(t) { assert t[0] >= 'a'; }
  }

  lemma HighOrdinalsAreWf()
    ensures Wf(ORDINALS_HIGH)
  {
    assert forall t :: t in ORDINALS_HIGH ==> WfKind(ORDINALS_HIGH[t]);
    forall t | t in ORDINALS_HIGH ensures !IsNumeral(t) { assert t[0] >= 'a'; }
  }

  lemma ConnectivesAreWf()
    ensures Wf(CONNECTIVES)
  {
    forall t | t in CONNECTIVES ensures !IsNumeral(t) { assert !IsDigit(t[0]); }
  }

  lemma WfUnion(a: Lexicon, b: Lexicon)
    requires Wf(a) && Wf(b)
    ensures Wf(a + b)
  {
  }

  lemma EnglishIsWf()
    ensures Wf(ENGLISH)
  {
    UnitsAreWf();
    TensAreWf();
    OrdinalsAreWf();
    ConnectivesAreWf();
    WfUnion(ORDINALS, TENS);
    WfUnion(ORDINALS + TENS, UNITS);
    WfUnion(ORDINALS + TENS + UNITS, CONNECTIVES);
  }

  // ---------------------------------------------------------------- every number can be spoken

  function UnitWord(v: nat): string
    requires v < 20
  {
    ["zero", "one", "two", "three", "four", "five", "six", "seven", "eight", "nine", "ten", "eleven",
     "twelve", "thirteen", "fourteen", "fifteen", "sixteen", "seventeen", "eighteen", "nineteen"][v]
  }

  function TensWord(v: nat): string
    requires 2 <= v <= 9
  {
    ["twenty", "thirty", "forty", "fifty", "sixty", "seventy", "eighty", "ninety"][v - 2]
  }

  function WordOf(k: Kind): string {
    match k
    case Unit(v) => if v < 20 then UnitWord(v) else ""
    case Tens(v) => if 20 <= v < 100 then TensWord(v / 10) else ""
    case Hundred => "hundred"
    case Thousand => "thousand"
    case _ => "and"
  }

  lemma UnitWordIsUnit(v: nat)
    requires v < 20
    ensures UnitWord(v) in UNITS && UNITS[UnitWord(v)] == Unit(v)
  {
  }

  lemma TensWordIsTens(v: nat)
    requires 2 <= v <= 9
    ensures TensWord(v) in TENS && TENS[TensWord(v)] == Tens(v * 10)
  {
  }

  lemma UnitWordIsNoConnective(v: nat)
    requires v < 20
    ensures UnitWord(v) !in CONNECTIVES
  {
  }

  lemma TensWordIsNothingElse(v: nat)
    requires 2 <= v <= 9
    ensures TensWord(v) !in UNITS && TensWord(v) !in CONNECTIVES
  {
  }

  lemma ConnectiveKinds()
    ensures "hundred" in CONNECTIVES && CONNECTIVES["hundred"] == Hundred
    ensures "thousand" in CONNECTIVES && CONNECTIVES["thousand"] == Thousand
    ensures "and" in CONNECTIVES && CONNECTIVES["and"] == And
  {
  }

  lemma LookUp(a: Lexicon, b: Lexicon, c: Lexicon, d: Lexicon, t: string)
    ensures t in d ==> KindOf(a + b + c + d, t) == d[t]
    ensures t in c && t !in d ==> KindOf(a + b + c + d, t) == c[t]
    ensures t in b && t !in c && t !in d ==> KindOf(a + b + c + d, t) == b[t]
  {
  }

  lemma KindOfUnitWord(v: nat)
    requires v < 20
    ensures KindOf(ENGLISH, UnitWord(v)) == Unit(v)
  {
    UnitWordIsUnit(v);
    UnitWordIsNoConnective(v);
    LookUp(ORDINALS, TENS, UNITS, CONNECTIVES, UnitWord(v));
  }

  lemma KindOfTensWord(v: nat)
    requires 2 <= v <= 9
    ensures KindOf(ENGLISH, TensWord(v)) == Tens(v * 10)
  {
    TensWordIsTens(v);
    TensWordIsNothingElse(v);
    LookUp(ORDINALS, TENS, UNITS, CONNECTIVES, TensWord(v));
  }

  lemma KindOfHundred()
    ensures KindOf(ENGLISH, "hundred") == Hundred
  {
    ConnectiveKinds();
    LookUp(ORDINALS, TENS, UNITS, CONNECTIVES, "hundred");
  }

  lemma KindOfThousand()
    ensures KindOf(ENGLISH, "thousand") == Thousand
  {
    ConnectiveKinds();
    LookUp(ORDINALS, TENS, UNITS, CONNECTIVES, "thousand");
  }

  /** A word of a spelling: anything but "and". */
  predicate IsSpelt(k: Kind) {
    WfKind(k) && (k.Unit? || k.Tens? || k.Hundred? || k.Thousand?)
  }

  lemma KindOfWord(k: Kind)
    requires IsSpelt(k)
    ensures KindOf(ENGLISH, WordOf(k)) == k
  {
    match k
    case Unit(v) => KindOfUnitWord(v);
    case Tens(v) => KindOfTensWord(v / 10);
    case Hundred => KindOfHundred();
    case Thousand => KindOfThousand();
  }

  function WordsOf(ks: seq<Kind>): seq<string> {
    if ks == [] then [] else [WordOf(ks[0])] + WordsOf(ks[1..])
  }

  lemma {:induction false} WordsSayTheirKinds(lex: Lexicon, ks: seq<Kind>, armed: bool)
    requires forall k :: k in ks ==> k != And && KindOf(lex, WordOf(k)) == k
    ensures var ws := WordsOf(ks);
            Kinds(lex, ws) == ks && WithoutAnd(lex, ws) == ws && AndsPlaced(lex, ws, armed)
  {
    if ks != [] {
      assert ks[0] in ks;
      forall k | k in ks[1..] ensures k != And && KindOf(lex, WordOf(k)) == k { assert k in ks; }
      WordsSayTheirKinds(lex, ks[1..], armed || ks[0] == Hundred || ks[0] == Thousand);
      assert WordsOf(ks)[1..] == WordsOf(ks[1..]);
    }
  }

  lemma Below1000IsSpelt(n: nat)
    requires n < 1000
    ensures forall k :: k in Below1000(n) ==> IsSpelt(k)
  {
    forall k | n >= 100 && n % 100 != 0 && k in Below100(n % 100) ensures IsSpelt(k) {}
  }

  lemma SpellingIsSpelt(n: nat)
    requires n < 1_000_000
    ensures forall k :: k in Spelling(n) ==> IsSpelt(k)
  {
    if n < 1000 {
      Below1000IsSpelt(n);
    } else {
      Below1000IsSpelt(n / 1000);
      Below1000IsSpelt(n % 1000);
    }
  }

  /** Every number below a million has words in the tables, and they parse back to it. */
  lemma EveryNumberIsSpoken(n: nat)
    requires n < 1_000_000
    ensures Speaks(ENGLISH, WordsOf(Spelling(n)), n)
    ensures EnNumbers(ENGLISH, WordsOf(Spelling(n))) == [Str(n)]
  {
    SpellingIsSpelt(n);
    forall k | k in Spelling(n) ensures k != And && KindOf(ENGLISH, WordOf(k)) == k {
      KindOfWord(k);
    }
    WordsSayTheirKinds(ENGLISH, Spelling(n), false);
    ParseOfSpoken(ENGLISH, WordsOf(Spelling(n)), n);
  }
}
