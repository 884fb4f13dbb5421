/** The Ukrainian tables: all forms of the cardinals and of "thousand", all ordinal stems and endings. */
module UkrainianTables {
  import opened Decimal
  import opened Ukrainian
  import opened UkrainianProofs

  const SMALL: map<string, nat> := map[
    "нуль" := 0, "один" := 1, "два" := 2, "три" := 3, "чотири" := 4, "п'ять" := 5, "шість" := 6,
    "сім" := 7, "вісім" := 8, "дев'ять" := 9, "десять" := 10, "одинадцять" := 11, "дванадцять" := 12,
    "тринадцять" := 13, "чотирнадцять" := 14, "п'ятнадцять" := 15, "шістнадцять" := 16,
    "сімнадцять" := 17, "вісімнадцять" := 18, "дев'ятнадцять" := 19]

  const TENS: map<string, nat> := map[
    "двадцять" := 20, "тридцять" := 30, "сорок" := 40, "п'ятдесят" := 50, "шістдесят" := 60,
    "сімдесят" := 70, "вісімдесят" := 80, "дев'яносто" := 90]

  const HUNDREDS: map<string, nat> := map[
    "сто" := 100, "двісті" := 200, "триста" := 300, "чотириста" := 400, "п'ятсот" := 500,
    "шістсот" := 600, "сімсот" := 700, "вісімсот" := 800, "дев'ятсот" := 900]

  /** The further forms of a cardinal, and its value. */
  type Row = (seq<string>, nat)

  const FORMS1: seq<Row> := [
    (["нуля", "нулю"], 0),
    (["одна", "одне", "одного", "одному", "одній", "одним", "одною", "одної", "одні", "одних"], 1),
    (["дві", "двох", "двом", "двома"], 2), (["трьох", "трьом", "трьома"], 3),
    (["чотирьох", "чотирьом", "чотирма"], 4)]

  const FORMS2: seq<Row> := [
    (["п'яти", "п'ятьох", "п'ятьом", "п'ятьма", "п'ятьома"], 5),
    (["шести", "шістьох", "шістьом", "шістьма", "шістьома"], 6),
    (["семи", "сімох", "сімом", "сьома", "сімома"], 7),
    (["восьми", "вісьмох", "вісьмом", "вісьма", "вісьмома"], 8),
    (["дев'яти", "дев'ятьох", "дев'ятьом", "дев'ятьма", "дев'ятьома"], 9)]

  const FORMS3: seq<Row> := [
    (["десяти", "десятьох", "десятьом", "десятьма", "десятьома"], 10), (["одинадцяти", "одинадцятьма"], 11),
    (["дванадцяти", "дванадцятьма"], 12), (["тринадцяти", "тринадцятьма"], 13),
    (["чотирнадцяти", "чотирнадцятьма"], 14), (["п'ятнадцяти", "п'ятнадцятьма"], 15),
    (["шістнадцяти", "шістнадцятьма"], 16), (["сімнадцяти", "сімнадцятьма"], 17),
    (["вісімнадцяти", "вісімнадцятьма"], 18), (["дев'ятнадцяти", "дев'ятнадцятьма"], 19)]

  const FORMS4: seq<Row> := [
    (["двадцяти", "двадцятьма"], 20), (["тридцяти", "тридцятьма"], 30), (["сорока"], 40),
    (["п'ятдесяти", "п'ятдесятьма"], 50), (["шістдесяти", "шістдесятьма"], 60),
    (["сімдесяти", "сімдесятьма"], 70), (["вісімдесяти", "вісімдесятьма"], 80), (["дев'яноста"], 90)]

  const FORMS5: seq<Row> := [
    (["ста"], 100), (["двохсот", "двомстам", "двомастами"], 200),
    (["трьохсот", "трьомстам", "трьомастами"], 300), (["чотирьохсот", "чотирьомстам"], 400)]

  const FORMS6: seq<Row> := [
    (["п'ятисот", "п'ятистам"], 500), (["шестисот", "шестистам"], 600), (["семисот", "семистам"], 700),
    (["восьмисот", "восьмистам"], 800), (["дев'ятисот", "дев'ятистам"], 900)]

  const FORMS: seq<Row> := FORMS1 + FORMS2 + FORMS3 + FORMS4 + FORMS5 + FORMS6

  function WithForms(m: map<string, nat>, forms: seq<string>, v: nat): map<string, nat> {
    if forms == [] then m else WithForms(m, forms[..|forms| - 1], v)[forms[|forms| - 1] := v]
  }

  /** Every form of every row, with its value. */
  function TableOf(rows: seq<Row>): map<string, nat> {
    if rows == [] then map[] else WithForms(TableOf(rows[..|rows| - 1]), rows[|rows| - 1].0, rows[|rows| - 1].1)
  }

  const THOUSANDS := {"тисяча", "тисячі", "тисяч", "тисячу", "тисячею", "тисячам", "тисячами"}

  const STEMS: seq<(string, nat)> := [
    ("дев'ятнадцят", 19), ("чотирнадцят", 14), ("вісімнадцят", 18), ("п'ятнадцят", 15), ("шістнадцят", 16),
    ("вісімдесят", 80), ("одинадцят", 11), ("дванадцят", 12), ("тринадцят", 13), ("сімнадцят", 17),
    ("п'ятдесят", 50), ("шістдесят", 60), ("дев'яност", 90), ("сімдесят", 70), ("четверт", 4),
    ("двадцят", 20), ("тридцят", 30), ("сороков", 40), ("дев'ят", 9), ("тисячн", 1000), ("восьм", 8),
    ("десят", 10), ("перш", 1), ("друг", 2), ("трет", 3), ("п'ят", 5), ("шост", 6), ("сьом", 7),
    ("сот", 100)]

  const ENDINGS := {"ий", "ій", "ого", "ому", "ої", "ою", "ім", "им", "их", "ими", "іх", "іми", "а", "я", "е", "є", "і", "у", "ю"}

  const NOMINATIVES := HUNDREDS + TENS + SMALL

  const UKRAINIAN := Tables(TableOf(FORMS) + NOMINATIVES, THOUSANDS, STEMS, ENDINGS)

  predicate WfCardinals(m: map<string, nat>) {
    forall t :: t in m ==> !IsNumeral(t) && (m[t] >= 20 ==> m[t] % 10 == 0)
  }

  lemma SmallIsWf()
    ensures WfCardinals(SMALL)
  {
    assert forall t :: t in SMALL ==> SMALL[t] < 20;
    forall t | t in SMALL ensures !IsNumeral(t) { assert !IsDigit(t[0]); }
  }

  lemma TensAreWf()
    ensures WfCardinals(TENS)
  {
    assert forall t :: t in TENS ==> TENS[t] % 10 == 0;
    forall t | t in TENS ensures !IsNumeral(t) { assert !IsDigit(t[0]); }
  }

  lemma HundredsAreWf()
    ensures WfCardinals(HUNDREDS)
  {
    assert forall t :: t in HUNDREDS ==> HUNDREDS[t] % 10 == 0;
    forall t | t in HUNDREDS ensures !IsNumeral(t) { assert !IsDigit(t[0]); }
  }

  lemma ThousandsAreWf()
    ensures forall t :: t in THOUSANDS ==> !IsNumeral(t)
  {
    forall t | t in THOUSANDS ensures !IsNumeral(t) { assert !IsDigit(t[0]); }
  }

  lemma WfUnion(a: map<string, nat>, b: map<string, nat>)
    requires WfCardinals(a) && WfCardinals(b)
    ensures WfCardinals(a + b)
  {
  }

  lemma StemsAreWf()
    ensures forall i :: 0 <= i < |STEMS| ==>
              STEMS[i].0 != "" && !IsDigit(STEMS[i].0[0]) && (STEMS[i].1 >= 20 ==> STEMS[i].1 % 10 == 0)
  {
  }

  lemma NominativesAreWf()
    ensures WfCardinals(NOMINATIVES)
  {
    SmallIsWf();
    TensAreWf();
    HundredsAreWf();
    WfUnion(HUNDREDS, TENS);
    WfUnion(HUNDREDS + TENS, SMALL);
  }

  predicate StartsWithLetter(t: string) {
    t != "" && !IsDigit(t[0])
  }

  predicate RowIsWf(row: Row) {
    (forall i :: 0 <= i < |row.0| ==> StartsWithLetter(row.0[i])) && (row.1 >= 20 ==> row.1 % 10 == 0)
  }

  predicate RowsAreWf(rows: seq<Row>) {
    forall i :: 0 <= i < |rows| ==> RowIsWf(rows[i])
  }

  lemma {:induction false} FormsKeepWf(m: map<string, nat>, forms: seq<string>, v: nat)
    requires WfCardinals(m) && RowIsWf((forms, v))
    ensures WfCardinals(WithForms(m, forms, v))
  {
    if forms != [] {
      FormsKeepWf(m, forms[..|forms| - 1], v);
      assert StartsWithLetter(forms[|forms| - 1]);
    }
  }

  lemma {:induction false} TableIsWf(rows: seq<Row>)
    requires RowsAreWf(rows)
    ensures WfCardinals(TableOf(rows))
  {
    if rows != [] {
      TableIsWf(rows[..|rows| - 1]);
      FormsKeepWf(TableOf(rows[..|rows| - 1]), rows[|rows| - 1].0, rows[|rows| - 1].1);
    }
  }

  lemma Forms1AreWf()
    ensures RowsAreWf(FORMS1)
  {
  }

  lemma Forms2AreWf()
    ensures RowsAreWf(FORMS2)
  {
  }

  lemma Forms3AreWf()
    ensures RowsAreWf(FORMS3)
  {
  }

  lemma Forms4AreWf()
    ensures RowsAreWf(FORMS4)
  {
  }

  lemma Forms5AreWf()
    ensures RowsAreWf(FORMS5)
  {
  }

  lemma Forms6AreWf()
    ensures RowsAreWf(FORMS6)
  {
  }

  lemma FormsAreWf()
    ensures WfCardinals(TableOf(FORMS))
  {
    Forms1AreWf();
    Forms2AreWf();
    Forms3AreWf();
    Forms4AreWf();
    Forms5AreWf();
    Forms6AreWf();
    TableIsWf(FORMS);
  }

  lemma UkrainianIsWf()
    ensures Wf(UKRAINIAN)
  {
    FormsAreWf();
    NominativesAreWf();
    WfUnion(TableOf(FORMS), NOMINATIVES);
    ThousandsAreWf();
    StemsAreWf();
  }

  // ---------------------------------------------------------------- every number can be spoken

  function WordOf(w: Word): string {
    match w
    case Times1000 => "тисяч"
    case Adds(v) =>
      if v < 20 then
        ["нуль", "один", "два", "три", "чотири", "п'ять", "шість", "сім", "вісім", "дев'ять", "десять",
         "одинадцять", "дванадцять", "тринадцять", "чотирнадцять", "п'ятнадцять", "шістнадцять",
         "сімнадцять", "вісімнадцять", "дев'ятнадцять"][v]
      else if v < 100 then
        ["двадцять", "тридцять", "сорок", "п'ятдесят", "шістдесят", "сімдесят", "вісімдесят", "дев'яносто"][v / 10 - 2]
      else if v < 1000 then
        ["сто", "двісті", "триста", "чотириста", "п'ятсот", "шістсот", "сімсот", "вісімсот", "дев'ятсот"][v / 100 - 1]
      else ""
  }

  /** A place value that has a word of its own. */
  predicate IsPlaceValue(v: nat) {
    v < 20 || (v < 100 && v % 10 == 0) || (v < 1000 && v % 100 == 0)
  }

  lemma SmallWord(v: nat)
    requires v < 20
    ensures WordOf(Adds(v)) in SMALL && SMALL[WordOf(Adds(v))] == v
  {
  }

  lemma TensWord(v: nat)
    requires 20 <= v < 100 && v % 10 == 0
    ensures WordOf(Adds(v)) in TENS && TENS[WordOf(Adds(v))] == v
  {
  }

  lemma HundredsWord(v: nat)
    requires 100 <= v < 1000 && v % 100 == 0
    ensures WordOf(Adds(v)) in HUNDREDS && HUNDREDS[WordOf(Adds(v))] == v
  {
  }

  lemma SmallIsNoThousand(v: nat)
    requires v < 20
    ensures WordOf(Adds(v)) !in THOUSANDS
  {
  }

  lemma TensIsNothingElse(v: nat)
    requires 20 <= v < 100 && v % 10 == 0
    ensures WordOf(Adds(v)) !in THOUSANDS && WordOf(Adds(v)) !in SMALL
  {
  }

  lemma HundredsIsNoSmall(v: nat)
    requires 100 <= v < 1000 && v % 100 == 0
    ensures WordOf(Adds(v)) !in SMALL
  {
  }

  lemma HundredsIsNothingElse(v: nat)
    requires 100 <= v < 1000 && v % 100 == 0
    ensures WordOf(Adds(v)) !in THOUSANDS && WordOf(Adds(v)) !in TENS
  {
  }

  lemma LookUp(a: map<string, nat>, b: map<string, nat>, c: map<string, nat>, t: string)
    ensures t in c ==> t in a + b + c && (a + b + c)[t] == c[t]
    ensures t in b && t !in c ==> t in a + b + c && (a + b + c)[t] == b[t]
    ensures t in a && t !in b && t !in c ==> t in a + b + c && (a + b + c)[t] == a[t]
  {
  }

  lemma SmallNominative(v: nat)
    requires v < 20
    ensures WordOf(Adds(v)) in NOMINATIVES && NOMINATIVES[WordOf(Adds(v))] == v
  {
    SmallWord(v);
    LookUp(HUNDREDS, TENS, SMALL, WordOf(Adds(v)));
  }

  lemma TensNominative(v: nat)
    requires 20 <= v < 100 && v % 10 == 0
    ensures WordOf(Adds(v)) in NOMINATIVES && NOMINATIVES[WordOf(Adds(v))] == v
  {
    TensWord(v);
    TensIsNothingElse(v);
    LookUp(HUNDREDS, TENS, SMALL, WordOf(Adds(v)));
  }

  lemma HundredsNominative(v: nat)
    requires 100 <= v < 1000 && v % 100 == 0
    ensures WordOf(Adds(v)) in NOMINATIVES && NOMINATIVES[WordOf(Adds(v))] == v
  {
    HundredsWord(v);
    HundredsIsNoSmall(v);
    HundredsIsNothingElse(v);
    LookUp(HUNDREDS, TENS, SMALL, WordOf(Adds(v)));
  }

  lemma IsNoThousand(v: nat)
    requires IsPlaceValue(v)
    ensures WordOf(Adds(v)) !in THOUSANDS
  {
    if v < 20 {
      SmallIsNoThousand(v);
    } else if v < 100 {
      TensIsNothingElse(v);
    } else {
      HundredsIsNothingElse(v);
    }
  }

  lemma InNominatives(v: nat)
    requires IsPlaceValue(v)
    ensures WordOf(Adds(v)) in NOMINATIVES && NOMINATIVES[WordOf(Adds(v))] == v
  {
    if v < 20 {
      SmallNominative(v);
    } else if v < 100 {
      TensNominative(v);
    } else {
      HundredsNominative(v);
    }
  }

  lemma BehindForms(forms: map<string, nat>, m: map<string, nat>, t: string)
    requires t in m
    ensures t in forms + m && (forms + m)[t] == m[t]
  {
  }

  lemma InCardinals(w: Word)
    requires w.Adds? && IsPlaceValue(w.v)
    ensures WordOf(w) !in THOUSANDS
    ensures WordOf(w) in UKRAINIAN.cardinals && UKRAINIAN.cardinals[WordOf(w)] == w.v
  {
    IsNoThousand(w.v);
    InNominatives(w.v);
    BehindForms(TableOf(FORMS), NOMINATIVES, WordOf(w));
  }

  lemma KindInTables(tab: Tables, t: string)
    ensures t in tab.thousands ==> KindOf(tab, t) == Thousand
    ensures t !in tab.thousands && t in tab.cardinals ==> KindOf(tab, t) == Value(tab.cardinals[t], false)
  {
  }

  lemma KindOfWord(w: Word)
    requires w.Adds? ==> IsPlaceValue(w.v)
    ensures SaysWord(KindOf(UKRAINIAN, WordOf(w)), w, false)
  {
    KindInTables(UKRAINIAN, WordOf(w));
    if w.Adds? {
      InCardinals(w);
    } else {
      assert WordOf(w) in THOUSANDS;
    }
  }

  function WordsOf(ks: seq<Word>): seq<string> {
    if ks == [] then [] else [WordOf(ks[0])] + WordsOf(ks[1..])
  }

  lemma {:induction false} WordsSayThemselves(tab: Tables, ks: seq<Word>)
    requires forall w :: w in ks ==> SaysWord(KindOf(tab, WordOf(w)), w, false)
    ensures Says(tab, WordsOf(ks), ks)
  {
    if ks != [] {
      assert ks[0] in ks;
      forall w | w in ks[1..] ensures SaysWord(KindOf(tab, WordOf(w)), w, false) { assert w in ks; }
      WordsSayThemselves(tab, ks[1..]);
      assert WordsOf(ks)[1..] == WordsOf(ks[1..]);
    }
  }

  lemma Below1000HasPlaceValues(n: nat)
    requires n < 1000
    ensures forall w :: w in Below1000(n) && w.Adds? ==> IsPlaceValue(w.v)
  {
    forall w | w in Below100(n % 100) && w.Adds? ensures IsPlaceValue(w.v) {}
    assert IsPlaceValue(n / 100 * 100);
  }

  lemma SpellingHasPlaceValues(n: nat)
    requires n < 1_000_000
    ensures forall w :: w in Spelling(n) && w.Adds? ==> IsPlaceValue(w.v)
  {
    if n < 1000 {
      Below1000HasPlaceValues(n);
    } else {
      Below1000HasPlaceValues(n / 1000);
      Below1000HasPlaceValues(n % 1000);
    }
  }

  /** Every number below a million has words in the tables, and they parse back to it. */
  lemma EveryNumberIsSpoken(n: nat)
    requires n < 1_000_000
    ensures UkNumbers(UKRAINIAN, WordsOf(Spelling(n))) == [Str(n)]
  {
    SpellingHasPlaceValues(n);
    forall w | w in Spelling(n) ensures SaysWord(KindOf(UKRAINIAN, WordOf(w)), w, false) {
      KindOfWord(w);
    }
    WordsSayThemselves(UKRAINIAN, Spelling(n));
    ParseOfSpoken(UKRAINIAN, WordsOf(Spelling(n)), n);
  }
}
