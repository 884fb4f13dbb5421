/** The matching loop undoes the spelling of a German number. */
module GermanScan {
  import opened Decimal
  import opened German
  import opened GermanMorphs

  // ---------------------------------------------------------------- one piece at a time

  lemma ScanTurn(ms: seq<Morph>, m: string, t: string, a: Acc, b: Acc)
    requires m != "" && TurnOf(ms, m + t, a) == Some(Turn(b, |m|))
    ensures Scan(ms, m + t, a) == Scan(ms, t, b)
  {
    assert (m + t)[|m|..] == t;
  }

  lemma {:induction false} StartsWithItself(p: string, x: string)
    ensures StartsWith(p + x, p)
  {
    if p != "" {
      assert (p + x)[1..] == p[1..] + x;
      StartsWithItself(p[1..], x);
    }
  }

  lemma ScanTausend(ms: seq<Morph>, t: string, a: Acc)
    ensures Scan(ms, "tausend" + t, a) == Scan(ms, t, a.Thousand())
  {
    StartsWithItself("tausend", t);
    ScanTurn(ms, "tausend", t, a, a.Thousand());
  }

  lemma ScanHundert(ms: seq<Morph>, t: string, a: Acc)
    ensures Scan(ms, "hundert" + t, a) == Scan(ms, t, a.Hundred())
  {
    var r := "hundert" + t;
    StartsWithItself("hundert", t);
    assert r[0] == 'h';
    ScanTurn(ms, "hundert", t, a, a.Hundred());
  }

  lemma ScanUnd(ms: seq<Morph>, t: string, a: Acc)
    requires a.matched
    ensures Scan(ms, "und" + t, a) == Scan(ms, t, a)
  {
    var r := "und" + t;
    StartsWithItself("und", t);
    assert r[0] == 'u';
    ScanTurn(ms, "und", t, a, a);
  }

  /** A word that starts with none of "tausend", "hundert" and "und". */
  predicate StartsMorph(r: string) {
    r != "" && r[0] !in "thu"
  }

  lemma TurnIsMorph(ms: seq<Morph>, r: string, a: Acc)
    requires StartsMorph(r)
    ensures TurnOf(ms, r, a) == MorphTurn(ms, r, a)
  {
  }

  lemma ScanMorph(ms: seq<Morph>, m: string, v: nat, t: string, a: Acc)
    requires StartsMorph(m) && First(ms, m + t, false) == Some((m, v)) && (t == "" || t[0] != 'u')
    ensures Scan(ms, m + t, a) == Scan(ms, t, a.Plus(v))
  {
    TurnIsMorph(ms, m + t, a);
    TurnAfterMorph(ms, m, v, t, a);
    ScanTurn(ms, m, t, a, a.Plus(v));
  }

  lemma AfterUnd(x: string)
    ensures StartsWith("und" + x, "und") && ("und" + x)[3..] == x
  {
    StartsWithItself("und", x);
  }

  lemma TakesTens(ms: seq<Morph>, m: Morph, x: string, tens: Morph, a: Acc)
    requires First(ms, x, true) == Some(tens)
    ensures WithTens(ms, m, "und" + x, a) == Turn(a.Plus(m.1 + tens.1), |m.0| + 3 + |tens.0|)
  {
    AfterUnd(x);
  }

  lemma TurnAfterMorph(ms: seq<Morph>, m: string, v: nat, nxt: string, a: Acc)
    requires First(ms, m + nxt, false) == Some((m, v))
    ensures MorphTurn(ms, m + nxt, a) == Some(WithTens(ms, (m, v), nxt, a))
  {
    assert (m + nxt)[|m|..] == nxt;
  }

  lemma TurnOfUnit(ms: seq<Morph>, m: string, v: nat, nxt: string, a: Acc)
    requires StartsMorph(m) && First(ms, m + nxt, false) == Some((m, v))
    ensures TurnOf(ms, m + nxt, a) == Some(WithTens(ms, (m, v), nxt, a))
  {
    TurnIsMorph(ms, m + nxt, a);
    TurnAfterMorph(ms, m, v, nxt, a);
  }

  lemma TurnOfUnitUndTens(ms: seq<Morph>, m: string, v: nat, tens: string, w: nat, t: string, a: Acc) returns (turn: Option<Turn>)
    requires StartsMorph(m) && First(ms, m + ("und" + (tens + t)), false) == Some((m, v))
    requires First(ms, tens + t, true) == Some((tens, w))
    ensures turn == TurnOf(ms, m + ("und" + (tens + t)), a)
    ensures turn == Some(Turn(a.Plus(v + w), |m| + 3 + |tens|))
  {
    var nxt := "und" + (tens + t);
    TurnOfUnit(ms, m, v, nxt, a);
    TakesTens(ms, (m, v), tens + t, (tens, w), a);
    turn := TurnOf(ms, m + nxt, a);
  }

  lemma Reassociate(m: string, u: string, tens: string, t: string)
    ensures m + (u + (tens + t)) == (m + u + tens) + t
  {
  }

  lemma ScanUnitUndTens(ms: seq<Morph>, m: string, v: nat, tens: string, w: nat, t: string, a: Acc)
    requires StartsMorph(m) && First(ms, m + ("und" + (tens + t)), false) == Some((m, v))
    requires First(ms, tens + t, true) == Some((tens, w))
    ensures Scan(ms, m + "und" + tens + t, a) == Scan(ms, t, a.Plus(v + w))
  {
    var turn := TurnOfUnitUndTens(ms, m, v, tens, w, t, a);
    Reassociate(m, "und", tens, t);
    ScanTurn(ms, m + "und" + tens, t, a, a.Plus(v + w));
  }

  // ---------------------------------------------------------------- spelling

  /** Independent choices of spelling: zwo or zwei, -ss- or -ß-, with or without "und", "einhundert" or "hundert". */
  datatype Style = Style(zwo: bool, ss: bool, und: bool, ein: bool, zwoHundred: bool)

  datatype Styles = Styles(high: Style, low: Style, und: bool, ein: bool)

  /** 1 to 99; a one at the end of the word is "eins", before "hundert" or "tausend" it is "ein". */
  function Below100(n: nat, final: bool, s: Style): string
    requires 0 < n < 100
  {
    if n == 1 && final then "eins"
    else if n < 10 then Unit(n, s.zwo)
    else if n < 20 then Teen(n)
    else UnitAndTens(n % 10, n / 10 * 10, s)
  }

  /** Units come before tens. */
  function UnitAndTens(u: nat, v: nat, s: Style): string
    requires u < 10 && 20 <= v <= 90 && v % 10 == 0
  {
    (if u == 0 then "" else Unit(u, s.zwo) + "und") + Tens(v, s.ss)
  }

  function Hundreds(h: nat, s: Style): string
    requires h < 10
  {
    if h == 0 then ""
    else (if h == 1 && !s.ein then "" else Unit(h, s.zwoHundred)) + "hundert"
  }

  /** The optional "und" between what precedes and a remainder. */
  function Link(high: nat, rest: nat, und: bool): string {
    if high != 0 && rest != 0 && und then "und" else ""
  }

  /** Everything before the last two digits' word. */
  function HundredsPart(n: nat, s: Style): string
    requires n < 1000
  {
    Hundreds(n / 100, s) + Link(n / 100, n % 100, s.und)
  }

  function Tail100(n: nat, final: bool, s: Style): string
    requires n < 100
  {
    if n == 0 then "" else Below100(n, final, s)
  }

  function ThousandsPart(n: nat, st: Styles): string
    requires n < 1_000_000
  {
    if n < 1000 then ""
    else (if n / 1000 == 1 && !st.ein then ""
          else HundredsPart(n / 1000, st.high) + Tail100(n / 1000 % 100, false, st.high))
         + "tausend" + Link(n / 1000, n % 1000, st.und)
  }

  /** The number but for its last two digits. */
  function Prefix(n: nat, st: Styles): string
    requires n < 1_000_000
  {
    ThousandsPart(n, st) + HundredsPart(n % 1000, st.low)
  }

  function Spell(n: nat, st: Styles): string
    requires n < 1_000_000
  {
    if n == 0 then "null" else Prefix(n, st) + Tail100(n % 100, true, st.low)
  }

  // ---------------------------------------------------------------- the loop over each part

  lemma UnitStartsMorph(v: nat, zwo: bool)
    requires 1 <= v <= 9
    ensures StartsMorph(Unit(v, zwo))
  {
  }

  lemma TeenStartsMorph(v: nat)
    requires 10 <= v <= 19
    ensures StartsMorph(Teen(v))
  {
  }

  lemma TensStartsMorph(v: nat, ss: bool)
    requires 20 <= v <= 90 && v % 10 == 0
    ensures StartsMorph(Tens(v, ss))
  {
  }

  lemma ScanUnit(v: nat, zwo: bool, t: string, a: Acc)
    requires 1 <= v <= 9 && (t == "" || t[0] in "ht")
    ensures Scan(MORPHS, Unit(v, zwo) + t, a) == Scan(MORPHS, t, a.Plus(v))
  {
    UnitStartsMorph(v, zwo);
    FirstUnit(v, zwo, t);
    ScanMorph(MORPHS, Unit(v, zwo), v, t, a);
  }

  lemma ScanTeen(n: nat, t: string, a: Acc)
    requires 10 <= n <= 19 && (t == "" || t[0] in "ht")
    ensures Scan(MORPHS, Teen(n) + t, a) == Scan(MORPHS, t, a.Plus(n))
  {
    TeenStartsMorph(n);
    FirstTeen(n, t);
    ScanMorph(MORPHS, Teen(n), n, t, a);
  }

  lemma ScanEins(a: Acc)
    ensures Scan(MORPHS, "eins" + "", a) == Scan(MORPHS, "", a.Plus(1))
  {
    FirstEins("");
    ScanMorph(MORPHS, "eins", 1, "", a);
  }

  lemma ScanBelow100(n: nat, final: bool, s: Style, t: string, a: Acc)
    requires 0 < n < 100 && (if final then t == "" else t != "" && t[0] in "ht")
    ensures Scan(MORPHS, Below100(n, final, s) + t, a) == Scan(MORPHS, t, a.Plus(n))
  {
    if n < 20 {
      ScanBelow20(n, final, s, t, a);
    } else {
      var u, v := n % 10, n / 10 * 10;
      Below100IsTens(n, final, s);
      ScanUnitAndTens(u, v, s, t, a);
      assert a.Plus(u + v) == a.Plus(n);
    }
  }

  lemma Below100IsTens(n: nat, final: bool, s: Style)
    requires 20 <= n < 100
    ensures Below100(n, final, s) == UnitAndTens(n % 10, n / 10 * 10, s)
  {
  }

  lemma ScanBelow20(n: nat, final: bool, s: Style, t: string, a: Acc)
    requires 0 < n < 20 && (if final then t == "" else t != "" && t[0] in "ht")
    ensures Scan(MORPHS, Below100(n, final, s) + t, a) == Scan(MORPHS, t, a.Plus(n))
  {
    if n == 1 && final {
      ScanEins(a);
    } else if n < 10 {
      ScanUnit(n, s.zwo, t, a);
    } else {
      ScanTeen(n, t, a);
    }
  }

  lemma ScanBareTens(v: nat, ss: bool, t: string, a: Acc)
    requires 20 <= v <= 90 && v % 10 == 0 && (t == "" || t[0] != 'u')
    ensures Scan(MORPHS, Tens(v, ss) + t, a) == Scan(MORPHS, t, a.Plus(v))
  {
    TensStartsMorph(v, ss);
    FirstTens(v, ss, t, false);
    ScanMorph(MORPHS, Tens(v, ss), v, t, a);
  }

  lemma ScanUnitTens(u: nat, zwo: bool, v: nat, ss: bool, t: string, a: Acc)
    requires 1 <= u <= 9 && 20 <= v <= 90 && v % 10 == 0
    ensures Scan(MORPHS, Unit(u, zwo) + "und" + Tens(v, ss) + t, a) == Scan(MORPHS, t, a.Plus(u + v))
  {
    UnitStartsMorph(u, zwo);
    FirstUnit(u, zwo, "und" + (Tens(v, ss) + t));
    FirstTens(v, ss, t, true);
    ScanUnitUndTens(MORPHS, Unit(u, zwo), u, Tens(v, ss), v, t, a);
  }

  lemma ScanUnitAndTens(u: nat, v: nat, s: Style, t: string, a: Acc)
    requires u < 10 && 20 <= v <= 90 && v % 10 == 0 && (t == "" || t[0] in "ht")
    ensures Scan(MORPHS, UnitAndTens(u, v, s) + t, a) == Scan(MORPHS, t, a.Plus(u + v))
  {
    if u == 0 {
      assert "" + Tens(v, s.ss) == Tens(v, s.ss);
      ScanBareTens(v, s.ss, t, a);
    } else {
      ScanUnitTens(u, s.zwo, v, s.ss, t, a);
    }
  }

  lemma ScanTail100(n: nat, final: bool, s: Style, t: string, a: Acc)
    requires n < 100 && (if final then t == "" else t != "" && t[0] in "ht")
    ensures Scan(MORPHS, Tail100(n, final, s) + t, a) == Scan(MORPHS, t, if n == 0 then a else a.Plus(n))
  {
    if n != 0 {
      ScanBelow100(n, final, s, t, a);
    } else {
      assert "" + t == t;
    }
  }

  lemma ScanHundreds(h: nat, s: Style, t: string, a: Acc)
    requires h < 10 && a.current == 0
    ensures Scan(MORPHS, Hundreds(h, s) + t, a)
         == Scan(MORPHS, t, AfterHundreds(h, a))
  {
    if h == 0 {
      assert "" + t == t;
    } else if h == 1 && !s.ein {
      assert Hundreds(h, s) == "hundert";
      ScanHundert(MORPHS, t, a);
    } else {
      var u := Unit(h, s.zwoHundred);
      assert Hundreds(h, s) + t == u + ("hundert" + t);
      ScanUnit(h, s.zwoHundred, "hundert" + t, a);
      ScanHundert(MORPHS, t, a.Plus(h));
    }
  }

  lemma ScanLink(high: nat, rest: nat, und: bool, t: string, a: Acc)
    requires high != 0 ==> a.matched
    ensures Scan(MORPHS, Link(high, rest, und) + t, a) == Scan(MORPHS, t, a)
  {
    if high != 0 && rest != 0 && und {
      ScanUnd(MORPHS, t, a);
    } else {
      assert "" + t == t;
    }
  }

  /** The accumulator after h hundreds. */
  function AfterHundreds(h: nat, a: Acc): Acc {
    if h == 0 then a else Acc(a.total, h * 100, true)
  }

  lemma ScanHundredsPart(n: nat, s: Style, t: string, a: Acc)
    requires n < 1000 && a.current == 0
    ensures Scan(MORPHS, HundredsPart(n, s) + t, a) == Scan(MORPHS, t, AfterHundreds(n / 100, a))
  {
    var h, l := Hundreds(n / 100, s), Link(n / 100, n % 100, s.und);
    assert h + l + t == h + (l + t);
    ScanHundreds(n / 100, s, l + t, a);
    ScanLink(n / 100, n % 100, s.und, t, AfterHundreds(n / 100, a));
  }

  /** Two parts in a row. */
  lemma ScanChain(ms: seq<Morph>, h: string, l: string, t: string, a: Acc, b: Acc)
    requires Scan(ms, h + (l + t), a) == Scan(ms, l + t, b)
    ensures Scan(ms, h + l + t, a) == Scan(ms, l + t, b)
  {
    assert h + l + t == h + (l + t);
  }

  /** The accumulator after n, whose hundreds are already in a. */
  lemma HundredsAndRest(n: nat)
    requires 0 < n < 1000
    ensures (if n % 100 == 0 then AfterHundreds(n / 100, START) else AfterHundreds(n / 100, START).Plus(n % 100)) == Acc(0, n, true)
  {
  }

  lemma {:induction false} ScanGroup(n: nat, s: Style, t: string)
    requires 0 < n < 1000 && t != "" && t[0] in "ht"
    ensures Scan(MORPHS, HundredsPart(n, s) + Tail100(n % 100, false, s) + t, START)
         == Scan(MORPHS, t, Acc(0, n, true))
  {
    ScanHundredsPart(n, s, Tail100(n % 100, false, s) + t, START);
    ScanChain(MORPHS, HundredsPart(n, s), Tail100(n % 100, false, s), t, START, AfterHundreds(n / 100, START));
    ScanTail100(n % 100, false, s, t, AfterHundreds(n / 100, START));
    HundredsAndRest(n);
  }

  /** The accumulator after m thousands. */
  function AfterThousands(m: nat): Acc {
    if m == 0 then START else Acc(m * 1000, 0, true)
  }

  /** What is said before "tausend" is read up to it. */
  lemma ScanToTausend(m: nat, s: Style, ein: bool, u: string)
    requires 0 < m < 1000 && u != "" && u[0] == 't'
    ensures Scan(MORPHS, (if m == 1 && !ein then "" else HundredsPart(m, s) + Tail100(m % 100, false, s)) + u, START)
         == Scan(MORPHS, u, if m == 1 && !ein then START else Acc(0, m, true))
  {
    if m == 1 && !ein {
      assert "" + u == u;
    } else {
      ScanGroup(m, s, u);
    }
  }

  lemma ScanMultiplier(m: nat, s: Style, ein: bool, t: string)
    requires 0 < m < 1000
    ensures Scan(MORPHS, (if m == 1 && !ein then "" else HundredsPart(m, s) + Tail100(m % 100, false, s)) + ("tausend" + t), START)
         == Scan(MORPHS, t, Acc(m * 1000, 0, true))
  {
    var a := if m == 1 && !ein then START else Acc(0, m, true);
    assert a.Thousand() == Acc(m * 1000, 0, true);
    ScanTausend(MORPHS, t, a);
    ScanToTausend(m, s, ein, "tausend" + t);
  }

  lemma ThousandsPartIs(n: nat, st: Styles, t: string)
    requires 1000 <= n < 1_000_000
    ensures var m := n / 1000;
            ThousandsPart(n, st) + t
            == (if m == 1 && !st.ein then "" else HundredsPart(m, st.high) + Tail100(m % 100, false, st.high))
               + ("tausend" + (Link(m, n % 1000, st.und) + t))
  {
    var m := n / 1000;
    Reassociate(if m == 1 && !st.ein then "" else HundredsPart(m, st.high) + Tail100(m % 100, false, st.high),
                "tausend", Link(m, n % 1000, st.und), t);
  }

  lemma ScanThousandsPart(n: nat, st: Styles, t: string)
    requires n < 1_000_000
    ensures Scan(MORPHS, ThousandsPart(n, st) + t, START) == Scan(MORPHS, t, AfterThousands(n / 1000))
  {
    if n < 1000 {
      assert "" + t == t;
    } else {
      var m, link := n / 1000, Link(n / 1000, n % 1000, st.und);
      ThousandsPartIs(n, st, t);
      assert Scan(MORPHS, link + t, Acc(m * 1000, 0, true)) == Scan(MORPHS, t, Acc(m * 1000, 0, true)) by {
        ScanLink(m, n % 1000, st.und, t, Acc(m * 1000, 0, true));
      }
      ScanMultiplier(m, st.high, st.ein, link + t);
    }
  }

  function AfterPrefix(n: nat): Acc {
    AfterHundreds(n % 1000 / 100, AfterThousands(n / 1000))
  }

  lemma ScanPrefix(n: nat, st: Styles, t: string)
    requires n < 1_000_000
    ensures Scan(MORPHS, Prefix(n, st) + t, START) == Scan(MORPHS, t, AfterPrefix(n))
  {
    var h, l := ThousandsPart(n, st), HundredsPart(n % 1000, st.low);
    assert h + l + t == h + (l + t);
    ScanThousandsPart(n, st, l + t);
    ScanHundredsPart(n % 1000, st.low, t, AfterThousands(n / 1000));
  }

  lemma LastTwoDigits(n: nat)
    ensures n % 1000 % 100 == n % 100
    ensures n / 1000 * 1000 + n % 1000 / 100 * 100 + n % 100 == n
  {
    var r := n % 1000;
    RemainderIs100(n, 10 * (n / 1000) + r / 100, r % 100);
  }

  lemma AfterIs(m: nat, h: nat)
    ensures var a := AfterHundreds(h, AfterThousands(m));
            a.Value() == m * 1000 + h * 100 && (m != 0 || h != 0 ==> a.matched)
  {
  }

  /** The matching loop reads a spelled number back, whatever the choices of spelling. */
  lemma ScanSpell(n: nat, st: Styles)
    requires n < 1_000_000
    ensures var r := Scan(MORPHS, Spell(n, st), START);
            r.Some? && r.value.Value() == n && r.value.matched
  {
    if n == 0 {
      ScanNull();
    } else {
      ScanPrefix(n, st, Tail100(n % 100, true, st.low));
      ScanLast(n % 100, st.low, AfterPrefix(n));
      LastTwoDigits(n);
      AfterIs(n / 1000, n % 1000 / 100);
    }
  }

  lemma ScanNull()
    ensures Scan(MORPHS, "null", START) == Some(START.Plus(0))
  {
    FirstNull("");
    assert "null" + "" == "null";
    ScanMorph(MORPHS, "null", 0, "", START);
  }

  lemma ScanLast(n: nat, s: Style, a: Acc)
    requires n < 100
    ensures Scan(MORPHS, Tail100(n, true, s), a) == Some(if n == 0 then a else a.Plus(n))
  {
    var l := Tail100(n, true, s);
    assert l + "" == l;
    ScanTail100(n, true, s, "", a);
  }
}
