/** Which spoken English ordinals are one number. */
module EnglishOrdinals {
  import opened Decimal
  import opened English
  import opened EnglishProofs

  // ---------------------------------------------------------------- the last word of a spelling

  /** What the last word of a spelling is worth by itself, and the number that the words before it say; 0 when there are none. */
  function Last100(t: nat): nat {
    if t < 20 || t % 10 == 0 then t else t % 10
  }

  function Before100(t: nat): nat {
    if t < 20 || t % 10 == 0 then 0 else t / 10 * 10
  }

  function Last1000(r: nat): nat {
    if r % 100 == 0 then 100 else Last100(r % 100)
  }

  function Before1000(r: nat): nat {
    if r % 100 == 0 then r / 100 else r / 100 * 100 + Before100(r % 100)
  }

  function LastWord(n: nat): nat {
    if n % 1000 == 0 then 1000 else Last1000(n % 1000)
  }

  function Before(n: nat): nat {
    if n % 1000 == 0 then n / 1000 else n / 1000 * 1000 + Before1000(n % 1000)
  }

  function WordOf(v: nat): Kind {
    if v == 1000 then Thousand else if v == 100 then Hundred else if v < 20 then Unit(v) else Tens(v)
  }

  lemma PartsOf100(h: nat, b: nat)
    requires b < 100
    ensures (h * 100 + b) / 100 == h && (h * 100 + b) % 100 == b
  {
  }

  lemma PartsOf1000(m: nat, b: nat)
    requires b < 1000
    ensures (m * 1000 + b) / 1000 == m && (m * 1000 + b) % 1000 == b
  {
  }

  lemma Below100EndsIn(t: nat)
    requires 0 < t < 100
    ensures Before100(t) < 100 && Before100(t) % 10 == 0
    ensures Below100(t) == (if Before100(t) == 0 then [] else Below100(Before100(t))) + [WordOf(Last100(t))]
  {
  }

  lemma Below1000EndsIn(r: nat)
    requires 0 < r < 1000
    ensures Before1000(r) < 1000
    ensures Below1000(r) == (if Before1000(r) == 0 then [] else Below1000(Before1000(r))) + [WordOf(Last1000(r))]
  {
    var h, t := r / 100, r % 100;
    if t != 0 {
      Below100EndsIn(t);
      PartsOf100(h, Before100(t));
    }
  }

  /** Both functions are those of the spelling. */
  lemma SpellingEndsIn(n: nat)
    requires 0 < n < 1_000_000
    ensures Before(n) < 1_000_000
    ensures Spelling(n) == (if Before(n) == 0 then [] else Spelling(Before(n))) + [WordOf(LastWord(n))]
  {
    var m, r := n / 1000, n % 1000;
    if r != 0 {
      Below1000EndsIn(r);
      PartsOf1000(m, Before1000(r));
    }
  }

  // ---------------------------------------------------------------- an ordinal after a number

  /** An ordinal joins the number before it only as a unit right after a ten. */
  predicate OrdinalJoins(m: nat, v: nat) {
    m % 100 >= 20 && m % 10 == 0 && v < 10
  }

  lemma EndsOf(n: nat)
    ensures n % 1000 % 100 == n % 100 && n % 1000 % 10 == n % 10
    ensures n / 1000 * 1000 + n % 1000 == n
  {
    var m, r := n / 1000, n % 1000;
    RemainderIs100(n, 10 * m + r / 100, r % 100);
    RemainderIs10(n, 100 * m + r / 10, r % 10);
  }

  /** What an ordinal word does to the scan of a spoken number. */
  lemma {:induction false} ScanToOrdinal(lex: Lexicon, ws: seq<string>, m: nat, link: seq<string>, o: string)
    requires Speaks(lex, ws, m) && KindOf(lex, o).Ordinal?
    requires link == [] || (|link| == 1 && KindOf(lex, link[0]) == And)
    ensures var s := Scan(lex, ws + (link + [o]), START);
            var v := KindOf(lex, o).v;
            if link == [] && OrdinalJoins(m, v) then s.acc.Value() == m + v && s.rest == []
            else s == Scanned(Spoken(m), link + [o])
  {
    ScanAfterSpoken(lex, ws, m, link + [o]);
    EndsOf(m);
    if link == [] {
      assert link + [o] == [o];
    } else {
      assert (link + [o])[1..] == [o] && !SmallFirst(lex, [o]);
    }
  }

  lemma {:induction false} OrdinalsOutput(lex: Lexicon, link: seq<string>, o: string)
    requires KindOf(lex, o).Ordinal?
    requires link == [] || (|link| == 1 && KindOf(lex, link[0]) == And)
    ensures EnNumbers(lex, link + [o]) == link + [Str(KindOf(lex, o).v)]
    ensures YearHalf(lex, link + [o]) == []
  {
    assert [o][1..] == [];
    assert EnNumbers(lex, [o]) == [Str(KindOf(lex, o).v)];
    if link == [] {
      assert link + [o] == [o];
    } else {
      assert (link + [o])[1..] == [o];
    }
  }

  /** An ordinal word after a spoken number, perhaps with "and" between them. */
  lemma OrdinalAfterNumber(lex: Lexicon, ws: seq<string>, m: nat, link: seq<string>, o: string)
    requires Speaks(lex, ws, m) && KindOf(lex, o).Ordinal?
    requires link == [] || (|link| == 1 && KindOf(lex, link[0]) == And)
    ensures EnNumbers(lex, ws + (link + [o]))
         == if link == [] && OrdinalJoins(m, KindOf(lex, o).v) then [Str(m + KindOf(lex, o).v)]
            else [Str(m)] + link + [Str(KindOf(lex, o).v)]
  {
    NextAtOrdinal(lex, ws, m, link, o);
    OrdinalsOutput(lex, link, o);
    FirstOutput(lex, ws + (link + [o]));
  }

  lemma NextAtOrdinal(lex: Lexicon, ws: seq<string>, m: nat, link: seq<string>, o: string)
    requires Speaks(lex, ws, m) && KindOf(lex, o).Ordinal?
    requires link == [] || (|link| == 1 && KindOf(lex, link[0]) == And)
    ensures Next(lex, ws + (link + [o])) == if link == [] && OrdinalJoins(m, KindOf(lex, o).v)
                                            then Step(Str(m + KindOf(lex, o).v), []) else Step(Str(m), link + [o])
  {
    var v := KindOf(lex, o).v;
    ScanToOrdinal(lex, ws, m, link, o);
    OrdinalsOutput(lex, link, o);
    ScanAfterSpoken(lex, ws, m, link + [o]);
    EndsOf(m);
    NextOfNumber(lex, ws + (link + [o]));
    NoYear(lex, Scan(lex, ws + (link + [o]), START));
  }

  // ---------------------------------------------------------------- spoken ordinals

  /** ws says n as an ordinal: the last word is one, perhaps after an "and", and what comes before is said as a cardinal. */
  predicate SpeaksOrdinal(lex: Lexicon, front: seq<string>, link: seq<string>, o: string, n: nat) {
    && 0 < n < 1_000_000 && KindOf(lex, o) == Ordinal(LastWord(n))
    && if Before(n) == 0 then front == link == []
       else Speaks(lex, front, Before(n)) && (link == [] || (|link| == 1 && KindOf(lex, link[0]) == And))
  }

  /** The ordinals that are one word, or end in a unit right after a ten. */
  predicate IsOneOrdinal(n: nat) {
    n < 100 || (n % 100 > 20 && n % 10 != 0)
  }

  lemma OneOrdinalJoins(n: nat)
    requires n > 0
    ensures Before(n) == 0 ==> IsOneOrdinal(n) && LastWord(n) == n
    ensures Before(n) != 0 ==> (OrdinalJoins(Before(n), LastWord(n)) <==> IsOneOrdinal(n))
    ensures IsOneOrdinal(n) ==> Before(n) + LastWord(n) == n
  {
    EndsOf(n);
    if n % 100 != 0 {
      TensAndUnits(n / 1000, n % 1000 / 100, n % 100);
    }
  }

  lemma TensAndUnits(m: nat, h: nat, t: nat)
    requires 0 < t < 100
    ensures var b := m * 1000 + (h * 100 + Before100(t));
            && b + Last100(t) == m * 1000 + h * 100 + t
            && (OrdinalJoins(b, Last100(t)) <==> t > 20 && t % 10 != 0)
  {
    RemainderIs100(m * 1000 + (h * 100 + Before100(t)), 10 * m + h, Before100(t));
    RemainderIs10(m * 1000 + (h * 100 + Before100(t)), 100 * m + 10 * h + Before100(t) / 10, 0);
  }

  /**
   Which spoken ordinals are one number, anywhere between plain tokens: those below a hundred and
   those that end in a unit after a ten. Any other gives the number before its last word and the
   last word by itself, and an "and" before the last word keeps them apart.
   */
  lemma OrdinalIsOneNumber(lex: Lexicon, before: seq<string>, front: seq<string>, link: seq<string>, o: string, n: nat, after: seq<string>)
    requires SpeaksOrdinal(lex, front, link, o, n)
    requires EndsPlain(lex, before) && StartsPlain(lex, after)
    ensures EnNumbers(lex, before + (front + (link + [o])) + after)
         == EnNumbers(lex, before)
          + (if link == [] && IsOneOrdinal(n) then [Str(n)] else [Str(Before(n))] + link + [Str(LastWord(n))])
          + EnNumbers(lex, after)
  {
    var ws := front + (link + [o]);
    SplitBeforePlain(lex, before + ws, after);
    SplitAfterPlain(lex, before, ws);
    OneOrdinalJoins(n);
    if Before(n) == 0 {
      OrdinalsOutput(lex, link, o);
      assert ws == link + [o];
    } else {
      OrdinalAfterNumber(lex, front, Before(n), link, o);
    }
  }
}
