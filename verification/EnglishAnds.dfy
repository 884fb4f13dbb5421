/** When the English parser drops an "and" that belongs to no number. */
module EnglishAnds {
  import opened Decimal
  import opened English
  import opened EnglishProofs

  /**
   The unit or tens word that follows the "and" cannot join a number whose last digits are those of
   n: it has no value, or n's last two digits leave no room for it.
   */
  predicate CannotJoin(k: Kind, n: nat) {
    || k.Oh?
    || (k.Tens? && n % 100 != 0)
    || (k.Unit? && n % 100 != 0 && !(n % 100 >= 20 && n % 10 == 0 && k.v < 10))
  }

  predicate IsAnd(lex: Lexicon, t: string) {
    KindOf(lex, t) == And
  }

  /** The scan takes the "and" alone exactly when the word behind it cannot join. */
  lemma AndIsTakenAlone(lex: Lexicon, t: string, tail: seq<string>, a: Acc)
    requires !a.pureSmall && IsAnd(lex, t) && SmallFirst(lex, tail)
    ensures Scan(lex, [t] + tail, a) == Scan(lex, tail, a)
    ensures Scan(lex, tail, a) == Scanned(a, tail) <==> CannotJoin(KindOf(lex, tail[0]), a.current)
  {
    assert ([t] + tail)[1..] == tail;
  }

  lemma {:induction false} ScanGrows(lex: Lexicon, ws: seq<string>, a: Acc)
    ensures Scan(lex, ws, a).acc.Value() >= a.Value()
  {
    if ws != [] {
      match Advance(KindOf(lex, ws[0]), SmallFirst(lex, ws[1..]), a)
      case Take(b) => ScanGrows(lex, ws[1..], b);
      case _ =>
    }
  }

  /** A word that joins adds its value. */
  lemma JoiningAdds(lex: Lexicon, ws: seq<string>, a: Acc)
    requires SmallFirst(lex, ws) && !CannotJoin(KindOf(lex, ws[0]), a.current)
    ensures Scan(lex, ws, a).acc.Value() >= a.Value() + KindOf(lex, ws[0]).v
  {
    ScanGrows(lex, ws[1..], a.(current := a.current + KindOf(lex, ws[0]).v));
  }

  lemma SameEnds(n: nat)
    ensures n % 1000 % 100 == n % 100 && n % 1000 % 10 == n % 10 && Spoken(n).Value() == n
  {
    var m, r := n / 1000, n % 1000;
    RemainderIs100(n, 10 * m + r / 100, r % 100);
    RemainderIs10(n, 100 * m + r / 10, r % 10);
  }

  /** The "and" stays, between the number and what follows, exactly when the lookahead refuses it. */
  predicate IsRefused(lex: Lexicon, n: nat, tail: seq<string>) {
    n < 100 || !SmallFirst(lex, tail)
  }

  /** The "and" is gone, and what follows is not part of the number either. */
  predicate IsLost(lex: Lexicon, n: nat, tail: seq<string>) {
    !IsRefused(lex, n, tail) && CannotJoin(KindOf(lex, tail[0]), n)
  }

  lemma NextIfRefused(lex: Lexicon, ws: seq<string>, n: nat, t: string, tail: seq<string>)
    requires Speaks(lex, ws, n) && IsAnd(lex, t) && IsRefused(lex, n, tail)
    ensures Next(lex, ws + ([t] + tail)) == Step(Str(n), [t] + tail)
  {
    var x := [t] + tail;
    assert x[1..] == tail;
    ScanAfterSpoken(lex, ws, n, x);
    assert Scan(lex, x, Spoken(n)) == Scanned(Spoken(n), x);
    NextOfNumber(lex, ws + x);
    SameEnds(n);
    assert YearHalf(lex, x) == [];
  }

  lemma {:induction false} NextIfTaken(lex: Lexicon, ws: seq<string>, n: nat, t: string, tail: seq<string>)
    requires Speaks(lex, ws, n) && IsAnd(lex, t) && !IsRefused(lex, n, tail)
    ensures var s := Scan(lex, tail, Spoken(n));
            && Next(lex, ws + ([t] + tail)) == Step(Str(s.acc.Value()), s.rest)
            && (s == Scanned(Spoken(n), tail) <==> IsLost(lex, n, tail))
  {
    ScanAfterSpoken(lex, ws, n, [t] + tail);
    SameEnds(n);
    AndIsTakenAlone(lex, t, tail, Spoken(n));
    StaysBig(lex, tail, Spoken(n));
    NextOfNumber(lex, ws + ([t] + tail));
  }

  /** After a "hundred" or "thousand" the number is no half of a year. */
  lemma {:induction false} StaysBig(lex: Lexicon, ws: seq<string>, a: Acc)
    requires !a.pureSmall
    ensures !Scan(lex, ws, a).acc.pureSmall
  {
    if ws != [] {
      match Advance(KindOf(lex, ws[0]), SmallFirst(lex, ws[1..]), a)
      case Take(b) => StaysBig(lex, ws[1..], b);
      case _ =>
    }
  }

  lemma StrIsInjective(m: nat, n: nat)
    requires Str(m) == Str(n)
    ensures m == n
  {
    IntOfStr(m);
    IntOfStr(n);
  }

  lemma AndIsCopied(lex: Lexicon, t: string, tail: seq<string>)
    requires IsAnd(lex, t)
    ensures EnNumbers(lex, [t] + tail) == [t] + EnNumbers(lex, tail)
  {
    assert ([t] + tail)[1..] == tail;
    assert Next(lex, [t] + tail) == Step(t, tail);
  }

  /** At most one of the three ways an "and" can go fits an output whose numeral tells. */
  lemma OneWay(out: seq<string>, num: string, t: string, e: seq<string>, refused: bool, lost: bool, tells: bool)
    requires !(refused && lost) && out != []
    requires refused ==> out == [num] + ([t] + e)
    requires lost ==> out == [num] + e
    requires !refused && !lost && tells ==> out[0] != num
    ensures refused ==> out == [num, t] + e
    ensures tells ==> (out == [num, t] + e <==> refused) && (out == [num] + e <==> lost)
  {
    assert [num, t] + e == [num] + ([t] + e);
    assert |[num, t] + e| == |[num] + e| + 1;
    assert ([num, t] + e)[0] == num && ([num] + e)[0] == num;
  }

  /**
   An "and" after a spoken number stays exactly when it is refused, and is dropped without joining
   anything exactly when it is lost. Only from a zero that joins can the output not tell: it adds
   nothing to the numeral (ZeroIsLost); what is read tells even then (NextIfTaken).
   */
  lemma {:induction false} AndAfterNumber(lex: Lexicon, ws: seq<string>, n: nat, t: string, tail: seq<string>)
    requires Wf(lex) && Speaks(lex, ws, n) && IsAnd(lex, t)
    ensures var out, e := EnNumbers(lex, ws + ([t] + tail)), EnNumbers(lex, tail);
            && (IsRefused(lex, n, tail) ==> out == [Str(n), t] + e)
            && (IsLost(lex, n, tail) ==> out == [Str(n)] + e)
            && (tail == [] || KindOf(lex, tail[0]) != Unit(0) ==>
                  && (out == [Str(n), t] + e <==> IsRefused(lex, n, tail))
                  && (out == [Str(n)] + e <==> IsLost(lex, n, tail)))
  {
    var out := AndOutput(lex, ws, n, t, tail);
    OneWay(out, Str(n), t, EnNumbers(lex, tail), IsRefused(lex, n, tail), IsLost(lex, n, tail),
           tail == [] || KindOf(lex, tail[0]) != Unit(0));
  }

  lemma {:induction false} AndOutput(lex: Lexicon, ws: seq<string>, n: nat, t: string, tail: seq<string>) returns (out: seq<string>)
    requires Wf(lex) && Speaks(lex, ws, n) && IsAnd(lex, t)
    ensures out == EnNumbers(lex, ws + ([t] + tail)) && out != []
    ensures IsRefused(lex, n, tail) ==> out == [Str(n)] + ([t] + EnNumbers(lex, tail))
    ensures IsLost(lex, n, tail) ==> out == [Str(n)] + EnNumbers(lex, tail)
    ensures !IsRefused(lex, n, tail) && !IsLost(lex, n, tail) && KindOf(lex, tail[0]) != Unit(0) ==> out[0] != Str(n)
  {
    var toks := ws + ([t] + tail);
    FirstOutput(lex, toks);
    out := EnNumbers(lex, toks);
    if IsRefused(lex, n, tail) {
      NextIfRefused(lex, ws, n, t, tail);
      AndIsCopied(lex, t, tail);
    } else {
      NextIfTaken(lex, ws, n, t, tail);
      if !IsLost(lex, n, tail) && KindOf(lex, tail[0]) != Unit(0) {
        JoinedDiffers(lex, n, tail);
      }
    }
  }

  lemma {:induction false} JoinedDiffers(lex: Lexicon, n: nat, tail: seq<string>)
    requires Wf(lex) && SmallFirst(lex, tail) && KindOf(lex, tail[0]) != Unit(0)
    requires !CannotJoin(KindOf(lex, tail[0]), n)
    ensures Str(Scan(lex, tail, Spoken(n)).acc.Value()) != Str(n)
  {
    SameEnds(n);
    JoiningAdds(lex, tail, Spoken(n));
    if Str(Scan(lex, tail, Spoken(n)).acc.Value()) == Str(n) {
      StrIsInjective(Scan(lex, tail, Spoken(n)).acc.Value(), n);
    }
  }

  // ---------------------------------------------------------------- two numbers the "and" is lost between

  /** "one hundred and oh" becomes 100 and "oh", "one hundred five and six" becomes 105 and 6. */
  lemma LostAnds(lex: Lexicon, ws: seq<string>, t: string, w: string)
    requires Wf(lex) && IsAnd(lex, t)
    ensures Speaks(lex, ws, 100) && KindOf(lex, w) == Oh ==> EnNumbers(lex, ws + ([t] + [w])) == [Str(100), w]
    ensures Speaks(lex, ws, 105) && KindOf(lex, w) == Unit(6) ==> EnNumbers(lex, ws + ([t] + [w])) == [Str(105), Str(6)]
  {
    assert [w][1..] == [];
    if Speaks(lex, ws, 100) && KindOf(lex, w) == Oh {
      AndAfterNumber(lex, ws, 100, t, [w]);
      assert EnNumbers(lex, [w]) == [w];
    } else if Speaks(lex, ws, 105) && KindOf(lex, w) == Unit(6) {
      AndAfterNumber(lex, ws, 105, t, [w]);
      UnitAlone(lex, w);
      NextOfNumber(lex, [w]);
      assert EnNumbers(lex, [w]) == [Str(6)];
    }
  }

  lemma UnitStops(lex: Lexicon, w: string, a: Acc)
    requires KindOf(lex, w).Unit? && KindOf(lex, w).v >= 10 && a.current % 100 != 0
    ensures Scan(lex, [w], a) == Scanned(a, [w])
  {
  }

  lemma ZeroAddsNothing(lex: Lexicon, z: string, rest: seq<string>, a: Acc)
    requires KindOf(lex, z) == Unit(0) && (a.current % 100 == 0 || (a.current % 100 >= 20 && a.current % 10 == 0))
    ensures Scan(lex, [z] + rest, a) == Scan(lex, rest, a)
  {
    assert ([z] + rest)[1..] == rest;
  }

  lemma UnitAlone(lex: Lexicon, w: string)
    requires KindOf(lex, w).Unit?
    ensures Scan(lex, [w], START) == Scanned(Acc(0, KindOf(lex, w).v, true), [])
  {
    assert [w][1..] == [];
  }

  lemma SameNumber(lex: Lexicon, x: seq<string>, y: seq<string>)
    requires StartsNumber(lex, x) && StartsNumber(lex, y) && Scan(lex, x, START) == Scan(lex, y, START)
    ensures EnNumbers(lex, x) == EnNumbers(lex, y)
  {
    NextOfNumber(lex, x);
    NextOfNumber(lex, y);
  }

  /**
   "one hundred twenty and zero fifteen": the zero joins 120, and yet what follows reads as it
   would with the zero.
   */
  lemma {:induction false} ZeroIsLost(lex: Lexicon, ws: seq<string>, n: nat, t: string, z: string, w: string)
    requires Wf(lex) && Speaks(lex, ws, n) && n >= 100 && n % 100 >= 20 && n % 10 == 0
    requires IsAnd(lex, t) && KindOf(lex, z) == Unit(0) && KindOf(lex, w).Unit? && KindOf(lex, w).v >= 10
    ensures var tail := [z] + [w];
            !IsLost(lex, n, tail) && EnNumbers(lex, ws + ([t] + tail)) == [Str(n)] + EnNumbers(lex, tail)
  {
    var tail := [z] + [w];
    SameEnds(n);
    UnitStops(lex, w, Spoken(n));
    ZeroAddsNothing(lex, z, [w], Spoken(n));
    NextIfTaken(lex, ws, n, t, tail);
    FirstOutput(lex, ws + ([t] + tail));
    ZeroAddsNothing(lex, z, [w], START);
    SameNumber(lex, tail, [w]);
  }
}
