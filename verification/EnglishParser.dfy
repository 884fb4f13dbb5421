/** The English parser as the loops it is written in, proved against `English.EnNumbers`. */
module EnglishParser {
  import opened Decimal
  import opened English

  /** The recursive call's answer is one numeral below 100. */
  predicate IsYearSecond(second: seq<string>) {
    |second| == 1 && IsNumeral(second[0]) && Int(second[0]) < 100
  }

  lemma OneWord(lex: Lexicon, w: string)
    requires Wf(lex) && IsSmall(KindOf(lex, w))
    ensures if KindOf(lex, w).Oh? then EnNumbers(lex, [w]) == [w] && !IsNumeral(w)
            else IsOneNumber(lex, [w]) && Scan(lex, [w], START).acc.Value() == KindOf(lex, w).v < 100
                 && EnNumbers(lex, [w]) == [Str(KindOf(lex, w).v)]
  {
    assert [w][1..] == [];
    assert EnNumbers(lex, []) == [];
  }

  /** Scanning two unit or tens words: the second joins the first or stays behind. */
  lemma ScanTwo(lex: Lexicon, w: string, x: string)
    requires Wf(lex) && StartsNumber(lex, [w]) && IsSmall(KindOf(lex, x))
    ensures var a := START.(current := KindOf(lex, w).v);
            var m := Advance(KindOf(lex, x), false, a);
            && !m.Last?
            && Scan(lex, [w, x], START) == (if m.Take? then Scanned(m.acc, []) else Scanned(a, [x]))
            && (m.Take? ==> m.acc.Value() < 100)
  {
    assert [w, x][1..] == [x];
    var a := START.(current := KindOf(lex, w).v);
    assert Scan(lex, [w, x], START) == Scan(lex, [x], a);
    ScanLast(lex, x, a);
  }

  lemma ScanLast(lex: Lexicon, x: string, a: Acc)
    requires Wf(lex) && IsSmall(KindOf(lex, x)) && a.total == 0 && a.current < 100
    ensures var m := Advance(KindOf(lex, x), false, a);
            && !m.Last?
            && Scan(lex, [x], a) == (if m.Take? then Scanned(m.acc, []) else Scanned(a, [x]))
            && (m.Take? ==> m.acc.Value() < 100)
  {
    assert [x][1..] == [];
  }

  lemma {:induction false} TwoWords(lex: Lexicon, w: string, x: string)
    requires Wf(lex) && IsSmall(KindOf(lex, w)) && IsSmall(KindOf(lex, x))
    ensures IsYearSecond(EnNumbers(lex, [w, x])) == IsOneNumber(lex, [w, x])
    ensures IsOneNumber(lex, [w, x]) ==> Int(EnNumbers(lex, [w, x])[0]) == Scan(lex, [w, x], START).acc.Value()
  {
    assert [w, x][1..] == [x];
    OneWord(lex, x);
    if KindOf(lex, w) == Oh {
      assert Next(lex, [w, x]) == Step(w, [x]);
    } else {
      OneWord(lex, w);
      ScanTwo(lex, w, x);
      var s := Scan(lex, [w, x], START);
      if s.rest == [] {
        IntOfStr(s.acc.Value());
        assert Next(lex, [w, x]) == Step(Str(s.acc.Value()), []);
      } else {
        StopsAtSecond(lex, s, x);
        assert Next(lex, [w, x]) == Emit(lex, s);
      }
    }
  }

  lemma StopsAtSecond(lex: Lexicon, s: Scanned, x: string)
    requires Wf(lex) && IsSmall(KindOf(lex, x)) && s.rest == [x]
    ensures !IsYearSecond([Emit(lex, s).token] + EnNumbers(lex, Emit(lex, s).rest))
  {
    OneWord(lex, x);
    EmitBeforeOne(lex, s, x);
    if YearFirst(s) && IsOneNumber(lex, [x]) {
      var year := s.acc.Value() * 100 + KindOf(lex, x).v;
      IntOfStr(year);
      assert EnNumbers(lex, []) == [];
    } else {
      assert |EnNumbers(lex, [x])| == 1;
    }
  }

  lemma OneHalf(lex: Lexicon, x: string)
    requires IsSmall(KindOf(lex, x))
    ensures YearHalf(lex, [x]) == [x]
  {
    assert [x][1..] == [];
  }

  lemma EmitBeforeOne(lex: Lexicon, s: Scanned, x: string)
    requires Wf(lex) && IsSmall(KindOf(lex, x)) && s.rest == [x]
    ensures Emit(lex, s) == if YearFirst(s) && IsOneNumber(lex, [x])
                            then Step(Str(s.acc.Value() * 100 + KindOf(lex, x).v), [])
                            else Step(Str(s.acc.Value()), [x])
  {
    OneHalf(lex, x);
    if YearFirst(s) && IsOneNumber(lex, [x]) {
      OneWord(lex, x);
      EmitFirstHalf(lex, s, [x], true, KindOf(lex, x).v);
      assert s.rest[1..] == [];
    } else if YearFirst(s) {
      EmitFirstHalf(lex, s, [x], false, 0);
    } else {
      EmitAlone(lex, s);
    }
  }

  lemma EmitFirstHalf(lex: Lexicon, s: Scanned, nxt: seq<string>, isYear: bool, half: nat)
    requires nxt == YearHalf(lex, s.rest) && nxt != [] && s.acc.pureSmall && 10 <= s.acc.Value() <= 99
    requires isYear == IsOneNumber(lex, nxt) && (isYear ==> half == Scan(lex, nxt, START).acc.Value())
    ensures Emit(lex, s) == if isYear then Step(Str(s.acc.Value() * 100 + half), s.rest[|nxt|..])
                            else Step(Str(s.acc.Value()), s.rest)
  {
    assert s.rest != [];
  }

  lemma EmitAlone(lex: Lexicon, s: Scanned)
    requires !YearFirst(s) || YearHalf(lex, s.rest) == []
    ensures Emit(lex, s) == Step(Str(s.acc.Value()), s.rest)
  {
  }

  /** The self-call on a year's second half answers with one numeral below 100 exactly when that half is one number. */
  lemma SelfCallAgrees(lex: Lexicon, nxt: seq<string>)
    requires Wf(lex) && 1 <= |nxt| <= 2 && forall w :: w in nxt ==> IsSmall(KindOf(lex, w))
    ensures IsYearSecond(EnNumbers(lex, nxt)) == IsOneNumber(lex, nxt)
    ensures IsOneNumber(lex, nxt) ==> Int(EnNumbers(lex, nxt)[0]) == Scan(lex, nxt, START).acc.Value()
  {
    if |nxt| == 1 {
      assert nxt == [nxt[0]];
      OneWord(lex, nxt[0]);
      if KindOf(lex, nxt[0]) != Oh { IntOfStr(KindOf(lex, nxt[0]).v); }
    } else {
      assert nxt == [nxt[0], nxt[1]];
      TwoWords(lex, nxt[0], nxt[1]);
    }
  }

  lemma YearHalfIsSlice(lex: Lexicon, toks: seq<string>, j: nat, k: nat)
    requires j <= k <= |toks| && k <= j + 2
    requires forall l :: j <= l < k ==> IsSmall(KindOf(lex, toks[l]))
    requires k == |toks| || k == j + 2 || !IsSmall(KindOf(lex, toks[k]))
    ensures YearHalf(lex, toks[j..]) == toks[j..k]
  {
    if j < |toks| {
      assert toks[j..][1..] == toks[j + 1..];
    }
  }

  /** `_en_numbers`, its self-call included; it terminates on every token list. */
  method ParseEnglish(lex: Lexicon, toks: seq<string>) returns (out: seq<string>)
    requires Wf(lex)
    ensures out == EnNumbers(lex, toks)
    decreases |toks|, 1
  {
    out := [];
    var i := 0;
    while i < |toks|
      invariant 0 <= i <= |toks|
      invariant out + EnNumbers(lex, toks[i..]) == EnNumbers(lex, toks)
    {
      var token, after := NextFrom(lex, toks, i);
      Emitted(lex, out, toks[i..], token, toks[after..]);
      out, i := out + [token], after;
    }
  }

  lemma Emitted(lex: Lexicon, out: seq<string>, todo: seq<string>, token: string, rest: seq<string>)
    requires todo != [] && Next(lex, todo) == Step(token, rest)
    ensures out + EnNumbers(lex, todo) == out + [token] + EnNumbers(lex, rest)
  {
  }

  /** One turn of the outer loop: the token it appends and where it goes on. */
  method NextFrom(lex: Lexicon, toks: seq<string>, i: nat) returns (token: string, after: nat)
    requires Wf(lex) && i < |toks|
    ensures i < after <= |toks|
    ensures Next(lex, toks[i..]) == Step(token, toks[after..])
    decreases |toks|, 0, 1
  {
    var k := KindOf(lex, toks[i]);
    assert toks[i..][1..] == toks[i + 1..];
    token, after := toks[i], i + 1;
    if k.Ordinal? {
      token := Str(k.v);
    } else if k.Unit? || k.Tens? {
      token, after := ReadNumber(lex, toks, i);
    }
  }

  /** What the number that ends at j becomes, told by the half of a year that may follow it. */
  lemma {:induction false} NumberBefore(lex: Lexicon, toks: seq<string>, i: nat, j: nat, acc: Acc, nxt: seq<string>, isYear: bool, half: nat)
    requires i < |toks| && j <= |toks| && StartsNumber(lex, toks[i..])
    requires Scan(lex, toks[i..], START) == Scanned(acc, toks[j..]) && nxt == YearHalf(lex, toks[j..])
    requires isYear == (acc.pureSmall && 10 <= acc.Value() <= 99 && nxt != [] && IsOneNumber(lex, nxt))
    requires isYear ==> half == Scan(lex, nxt, START).acc.Value()
    ensures j + |nxt| <= |toks|
    ensures NextNumber(lex, toks[i..])
         == if isYear then Step(Str(acc.Value() * 100 + half), toks[j + |nxt|..]) else Step(Str(acc.Value()), toks[j..])
  {
    var s := Scanned(acc, toks[j..]);
    if acc.pureSmall && 10 <= acc.Value() <= 99 && nxt != [] {
      EmitFirstHalf(lex, s, nxt, isYear, half);
      assert toks[j..][|nxt|..] == toks[j + |nxt|..];
    } else {
      EmitAlone(lex, s);
    }
  }

  /** The number starting at i, as a year when a second half follows. */
  method ReadNumber(lex: Lexicon, toks: seq<string>, i: nat) returns (token: string, after: nat)
    requires Wf(lex) && i < |toks| && StartsNumber(lex, toks[i..])
    ensures i < after <= |toks|
    ensures NextNumber(lex, toks[i..]) == Step(token, toks[after..])
    decreases |toks|, 0, 0
  {
    var j, acc := ScanFrom(lex, toks, i);
    var nxt := SecondHalf(lex, toks, j);
    var isYear, half := false, 0;
    if acc.pureSmall && 10 <= acc.Value() <= 99 && nxt != [] {
      var second := ParseEnglish(lex, nxt);
      isYear := |second| == 1 && IsNumeral(second[0]) && Int(second[0]) < 100;
      SelfCallAgrees(lex, nxt);
      if isYear {
        half := Int(second[0]);
      }
    }
    NumberBefore(lex, toks, i, j, acc, nxt, isYear, half);
    if isYear {
      token, after := Str(acc.Value() * 100 + half), j + |nxt|;
    } else {
      token, after := Str(acc.Value()), j;
    }
  }

  /** The inner loop: where the number starting at i ends, and what it adds up to. */
  method ScanFrom(lex: Lexicon, toks: seq<string>, i: nat) returns (j: nat, acc: Acc)
    requires i < |toks| && StartsNumber(lex, toks[i..])
    ensures i < j <= |toks|
    ensures Scan(lex, toks[i..], START) == Scanned(acc, toks[j..])
  {
    j, acc := i, START;
    while j < |toks|
      invariant i <= j <= |toks|
      invariant j == i ==> acc == START
      invariant Scan(lex, toks[j..], acc) == Scan(lex, toks[i..], START)
    {
      assert toks[j..][1..] == toks[j + 1..];
      match Advance(KindOf(lex, toks[j]), SmallFirst(lex, toks[j + 1..]), acc) {
        case Take(b) =>
          acc, j := b, j + 1;
        case Last(b) =>
          acc, j := b, j + 1;
          return;
        case Stop =>
          break;
      }
    }
  }

  /** Up to two unit or tens words from j. */
  method SecondHalf(lex: Lexicon, toks: seq<string>, j: nat) returns (nxt: seq<string>)
    requires j <= |toks|
    ensures nxt == YearHalf(lex, toks[j..])
    ensures forall w :: w in nxt ==> IsSmall(KindOf(lex, w))
  {
    nxt := [];
    var k := j;
    while k < |toks| && IsSmall(KindOf(lex, toks[k])) && |nxt| < 2
      invariant j <= k <= |toks| && |nxt| == k - j <= 2
      invariant nxt == toks[j..k]
      invariant forall l :: j <= l < k ==> IsSmall(KindOf(lex, toks[l]))
      decreases |toks| - k
    {
      nxt := nxt + [toks[k]];
      k := k + 1;
    }
    YearHalfIsSlice(lex, toks, j, k);
  }
}
