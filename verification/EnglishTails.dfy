/** What the English parser makes of a spoken number and whatever tokens follow it. */
module EnglishTails {
  import opened Decimal
  import opened English
  import opened EnglishProofs

  // ---------------------------------------------------------------- hundreds counted in tens

  /** "twelve hundred and five": h hundreds, h up to 99, and t, with "and" where English allows it. */
  predicate SpeaksHundreds(lex: Lexicon, ws: seq<string>, h: nat, t: nat) {
    && 0 < h < 100 && t < 100 && AndsPlaced(lex, ws, false)
    && Kinds(lex, WithoutAnd(lex, ws)) == Below100(h) + [Hundred] + (if t == 0 then [] else Below100(t))
  }

  lemma RunHundreds(h: nat, t: nat)
    requires 0 < h < 100 && t < 100
    ensures Run(Below100(h) + [Hundred] + (if t == 0 then [] else Below100(t)), START) == Some(Acc(0, 100 * h + t, false))
  {
    var a, b := Acc(0, h, true), Acc(0, 100 * h, false);
    RunBelow100(h, START);
    RunOne(Hundred, a);
    RunConcat(Below100(h), [Hundred], START);
    RunBelow100(t, b);
    RunConcat(Below100(h) + [Hundred], if t == 0 then [] else Below100(t), START);
  }

  lemma HundredsStart(lex: Lexicon, ws: seq<string>, h: nat, t: nat)
    requires SpeaksHundreds(lex, ws, h, t)
    ensures StartsNumber(lex, ws)
  {
    var ks := Below100(h) + [Hundred] + (if t == 0 then [] else Below100(t));
    assert ks[0] == Below100(h)[0];
    assert ws != [] && KindOf(lex, ws[0]) != And;
    assert Kinds(lex, WithoutAnd(lex, ws))[0] == KindOf(lex, ws[0]);
  }

  /** A number that is read up to rest and is no first half of a year. */
  lemma ReadUpTo(lex: Lexicon, toks: seq<string>, a: Acc, rest: seq<string>)
    requires StartsNumber(lex, toks) && Scan(lex, toks, START) == Scanned(a, rest)
    requires !YearFirst(Scanned(a, rest)) || YearHalf(lex, rest) == []
    ensures EnNumbers(lex, toks) == [Str(a.Value())] + EnNumbers(lex, rest)
    ensures Next(lex, toks) == Step(Str(a.Value()), rest)
  {
    NextOfNumber(lex, toks);
    FirstOutput(lex, toks);
  }

  lemma HundredsAlone(lex: Lexicon, ws: seq<string>, h: nat, t: nat)
    requires SpeaksHundreds(lex, ws, h, t)
    ensures EnNumbers(lex, ws) == [Str(100 * h + t)]
  {
    RunHundreds(h, t);
    assert ws + [] == ws;
    ScanOn(lex, ws, [], START);
    HundredsStart(lex, ws, h, t);
    ReadUpTo(lex, ws, Acc(0, 100 * h + t, false), []);
  }

  /** Hundreds counted in tens are one number, between plain tokens or at an end. */
  lemma HundredsInTens(lex: Lexicon, before: seq<string>, ws: seq<string>, h: nat, t: nat, after: seq<string>)
    requires SpeaksHundreds(lex, ws, h, t)
    requires EndsPlain(lex, before) && StartsPlain(lex, after)
    ensures EnNumbers(lex, before + ws + after) == EnNumbers(lex, before) + [Str(100 * h + t)] + EnNumbers(lex, after)
  {
    SplitBeforePlain(lex, before + ws, after);
    SplitAfterPlain(lex, before, ws);
    HundredsAlone(lex, ws, h, t);
  }

  // ---------------------------------------------------------------- multipliers

  /** What "hundred" or "thousand" makes of n: it multiplies what was said since the last "thousand". */
  predicate Multiplies(k: Kind, n: nat, product: nat) {
    || (k == Hundred && n % 1000 != 0 && product == n / 1000 * 1000 + n % 1000 * 100)
    || (k == Thousand && n != 0 && product == (n / 1000 + (if n % 1000 == 0 then 1 else n % 1000)) * 1000)
  }

  lemma MultiplierTaken(lex: Lexicon, w: string, after: seq<string>, n: nat, product: nat) returns (a: Acc)
    requires StartsPlain(lex, after) && Multiplies(KindOf(lex, w), n, product)
    ensures Scan(lex, [w] + after, Spoken(n)) == Scanned(a, after) && a.Value() == product && !a.pureSmall
  {
    a := Advance(KindOf(lex, w), false, Spoken(n)).acc;
    assert ([w] + after)[1..] == after;
  }

  lemma Multiplied(lex: Lexicon, ws: seq<string>, n: nat, w: string, product: nat, after: seq<string>)
    requires Speaks(lex, ws, n) && Multiplies(KindOf(lex, w), n, product) && StartsPlain(lex, after)
    ensures EnNumbers(lex, ws + ([w] + after)) == [Str(product)] + EnNumbers(lex, after)
  {
    var a := MultiplierTaken(lex, w, after, n, product);
    ScanAfterSpoken(lex, ws, n, [w] + after);
    ReadUpTo(lex, ws + ([w] + after), a, after);
  }

  lemma ScanZero(lex: Lexicon, z: string, ws: seq<string>)
    requires KindOf(lex, z) == Unit(0)
    ensures Scan(lex, [z] + ws, START) == Scan(lex, ws, START) && StartsNumber(lex, [z] + ws)
  {
    assert ([z] + ws)[1..] == ws;
  }

  lemma ScanOfSpoken(lex: Lexicon, ws: seq<string>, n: nat)
    requires Speaks(lex, ws, n)
    ensures Scan(lex, ws, START) == Scanned(Spoken(n), [])
  {
    assert ws + [] == ws;
    ScanAfterSpoken(lex, ws, n, []);
  }

  /** A "zero" in front adds nothing. */
  lemma ZeroFirst(lex: Lexicon, z: string, ws: seq<string>, n: nat)
    requires KindOf(lex, z) == Unit(0) && Speaks(lex, ws, n)
    ensures EnNumbers(lex, [z] + ws) == [Str(n)]
  {
    ScanZero(lex, z, ws);
    ScanOfSpoken(lex, ws, n);
    SpokenIs(n);
    ReadUpTo(lex, [z] + ws, Spoken(n), []);
  }

  lemma SpokenIs(n: nat)
    ensures Spoken(n).Value() == n && Spoken(n).current == n % 1000
    ensures n % 1000 % 100 == n % 100 && n % 1000 % 10 == n % 10
  {
    var m, r := n / 1000, n % 1000;
    RemainderIs100(n, 10 * m + r / 100, r % 100);
    RemainderIs10(n, 100 * m + r / 10, r % 10);
  }

  // ---------------------------------------------------------------- any tail at all

  /** A token that starts no number and is no ordinal is copied, and what follows it parses as it would alone. */
  lemma InertFirst(lex: Lexicon, t: string, y: seq<string>)
    requires IsInert(lex, t)
    ensures EnNumbers(lex, [t] + y) == [t] + EnNumbers(lex, y)
  {
    assert ([t] + y)[1..] == y;
    FirstOutput(lex, [t] + y);
  }

  /** A token of kind k is part of the number n said before it; smallNext when a unit or tens word comes next. */
  predicate KindFollows(k: Kind, smallNext: bool, n: nat) {
    match k
    case Unit(u) => n % 100 == 0 || (n % 100 >= 20 && n % 10 == 0 && u < 10)
    case Tens(_) => n % 100 == 0
    case Ordinal(o) => n % 100 >= 20 && n % 10 == 0 && o < 10
    case Hundred => n % 1000 != 0
    case Thousand => n != 0
    case And => n >= 100 && smallNext
    case _ => false
  }

  predicate Follows(lex: Lexicon, tail: seq<string>, n: nat) {
    tail != [] && KindFollows(KindOf(lex, tail[0]), |tail| > 1 && IsSmall(KindOf(lex, tail[1])), n)
  }

  /** The number that one or two unit or tens words are. */
  function HalfValue(ks: seq<Kind>): Option<nat> {
    if |ks| == 1 && (ks[0].Unit? || ks[0].Tens?) then Some(ks[0].v)
    else if |ks| == 2 && ks[0].Tens? && ks[1].Unit? && ks[1].v < 10 then Some(ks[0].v + ks[1].v)
    else if |ks| == 2 && ks[0] == Unit(0) && (ks[1].Unit? || ks[1].Tens?) then Some(ks[1].v)
    else None
  }

  /** How many of the tail's first two words are unit or tens words, up to the first that is not. */
  function HalfLength(lex: Lexicon, tail: seq<string>): (k: nat)
    ensures k <= |tail|
  {
    if tail == [] || !IsSmall(KindOf(lex, tail[0])) then 0
    else if |tail| == 1 || !IsSmall(KindOf(lex, tail[1])) then 1
    else 2
  }

  function SecondHalf(lex: Lexicon, tail: seq<string>): Option<nat> {
    HalfValue(Kinds(lex, tail[..HalfLength(lex, tail)]))
  }

  lemma HalfIs(lex: Lexicon, tail: seq<string>)
    ensures YearHalf(lex, tail) == tail[..HalfLength(lex, tail)]
  {
    if tail != [] {
      assert |tail| > 1 ==> tail[1..][0] == tail[1];
    }
  }

  lemma OneWordHalf(lex: Lexicon, w: string)
    requires Wf(lex) && IsSmall(KindOf(lex, w))
    ensures IsOneNumber(lex, [w]) <==> HalfValue(Kinds(lex, [w])).Some?
    ensures IsOneNumber(lex, [w]) ==> Scan(lex, [w], START).acc.Value() == HalfValue(Kinds(lex, [w])).value
  {
    assert [w][1..] == [] && Kinds(lex, [w]) == [KindOf(lex, w)];
  }

  lemma ScanOneMore(lex: Lexicon, x: string, a: Acc)
    requires IsSmall(KindOf(lex, x))
    ensures var m := Advance(KindOf(lex, x), false, a);
            Scan(lex, [x], a) == if m.Take? then Scanned(m.acc, []) else Scanned(a, [x])
  {
    assert [x][1..] == [];
  }

  lemma ScanTwo(lex: Lexicon, w: string, x: string)
    requires Wf(lex) && IsSmall(KindOf(lex, w)) && IsSmall(KindOf(lex, x)) && KindOf(lex, w) != Oh
    ensures var m := Advance(KindOf(lex, x), false, START.(current := KindOf(lex, w).v));
            Scan(lex, [w, x], START) == if m.Take? then Scanned(m.acc, []) else Scanned(START.(current := KindOf(lex, w).v), [x])
  {
    assert [w, x][1..] == [x];
    var a := START.(current := KindOf(lex, w).v);
    assert Scan(lex, [w, x], START) == Scan(lex, [x], a);
    ScanOneMore(lex, x, a);
  }

  lemma TwoWordHalf(lex: Lexicon, w: string, x: string)
    requires Wf(lex) && IsSmall(KindOf(lex, w)) && IsSmall(KindOf(lex, x))
    ensures IsOneNumber(lex, [w, x]) <==> HalfValue(Kinds(lex, [w, x])).Some?
    ensures IsOneNumber(lex, [w, x]) ==> Scan(lex, [w, x], START).acc.Value() == HalfValue(Kinds(lex, [w, x])).value
  {
    assert Kinds(lex, [w, x]) == [KindOf(lex, w), KindOf(lex, x)] by {
      assert [w, x][1..] == [x] && [x][1..] == [];
    }
    if KindOf(lex, w) != Oh {
      ScanTwo(lex, w, x);
      JoinedHalf(KindOf(lex, w), KindOf(lex, x));
    }
  }

  lemma JoinedHalf(j: Kind, k: Kind)
    requires WfKind(j) && WfKind(k) && (j.Unit? || j.Tens?) && IsSmall(k)
    ensures var m := Advance(k, false, START.(current := j.v));
            && (m.Take? <==> HalfValue([j, k]).Some?)
            && !m.Last?
            && (m.Take? ==> m.acc.Value() == HalfValue([j, k]).value)
  {
  }

  lemma HalfIsNumber(lex: Lexicon, tail: seq<string>)
    requires Wf(lex)
    ensures var half := YearHalf(lex, tail);
            && (IsOneNumber(lex, half) <==> SecondHalf(lex, tail).Some?)
            && (IsOneNumber(lex, half) ==> Scan(lex, half, START).acc.Value() == SecondHalf(lex, tail).value)
  {
    HalfIs(lex, tail);
    if HalfLength(lex, tail) == 1 {
      assert tail[..1] == [tail[0]];
      OneWordHalf(lex, tail[0]);
    } else if HalfLength(lex, tail) == 2 {
      assert tail[..2] == [tail[0], tail[1]];
      TwoWordHalf(lex, tail[0], tail[1]);
    }
  }

  lemma SpokenIsNothing(n: nat)
    ensures Spoken(n).current == 0 && Spoken(n).total == 0 <==> n == 0
  {
  }

  lemma KindFollowsIs(k: Kind, smallNext: bool, n: nat)
    ensures KindFollows(k, smallNext, n) <==> !Advance(k, smallNext, Spoken(n)).Stop?
  {
    SpokenIs(n);
    SpokenIsNothing(n);
  }

  lemma FollowsIs(lex: Lexicon, tail: seq<string>, n: nat)
    requires tail != []
    ensures Follows(lex, tail, n) <==> !Advance(KindOf(lex, tail[0]), SmallFirst(lex, tail[1..]), Spoken(n)).Stop?
  {
    assert SmallFirst(lex, tail[1..]) <==> |tail| > 1 && IsSmall(KindOf(lex, tail[1]));
    KindFollowsIs(KindOf(lex, tail[0]), SmallFirst(lex, tail[1..]), n);
  }

  lemma ScanMoves(lex: Lexicon, tail: seq<string>, a: Acc)
    ensures var stops := tail == [] || Advance(KindOf(lex, tail[0]), SmallFirst(lex, tail[1..]), a).Stop?;
            if stops then Scan(lex, tail, a) == Scanned(a, tail) else |Scan(lex, tail, a).rest| < |tail|
  {
  }

  /** The number ends before a tail exactly when it does not follow it. */
  lemma StopsBefore(lex: Lexicon, ws: seq<string>, n: nat, tail: seq<string>)
    requires Speaks(lex, ws, n)
    ensures StartsNumber(lex, ws + tail)
    ensures var s := Scan(lex, ws + tail, START);
            if Follows(lex, tail, n) then |s.rest| < |tail| else s == Scanned(Spoken(n), tail)
  {
    ScanAfterSpoken(lex, ws, n, tail);
    ScanMoves(lex, tail, Spoken(n));
    if tail != [] {
      FollowsIs(lex, tail, n);
    }
  }

  /** What comes out after the number n when the tail does not follow it: a year if its first words are the second half of one. */
  function AfterNumber(lex: Lexicon, n: nat, tail: seq<string>): seq<string> {
    if 10 <= n <= 99 && SecondHalf(lex, tail).Some? then
      [Str(100 * n + SecondHalf(lex, tail).value)] + EnNumbers(lex, tail[HalfLength(lex, tail)..])
    else [Str(n)] + EnNumbers(lex, tail)
  }

  /**
   Any tail behind any spoken number: it is read as it would be alone, but for a second half of a
   year behind a number from 10 to 99, exactly when its first token does not follow the number.
   */
  lemma NumberAndTail(lex: Lexicon, ws: seq<string>, n: nat, tail: seq<string>)
    requires Wf(lex) && Speaks(lex, ws, n)
    ensures !Follows(lex, tail, n) ==> EnNumbers(lex, ws + tail) == AfterNumber(lex, n, tail)
    ensures Follows(lex, tail, n) ==> |Next(lex, ws + tail).rest| < |tail|
  {
    NextAfterNumber(lex, ws, n, tail);
    FirstOutput(lex, ws + tail);
  }

  lemma NextAfterNumber(lex: Lexicon, ws: seq<string>, n: nat, tail: seq<string>)
    requires Wf(lex) && Speaks(lex, ws, n)
    ensures var next := Next(lex, ws + tail);
            if Follows(lex, tail, n) then |next.rest| < |tail|
            else if 10 <= n <= 99 && SecondHalf(lex, tail).Some?
            then next == Step(Str(100 * n + SecondHalf(lex, tail).value), tail[HalfLength(lex, tail)..])
            else next == Step(Str(n), tail)
  {
    StopsBefore(lex, ws, n, tail);
    NextOfNumber(lex, ws + tail);
    EmitSpoken(lex, n, tail);
  }

  lemma EmitAlone(lex: Lexicon, s: Scanned)
    requires !YearFirst(s) || !IsOneNumber(lex, YearHalf(lex, s.rest))
    ensures Emit(lex, s) == Step(Str(s.acc.Value()), s.rest)
  {
  }

  lemma EmitYearOf(lex: Lexicon, s: Scanned, half: seq<string>, b: nat)
    requires YearFirst(s) && half == YearHalf(lex, s.rest) && IsOneNumber(lex, half)
    requires Scan(lex, half, START).acc.Value() == b
    ensures Emit(lex, s) == Step(Str(s.acc.Value() * 100 + b), s.rest[|half|..])
  {
  }

  lemma EmitSpoken(lex: Lexicon, n: nat, tail: seq<string>)
    requires Wf(lex)
    ensures Emit(lex, Scanned(Spoken(n), tail))
         == if 10 <= n <= 99 && SecondHalf(lex, tail).Some?
            then Step(Str(100 * n + SecondHalf(lex, tail).value), tail[HalfLength(lex, tail)..])
            else Step(Str(n), tail)
  {
    SpokenIs(n);
    HalfIsNumber(lex, tail);
    HalfIs(lex, tail);
    if 10 <= n <= 99 && SecondHalf(lex, tail).Some? {
      EmitYearOf(lex, Scanned(Spoken(n), tail), tail[..HalfLength(lex, tail)], SecondHalf(lex, tail).value);
    } else {
      EmitAlone(lex, Scanned(Spoken(n), tail));
    }
  }
}
