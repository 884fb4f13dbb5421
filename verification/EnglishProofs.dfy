/** What `English.EnNumbers` guarantees: independence of plain surroundings, idempotence, round trips. */
module EnglishProofs {
  import opened Decimal
  import opened English

  /** Nothing, or a token the parser never treats as part of a number. */
  predicate StartsPlain(lex: Lexicon, tail: seq<string>) {
    tail == [] || IsPlain(lex, tail[0])
  }

  predicate EndsPlain(lex: Lexicon, head: seq<string>) {
    head == [] || IsPlain(lex, head[|head| - 1])
  }

  // ---------------------------------------------------------------- composition

  lemma {:induction false} ScanStopsAtPlain(lex: Lexicon, x: seq<string>, tail: seq<string>, a: Acc)
    requires StartsPlain(lex, tail)
    ensures Scan(lex, x + tail, a) == Scanned(Scan(lex, x, a).acc, Scan(lex, x, a).rest + tail)
  {
    if x == [] {
      assert x + tail == tail;
    } else {
      assert (x + tail)[1..] == x[1..] + tail;
      match Advance(KindOf(lex, x[0]), SmallFirst(lex, x[1..]), a)
      case Take(b) => ScanStopsAtPlain(lex, x[1..], tail, b);
      case _ =>
    }
  }

  lemma NextBeforePlain(lex: Lexicon, x: seq<string>, tail: seq<string>)
    requires x != [] && StartsPlain(lex, tail)
    ensures Next(lex, x + tail) == Step(Next(lex, x).token, Next(lex, x).rest + tail)
  {
    if StartsNumber(lex, x) {
      NextNumberBeforePlain(lex, x, tail);
    } else {
      assert (x + tail)[1..] == x[1..] + tail;
    }
  }

  lemma NextNumberBeforePlain(lex: Lexicon, x: seq<string>, tail: seq<string>)
    requires StartsNumber(lex, x) && StartsPlain(lex, tail)
    ensures NextNumber(lex, x + tail) == Step(NextNumber(lex, x).token, NextNumber(lex, x).rest + tail)
  {
    ScanStopsAtPlain(lex, x, tail, START);
    EmitBeforePlain(lex, Scan(lex, x, START), tail);
  }

  lemma EmitBeforePlain(lex: Lexicon, s: Scanned, tail: seq<string>)
    requires StartsPlain(lex, tail)
    ensures Emit(lex, s.(rest := s.rest + tail)) == Step(Emit(lex, s).token, Emit(lex, s).rest + tail)
  {
    var n := |YearHalf(lex, s.rest)|;
    YearHalfBeforePlain(lex, s.rest, tail);
    assert (s.rest + tail)[n..] == s.rest[n..] + tail;
  }

  lemma YearHalfBeforePlain(lex: Lexicon, x: seq<string>, tail: seq<string>)
    requires StartsPlain(lex, tail)
    ensures YearHalf(lex, x + tail) == YearHalf(lex, x)
  {
    if x != [] {
      assert (x + tail)[1..] == x[1..] + tail;
    }
  }

  lemma {:induction false} SplitBeforePlain(lex: Lexicon, x: seq<string>, tail: seq<string>)
    requires StartsPlain(lex, tail)
    ensures EnNumbers(lex, x + tail) == EnNumbers(lex, x) + EnNumbers(lex, tail)
    decreases |x|
  {
    if x == [] {
      assert x + tail == tail;
    } else {
      NextBeforePlain(lex, x, tail);
      SplitBeforePlain(lex, Next(lex, x).rest, tail);
    }
  }

  lemma PlainFirst(lex: Lexicon, p: string, y: seq<string>)
    requires IsPlain(lex, p)
    ensures EnNumbers(lex, [p] + y) == [p] + EnNumbers(lex, y)
  {
    assert ([p] + y)[1..] == y;
    assert Next(lex, [p] + y) == Step(p, y);
  }

  /** A plain token cuts the stream: each side parses as it would alone. */
  lemma PlainCuts(lex: Lexicon, x: seq<string>, p: string, y: seq<string>)
    requires IsPlain(lex, p)
    ensures EnNumbers(lex, x + [p] + y) == EnNumbers(lex, x) + [p] + EnNumbers(lex, y)
  {
    assert x + [p] + y == x + ([p] + y);
    SplitBeforePlain(lex, x, [p] + y);
    PlainFirst(lex, p, y);
  }

  lemma PlainLast(lex: Lexicon, x: seq<string>, p: string)
    requires IsPlain(lex, p)
    ensures EnNumbers(lex, x + [p]) == EnNumbers(lex, x) + [p]
  {
    SplitBeforePlain(lex, x, [p]);
    PlainFirst(lex, p, []);
    assert [p] + [] == [p];
  }

  lemma SplitAfterPlain(lex: Lexicon, head: seq<string>, y: seq<string>)
    requires EndsPlain(lex, head)
    ensures EnNumbers(lex, head + y) == EnNumbers(lex, head) + EnNumbers(lex, y)
  {
    if head == [] {
      assert head + y == y;
    } else {
      var x, p := head[..|head| - 1], head[|head| - 1];
      assert head == x + [p];
      PlainCuts(lex, x, p, y);
      PlainLast(lex, x, p);
    }
  }

  // ---------------------------------------------------------------- idempotence

  /** A token the parser copies: it neither starts a number nor is an ordinal. */
  predicate IsInert(lex: Lexicon, t: string) {
    var k := KindOf(lex, t);
    !k.Unit? && !k.Tens? && !k.Ordinal?
  }

  lemma {:induction false} OutputIsInert(lex: Lexicon, x: seq<string>)
    requires Wf(lex)
    ensures forall t :: t in EnNumbers(lex, x) ==> IsInert(lex, t)
    decreases |x|
  {
    if x != [] {
      OutputIsInert(lex, Next(lex, x).rest);
    }
  }

  lemma {:induction false} InertIsKept(lex: Lexicon, x: seq<string>)
    requires forall t :: t in x ==> IsInert(lex, t)
    ensures EnNumbers(lex, x) == x
  {
    if x != [] {
      assert IsInert(lex, x[0]);
      InertIsKept(lex, x[1..]);
    }
  }

  lemma Idempotent(lex: Lexicon, x: seq<string>)
    requires Wf(lex)
    ensures EnNumbers(lex, EnNumbers(lex, x)) == EnNumbers(lex, x)
  {
    OutputIsInert(lex, x);
    InertIsKept(lex, EnNumbers(lex, x));
  }

  // ---------------------------------------------------------------- spelling

  function Below100(n: nat): seq<Kind>
    requires n < 100
  {
    if n < 20 then [Unit(n)]
    else [Tens(n / 10 * 10)] + (if n % 10 == 0 then [] else [Unit(n % 10)])
  }

  function Below1000(n: nat): seq<Kind>
    requires n < 1000
  {
    if n < 100 then Below100(n)
    else [Unit(n / 100), Hundred] + (if n % 100 == 0 then [] else Below100(n % 100))
  }

  /** The words of n in order, without any "and". */
  function Spelling(n: nat): seq<Kind>
    requires n < 1_000_000
  {
    if n < 1000 then Below1000(n)
    else Below1000(n / 1000) + [Thousand] + (if n % 1000 == 0 then [] else Below1000(n % 1000))
  }

  function Kinds(lex: Lexicon, ws: seq<string>): (ks: seq<Kind>)
    ensures |ks| == |ws|
  {
    if ws == [] then [] else [KindOf(lex, ws[0])] + Kinds(lex, ws[1..])
  }

  function WithoutAnd(lex: Lexicon, ws: seq<string>): seq<string> {
    if ws == [] then []
    else if KindOf(lex, ws[0]) == And then WithoutAnd(lex, ws[1..])
    else [ws[0]] + WithoutAnd(lex, ws[1..])
  }

  /** Every "and" comes somewhere after a "hundred" or "thousand" (armed) and right before a unit or tens word. */
  predicate AndsPlaced(lex: Lexicon, ws: seq<string>, armed: bool) {
    ws == [] ||
    var k := KindOf(lex, ws[0]);
    && (k == And ==> armed && StartsNumber(lex, ws[1..]))
    && AndsPlaced(lex, ws[1..], armed || k == Hundred || k == Thousand)
  }

  /** ws is n in words: its spelling with any number of "and"s at places English allows them. */
  predicate Speaks(lex: Lexicon, ws: seq<string>, n: nat) {
    n < 1_000_000 && AndsPlaced(lex, ws, false) && Kinds(lex, WithoutAnd(lex, ws)) == Spelling(n)
  }

  // ---------------------------------------------------------------- the scan undoes the spelling

  lemma {:induction false} OnlyAndsIsEmpty(lex: Lexicon, ws: seq<string>, armed: bool)
    requires AndsPlaced(lex, ws, armed) && WithoutAnd(lex, ws) == []
    ensures ws == []
  {
    if ws != [] && ws[1..] != [] {
      OnlyAndsIsEmpty(lex, ws[1..], armed);
    }
  }

  lemma AdvanceIgnoresNext(k: Kind, p: bool, q: bool, a: Acc)
    requires k != And
    ensures Advance(k, p, a) == Advance(k, q, a)
    ensures Advance(k, p, a).Take? ==> (!Advance(k, p, a).acc.pureSmall <==> !a.pureSmall || k == Hundred || k == Thousand)
  {
  }

  lemma {:induction false} ScanSkipsAnds(lex: Lexicon, ws: seq<string>, a: Acc)
    requires AndsPlaced(lex, ws, !a.pureSmall)
    requires Scan(lex, WithoutAnd(lex, ws), a).rest == []
    ensures Scan(lex, ws, a) == Scan(lex, WithoutAnd(lex, ws), a)
  {
    if ws != [] {
      var base := WithoutAnd(lex, ws);
      var k := KindOf(lex, ws[0]);
      if k == And {
        ScanSkipsAnds(lex, ws[1..], a);
      } else {
        assert base[1..] == WithoutAnd(lex, ws[1..]);
        AdvanceIgnoresNext(k, SmallFirst(lex, ws[1..]), SmallFirst(lex, base[1..]), a);
        match Advance(k, SmallFirst(lex, ws[1..]), a)
        case Take(b) => ScanSkipsAnds(lex, ws[1..], b);
        case Last(b) => OnlyAndsIsEmpty(lex, ws[1..], !a.pureSmall);
        case Stop =>
      }
    }
  }

  /** What a whole-number scan does to a sequence of kinds. */
  function Run(ks: seq<Kind>, a: Acc): (r: Option<Acc>) {
    if ks == [] then Some(a)
    else if ks[0] == And then None
    else
      match Advance(ks[0], false, a)
      case Take(b) => Run(ks[1..], b)
      case _ => None
  }

  lemma {:induction false} RunConcat(u: seq<Kind>, v: seq<Kind>, a: Acc)
    requires Run(u, a).Some?
    ensures Run(u + v, a) == Run(v, Run(u, a).value)
  {
    if u == [] {
      assert u + v == v;
    } else {
      assert (u + v)[1..] == u[1..] + v;
      RunConcat(u[1..], v, Advance(u[0], false, a).acc);
    }
  }

  /** The scan follows the run over u and halts at a token that cannot join. */
  lemma {:induction false} ScanRuns(lex: Lexicon, u: seq<string>, v: seq<string>, a: Acc)
    requires Run(Kinds(lex, u), a).Some?
    requires v == [] || Advance(KindOf(lex, v[0]), SmallFirst(lex, v[1..]), Run(Kinds(lex, u), a).value) == Stop
    ensures Scan(lex, u + v, a) == Scanned(Run(Kinds(lex, u), a).value, v)
  {
    if u == [] {
      assert u + v == v;
    } else {
      assert (u + v)[1..] == u[1..] + v && Kinds(lex, u)[1..] == Kinds(lex, u[1..]);
      var k := KindOf(lex, u[0]);
      AdvanceIgnoresNext(k, SmallFirst(lex, u[1..] + v), false, a);
      ScanRuns(lex, u[1..], v, Advance(k, false, a).acc);
    }
  }

  lemma RunOne(k: Kind, a: Acc)
    requires k != And && Advance(k, false, a).Take?
    ensures Run([k], a) == Some(Advance(k, false, a).acc)
  {
    assert [k][1..] == [];
  }

  lemma RunTwo(j: Kind, k: Kind, a: Acc, b: Acc, c: Acc)
    requires j != And && k != And && Advance(j, false, a) == Take(b) && Advance(k, false, b) == Take(c)
    ensures Run([j, k], a) == Some(c)
  {
    RunOne(j, a);
    RunOne(k, b);
    RunConcat([j], [k], a);
    assert [j] + [k] == [j, k];
  }

  lemma RunBelow100(n: nat, a: Acc)
    requires n < 100 && a.current % 100 == 0
    ensures Run(Below100(n), a) == Some(a.(current := a.current + n))
  {
    if n < 20 {
      RunOne(Unit(n), a);
    } else {
      TensTaken(n, a);
      var t, u := n / 10 * 10, n % 10;
      if u == 0 {
        assert Below100(n) == [Tens(t)];
        RunOne(Tens(t), a);
      } else {
        assert Below100(n) == [Tens(t), Unit(u)];
        RunTwo(Tens(t), Unit(u), a, a.(current := a.current + t), a.(current := a.current + n));
      }
    }
  }

  /** A ten joins full hundreds, and a unit joins it. */
  lemma TensTaken(n: nat, a: Acc)
    requires 20 <= n < 100 && a.current % 100 == 0
    ensures var b := a.(current := a.current + n / 10 * 10);
            && Advance(Tens(n / 10 * 10), false, a) == Take(b)
            && Advance(Unit(n % 10), false, b) == Take(a.(current := a.current + n))
  {
    RemainderOfSum(a.current, n / 10 * 10);
  }

  lemma RunBelow1000(n: nat, a: Acc)
    requires n < 1000 && a.current == 0
    ensures Run(Below1000(n), a) == Some(Acc(a.total, n, a.pureSmall && n < 100))
  {
    if n < 100 {
      RunBelow100(n, a);
    } else {
      var b := a.(current := n / 100);
      var c := Acc(a.total, n / 100 * 100, false);
      RunTwo(Unit(n / 100), Hundred, a, b, c);
      if n % 100 != 0 {
        RunBelow100(n % 100, c);
        RunConcat([Unit(n / 100), Hundred], Below100(n % 100), a);
      } else {
        assert Below1000(n) == [Unit(n / 100), Hundred] && n / 100 * 100 == n;
      }
    }
  }

  /** The accumulator after n. */
  function Spoken(n: nat): Acc {
    Acc(n / 1000 * 1000, n % 1000, n < 100)
  }

  lemma RunSpelling(n: nat)
    requires n < 1_000_000
    ensures Run(Spelling(n), START) == Some(Spoken(n))
  {
    if n < 1000 {
      RunBelow1000(n, START);
    } else {
      var high := Below1000(n / 1000);
      var b := Acc(n / 1000 * 1000, 0, false);
      RunBelow1000(n / 1000, START);
      RunOne(Thousand, Run(high, START).value);
      RunConcat(high, [Thousand], START);
      if n % 1000 != 0 {
        RunBelow1000(n % 1000, b);
        RunConcat(high + [Thousand], Below1000(n % 1000), START);
      } else {
        assert Spelling(n) == high + [Thousand];
      }
    }
  }

  /** After the words u, with their "and"s, the scan goes on from what they add up to. */
  lemma {:induction false} ScanOn(lex: Lexicon, u: seq<string>, v: seq<string>, a: Acc)
    requires AndsPlaced(lex, u, !a.pureSmall) && Run(Kinds(lex, WithoutAnd(lex, u)), a).Some?
    ensures Scan(lex, u + v, a) == Scan(lex, v, Run(Kinds(lex, WithoutAnd(lex, u)), a).value)
  {
    if u == [] {
      assert u + v == v;
    } else {
      assert (u + v)[1..] == u[1..] + v;
      var k := KindOf(lex, u[0]);
      if k == And {
        assert SmallFirst(lex, u[1..] + v);
        ScanOn(lex, u[1..], v, a);
      } else {
        assert WithoutAnd(lex, u)[1..] == WithoutAnd(lex, u[1..]);
        AdvanceIgnoresNext(k, SmallFirst(lex, u[1..] + v), false, a);
        ScanOn(lex, u[1..], v, Advance(k, false, a).acc);
      }
    }
  }

  lemma ScanAfterSpoken(lex: Lexicon, ws: seq<string>, n: nat, v: seq<string>)
    requires Speaks(lex, ws, n)
    ensures StartsNumber(lex, ws) && StartsNumber(lex, ws + v)
    ensures Scan(lex, ws + v, START) == Scan(lex, v, Spoken(n))
  {
    RunSpelling(n);
    ScanOn(lex, ws, v, START);
    FirstIsNumber(lex, ws, n);
  }

  lemma FirstIsNumber(lex: Lexicon, ws: seq<string>, n: nat)
    requires Speaks(lex, ws, n)
    ensures StartsNumber(lex, ws)
  {
    var k := Spelling(n)[0];
    assert k.Unit? || k.Tens?;
    assert ws != [] && KindOf(lex, ws[0]) != And;
    assert Kinds(lex, WithoutAnd(lex, ws))[0] == KindOf(lex, ws[0]);
  }

  lemma ParseOfSpoken(lex: Lexicon, ws: seq<string>, n: nat)
    requires Speaks(lex, ws, n)
    ensures EnNumbers(lex, ws) == [Str(n)]
  {
    RunSpelling(n);
    var base := WithoutAnd(lex, ws);
    assert base + [] == base;
    ScanRuns(lex, base, [], START);
    ScanSkipsAnds(lex, ws, START);
    FirstIsNumber(lex, ws, n);
    assert Next(lex, ws) == Step(Str(n), []);
  }

  /** Round trip in context: a spoken number between plain tokens (or at an end) becomes its one numeral. */
  lemma RoundTrip(lex: Lexicon, before: seq<string>, ws: seq<string>, n: nat, after: seq<string>)
    requires Speaks(lex, ws, n)
    requires EndsPlain(lex, before) && StartsPlain(lex, after)
    ensures EnNumbers(lex, before + ws + after) == EnNumbers(lex, before) + [Str(n)] + EnNumbers(lex, after)
  {
    SplitBeforePlain(lex, before + ws, after);
    SplitAfterPlain(lex, before, ws);
    ParseOfSpoken(lex, ws, n);
  }

  // ---------------------------------------------------------------- years said in halves

  lemma HalfIsOneNumber(lex: Lexicon, ws: seq<string>, b: nat)
    requires b < 100 && Kinds(lex, ws) == Below100(b)
    ensures StartsNumber(lex, ws) && Scan(lex, ws, START) == Scanned(Acc(0, b, true), [])
  {
    RunBelow100(b, START);
    assert ws + [] == ws;
    ScanRuns(lex, ws, [], START);
    assert Kinds(lex, ws)[0] == KindOf(lex, ws[0]);
  }

  lemma SecondHalfIsTaken(lex: Lexicon, ws: seq<string>, b: nat, after: seq<string>)
    requires b < 100 && Kinds(lex, ws) == Below100(b) && StartsPlain(lex, after)
    ensures YearHalf(lex, ws + after) == ws
  {
    YearHalfBeforePlain(lex, ws, after);
    assert Kinds(lex, ws)[0] == KindOf(lex, ws[0]);
    if |ws| == 2 {
      assert Kinds(lex, ws)[1] == Kinds(lex, ws[1..])[0];
    }
  }

  /** 10 to 99 leaves no room for another number from 10 to 99. */
  lemma HalvesDoNotMerge(a: nat, k: Kind, next: bool)
    requires 10 <= a < 100 && ((k.Unit? && k.v >= 10) || k.Tens?)
    ensures Advance(k, next, Acc(0, a, true)) == Stop
  {
  }

  /** The one word for b, a unit, joins a when a is a full ten. */
  predicate HalvesMerge(a: nat, b: nat) {
    b < 10 && a >= 20 && a % 10 == 0
  }

  /** The first word of b can join a exactly then. */
  lemma FirstWordJoins(a: nat, b: nat, next: bool)
    requires 10 <= a < 100 && b < 100
    ensures Advance(Below100(b)[0], next, Acc(0, a, true)) == Stop <==> !HalvesMerge(a, b)
  {
  }

  lemma FirstHalfIsScanned(lex: Lexicon, first: seq<string>, a: nat, second: seq<string>, b: nat, after: seq<string>)
    requires 10 <= a <= 99 && b <= 99 && !HalvesMerge(a, b)
    requires Kinds(lex, first) == Below100(a) && Kinds(lex, second) == Below100(b)
    ensures StartsNumber(lex, first)
    ensures Scan(lex, first + (second + after), START) == Scanned(Acc(0, a, true), second + after)
  {
    HalfIsOneNumber(lex, first, a);
    HalfIsOneNumber(lex, second, b);
    var tail := second + after;
    assert tail[0] == second[0] && Kinds(lex, second)[0] == KindOf(lex, second[0]);
    RunBelow100(a, START);
    FirstWordJoins(a, b, SmallFirst(lex, tail[1..]));
    ScanRuns(lex, first, tail, START);
  }

  lemma EmitYear(lex: Lexicon, a: nat, second: seq<string>, b: nat, after: seq<string>)
    requires 10 <= a <= 99 && b <= 99 && StartsPlain(lex, after)
    requires Kinds(lex, second) == Below100(b)
    ensures Emit(lex, Scanned(Acc(0, a, true), second + after)) == Step(Str(a * 100 + b), after)
  {
    HalfIsOneNumber(lex, second, b);
    SecondHalfIsTaken(lex, second, b, after);
    assert (second + after)[|second|..] == after;
  }

  lemma NoYear(lex: Lexicon, s: Scanned)
    requires YearHalf(lex, s.rest) == []
    ensures Emit(lex, s) == Step(Str(s.acc.Value()), s.rest)
  {
  }

  lemma {:induction false} KindsConcat(lex: Lexicon, x: seq<string>, y: seq<string>)
    ensures Kinds(lex, x + y) == Kinds(lex, x) + Kinds(lex, y)
  {
    if x == [] {
      assert x + y == y;
    } else {
      assert (x + y)[1..] == x[1..] + y;
      KindsConcat(lex, x[1..], y);
    }
  }

  /** A ten and a unit are one number. */
  lemma MergedScan(lex: Lexicon, both: seq<string>, a: nat, b: nat, after: seq<string>)
    requires 10 <= a <= 99 && HalvesMerge(a, b) && StartsPlain(lex, after)
    requires Kinds(lex, both) == Below100(a) + Below100(b)
    ensures Scan(lex, both + after, START) == Scanned(Acc(0, a + b, true), after)
  {
    assert Below100(a) + Below100(b) == [Tens(a), Unit(b)];
    RunTwo(Tens(a), Unit(b), START, Acc(0, a, true), Acc(0, a + b, true));
    ScanRuns(lex, both, after, START);
  }

  lemma MergedHalves(lex: Lexicon, first: seq<string>, a: nat, second: seq<string>, b: nat, after: seq<string>)
    requires 10 <= a <= 99 && HalvesMerge(a, b) && StartsPlain(lex, after)
    requires Kinds(lex, first) == Below100(a) && Kinds(lex, second) == Below100(b)
    ensures StartsNumber(lex, first)
    ensures Next(lex, first + (second + after)) == Step(Str(a + b), after)
  {
    HalfIsOneNumber(lex, first, a);
    KindsConcat(lex, first, second);
    MergedScan(lex, first + second, a, b, after);
    assert first + (second + after) == first + second + after;
    NextOfNumber(lex, first + (second + after));
    NoYear(lex, Scanned(Acc(0, a + b, true), after));
  }

  lemma HalvesAlone(lex: Lexicon, first: seq<string>, a: nat, second: seq<string>, b: nat, after: seq<string>)
    requires 10 <= a <= 99 && b <= 99 && StartsPlain(lex, after)
    requires Kinds(lex, first) == Below100(a) && Kinds(lex, second) == Below100(b)
    ensures EnNumbers(lex, first + (second + after))
         == [Str(if HalvesMerge(a, b) then a + b else a * 100 + b)] + EnNumbers(lex, after)
  {
    if HalvesMerge(a, b) {
      MergedHalves(lex, first, a, second, b, after);
    } else {
      NextOfHalves(lex, first, a, second, b, after);
    }
    FirstOutput(lex, first + (second + after));
  }

  lemma Associate<T>(x: seq<T>, y: seq<T>, z: seq<T>)
    ensures x + (y + z) == x + y + z
  {
  }

  /**
   A year said in halves: a number from 10 to 99 and another below 100 in a row are one number,
   100a+b exactly when the first word of b cannot join a, and a+b when it does.
   */
  lemma YearInHalves(lex: Lexicon, before: seq<string>, first: seq<string>, a: nat, second: seq<string>, b: nat, after: seq<string>)
    requires 10 <= a <= 99 && b <= 99
    requires Kinds(lex, first) == Below100(a) && Kinds(lex, second) == Below100(b)
    requires EndsPlain(lex, before) && StartsPlain(lex, after)
    ensures EnNumbers(lex, before + (first + (second + after)))
         == EnNumbers(lex, before) + [Str(if HalvesMerge(a, b) then a + b else a * 100 + b)] + EnNumbers(lex, after)
  {
    SplitAfterPlain(lex, before, first + (second + after));
    HalvesAlone(lex, first, a, second, b, after);
    Associate(EnNumbers(lex, before), [Str(if HalvesMerge(a, b) then a + b else a * 100 + b)], EnNumbers(lex, after));
  }

  lemma NextOfHalves(lex: Lexicon, first: seq<string>, a: nat, second: seq<string>, b: nat, after: seq<string>)
    requires 10 <= a <= 99 && b <= 99 && !HalvesMerge(a, b) && StartsPlain(lex, after)
    requires Kinds(lex, first) == Below100(a) && Kinds(lex, second) == Below100(b)
    ensures StartsNumber(lex, first)
    ensures Next(lex, first + (second + after)) == Step(Str(a * 100 + b), after)
  {
    FirstHalfIsScanned(lex, first, a, second, b, after);
    EmitYear(lex, a, second, b, after);
    NextOfNumber(lex, first + (second + after));
  }

  lemma NextOfNumber(lex: Lexicon, ws: seq<string>)
    requires StartsNumber(lex, ws)
    ensures Next(lex, ws) == Emit(lex, Scan(lex, ws, START))
  {
  }

  lemma FirstOutput(lex: Lexicon, toks: seq<string>)
    requires toks != []
    ensures EnNumbers(lex, toks) == [Next(lex, toks).token] + EnNumbers(lex, Next(lex, toks).rest)
  {
  }
}
