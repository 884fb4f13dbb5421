/** What `Ukrainian.UkNumbers` guarantees. */
module UkrainianProofs {
  import opened Decimal
  import opened Ukrainian

  predicate StartsPlain(tab: Tables, tail: seq<string>) {
    tail == [] || IsPlain(tab, tail[0])
  }

  predicate EndsPlain(tab: Tables, head: seq<string>) {
    head == [] || IsPlain(tab, head[|head| - 1])
  }

  // ---------------------------------------------------------------- composition

  lemma {:induction false} ScanStopsAtPlain(tab: Tables, x: seq<string>, tail: seq<string>, a: Acc)
    requires StartsPlain(tab, tail)
    ensures Scan(tab, x + tail, a) == Scanned(Scan(tab, x, a).acc, Scan(tab, x, a).rest + tail)
  {
    if x == [] {
      assert x + tail == tail;
    } else {
      assert (x + tail)[1..] == x[1..] + tail;
      match Advance(KindOf(tab, x[0]), a)
      case Take(b) => ScanStopsAtPlain(tab, x[1..], tail, b);
      case _ =>
    }
  }

  lemma NextBeforePlain(tab: Tables, x: seq<string>, tail: seq<string>)
    requires x != [] && StartsPlain(tab, tail)
    ensures Next(tab, x + tail) == Step(Next(tab, x).token, Next(tab, x).rest + tail)
  {
    ScanStopsAtPlain(tab, x, tail, START);
    assert (x + tail)[1..] == x[1..] + tail;
  }

  lemma {:induction false} SplitBeforePlain(tab: Tables, x: seq<string>, tail: seq<string>)
    requires StartsPlain(tab, tail)
    ensures UkNumbers(tab, x + tail) == UkNumbers(tab, x) + UkNumbers(tab, tail)
    decreases |x|
  {
    if x == [] {
      assert x + tail == tail;
    } else {
      NextBeforePlain(tab, x, tail);
      SplitBeforePlain(tab, Next(tab, x).rest, tail);
    }
  }

  /** A plain token cuts the stream: each side parses as it would alone. */
  lemma PlainCuts(tab: Tables, x: seq<string>, p: string, y: seq<string>)
    requires IsPlain(tab, p)
    ensures UkNumbers(tab, x + [p] + y) == UkNumbers(tab, x) + [p] + UkNumbers(tab, y)
  {
    assert x + [p] + y == x + ([p] + y);
    SplitBeforePlain(tab, x, [p] + y);
    assert ([p] + y)[1..] == y;
  }

  lemma SplitAfterPlain(tab: Tables, head: seq<string>, y: seq<string>)
    requires EndsPlain(tab, head)
    ensures UkNumbers(tab, head + y) == UkNumbers(tab, head) + UkNumbers(tab, y)
  {
    if head == [] {
      assert head + y == y;
    } else {
      var x, p := head[..|head| - 1], head[|head| - 1];
      assert head + y == x + [p] + y && head == x + [p] + [];
      PlainCuts(tab, x, p, y);
      PlainCuts(tab, x, p, []);
    }
  }

  // ---------------------------------------------------------------- idempotence

  lemma {:induction false} NumeralHasNoStem(stems: seq<(string, nat)>, endings: set<string>, t: string)
    requires IsNumeral(t) && forall i :: 0 <= i < |stems| ==> stems[i].0 != "" && !IsDigit(stems[i].0[0])
    ensures StemValue(stems, endings, t) == None
  {
    if stems != [] {
      assert IsDigit(t[0]) && stems[0].0[0] != t[0];
      NumeralHasNoStem(stems[1..], endings, t);
    }
  }

  lemma NumeralIsPlain(tab: Tables, t: string)
    requires Wf(tab) && IsNumeral(t)
    ensures IsPlain(tab, t)
  {
    NumeralHasNoStem(tab.stems, tab.endings, t);
  }

  lemma {:induction false} OutputHasNoValue(tab: Tables, x: seq<string>)
    requires Wf(tab)
    ensures forall t :: t in UkNumbers(tab, x) ==> !KindOf(tab, t).Value?
    decreases |x|
  {
    if x != [] {
      if KindOf(tab, x[0]).Value? {
        NumeralIsPlain(tab, Next(tab, x).token);
      }
      OutputHasNoValue(tab, Next(tab, x).rest);
    }
  }

  lemma {:induction false} NoValueIsKept(tab: Tables, x: seq<string>)
    requires forall t :: t in x ==> !KindOf(tab, t).Value?
    ensures UkNumbers(tab, x) == x
  {
    if x != [] {
      assert x[0] in x;
      NoValueIsKept(tab, x[1..]);
    }
  }

  lemma Idempotent(tab: Tables, x: seq<string>)
    requires Wf(tab)
    ensures UkNumbers(tab, UkNumbers(tab, x)) == UkNumbers(tab, x)
  {
    OutputHasNoValue(tab, x);
    NoValueIsKept(tab, UkNumbers(tab, x));
  }

  // ---------------------------------------------------------------- places fall

  /** A spoken word: the place value it adds, or "thousand". */
  datatype Word = Adds(v: nat) | Times1000

  function Below1000(n: nat): seq<Word>
    requires n < 1000
  {
    (if n < 100 then [] else [Adds(n / 100 * 100)]) + Below100(n % 100)
  }

  function Below100(n: nat): seq<Word>
    requires n < 100
  {
    if n == 0 then []
    else if n < 20 then [Adds(n)]
    else [Adds(n / 10 * 10)] + (if n % 10 == 0 then [] else [Adds(n % 10)])
  }

  /** The words of n, its places falling, with an explicit multiplier before "thousand". */
  function Spelling(n: nat): seq<Word>
    requires n < 1_000_000
  {
    if n == 0 then [Adds(0)]
    else if n < 1000 then Below1000(n)
    else Below1000(n / 1000) + [Times1000] + Below1000(n % 1000)
  }

  /** The kind k says the word w; an ordinal form only as the very last word. */
  predicate SaysWord(k: Kind, w: Word, last: bool) {
    match k
    case Value(v, ordinal) => w == Adds(v) && (ordinal ==> last)
    case Thousand => w == Times1000
    case Plain => false
  }

  /** ws says the words ks in any inflected forms; the last may be an ordinal. */
  predicate Says(tab: Tables, ws: seq<string>, ks: seq<Word>) {
    if ks == [] then ws == []
    else ws != [] && SaysWord(KindOf(tab, ws[0]), ks[0], |ks| == 1) && Says(tab, ws[1..], ks[1..])
  }

  /** What the words do to the accumulator when every one of them is taken. */
  function Run(ks: seq<Word>, a: Acc): Option<Acc> {
    if ks == [] then Some(a)
    else
      var k := if ks[0] == Times1000 then Thousand else Value(ks[0].v, false);
      match Advance(k, a)
      case Take(b) => Run(ks[1..], b)
      case _ => None
  }

  lemma {:induction false} RunConcat(u: seq<Word>, v: seq<Word>, a: Acc)
    requires Run(u, a).Some?
    ensures Run(u + v, a) == Run(v, Run(u, a).value)
  {
    if u == [] {
      assert u + v == v;
    } else {
      assert (u + v)[1..] == u[1..] + v;
      var k := if u[0] == Times1000 then Thousand else Value(u[0].v, false);
      RunConcat(u[1..], v, Advance(k, a).acc);
    }
  }

  lemma {:induction false} ScanRuns(tab: Tables, ws: seq<string>, ks: seq<Word>, a: Acc)
    requires Says(tab, ws, ks) && Run(ks, a).Some?
    ensures Scan(tab, ws, a) == Scanned(Run(ks, a).value, [])
  {
    if ks != [] {
      var k := if ks[0] == Times1000 then Thousand else Value(ks[0].v, false);
      var b := Advance(k, a).acc;
      if |ks| == 1 {
        assert ws[1..] == [] && Run(ks[1..], b) == Some(b);
      } else {
        ScanRuns(tab, ws[1..], ks[1..], b);
      }
    }
  }

  lemma RunOne(v: nat, a: Acc)
    requires PlaceOf(v) < a.lastPlace && (v < 20 ==> a.current % 10 == 0)
    ensures Run([Adds(v)], a) == Some(Acc(a.total, a.current + v, PlaceOf(v)))
  {
    assert [Adds(v)][1..] == [];
  }

  /** The place of the last word of n. */
  function PlaceAfter100(n: nat): nat {
    if n < 20 || n % 10 != 0 then 1 else 10
  }

  function PlaceAfter1000(n: nat): nat {
    if n % 100 == 0 then 100 else PlaceAfter100(n % 100)
  }

  lemma RunBelow100(n: nat, a: Acc)
    requires n < 100 && a.current % 100 == 0 && a.lastPlace >= 100
    ensures var r := Run(Below100(n), a);
            && r.Some? && r.value.total == a.total && r.value.current == a.current + n
            && r.value.lastPlace == if n == 0 then a.lastPlace else PlaceAfter100(n)
  {
    RemainderOfSum(a.current, if n < 20 then 0 else n / 10 * 10);
    if 0 < n < 20 {
      RunOne(n, a);
    } else if n >= 20 {
      var t := n / 10 * 10;
      RunOne(t, a);
      if n % 10 != 0 {
        var b := Acc(a.total, a.current + t, 10);
        RunOne(n % 10, b);
        RunConcat([Adds(t)], [Adds(n % 10)], a);
      }
    }
  }

  lemma RunBelow1000(n: nat, a: Acc)
    requires n < 1000 && a.current == 0 && a.lastPlace >= 1000
    ensures var r := Run(Below1000(n), a);
            && r.Some? && r.value.total == a.total && r.value.current == n
            && r.value.lastPlace == if n == 0 then a.lastPlace else PlaceAfter1000(n)
  {
    if n < 100 {
      RunBelow100(n, a);
      assert Below1000(n) == Below100(n);
    } else {
      RunOne(n / 100 * 100, a);
      var b := Acc(a.total, n / 100 * 100, 100);
      RunBelow100(n % 100, b);
      RunConcat([Adds(n / 100 * 100)], Below100(n % 100), a);
    }
  }

  lemma RunThousands(m: nat)
    requires 0 < m < 1000
    ensures Run(Below1000(m) + [Times1000], START) == Some(Acc(m * 1000, 0, 1000))
  {
    RunBelow1000(m, START);
    RunConcat(Below1000(m), [Times1000], START);
    assert [Times1000][1..] == [];
  }

  lemma RunWithThousands(m: nat, r: nat)
    requires 0 < m < 1000 && r < 1000
    ensures var run := Run(Below1000(m) + [Times1000] + Below1000(r), START);
            run.Some? && run.value.Value() == m * 1000 + r
  {
    RunThousands(m);
    RunBelow1000(r, Acc(m * 1000, 0, 1000));
    RunConcat(Below1000(m) + [Times1000], Below1000(r), START);
  }

  lemma RunSpelling(n: nat)
    requires n < 1_000_000
    ensures Run(Spelling(n), START).Some? && Run(Spelling(n), START).value.Value() == n
  {
    if n == 0 {
      RunOne(0, START);
    } else if n < 1000 {
      RunBelow1000(n, START);
      assert Spelling(n) == Below1000(n);
    } else {
      assert Spelling(n) == Below1000(n / 1000) + [Times1000] + Below1000(n % 1000);
      RunWithThousands(n / 1000, n % 1000);
      assert n / 1000 * 1000 + n % 1000 == n;
    }
  }

  lemma SpellingStartsWithValue(n: nat)
    requires n < 1_000_000
    ensures Spelling(n) != [] && Spelling(n)[0].Adds?
  {
    if n >= 1000 {
      Below1000StartsWithValue(n / 1000);
    } else if n > 0 {
      Below1000StartsWithValue(n);
    }
  }

  lemma Below1000StartsWithValue(n: nat)
    requires 0 < n < 1000
    ensures Below1000(n) != [] && Below1000(n)[0].Adds?
  {
  }

  lemma ParseOfSpoken(tab: Tables, ws: seq<string>, n: nat)
    requires n < 1_000_000 && Says(tab, ws, Spelling(n))
    ensures UkNumbers(tab, ws) == [Str(n)]
  {
    RunSpelling(n);
    SpellingStartsWithValue(n);
    ScanRuns(tab, ws, Spelling(n), START);
    assert Next(tab, ws) == Step(Str(n), []);
  }

  /** Round trip in context: a spoken number between plain tokens (or at an end) becomes its one numeral. */
  lemma RoundTrip(tab: Tables, before: seq<string>, ws: seq<string>, n: nat, after: seq<string>)
    requires n < 1_000_000 && Says(tab, ws, Spelling(n))
    requires EndsPlain(tab, before) && StartsPlain(tab, after)
    ensures UkNumbers(tab, before + ws + after) == UkNumbers(tab, before) + [Str(n)] + UkNumbers(tab, after)
  {
    SplitBeforePlain(tab, before + ws, after);
    SplitAfterPlain(tab, before, ws);
    ParseOfSpoken(tab, ws, n);
  }

  // ---------------------------------------------------------------- the last-place invariant

  /** Below the tens nothing has been said yet, unless the last place was a unit. */
  predicate PlacesFall(a: Acc) {
    a.current % 10 != 0 ==> a.lastPlace <= 1
  }

  /** The scan keeps the invariant, and under it the comparison of places alone decides where a number ends. */
  lemma LastPlaceDecides(tab: Tables, t: string, a: Acc)
    requires Wf(tab) && PlacesFall(a)
    ensures var m := Advance(KindOf(tab, t), a);
            && (!m.Stop? ==> PlacesFall(m.acc))
            && (KindOf(tab, t).Value? ==> (m.Stop? <==> PlaceOf(KindOf(tab, t).v) >= a.lastPlace))
  {
    ValueIsRound(tab, t);
    PlaceDecides(KindOf(tab, t), a);
  }

  lemma ValueIsRound(tab: Tables, t: string)
    requires Wf(tab)
    ensures var k := KindOf(tab, t); k.Value? && k.v >= 20 ==> k.v % 10 == 0
  {
    StemValueInTable(tab.stems, tab.endings, t);
  }

  lemma PlaceDecides(k: Kind, a: Acc)
    requires PlacesFall(a) && (k.Value? && k.v >= 20 ==> k.v % 10 == 0)
    ensures var m := Advance(k, a);
            && (!m.Stop? ==> PlacesFall(m.acc))
            && (k.Value? ==> (m.Stop? <==> PlaceOf(k.v) >= a.lastPlace))
  {
    if k.Value? && k.v >= 20 {
      var c, v := a.current / 10, k.v / 10;
      RemainderIs10(a.current + k.v, c + v, a.current % 10);
    }
  }

  lemma {:induction false} StemValueInTable(stems: seq<(string, nat)>, endings: set<string>, t: string)
    requires forall i :: 0 <= i < |stems| ==> (stems[i].1 >= 20 ==> stems[i].1 % 10 == 0)
    ensures var v := StemValue(stems, endings, t); v.Some? && v.value >= 20 ==> v.value % 10 == 0
  {
    if stems != [] {
      assert forall i :: 0 <= i < |stems[1..]| ==> stems[1..][i] == stems[i + 1];
      StemValueInTable(stems[1..], endings, t);
    }
  }
}
