/** What follows a spoken Ukrainian number: which words it takes in and which start anew. */
module UkrainianTails {
  import opened Decimal
  import opened Ukrainian
  import opened UkrainianProofs

  /** The last word of ws is an ordinal form. */
  predicate EndsOrdinal(tab: Tables, ws: seq<string>) {
    ws != [] && KindOf(tab, ws[|ws| - 1]).Value? && KindOf(tab, ws[|ws| - 1]).ordinal
  }

  lemma {:induction false} SaysAsMany(tab: Tables, ws: seq<string>, ks: seq<Word>)
    requires Says(tab, ws, ks)
    ensures |ws| == |ks|
  {
    if ks != [] {
      SaysAsMany(tab, ws[1..], ks[1..]);
    }
  }

  /** Behind the words of ks the scan goes on with what they leave, or ends at an ordinal. */
  lemma {:induction false} ScanOn(tab: Tables, ws: seq<string>, ks: seq<Word>, a: Acc, tail: seq<string>)
    requires Says(tab, ws, ks) && Run(ks, a).Some? && ks != []
    ensures Scan(tab, ws + tail, a) == if EndsOrdinal(tab, ws) then Scanned(Run(ks, a).value, tail) else Scan(tab, tail, Run(ks, a).value)
  {
    var k := if ks[0] == Times1000 then Thousand else Value(ks[0].v, false);
    var b := Advance(k, a).acc;
    assert (ws + tail)[1..] == ws[1..] + tail;
    SaysAsMany(tab, ws, ks);
    if |ks| == 1 {
      assert ws[1..] == [] && Run(ks[1..], b) == Some(b);
      assert ws[1..] + tail == tail;
    } else {
      assert ws[1..][|ws[1..]| - 1] == ws[|ws| - 1];
      ScanOn(tab, ws[1..], ks[1..], b, tail);
    }
  }

  /** What n leaves: its thousands, the rest, and the place of its last word. */
  function Left(n: nat): Acc {
    Acc(n / 1000 * 1000, n % 1000, if n == 0 then 1 else if n % 1000 == 0 then 1000 else PlaceAfter1000(n % 1000))
  }

  lemma SpellingLeaves(n: nat)
    requires n < 1_000_000
    ensures Run(Spelling(n), START) == Some(Left(n))
  {
    if n == 0 {
      ZeroLeaves(n, START);
    } else if n < 1000 {
      RestLeaves(n, START);
    } else {
      ThousandsLeave(n / 1000, n % 1000);
      ThousandsAreSpelled(n, n / 1000, n % 1000);
    }
  }

  lemma ZeroLeaves(n: nat, a: Acc)
    requires n == 0 && a.total == a.current == 0 && a.lastPlace >= 1000
    ensures Run(Spelling(n), a) == Some(Left(n))
  {
    RunOne(n, a);
  }

  lemma RestLeaves(n: nat, a: Acc)
    requires 0 < n < 1000 && a.total == a.current == 0 && a.lastPlace >= 1000
    ensures Run(Spelling(n), a) == Some(Left(n))
  {
    RunBelow1000(n, a);
    RestIsSpelled(n);
  }

  lemma RestIsSpelled(n: nat)
    requires 0 < n < 1000
    ensures Spelling(n) == Below1000(n) && Left(n) == Acc(0, n, PlaceAfter1000(n))
  {
  }

  lemma ThousandsAreSpelled(n: nat, m: nat, r: nat)
    requires 1000 <= n < 1_000_000 && m == n / 1000 && r == n % 1000
    ensures Spelling(n) == Below1000(m) + [Times1000] + Below1000(r)
    ensures Left(n) == Acc(m * 1000, r, if r == 0 then 1000 else PlaceAfter1000(r))
  {
  }

  lemma ThousandsLeave(m: nat, r: nat)
    requires 0 < m < 1000 && r < 1000
    ensures Run(Below1000(m) + [Times1000] + Below1000(r), START)
         == Some(Acc(m * 1000, r, if r == 0 then 1000 else PlaceAfter1000(r)))
  {
    RunThousands(m);
    RunBelow1000(r, Acc(m * 1000, 0, 1000));
    RunConcat(Below1000(m) + [Times1000], Below1000(r), START);
  }

  /** Behind a spoken number every tail is read on from what the number leaves; an ordinal ends it. */
  lemma NextAfterNumber(tab: Tables, ws: seq<string>, n: nat, tail: seq<string>)
    requires n < 1_000_000 && Says(tab, ws, Spelling(n))
    ensures ws != []
    ensures var s := if EndsOrdinal(tab, ws) then Scanned(Left(n), tail) else Scan(tab, tail, Left(n));
            Next(tab, ws + tail) == Step(Str(s.acc.Value()), s.rest)
  {
    SpellingLeaves(n);
    SpellingStartsWithValue(n);
    ScanOn(tab, ws, Spelling(n), START, tail);
  }

  /** An ordinal ends a number, whatever follows. */
  lemma OrdinalEnds(tab: Tables, ws: seq<string>, n: nat, tail: seq<string>)
    requires n < 1_000_000 && Says(tab, ws, Spelling(n)) && EndsOrdinal(tab, ws)
    ensures UkNumbers(tab, ws + tail) == [Str(n)] + UkNumbers(tab, tail)
  {
    NextAfterNumber(tab, ws, n, tail);
    ThousandsAndRest(n);
  }

  lemma ThousandsAndRest(n: nat)
    ensures n / 1000 * 1000 + n % 1000 == n
  {
  }

  /** v fills places of n that are still empty: its last three, two or one digits. */
  predicate Fits(n: nat, v: nat) {
    n != 0 && if v >= 100 then n % 1000 == 0 else if v >= 20 then n % 100 == 0 else n % 10 == 0 && n % 100 != 10
  }

  lemma FitsIsBelow(n: nat, v: nat)
    ensures Fits(n, v) <==> PlaceOf(v) < Left(n).lastPlace
  {
    var r := n % 1000;
    LastDigits(n, n / 1000, r / 100, r % 100);
    if n != 0 && r != 0 {
      FitsRest(n, r, v);
    }
  }

  lemma FitsRest(n: nat, r: nat, v: nat)
    requires 0 < r < 1000 && n % 100 == r % 100 && n % 10 == r % 100 % 10 && n % 1000 == r
    ensures Fits(n, v) <==> PlaceOf(v) < PlaceAfter1000(r)
  {
  }

  lemma LastDigits(n: nat, m: nat, h: nat, t: nat)
    requires n == 1000 * m + 100 * h + t && t < 100
    ensures n % 100 == t && n % 10 == t % 10
  {
    RemainderIs100(n, 10 * m + h, t);
    RemainderIs10(n, 100 * m + 10 * h + t / 10, t % 10);
  }

  /**
   Behind a number without an ordinal a further value is taken exactly when it fills places that are
   still empty; otherwise it starts a number of its own.
   */
  lemma ValueAfterNumber(tab: Tables, ws: seq<string>, n: nat, w: string, v: nat, ordinal: bool, after: seq<string>)
    requires Wf(tab) && n < 1_000_000 && Says(tab, ws, Spelling(n)) && !EndsOrdinal(tab, ws)
    requires KindOf(tab, w) == Value(v, ordinal)
    ensures !Fits(n, v) ==> UkNumbers(tab, ws + ([w] + after)) == [Str(n)] + UkNumbers(tab, [w] + after)
    ensures Fits(n, v) && (ordinal || StartsPlain(tab, after)) ==>
              UkNumbers(tab, ws + ([w] + after)) == [Str(n + v)] + UkNumbers(tab, after)
  {
    var a, tail := Left(n), [w] + after;
    NextAfterNumber(tab, ws, n, tail);
    ThousandsAndRest(n);
    LeavesFalling(n);
    FitsIsBelow(n, v);
    LastPlaceDecides(tab, w, a);
    assert tail[1..] == after;
    StopsAtOnce(tab, after, Advance(KindOf(tab, w), a));
  }

  lemma StopsAtOnce(tab: Tables, after: seq<string>, m: Move)
    ensures m.Take? && StartsPlain(tab, after) ==> Scan(tab, after, m.acc) == Scanned(m.acc, after)
  {
  }

  lemma LeavesFalling(n: nat)
    ensures PlacesFall(Left(n))
  {
    if n % 1000 % 10 != 0 {
      LastDigitSaid(n % 1000);
    }
  }

  lemma LastDigitSaid(r: nat)
    requires r < 1000 && r % 10 != 0
    ensures PlaceAfter1000(r) == 1
  {
    RemainderIs10(r, r / 100 * 10 + r % 100 / 10, r % 100 % 10);
  }

  /** "Thousand" behind a spoken number multiplies what it has below a thousand, or counts one. */
  lemma ThousandAfterNumber(tab: Tables, ws: seq<string>, n: nat, t: string, after: seq<string>)
    requires n < 1_000_000 && Says(tab, ws, Spelling(n)) && !EndsOrdinal(tab, ws)
    requires KindOf(tab, t) == Thousand && StartsPlain(tab, after)
    ensures UkNumbers(tab, ws + ([t] + after))
         == [Str(n / 1000 * 1000 + (if n % 1000 == 0 then 1 else n % 1000) * 1000)] + UkNumbers(tab, after)
  {
    var a, tail := Left(n), [t] + after;
    NextAfterNumber(tab, ws, n, tail);
    assert tail[1..] == after;
    StopsAtOnce(tab, after, Advance(Thousand, a));
  }

  /** A "thousand" that starts a number stays a word. */
  lemma ThousandAlone(tab: Tables, t: string, after: seq<string>)
    requires KindOf(tab, t) == Thousand
    ensures UkNumbers(tab, [t] + after) == [t] + UkNumbers(tab, after)
  {
    assert ([t] + after)[1..] == after;
  }

  // ---------------------------------------------------------------- what is read

  /** t is the stem and an ending. */
  ghost predicate IsForm(t: string, stem: string, endings: set<string>) {
    exists e :: e in endings && t == stem + e
  }

  lemma FormIsPrefix(t: string, stem: string, endings: set<string>)
    ensures IsForm(t, stem, endings) <==> stem <= t && t[|stem|..] in endings
  {
    if IsForm(t, stem, endings) {
      var e :| e in endings && t == stem + e;
      assert t[|stem|..] == e;
    }
    if stem <= t && t[|stem|..] in endings {
      assert t == stem + t[|stem|..];
    }
  }

  /** The stem at i is the first of which t is a form. */
  ghost predicate IsFirstForm(stems: seq<(string, nat)>, endings: set<string>, t: string, i: int) {
    0 <= i < |stems| && IsForm(t, stems[i].0, endings) && forall j :: 0 <= j < i ==> !IsForm(t, stems[j].0, endings)
  }

  lemma {:induction false} FirstFormIsRead(stems: seq<(string, nat)>, endings: set<string>, t: string)
    ensures if StemValue(stems, endings, t) == None then forall j :: 0 <= j < |stems| ==> !IsForm(t, stems[j].0, endings)
            else exists i :: IsFirstForm(stems, endings, t, i) && stems[i].1 == StemValue(stems, endings, t).value
  {
    if stems != [] {
      FormIsPrefix(t, stems[0].0, endings);
      if IsForm(t, stems[0].0, endings) {
        assert IsFirstForm(stems, endings, t, 0);
      } else {
        var tail := stems[1..];
        FirstFormIsRead(tail, endings, t);
        assert forall j :: 0 < j < |stems| ==> stems[j] == tail[j - 1];
        if StemValue(tail, endings, t) != None {
          var i :| IsFirstForm(tail, endings, t, i) && tail[i].1 == StemValue(tail, endings, t).value;
          assert stems[i + 1] == tail[i];
          assert IsFirstForm(stems, endings, t, i + 1);
        }
      }
    }
  }

  /** The values a token has: its cardinal, or that of the first stem it is an ordinal form of. */
  ghost predicate HasValue(tab: Tables, t: string, v: nat, ordinal: bool) {
    t !in tab.thousands &&
    if t in tab.cardinals then v == tab.cardinals[t] && !ordinal
    else ordinal && exists i :: IsFirstForm(tab.stems, tab.endings, t, i) && tab.stems[i].1 == v
  }

  lemma {:induction false} ValueIsRead(tab: Tables, t: string, v: nat, ordinal: bool)
    ensures HasValue(tab, t, v, ordinal) <==> KindOf(tab, t) == Value(v, ordinal)
  {
    FirstFormIsRead(tab.stems, tab.endings, t);
    if HasValue(tab, t, v, ordinal) && ordinal {
      var i :| IsFirstForm(tab.stems, tab.endings, t, i) && tab.stems[i].1 == v;
      var k :| IsFirstForm(tab.stems, tab.endings, t, k) && tab.stems[k].1 == StemValue(tab.stems, tab.endings, t).value;
      assert !(i < k) && !(k < i);
    }
  }

  /** A token without a value is kept, and apart from "thousand" it cuts the stream. */
  lemma ValuelessStays(tab: Tables, t: string, x: seq<string>, y: seq<string>)
    requires forall v, ordinal :: !HasValue(tab, t, v, ordinal)
    ensures UkNumbers(tab, [t] + y) == [t] + UkNumbers(tab, y)
    ensures t !in tab.thousands ==> UkNumbers(tab, x + [t] + y) == UkNumbers(tab, x) + [t] + UkNumbers(tab, y)
  {
    var k := KindOf(tab, t);
    if k.Value? {
      ValueIsRead(tab, t, k.v, k.ordinal);
      assert false;
    }
    assert ([t] + y)[1..] == y;
    if t !in tab.thousands {
      PlainCuts(tab, x, t, y);
    }
  }
}
