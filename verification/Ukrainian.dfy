/**
 Ukrainian number words inside a token stream become digits. The tables are a parameter;
 `UkrainianTables` supplies them.
 */
module Ukrainian {
  import opened Decimal

  /** Cardinal forms, forms of "thousand", ordinal stems (longest first) and ordinal endings. */
  datatype Tables = Tables(cardinals: map<string, nat>, thousands: set<string>,
                           stems: seq<(string, nat)>, endings: set<string>)

  datatype Kind = Value(v: nat, ordinal: bool) | Thousand | Plain

  /** The first stem that begins the token and leaves an ordinal ending. */
  function StemValue(stems: seq<(string, nat)>, endings: set<string>, t: string): Option<nat> {
    if stems == [] then None
    else if stems[0].0 <= t && t[|stems[0].0|..] in endings then Some(stems[0].1)
    else StemValue(stems[1..], endings, t)
  }

  function KindOf(tab: Tables, t: string): Kind {
    if t in tab.thousands then Thousand
    else if t in tab.cardinals then Value(tab.cardinals[t], false)
    else
      match StemValue(tab.stems, tab.endings, t)
      case Some(v) => Value(v, true)
      case None => Plain
  }

  /** No entry is or begins a numeral, and every value from 20 up is a multiple of ten. */
  predicate Wf(tab: Tables) {
    && (forall t :: t in tab.thousands ==> !IsNumeral(t))
    && (forall t :: t in tab.cardinals ==> !IsNumeral(t) && (tab.cardinals[t] >= 20 ==> tab.cardinals[t] % 10 == 0))
    && (forall i :: 0 <= i < |tab.stems| ==>
          tab.stems[i].0 != "" && !IsDigit(tab.stems[i].0[0]) && (tab.stems[i].1 >= 20 ==> tab.stems[i].1 % 10 == 0))
  }

  predicate IsPlain(tab: Tables, t: string) {
    KindOf(tab, t) == Plain
  }

  // ---------------------------------------------------------------- the scan

  datatype Acc = Acc(total: nat, current: nat, lastPlace: nat) {
    function Value(): nat { total + current }
  }

  const START := Acc(0, 0, 10_000)

  datatype Move = Take(acc: Acc) | Last(acc: Acc) | Stop

  function PlaceOf(v: nat): nat {
    if v >= 100 then 100 else if v >= 20 then 10 else 1
  }

  function Advance(k: Kind, a: Acc): Move {
    match k
    case Thousand => Take(Acc(a.total + (if a.current == 0 then 1 else a.current) * 1000, 0, 1000))
    case Plain => Stop
    case Value(v, ordinal) =>
      var place := PlaceOf(v);
      if place >= a.lastPlace
         || (place == 1 && a.current % 10 != 0 && a.current % 100 < 20 && a.current % 100 != 0)
      then Stop
      else
        var b := Acc(a.total, a.current + v, if v >= 20 then place else 1);
        if ordinal then Last(b) else Take(b)
  }

  datatype Scanned = Scanned(acc: Acc, rest: seq<string>)

  function Scan(tab: Tables, ws: seq<string>, a: Acc): (s: Scanned)
    ensures |s.rest| <= |ws|
  {
    if ws == [] then Scanned(a, ws)
    else
      match Advance(KindOf(tab, ws[0]), a)
      case Stop => Scanned(a, ws)
      case Last(b) => Scanned(b, ws[1..])
      case Take(b) => Scan(tab, ws[1..], b)
  }

  datatype Step = Step(token: string, rest: seq<string>)

  /** The next output token and the input left behind it: a number never starts with "thousand". */
  function Next(tab: Tables, toks: seq<string>): (step: Step)
    requires toks != []
    ensures |step.rest| < |toks|
  {
    if KindOf(tab, toks[0]).Value? then
      var s := Scan(tab, toks, START);
      Step(Str(s.acc.Value()), s.rest)
    else Step(toks[0], toks[1..])
  }

  function UkNumbers(tab: Tables, toks: seq<string>): (out: seq<string>)
    decreases |toks|
  {
    if toks == [] then []
    else [Next(tab, toks).token] + UkNumbers(tab, Next(tab, toks).rest)
  }

  // ---------------------------------------------------------------- the loops

  /** `_uk_numbers`: the outer loop. */
  method ParseUkrainian(tab: Tables, toks: seq<string>) returns (out: seq<string>)
    ensures out == UkNumbers(tab, toks)
  {
    out := [];
    var i := 0;
    while i < |toks|
      invariant 0 <= i <= |toks|
      invariant out + UkNumbers(tab, toks[i..]) == UkNumbers(tab, toks)
    {
      var token, after := toks[i], i + 1;
      if KindOf(tab, toks[i]).Value? {
        var a: Acc;
        a, after := ReadNumber(tab, toks, i);
        token := Str(a.total + a.current);
      }
      assert toks[i..][1..] == toks[i + 1..];
      Emitted(tab, out, toks[i..], token, toks[after..]);
      out, i := out + [token], after;
    }
  }

  lemma Emitted(tab: Tables, out: seq<string>, todo: seq<string>, token: string, rest: seq<string>)
    requires todo != [] && Next(tab, todo) == Step(token, rest)
    ensures out + UkNumbers(tab, todo) == out + [token] + UkNumbers(tab, rest)
  {
  }

  /** The inner loop, with the source's `total`, `current` and `last_place`. */
  method ReadNumber(tab: Tables, toks: seq<string>, i: nat) returns (a: Acc, j: nat)
    requires i < |toks| && KindOf(tab, toks[i]).Value?
    ensures i < j <= |toks|
    ensures Scan(tab, toks[i..], START) == Scanned(a, toks[j..])
  {
    a, j := START, i;
    while j < |toks|
      invariant i <= j <= |toks|
      invariant j == i ==> a == START
      invariant Scan(tab, toks[j..], a) == Scan(tab, toks[i..], START)
    {
      assert toks[j..][1..] == toks[j + 1..];
      var k := KindOf(tab, toks[j]);
      if k == Thousand {
        a, j := Acc(a.total + (if a.current == 0 then 1 else a.current) * 1000, 0, 1000), j + 1;
        continue;
      }
      if k == Plain { break; }
      var place := PlaceOf(k.v);
      if place >= a.lastPlace
         || (place == 1 && a.current % 10 != 0 && a.current % 100 < 20 && a.current % 100 != 0) {
        break;
      }
      a, j := Acc(a.total, a.current + k.v, if k.v >= 20 then place else 1), j + 1;
      if k.ordinal { return; }
    }
  }
}
