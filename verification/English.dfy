/**
 English number words inside a token stream become digits.

 The tables of number words are a parameter: a lexicon gives each known token its kind, and
 every other token is plain. `EnglishTables` supplies the tables themselves.
 */
module English {
  import opened Decimal

  /** What the parser can see in a token. `Oh` is listed with the units but has no value. */
  datatype Kind = Unit(v: nat) | Oh | Tens(v: nat) | Ordinal(v: nat) | Hundred | Thousand | And | Plain

  type Lexicon = map<string, Kind>

  function KindOf(lex: Lexicon, t: string): Kind {
    if t in lex then lex[t] else Plain
  }

  predicate WfKind(k: Kind) {
    match k
    case Unit(v) => v < 20
    case Tens(v) => 20 <= v <= 90 && v % 10 == 0
    case _ => true
  }

  /** Units are below 20, tens are 20 to 90, and no number word is itself a numeral. */
  predicate Wf(lex: Lexicon) {
    forall t :: t in lex ==> !IsNumeral(t) && WfKind(lex[t])
  }

  predicate IsPlain(lex: Lexicon, t: string) {
    KindOf(lex, t) == Plain
  }

  /** A member of the unit or tens table: what the "and" and year lookaheads accept. */
  predicate IsSmall(k: Kind) {
    k.Unit? || k.Oh? || k.Tens?
  }

  // ---------------------------------------------------------------- the scan

  datatype Acc = Acc(total: nat, current: nat, pureSmall: bool) {
    function Value(): nat { total + current }
  }

  const START := Acc(0, 0, true)

  /** What the next token does: it is added, it is added and ends the number, or it is not part of it. */
  datatype Move = Take(acc: Acc) | Last(acc: Acc) | Stop

  function Advance(k: Kind, smallNext: bool, a: Acc): Move {
    match k
    case Unit(u) =>
      if a.current % 100 == 0 || (a.current % 100 >= 20 && a.current % 10 == 0 && u < 10) then
        Take(a.(current := a.current + u))
      else Stop
    case Tens(v) =>
      if a.current % 100 == 0 then Take(a.(current := a.current + v)) else Stop
    case Ordinal(o) =>
      if a.current % 100 >= 20 && a.current % 10 == 0 && o < 10 then
        Last(a.(current := a.current + o))
      else Stop
    case Hundred =>
      if a.current != 0 then Take(Acc(a.total, a.current * 100, false)) else Stop
    case Thousand =>
      if a.current != 0 || a.total != 0 then
        Take(Acc(a.total + (if a.current == 0 then 1 else a.current) * 1000, 0, false))
      else Stop
    case And => if !a.pureSmall && smallNext then Take(a) else Stop
    case _ => Stop
  }

  predicate SmallFirst(lex: Lexicon, ws: seq<string>) {
    ws != [] && IsSmall(KindOf(lex, ws[0]))
  }

  datatype Scanned = Scanned(acc: Acc, rest: seq<string>)

  /** The longest run of tokens from the front that the scan takes, and what is left. */
  function Scan(lex: Lexicon, ws: seq<string>, a: Acc): (s: Scanned)
    ensures |s.rest| <= |ws|
  {
    if ws == [] then Scanned(a, ws)
    else
      match Advance(KindOf(lex, ws[0]), SmallFirst(lex, ws[1..]), a)
      case Stop => Scanned(a, ws)
      case Last(b) => Scanned(b, ws[1..])
      case Take(b) => Scan(lex, ws[1..], b)
  }

  predicate StartsNumber(lex: Lexicon, ws: seq<string>) {
    ws != [] && (KindOf(lex, ws[0]).Unit? || KindOf(lex, ws[0]).Tens?)
  }

  /** Up to two unit or tens words from the front: the candidate second half of a year. */
  function YearHalf(lex: Lexicon, ws: seq<string>): (nxt: seq<string>)
    ensures |nxt| <= 2 && nxt <= ws
  {
    if !SmallFirst(lex, ws) then []
    else if !SmallFirst(lex, ws[1..]) then ws[..1]
    else ws[..2]
  }

  /** The words nxt are one number, and all of it. */
  predicate IsOneNumber(lex: Lexicon, nxt: seq<string>) {
    StartsNumber(lex, nxt) && Scan(lex, nxt, START).rest == []
  }

  predicate YearFirst(s: Scanned) {
    s.acc.pureSmall && 10 <= s.acc.Value() <= 99 && s.rest != []
  }

  datatype Step = Step(token: string, rest: seq<string>)

  /** The next output token and the input left behind it. */
  function Next(lex: Lexicon, toks: seq<string>): (step: Step)
    requires toks != []
    ensures |step.rest| < |toks|
  {
    var k := KindOf(lex, toks[0]);
    if k.Ordinal? then Step(Str(k.v), toks[1..])
    else if k.Unit? || k.Tens? then NextNumber(lex, toks)
    else Step(toks[0], toks[1..])
  }

  /** A number starts here: read it to its end. */
  function NextNumber(lex: Lexicon, toks: seq<string>): (step: Step)
    requires StartsNumber(lex, toks)
    ensures |step.rest| < |toks|
  {
    ScanTakesFirst(lex, toks);
    Emit(lex, Scan(lex, toks, START))
  }

  lemma ScanTakesFirst(lex: Lexicon, toks: seq<string>)
    requires StartsNumber(lex, toks)
    ensures |Scan(lex, toks, START).rest| < |toks|
  {
    assert Advance(KindOf(lex, toks[0]), SmallFirst(lex, toks[1..]), START).Take?;
  }

  /** The numeral for a scanned number: a year if it is the first half of one, else its value. */
  function Emit(lex: Lexicon, s: Scanned): (step: Step)
    ensures |step.rest| <= |s.rest|
  {
    var nxt := YearHalf(lex, s.rest);
    if YearFirst(s) && IsOneNumber(lex, nxt) then
      Step(Str(s.acc.Value() * 100 + Scan(lex, nxt, START).acc.Value()), s.rest[|nxt|..])
    else
      Step(Str(s.acc.Value()), s.rest)
  }

  function EnNumbers(lex: Lexicon, toks: seq<string>): (out: seq<string>)
    decreases |toks|
  {
    if toks == [] then []
    else [Next(lex, toks).token] + EnNumbers(lex, Next(lex, toks).rest)
  }
}
