/** German number compounds: one word holds the whole number, units before tens. */
module German {
  import opened Decimal

  type Morph = (string, nat)

  /** The morphemes in the order they are tried, four to a line. */
  const LINE1: seq<Morph> := [("dreizehn", 13), ("vierzehn", 14), ("fünfzehn", 15), ("sechzehn", 16)]
  const LINE2: seq<Morph> := [("siebzehn", 17), ("achtzehn", 18), ("neunzehn", 19), ("zwanzig", 20)]
  const LINE3: seq<Morph> := [("dreißig", 30), ("dreissig", 30), ("vierzig", 40), ("fünfzig", 50)]
  const LINE4: seq<Morph> := [("sechzig", 60), ("siebzig", 70), ("achtzig", 80), ("neunzig", 90)]
  const LINE5: seq<Morph> := [("zwölf", 12), ("elf", 11), ("zehn", 10), ("null", 0)]
  const LINE6: seq<Morph> := [("eins", 1), ("ein", 1), ("zwei", 2), ("zwo", 2)]
  const LINE7: seq<Morph> := [("drei", 3), ("vier", 4), ("fünf", 5), ("sechs", 6)]
  const LINE8: seq<Morph> := [("sieben", 7), ("acht", 8), ("neun", 9)]

  const MORPHS: seq<Morph> := LINE1 + LINE2 + LINE3 + LINE4 + LINE5 + LINE6 + LINE7 + LINE8

  /** Python's `r.startswith(p)`. */
  predicate StartsWith(r: string, p: string) {
    p == "" || (r != "" && r[0] == p[0] && StartsWith(r[1..], p[1..]))
  }

  predicate IsTens(v: nat) {
    v >= 20 && v % 10 == 0
  }

  /** The first morpheme in the list that begins r; with tensOnly, the first that names a ten. */
  function First(ms: seq<Morph>, r: string, tensOnly: bool): Option<Morph> {
    if ms == [] then None
    else if ms[0].0 <= r && (tensOnly ==> IsTens(ms[0].1)) then Some(ms[0])
    else First(ms[1..], r, tensOnly)
  }

  datatype Acc = Acc(total: nat, current: nat, matched: bool) {
    function Value(): nat { total + current }
    function Thousand(): Acc { Acc(total + (if current == 0 then 1 else current) * 1000, 0, true) }
    function Hundred(): Acc { Acc(total, (if current == 0 then 1 else current) * 100, true) }
    function Plus(v: nat): Acc { Acc(total, current + v, true) }
  }

  const START := Acc(0, 0, false)

  /** One turn of the matching loop on the rest of the word: the new accumulator and how much was matched. */
  datatype Turn = Turn(acc: Acc, length: nat)

  function MorphTurn(ms: seq<Morph>, r: string, a: Acc): Option<Turn> {
    match First(ms, r, false)
    case None => None
    case Some(m) => Some(WithTens(ms, m, if |m.0| <= |r| then r[|m.0|..] else "", a))
  }

  /** A morpheme m and what follows it: after "und" a ten belongs to it, for units come before tens. */
  function WithTens(ms: seq<Morph>, m: Morph, nxt: string, a: Acc): Turn {
    if StartsWith(nxt, "und") && |nxt| >= 3 && First(ms, nxt[3..], true).Some? then
      var tens := First(ms, nxt[3..], true).value;
      Turn(a.Plus(m.1 + tens.1), |m.0| + 3 + |tens.0|)
    else Turn(a.Plus(m.1), |m.0|)
  }

  function TurnOf(ms: seq<Morph>, r: string, a: Acc): Option<Turn> {
    if StartsWith(r, "tausend") then Some(Turn(a.Thousand(), 7))
    else if StartsWith(r, "hundert") then Some(Turn(a.Hundred(), 7))
    else if StartsWith(r, "und") && a.matched then Some(Turn(a, 3))
    else MorphTurn(ms, r, a)
  }

  /** The matching loop from the rest of the word to its end; None when no morpheme fits. */
  function Scan(ms: seq<Morph>, r: string, a: Acc): Option<Acc>
    decreases |r|
  {
    if r == "" then Some(a)
    else
      match TurnOf(ms, r, a)
      case None => None
      case Some(t) => if 0 < t.length <= |r| then Scan(ms, r[t.length..], t.acc) else None
  }

  // ---------------------------------------------------------------- ordinal endings

  /** The length of a final te, ten, ter, tes or tem; 0 when there is none. */
  function EndingLength(w: string): (n: nat)
    ensures n <= |w|
  {
    var l := |w|;
    if l >= 2 && w[l - 2] == 't' && w[l - 1] == 'e' then 2
    else if l >= 3 && w[l - 3] == 't' && w[l - 2] == 'e' && w[l - 1] in "nrsm" then 3
    else 0
  }

  /** The word without its ordinal ending, and without one "s" before it. */
  function Strip(w: string): (stem: string)
    ensures stem <= w
  {
    var n := EndingLength(w);
    var stem := w[..|w| - n];
    if n != 0 && stem != "" && stem[|stem| - 1] == 's' then stem[..|stem| - 1] else stem
  }

  /** w is a form of the irregular ordinal with this stem. */
  predicate IsFormOf(w: string, stem: string) {
    || Strip(w) == stem || Strip(w) == stem + "e"
    || w == stem + "e" || w == stem + "en" || w == stem + "er" || w == stem + "es" || w == stem + "em"
  }

  function Irregular(w: string): Option<nat> {
    if IsFormOf(w, "erst") then Some(1)
    else if IsFormOf(w, "dritt") then Some(3)
    else if IsFormOf(w, "siebt") then Some(7)
    else if IsFormOf(w, "acht") then Some(8)
    else None
  }

  // ---------------------------------------------------------------- one token

  function Compound(w: string): Option<nat> {
    if Irregular(w).Some? then Irregular(w)
    else
      var ordinal := Strip(w) != w && Strip(w) != "";
      var body := if ordinal then Strip(w) else w;
      Regular(body, ordinal)
  }

  function Regular(body: string, ordinal: bool): Option<nat> {
    match Scan(MORPHS, body, START)
    case None => None
    case Some(a) =>
      if !a.matched || (ordinal && (body == "ein" || body == "eins")) then None else Some(a.Value())
  }

  predicate IsArticle(t: string) {
    t == "ein" || t == "eine" || t == "einen" || t == "einem" || t == "einer" || t == "eines"
  }

  function ParseDe(t: string): Option<nat> {
    if IsArticle(t) || IsNumeral(t) then None else Compound(t)
  }

  // ---------------------------------------------------------------- the token stream

  /** "A komma B" at the front of the stream, A and B number words. */
  predicate StartsDecimal(read: string -> Option<nat>, toks: seq<string>) {
    |toks| > 2 && read(toks[0]).Some? && toks[1] == "komma" && read(toks[2]).Some?
  }

  /** The stream with every decimal and every number word rewritten, given how one token is read. */
  function Rewrite(read: string -> Option<nat>, toks: seq<string>): (out: seq<string>) {
    if toks == [] then []
    else if StartsDecimal(read, toks) then
      [Str(read(toks[0]).value) + "." + Str(read(toks[2]).value)] + Rewrite(read, toks[3..])
    else
      [if read(toks[0]).Some? then Str(read(toks[0]).value) else toks[0]] + Rewrite(read, toks[1..])
  }

  function DeNumbers(toks: seq<string>): (out: seq<string>) {
    Rewrite(ParseDe, toks)
  }
}
