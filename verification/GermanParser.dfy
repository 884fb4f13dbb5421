/** The German parser as the loops it is written in, proved against `German`. */
module GermanParser {
  import opened Decimal
  import opened German

  /** The `for` loop over the ordered list of morphemes; with tensOnly, the search for a ten after "und". */
  method FindMorph(ms: seq<Morph>, r: string, tensOnly: bool) returns (m: Option<Morph>)
    ensures m == First(ms, r, tensOnly)
  {
    for k := 0 to |ms|
      invariant First(ms[k..], r, tensOnly) == First(ms, r, tensOnly)
    {
      assert ms[k..][1..] == ms[k + 1..];
      if ms[k].0 <= r && (tensOnly ==> IsTens(ms[k].1)) {
        return Some(ms[k]);
      }
    }
    assert ms[|ms|..] == [];
    m := None;
  }

  lemma {:induction false} StartsWithIsPrefix(r: string, p: string)
    ensures StartsWith(r, p) == (p <= r)
  {
    if p != "" && r != "" {
      StartsWithIsPrefix(r[1..], p[1..]);
      assert r == [r[0]] + r[1..] && p == [p[0]] + p[1..];
    }
  }

  lemma {:induction false} FirstIsPrefix(ms: seq<Morph>, r: string, tensOnly: bool)
    ensures First(ms, r, tensOnly).Some? ==> First(ms, r, tensOnly).value.0 <= r
  {
    if ms != [] {
      FirstIsPrefix(ms[1..], r, tensOnly);
    }
  }

  lemma {:induction false} FirstIsNotEmpty(ms: seq<Morph>, r: string, tensOnly: bool)
    requires forall i :: 0 <= i < |ms| ==> ms[i].0 != ""
    ensures First(ms, r, tensOnly).Some? ==> First(ms, r, tensOnly).value.0 != ""
  {
    if ms != [] {
      FirstIsNotEmpty(ms[1..], r, tensOnly);
    }
  }

  /** One turn of the matching loop at a position where no "tausend", "hundert" or "und" was taken. */
  method MatchMorph(ms: seq<Morph>, r: string, a: Acc) returns (t: Option<Turn>)
    requires forall i :: 0 <= i < |ms| ==> ms[i].0 != ""
    ensures t == MorphTurn(ms, r, a)
    ensures t.Some? ==> 0 < t.value.length <= |r|
  {
    var m := FindMorph(ms, r, false);
    FirstIsPrefix(ms, r, false);
    FirstIsNotEmpty(ms, r, false);
    if m == None {
      return None;
    }
    var nxt := r[|m.value.0|..];
    StartsWithIsPrefix(nxt, "und");
    if "und" <= nxt {
      var tens := FindMorph(ms, nxt[3..], true);
      FirstIsPrefix(ms, nxt[3..], true);
      if tens.Some? {
        return Some(Turn(a.Plus(m.value.1 + tens.value.1), |m.value.0| + 3 + |tens.value.0|));
      }
    }
    t := Some(Turn(a.Plus(m.value.1), |m.value.0|));
  }

  /** The loop's body: what is matched at the front of the rest of the word. */
  method MatchTurn(ms: seq<Morph>, rest: string, a: Acc) returns (t: Option<Turn>)
    requires forall i :: 0 <= i < |ms| ==> ms[i].0 != ""
    ensures t == TurnOf(ms, rest, a)
    ensures t.Some? ==> 0 < t.value.length <= |rest|
  {
    StartsWithIsPrefix(rest, "tausend");
    StartsWithIsPrefix(rest, "hundert");
    StartsWithIsPrefix(rest, "und");
    if "tausend" <= rest {
      t := Some(Turn(a.Thousand(), 7));
    } else if "hundert" <= rest {
      t := Some(Turn(a.Hundred(), 7));
    } else if "und" <= rest && a.matched {
      t := Some(Turn(a, 3));
    } else {
      t := MatchMorph(ms, rest, a);
    }
  }

  lemma ScanOneTurn(ms: seq<Morph>, r: string, a: Acc)
    requires r != ""
    ensures var t := TurnOf(ms, r, a);
            && (t == None ==> Scan(ms, r, a) == None)
            && (t.Some? && 0 < t.value.length <= |r| ==> Scan(ms, r, a) == Scan(ms, r[t.value.length..], t.value.acc))
  {
  }

  /** The matching loop over a whole word. */
  method MatchWord(ms: seq<Morph>, w: string) returns (r: Option<Acc>)
    requires forall i :: 0 <= i < |ms| ==> ms[i].0 != ""
    ensures r == Scan(ms, w, START)
  {
    var acc, pos := START, 0;
    while pos < |w|
      invariant 0 <= pos <= |w|
      invariant Scan(ms, w[pos..], acc) == Scan(ms, w, START)
    {
      var rest := w[pos..];
      var t := MatchTurn(ms, rest, acc);
      ScanOneTurn(ms, rest, acc);
      if t == None {
        return None;
      }
      pos := pos + t.value.length;
      acc := t.value.acc;
      assert w[pos..] == rest[t.value.length..];
    }
    r := Some(acc);
  }

  lemma MorphsAreNotEmpty()
    ensures forall i :: 0 <= i < |MORPHS| ==> MORPHS[i].0 != ""
  {
    assert NoneEmpty(LINE1) && NoneEmpty(LINE2) && NoneEmpty(LINE3) && NoneEmpty(LINE4);
    assert NoneEmpty(LINE5) && NoneEmpty(LINE6) && NoneEmpty(LINE7) && NoneEmpty(LINE8);
  }

  predicate NoneEmpty(ms: seq<Morph>) {
    forall i :: 0 <= i < |ms| ==> ms[i].0 != ""
  }

  method ParseCompound(w: string) returns (r: Option<nat>)
    ensures r == Compound(w)
  {
    if Irregular(w).Some? {
      return Irregular(w);
    }
    var ordinal := Strip(w) != w && Strip(w) != "";
    var body := if ordinal then Strip(w) else w;
    MorphsAreNotEmpty();
    var a := MatchWord(MORPHS, body);
    if a == None || !a.value.matched || (ordinal && (body == "ein" || body == "eins")) {
      return None;
    }
    r := Some(a.value.Value());
  }

  method ParseToken(t: string) returns (r: Option<nat>)
    ensures r == ParseDe(t)
  {
    if IsArticle(t) || IsNumeral(t) {
      return None;
    }
    r := ParseCompound(t);
  }

  lemma Rewritten(read: string -> Option<nat>, out: seq<string>, toks: seq<string>, i: nat)
    requires i < |toks|
    ensures StartsDecimal(read, toks[i..]) ==>
              out + Rewrite(read, toks[i..])
              == out + [Str(read(toks[i]).value) + "." + Str(read(toks[i + 2]).value)] + Rewrite(read, toks[i + 3..])
    ensures !StartsDecimal(read, toks[i..]) ==>
              out + Rewrite(read, toks[i..])
              == out + [if read(toks[i]).Some? then Str(read(toks[i]).value) else toks[i]] + Rewrite(read, toks[i + 1..])
  {
    assert toks[i..][1..] == toks[i + 1..];
    if StartsDecimal(read, toks[i..]) {
      assert toks[i..][3..] == toks[i + 3..];
    }
  }

  /** The German branch of `_numbers_to_digits`. */
  method ParseGerman(toks: seq<string>) returns (out: seq<string>)
    ensures out == DeNumbers(toks)
  {
    out := [];
    var i := 0;
    while i < |toks|
      invariant 0 <= i <= |toks|
      invariant out + Rewrite(ParseDe, toks[i..]) == Rewrite(ParseDe, toks)
    {
      Rewritten(ParseDe, out, toks, i);
      var v := ParseToken(toks[i]);
      if v.Some? && i + 2 < |toks| && toks[i + 1] == "komma" {
        var fraction := ParseToken(toks[i + 2]);
        if fraction.Some? {
          out := out + [Str(v.value) + "." + Str(fraction.value)];
          i := i + 3;
          continue;
        }
      }
      out := out + [if v.Some? then Str(v.value) else toks[i]];
      i := i + 1;
    }
  }
}
