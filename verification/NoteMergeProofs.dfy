/** What merging notes guarantees. */
module NoteMergeProofs {
  import Decimal
  import opened NoteMerge

  // ---------------------------------------------------------------- trailing white space does not change a key

  lemma {:induction false} SkipWhileMore(p: char -> bool, s: string, c: char)
    ensures SkipWhile(p, s + [c]) == if SkipWhile(p, s) == "" && p(c) then "" else SkipWhile(p, s) + [c]
  {
    if s == "" {
      assert s + [c] == [c] && [c][1..] == "";
    } else {
      assert (s + [c])[1..] == s[1..] + [c];
      if p(s[0]) {
        SkipWhileMore(p, s[1..], c);
      }
    }
  }

  lemma SkipNumberMore(s: string, c: char)
    requires IsSpace(c)
    ensures SkipNumber(s + [c]) == SkipNumber(s) + [c] || (SkipNumber(s + [c]) == "" && SkipNumber(s) == "")
  {
    var t := s + [c];
    if |s| >= 2 && Decimal.IsDigit(s[0]) && EndsNumber(s[1]) {
      assert t[2..] == s[2..] + [c];
      SkipWhileMore(IsSpace, s[2..], c);
    } else if |s| >= 3 && Decimal.IsDigit(s[0]) && Decimal.IsDigit(s[1]) && EndsNumber(s[2]) {
      assert t[3..] == s[3..] + [c];
      SkipWhileMore(IsSpace, s[3..], c);
    }
  }

  lemma DropBulletMore(s: string, c: char)
    requires IsSpace(c)
    ensures DropBullet(s + [c]) == DropBullet(s) + [c] || (DropBullet(s + [c]) == "" && DropBullet(s) == "")
  {
    var a := SkipWhile(BeforeNumber, s);
    SkipWhileMore(BeforeNumber, s, c);
    SkipNumberMore(a, c);
    SkipWhileMore(AfterNumber, SkipNumber(a), c);
  }

  lemma TrimOfCollapseMore(s: string, c: char)
    requires IsSpace(c)
    ensures Trim(Collapse(s + [c])) == Trim(Collapse(s))
  {
    assert (s + [c])[..|s|] == s;
    var r := Collapse(s);
    assert (r + " ")[..|r|] == r;
  }

  lemma KeyIgnoresTrailingSpace(line: string, c: char)
    requires IsSpace(c)
    ensures Normalise(line + [c]) == Normalise(line)
  {
    DropBulletMore(line, c);
    TrimOfCollapseMore(DropBullet(line), c);
  }

  // ---------------------------------------------------------------- lines of texts put together

  lemma {:induction false} NotBlankConcat(a: seq<string>, b: seq<string>)
    ensures NotBlank(a + b) == NotBlank(a) + NotBlank(b)
  {
    if b == [] {
      assert a + b == a;
    } else {
      assert (a + b)[..|a + b| - 1] == a + b[..|b| - 1];
      NotBlankConcat(a, b[..|b| - 1]);
    }
  }

  lemma SplitMore(s: string, c: char)
    ensures Split(s + [c]) == if c == '\n' then Split(s) + [""] else AddToLast(Split(s), c)
  {
    assert (s + [c])[..|s|] == s;
  }

  lemma AddToLastConcat(r: seq<string>, q: seq<string>, c: char)
    requires q != []
    ensures AddToLast(r + q, c) == r + AddToLast(q, c)
  {
    assert (r + q)[..|r + q| - 1] == r + q[..|q| - 1];
  }

  lemma {:induction false} SplitOfTwo(a: string, b: string)
    ensures Split(a + "\n" + b) == Split(a) + Split(b)
  {
    if b == "" {
      assert a + "\n" + b == a + ['\n'];
      SplitMore(a, '\n');
    } else {
      var b', c := b[..|b| - 1], b[|b| - 1];
      SplitOfTwo(a, b');
      assert a + "\n" + b == a + "\n" + b' + [c] && b == b' + [c];
      SplitOfTwoMore(a + "\n" + b', Split(a), b', c);
    }
  }

  lemma SplitOfTwoMore(t: string, r: seq<string>, b: string, c: char)
    requires Split(t) == r + Split(b)
    ensures Split(t + [c]) == r + Split(b + [c])
  {
    SplitMore(t, c);
    SplitMore(b, c);
    AddToLastConcat(r, Split(b), c);
  }

  lemma LinesOfTwo(a: string, b: string)
    ensures Lines(a + "\n" + b) == Lines(a) + Lines(b)
  {
    SplitOfTwo(a, b);
    NotBlankConcat(Split(a), Split(b));
  }

  predicate OneLine(l: string) {
    '\n' !in l
  }

  lemma {:induction false} SplitOneLine(l: string)
    requires OneLine(l)
    ensures Split(l) == [l]
  {
    if l != "" {
      SplitOneLine(l[..|l| - 1]);
      assert l[..|l| - 1] + [l[|l| - 1]] == l;
    }
  }

  lemma LinesOfOneLine(l: string)
    requires OneLine(l)
    ensures Lines(l) == if AllSpace(l) then [] else [l]
  {
    SplitOneLine(l);
    NotBlankOne(l);
  }

  lemma NotBlankOne(l: string)
    ensures NotBlank([l]) == if AllSpace(l) then [] else [l]
  {
    assert [l][..0] == [];
  }

  lemma {:induction false} SplitsAreLines(s: string)
    ensures forall l :: l in Split(s) ==> OneLine(l)
  {
    if s != "" {
      var r := Split(s[..|s| - 1]);
      SplitsAreLines(s[..|s| - 1]);
      assert r[|r| - 1] in r;
      forall l | l in Split(s) ensures OneLine(l) {
        assert l in r || l == "" || l == r[|r| - 1] + [s[|s| - 1]];
      }
    }
  }

  lemma {:induction false} NotBlankMembers(ls: seq<string>)
    ensures forall l :: l in NotBlank(ls) <==> l in ls && !AllSpace(l)
  {
    if ls != [] {
      NotBlankMembers(ls[..|ls| - 1]);
      assert forall l :: l in ls <==> l in ls[..|ls| - 1] || l == ls[|ls| - 1];
    }
  }

  lemma LinesAreLines(s: string)
    ensures forall l :: l in Lines(s) ==> OneLine(l) && !AllSpace(l)
  {
    SplitsAreLines(s);
    NotBlankMembers(Split(s));
  }

  lemma LinesOfOneMore(s: string, l: string)
    requires OneLine(l) && !AllSpace(l)
    ensures Lines(s + "\n" + l) == Lines(s) + [l]
  {
    LinesOfTwo(s, l);
    LinesOfOneLine(l);
  }

  lemma {:induction false} LinesOfJoin(ls: seq<string>)
    requires forall l :: l in ls ==> OneLine(l) && !AllSpace(l)
    ensures Lines(Join(ls)) == ls
  {
    if ls == [] {
      LinesOfOneLine("");
    } else if |ls| == 1 {
      assert ls[0] in ls && ls == [ls[0]];
      LinesOfOneLine(ls[0]);
    } else {
      var init, last := ls[..|ls| - 1], ls[|ls| - 1];
      assert last in ls && forall l :: l in init ==> l in ls;
      LinesOfJoin(init);
      LinesOfOneMore(Join(init), last);
      assert ls == init + [last];
    }
  }

  // ---------------------------------------------------------------- the remote text without its trailing white space

  /** The keys of the lines, in order. */
  function KeySeq(ls: seq<string>): seq<string> {
    if ls == [] then [] else KeySeq(ls[..|ls| - 1]) + [Normalise(ls[|ls| - 1])]
  }

  lemma {:induction false} KeySeqConcat(a: seq<string>, b: seq<string>)
    ensures KeySeq(a + b) == KeySeq(a) + KeySeq(b)
  {
    if b == [] {
      assert a + b == a;
    } else {
      assert (a + b)[..|a + b| - 1] == a + b[..|b| - 1];
      KeySeqConcat(a, b[..|b| - 1]);
    }
  }

  lemma OneKey(l: string)
    ensures KeySeq(NotBlank([l])) == if AllSpace(l) then [] else [Normalise(l)]
  {
    NotBlankOne(l);
    assert [l][..0] == [];
  }

  /** The keys of some pieces and one more. */
  lemma KeysOfPieces(init: seq<string>, last: string)
    ensures KeySeq(NotBlank(init + [last])) == KeySeq(NotBlank(init)) + (if AllSpace(last) then [] else [Normalise(last)])
  {
    NotBlankConcat(init, [last]);
    KeySeqConcat(NotBlank(init), NotBlank([last]));
    OneKey(last);
  }

  lemma SpaceAtTheEnd(s: string, c: char)
    requires IsSpace(c)
    ensures KeySeq(Lines(s + [c])) == KeySeq(Lines(s))
  {
    SplitMore(s, c);
    var r := Split(s);
    var init, last := r[..|r| - 1], r[|r| - 1];
    assert r == init + [last];
    if c == '\n' {
      KeysOfPieces(r, "");
    } else {
      KeysOfPieces(init, last);
      KeysOfPieces(init, last + [c]);
      KeyIgnoresTrailingSpace(last, c);
      BlankMore(last, c);
    }
  }

  lemma BlankMore(l: string, c: char)
    requires IsSpace(c)
    ensures AllSpace(l + [c]) <==> AllSpace(l)
  {
    if AllSpace(l + [c]) {
      forall i | 0 <= i < |l| ensures IsSpace(l[i]) { assert (l + [c])[i] == l[i]; }
    }
  }

  lemma {:induction false} TrimmedKeepsKeys(s: string)
    ensures KeySeq(Lines(TrimEnd(s))) == KeySeq(Lines(s))
  {
    if s != "" && IsSpace(s[|s| - 1]) {
      var t, c := s[..|s| - 1], s[|s| - 1];
      TrimmedKeepsKeys(t);
      SpaceAtTheEnd(t, c);
      assert s == t + [c];
    }
  }

  lemma {:induction false} KeySeqMembers(ls: seq<string>)
    ensures forall k :: k in KeySeq(ls) <==> exists l :: l in ls && Normalise(l) == k
  {
    if ls != [] {
      KeySeqMembers(ls[..|ls| - 1]);
      assert forall l :: l in ls <==> l in ls[..|ls| - 1] || l == ls[|ls| - 1];
    }
  }

  /** A text's key set is the set of its key sequence. */
  lemma KeysAre(s: string)
    ensures forall k :: k in Keys(s) <==> k in KeySeq(Lines(s))
  {
    KeySeqMembers(Lines(s));
  }

  // ---------------------------------------------------------------- what a merge holds

  lemma {:induction false} UnseenMembers(ls: seq<string>, have: set<string>)
    ensures forall l :: l in Unseen(ls, have) <==> l in ls && Normalise(l) !in have
  {
    if ls != [] {
      UnseenMembers(ls[..|ls| - 1], have);
      assert forall l :: l in ls <==> l in ls[..|ls| - 1] || l == ls[|ls| - 1];
    }
  }

  /** The lines of an appended text: the remote's, the divider, and the news lines as they were typed. */
  lemma LinesOfAppended(remote: string, news: seq<string>)
    requires forall l :: l in news ==> OneLine(l) && !AllSpace(l)
    ensures Lines(Appended(remote, news)) == Lines(TrimEnd(remote)) + [DIVIDER] + news
  {
    LinesOfJoin(news);
    LinesUnderDivider(TrimEnd(remote), Join(news));
  }

  lemma LinesUnderDivider(base: string, below: string)
    ensures Lines(base + "\n" + "" + "\n" + DIVIDER + "\n" + below) == Lines(base) + [DIVIDER] + Lines(below)
  {
    LinesOfTwo(base + "\n" + "" + "\n" + DIVIDER, below);
    LinesOfTwo(base + "\n" + "", DIVIDER);
    LinesOfTwo(base, "");
    NoLinesAndDivider();
  }

  lemma NoLinesAndDivider()
    ensures Lines("") == [] && Lines(DIVIDER) == [DIVIDER]
  {
    LinesOfOneLine("");
    LinesOfOneLine(DIVIDER);
    assert !IsSpace(DIVIDER[0]);
  }

  lemma DividerHasNoKey()
    ensures Normalise(DIVIDER) == ""
  {
    assert "---"[1..] == "--" && "--"[1..] == "-" && "-"[1..] == "";
    assert SkipWhile(BeforeNumber, "-") == "" && SkipWhile(BeforeNumber, "--") == "";
  }

  lemma KeysOfAppended(remote: string, news: seq<string>)
    requires forall l :: l in news ==> OneLine(l) && !AllSpace(l)
    ensures forall k :: k in Keys(Appended(remote, news)) <==> k in Keys(remote) || k == "" || k in KeySeq(news)
  {
    var m := Appended(remote, news);
    LinesOfAppended(remote, news);
    DividerHasNoKey();
    KeysAre(m);
    KeysAre(remote);
    TrimmedKeepsKeys(remote);
    KeySeqConcat(Lines(TrimEnd(remote)) + [DIVIDER], news);
    KeySeqConcat(Lines(TrimEnd(remote)), [DIVIDER]);
    assert [DIVIDER][..0] == [];
    assert KeySeq([DIVIDER]) == [""];
  }

  lemma {:induction false} BlankHasNoLines(s: string)
    requires AllSpace(s)
    ensures Lines(s) == []
  {
    if s == "" {
      LinesOfOneLine("");
    } else {
      BlankHasNoLines(s[..|s| - 1]);
      var c := s[|s| - 1];
      SpaceAtTheEnd(s[..|s| - 1], c);
      assert s[..|s| - 1] + [c] == s;
      NoKeysNoLines(Lines(s));
    }
  }

  lemma NoKeysNoLines(ls: seq<string>)
    requires KeySeq(ls) == []
    ensures ls == []
  {
  }

  /** The merge writes something new exactly in its last case. */
  predicate Appends(remote: string, local: string) {
    !AllSpace(local) && !AllSpace(remote) && remote != local && Unseen(Lines(local), Keys(remote)) != []
  }

  /** When it appends, it adds under the divider the local lines whose keys the remote lacks, unchanged and in order. */
  lemma {:induction false} AppendsFreshLines(remote: string, local: string)
    requires Appends(remote, local)
    ensures var news := Unseen(Lines(local), Keys(remote));
            && Merge(remote, local) == Appended(remote, news)
            && Lines(Merge(remote, local)) == Lines(TrimEnd(remote)) + [DIVIDER] + news
            && forall l :: l in news <==> l in Lines(local) && Normalise(l) !in Keys(remote)
  {
    LinesAreLines(local);
    UnseenMembers(Lines(local), Keys(remote));
    LinesOfAppended(remote, Unseen(Lines(local), Keys(remote)));
  }

  /** Remote text survives up to trailing white space, as it was and where it was. */
  lemma RemoteSurvives(remote: string, local: string)
    ensures TrimEnd(remote) <= Merge(remote, local)
  {
    TrimEndIsPrefix(remote);
    if AllSpace(remote) {
      TrimEndOfBlank(remote);
    } else if Appends(remote, local) {
      AppendsFreshLines(remote, local);
      AppendedStartsWith(remote, Unseen(Lines(local), Keys(remote)));
    }
  }

  lemma AppendedStartsWith(remote: string, news: seq<string>)
    ensures TrimEnd(remote) <= Appended(remote, news)
  {
  }

  lemma {:induction false} TrimEndIsPrefix(s: string)
    ensures TrimEnd(s) <= s
  {
    if s != "" && IsSpace(s[|s| - 1]) {
      TrimEndIsPrefix(s[..|s| - 1]);
    }
  }

  lemma {:induction false} TrimEndOfBlank(s: string)
    requires AllSpace(s)
    ensures TrimEnd(s) == ""
  {
    if s != "" {
      TrimEndOfBlank(s[..|s| - 1]);
    }
  }

  /** No key of either text is lost, and no key comes from nowhere but the divider's empty one. */
  lemma MergeKeepsKeys(remote: string, local: string)
    ensures Keys(remote) + Keys(local) <= Keys(Merge(remote, local)) <= Keys(remote) + Keys(local) + {""}
  {
    UnseenMembers(Lines(local), Keys(remote));
    if AllSpace(local) {
      BlankHasNoLines(local);
    } else if AllSpace(remote) {
      BlankHasNoLines(remote);
    } else if Appends(remote, local) {
      var news := Unseen(Lines(local), Keys(remote));
      LinesAreLines(local);
      KeysOfAppended(remote, news);
      KeySeqMembers(news);
    } else if remote != local {
      forall k | k in Keys(local) ensures k in Keys(remote) {
        var l :| l in Lines(local) && Normalise(l) == k;
        assert l !in Unseen(Lines(local), Keys(remote));
      }
    }
  }

  /** Merging the same notes again changes nothing. */
  lemma Idempotent(remote: string, local: string)
    ensures Merge(Merge(remote, local), local) == Merge(remote, local)
  {
    var m := Merge(remote, local);
    MergeKeepsKeys(remote, local);
    NothingUnseen(Lines(local), Keys(m));
    if AllSpace(m) {
      AppendedIsNotBlank(remote, local);
    }
  }

  lemma {:induction false} NothingUnseen(ls: seq<string>, have: set<string>)
    requires forall l :: l in ls ==> Normalise(l) in have
    ensures Unseen(ls, have) == []
  {
    if ls != [] {
      NothingUnseen(ls[..|ls| - 1], have);
      assert ls[|ls| - 1] in ls;
    }
  }

  lemma AppendedIsNotBlank(remote: string, local: string)
    requires AllSpace(Merge(remote, local))
    ensures !Appends(remote, local)
  {
    if Appends(remote, local) {
      AppendsFreshLines(remote, local);
      BlankHasNoLines(Merge(remote, local));
    }
  }

  function RealKeys(s: string): set<string> {
    Keys(s) - {""}
  }

  /** The non-empty keys of a merge are those of both texts. */
  lemma MergeJoinsKeys(remote: string, local: string)
    ensures RealKeys(Merge(remote, local)) == RealKeys(remote) + RealKeys(local)
  {
    MergeKeepsKeys(remote, local);
  }

  /** The notes of any number of devices, merged one after the other. */
  function MergeAll(remote: string, notes: seq<string>): string {
    if notes == [] then remote else Merge(MergeAll(remote, notes[..|notes| - 1]), notes[|notes| - 1])
  }

  /** The non-empty keys of all the notes. */
  function KeysOfAll(notes: seq<string>): set<string> {
    if notes == [] then {} else KeysOfAll(notes[..|notes| - 1]) + RealKeys(notes[|notes| - 1])
  }

  lemma {:induction false} KeysOfAllAre(notes: seq<string>, k: string)
    ensures k in KeysOfAll(notes) <==> exists n :: n in notes && k in RealKeys(n)
  {
    if notes != [] {
      var init, last := notes[..|notes| - 1], notes[|notes| - 1];
      KeysOfAllAre(init, k);
      assert forall n :: n in notes <==> n in init || n == last;
    }
  }

  /** The non-empty keys of all merges are those of all texts: none is lost, none comes from nowhere. */
  lemma {:induction false} MergeAllJoinsKeys(remote: string, notes: seq<string>)
    ensures RealKeys(MergeAll(remote, notes)) == RealKeys(remote) + KeysOfAll(notes)
  {
    if notes != [] {
      MergeAllJoinsKeys(remote, notes[..|notes| - 1]);
      MergeJoinsKeys(MergeAll(remote, notes[..|notes| - 1]), notes[|notes| - 1]);
    }
  }

  /** Any number of devices' notes give the same lines, by key, in whichever order they are merged and however often. */
  lemma OrderDoesNotMatter(remote: string, x: seq<string>, y: seq<string>)
    requires forall n :: n in x <==> n in y
    ensures RealKeys(MergeAll(remote, x)) == RealKeys(MergeAll(remote, y))
  {
    MergeAllJoinsKeys(remote, x);
    MergeAllJoinsKeys(remote, y);
    forall k ensures k in KeysOfAll(x) <==> k in KeysOfAll(y) {
      KeysOfAllAre(x, k);
      KeysOfAllAre(y, k);
    }
  }
}
