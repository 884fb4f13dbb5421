/** Sweeps over time spans, against the set of the milliseconds they cover. */
module Spans {

  /** Start and end in milliseconds; the end is not included. */
  type Span = (int, int)

  predicate Within(t: int, s: Span) {
    s.0 <= t < s.1
  }

  function Instants(s: Span): set<int> {
    set t: int | s.0 <= t < s.1 && Within(t, s)
  }

  /** Every millisecond t with start <= t < end for some span. */
  function Covered(spans: seq<Span>): set<int> {
    if spans == [] then {} else Covered(spans[..|spans| - 1]) + Instants(spans[|spans| - 1])
  }

  function Max(x: int, y: int): int {
    if x >= y then x else y
  }

  lemma {:induction false} InstantsCount(s: Span)
    ensures |Instants(s)| == Max(0, s.1 - s.0)
    decreases s.1 - s.0
  {
    if s.0 < s.1 {
      var r := (s.0, s.1 - 1);
      InstantsCount(r);
      assert Instants(s) == Instants(r) + {s.1 - 1};
    } else {
      assert Instants(s) == {};
    }
  }

  lemma {:induction false} InCovered(spans: seq<Span>, t: int)
    ensures t in Covered(spans) <==> exists s :: s in spans && t in Instants(s)
  {
    if spans != [] {
      var init, last := spans[..|spans| - 1], spans[|spans| - 1];
      InCovered(init, t);
      assert forall s :: s in spans <==> s in init || s == last;
    }
  }

  // ---------------------------------------------------------------- sorting

  /** Python's order on pairs. */
  predicate Leq(a: Span, b: Span) {
    a.0 < b.0 || (a.0 == b.0 && a.1 <= b.1)
  }

  predicate Sorted(spans: seq<Span>) {
    forall i, j :: 0 <= i < j < |spans| ==> Leq(spans[i], spans[j])
  }

  function Insert(spans: seq<Span>, x: Span): seq<Span> {
    if spans == [] || Leq(spans[|spans| - 1], x) then spans + [x]
    else Insert(spans[..|spans| - 1], x) + [spans[|spans| - 1]]
  }

  /** Python's `sorted`. */
  function Sort(spans: seq<Span>): seq<Span> {
    if spans == [] then [] else Insert(Sort(spans[..|spans| - 1]), spans[|spans| - 1])
  }

  lemma {:induction false} InsertKeeps(spans: seq<Span>, x: Span)
    ensures multiset(Insert(spans, x)) == multiset(spans) + multiset{x}
  {
    if spans != [] && !Leq(spans[|spans| - 1], x) {
      InsertKeeps(spans[..|spans| - 1], x);
      assert spans == spans[..|spans| - 1] + [spans[|spans| - 1]];
    }
  }

  lemma SortedLast(init: seq<Span>, last: Span)
    requires Sorted(init) && forall s :: s in init ==> Leq(s, last)
    ensures Sorted(init + [last])
  {
  }

  lemma SortedBelowLast(spans: seq<Span>)
    requires Sorted(spans) && spans != []
    ensures Sorted(spans[..|spans| - 1])
    ensures forall s :: s in spans ==> Leq(s, spans[|spans| - 1])
  {
  }

  lemma {:induction false} InsertSorts(spans: seq<Span>, x: Span)
    requires Sorted(spans)
    ensures Sorted(Insert(spans, x))
  {
    if spans == [] {
    } else {
      var init, last := spans[..|spans| - 1], spans[|spans| - 1];
      SortedBelowLast(spans);
      if Leq(last, x) {
        SortedLast(spans, x);
      } else {
        InsertSorts(init, x);
        InsertKeeps(init, x);
        forall s | s in Insert(init, x) ensures Leq(s, last) {
          assert s in multiset(Insert(init, x));
          assert s in init || s == x;
          assert s in init ==> s in spans;
        }
        SortedLast(Insert(init, x), last);
      }
    }
  }

  lemma {:induction false} SortSorts(spans: seq<Span>)
    ensures Sorted(Sort(spans)) && multiset(Sort(spans)) == multiset(spans)
  {
    if spans != [] {
      var init, last := spans[..|spans| - 1], spans[|spans| - 1];
      SortSorts(init);
      InsertSorts(Sort(init), last);
      InsertKeeps(Sort(init), last);
      assert spans == init + [last];
    }
  }

  // ---------------------------------------------------------------- laws of the covered time

  /** The order of the spans does not matter. */
  lemma CoveredOfPermutation(x: seq<Span>, y: seq<Span>)
    requires multiset(x) == multiset(y)
    ensures Covered(x) == Covered(y)
  {
    forall t ensures t in Covered(x) <==> t in Covered(y) {
      InCovered(x, t);
      InCovered(y, t);
      assert forall s :: s in x <==> s in multiset(x);
      assert forall s :: s in y <==> s in multiset(y);
    }
  }

  lemma CoveredOfConcat(x: seq<Span>, y: seq<Span>)
    ensures Covered(x + y) == Covered(x) + Covered(y)
  {
    forall t ensures t in Covered(x + y) <==> t in Covered(x) || t in Covered(y) {
      InCovered(x + y, t);
      InCovered(x, t);
      InCovered(y, t);
      assert forall s :: s in x + y <==> s in x || s in y;
    }
  }

  lemma SubsetCount(x: set<int>, y: set<int>)
    requires x <= y
    ensures |x| <= |y|
  {
    assert y == x + (y - x);
  }

  /** More spans never cover less. */
  lemma CoveredIsMonotone(x: seq<Span>, y: seq<Span>)
    requires forall s :: s in x ==> s in y
    ensures |Covered(x)| <= |Covered(y)|
  {
    forall t | t in Covered(x) ensures t in Covered(y) {
      InCovered(x, t);
      InCovered(y, t);
    }
    SubsetCount(Covered(x), Covered(y));
  }

  /** Two lists together cover at most the sum. */
  lemma CoveredIsSubadditive(x: seq<Span>, y: seq<Span>)
    ensures |Covered(x + y)| <= |Covered(x)| + |Covered(y)|
  {
    CoveredOfConcat(x, y);
  }

  // ---------------------------------------------------------------- _merged_span

  lemma CoveredGrows(spans: seq<Span>, k: nat)
    requires k < |spans|
    ensures Covered(spans[..k + 1]) == Covered(spans[..k]) + Instants(spans[k])
  {
    assert spans[..k + 1][..k] == spans[..k];
  }

  lemma JoinSpans(a: Span, b: Span)
    requires a.0 <= b.0 <= a.1
    ensures Instants(a) + Instants(b) == Instants((a.0, Max(a.1, b.1)))
  {
  }

  lemma DisjointCount(x: set<int>, y: set<int>)
    requires x !! y
    ensures |x + y| == |x| + |y|
  {
  }

  /** The sweep's state after the first k spans: total counts the instants before current's start. */
  ghost predicate Swept(sorted: seq<Span>, k: nat, total: int, done: set<int>, current: Span)
    requires k <= |sorted|
  {
    && total == |done|
    && Covered(sorted[..k]) == done + Instants(current)
    && current.0 <= current.1
    && (forall t :: t in done ==> t < current.0)
    && (k > 0 ==> current.0 <= sorted[k - 1].0)
  }

  lemma SweepOn(sorted: seq<Span>, k: nat, total: int, done: set<int>, current: Span)
    requires Sorted(sorted) && 0 < k < |sorted| && Swept(sorted, k, total, done, current)
    ensures sorted[k].0 > current.1 ==>
              Swept(sorted, k + 1, total + (current.1 - current.0), done + Instants(current),
                    (sorted[k].0, Max(sorted[k].0, sorted[k].1)))
    ensures sorted[k].0 <= current.1 ==>
              Swept(sorted, k + 1, total, done, (current.0, Max(current.1, sorted[k].1)))
  {
    CoveredGrows(sorted, k);
    assert Leq(sorted[k - 1], sorted[k]);
    if sorted[k].0 > current.1 {
      InstantsCount(current);
      DisjointCount(done, Instants(current));
      assert Instants(sorted[k]) == Instants((sorted[k].0, Max(sorted[k].0, sorted[k].1)));
    } else {
      JoinSpans(current, sorted[k]);
    }
  }

  /** Milliseconds covered by the ranges, overlaps counted once; the ranges may be in any order and have their ends reversed. */
  method MergedSpan(ranges: seq<Span>) returns (total: int)
    ensures total == |Covered(ranges)|
  {
    var sorted := Sort(ranges);
    SortSorts(ranges);
    CoveredOfPermutation(ranges, sorted);
    total := 0;
    if sorted == [] {
      return;
    }
    var current := (sorted[0].0, Max(sorted[0].0, sorted[0].1));
    ghost var done: set<int> := {};
    FirstSpan(sorted, current);
    for k := 1 to |sorted|
      invariant Swept(sorted, k, total, done, current)
    {
      SweepOn(sorted, k, total, done, current);
      var start, end := sorted[k].0, sorted[k].1;
      if start > current.1 {
        total := total + (current.1 - current.0);
        done := done + Instants(current);
        current := (start, Max(start, end));
      } else {
        current := (current.0, Max(current.1, end));
      }
    }
    assert sorted[..|sorted|] == sorted;
    InstantsCount(current);
    DisjointCount(done, Instants(current));
    total := total + (current.1 - current.0);
  }

  lemma FirstSpan(sorted: seq<Span>, current: Span)
    requires sorted != [] && current == (sorted[0].0, Max(sorted[0].0, sorted[0].1))
    ensures Swept(sorted, 1, 0, {}, current)
  {
    CoveredGrows(sorted, 0);
    assert Instants(current) == Instants(sorted[0]);
  }

  // ---------------------------------------------------------------- the merge of speech spans

  /** Every span ends strictly before each later one starts. */
  predicate Gapped(spans: seq<Span>) {
    forall i, j :: 0 <= i < j < |spans| ==> spans[i].1 < spans[j].0 && spans[i].0 <= spans[j].0
  }

  predicate Forward(spans: seq<Span>) {
    forall s :: s in spans ==> s.0 <= s.1
  }

  lemma SortedSame(spans: seq<Span>, sorted: seq<Span>)
    requires sorted == Sort(spans)
    ensures Sorted(sorted) && Covered(sorted) == Covered(spans) && forall s :: s in sorted <==> s in spans
  {
    SortSorts(spans);
    CoveredOfPermutation(spans, sorted);
    forall s ensures s in sorted <==> s in spans {
      assert s in multiset(sorted) <==> s in multiset(spans);
    }
  }

  /** q starts no later than r in the sorted order and ends where r starts or later. */
  predicate Hides(q: Span, r: Span) {
    Leq(q, r) && q.1 >= r.0
  }

  ghost predicate IsHidden(spans: seq<Span>, r: Span) {
    exists q :: q in spans && Hides(q, r)
  }

  /** Every reversed span starts inside, or where, a span before it ends. */
  ghost predicate ReversedAreHidden(spans: seq<Span>) {
    forall r {:trigger IsHidden(spans, r)} :: r in spans && r.1 < r.0 ==> IsHidden(spans, r)
  }

  /** The merge in `_rttm_speech`, overwriting the last merged span. */
  method MergeSpeech(spans: seq<Span>) returns (merged: seq<Span>)
    ensures Gapped(merged)
    ensures Covered(merged) == Covered(spans)
    ensures Forward(merged) <==> ReversedAreHidden(spans)
    ensures SumOfLengths(merged) == |Covered(spans)| <==> ReversedAreHidden(spans)
  {
    var sorted := Sort(spans);
    merged := [];
    for k := 0 to |sorted|
      invariant merged == MergeOf(sorted[..k])
    {
      assert sorted[..k + 1][..k] == sorted[..k];
      var s, e := sorted[k].0, sorted[k].1;
      if merged != [] && s <= merged[|merged| - 1].1 {
        merged := Overwrite(merged, e);
      } else {
        merged := merged + [(s, e)];
      }
    }
    assert sorted[..|sorted|] == sorted;
    SortedSame(spans, sorted);
    MergeKeeps(sorted);
    MergeDone(merged, spans, sorted);
  }

  /** One more span, in order. */
  function MergeNext(merged: seq<Span>, s: Span): seq<Span> {
    if merged != [] && s.0 <= merged[|merged| - 1].1 then Overwrite(merged, s.1) else merged + [s]
  }

  /** The spans merged from left to right. */
  function MergeOf(sorted: seq<Span>): seq<Span> {
    if sorted == [] then [] else MergeNext(MergeOf(sorted[..|sorted| - 1]), sorted[|sorted| - 1])
  }

  ghost predicate Merging(sorted: seq<Span>, k: nat, merged: seq<Span>)
    requires k <= |sorted|
  {
    MergedUpTo(merged, sorted, k) && EndsUpTo(merged, sorted, k)
  }

  lemma MergeOfMore(sorted: seq<Span>, k: nat)
    requires k < |sorted|
    ensures MergeOf(sorted[..k + 1]) == MergeNext(MergeOf(sorted[..k]), sorted[k])
  {
    assert sorted[..k + 1][..k] == sorted[..k];
  }

  lemma NothingMerged(sorted: seq<Span>)
    ensures Merging(sorted, 0, [])
  {
  }

  lemma MergeKeeps(sorted: seq<Span>)
    requires Sorted(sorted)
    ensures Merging(sorted, |sorted|, MergeOf(sorted))
  {
    NothingMerged(sorted);
    var merged := [];
    for k := 0 to |sorted|
      invariant merged == MergeOf(sorted[..k]) && Merging(sorted, k, merged)
    {
      MergeOfMore(sorted, k);
      MergeOne(merged, sorted, k);
      merged := MergeNext(merged, sorted[k]);
    }
    assert sorted[..|sorted|] == sorted;
  }

  lemma MergeOne(merged: seq<Span>, sorted: seq<Span>, k: nat)
    requires Sorted(sorted) && k < |sorted| && Merging(sorted, k, merged)
    ensures Merging(sorted, k + 1, MergeNext(merged, sorted[k]))
  {
    if merged != [] && sorted[k].0 <= merged[|merged| - 1].1 {
      MergeInto(merged, sorted, k);
      EndsInto(merged, sorted, k);
    } else {
      MergeBeyond(merged, sorted, k);
      EndsBeyond(merged, sorted, k);
    }
  }

  lemma MergeDone(merged: seq<Span>, spans: seq<Span>, sorted: seq<Span>)
    requires sorted == Sort(spans) && MergedUpTo(merged, sorted, |sorted|) && EndsUpTo(merged, sorted, |sorted|)
    ensures Gapped(merged) && Covered(merged) == Covered(spans)
    ensures Forward(merged) <==> ReversedAreHidden(spans)
    ensures SumOfLengths(merged) == |Covered(spans)| <==> ReversedAreHidden(spans)
  {
    SortedSame(spans, sorted);
    assert sorted[..|sorted|] == sorted;
    HiddenInSorted(spans, sorted);
    SumIsMeasure(merged);
  }

  function Overwrite(merged: seq<Span>, e: int): seq<Span>
    requires merged != []
  {
    var last := merged[|merged| - 1];
    merged[..|merged| - 1] + [(last.0, Max(last.1, e))]
  }

  ghost predicate MergedUpTo(merged: seq<Span>, sorted: seq<Span>, k: nat)
    requires k <= |sorted|
  {
    && Gapped(merged)
    && Covered(merged) == Covered(sorted[..k])
    && (k == 0 <==> merged == [])
    && (k > 0 ==> merged[|merged| - 1].0 <= sorted[k - 1].0)
  }

  ghost predicate HiddenBefore(sorted: seq<Span>, i: nat)
    requires i < |sorted|
  {
    exists j :: 0 <= j < i && sorted[j].1 >= sorted[i].0
  }

  /** Every reversed span among the first k is hidden by one before it. */
  ghost predicate HiddenUpTo(sorted: seq<Span>, k: nat)
    requires k <= |sorted|
  {
    forall i {:trigger HiddenBefore(sorted, i)} :: 0 <= i < k && sorted[i].1 < sorted[i].0 ==> HiddenBefore(sorted, i)
  }

  lemma HiddenMore(sorted: seq<Span>, k: nat)
    requires k < |sorted|
    ensures HiddenUpTo(sorted, k + 1) <==> HiddenUpTo(sorted, k) && (sorted[k].1 < sorted[k].0 ==> HiddenBefore(sorted, k))
  {
    if HiddenUpTo(sorted, k + 1) && sorted[k].1 < sorted[k].0 {
      assert HiddenBefore(sorted, k);
    }
  }

  /** The last merged span ends where one of the first k does; whichever of them ends later ends before it starts. */
  ghost predicate EndsUpTo(merged: seq<Span>, sorted: seq<Span>, k: nat)
    requires k <= |sorted|
  {
    && (k == 0 <==> merged == [])
    && (k > 0 ==>
          var last := merged[|merged| - 1];
          && (exists i :: 0 <= i < k && sorted[i].1 == last.1)
          && (forall i :: 0 <= i < k ==> sorted[i].1 < last.0 || sorted[i].1 <= last.1))
    && (Forward(merged) <==> HiddenUpTo(sorted, k))
  }

  lemma ForwardLast(init: seq<Span>, s: Span)
    ensures Forward(init + [s]) <==> Forward(init) && s.0 <= s.1
  {
    assert forall r :: r in init + [s] <==> r in init || r == s;
  }

  /** A span that reaches into the last merged one is hidden by it if it is reversed. */
  lemma EndsInto(merged: seq<Span>, sorted: seq<Span>, k: nat)
    requires Sorted(sorted) && 0 < k < |sorted| && MergedUpTo(merged, sorted, k) && EndsUpTo(merged, sorted, k)
    requires sorted[k].0 <= merged[|merged| - 1].1
    ensures EndsUpTo(Overwrite(merged, sorted[k].1), sorted, k + 1)
  {
    var init, last := merged[..|merged| - 1], merged[|merged| - 1];
    var longer := (last.0, Max(last.1, sorted[k].1));
    assert Leq(sorted[k - 1], sorted[k]);
    assert merged == init + [last];
    assert Forward(init + [longer]) <==> HiddenUpTo(sorted, k + 1) by {
      ForwardLast(init, last);
      ForwardLast(init, longer);
      HiddenMore(sorted, k);
    }
    if sorted[k].1 > last.1 {
      assert sorted[k].1 == longer.1;
    }
  }

  /** A span that starts beyond every merged one is not hidden. */
  lemma EndsBeyond(merged: seq<Span>, sorted: seq<Span>, k: nat)
    requires Sorted(sorted) && k < |sorted| && MergedUpTo(merged, sorted, k) && EndsUpTo(merged, sorted, k)
    requires merged == [] || sorted[k].0 > merged[|merged| - 1].1
    ensures EndsUpTo(merged + [sorted[k]], sorted, k + 1)
  {
    assert k > 0 ==> Leq(sorted[k - 1], sorted[k]);
    ForwardLast(merged, sorted[k]);
    assert forall i :: 0 <= i < k ==> sorted[i].1 < sorted[k].0;
    HiddenMore(sorted, k);
    assert !HiddenBefore(sorted, k);
    assert sorted[k].1 == (merged + [sorted[k]])[|merged|].1;
  }

  lemma HiddenInSorted(spans: seq<Span>, sorted: seq<Span>)
    requires Sorted(sorted) && forall s :: s in sorted <==> s in spans
    ensures HiddenUpTo(sorted, |sorted|) <==> ReversedAreHidden(spans)
  {
    if HiddenUpTo(sorted, |sorted|) {
      forall r {:trigger IsHidden(spans, r)} | r in spans && r.1 < r.0 ensures IsHidden(spans, r) {
        var i :| 0 <= i < |sorted| && sorted[i] == r;
        assert HiddenBefore(sorted, i);
        var j :| 0 <= j < i && sorted[j].1 >= sorted[i].0;
        assert sorted[j] in spans && Hides(sorted[j], r);
      }
    }
    if ReversedAreHidden(spans) {
      forall i {:trigger HiddenBefore(sorted, i)} | 0 <= i < |sorted| && sorted[i].1 < sorted[i].0
        ensures HiddenBefore(sorted, i)
      {
        assert IsHidden(spans, sorted[i]);
        var q :| q in spans && Hides(q, sorted[i]);
        var j :| 0 <= j < |sorted| && sorted[j] == q;
        assert j < i;
      }
    }
  }

  lemma CoveredLast(init: seq<Span>, s: Span)
    ensures Covered(init + [s]) == Covered(init) + Instants(s)
  {
    assert (init + [s])[..|init|] == init;
  }

  /** The next span reaches into the last merged one. */
  lemma MergeInto(merged: seq<Span>, sorted: seq<Span>, k: nat)
    requires Sorted(sorted) && 0 < k < |sorted| && MergedUpTo(merged, sorted, k)
    requires sorted[k].0 <= merged[|merged| - 1].1
    ensures MergedUpTo(Overwrite(merged, sorted[k].1), sorted, k + 1)
  {
    var init, last := merged[..|merged| - 1], merged[|merged| - 1];
    var longer := (last.0, Max(last.1, sorted[k].1));
    assert Leq(sorted[k - 1], sorted[k]);
    assert Covered(init + [longer]) == Covered(sorted[..k + 1]) by {
      CoveredGrows(sorted, k);
      JoinSpans(last, sorted[k]);
      assert merged == init + [last];
      CoveredLast(init, last);
      CoveredLast(init, longer);
    }
  }

  /** The next span starts beyond every merged one. */
  lemma MergeBeyond(merged: seq<Span>, sorted: seq<Span>, k: nat)
    requires Sorted(sorted) && k < |sorted| && MergedUpTo(merged, sorted, k)
    requires merged == [] || sorted[k].0 > merged[|merged| - 1].1
    ensures MergedUpTo(merged + [sorted[k]], sorted, k + 1)
  {
    assert k > 0 ==> Leq(sorted[k - 1], sorted[k]);
    assert Covered(merged + [sorted[k]]) == Covered(sorted[..k + 1]) by {
      CoveredGrows(sorted, k);
      CoveredLast(merged, sorted[k]);
    }
  }

  function SumOfLengths(spans: seq<Span>): int {
    if spans == [] then 0
    else SumOfLengths(spans[..|spans| - 1]) + (spans[|spans| - 1].1 - spans[|spans| - 1].0)
  }

  /** Summed lengths of gapped spans are the covered time exactly when no span is reversed, and less otherwise. */
  lemma {:induction false} SumIsMeasure(m: seq<Span>)
    requires Gapped(m)
    ensures SumOfLengths(m) <= |Covered(m)|
    ensures SumOfLengths(m) == |Covered(m)| <==> Forward(m)
  {
    if m != [] {
      var init, last := m[..|m| - 1], m[|m| - 1];
      SumIsMeasure(init);
      InstantsCount(last);
      forall t | t in Covered(init) ensures t < last.0 {
        InCovered(init, t);
      }
      assert |Covered(m)| == |Covered(init)| + |Instants(last)|;
      assert forall s :: s in m <==> s in init || s == last;
    }
  }

  /** One reversed span by itself is counted with its negative length; behind a span that reaches it, it does no harm. */
  lemma ReversedSpans()
    ensures !ReversedAreHidden([(1, 0)]) && SumOfLengths([(1, 0)]) == -1
    ensures ReversedAreHidden([(0, 1), (1, 0)])
  {
    var r: Span, q: Span := (1, 0), (0, 1);
    assert r in [r] && [r][..0] == [];
    assert !IsHidden([r], r);
    assert q in [q, r] && Hides(q, r);
    assert IsHidden([q, r], r);
  }

  // ---------------------------------------------------------------- overlap sums

  /** `_overlap`: the milliseconds two spans share. */
  function Overlap(a: Span, b: Span): (n: int)
  {
    var start, end := Max(a.0, b.0), if a.1 <= b.1 then a.1 else b.1;
    Max(0, end - start)
  }

  lemma OverlapCounts(a: Span, b: Span)
    ensures Overlap(a, b) == |Instants(a) * Instants(b)|
  {
    var c := (Max(a.0, b.0), if a.1 <= b.1 then a.1 else b.1);
    InstantsCount(c);
    assert Instants(a) * Instants(b) == Instants(c);
  }

  function OverlapSum(markers: seq<Span>, r: Span): int {
    if markers == [] then 0
    else OverlapSum(markers[..|markers| - 1], r) + Overlap(markers[|markers| - 1], r)
  }

  /** No millisecond of the region lies in two markers. */
  predicate DisjointIn(markers: seq<Span>, r: Span) {
    forall i, j :: 0 <= i < j < |markers| ==> Instants(markers[i]) * Instants(markers[j]) * Instants(r) == {}
  }

  lemma UnionCount(x: set<int>, y: set<int>)
    ensures |x + y| == |x| + |y| - |x * y|
  {
    assert x + y == x + (y - x);
    assert y == (y - x) + x * y;
  }

  lemma OneMoreMarker(init: seq<Span>, last: Span, r: Span)
    ensures var x, y := Covered(init) * Instants(r), Instants(last) * Instants(r);
            |Covered(init + [last]) * Instants(r)| == |x| + Overlap(last, r) - |x * y|
  {
    var x, y := Covered(init) * Instants(r), Instants(last) * Instants(r);
    CoveredLast(init, last);
    OverlapCounts(last, r);
    assert Covered(init + [last]) * Instants(r) == x + y;
    UnionCount(x, y);
  }

  /** The overlap sum is never less than the covered time, and equal to it exactly when no marker overlaps another in the region. */
  lemma {:induction false} OverlapSumIsMeasure(markers: seq<Span>, r: Span)
    ensures OverlapSum(markers, r) >= |Covered(markers) * Instants(r)|
    ensures OverlapSum(markers, r) == |Covered(markers) * Instants(r)| <==> DisjointIn(markers, r)
  {
    if markers != [] {
      var init, last := markers[..|markers| - 1], markers[|markers| - 1];
      assert markers == init + [last];
      OverlapSumIsMeasure(init, r);
      OneMoreMarker(init, last, r);
      DisjointFromLast(init, last, r);
    } else {
      assert Covered(markers) * Instants(r) == {};
    }
  }

  lemma DisjointFromLast(init: seq<Span>, last: Span, r: Span)
    ensures DisjointIn(init + [last], r) <==>
              DisjointIn(init, r) && (Covered(init) * Instants(r)) * (Instants(last) * Instants(r)) == {}
  {
    var m := init + [last];
    if DisjointIn(m, r) {
      forall i, j | 0 <= i < j < |init| ensures Instants(init[i]) * Instants(init[j]) * Instants(r) == {} {
        assert m[i] == init[i] && m[j] == init[j];
      }
      forall t | t in Covered(init) && t in Instants(r) ensures t !in Instants(last) {
        InCovered(init, t);
        var s :| s in init && t in Instants(s);
        var i :| 0 <= i < |init| && init[i] == s;
        assert Instants(m[i]) * Instants(m[|init|]) * Instants(r) == {};
        assert t !in Instants(m[i]) * Instants(m[|init|]) * Instants(r);
        assert t in Instants(m[i]) && m[|init|] == last;
      }
    } else if DisjointIn(init, r) && (Covered(init) * Instants(r)) * (Instants(last) * Instants(r)) == {} {
      forall i, j | 0 <= i < j < |m| ensures Instants(m[i]) * Instants(m[j]) * Instants(r) == {} {
        if j == |init| {
          forall t | t in Instants(m[i]) ensures t in Covered(init) { InCovered(init, t); }
        } else {
          assert m[i] == init[i] && m[j] == init[j];
        }
      }
    }
  }

  // ---------------------------------------------------------------- marked non-speech regions

  const MARK_MIN_MS := 5000

  function Long(regions: seq<Span>): seq<Span> {
    if regions == [] then []
    else
      var r := regions[|regions| - 1];
      Long(regions[..|regions| - 1]) + (if r.1 - r.0 >= MARK_MIN_MS then [r] else [])
  }

  /** At least half of the region's milliseconds lie in a marker. */
  predicate HalfCovered(markers: seq<Span>, r: Span) {
    2 * |Covered(markers) * Instants(r)| >= |Instants(r)|
  }

  function CountHalfCovered(markers: seq<Span>, regions: seq<Span>): nat {
    if regions == [] then 0
    else CountHalfCovered(markers, regions[..|regions| - 1])
         + (if HalfCovered(markers, regions[|regions| - 1]) then 1 else 0)
  }

  /** The regions whose overlap sum is at least half their length. */
  function Marked(markers: seq<Span>, regions: seq<Span>): seq<Span> {
    if regions == [] then []
    else
      var r := regions[|regions| - 1];
      Marked(markers, regions[..|regions| - 1]) + (if OverlapSum(markers, r) * 2 >= r.1 - r.0 then [r] else [])
  }

  /** Every half-covered region is marked, and only those are where markers do not overlap. */
  lemma {:induction false} MarkedCount(markers: seq<Span>, regions: seq<Span>)
    requires forall r :: r in regions ==> r.1 > r.0
    ensures |Marked(markers, regions)| >= CountHalfCovered(markers, regions)
    ensures (forall r :: r in regions ==> DisjointIn(markers, r)) ==>
              |Marked(markers, regions)| == CountHalfCovered(markers, regions)
  {
    if regions != [] {
      var r := regions[|regions| - 1];
      MarkedCount(markers, regions[..|regions| - 1]);
      OverlapSumIsMeasure(markers, r);
      InstantsCount(r);
    }
  }

  /** How many long regions there are and how many of them the overlap sums call marked. */
  method NonspeechMarked(nonSpeech: seq<Span>, markers: seq<Span>) returns (regions: nat, marked: nat)
    ensures regions == |Long(nonSpeech)|
    ensures marked == |Marked(markers, Long(nonSpeech))| >= CountHalfCovered(markers, Long(nonSpeech))
    ensures (forall r :: r in Long(nonSpeech) ==> DisjointIn(markers, r)) ==>
              marked == CountHalfCovered(markers, Long(nonSpeech))
  {
    var long := Long(nonSpeech);
    regions, marked := |long|, 0;
    for k := 0 to |long|
      invariant marked == |Marked(markers, long[..k])|
    {
      var r := long[k];
      assert long[..k + 1][..k] == long[..k];
      if OverlapSum(markers, r) * 2 >= r.1 - r.0 {
        marked := marked + 1;
      }
    }
    assert long[..|long|] == long;
    LongAreLong(nonSpeech);
    MarkedCount(markers, long);
  }

  /** Every region of five seconds or more is counted, as often as it is listed, and no other. */
  lemma {:induction false} LongAreLong(regions: seq<Span>)
    ensures forall r :: multiset(Long(regions))[r] == if r.1 - r.0 >= 5000 then multiset(regions)[r] else 0
    ensures forall r :: r in Long(regions) <==> r in regions && r.1 - r.0 >= 5000
  {
    if regions != [] {
      var init, last := regions[..|regions| - 1], regions[|regions| - 1];
      LongAreLong(init);
      assert regions == init + [last];
    }
  }

  /** Overlapping markers can mark a region they cover only a quarter of. */
  lemma OverlappingMarkersOvercount()
    ensures var markers, r := [(0, 2000), (0, 2000)], (0, 8000);
            OverlapSum(markers, r) * 2 >= r.1 - r.0 && !HalfCovered(markers, r)
  {
    var m: Span, r: Span := (0, 2000), (0, 8000);
    TwiceCovered(m, r);
    InstantsCount(m);
    InstantsCount(r);
    assert Instants(m) * Instants(r) == Instants(m);
  }

  lemma TwiceCovered(m: Span, r: Span)
    ensures Covered([m, m]) == Instants(m)
    ensures OverlapSum([m, m], r) == Overlap(m, r) + Overlap(m, r)
  {
    assert [m, m][..1] == [m] && [m][..0] == [];
    assert Covered([m]) == Instants(m);
    assert OverlapSum([m], r) == Overlap(m, r);
  }
}
