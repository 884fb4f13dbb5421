/** Subsequences, prefixes dropped and elements filtered out, order kept. */
module Subsequences {

  /** a can be obtained from b by leaving elements out. */
  ghost predicate Subseq<T>(a: seq<T>, b: seq<T>)
    decreases |b|
  {
    a == [] ||
    (b != [] &&
     ((a[|a| - 1] == b[|b| - 1] && Subseq(a[..|a| - 1], b[..|b| - 1])) || Subseq(a, b[..|b| - 1])))
  }

  lemma {:induction false} Refl<T>(a: seq<T>)
    ensures Subseq(a, a)
  {
    if a != [] {
      Refl(a[..|a| - 1]);
    }
  }

  lemma {:induction false} Trans<T>(a: seq<T>, b: seq<T>, c: seq<T>)
    requires Subseq(a, b) && Subseq(b, c)
    ensures Subseq(a, c)
    decreases |c|
  {
    if a != [] {
      var b', c' := b[..|b| - 1], c[..|c| - 1];
      if b[|b| - 1] == c[|c| - 1] && Subseq(b', c') {
        if a[|a| - 1] == b[|b| - 1] && Subseq(a[..|a| - 1], b') {
          Trans(a[..|a| - 1], b', c');
        } else {
          Trans(a, b', c');
        }
      } else {
        Trans(a, b, c');
      }
    }
  }

  lemma {:induction false} Concat<T>(a: seq<T>, b: seq<T>, c: seq<T>, d: seq<T>)
    requires Subseq(a, b) && Subseq(c, d)
    ensures Subseq(a + c, b + d)
    decreases |d|
  {
    if d == [] {
      assert a + c == a && b + d == b;
    } else {
      var d' := d[..|d| - 1];
      assert (b + d)[..|b + d| - 1] == b + d';
      if c == [] {
        Concat(a, b, c, d');
      } else if c[|c| - 1] == d[|d| - 1] && Subseq(c[..|c| - 1], d') {
        assert (a + c)[..|a + c| - 1] == a + c[..|c| - 1];
        Concat(a, b, c[..|c| - 1], d');
      } else {
        Concat(a, b, c, d');
      }
    }
  }

  lemma {:induction false} Members<T>(a: seq<T>, b: seq<T>)
    requires Subseq(a, b)
    ensures forall x :: x in a ==> x in b
    decreases |b|
  {
    if a != [] {
      assert forall x :: x in a <==> x in a[..|a| - 1] || x == a[|a| - 1];
      if a[|a| - 1] == b[|b| - 1] && Subseq(a[..|a| - 1], b[..|b| - 1]) {
        Members(a[..|a| - 1], b[..|b| - 1]);
      } else {
        Members(a, b[..|b| - 1]);
      }
    }
  }

  lemma Suffix<T>(a: seq<T>, k: nat)
    requires k <= |a|
    ensures Subseq(a[k..], a)
  {
    Refl(a[k..]);
    assert Subseq([], a[..k]);
    Concat([], a[..k], a[k..], a[k..]);
    assert [] + a[k..] == a[k..] && a[..k] + a[k..] == a;
  }

  /** The elements that satisfy p, in order. */
  function Filter<T>(p: T -> bool, a: seq<T>): seq<T> {
    if a == [] then []
    else Filter(p, a[..|a| - 1]) + (if p(a[|a| - 1]) then [a[|a| - 1]] else [])
  }

  lemma {:induction false} FilterIsSubseq<T>(p: T -> bool, a: seq<T>)
    ensures Subseq(Filter(p, a), a)
  {
    if a != [] {
      var a', x := a[..|a| - 1], a[|a| - 1];
      FilterIsSubseq(p, a');
      Refl([x]);
      Concat(Filter(p, a'), a', if p(x) then [x] else [], [x]);
      assert a == a' + [x];
    }
  }

  lemma {:induction false} FilterMembers<T>(p: T -> bool, a: seq<T>)
    ensures forall x :: x in Filter(p, a) <==> x in a && p(x)
  {
    if a != [] {
      var init, last := a[..|a| - 1], a[|a| - 1];
      FilterMembers(p, init);
      assert forall x :: x in a <==> x in init || x == last;
    }
  }

  lemma {:induction false} FilterConcat<T>(p: T -> bool, a: seq<T>, b: seq<T>)
    ensures Filter(p, a + b) == Filter(p, a) + Filter(p, b)
  {
    if b == [] {
      assert a + b == a;
    } else {
      assert (a + b)[..|a + b| - 1] == a + b[..|b| - 1];
      FilterConcat(p, a, b[..|b| - 1]);
    }
  }

  lemma {:induction false} FilterAll<T>(p: T -> bool, a: seq<T>)
    requires forall x :: x in a ==> p(x)
    ensures Filter(p, a) == a
  {
    if a != [] {
      var init, last := a[..|a| - 1], a[|a| - 1];
      assert last in a && forall x :: x in init ==> x in a;
      FilterAll(p, init);
      assert init + [last] == a;
    }
  }

  lemma {:induction false} FilterNone<T>(p: T -> bool, a: seq<T>)
    requires forall x :: x in a ==> !p(x)
    ensures Filter(p, a) == []
  {
    if a != [] {
      var init, last := a[..|a| - 1], a[|a| - 1];
      assert last in a && forall x :: x in init ==> x in a;
      FilterNone(p, init);
    }
  }
}
