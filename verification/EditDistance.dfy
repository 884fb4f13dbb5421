/** The two-row edit distance computes the least cost of an edit script, and is a metric. */
module EditDistance {

  /** One step of a script: match or replace an element, drop one, or add one. */
  datatype Edit<T> = Pair(x: T, y: T) | Delete(x: T) | Insert(y: T)

  function CostOf<T(==)>(e: Edit<T>): nat {
    if e.Pair? && e.x == e.y then 0 else 1
  }

  function Cost<T(==)>(s: seq<Edit<T>>): nat {
    if s == [] then 0 else Cost(s[..|s| - 1]) + CostOf(s[|s| - 1])
  }

  function Consumes<T>(e: Edit<T>): seq<T> {
    if e.Insert? then [] else [e.x]
  }

  function Produces<T>(e: Edit<T>): seq<T> {
    if e.Delete? then [] else [e.y]
  }

  /** What a script consumes. */
  function Source<T>(s: seq<Edit<T>>): seq<T> {
    if s == [] then [] else Source(s[..|s| - 1]) + Consumes(s[|s| - 1])
  }

  /** What a script produces. */
  function Target<T>(s: seq<Edit<T>>): seq<T> {
    if s == [] then [] else Target(s[..|s| - 1]) + Produces(s[|s| - 1])
  }

  ghost predicate Turns<T>(s: seq<Edit<T>>, a: seq<T>, b: seq<T>) {
    Source(s) == a && Target(s) == b
  }

  function Min(x: nat, y: nat, z: nat): nat {
    if x <= y && x <= z then x else if y <= z then y else z
  }

  /** The distance between the first i elements of a and the first j of b. */
  function Cell<T(==)>(a: seq<T>, b: seq<T>, i: nat, j: nat): nat
    requires i <= |a| && j <= |b|
    decreases i + j
  {
    if i == 0 then j
    else if j == 0 then i
    else Min(Cell(a, b, i - 1, j) + 1, Cell(a, b, i, j - 1) + 1,
             Cell(a, b, i - 1, j - 1) + (if a[i - 1] != b[j - 1] then 1 else 0))
  }

  function Dist<T(==)>(a: seq<T>, b: seq<T>): nat {
    Cell(a, b, |a|, |b|)
  }

  // ---------------------------------------------------------------- the two-row loop

  /** row holds the distances from the first i elements of a to the first 0, 1, .. elements of b. */
  predicate IsRow<T(==)>(row: seq<nat>, a: seq<T>, b: seq<T>, i: nat)
    requires i <= |a| && |row| <= |b| + 1
  {
    forall l :: 0 <= l < |row| ==> row[l] == Cell(a, b, i, l)
  }

  /** `_edit_distance`: every row replaces the one before. */
  method TwoRows<T(==)>(a: seq<T>, b: seq<T>) returns (d: nat)
    ensures d == Dist(a, b)
  {
    var prev: seq<nat> := seq(|b| + 1, j => j);
    for i := 0 to |a|
      invariant |prev| == |b| + 1 && IsRow(prev, a, b, i)
    {
      prev := NextRow(a, b, i, prev);
    }
    d := prev[|b|];
  }

  /** The inner loop: `cur` grows from `prev`. */
  method NextRow<T(==)>(a: seq<T>, b: seq<T>, i: nat, prev: seq<nat>) returns (cur: seq<nat>)
    requires i < |a| && |prev| == |b| + 1 && IsRow(prev, a, b, i)
    ensures |cur| == |b| + 1 && IsRow(cur, a, b, i + 1)
  {
    cur := [i + 1];
    for j := 0 to |b|
      invariant |cur| == j + 1 && IsRow(cur, a, b, i + 1)
    {
      var least := Min(prev[j + 1] + 1, cur[j] + 1, prev[j] + (if a[i] != b[j] then 1 else 0));
      CellStep(a, b, i, j);
      GrowRow(cur, a, b, i + 1, least);
      cur := cur + [least];
    }
  }

  lemma CellStep<T>(a: seq<T>, b: seq<T>, i: nat, j: nat)
    requires i < |a| && j < |b|
    ensures Cell(a, b, i + 1, j + 1)
         == Min(Cell(a, b, i, j + 1) + 1, Cell(a, b, i + 1, j) + 1, Cell(a, b, i, j) + (if a[i] != b[j] then 1 else 0))
  {
  }

  lemma GrowRow<T>(row: seq<nat>, a: seq<T>, b: seq<T>, i: nat, least: nat)
    requires i <= |a| && |row| <= |b| && IsRow(row, a, b, i) && least == Cell(a, b, i, |row|)
    ensures IsRow(row + [least], a, b, i)
  {
  }

  // ---------------------------------------------------------------- least cost

  lemma AppendEdit<T>(s: seq<Edit<T>>, e: Edit<T>)
    ensures Cost(s + [e]) == Cost(s) + CostOf(e)
    ensures Source(s + [e]) == Source(s) + Consumes(e)
    ensures Target(s + [e]) == Target(s) + Produces(e)
  {
    assert (s + [e])[..|s|] == s;
  }

  /** What an edit does last: the cell it comes from, and its cost. */
  ghost predicate ComesFrom<T>(a: seq<T>, b: seq<T>, i: nat, j: nat, e: Edit<T>, k: nat, l: nat)
    requires i <= |a| && j <= |b|
  {
    && i == k + |Consumes(e)| && j == l + |Produces(e)|
    && (!e.Insert? ==> e.x == a[k]) && (!e.Delete? ==> e.y == b[l])
    && Cell(a, b, i, j) == Cell(a, b, k, l) + CostOf(e)
  }

  /** The last edit of a cheapest script, and the cell before it. */
  lemma LastEdit<T>(a: seq<T>, b: seq<T>, i: nat, j: nat) returns (e: Edit<T>, k: nat, l: nat)
    requires i <= |a| && j <= |b| && i + j > 0
    ensures ComesFrom(a, b, i, j, e, k, l)
  {
    if i == 0 {
      e, k, l := Insert(b[j - 1]), i, j - 1;
    } else if j == 0 {
      e, k, l := Delete(a[i - 1]), i - 1, j;
    } else {
      var up, left, diagonal := Cell(a, b, i - 1, j), Cell(a, b, i, j - 1), Cell(a, b, i - 1, j - 1);
      CellIs(a, b, i, j, up, left, diagonal);
      e := Cheapest(a[i - 1], b[j - 1], up, left, diagonal);
      k, l := if e.Insert? then i else i - 1, if e.Delete? then j else j - 1;
    }
  }

  lemma CellIs<T>(a: seq<T>, b: seq<T>, i: nat, j: nat, up: nat, left: nat, diagonal: nat)
    requires 0 < i <= |a| && 0 < j <= |b|
    requires up == Cell(a, b, i - 1, j) && left == Cell(a, b, i, j - 1) && diagonal == Cell(a, b, i - 1, j - 1)
    ensures Cell(a, b, i, j) == Min(up + 1, left + 1, diagonal + (if a[i - 1] != b[j - 1] then 1 else 0))
  {
  }

  /** The edit that gives the least of the three sums. */
  lemma Cheapest<T>(x: T, y: T, up: nat, left: nat, diagonal: nat) returns (e: Edit<T>)
    ensures e == Delete(x) || e == Insert(y) || e == Pair(x, y)
    ensures Min(up + 1, left + 1, diagonal + (if x != y then 1 else 0))
         == (if e.Delete? then up else if e.Insert? then left else diagonal) + CostOf(e)
  {
    var pair := diagonal + (if x != y then 1 else 0);
    if up + 1 <= left + 1 && up + 1 <= pair {
      e := Delete(x);
    } else if left + 1 <= pair {
      e := Insert(y);
    } else {
      e := Pair(x, y);
    }
  }

  /** A script that costs exactly the distance. */
  lemma {:induction false} BestScript<T>(a: seq<T>, b: seq<T>, i: nat, j: nat) returns (s: seq<Edit<T>>)
    requires i <= |a| && j <= |b|
    ensures Turns(s, a[..i], b[..j]) && Cost(s) == Cell(a, b, i, j)
    decreases i + j
  {
    if i + j == 0 {
      s := [];
      assert a[..i] == [] && b[..j] == [];
    } else {
      var e, k, l := LastEdit(a, b, i, j);
      var t := BestScript(a, b, k, l);
      s := Extend(t, e, a, b, i, j, k, l);
    }
  }

  lemma Extend<T>(t: seq<Edit<T>>, e: Edit<T>, a: seq<T>, b: seq<T>, i: nat, j: nat, k: nat, l: nat)
    returns (s: seq<Edit<T>>)
    requires i <= |a| && j <= |b| && ComesFrom(a, b, i, j, e, k, l)
    requires Turns(t, a[..k], b[..l]) && Cost(t) == Cell(a, b, k, l)
    ensures Turns(s, a[..i], b[..j]) && Cost(s) == Cell(a, b, i, j)
  {
    assert a[..i] == a[..k] + Consumes(e);
    assert b[..j] == b[..l] + Produces(e);
    AppendEdit(t, e);
    s := t + [e];
  }

  /** No script is cheaper than the distance. */
  lemma {:induction false} NoScriptIsCheaper<T>(s: seq<Edit<T>>, a: seq<T>, b: seq<T>, i: nat, j: nat)
    requires i <= |a| && j <= |b| && Turns(s, a[..i], b[..j])
    ensures Cost(s) >= Cell(a, b, i, j)
  {
    if s != [] {
      var t, e := PeelLast(s, a, b, i, j);
      NoScriptIsCheaper(t, a, b, i - |Consumes(e)|, j - |Produces(e)|);
      OneEditMore(a, b, i, j, e);
    }
  }

  lemma PeelLast<T>(s: seq<Edit<T>>, a: seq<T>, b: seq<T>, i: nat, j: nat) returns (t: seq<Edit<T>>, e: Edit<T>)
    requires i <= |a| && j <= |b| && Turns(s, a[..i], b[..j]) && s != []
    ensures t == s[..|s| - 1] && Cost(s) == Cost(t) + CostOf(e)
    ensures |Consumes(e)| <= i && |Produces(e)| <= j
    ensures (!e.Insert? ==> e.x == a[i - 1]) && (!e.Delete? ==> e.y == b[j - 1])
    ensures Turns(t, a[..i - |Consumes(e)|], b[..j - |Produces(e)|])
  {
    t, e := s[..|s| - 1], s[|s| - 1];
    LastOf(Source(t), Consumes(e), a, i);
    LastOf(Target(t), Produces(e), b, j);
  }

  lemma LastOf<T>(init: seq<T>, last: seq<T>, a: seq<T>, i: nat)
    requires i <= |a| && a[..i] == init + last
    ensures |last| <= i && init == a[..i - |last|] && (|last| == 1 ==> last[0] == a[i - 1])
  {
    assert init == a[..i][..i - |last|];
    if |last| == 1 {
      assert last[0] == a[..i][i - 1];
    }
  }

  /** One more edit never saves anything. */
  lemma OneEditMore<T>(a: seq<T>, b: seq<T>, i: nat, j: nat, e: Edit<T>)
    requires |Consumes(e)| <= i <= |a| && |Produces(e)| <= j <= |b|
    requires (!e.Insert? ==> e.x == a[i - 1]) && (!e.Delete? ==> e.y == b[j - 1])
    ensures Cell(a, b, i, j) <= Cell(a, b, i - |Consumes(e)|, j - |Produces(e)|) + CostOf(e)
  {
    if i > 0 && j > 0 {
      CellAtMost(a, b, i, j);
    }
  }

  lemma CellAtMost<T>(a: seq<T>, b: seq<T>, i: nat, j: nat)
    requires 0 < i <= |a| && 0 < j <= |b|
    ensures Cell(a, b, i, j) <= Cell(a, b, i - 1, j) + 1 && Cell(a, b, i, j) <= Cell(a, b, i, j - 1) + 1
    ensures Cell(a, b, i, j) <= Cell(a, b, i - 1, j - 1) + CostOf(Pair(a[i - 1], b[j - 1]))
  {
    CellStep(a, b, i - 1, j - 1);
  }

  /** The distance is the least cost of any script from a to b. */
  lemma LeastCost<T>(a: seq<T>, b: seq<T>)
    ensures exists s :: Turns(s, a, b) && Cost(s) == Dist(a, b)
    ensures forall s :: Turns(s, a, b) ==> Cost(s) >= Dist(a, b)
  {
    assert a[..|a|] == a && b[..|b|] == b;
    var s := BestScript(a, b, |a|, |b|);
    forall s | Turns(s, a, b) ensures Cost(s) >= Dist(a, b) {
      NoScriptIsCheaper(s, a, b, |a|, |b|);
    }
  }

  // ---------------------------------------------------------------- a metric

  lemma {:induction false} FreeScriptCopies<T>(s: seq<Edit<T>>)
    requires Cost(s) == 0
    ensures Source(s) == Target(s)
  {
    if s != [] {
      FreeScriptCopies(s[..|s| - 1]);
    }
  }

  lemma {:induction false} DistToItself<T>(a: seq<T>, i: nat)
    requires i <= |a|
    ensures Cell(a, a, i, i) == 0
  {
    if i != 0 {
      DistToItself(a, i - 1);
    }
  }

  lemma ZeroIffEqual<T>(a: seq<T>, b: seq<T>)
    ensures Dist(a, b) == 0 <==> a == b
  {
    LeastCost(a, b);
    if Dist(a, b) == 0 {
      var s :| Turns(s, a, b) && Cost(s) == Dist(a, b);
      FreeScriptCopies(s);
    }
    if a == b {
      DistToItself(a, |a|);
    }
  }

  function Flip<T>(e: Edit<T>): Edit<T> {
    match e
    case Pair(x, y) => Pair(y, x)
    case Delete(x) => Insert(x)
    case Insert(y) => Delete(y)
  }

  /** Every script can be run backwards at the same cost. */
  lemma {:induction false} FlipScript<T>(s: seq<Edit<T>>) returns (r: seq<Edit<T>>)
    ensures Turns(r, Target(s), Source(s)) && Cost(r) == Cost(s)
  {
    if s == [] {
      r := [];
    } else {
      var q := FlipScript(s[..|s| - 1]);
      AppendEdit(q, Flip(s[|s| - 1]));
      r := q + [Flip(s[|s| - 1])];
    }
  }

  lemma NotLessReversed<T>(a: seq<T>, b: seq<T>)
    ensures Dist(b, a) <= Dist(a, b)
  {
    LeastCost(a, b);
    LeastCost(b, a);
    var s :| Turns(s, a, b) && Cost(s) == Dist(a, b);
    var r := FlipScript(s);
  }

  lemma Symmetric<T>(a: seq<T>, b: seq<T>)
    ensures Dist(a, b) == Dist(b, a)
  {
    NotLessReversed(a, b);
    NotLessReversed(b, a);
  }

  /** Two scripts in a row are one script that costs no more than both. */
  lemma {:induction false} Compose<T>(s: seq<Edit<T>>, t: seq<Edit<T>>) returns (r: seq<Edit<T>>)
    requires Target(s) == Source(t)
    ensures Turns(r, Source(s), Target(t)) && Cost(r) <= Cost(s) + Cost(t)
    decreases |s| + |t|, 1
  {
    if s != [] && s[|s| - 1].Delete? {
      var q := Compose(s[..|s| - 1], t);
      AppendEdit(q, s[|s| - 1]);
      r := q + [s[|s| - 1]];
    } else if t != [] && t[|t| - 1].Insert? {
      var q := Compose(s, t[..|t| - 1]);
      AppendEdit(q, t[|t| - 1]);
      r := q + [t[|t| - 1]];
    } else if s == [] || t == [] {
      NothingBetween(s, t);
      r := [];
    } else {
      r := ComposeLast(s, t);
    }
  }

  lemma NothingBetween<T>(s: seq<Edit<T>>, t: seq<Edit<T>>)
    requires Target(s) == Source(t) && (s == [] || t == [])
    requires (s != [] ==> !s[|s| - 1].Delete?) && (t != [] ==> !t[|t| - 1].Insert?)
    ensures s == [] && t == []
  {
  }

  /** The last edits of both scripts share the element between them. */
  lemma ComposeLast<T>(s: seq<Edit<T>>, t: seq<Edit<T>>) returns (r: seq<Edit<T>>)
    requires Target(s) == Source(t) && s != [] && t != [] && !s[|s| - 1].Delete? && !t[|t| - 1].Insert?
    ensures Turns(r, Source(s), Target(t)) && Cost(r) <= Cost(s) + Cost(t)
    decreases |s| + |t|, 0
  {
    var d, e := s[|s| - 1], t[|t| - 1];
    SameLast(Target(s[..|s| - 1]), d.y, Source(t[..|t| - 1]), e.x);
    var q := Compose(s[..|s| - 1], t[..|t| - 1]);
    if d.Pair? || e.Pair? {
      var f := if d.Pair? && e.Pair? then Pair(d.x, e.y) else if d.Pair? then Delete(d.x) else Insert(e.y);
      AppendEdit(q, f);
      r := q + [f];
    } else {
      r := q;
    }
  }

  lemma SameLast<T>(a: seq<T>, x: T, b: seq<T>, y: T)
    requires a + [x] == b + [y]
    ensures a == b && x == y
  {
    assert (a + [x])[..|a|] == a && (b + [y])[..|b|] == b;
    assert (a + [x])[|a|] == x && (b + [y])[|b|] == y;
  }

  lemma Triangle<T>(a: seq<T>, b: seq<T>, c: seq<T>)
    ensures Dist(a, c) <= Dist(a, b) + Dist(b, c)
  {
    LeastCost(a, b);
    LeastCost(b, c);
    LeastCost(a, c);
    var s :| Turns(s, a, b) && Cost(s) == Dist(a, b);
    var t :| Turns(t, b, c) && Cost(t) == Dist(b, c);
    var r := Compose(s, t);
  }
}
