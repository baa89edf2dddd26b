/** Lists ordered by a numeric score, and the specification behind the routing
    table, the lookup shortlist and their replies: the `k` lowest-scoring
    members of a set, in order. */
module Ranking {

  function Elems<T>(l: seq<T>): set<T> {
    set x | x in l
  }

  function Take<T>(k: nat, l: seq<T>): seq<T> {
    if |l| > k then l[..k] else l
  }

  /** Different members of `s` have different scores. */
  ghost predicate Distinct<T>(f: T -> nat, s: set<T>) {
    forall a, b :: a in s && b in s && f(a) == f(b) ==> a == b
  }

  ghost predicate Ascending<T>(f: T -> nat, l: seq<T>) {
    forall i, j :: 0 <= i < j < |l| ==> f(l[i]) <= f(l[j])
  }

  ghost predicate Strict<T>(f: T -> nat, l: seq<T>) {
    forall i, j :: 0 <= i < j < |l| ==> f(l[i]) < f(l[j])
  }

  /** Number of leading entries scoring below `d`. */
  function Position<T>(f: T -> nat, l: seq<T>, d: nat): (i: nat)
    ensures i <= |l|
    ensures forall j :: 0 <= j < i ==> f(l[j]) < d
    ensures i < |l| ==> f(l[i]) >= d
  {
    if l == [] || f(l[0]) >= d then 0 else 1 + Position(f, l[1..], d)
  }

  lemma PositionUnique<T>(f: T -> nat, l: seq<T>, d: nat, i: nat)
    requires i <= |l|
    requires forall j :: 0 <= j < i ==> f(l[j]) < d
    requires i < |l| ==> f(l[i]) >= d
    ensures Position(f, l, d) == i
  {
    var p := Position(f, l, d);
    assert !(p < i) && !(i < p);
  }

  /** Insertion at the sorted position unless the entry there is `x` itself. */
  function InsertOne<T(==)>(f: T -> nat, l: seq<T>, x: T): seq<T> {
    var i := Position(f, l, f(x));
    if i < |l| && l[i] == x then l else l[..i] + [x] + l[i..]
  }

  function InsertAll<T(==)>(f: T -> nat, l: seq<T>, xs: seq<T>): seq<T> {
    if xs == [] then l
    else InsertOne(f, InsertAll(f, l, xs[..|xs| - 1]), xs[|xs| - 1])
  }

  lemma InsertAllStep<T>(f: T -> nat, l: seq<T>, xs: seq<T>, n: nat)
    requires n < |xs|
    ensures InsertAll(f, l, xs[..n + 1]) == InsertOne(f, InsertAll(f, l, xs[..n]), xs[n])
  {
    assert xs[..n + 1][..n] == xs[..n];
  }

  lemma TakeKeepsOrder<T>(f: T -> nat, k: nat, l: seq<T>)
    ensures Ascending(f, l) ==> Ascending(f, Take(k, l))
    ensures Strict(f, l) ==> Strict(f, Take(k, l))
  {
  }

  lemma InsertOneElems<T>(f: T -> nat, l: seq<T>, x: T)
    ensures Elems(InsertOne(f, l, x)) == Elems(l) + {x}
  {
    var i := Position(f, l, f(x));
    assert l == l[..i] + l[i..];
  }

  lemma SplitOrder<T>(f: T -> nat, l: seq<T>, i: nat)
    requires i <= |l|
    ensures Ascending(f, l) ==> Ascending(f, l[..i]) && Ascending(f, l[i..])
    ensures Strict(f, l) ==> Strict(f, l[..i]) && Strict(f, l[i..])
  {
  }

  lemma JoinAscending<T>(f: T -> nat, a: seq<T>, b: seq<T>)
    requires Ascending(f, a) && Ascending(f, b)
    requires a != [] && b != [] ==> f(a[|a| - 1]) <= f(b[0])
    ensures Ascending(f, a + b)
  {
    forall i, j | 0 <= i < j < |a + b|
      ensures f((a + b)[i]) <= f((a + b)[j])
    {
      if i < |a| <= j {
        assert f(a[i]) <= f(a[|a| - 1]);
        assert f(b[0]) <= f(b[j - |a|]);
      }
    }
  }

  lemma JoinStrict<T>(f: T -> nat, a: seq<T>, b: seq<T>)
    requires Strict(f, a) && Strict(f, b)
    requires a != [] && b != [] ==> f(a[|a| - 1]) < f(b[0])
    ensures Strict(f, a + b)
  {
    forall i, j | 0 <= i < j < |a + b|
      ensures f((a + b)[i]) < f((a + b)[j])
    {
      if i < |a| <= j {
        assert f(a[i]) <= f(a[|a| - 1]);
        assert f(b[0]) <= f(b[j - |a|]);
      }
    }
  }

  lemma InsertOneAscending<T>(f: T -> nat, l: seq<T>, x: T)
    requires Ascending(f, l)
    ensures Ascending(f, InsertOne(f, l, x))
  {
    hide Ascending;
    var p := Position(f, l, f(x));
    SplitOrder(f, l, p);
    assert Ascending(f, [x]) by {
      SingleOrdered(f, x);
    }
    JoinAscending(f, l[..p], [x]);
    JoinAscending(f, l[..p] + [x], l[p..]);
  }

  lemma SingleOrdered<T>(f: T -> nat, x: T)
    ensures Ascending(f, [x]) && Strict(f, [x])
  {
  }

  lemma InsertOneStrict<T>(f: T -> nat, l: seq<T>, x: T)
    requires Strict(f, l)
    requires Distinct(f, Elems(l) + {x})
    ensures Strict(f, InsertOne(f, l, x))
  {
    hide Strict;
    var p := Position(f, l, f(x));
    if !(p < |l| && l[p] == x) {
      assert p < |l| ==> f(x) < f(l[p]) by {
        assert p < |l| ==> l[p] in Elems(l);
      }
      SplitOrder(f, l, p);
      SingleOrdered(f, x);
      JoinStrict(f, l[..p], [x]);
      JoinStrict(f, l[..p] + [x], l[p..]);
    }
  }

  lemma {:induction false} InsertAllProperties<T>(f: T -> nat, l: seq<T>, xs: seq<T>)
    ensures Elems(InsertAll(f, l, xs)) == Elems(l) + Elems(xs)
    ensures Ascending(f, l) ==> Ascending(f, InsertAll(f, l, xs))
    ensures Strict(f, l) && Distinct(f, Elems(l) + Elems(xs)) ==> Strict(f, InsertAll(f, l, xs))
  {
    if xs != [] {
      var front, x := xs[..|xs| - 1], xs[|xs| - 1];
      assert Elems(xs) == Elems(front) + {x} by {
        assert xs == front + [x];
      }
      InsertAllProperties(f, l, front);
      var m := InsertAll(f, l, front);
      InsertOneElems(f, m, x);
      if Ascending(f, l) {
        InsertOneAscending(f, m, x);
      }
      if Strict(f, l) && Distinct(f, Elems(l) + Elems(xs)) {
        InsertOneStrict(f, m, x);
      }
    }
  }

  lemma StrictIsDistinct<T>(f: T -> nat, l: seq<T>)
    requires Strict(f, l)
    ensures Distinct(f, Elems(l))
  {
    forall a, b | a in Elems(l) && b in Elems(l) && f(a) == f(b)
      ensures a == b
    {
      var i :| 0 <= i < |l| && l[i] == a;
      var j :| 0 <= j < |l| && l[j] == b;
    }
  }

  /** A strictly ascending list is determined by its members. */
  lemma {:induction false} StrictUnique<T>(f: T -> nat, a: seq<T>, b: seq<T>)
    requires Strict(f, a) && Strict(f, b)
    requires Elems(a) == Elems(b)
    ensures a == b
  {
    ElemsEmpty(a);
    ElemsEmpty(b);
    if a != [] {
      SameHead(f, a, b);
      assert Elems(a[1..]) == Elems(a) - {a[0]} by {
        assert a == [a[0]] + a[1..];
      }
      assert Elems(b[1..]) == Elems(b) - {b[0]} by {
        assert b == [b[0]] + b[1..];
      }
      StrictUnique(f, a[1..], b[1..]);
      assert a == [a[0]] + a[1..] && b == [b[0]] + b[1..];
    }
  }

  lemma ElemsEmpty<T>(l: seq<T>)
    ensures l == [] <==> Elems(l) == {}
  {
    assert l != [] ==> l[0] in Elems(l);
  }

  lemma SameHead<T>(f: T -> nat, a: seq<T>, b: seq<T>)
    requires Strict(f, a) && Strict(f, b)
    requires Elems(a) == Elems(b) && a != [] && b != []
    ensures a[0] == b[0]
  {
    assert a[0] in Elems(b) && b[0] in Elems(a) by {
      assert a[0] in Elems(a) && b[0] in Elems(b);
    }
    var j :| 0 <= j < |b| && b[j] == a[0];
    var i :| 0 <= i < |a| && a[i] == b[0];
  }

  lemma {:induction false} StrictLength<T>(f: T -> nat, l: seq<T>)
    requires Strict(f, l)
    ensures |Elems(l)| == |l|
  {
    if l != [] {
      var front, x := l[..|l| - 1], l[|l| - 1];
      StrictLength(f, front);
      assert Elems(l) == Elems(front) + {x} by {
        assert l == front + [x];
      }
      assert x !in front;
    }
  }

  // ----- the k lowest

  /** All of `s`, lowest score first. */
  ghost function Ordering<T>(f: T -> nat, s: set<T>): (l: seq<T>)
    requires Distinct(f, s)
    ensures Strict(f, l)
    ensures Elems(l) == s
  {
    if s == {} then []
    else
      var x :| x in s;
      var l := Ordering(f, s - {x});
      assert Elems(l) + {x} == s;
      InsertOneStrict(f, l, x);
      InsertOneElems(f, l, x);
      InsertOne(f, l, x)
  }

  ghost function Lowest<T>(f: T -> nat, k: nat, s: set<T>): seq<T>
    requires Distinct(f, s)
  {
    Take(k, Ordering(f, s))
  }

  /** What `Lowest` means, without reference to how it is built: `l` is strictly
      ascending, holds as many members of `s` as fit in `k`, and leaves out only
      members that score above all of `l`. */
  ghost predicate IsLowest<T(!new)>(f: T -> nat, k: nat, s: set<T>, l: seq<T>) {
    && Strict(f, l)
    && Elems(l) <= s
    && |l| == (if |s| < k then |s| else k)
    && forall near, far :: near in l && far in s && far !in l ==> f(near) < f(far)
  }

  lemma LowestMeaning<T(!new)>(f: T -> nat, k: nat, s: set<T>)
    requires Distinct(f, s)
    ensures IsLowest(f, k, s, Lowest(f, k, s))
  {
    var all := Ordering(f, s);
    StrictLength(f, all);
    PrefixBelowRest(f, all, |Take(k, all)|);
  }

  lemma PrefixBelowRest<T>(f: T -> nat, all: seq<T>, n: nat)
    requires Strict(f, all) && n <= |all|
    ensures Strict(f, all[..n]) && Elems(all[..n]) <= Elems(all)
    ensures forall near, far :: near in all[..n] && far in Elems(all) && far !in all[..n] ==> f(near) < f(far)
  {
    forall near, far | near in all[..n] && far in Elems(all) && far !in all[..n]
      ensures f(near) < f(far)
    {
      var i :| 0 <= i < n && all[i] == near;
      var j :| 0 <= j < |all| && all[j] == far;
    }
  }

  /** Nothing else has that meaning, so the answer does not depend on map order
      or on the stability of a sort. */
  lemma LowestIsDetermined<T(!new)>(f: T -> nat, k: nat, s: set<T>, l: seq<T>)
    requires Distinct(f, s)
    requires IsLowest(f, k, s, l)
    ensures l == Lowest(f, k, s)
  {
    var rest := Ordering(f, s - Elems(l));
    var all := l + rest;
    assert Elems(all) == s by {
      assert Elems(all) == Elems(l) + Elems(rest);
    }
    assert Strict(f, all) by {
      AboveLowest(f, k, s, l, rest);
    }
    hide Strict, Elems, IsLowest;
    StrictUnique(f, all, Ordering(f, s));
    assert Ordering(f, s) == all;
    StrictLength(f, all);
    assert all[..|l|] == l;
    LowestLength(f, k, s, l);
  }

  lemma AboveLowest<T(!new)>(f: T -> nat, k: nat, s: set<T>, l: seq<T>, rest: seq<T>)
    requires IsLowest(f, k, s, l) && Strict(f, rest) && Elems(rest) == s - Elems(l)
    ensures Strict(f, l + rest)
  {
    if l != [] && rest != [] {
      assert l[|l| - 1] in l && rest[0] in Elems(rest);
    }
    JoinStrict(f, l, rest);
  }

  lemma LowestLength<T(!new)>(f: T -> nat, k: nat, s: set<T>, l: seq<T>)
    requires IsLowest(f, k, s, l)
    ensures |l| == if |s| < k then |s| else k
  {
  }

  /** Truncation before an insert does not show after truncation again. */
  lemma TakeInsertOne<T>(f: T -> nat, k: nat, l: seq<T>, x: T)
    ensures Take(k, InsertOne(f, l, x)) == Take(k, InsertOne(f, Take(k, l), x))
  {
    if |l| > k {
      var i, m := Position(f, l, f(x)), l[..k];
      if i < k {
        PositionUnique(f, m, f(x), i);
      } else {
        PositionUnique(f, m, f(x), k);
      }
      TakeSplice(k, l, if i < k then i else k, x);
      TakeSplice(k, l, i, x);
    }
  }

  lemma TakeSplice<T>(k: nat, l: seq<T>, i: nat, x: T)
    requires i <= |l| && k <= |l|
    ensures i < k ==> (l[..i] + [x] + l[i..])[..k] == (l[..k][..i] + [x] + l[..k][i..])[..k]
    ensures i >= k ==> (l[..i] + [x] + l[i..])[..k] == l[..k]
  {
    var r := l[..i] + [x] + l[i..];
    if i < k {
      var m := l[..k][..i] + [x] + l[..k][i..];
      assert forall j :: 0 <= j < k ==> r[j] == m[j];
    } else {
      assert forall j :: 0 <= j < k ==> r[j] == l[j];
    }
  }

  lemma {:induction false} TakeInsertAll<T>(f: T -> nat, k: nat, l: seq<T>, xs: seq<T>)
    ensures Take(k, InsertAll(f, l, xs)) == Take(k, InsertAll(f, Take(k, l), xs))
  {
    if xs != [] {
      var front, x := xs[..|xs| - 1], xs[|xs| - 1];
      TakeInsertAll(f, k, l, front);
      TakeInsertOne(f, k, InsertAll(f, l, front), x);
      TakeInsertOne(f, k, InsertAll(f, Take(k, l), front), x);
    }
  }

  lemma OrderingInsertAll<T>(f: T -> nat, s: set<T>, xs: seq<T>)
    requires Distinct(f, s + Elems(xs))
    ensures Distinct(f, s)
    ensures InsertAll(f, Ordering(f, s), xs) == Ordering(f, s + Elems(xs))
  {
    assert Distinct(f, s);
    InsertAllProperties(f, Ordering(f, s), xs);
    StrictUnique(f, InsertAll(f, Ordering(f, s), xs), Ordering(f, s + Elems(xs)));
  }

  /** Inserting a batch into the `k` lowest of `s` and truncating gives the
      `k` lowest of everything: what was truncated away never matters. */
  lemma LowestInsert<T>(f: T -> nat, k: nat, s: set<T>, xs: seq<T>)
    requires Distinct(f, s + Elems(xs))
    ensures Distinct(f, s)
    ensures Take(k, InsertAll(f, Lowest(f, k, s), xs)) == Lowest(f, k, s + Elems(xs))
  {
    OrderingInsertAll(f, s, xs);
    TakeInsertAll(f, k, Ordering(f, s), xs);
  }

  /** The truncating inserts of `batches`, in order, into an empty list. */
  function InsertBatches<T(==)>(f: T -> nat, k: nat, batches: seq<seq<T>>): seq<T> {
    if batches == [] then []
    else Take(k, InsertAll(f, InsertBatches(f, k, batches[..|batches| - 1]), batches[|batches| - 1]))
  }

  function Union<T>(batches: seq<seq<T>>): set<T> {
    if batches == [] then {}
    else Union(batches[..|batches| - 1]) + Elems(batches[|batches| - 1])
  }

  /** Any grouping and any order of inserts leaves the `k` lowest of all that
      was ever inserted. */
  lemma {:induction false} BatchesGiveLowest<T>(f: T -> nat, k: nat, batches: seq<seq<T>>)
    requires Distinct(f, Union(batches))
    ensures InsertBatches(f, k, batches) == Lowest(f, k, Union(batches))
  {
    if batches == [] {
      assert Ordering(f, {}) == [];
    } else {
      var front := batches[..|batches| - 1];
      assert Distinct(f, Union(front));
      BatchesGiveLowest(f, k, front);
      LowestInsert(f, k, Union(front), batches[|batches| - 1]);
    }
  }

  /** Deletion at the sorted position if the entry there is `x`. */
  function RemoveOne<T(==)>(f: T -> nat, l: seq<T>, x: T): seq<T> {
    var i := Position(f, l, f(x));
    if i < |l| && l[i] == x then l[..i] + l[i + 1..] else l
  }

  lemma CutBounds<T>(f: T -> nat, l: seq<T>, p: nat)
    ensures Ascending(f, l) && 0 < p && p + 1 < |l| ==> f(l[p - 1]) <= f(l[p + 1])
    ensures Strict(f, l) && 0 < p && p + 1 < |l| ==> f(l[p - 1]) < f(l[p + 1])
  {
  }

  lemma RemoveOneKeepsOrder<T>(f: T -> nat, l: seq<T>, x: T)
    ensures Ascending(f, l) ==> Ascending(f, RemoveOne(f, l, x))
    ensures Strict(f, l) ==> Strict(f, RemoveOne(f, l, x))
  {
    var p := Position(f, l, f(x));
    if p < |l| && l[p] == x {
      SplitOrder(f, l, p);
      SplitOrder(f, l, p + 1);
      CutBounds(f, l, p);
      hide Ascending, Strict;
      if Ascending(f, l) {
        JoinAscending(f, l[..p], l[p + 1..]);
      }
      if Strict(f, l) {
        JoinStrict(f, l[..p], l[p + 1..]);
      }
    }
  }

  lemma RemoveOneElems<T>(f: T -> nat, l: seq<T>, x: T)
    requires Strict(f, l)
    ensures Elems(RemoveOne(f, l, x)) == Elems(l) - {x}
  {
    if x in l {
      var i :| 0 <= i < |l| && l[i] == x;
      PositionUnique(f, l, f(x), i);
      CutElems(f, l, i);
    } else {
      assert RemoveOne(f, l, x) == l;
    }
  }

  lemma CutElems<T>(f: T -> nat, l: seq<T>, i: nat)
    requires Strict(f, l) && i < |l|
    ensures Elems(l[..i] + l[i + 1..]) == Elems(l) - {l[i]}
  {
    var r := l[..i] + l[i + 1..];
    forall y | y in l && y != l[i]
      ensures y in r
    {
      var j :| 0 <= j < |l| && l[j] == y;
      assert r[if j < i then j else j - 1] == y;
    }
    forall y | y in r
      ensures y in l && y != l[i]
    {
      var j :| 0 <= j < |r| && r[j] == y;
      var m := if j < i then j else j + 1;
      assert l[m] == y && m != i;
    }
  }

  lemma {:induction false} SubsetSize<T>(a: set<T>, b: set<T>)
    requires a <= b
    ensures |a| <= |b|
  {
    if a != {} {
      var x :| x in a;
      SubsetSize(a - {x}, b - {x});
    }
  }

  /** A member of the `k` lowest of a set is among the `k` lowest of every
      subset that holds it. */
  lemma LowestOfSubset<T(!new)>(f: T -> nat, k: nat, small: set<T>, big: set<T>, x: T)
    requires Distinct(f, big) && small <= big
    requires x in small && x in Lowest(f, k, big)
    ensures Distinct(f, small) && x in Lowest(f, k, small)
  {
    assert Distinct(f, small);
    LowestMeaning(f, k, small);
    LowestMeaning(f, k, big);
    hide Lowest, IsLowest;
    StaysLowest(f, k, small, Lowest(f, k, small), big, Lowest(f, k, big), x);
  }

  lemma StaysLowest<T(!new)>(f: T -> nat, k: nat, small: set<T>, ls: seq<T>, big: set<T>, lb: seq<T>, x: T)
    requires IsLowest(f, k, small, ls) && IsLowest(f, k, big, lb) && small <= big
    requires x in small && x in lb
    ensures x in ls
  {
    hide IsLowest;
    if x !in ls {
      LeftOut(f, k, small, ls, x);
      Admits(f, k, big, lb, x);
      SubsetSize(Elems(ls) + {x}, Elems(lb));
    }
  }

  /** What is left out scores above a list that is full. */
  lemma LeftOut<T(!new)>(f: T -> nat, k: nat, s: set<T>, l: seq<T>, x: T)
    requires IsLowest(f, k, s, l) && x in s && x !in l
    ensures forall y :: y in l ==> f(y) < f(x) && y in s
    ensures |Elems(l) + {x}| == k + 1
  {
    StrictLength(f, l);
    SubsetSize(Elems(l) + {x}, s);
  }

  lemma Admits<T(!new)>(f: T -> nat, k: nat, s: set<T>, l: seq<T>, x: T)
    requires IsLowest(f, k, s, l) && x in l
    ensures forall y :: y in s && f(y) < f(x) ==> y in l
    ensures |Elems(l)| <= k
  {
    StrictLength(f, l);
  }
}
