/** Contacts of the DHT, ranked by XOR distance to a target key. */
module Contacts {
  import opened Keys
  import opened Ranking

  datatype Contact = Contact(id: Key, address: string)

  function Away(target: Key): Contact -> nat {
    (c: Contact) => Dist(target, c.id)
  }

  function Ids(s: set<Contact>): set<Key> {
    set c | c in s :: c.id
  }

  /** No two contacts of `s` share an ID under different addresses. */
  ghost predicate OneAddress(s: set<Contact>) {
    forall a, b :: a in s && b in s && a.id == b.id ==> a == b
  }

  /** One address per ID is exactly what makes distances tell contacts apart. */
  lemma OneAddressDistinct(target: Key, s: set<Contact>)
    ensures Distinct(Away(target), s) <==> OneAddress(s)
  {
    forall a, b | a in s && b in s
      ensures Away(target)(a) == Away(target)(b) <==> a.id == b.id
    {
      DistInjective(target, a.id, b.id);
    }
  }

  // ----- duplicates in a list of sorted, truncated inserts

  /** The inserts of `InsertBatches` before anything is cut off. */
  function InsertWhole(target: Key, batches: seq<seq<Contact>>): seq<Contact> {
    if batches == [] then []
    else InsertAll(Away(target), InsertWhole(target, batches[..|batches| - 1]), batches[|batches| - 1])
  }

  /** A contact listed twice has another contact under its ID in the list. */
  ghost predicate TwiceMeansTwo(l: seq<Contact>) {
    forall i, j :: 0 <= i < j < |l| && l[i] == l[j] ==> HasOther(l, l[i])
  }

  ghost predicate HasOther(l: seq<Contact>, c: Contact) {
    exists d :: d in l && d != c && d.id == c.id
  }

  lemma TwiceInsertOne(target: Key, l: seq<Contact>, c: Contact)
    requires Ascending(Away(target), l) && TwiceMeansTwo(l)
    ensures TwiceMeansTwo(InsertOne(Away(target), l, c))
  {
    hide Away, Ascending, HasOther, InsertOne;
    var p := Position(Away(target), l, Away(target)(c));
    var r := InsertOne(Away(target), l, c);
    InsertOneElems(Away(target), l, c);
    forall i, j | r != l && 0 <= i < j < |r| && r[i] == r[j]
      ensures HasOther(r, r[i])
    {
      InsertOneAt(Away(target), l, c, i);
      InsertOneAt(Away(target), l, c, j);
      if i == p {
        FrontOther(target, l, c, j - 1);
      } else if j != p {
        assert HasOther(l, r[i]);
      }
      MoreOthers(l, r, r[i]);
    }
  }

  lemma InsertOneAt(f: Contact -> nat, l: seq<Contact>, c: Contact, i: nat)
    requires i < |InsertOne(f, l, c)| && InsertOne(f, l, c) != l
    ensures var p, r := Position(f, l, f(c)), InsertOne(f, l, c);
            && |r| == |l| + 1 && r[i] == (if i < p then l[i] else if i == p then c else l[i - 1])
            && (p < |l| ==> l[p] != c)
  {
  }

  /** The front entry of a distance is another contact, when `c` comes later. */
  lemma FrontOther(target: Key, l: seq<Contact>, c: Contact, j: nat)
    requires Ascending(Away(target), l) && j < |l| && l[j] == c
    requires l[Position(Away(target), l, Away(target)(c))..] != []
    requires l[Position(Away(target), l, Away(target)(c))] != c
    ensures HasOther(l, c)
  {
    var p := Position(Away(target), l, Away(target)(c));
    SameDistance(target, l[p], c);
    assert l[p] in l;
  }

  lemma MoreOthers(l: seq<Contact>, r: seq<Contact>, c: Contact)
    requires Elems(l) <= Elems(r)
    ensures HasOther(l, c) ==> HasOther(r, c)
  {
    if HasOther(l, c) {
      var d :| d in l && d != c && d.id == c.id;
      assert d in Elems(l);
    }
  }

  lemma SameDistance(target: Key, a: Contact, b: Contact)
    ensures Away(target)(a) == Away(target)(b) <==> a.id == b.id
  {
    DistInjective(target, a.id, b.id);
  }

  lemma {:induction false} TwiceInsertAll(target: Key, l: seq<Contact>, cs: seq<Contact>)
    requires Ascending(Away(target), l) && TwiceMeansTwo(l)
    ensures TwiceMeansTwo(InsertAll(Away(target), l, cs))
  {
    if cs != [] {
      TwiceInsertAll(target, l, cs[..|cs| - 1]);
      InsertAllProperties(Away(target), l, cs[..|cs| - 1]);
      TwiceInsertOne(target, InsertAll(Away(target), l, cs[..|cs| - 1]), cs[|cs| - 1]);
    }
  }

  /** Cutting off after every batch is cutting off once at the end. */
  lemma {:induction false} WholeFacts(target: Key, k: nat, batches: seq<seq<Contact>>)
    ensures InsertBatches(Away(target), k, batches) == Take(k, InsertWhole(target, batches))
    ensures Ascending(Away(target), InsertWhole(target, batches)) && TwiceMeansTwo(InsertWhole(target, batches))
    ensures Elems(InsertWhole(target, batches)) == Union(batches)
  {
    if batches != [] {
      var front, last := batches[..|batches| - 1], batches[|batches| - 1];
      WholeFacts(target, k, front);
      TakeInsertAll(Away(target), k, InsertWhole(target, front), last);
      InsertAllProperties(Away(target), InsertWhole(target, front), last);
      TwiceInsertAll(target, InsertWhole(target, front), last);
    }
  }

  function Nearer(target: Key, s: set<Contact>, a: Contact): set<Contact> {
    set c | c in s && Away(target)(c) < Away(target)(a)
  }

  /** Whatever was inserted, in whatever batches: the list is free of duplicate
      IDs exactly when of each ID that came under two addresses there is room for
      one at most, after all that is nearer. */
  lemma StrictIffRoom(target: Key, k: nat, batches: seq<seq<Contact>>)
    ensures Strict(Away(target), InsertBatches(Away(target), k, batches)) <==>
            forall a, b :: a in Union(batches) && b in Union(batches) && a != b && a.id == b.id ==>
              |Nearer(target, Union(batches), a)| + 1 >= k
  {
    var l, s := InsertWhole(target, batches), Union(batches);
    WholeFacts(target, k, batches);
    hide InsertWhole, InsertBatches, Union;
    forall a, b | Strict(Away(target), Take(k, l)) && a in s && b in s && a != b && a.id == b.id
      ensures |Nearer(target, s, a)| + 1 >= k
    {
      StrictLeavesNoRoom(target, k, l, a, b);
    }
    if forall a, b :: a in s && b in s && a != b && a.id == b.id ==> |Nearer(target, s, a)| + 1 >= k {
      forall i, j | 0 <= i < j < |Take(k, l)|
        ensures Away(target)(Take(k, l)[i]) < Away(target)(Take(k, l)[j])
      {
        NoRoomIsStrict(target, k, l, i, j);
      }
    }
  }

  lemma StrictLeavesNoRoom(target: Key, k: nat, l: seq<Contact>, a: Contact, b: Contact)
    requires Ascending(Away(target), l) && Strict(Away(target), Take(k, l))
    requires a in l && b in l && a != b && a.id == b.id
    ensures |Nearer(target, Elems(l), a)| + 1 >= k
  {
    hide Away, Ascending, Strict, Take, Nearer;
    SameDistance(target, a, b);
    TwoAtFront(Away(target), l, a, b);
    StrictCut(Away(target), k, l);
    if k > 0 {
      FrontSize(target, k, l, a);
    }
  }

  /** Two contacts at one distance are two entries from its position on. */
  lemma TwoAtFront(f: Contact -> nat, l: seq<Contact>, a: Contact, b: Contact)
    requires Ascending(f, l) && a in l && b in l && a != b && f(a) == f(b)
    ensures var p := Position(f, l, f(a)); p + 2 <= |l| && f(l[p]) == f(l[p + 1])
  {
    hide Ascending, Position;
    var i :| 0 <= i < |l| && l[i] == a;
    var j :| 0 <= j < |l| && l[j] == b;
    if Position(f, l, f(a)) < i {
      PairAtFront(f, l, i);
    } else {
      PairAtFront(f, l, j);
    }
  }

  lemma PairAtFront(f: Contact -> nat, l: seq<Contact>, i: nat)
    requires Ascending(f, l) && i < |l| && Position(f, l, f(l[i])) < i
    ensures var p := Position(f, l, f(l[i])); f(l[p]) == f(l[p + 1])
  {
    hide Position;
    var p := Position(f, l, f(l[i]));
    assert f(l[p]) <= f(l[p + 1]);
    assert p + 1 < i ==> f(l[p + 1]) <= f(l[i]);
  }

  lemma FrontSize(target: Key, k: nat, l: seq<Contact>, a: Contact)
    requires k > 0 && k - 1 <= Position(Away(target), l, Away(target)(a)) && Strict(Away(target), Take(k, l))
    ensures |Nearer(target, Elems(l), a)| + 1 >= k
  {
    var f := Away(target);
    hide Away;
    var front := l[..k - 1];
    assert front == Take(k, l)[..k - 1];
    SplitOrder(f, Take(k, l), k - 1);
    StrictLength(f, front);
    forall c | c in Elems(front)
      ensures c in Nearer(target, Elems(l), a)
    {
      var i :| 0 <= i < |front| && front[i] == c;
      assert l[i] == c && c in Elems(l);
    }
    SubsetSize(Elems(front), Nearer(target, Elems(l), a));
  }

  lemma StrictCut(f: Contact -> nat, k: nat, l: seq<Contact>)
    requires Strict(f, Take(k, l))
    ensures forall n :: 0 <= n && n + 2 <= k && n + 2 <= |l| ==> f(l[n]) < f(l[n + 1])
  {
    var m := Take(k, l);
    assert forall n :: 0 <= n < |m| ==> m[n] == l[n];
  }

  lemma NoRoomIsStrict(target: Key, k: nat, l: seq<Contact>, i: nat, j: nat)
    requires Ascending(Away(target), l) && TwiceMeansTwo(l) && i < j < |Take(k, l)|
    requires forall a, b :: a in Elems(l) && b in Elems(l) && a != b && a.id == b.id ==>
               |Nearer(target, Elems(l), a)| + 1 >= k
    ensures Away(target)(l[i]) < Away(target)(l[j])
  {
    var f := Away(target);
    if f(l[i]) == f(l[j]) {
      SameDistance(target, l[i], l[j]);
      assert HasOther(l, l[i]) by {
        if l[i] != l[j] {
          assert l[j] in l;
        }
      }
      var d :| d in l && d != l[i] && d.id == l[i].id;
      assert l[i] in Elems(l) && d in Elems(l);
      hide Away;
      var p := Position(f, l, f(l[i]));
      assert p <= i;
      var nearer := Nearer(target, Elems(l), l[i]);
      NearerAreFirst(target, l, l[i], p);
      ElemsSize(l[..p]);
      SubsetSize(nearer, Elems(l[..p]));
    }
  }

  lemma NearerAreFirst(target: Key, l: seq<Contact>, c: Contact, p: nat)
    requires Ascending(Away(target), l) && p == Position(Away(target), l, Away(target)(c))
    ensures Nearer(target, Elems(l), c) <= Elems(l[..p])
  {
    hide Away;
    forall x | x in Nearer(target, Elems(l), c)
      ensures x in l[..p]
    {
      var i :| 0 <= i < |l| && l[i] == x;
      assert i < p;
      assert l[..p][i] == x;
    }
  }

  lemma {:induction false} ElemsSize(l: seq<Contact>)
    ensures |Elems(l)| <= |l|
  {
    if l != [] {
      ElemsSize(l[..|l| - 1]);
      assert l == l[..|l| - 1] + [l[|l| - 1]];
      assert Elems(l) == Elems(l[..|l| - 1]) + {l[|l| - 1]};
    }
  }

  /** The contacts of a table without the excluded ID. */
  function Others(table: set<Contact>, exclude: Key): set<Contact> {
    set c | c in table && c.id != exclude
  }

  lemma {:induction false} IdsSize(s: set<Contact>)
    ensures |Ids(s)| <= |s|
  {
    if s != {} {
      var c :| c in s;
      IdsSize(s - {c});
      assert Ids(s) <= Ids(s - {c}) + {c.id};
      SubsetSize(Ids(s), Ids(s - {c}) + {c.id});
    }
  }
}
