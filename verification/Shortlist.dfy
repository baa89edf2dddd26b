/** The lookup shortlist (`shortlist` in dht/node.go): contacts sorted by
    distance and truncated to `k`, with the marks the lookup keeps on them. */
module Shortlists {
  import opened Keys
  import opened Ranking
  import opened Contacts

  /** The members of `l` that carry no mark, in order. */
  function Unmarked(l: seq<Contact>, marks: set<Key>): (r: seq<Contact>)
    ensures forall c :: c in r <==> c in l && c.id !in marks
  {
    if l == [] then []
    else
      var front, c := l[..|l| - 1], l[|l| - 1];
      assert l == front + [c];
      Unmarked(front, marks) + (if c.id in marks then [] else [c])
  }

  lemma {:induction false} UnmarkedSplit(l: seq<Contact>, m: seq<Contact>, marks: set<Key>)
    ensures Unmarked(l + m, marks) == Unmarked(l, marks) + Unmarked(m, marks)
  {
    if m == [] {
      assert l + m == l;
    } else {
      var front, c := m[..|m| - 1], m[|m| - 1];
      assert (l + m)[..|l + m| - 1] == l + front;
      UnmarkedSplit(l, front, marks);
    }
  }

  lemma {:induction false} UnmarkedStrict(f: Contact -> nat, l: seq<Contact>, marks: set<Key>)
    requires Strict(f, l)
    ensures Strict(f, Unmarked(l, marks))
  {
    if l != [] {
      var front, c := l[..|l| - 1], l[|l| - 1];
      UnmarkedStrict(f, front, marks);
      forall x | x in Unmarked(front, marks)
        ensures f(x) < f(c)
      {
        assert x in front;
      }
    }
  }

  function RemoveAll(f: Contact -> nat, l: seq<Contact>, cs: seq<Contact>): seq<Contact> {
    if cs == [] then l
    else RemoveOne(f, RemoveAll(f, l, cs[..|cs| - 1]), cs[|cs| - 1])
  }

  lemma RemoveAllStep(f: Contact -> nat, l: seq<Contact>, cs: seq<Contact>, n: nat)
    requires n < |cs|
    ensures RemoveAll(f, l, cs[..n + 1]) == RemoveOne(f, RemoveAll(f, l, cs[..n]), cs[n])
    ensures Ids(Elems(cs[..n + 1])) == Ids(Elems(cs[..n])) + {cs[n].id}
  {
    assert cs[..n + 1][..n] == cs[..n];
    assert Elems(cs[..n + 1]) == Elems(cs[..n]) + {cs[n]};
  }

  /** Skipping a marked entry, or stopping at an unmarked one. */
  lemma UnmarkedAt(l: seq<Contact>, marks: set<Key>, n: nat)
    requires n < |l|
    ensures l[n].id in marks ==> Unmarked(l[..n + 1], marks) == Unmarked(l[..n], marks)
    ensures l[n].id !in marks ==> Unmarked(l[..n + 1], marks) == Unmarked(l[..n], marks) + [l[n]]
    ensures Unmarked(l[..n + 1], marks) <= Unmarked(l, marks)
  {
    assert l[..n + 1][..n] == l[..n];
    assert l == l[..n + 1] + l[n + 1..];
    UnmarkedSplit(l[..n + 1], l[n + 1..], marks);
  }

  class Shortlist {
    const k: nat
    const target: Key
    var list: seq<Contact>
    var contacted: set<Key>
    var hasPeers: set<Key>

    /** The list stays sorted for every input, one address per ID or not. */
    ghost predicate Valid()
      reads this
    {
      Ascending(Away(target), list)
    }

    constructor (target: Key, k: nat)
      ensures Valid()
      ensures this.target == target && this.k == k
      ensures list == [] && contacted == {} && hasPeers == {}
    {
      this.target, this.k := target, k;
      list, contacted, hasPeers := [], {}, {};
    }

    /** Binary search for the first entry at least as far as `c`. */
    method Search(c: Contact) returns (i: nat)
      requires Valid()
      ensures i == Position(Away(target), list, Away(target)(c))
    {
      var d1 := Xor(target, c.id);
      var lo, hi := 0, |list|;
      while lo < hi
        invariant 0 <= lo <= hi <= |list|
        invariant forall j :: 0 <= j < lo ==> Away(target)(list[j]) < Value(d1)
        invariant forall j :: hi <= j < |list| ==> Away(target)(list[j]) >= Value(d1)
      {
        var h := (lo + hi) / 2;
        var d2 := Xor(target, list[h].id);
        var r := Cmp(d2, d1);
        assert Value(d2) == Away(target)(list[h]);
        if r == 0 || r == 1 {
          hi := h;
        } else {
          lo := h + 1;
        }
      }
      i := lo;
      PositionUnique(Away(target), list, Value(d1), i);
    }

    method Insert(cs: seq<Contact>)
      requires Valid()
      modifies this`list
      ensures Valid()
      ensures list == Take(k, InsertAll(Away(target), old(list), cs))
    {
      var n := 0;
      while n < |cs|
        invariant 0 <= n <= |cs|
        invariant Valid()
        invariant list == InsertAll(Away(target), old(list), cs[..n])
      {
        InsertAllStep(Away(target), old(list), cs, n);
        InsertContact(cs[n]);
        n := n + 1;
      }
      assert cs[..n] == cs;
      TakeKeepsOrder(Away(target), k, list);
      if |list| > k {
        list := list[..k];
      }
    }

    // The body of the loop in Insert
    method InsertContact(c: Contact)
      requires Valid()
      modifies this`list
      ensures Valid()
      ensures list == InsertOne(Away(target), old(list), c)
    {
      hide Ascending;
      var i := Search(c);
      InsertOneAscending(Away(target), list, c);
      if !(i < |list| && list[i] == c) {
        list := list[..i] + [c] + list[i..];
      }
    }

    method Remove(cs: seq<Contact>)
      requires Valid()
      modifies this`list, this`contacted
      ensures Valid()
      ensures list == RemoveAll(Away(target), old(list), cs)
      ensures contacted == old(contacted) - Ids(Elems(cs))
    {
      var n := 0;
      while n < |cs|
        invariant 0 <= n <= |cs|
        invariant Valid()
        invariant list == RemoveAll(Away(target), old(list), cs[..n])
        invariant contacted == old(contacted) - Ids(Elems(cs[..n]))
      {
        RemoveAllStep(Away(target), old(list), cs, n);
        RemoveContact(cs[n]);
        contacted := contacted - {cs[n].id};
        n := n + 1;
      }
      assert cs[..n] == cs;
    }

    // The list part of the loop in Remove
    method RemoveContact(c: Contact)
      requires Valid()
      modifies this`list
      ensures Valid()
      ensures list == RemoveOne(Away(target), old(list), c)
    {
      hide Ascending;
      var i := Search(c);
      RemoveOneKeepsOrder(Away(target), list, c);
      if i < |list| && list[i] == c {
        list := list[..i] + list[i + 1..];
      }
    }

    method SetContacted(c: Contact)
      modifies this`contacted
      ensures contacted == old(contacted) + {c.id}
    {
      contacted := contacted + {c.id};
    }

    method SetAsHavingPeers(c: Contact)
      modifies this`hasPeers
      ensures hasPeers == old(hasPeers) + {c.id}
    {
      hasPeers := hasPeers + {c.id};
    }

    method AllContacted() returns (all: bool)
      ensures all <==> forall c :: c in list ==> c.id in contacted
    {
      for n := 0 to |list|
        invariant forall i :: 0 <= i < n ==> list[i].id in contacted
      {
        if list[n].id !in contacted {
          return false;
        }
      }
      return true;
    }

    /** The `limit` nearest entries not yet contacted. */
    method PickNotContacted(limit: nat) returns (toContact: seq<Contact>)
      ensures toContact == Take(limit, Unmarked(list, contacted))
    {
      toContact := [];
      for n := 0 to |list|
        invariant toContact == Unmarked(list[..n], contacted)
        invariant |toContact| <= limit
      {
        assert list == list[..n] + list[n..];
        UnmarkedSplit(list[..n], list[n..], contacted);
        if |toContact| >= limit {
          return;
        }
        UnmarkedAt(list, contacted, n);
        if list[n].id !in contacted {
          toContact := toContact + [list[n]];
        }
      }
      assert list[..|list|] == list;
    }

    /** The nearest entry that did not have the peers, if any. */
    method PickClosestWithoutValue() returns (found: bool, c: Contact)
      ensures found <==> Unmarked(list, hasPeers) != []
      ensures found ==> c == Unmarked(list, hasPeers)[0]
    {
      for n := 0 to |list|
        invariant Unmarked(list[..n], hasPeers) == []
      {
        UnmarkedAt(list, hasPeers, n);
        if list[n].id !in hasPeers {
          return true, list[n];
        }
      }
      assert list[..|list|] == list;
      return false, Contact(target, "");
    }
  }
}
