/** The routing table as the mutable object of dht/routing_table.go, proved
    against the value-level updates of `BucketTables`. A panic of the source is
    a `false` result that leaves the object as it was. */
module RoutingTables {
  import opened Keys
  import opened Ranking
  import opened Contacts
  import opened PeerRecords
  import opened BucketTables

  /** The recency list and the ID map hold the same contacts. */
  ghost predicate Indexed(l: seq<Contact>, m: map<Key, Contact>) {
    && (forall c :: c in l ==> c.id in m && m[c.id] == c)
    && (forall id :: id in m ==> m[id].id == id && m[id] in l)
  }

  lemma IndexedKnown(l: seq<Contact>, m: map<Key, Contact>, id: Key)
    requires Indexed(l, m)
    ensures id in m <==> Known(l, id)
  {
    KnownMeaning(l, id);
    if id in m {
      assert m[id] in l && m[id].id == id;
    }
  }

  /** The outcome of a ping; a nil RPC must not be used. */
  function Alive(rpc: Option<Contact -> bool>): Contact -> bool {
    match rpc
    case Some(ping) => ping
    case None => (_ => true)
  }

  lemma OkDistinct(k: nat, b: BucketView)
    requires BucketOk(k, b)
    ensures DistinctIds(b.contacts) && |b.contacts| <= k
    ensures forall c :: c in b.contacts ==> Covers(b, Pos(c.id))
  {
  }

  /** With room left an update appends, and needs no ping. */
  lemma RoomAppends(k: nat, b: BucketView, self: nat, c: Contact, alive: Contact -> bool)
    requires k >= 1 && !Known(b.contacts, c.id) && |b.contacts| < k
    ensures Updated(k, b, self, c, alive) == b.contacts + [c]
    ensures !WantsSplit(k, b, self, c) && !Pings(k, b, self, c)
  {
  }

  class Bucket {
    const k: nat
    const low: Key
    const high: Key
    var contacts: seq<Contact>
    var elements: map<Key, Contact>
    var lastUpdated: int

    ghost function View(): BucketView
      reads this
    {
      BucketView(Pos(low), Pos(high), contacts)
    }

    ghost predicate Valid()
      reads this
    {
      k >= 1 && BucketOk(k, View()) && Indexed(contacts, elements)
    }

    constructor (k: nat, low: Key, high: Key, now: int)
      requires k >= 1 && Pos(low) <= Pos(high)
      ensures Valid() && View() == BucketView(Pos(low), Pos(high), [])
      ensures this.k == k && this.low == low && this.high == high && lastUpdated == now
    {
      this.k, this.low, this.high, lastUpdated := k, low, high, now;
      contacts, elements := [], map[];
    }

    predicate InRange(id: Key)
      reads this
    {
      Value(id) >= Value(low) && Value(id) <= Value(high)
    }

    method UpdateContact(c: Contact, self: Key, rpc: Option<Contact -> bool>, now: int) returns (split: bool)
      requires Valid() && Covers(View(), Pos(c.id))
      requires rpc.None? ==> !Pings(k, View(), Pos(self), c)
      modifies this
      ensures Valid()
      ensures split <==> WantsSplit(k, old(View()), Pos(self), c)
      ensures contacts == Updated(k, old(View()), Pos(self), c, Alive(rpc))
      ensures lastUpdated == now
    {
      hide Value, BucketOk, Indexed, DistinctIds;
      lastUpdated := now;
      ghost var before := View();
      OkDistinct(k, before);
      IndexedKnown(contacts, elements, c.id);
      if !WantsSplit(k, before, Pos(self), c) {
        UpdatedFacts(k, before, Pos(self), c, Alive(rpc));
      }
      if c.id in elements {
        var i := KnownAt(contacts, c.id);
        ReplaceIndexed(before.contacts, elements, i, c);
        contacts := contacts[..i] + contacts[i + 1..] + [c];
        elements := elements[c.id := c];
        return false;
      }
      if |contacts| < k {
        AppendIndexed(contacts, elements, c);
        contacts := contacts + [c];
        elements := elements[c.id := c];
        return false;
      }
      if InRange(self) {
        return true;
      }
      var front := contacts[0];
      if !rpc.value(front) {
        EvictIndexed(before.contacts, elements, c);
        contacts := contacts[1..] + [c];
        elements := (elements - {front.id})[c.id := c];
        return false;
      }
      RotateIndexed(contacts, elements);
      contacts := contacts[1..] + [front];
      return false;
    }

    method Split(self: Key, now: int) returns (x: Bucket, y: Bucket)
      requires Valid() && Pos(low) < Pos(high)
      ensures fresh(x) && fresh(y) && x != y
      ensures x.Valid() && y.Valid() && x.k == k && y.k == k
      ensures Splits(View(), x.View(), y.View())
      ensures x.lastUpdated == now && y.lastUpdated == now
    {
      var mid := (Value(low) + Value(high)) / 2;
      FromBigIntInverts(high);
      var midX, midY := FromBigInt(mid), FromBigInt(mid + 1);
      hide FromBigInt, KeySpace, BucketOk, Indexed, DistinctIds, Dealt;
      x := new Bucket(k, low, midX, now);
      y := new Bucket(k, midY, high, now);
      Deal(x, y, self, mid, now);
      DealtAll(contacts, mid, x.contacts, y.contacts);
      OkDistinct(k, x.View());
      OkDistinct(k, y.View());
    }

    // The loop of Split, over the ID map in any order
    method Deal(x: Bucket, y: Bucket, self: Key, mid: nat, now: int)
      requires Valid() && x.Valid() && y.Valid() && x != this && y != this && x != y
      requires x.k == k && y.k == k && x.contacts == [] && y.contacts == []
      requires x.lastUpdated == now && y.lastUpdated == now
      requires Pos(x.low) == Pos(low) && Pos(x.high) == mid && Pos(y.low) == mid + 1 && Pos(y.high) == Pos(high)
      modifies x, y
      ensures x.Valid() && y.Valid()
      ensures Dealt(contacts, {}, mid, x.contacts, y.contacts)
      ensures x.lastUpdated == now && y.lastUpdated == now
    {
      hide Pos, BucketOk, Indexed, DistinctIds, Known, Dealt, Updated, Pings, WantsSplit;
      var rest := elements.Keys;
      OkDistinct(k, View());
      MapSize(contacts, elements);
      DealtStart(contacts, elements, mid);
      while rest != {}
        invariant rest <= elements.Keys && x.Valid() && y.Valid()
        invariant |x.contacts| + |y.contacts| + |rest| == |elements| <= k
        invariant x.lastUpdated == now && y.lastUpdated == now
        invariant Dealt(contacts, rest, mid, x.contacts, y.contacts)
        decreases |rest|
      {
        var id :| id in rest;
        var c := elements[id];
        assert rest - {id} + {id} == rest;
        rest := rest - {id};
        assert c.id == id && Covers(View(), Pos(id)) by {
          IndexedHas(contacts, elements, id);
        }
        DealtStep(contacts, elements, rest, id, mid, x.contacts, y.contacts);
        assert Pos(c.id) == Value(c.id) by {
          PosIsValue(c.id);
        }
        if Value(c.id) <= mid {
          RoomAppends(k, x.View(), Pos(self), c, Alive(None));
          var _ := x.UpdateContact(c, self, None, now);
        } else {
          RoomAppends(k, y.View(), Pos(self), c, Alive(None));
          var _ := y.UpdateContact(c, self, None, now);
        }
      }
    }
  }

  lemma PosIsValue(id: Key)
    ensures Pos(id) == Value(id)
  {
  }

  /** Of the contacts of `l`, those not in `rest` are dealt to the lower and the
      upper list by their position. */
  ghost predicate Dealt(l: seq<Contact>, rest: set<Key>, mid: nat, lower: seq<Contact>, upper: seq<Contact>) {
    && (forall c :: c in lower <==> c in l && c.id !in rest && Pos(c.id) <= mid)
    && (forall c :: c in upper <==> c in l && c.id !in rest && Pos(c.id) > mid)
  }

  lemma DealtStart(l: seq<Contact>, m: map<Key, Contact>, mid: nat)
    requires Indexed(l, m)
    ensures Dealt(l, m.Keys, mid, [], [])
  {
  }

  lemma DealtAll(l: seq<Contact>, mid: nat, lower: seq<Contact>, upper: seq<Contact>)
    requires Dealt(l, {}, mid, lower, upper)
    ensures forall c :: c in lower <==> c in l && Pos(c.id) <= mid
    ensures forall c :: c in upper <==> c in l && Pos(c.id) > mid
  {
  }

  lemma IndexedHas(l: seq<Contact>, m: map<Key, Contact>, id: Key)
    requires Indexed(l, m) && id in m
    ensures m[id] in l && m[id].id == id
  {
  }

  lemma DealtStep(l: seq<Contact>, m: map<Key, Contact>, rest: set<Key>, id: Key, mid: nat,
                  lower: seq<Contact>, upper: seq<Contact>)
    requires Indexed(l, m) && id in m && id !in rest && Dealt(l, rest + {id}, mid, lower, upper)
    ensures !Known(lower, id) && !Known(upper, id)
    ensures Pos(id) <= mid ==> Dealt(l, rest, mid, lower + [m[id]], upper)
    ensures Pos(id) > mid ==> Dealt(l, rest, mid, lower, upper + [m[id]])
  {
    KnownMeaning(lower, id);
    KnownMeaning(upper, id);
    hide Pos, Known;
  }

  lemma MapSize(l: seq<Contact>, m: map<Key, Contact>)
    requires Indexed(l, m) && DistinctIds(l)
    ensures |m| == |l|
    decreases |l|
  {
    if l == [] {
      assert m.Keys == {};
    } else {
      var front, c := l[..|l| - 1], l[|l| - 1];
      assert l == front + [c];
      assert m.Keys == (m - {c.id}).Keys + {c.id};
      MapSize(front, m - {c.id});
    }
  }

  lemma ReplaceIndexed(l: seq<Contact>, m: map<Key, Contact>, i: nat, c: Contact)
    requires Indexed(l, m) && DistinctIds(l) && i < |l| && l[i].id == c.id
    ensures Indexed(l[..i] + l[i + 1..] + [c], m[c.id := c])
  {
    CutDistinct(l, i);
    CutKeeps(l, i);
    var r, n := l[..i] + l[i + 1..], m[c.id := c];
    forall id | id in n
      ensures n[id].id == id && n[id] in r + [c]
    {
      assert id != c.id ==> n[id] in r;
    }
  }

  lemma CutKeeps(l: seq<Contact>, i: nat)
    requires i < |l|
    ensures forall x :: x in l && x != l[i] ==> x in l[..i] + l[i + 1..]
  {
    assert l == l[..i] + [l[i]] + l[i + 1..];
  }

  lemma AppendIndexed(l: seq<Contact>, m: map<Key, Contact>, c: Contact)
    requires Indexed(l, m) && c.id !in m
    ensures Indexed(l + [c], m[c.id := c])
  {
  }

  lemma EvictIndexed(l: seq<Contact>, m: map<Key, Contact>, c: Contact)
    requires Indexed(l, m) && DistinctIds(l) && l != [] && c.id !in m
    ensures Indexed(l[1..] + [c], (m - {l[0].id})[c.id := c])
  {
    DropIndexed(l, m);
    AppendIndexed(l[1..], m - {l[0].id}, c);
  }

  lemma DropIndexed(l: seq<Contact>, m: map<Key, Contact>)
    requires Indexed(l, m) && DistinctIds(l) && l != []
    ensures Indexed(l[1..], m - {l[0].id})
  {
    assert l == [l[0]] + l[1..];
    assert forall c :: c in l[1..] ==> c in l && c.id != l[0].id;
  }

  lemma RotateIndexed(l: seq<Contact>, m: map<Key, Contact>)
    requires Indexed(l, m) && l != []
    ensures Indexed(l[1..] + [l[0]], m)
  {
    assert l == [l[0]] + l[1..];
    assert forall c :: c in l[1..] + [l[0]] <==> c in l;
  }

  // ----- the table

  ghost function Views(bs: seq<Bucket>): (vs: seq<BucketView>)
    reads bs
    ensures |vs| == |bs|
    ensures forall i :: 0 <= i < |bs| ==> vs[i] == bs[i].View()
  {
    if bs == [] then [] else Views(bs[..|bs| - 1]) + [bs[|bs| - 1].View()]
  }

  /** The last position the initial bucket covers: its high key holds `k` bytes
      of 255 before zeros. */
  function Top(k: nat): nat
    requires k <= KEY_LEN
  {
    Pow256Mono(KEY_LEN - k, KEY_LEN);
    KeySpace() - Pow256(KEY_LEN - k)
  }

  lemma {:induction false} Pow256Mono(m: nat, n: nat)
    requires m <= n
    ensures Pow256(m) <= Pow256(n)
  {
    if m < n {
      Pow256Mono(m, n - 1);
    }
  }

  lemma {:induction false} Pow256Add(m: nat, n: nat)
    ensures Pow256(m + n) == Pow256(m) * Pow256(n)
  {
    if m > 0 {
      Pow256Add(m - 1, n);
      Mul256(Pow256(m - 1), Pow256(n));
    }
  }

  lemma Mul256(a: nat, b: nat)
    ensures 256 * (a * b) == (256 * a) * b
  {
  }

  lemma {:induction false} ValueOfOnes(k: nat)
    ensures Value(seq(k, _ => 255)) == Pow256(k) - 1
  {
    if k > 0 {
      var s: seq<Byte> := seq(k, _ => 255);
      assert s[..k - 1] == seq(k - 1, _ => 255);
      ValueOfOnes(k - 1);
    }
  }

  lemma {:induction false} ValueOfShifted(s: seq<Byte>, n: nat)
    ensures Value(s + seq(n, _ => 0)) == Value(s) * Pow256(n)
  {
    var r := s + seq(n, _ => 0);
    if n == 0 {
      assert r == s;
    } else {
      assert r[..|r| - 1] == s + seq(n - 1, _ => 0);
      ValueOfShifted(s, n - 1);
      MulAssoc(256, Value(s), Pow256(n - 1));
    }
  }

  /** What the high key of the initial bucket is worth: the whole key space only
      for a bucket size of 32. */
  lemma HighKeyValue(k: nat, high: Key)
    requires k <= KEY_LEN && high == seq(k, _ => 255) + seq(KEY_LEN - k, _ => 0)
    ensures Value(high) == Top(k)
    ensures Top(k) == KeySpace() - 1 <==> k == KEY_LEN
  {
    hide Pow256, Value;
    OnesAndZeros(k, KEY_LEN, high);
    AboveOne(KEY_LEN - k);
  }

  lemma OnesAndZeros(k: nat, n: nat, s: seq<Byte>)
    requires k <= n && s == seq(k, _ => 255) + seq(n - k, _ => 0)
    ensures Value(s) == Pow256(n) - Pow256(n - k)
  {
    hide Pow256, Value;
    ValueOfOnes(k);
    ValueOfShifted(seq(k, _ => 255), n - k);
    Pow256Add(k, n - k);
    MulMinusOne(Pow256(k), Pow256(n - k));
  }

  lemma AboveOne(n: nat)
    ensures Pow256(n) == 1 <==> n == 0
  {
  }

  lemma MulMinusOne(a: nat, b: nat)
    ensures (a - 1) * b == a * b - b
  {
  }

  lemma KeyBound(id: Key)
    ensures Value(id) < Pow2(256)
  {
    KeySpaceIsTwoTo256();
    FromBigIntInverts(id);
  }

  lemma InitialOk(k: nat, self: nat, high: nat)
    requires k >= 1 && high < Pow2(256)
    ensures TableOk(k, self, high, [BucketView(0, high, [])])
  {
    hide Pow2;
    var bs := [BucketView(0, high, [])];
    assert 257 - |bs| == 256;
  }

  lemma ViewsOne(b: Bucket)
    ensures Views([b]) == [b.View()]
  {
    assert [b][..0] == [];
  }

  lemma ViewsSplit(bs: seq<Bucket>, i: nat, x: Bucket, y: Bucket)
    requires i < |bs|
    ensures Views(bs[..i] + [x, y] + bs[i + 1..]) == SplitAt(Views(bs), i, x.View(), y.View())
  {
    hide Views;
    var r, vs := bs[..i] + [x, y] + bs[i + 1..], Views(bs);
    var s := SplitAt(vs, i, x.View(), y.View());
    assert |Views(r)| == |s|;
    forall j | 0 <= j < |s|
      ensures Views(r)[j] == s[j]
    {
      assert r[j] == if j < i then bs[j] else if j == i then x else if j == i + 1 then y else bs[j - 1];
    }
  }

  /** Two new buckets for one leave no bucket twice. */
  lemma ApartSplit(bs: seq<Bucket>, i: nat, x: Bucket, y: Bucket)
    requires i < |bs| && x != y && x !in bs && y !in bs && Apart(bs)
    ensures Apart(bs[..i] + [x, y] + bs[i + 1..])
    ensures forall b :: b in bs[..i] + [x, y] + bs[i + 1..] ==> b in bs || b == x || b == y
  {
    var r := bs[..i] + [x, y] + bs[i + 1..];
    forall m, n | 0 <= m < n < |r|
      ensures r[m] != r[n]
    {
      assert r[m] == if m < i then bs[m] else if m == i then x else if m == i + 1 then y else bs[m - 1];
      assert r[n] == if n < i then bs[n] else if n == i then x else if n == i + 1 then y else bs[n - 1];
    }
  }

  predicate Apart(bs: seq<Bucket>) {
    forall i, j :: 0 <= i < j < |bs| ==> bs[i] != bs[j]
  }

  lemma SplitUnchanged(k: nat, b: BucketView, self: nat, c: Contact, alive: Contact -> bool)
    requires k >= 1 && WantsSplit(k, b, self, c)
    ensures Updated(k, b, self, c, alive) == b.contacts
  {
  }

  class RoutingTable {
    const k: nat
    const self: Contact
    ghost const top: nat
    var buckets: seq<Bucket>

    ghost predicate Valid()
      reads this, buckets
    {
      && Apart(buckets)
      && (forall i :: 0 <= i < |buckets| ==> buckets[i].Valid() && buckets[i].k == k)
      && TableOk(k, Pos(self.id), top, Views(buckets))
    }

    constructor (self: Contact, k: nat, high: Key, now: int)
      requires k >= 1
      ensures this.self == self && this.k == k && top == Value(high)
      ensures Valid() && fresh(buckets)
      ensures Views(buckets) == [BucketView(0, Value(high), [])]
    {
      hide Value, Pow2, Pow256, KeySpace;
      ValueZero(KEY_LEN);
      var b := new Bucket(k, seq(KEY_LEN, _ => 0), high, now);
      this.self, this.k, this.top, this.buckets := self, k, Value(high), [b];
      new;
      hide TableOk, BucketOk, Indexed, Views;
      ViewsOne(b);
      KeyBound(high);
      InitialOk(k, Pos(self.id), Value(high));
    }

    /** A bucket that covers `id` was last updated at time `now`; refreshing goes by
        these times. */
    ghost predicate Touched(id: Key, now: int)
      reads this, buckets
    {
      exists b :: b in buckets && Covers(b.View(), Pos(id)) && b.lastUpdated == now
    }

    /** The bucket covering `id`; the source panics when there is none. */
    method BucketIndex(id: Key) returns (i: nat)
      requires Valid()
      ensures i == IndexOf(Views(buckets), Pos(id))
    {
      for n := 0 to |buckets|
        invariant forall j :: 0 <= j < n ==> !Covers(Views(buckets)[j], Pos(id))
      {
        if buckets[n].InRange(id) {
          IndexOfAt(Views(buckets), Pos(id), n);
          return n;
        }
      }
      IndexOfAt(Views(buckets), Pos(id), |buckets|);
      return |buckets|;
    }

    /** The contact goes to its bucket, which splits and is asked again while it
        is full and covers the node; `now` is the time of the call. Fails where
        the source panics: exactly when no bucket covers the ID. */
    method UpdateContact(c: Contact, ping: Contact -> bool, now: int) returns (ok: bool)
      requires Valid()
      modifies this`buckets, buckets
      ensures Valid()
      ensures forall b :: b in buckets ==> b in old(buckets) || fresh(b)
      ensures ok <==> Pos(c.id) <= top
      ensures ok ==> Updates(k, Pos(self.id), old(Views(buckets)), c, ping, Views(buckets))
      ensures ok ==> Touched(c.id, now)
      ensures forall b :: b in old(buckets) && b in buckets && !Covers(b.View(), Pos(c.id)) ==>
                b.lastUpdated == old(b.lastUpdated)
      ensures !ok ==> buckets == old(buckets) && Views(buckets) == old(Views(buckets))
      decreases 257 - |buckets|, 1
    {
      hide Pos, Value, Updates, TableOk, BucketOk, WantsSplit, Updated, Pings, Splits, Indexed, Views, IndexOf;
      ghost var before := Views(buckets);
      var i := BucketIndex(c.id);
      IndexInTable(k, Pos(self.id), top, before, Pos(c.id));
      if i == |buckets| {
        return false;
      }
      var b := buckets[i];
      var split := b.UpdateContact(c, self.id, Some(ping), now);
      if !split {
        ghost var after := before[i := before[i].(contacts := b.contacts)];
        assert Views(buckets) == after;
        UpdatesInPlace(k, Pos(self.id), before, c, ping);
        UpdatesKeep(k, Pos(self.id), top, before, c, ping, after);
        return true;
      }
      SplitUnchanged(k, before[i], Pos(self.id), c, ping);
      assert Views(buckets) == before;
      ok := SplitAndRetry(i, c, ping, now);
    }

    // The rest of updateContact, for the full bucket `i`
    method SplitAndRetry(i: nat, c: Contact, ping: Contact -> bool, now: int) returns (ok: bool)
      requires Valid() && Pos(c.id) <= top
      requires i == IndexOf(Views(buckets), Pos(c.id)) < |buckets|
      requires WantsSplit(k, Views(buckets)[i], Pos(self.id), c)
      modifies this`buckets, buckets
      ensures Valid()
      ensures forall b :: b in buckets ==> b in old(buckets) || fresh(b)
      ensures ok && Touched(c.id, now)
      ensures forall b :: b in old(buckets) && b in buckets && !Covers(b.View(), Pos(c.id)) ==>
                b.lastUpdated == old(b.lastUpdated)
      ensures Updates(k, Pos(self.id), old(Views(buckets)), c, ping, Views(buckets))
      decreases 257 - |buckets|, 0
    {
      hide Pos, Value, Updates, TableOk, BucketOk, WantsSplit, Splits, Indexed, Views, IndexOf, SplitAt;
      ghost var before := Views(buckets);
      var b := buckets[i];
      assert |before| <= 256 && before[i].low < before[i].high by {
        SplitTableOk(k, Pos(self.id), top, before, c, before[i], before[i]);
      }
      var x, y := b.Split(self.id, now);
      ghost var vx, vy := x.View(), y.View();
      SplitTableOk(k, Pos(self.id), top, before, c, vx, vy);
      ViewsSplit(buckets, i, x, y);
      ApartSplit(buckets, i, x, y);
      buckets := buckets[..i] + [x, y] + buckets[i + 1..];
      ok := UpdateContact(c, ping, now);
      UpdatesSplit(k, Pos(self.id), before, c, ping, vx, vy, Views(buckets));
    }

    // The inner loop of FindClosestNodes, over the ID map in any order
    method CollectBucket(before: seq<Contact>, n: nat, exclude: Key, ghost vs: seq<BucketView>)
      returns (cs: seq<Contact>)
      requires Valid() && vs == Views(buckets) && n < |vs|
      requires Collected(before, AllContacts(vs[..n]), exclude)
      ensures Collected(cs, AllContacts(vs[..n]) + Part(vs[n].contacts, {}), exclude)
    {
      hide TableOk, BucketOk, Indexed, Views, Collected, AllContacts, Part;
      cs := before;
      var rest := buckets[n].elements.Keys;
      NoneOf(buckets[n].contacts, buckets[n].elements);
      assert AllContacts(vs[..n]) + Part(vs[n].contacts, rest) == AllContacts(vs[..n]);
      while rest != {}
        invariant rest <= buckets[n].elements.Keys
        invariant Collected(cs, AllContacts(vs[..n]) + Part(vs[n].contacts, rest), exclude)
        decreases |rest|
      {
        var id :| id in rest;
        var c := buckets[n].elements[id];
        IndexedHas(buckets[n].contacts, buckets[n].elements, id);
        CollectedStep(k, Pos(self.id), top, cs, vs, n, rest, c, exclude);
        rest := rest - {id};
        if c.id != exclude {
          cs := cs + [c];
        }
      }
    }

    /** The nearest contacts of the whole table to `key`, without the excluded
        ID, whatever order the maps are walked in and whatever sort is used. */
    method FindClosestNodes(key: Key, exclude: Key, sort: seq<Contact> -> seq<Contact>) returns (cs: seq<Contact>)
      requires Valid()
      requires forall l :: Sorts(Away(key), l, sort(l))
      ensures var others := Others(AllContacts(Views(buckets)), exclude);
              Distinct(Away(key), others) && cs == Lowest(Away(key), k, others)
    {
      hide TableOk, BucketOk, Indexed, Views, Away, Distinct, Collected, AllContacts;
      cs := [];
      ghost var vs := Views(buckets);
      CollectedNone(vs, exclude);
      for n := 0 to |buckets|
        invariant Collected(cs, AllContacts(vs[..n]), exclude)
      {
        cs := CollectBucket(cs, n, exclude, vs);
        AllOf(vs, n);
      }
      assert vs[..|buckets|] == vs;
      CollectedAll(k, Pos(self.id), top, cs, vs, key, exclude);
      var sorted := sort(cs);
      SortedIsOrdering(Away(key), cs, sorted);
      cs := Take(k, sorted);
    }
  }

  lemma UpdatesInPlace(k: nat, self: nat, bs: seq<BucketView>, c: Contact, alive: Contact -> bool)
    requires k >= 1 && IndexOf(bs, Pos(c.id)) < |bs|
    requires !WantsSplit(k, bs[IndexOf(bs, Pos(c.id))], self, c)
    ensures var i := IndexOf(bs, Pos(c.id));
            Updates(k, self, bs, c, alive, bs[i := bs[i].(contacts := Updated(k, bs[i], self, c, alive))])
  {
  }

  lemma UpdatesSplit(k: nat, self: nat, bs: seq<BucketView>, c: Contact, alive: Contact -> bool,
                     x: BucketView, y: BucketView, after: seq<BucketView>)
    requires k >= 1 && IndexOf(bs, Pos(c.id)) < |bs| <= 256
    requires WantsSplit(k, bs[IndexOf(bs, Pos(c.id))], self, c) && Splits(bs[IndexOf(bs, Pos(c.id))], x, y)
    requires Updates(k, self, SplitAt(bs, IndexOf(bs, Pos(c.id)), x, y), c, alive, after)
    ensures Updates(k, self, bs, c, alive, after)
  {
    hide Pos, WantsSplit, Splits;
  }

  /** What a sort promises: the same elements, ascending. */
  ghost predicate Sorts<T>(f: T -> nat, l: seq<T>, m: seq<T>) {
    multiset(l) == multiset(m) && Ascending(f, m)
  }

  /** `cs` lists every contact of `s` but the excluded one, once. */
  ghost predicate Collected(cs: seq<Contact>, s: set<Contact>, exclude: Key) {
    DistinctIds(cs) && forall c :: c in cs <==> c in s && c.id != exclude
  }

  /** The contacts of a bucket whose map entry was visited. */
  ghost function Part(l: seq<Contact>, rest: set<Key>): set<Contact> {
    set c | c in l && c.id !in rest
  }

  lemma NoneOf(l: seq<Contact>, m: map<Key, Contact>)
    requires Indexed(l, m)
    ensures Part(l, m.Keys) == {}
  {
  }

  lemma CollectedNone(vs: seq<BucketView>, exclude: Key)
    ensures Collected([], AllContacts(vs[..0]), exclude)
  {
  }

  lemma AllOf(vs: seq<BucketView>, n: nat)
    requires n < |vs|
    ensures AllContacts(vs[..n]) + Part(vs[n].contacts, {}) == AllContacts(vs[..n + 1])
  {
    var more := vs[..n + 1];
    forall c | c in AllContacts(more)
      ensures c in AllContacts(vs[..n]) + Part(vs[n].contacts, {})
    {
      var i :| 0 <= i < |more| && c in more[i].contacts;
      assert i < n ==> vs[..n][i] == more[i];
    }
    forall c | c in AllContacts(vs[..n])
      ensures c in AllContacts(more)
    {
      var i :| 0 <= i < n && c in vs[..n][i].contacts;
      assert more[i] == vs[i];
    }
    forall c | c in Part(vs[n].contacts, {})
      ensures c in AllContacts(more)
    {
      assert c in more[n].contacts;
    }
  }

  lemma CollectedStep(k: nat, self: nat, top: nat, cs: seq<Contact>, vs: seq<BucketView>, n: nat, rest: set<Key>,
                      c: Contact, exclude: Key)
    requires TableOk(k, self, top, vs) && n < |vs| && c in vs[n].contacts && c.id in rest
    requires Collected(cs, AllContacts(vs[..n]) + Part(vs[n].contacts, rest), exclude)
    ensures var s := AllContacts(vs[..n]) + Part(vs[n].contacts, rest - {c.id});
            if c.id != exclude then Collected(cs + [c], s, exclude) else Collected(cs, s, exclude)
  {
    var before, after := AllContacts(vs[..n]) + Part(vs[n].contacts, rest),
                         AllContacts(vs[..n]) + Part(vs[n].contacts, rest - {c.id});
    TableOneAddress(k, self, top, vs);
    EarlierElsewhere(k, self, top, vs, n, c);
    PrefixContacts(vs, n);
    assert before <= AllContacts(vs) && c in AllContacts(vs);
    hide AllContacts, TableOk, Collected;
    assert after == before + {c} by {
      assert forall d :: d in vs[n].contacts ==> d in AllContacts(vs);
    }
    assert forall d :: d in before ==> d.id != c.id;
    hide Part;
    CollectedOne(cs, before, c, exclude);
  }

  lemma CollectedOne(cs: seq<Contact>, s: set<Contact>, c: Contact, exclude: Key)
    requires Collected(cs, s, exclude) && forall d :: d in s ==> d.id != c.id
    ensures if c.id != exclude then Collected(cs + [c], s + {c}, exclude) else Collected(cs, s + {c}, exclude)
  {
  }

  lemma PrefixContacts(vs: seq<BucketView>, n: nat)
    requires n < |vs|
    ensures AllContacts(vs[..n]) <= AllContacts(vs)
    ensures forall d :: d in vs[n].contacts ==> d in AllContacts(vs)
  {
  }

  lemma EarlierElsewhere(k: nat, self: nat, top: nat, vs: seq<BucketView>, n: nat, c: Contact)
    requires TableOk(k, self, top, vs) && n < |vs| && c in vs[n].contacts
    ensures c !in AllContacts(vs[..n])
  {
    if c in AllContacts(vs[..n]) {
      var i :| 0 <= i < n && c in vs[..n][i].contacts;
      assert Covers(vs[i], Pos(c.id)) && Covers(vs[n], Pos(c.id)) by {
        assert BucketOk(k, vs[i]) && BucketOk(k, vs[n]);
      }
      TilesFind(vs, 0, top, Pos(c.id));
    }
  }

  lemma CollectedAll(k: nat, self: nat, top: nat, cs: seq<Contact>, vs: seq<BucketView>, key: Key, exclude: Key)
    requires TableOk(k, self, top, vs) && Collected(cs, AllContacts(vs), exclude)
    ensures Elems(cs) == Others(AllContacts(vs), exclude) && DistinctIds(cs)
    ensures Distinct(Away(key), Elems(cs))
  {
    TableOneAddress(k, self, top, vs);
    OneAddressDistinct(key, Elems(cs));
  }

  /** Sorting a duplicate-free list gives the one ordering of its members. */
  lemma SortedIsOrdering(f: Contact -> nat, l: seq<Contact>, m: seq<Contact>)
    requires Sorts(f, l, m) && DistinctIds(l) && Distinct(f, Elems(l))
    ensures m == Ordering(f, Elems(l))
  {
    assert Elems(m) == Elems(l) by {
      assert forall c :: c in m <==> c in multiset(m);
      assert forall c :: c in l <==> c in multiset(l);
    }
    DistinctSize(l);
    assert |m| == |multiset(m)| == |multiset(l)| == |l|;
    FullIsStrict(f, m);
    StrictUnique(f, m, Ordering(f, Elems(l)));
  }

  lemma FullIsStrict(f: Contact -> nat, m: seq<Contact>)
    requires Ascending(f, m) && |Elems(m)| == |m| && Distinct(f, Elems(m))
    ensures Strict(f, m)
  {
    forall i, j | 0 <= i < j < |m|
      ensures f(m[i]) < f(m[j])
    {
      NoRepeats(m, i, j);
      assert m[i] in Elems(m) && m[j] in Elems(m);
    }
  }

  lemma NoRepeats(m: seq<Contact>, i: nat, j: nat)
    requires |Elems(m)| == |m| && i < j < |m|
    ensures m[i] != m[j]
  {
    var rest := m[..j] + m[j + 1..];
    ElemsSize(rest);
    if m[i] == m[j] {
      forall c | c in Elems(m)
        ensures c in Elems(rest)
      {
        var n :| 0 <= n < |m| && m[n] == c;
        assert rest[if n == j then i else if n < j then n else n - 1] == c;
      }
      SubsetSize(Elems(m), Elems(rest));
    }
  }

  lemma IndexOfAt(bs: seq<BucketView>, p: nat, i: nat)
    requires i <= |bs| && (i < |bs| ==> Covers(bs[i], p))
    requires forall j :: 0 <= j < i ==> !Covers(bs[j], p)
    ensures IndexOf(bs, p) == i
  {
  }

  lemma IndexInTable(k: nat, self: nat, top: nat, bs: seq<BucketView>, p: nat)
    requires TableOk(k, self, top, bs)
    ensures IndexOf(bs, p) < |bs| <==> p <= top
    ensures IndexOf(bs, p) < |bs| ==> BucketOk(k, bs[IndexOf(bs, p)])
  {
    TilesFind(bs, 0, top, p);
  }

  /** Construction: the source panics for a bucket size below 1 or above 32. */
  method NewRoutingTable(self: Contact, k: int, now: int) returns (rt: RoutingTable?)
    ensures rt != null <==> 1 <= k <= KEY_LEN
    ensures rt != null ==>
              && fresh(rt) && rt.Valid() && rt.k == k && rt.self == self
              && rt.top == Top(k) && Views(rt.buckets) == [BucketView(0, Top(k), [])]
  {
    var high: Key := seq(KEY_LEN, _ => 0);
    var i := 0;
    while i < k
      invariant 0 <= i <= KEY_LEN && (k <= 0 ==> i == 0) && (k > 0 ==> i <= k)
      invariant high == seq(i, _ => 255) + seq(KEY_LEN - i, _ => 0)
    {
      if i >= KEY_LEN {
        return null;
      }
      high := high[i := 255];
      i := i + 1;
    }
    if k <= 0 {
      return null;
    }
    HighKeyValue(k, high);
    rt := new RoutingTable(self, k, high, now);
  }

  /** The initial bucket accepts every key exactly for a bucket size of 32. For
      any smaller one, the all-ones key is out of range, and updating with it
      panics. */
  lemma AcceptsEveryKey(k: nat)
    requires 1 <= k <= KEY_LEN
    ensures (forall id: Key :: Pos(id) <= Top(k)) <==> k == KEY_LEN
    ensures k < KEY_LEN ==> Pos(seq(KEY_LEN, _ => 255)) > Top(k)
  {
    hide Pow256, Value;
    var high: Key := seq(k, _ => 255) + seq(KEY_LEN - k, _ => 0);
    HighKeyValue(k, high);
    ValueOfOnes(KEY_LEN);
    var ones: Key := seq(KEY_LEN, _ => 255);
    assert Pos(ones) == KeySpace() - 1;
    forall id: Key
      ensures Pos(id) <= KeySpace() - 1
    {
      FromBigIntInverts(id);
    }
  }
}
