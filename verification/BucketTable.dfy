/** The routing table as a value: the bucket update, the split, and the
    update-split-retry recursion of dht/routing_table.go as a relation, with
    what every update keeps. */
module BucketTables {
  import opened Keys
  import opened Ranking
  import opened Contacts

  /** Position of a key on the number line the buckets divide. */
  function Pos(id: Key): nat {
    Value(id)
  }

  /** A bucket covers the positions `low` to `high`; its contacts are listed
      least recently seen first. */
  datatype BucketView = BucketView(low: nat, high: nat, contacts: seq<Contact>)

  predicate Covers(b: BucketView, p: nat) {
    b.low <= p <= b.high
  }

  ghost predicate DistinctIds(l: seq<Contact>) {
    forall i, j :: 0 <= i < j < |l| ==> l[i].id != l[j].id
  }

  ghost predicate BucketOk(k: nat, b: BucketView) {
    && b.low <= b.high
    && |b.contacts| <= k
    && DistinctIds(b.contacts)
    && forall c :: c in b.contacts ==> Covers(b, Pos(c.id))
  }

  // ----- one bucket

  function KnownAt(l: seq<Contact>, id: Key): (i: nat)
    ensures i <= |l|
    ensures i < |l| ==> l[i].id == id
    ensures forall j :: 0 <= j < i ==> l[j].id != id
  {
    if l == [] || l[0].id == id then 0 else 1 + KnownAt(l[1..], id)
  }

  predicate Known(l: seq<Contact>, id: Key) {
    KnownAt(l, id) < |l|
  }

  lemma KnownMeaning(l: seq<Contact>, id: Key)
    ensures Known(l, id) <==> exists c :: c in l && c.id == id
  {
    var i := KnownAt(l, id);
    if i < |l| {
      assert l[i] in l;
    }
  }

  /** The bucket is full, holds no entry for `c`, and covers the node itself. */
  predicate WantsSplit(k: nat, b: BucketView, self: nat, c: Contact) {
    !Known(b.contacts, c.id) && |b.contacts| >= k && Covers(b, self)
  }

  /** The bucket is full, holds no entry for `c`, and does not cover the node. */
  predicate Pings(k: nat, b: BucketView, self: nat, c: Contact) {
    !Known(b.contacts, c.id) && |b.contacts| >= k && !Covers(b, self)
  }

  /** The contacts of `b` after an update that does not split. */
  function Updated(k: nat, b: BucketView, self: nat, c: Contact, alive: Contact -> bool): seq<Contact>
    requires k >= 1
  {
    var l := b.contacts;
    var i := KnownAt(l, c.id);
    if i < |l| then l[..i] + l[i + 1..] + [c]
    else if |l| < k then l + [c]
    else if Covers(b, self) then l
    else if !alive(l[0]) then l[1..] + [c]
    else l[1..] + [l[0]]
  }

  lemma CutAppendDistinct(l: seq<Contact>, i: nat, c: Contact)
    requires DistinctIds(l) && i < |l|
    requires forall j :: 0 <= j < |l| && j != i ==> l[j].id != c.id
    ensures DistinctIds(l[..i] + l[i + 1..] + [c])
    ensures Elems(l[..i] + l[i + 1..] + [c]) == Elems(l) - {l[i]} + {c}
  {
    CutDistinct(l, i);
    var rest := l[..i] + l[i + 1..];
    assert l == l[..i] + [l[i]] + l[i + 1..];
    assert forall x :: x in rest ==> x.id != c.id;
    assert forall x :: x in rest <==> x in l && x != l[i];
    assert forall j :: 0 <= j < |rest| ==> rest[j] in rest;
    hide Elems;
    AppendElems(rest, c);
  }

  lemma AppendElems(l: seq<Contact>, c: Contact)
    ensures Elems(l + [c]) == Elems(l) + {c}
  {
  }

  /** An update keeps a bucket in order, and changes its members in one of four
      ways: refresh, insert, replace the front whose ping failed, or nothing. */
  lemma UpdatedFacts(k: nat, b: BucketView, self: nat, c: Contact, alive: Contact -> bool)
    requires k >= 1 && BucketOk(k, b) && Covers(b, Pos(c.id)) && !WantsSplit(k, b, self, c)
    ensures BucketOk(k, b.(contacts := Updated(k, b, self, c, alive)))
    ensures var l, l' := b.contacts, Updated(k, b, self, c, alive);
            if Known(l, c.id) then
              Elems(l') == Elems(l) - {l[KnownAt(l, c.id)]} + {c}
            else if Pings(k, b, self, c) then
              Elems(l') == if alive(l[0]) then Elems(l) else Elems(l) - {l[0]} + {c}
            else
              Elems(l') == Elems(l) + {c}
  {
    UpdatedMembers(k, b, self, c, alive);
    hide Pos, Updated, Covers, DistinctIds;
    CoveredStill(b, Updated(k, b, self, c, alive), c);
  }

  lemma UpdatedMembers(k: nat, b: BucketView, self: nat, c: Contact, alive: Contact -> bool)
    requires k >= 1 && DistinctIds(b.contacts) && |b.contacts| <= k && !WantsSplit(k, b, self, c)
    ensures DistinctIds(Updated(k, b, self, c, alive)) && |Updated(k, b, self, c, alive)| <= k
    ensures var l, l' := b.contacts, Updated(k, b, self, c, alive);
            if Known(l, c.id) then
              Elems(l') == Elems(l) - {l[KnownAt(l, c.id)]} + {c}
            else if Pings(k, b, self, c) then
              Elems(l') == if alive(l[0]) then Elems(l) else Elems(l) - {l[0]} + {c}
            else
              Elems(l') == Elems(l) + {c}
  {
    hide Covers, Elems, DistinctIds;
    var l := b.contacts;
    var i := KnownAt(l, c.id);
    if i < |l| {
      RefreshDistinct(l, c);
    } else if |l| < k {
      AppendDistinct(l, c);
    } else {
      RotateDistinct(l, if alive(l[0]) then l[0] else c);
    }
  }

  lemma RefreshDistinct(l: seq<Contact>, c: Contact)
    requires DistinctIds(l) && Known(l, c.id)
    ensures var i := KnownAt(l, c.id);
            && DistinctIds(l[..i] + l[i + 1..] + [c])
            && Elems(l[..i] + l[i + 1..] + [c]) == Elems(l) - {l[i]} + {c}
  {
    CutAppendDistinct(l, KnownAt(l, c.id), c);
  }

  lemma AppendDistinct(l: seq<Contact>, c: Contact)
    requires DistinctIds(l) && !Known(l, c.id)
    ensures DistinctIds(l + [c]) && Elems(l + [c]) == Elems(l) + {c}
  {
  }

  lemma RotateDistinct(l: seq<Contact>, c: Contact)
    requires DistinctIds(l) && l != [] && (c == l[0] || !Known(l, c.id))
    ensures DistinctIds(l[1..] + [c])
    ensures Elems(l[1..] + [c]) == if c == l[0] then Elems(l) else Elems(l) - {l[0]} + {c}
  {
    CutAppendDistinct(l, 0, c);
    assert l[..0] + l[1..] == l[1..];
    assert Elems(l) - {l[0]} + {l[0]} == Elems(l) by {
      assert l[0] in Elems(l);
    }
  }

  lemma CoveredStill(b: BucketView, l: seq<Contact>, c: Contact)
    requires forall x :: x in b.contacts ==> Covers(b, Pos(x.id))
    requires Covers(b, Pos(c.id)) && Elems(l) <= Elems(b.contacts) + {c}
    ensures forall x :: x in l ==> Covers(b, Pos(x.id))
  {
    hide Pos, Covers;
    forall x | x in l
      ensures Covers(b, Pos(x.id))
    {
      assert x in Elems(l);
    }
  }

  /** Whoever was just heard from comes last, a contact that answered the ping in
      place of the one it was for; all others stay in their order. */
  lemma UpdatedOrder(k: nat, b: BucketView, self: nat, c: Contact, alive: Contact -> bool)
    requires k >= 1 && BucketOk(k, b) && !WantsSplit(k, b, self, c)
    ensures var l, l' := b.contacts, Updated(k, b, self, c, alive);
            && l' != []
            && l'[|l'| - 1] == (if Pings(k, b, self, c) && alive(l[0]) then l[0] else c)
            && forall i, j :: 0 <= i < j < |l'| - 1 ==> KnownAt(l, l'[i].id) < KnownAt(l, l'[j].id) < |l|
  {
    hide Pos;
    var l := b.contacts;
    var l' := Updated(k, b, self, c, alive);
    var out := if Known(l, c.id) || |l| < k then KnownAt(l, c.id) else 0;
    forall i | 0 <= i < |l'| - 1
      ensures KnownAt(l, l'[i].id) == if i < out then i else i + 1
    {
      assert l'[i] == l[if i < out then i else i + 1];
      KnownInPlace(l, if i < out then i else i + 1);
    }
  }

  lemma KnownInPlace(l: seq<Contact>, i: nat)
    requires DistinctIds(l) && i < |l|
    ensures KnownAt(l, l[i].id) == i
  {
  }

  // ----- splitting

  function Mid(b: BucketView): nat {
    (b.low + b.high) / 2
  }

  /** The two halves of `b`; each holds its contacts in any order. */
  ghost predicate Splits(b: BucketView, x: BucketView, y: BucketView) {
    && x.low == b.low && x.high == Mid(b)
    && y.low == Mid(b) + 1 && y.high == b.high
    && DistinctIds(x.contacts) && DistinctIds(y.contacts)
    && (forall c :: c in x.contacts <==> c in b.contacts && Pos(c.id) <= Mid(b))
    && (forall c :: c in y.contacts <==> c in b.contacts && Pos(c.id) > Mid(b))
  }

  lemma {:induction false} DistinctSize(l: seq<Contact>)
    requires DistinctIds(l)
    ensures |Elems(l)| == |l|
  {
    if l != [] {
      var front, c := l[..|l| - 1], l[|l| - 1];
      DistinctSize(front);
      assert Elems(l) == Elems(front) + {c} by {
        assert l == front + [c];
      }
      assert c !in front;
    }
  }

  /** A full bucket that must take one more ID is wider than `k`. */
  lemma FullIsWide(k: nat, b: BucketView, c: Contact)
    requires BucketOk(k, b) && |b.contacts| >= k && !Known(b.contacts, c.id) && Covers(b, Pos(c.id))
    ensures b.high - b.low >= k
  {
    var l := b.contacts + [c];
    KnownMeaning(b.contacts, c.id);
    hide Pos, Known;
    assert DistinctIds(l) by {
      assert forall i :: 0 <= i < |b.contacts| ==> b.contacts[i] in b.contacts;
    }
    PositionsFit(l, b.low, b.high);
  }

  /** Distinct IDs have distinct positions, so no more of them fit in a range
      than it is wide. */
  lemma {:induction false} PositionsFit(l: seq<Contact>, low: nat, high: int)
    requires DistinctIds(l)
    requires forall c :: c in l ==> low <= Pos(c.id) <= high
    ensures |l| <= high - low + 1 || |l| == 0
    decreases high - low + 1
  {
    hide Pos;
    if l != [] {
      assert l[0] in l;
      if i :| 0 <= i < |l| && Pos(l[i].id) == high {
        var rest := l[..i] + l[i + 1..];
        CutDistinct(l, i);
        forall c | c in rest
          ensures low <= Pos(c.id) <= high - 1
        {
          assert c in l && c.id != l[i].id;
          ValueInjectiveOnKeys(c.id, l[i].id);
        }
        PositionsFit(rest, low, high - 1);
      } else {
        PositionsFit(l, low, high - 1);
      }
    }
  }

  lemma CutDistinct(l: seq<Contact>, i: nat)
    requires DistinctIds(l) && i < |l|
    ensures DistinctIds(l[..i] + l[i + 1..])
    ensures forall c :: c in l[..i] + l[i + 1..] ==> c in l && c.id != l[i].id
  {
    var rest := l[..i] + l[i + 1..];
    forall m, n | 0 <= m < n < |rest|
      ensures rest[m].id != rest[n].id
    {
      assert rest[m] == l[if m < i then m else m + 1] && rest[n] == l[if n < i then n else n + 1];
    }
    forall c | c in rest
      ensures c in l && c.id != l[i].id
    {
      var j :| 0 <= j < |rest| && rest[j] == c;
      assert c == l[if j < i then j else j + 1];
    }
  }

  lemma ValueInjectiveOnKeys(a: Key, b: Key)
    ensures Pos(a) == Pos(b) <==> a == b
  {
    if Pos(a) == Pos(b) {
      ValueInjective(a, b);
    }
  }

  lemma SplitsFacts(k: nat, b: BucketView, x: BucketView, y: BucketView)
    requires BucketOk(k, b) && b.low < b.high && Splits(b, x, y)
    ensures BucketOk(k, x) && BucketOk(k, y)
    ensures Elems(x.contacts) + Elems(y.contacts) == Elems(b.contacts)
  {
    hide Pos;
    DistinctSize(b.contacts);
    DistinctSize(x.contacts);
    DistinctSize(y.contacts);
    SubsetSize(Elems(x.contacts), Elems(b.contacts));
    SubsetSize(Elems(y.contacts), Elems(b.contacts));
  }

  // ----- the table

  /** The buckets are ascending, contiguous and disjoint, and cover exactly the
      positions `low` to `high`. */
  ghost predicate Tiles(bs: seq<BucketView>, low: nat, high: nat) {
    && bs != []
    && bs[0].low == low && bs[|bs| - 1].high == high
    && (forall i :: 0 <= i < |bs| ==> bs[i].low <= bs[i].high)
    && forall i, j :: 0 <= i && j == i + 1 < |bs| ==> bs[j].low == bs[i].high + 1
  }

  /** How far splitting can have gone: the bucket of the node halves each time,
      and was wider than `k` the last time. */
  ghost predicate Budget(k: nat, self: nat, bs: seq<BucketView>) {
    && |bs| <= 257
    && (forall i :: 0 <= i < |bs| && Covers(bs[i], self) ==> bs[i].high - bs[i].low < Pow2(257 - |bs|))
    && (|bs| > 1 ==> k < Pow2(258 - |bs|))
  }

  ghost predicate TableOk(k: nat, self: nat, top: nat, bs: seq<BucketView>) {
    && k >= 1
    && Tiles(bs, 0, top)
    && (forall i :: 0 <= i < |bs| ==> BucketOk(k, bs[i]))
    && Budget(k, self, bs)
  }

  /** The first bucket that covers `p`. */
  function IndexOf(bs: seq<BucketView>, p: nat): (i: nat)
    ensures i <= |bs|
    ensures i < |bs| ==> Covers(bs[i], p)
    ensures forall j :: 0 <= j < i ==> !Covers(bs[j], p)
  {
    if bs == [] || Covers(bs[0], p) then 0 else 1 + IndexOf(bs[1..], p)
  }

  lemma {:induction false} TilesAscend(bs: seq<BucketView>, low: nat, high: nat, i: nat, j: nat)
    requires Tiles(bs, low, high) && i < j < |bs|
    ensures bs[i].high < bs[j].low
    decreases j
  {
    if j > i + 1 {
      TilesAscend(bs, low, high, i, j - 1);
      assert bs[j].low == bs[j - 1].high + 1;
    }
  }

  /** Exactly one bucket covers each position of the range, and none a position
      outside it. */
  lemma TilesFind(bs: seq<BucketView>, low: nat, high: nat, p: nat)
    requires Tiles(bs, low, high)
    ensures low <= p <= high <==> IndexOf(bs, p) < |bs|
    ensures forall i, j :: 0 <= i < |bs| && 0 <= j < |bs| && Covers(bs[i], p) && Covers(bs[j], p) ==> i == j
  {
    forall i, j | 0 <= i < |bs| && 0 <= j < |bs| && Covers(bs[i], p) && Covers(bs[j], p)
      ensures i == j
    {
      if i < j {
        TilesAscend(bs, low, high, i, j);
      } else if j < i {
        TilesAscend(bs, low, high, j, i);
      }
    }
    TilesCover(bs, low, high, p);
    var n := IndexOf(bs, p);
    if n < |bs| {
      if n > 0 {
        TilesAscend(bs, low, high, 0, n);
      }
      if n < |bs| - 1 {
        TilesAscend(bs, low, high, n, |bs| - 1);
      }
    }
  }

  lemma {:induction false} TilesCover(bs: seq<BucketView>, low: nat, high: nat, p: nat)
    requires Tiles(bs, low, high)
    ensures low <= p <= high ==> exists i :: 0 <= i < |bs| && Covers(bs[i], p)
    decreases |bs|
  {
    if p <= bs[0].high {
      assert low <= p ==> Covers(bs[0], p);
    } else if p <= high {
      assert bs[1].low == bs[0].high + 1;
      TilesCover(bs[1..], bs[1].low, high, p);
      var i :| 0 <= i < |bs[1..]| && Covers(bs[1..][i], p);
      assert Covers(bs[i + 1], p);
    }
  }

  function SplitAt(bs: seq<BucketView>, i: nat, x: BucketView, y: BucketView): seq<BucketView>
    requires i < |bs|
  {
    bs[..i] + [x, y] + bs[i + 1..]
  }

  lemma SplitTiles(bs: seq<BucketView>, low: nat, high: nat, i: nat, x: BucketView, y: BucketView)
    requires Tiles(bs, low, high) && i < |bs| && bs[i].low < bs[i].high && Splits(bs[i], x, y)
    ensures Tiles(SplitAt(bs, i, x, y), low, high)
  {
    hide Pos;
    var r := SplitAt(bs, i, x, y);
    forall m, n | 0 <= m && n == m + 1 < |r|
      ensures r[n].low == r[m].high + 1
    {
      if m < i - 1 {
        assert r[m] == bs[m] && r[n] == bs[n];
      } else if m > i {
        assert r[m] == (if m == i + 1 then y else bs[m - 1]) && r[n] == bs[n - 1];
      }
    }
  }

  lemma SplitEntry(bs: seq<BucketView>, i: nat, x: BucketView, y: BucketView, j: nat)
    requires i < |bs| && j < |SplitAt(bs, i, x, y)|
    ensures SplitAt(bs, i, x, y)[j] ==
            if j < i then bs[j] else if j == i then x else if j == i + 1 then y else bs[j - 1]
  {
  }

  lemma SplitBudget(k: nat, self: nat, bs: seq<BucketView>, i: nat, x: BucketView, y: BucketView)
    requires k >= 1 && Budget(k, self, bs) && i < |bs|
    requires Covers(bs[i], self) && bs[i].high - bs[i].low >= k && Splits(bs[i], x, y)
    requires forall j :: 0 <= j < |bs| && Covers(bs[j], self) ==> j == i
    ensures Budget(k, self, SplitAt(bs, i, x, y))
    ensures |bs| <= 256
  {
    var r := SplitAt(bs, i, x, y);
    assert Pow2(257 - |bs|) > 1;
    assert |bs| <= 256;
    assert Pow2(257 - |bs|) == 2 * Pow2(256 - |bs|);
    assert r[i] == x && r[i + 1] == y;
    hide SplitAt, Pow2;
    forall j | 0 <= j < |r| && Covers(r[j], self)
      ensures r[j].high - r[j].low < Pow2(257 - |r|)
    {
      SplitEntry(bs, i, x, y, j);
    }
  }

  /** A split a full bucket asks for keeps the table in order, and there is room
      for it: the table never exceeds 257 buckets. */
  lemma SplitTableOk(k: nat, self: nat, top: nat, bs: seq<BucketView>, c: Contact, x: BucketView, y: BucketView)
    requires TableOk(k, self, top, bs) && Pos(c.id) <= top
    ensures IndexOf(bs, Pos(c.id)) < |bs|
    ensures var i := IndexOf(bs, Pos(c.id));
            WantsSplit(k, bs[i], self, c) ==>
              && |bs| <= 256
              && bs[i].low < bs[i].high
              && (Splits(bs[i], x, y) ==> TableOk(k, self, top, SplitAt(bs, i, x, y)))
  {
    hide Pos, Tiles, Splits;
    TilesFind(bs, 0, top, Pos(c.id));
    TilesFind(bs, 0, top, self);
    var i := IndexOf(bs, Pos(c.id));
    if WantsSplit(k, bs[i], self, c) {
      FullIsWide(k, bs[i], c);
      assert bs[i].low < bs[i].high;
      assert |bs| <= 256 by {
        assert Pow2(257 - |bs|) > 1;
      }
      if Splits(bs[i], x, y) {
        SplitTiles(bs, 0, top, i, x, y);
        SplitBudget(k, self, bs, i, x, y);
        SplitsFacts(k, bs[i], x, y);
        SplitBuckets(k, bs, i, x, y);
      }
    }
  }

  lemma SplitBuckets(k: nat, bs: seq<BucketView>, i: nat, x: BucketView, y: BucketView)
    requires i < |bs| && BucketOk(k, x) && BucketOk(k, y)
    requires forall j :: 0 <= j < |bs| ==> BucketOk(k, bs[j])
    ensures forall j :: 0 <= j < |SplitAt(bs, i, x, y)| ==> BucketOk(k, SplitAt(bs, i, x, y)[j])
  {
    hide BucketOk;
    var r := SplitAt(bs, i, x, y);
    forall j | 0 <= j < |r|
      ensures BucketOk(k, r[j])
    {
      SplitEntry(bs, i, x, y, j);
    }
  }

  /** The update-split-retry recursion: `after` is a table it may leave. The
      order of contacts inside freshly split buckets is free. */
  ghost predicate Updates(k: nat, self: nat, bs: seq<BucketView>, c: Contact, alive: Contact -> bool,
                          after: seq<BucketView>)
    requires k >= 1
    decreases if |bs| <= 256 then 257 - |bs| else 0
  {
    var i := IndexOf(bs, Pos(c.id));
    && i < |bs|
    && if !WantsSplit(k, bs[i], self, c) then
         after == bs[i := bs[i].(contacts := Updated(k, bs[i], self, c, alive))]
       else
         |bs| <= 256
         && exists x, y :: Splits(bs[i], x, y) && Updates(k, self, SplitAt(bs, i, x, y), c, alive, after)
  }

  /** What every update keeps. */
  lemma UpdatesKeep(k: nat, self: nat, top: nat, bs: seq<BucketView>, c: Contact, alive: Contact -> bool,
                    after: seq<BucketView>)
    requires TableOk(k, self, top, bs) && Pos(c.id) <= top
    requires Updates(k, self, bs, c, alive, after)
    ensures TableOk(k, self, top, after)
  {
    hide Pos, Tiles, Budget, Updates, SplitsTo, InPlace;
    UpdatesIff(k, self, bs, c, alive, after);
    var at :| SplitsTo(k, self, bs, c, at) && InPlace(k, self, at, c, alive, after);
    SplitsToKeeps(k, self, top, bs, c, at);
    InPlaceKeeps(k, self, top, at, c, alive, after);
  }

  lemma InPlaceKeeps(k: nat, self: nat, top: nat, at: seq<BucketView>, c: Contact, alive: Contact -> bool,
                     after: seq<BucketView>)
    requires TableOk(k, self, top, at) && InPlace(k, self, at, c, alive, after)
    ensures TableOk(k, self, top, after)
  {
    hide Pos, Updated, WantsSplit, Tiles, Budget;
    var i := IndexOf(at, Pos(c.id));
    UpdatedFacts(k, at[i], self, c, alive);
    hide BucketOk;
    SameRanges(k, self, top, at, i, Updated(k, at[i], self, c, alive));
  }

  lemma SameRanges(k: nat, self: nat, top: nat, bs: seq<BucketView>, i: nat, l: seq<Contact>)
    requires i < |bs| && Tiles(bs, 0, top) && Budget(k, self, bs)
    ensures Tiles(bs[i := bs[i].(contacts := l)], 0, top) && Budget(k, self, bs[i := bs[i].(contacts := l)])
  {
    var r := bs[i := bs[i].(contacts := l)];
    assert forall j :: 0 <= j < |bs| ==> r[j].low == bs[j].low && r[j].high == bs[j].high;
  }

  // ----- the contacts of the table

  ghost function AllContacts(bs: seq<BucketView>): set<Contact> {
    set i, c | 0 <= i < |bs| && c in bs[i].contacts :: c
  }

  /** Table-wide, every ID is listed once. */
  lemma TableOneAddress(k: nat, self: nat, top: nat, bs: seq<BucketView>)
    requires TableOk(k, self, top, bs)
    ensures OneAddress(AllContacts(bs))
  {
    hide Pos, Budget;
    forall a, b | a in AllContacts(bs) && b in AllContacts(bs) && a.id == b.id
      ensures a == b
    {
      var i :| 0 <= i < |bs| && a in bs[i].contacts;
      var j :| 0 <= j < |bs| && b in bs[j].contacts;
      assert i == j by {
        assert Covers(bs[i], Pos(a.id)) && Covers(bs[j], Pos(a.id));
        TilesFind(bs, 0, top, Pos(a.id));
      }
      DistinctMembers(bs[i].contacts, a, b);
    }
  }

  lemma DistinctMembers(l: seq<Contact>, a: Contact, b: Contact)
    requires DistinctIds(l) && a in l && b in l && a.id == b.id
    ensures a == b
  {
    var m :| 0 <= m < |l| && l[m] == a;
    var n :| 0 <= n < |l| && l[n] == b;
  }

  lemma SplitContacts(k: nat, bs: seq<BucketView>, i: nat, x: BucketView, y: BucketView)
    requires i < |bs| && BucketOk(k, bs[i]) && bs[i].low < bs[i].high && Splits(bs[i], x, y)
    ensures AllContacts(SplitAt(bs, i, x, y)) == AllContacts(bs)
  {
    SplitsFacts(k, bs[i], x, y);
    hide Pos, BucketOk, Splits;
    var r := SplitAt(bs, i, x, y);
    forall c | c in AllContacts(bs)
      ensures c in AllContacts(r)
    {
      var j :| 0 <= j < |bs| && c in bs[j].contacts;
      if j == i {
        assert c in Elems(x.contacts) + Elems(y.contacts);
        assert r[i] == x && r[i + 1] == y;
      } else {
        assert r[if j < i then j else j + 1] == bs[j];
      }
    }
    forall c | c in AllContacts(r)
      ensures c in AllContacts(bs)
    {
      var j :| 0 <= j < |r| && c in r[j].contacts;
      if j == i || j == i + 1 {
        assert c in Elems(bs[i].contacts);
      } else {
        assert r[j] == bs[if j < i then j else j - 1];
      }
    }
  }

  lemma InPlaceContacts(bs: seq<BucketView>, i: nat, l: seq<Contact>)
    requires i < |bs|
    requires forall j, c :: 0 <= j < |bs| && j != i && c in bs[j].contacts ==> c !in bs[i].contacts
    ensures AllContacts(bs[i := bs[i].(contacts := l)]) == AllContacts(bs) - Elems(bs[i].contacts) + Elems(l)
  {
    var r := bs[i := bs[i].(contacts := l)];
    forall c | c in AllContacts(r)
      ensures c in AllContacts(bs) - Elems(bs[i].contacts) + Elems(l)
    {
      var j :| 0 <= j < |r| && c in r[j].contacts;
      assert j != i ==> c in bs[j].contacts;
    }
    forall c | c in AllContacts(bs) - Elems(bs[i].contacts) + Elems(l)
      ensures c in AllContacts(r)
    {
      if c in l {
        assert c in r[i].contacts;
      } else {
        var j :| 0 <= j < |bs| && c in bs[j].contacts;
        assert c in r[j].contacts;
      }
    }
  }

  /** The contacts of the table in the range of one bucket are that bucket's. */
  lemma BucketShare(k: nat, self: nat, top: nat, bs: seq<BucketView>, i: nat)
    requires TableOk(k, self, top, bs) && i < |bs|
    ensures forall d :: d in bs[i].contacts <==> d in AllContacts(bs) && Covers(bs[i], Pos(d.id))
    ensures forall j, c :: 0 <= j < |bs| && j != i && c in bs[j].contacts ==> c !in bs[i].contacts
  {
    hide Pos;
    forall d | d in AllContacts(bs) && Covers(bs[i], Pos(d.id))
      ensures d in bs[i].contacts
    {
      var j :| 0 <= j < |bs| && d in bs[j].contacts;
      TilesFind(bs, 0, top, Pos(d.id));
    }
    forall j, c | 0 <= j < |bs| && j != i && c in bs[j].contacts
      ensures c !in bs[i].contacts
    {
      TilesFind(bs, 0, top, Pos(c.id));
    }
  }

  // ----- the table in which the final update is made

  /** `at` is a table the splits of an update may lead to: the bucket that covers
      `c` is split while it wants to be. */
  ghost predicate SplitsTo(k: nat, self: nat, bs: seq<BucketView>, c: Contact, at: seq<BucketView>)
    decreases if |bs| <= 256 then 257 - |bs| else 0
  {
    var i := IndexOf(bs, Pos(c.id));
    && i < |bs|
    && if !WantsSplit(k, bs[i], self, c) then at == bs
       else
         |bs| <= 256
         && exists x, y :: Splits(bs[i], x, y) && SplitsTo(k, self, SplitAt(bs, i, x, y), c, at)
  }

  /** `after` is `at` with the bucket that covers `c` updated, in its place. */
  ghost predicate InPlace(k: nat, self: nat, at: seq<BucketView>, c: Contact, alive: Contact -> bool,
                          after: seq<BucketView>)
    requires k >= 1
  {
    var i := IndexOf(at, Pos(c.id));
    && i < |at| && !WantsSplit(k, at[i], self, c)
    && after == at[i := at[i].(contacts := Updated(k, at[i], self, c, alive))]
  }

  /** An update is its splits and then one bucket updated in place. */
  lemma {:induction false} UpdatesIff(k: nat, self: nat, bs: seq<BucketView>, c: Contact, alive: Contact -> bool,
                                      after: seq<BucketView>)
    requires k >= 1
    ensures Updates(k, self, bs, c, alive, after) <==>
            exists at :: SplitsTo(k, self, bs, c, at) && InPlace(k, self, at, c, alive, after)
    decreases if |bs| <= 256 then 257 - |bs| else 0
  {
    hide Pos, Splits, WantsSplit, Updated, SplitAt;
    var i := IndexOf(bs, Pos(c.id));
    if i < |bs| && !WantsSplit(k, bs[i], self, c) {
      assert SplitsTo(k, self, bs, c, bs);
    } else if i < |bs| <= 256 {
      forall x, y | Splits(bs[i], x, y)
        ensures Updates(k, self, SplitAt(bs, i, x, y), c, alive, after) <==>
                exists at :: SplitsTo(k, self, SplitAt(bs, i, x, y), c, at) && InPlace(k, self, at, c, alive, after)
      {
        SplitLength(bs, i, x, y);
        UpdatesIff(k, self, SplitAt(bs, i, x, y), c, alive, after);
      }
    }
  }

  lemma SplitLength(bs: seq<BucketView>, i: nat, x: BucketView, y: BucketView)
    requires i < |bs|
    ensures |SplitAt(bs, i, x, y)| == |bs| + 1
  {
  }

  /** Splitting keeps the table in order, conserves the contacts, and leaves the
      buckets that do not cover the node as they are. */
  lemma {:induction false} SplitsToKeeps(k: nat, self: nat, top: nat, bs: seq<BucketView>, c: Contact,
                                         at: seq<BucketView>)
    requires TableOk(k, self, top, bs) && Pos(c.id) <= top && SplitsTo(k, self, bs, c, at)
    ensures TableOk(k, self, top, at) && AllContacts(at) == AllContacts(bs)
    ensures IndexOf(at, Pos(c.id)) < |at| && !WantsSplit(k, at[IndexOf(at, Pos(c.id))], self, c)
    ensures forall b :: b in bs && !Covers(b, self) ==> b in at
    decreases if |bs| <= 256 then 257 - |bs| else 0
  {
    hide Pos, AllContacts, Splits, Budget, Tiles;
    var i := IndexOf(bs, Pos(c.id));
    if WantsSplit(k, bs[i], self, c) {
      var x, y :| Splits(bs[i], x, y) && SplitsTo(k, self, SplitAt(bs, i, x, y), c, at);
      SplitTableOk(k, self, top, bs, c, x, y);
      SplitContacts(k, bs, i, x, y);
      SplitOthers(bs, i, x, y);
      hide TableOk;
      SplitsToKeeps(k, self, top, SplitAt(bs, i, x, y), c, at);
    }
  }

  lemma SplitOthers(bs: seq<BucketView>, i: nat, x: BucketView, y: BucketView)
    requires i < |bs|
    ensures forall b :: b in bs && b != bs[i] ==> b in SplitAt(bs, i, x, y)
  {
    assert bs == bs[..i] + [bs[i]] + bs[i + 1..];
  }

  // ----- the effect of an update

  /** What updating bucket `b` does to the contacts `all` of its table: it
      refreshes the ID; or adds the contact when there is room; or, when there is
      none and the node is elsewhere, swaps it for the front if that is dead. */
  ghost predicate EffectAt(k: nat, self: nat, all: set<Contact>, b: BucketView, c: Contact,
                           alive: Contact -> bool, after: set<Contact>)
    requires k >= 1
  {
    if exists d :: d in all && d.id == c.id then
      after == (set d | d in all && d.id != c.id) + {c}
    else if |b.contacts| < k then
      after == all + {c}
    else
      && |b.contacts| == k && !Covers(b, self)
      && after == if alive(b.contacts[0]) then all else all - {b.contacts[0]} + {c}
  }

  lemma InPlaceEffect(k: nat, self: nat, top: nat, at: seq<BucketView>, c: Contact, alive: Contact -> bool,
                      after: seq<BucketView>)
    requires TableOk(k, self, top, at) && InPlace(k, self, at, c, alive, after)
    ensures EffectAt(k, self, AllContacts(at), at[IndexOf(at, Pos(c.id))], c, alive, AllContacts(after))
  {
    var i := IndexOf(at, Pos(c.id));
    BucketShare(k, self, top, at, i);
    hide Pos, AllContacts, Tiles, Updated, Budget;
    InPlaceContacts(at, i, Updated(k, at[i], self, c, alive));
    TableOneAddress(k, self, top, at);
    BucketEffect(k, self, AllContacts(at), at[i], c, alive);
  }

  /** The update of a bucket, seen from the contacts of the whole table. */
  lemma BucketEffect(k: nat, self: nat, all: set<Contact>, b: BucketView, c: Contact, alive: Contact -> bool)
    requires k >= 1 && BucketOk(k, b) && Covers(b, Pos(c.id)) && !WantsSplit(k, b, self, c) && OneAddress(all)
    requires forall d :: d in b.contacts <==> d in all && Covers(b, Pos(d.id))
    ensures EffectAt(k, self, all, b, c, alive, all - Elems(b.contacts) + Elems(Updated(k, b, self, c, alive)))
  {
    hide Pos, Updated, BucketOk, Elems, OneAddress, Covers;
    UpdatedFacts(k, b, self, c, alive);
    KnownMeaning(b.contacts, c.id);
    KnownHere(all, b, c);
    BucketSize(k, b);
    if Known(b.contacts, c.id) {
      RefreshEffect(all, b.contacts, b.contacts[KnownAt(b.contacts, c.id)], c);
    } else {
      SwapEffect(all, b.contacts, c);
    }
  }

  lemma BucketSize(k: nat, b: BucketView)
    requires BucketOk(k, b)
    ensures |b.contacts| <= k
  {
  }

  lemma RefreshEffect(all: set<Contact>, l: seq<Contact>, entry: Contact, c: Contact)
    requires OneAddress(all) && (forall d :: d in l ==> d in all) && entry in l && entry.id == c.id
    ensures all - Elems(l) + (Elems(l) - {entry} + {c}) == (set d | d in all && d.id != c.id) + {c}
  {
  }

  lemma SwapEffect(all: set<Contact>, l: seq<Contact>, c: Contact)
    requires (forall d :: d in l ==> d in all) && c !in all
    ensures all - Elems(l) + (Elems(l) + {c}) == all + {c}
    ensures all - Elems(l) + Elems(l) == all
    ensures l != [] ==> all - Elems(l) + (Elems(l) - {l[0]} + {c}) == all - {l[0]} + {c}
  {
    assert l != [] ==> l[0] in Elems(l);
    hide Elems;
  }

  lemma KnownHere(all: set<Contact>, b: BucketView, c: Contact)
    requires forall d :: d in b.contacts <==> d in all && Covers(b, Pos(d.id))
    requires Covers(b, Pos(c.id))
    ensures (exists d :: d in all && d.id == c.id) <==> (exists d :: d in b.contacts && d.id == c.id)
  {
    if d :| d in all && d.id == c.id {
      assert d in b.contacts;
    }
  }

  /** The whole effect of an update: it splits its way to a table `at` of the same
      contacts, and there updates the bucket that covers the contact. */
  ghost predicate Effect(k: nat, self: nat, top: nat, bs: seq<BucketView>, c: Contact, alive: Contact -> bool,
                         after: seq<BucketView>, at: seq<BucketView>)
    requires k >= 1
  {
    var i := IndexOf(at, Pos(c.id));
    && SplitsTo(k, self, bs, c, at) && TableOk(k, self, top, at) && AllContacts(at) == AllContacts(bs)
    && InPlace(k, self, at, c, alive, after)
    && EffectAt(k, self, AllContacts(bs), at[i], c, alive, AllContacts(after))
  }

  lemma UpdatesEffect(k: nat, self: nat, top: nat, bs: seq<BucketView>, c: Contact, alive: Contact -> bool,
                      after: seq<BucketView>)
    requires TableOk(k, self, top, bs) && Pos(c.id) <= top
    requires Updates(k, self, bs, c, alive, after)
    ensures exists at :: Effect(k, self, top, bs, c, alive, after, at)
  {
    hide Pos, AllContacts, Updates, SplitsTo, InPlace, EffectAt, Tiles, Budget;
    UpdatesIff(k, self, bs, c, alive, after);
    var at :| SplitsTo(k, self, bs, c, at) && InPlace(k, self, at, c, alive, after);
    SplitsToKeeps(k, self, top, bs, c, at);
    InPlaceEffect(k, self, top, at, c, alive, after);
    assert Effect(k, self, top, bs, c, alive, after, at);
  }

  // ----- runs

  /** `tables[n + 1]` is a table update `n` may leave, for its contact and its
      ping outcomes. */
  ghost predicate TableRun(k: nat, self: nat, top: nat, tables: seq<seq<BucketView>>,
                           updates: seq<(Contact, Contact -> bool)>)
    requires k >= 1
  {
    && |tables| == |updates| + 1
    && TableOk(k, self, top, tables[0])
    && (forall n :: 0 <= n < |updates| ==> Pos(updates[n].0.id) <= top)
    && forall n :: 0 <= n < |updates| ==> Follows(k, self, tables, updates, n)
  }

  ghost predicate Follows(k: nat, self: nat, tables: seq<seq<BucketView>>,
                           updates: seq<(Contact, Contact -> bool)>, n: nat)
    requires k >= 1 && |tables| == |updates| + 1 && n < |updates|
  {
    Updates(k, self, tables[n], updates[n].0, updates[n].1, tables[n + 1])
  }

  /** Every table of every run is in order. */
  lemma {:induction false} RunTables(k: nat, self: nat, top: nat, tables: seq<seq<BucketView>>,
                                     updates: seq<(Contact, Contact -> bool)>, n: nat)
    requires k >= 1 && TableRun(k, self, top, tables, updates) && n < |tables|
    ensures TableOk(k, self, top, tables[n]) && OneAddress(AllContacts(tables[n]))
  {
    hide TableOk, Updates, Pos;
    if n > 0 {
      RunTables(k, self, top, tables, updates, n - 1);
      assert Follows(k, self, tables, updates, n - 1);
      UpdatesKeep(k, self, top, tables[n - 1], updates[n - 1].0, updates[n - 1].1, tables[n]);
    }
    TableOneAddress(k, self, top, tables[n]);
  }

  ghost predicate Lists(bs: seq<BucketView>, id: Key) {
    exists c :: c in AllContacts(bs) && c.id == id
  }

  /** `id` heads the bucket that covers `c` in the table `at` that the splits lead
      to; that bucket is full, does not know `c` and does not cover the node; the
      ping of the head fails, and `c` takes its place at the tail. */
  ghost predicate EvictsAt(k: nat, self: nat, c: Contact, alive: Contact -> bool, at: seq<BucketView>,
                           after: seq<BucketView>, id: Key)
    requires k >= 1
  {
    var i := IndexOf(at, Pos(c.id));
    && i < |at| && Pings(k, at[i], self, c)
    && at[i].contacts[0].id == id && !alive(at[i].contacts[0])
    && after == at[i := at[i].(contacts := at[i].contacts[1..] + [c])]
  }

  /** Update `n` of a run evicts `id`. */
  ghost predicate Evicts(k: nat, self: nat, tables: seq<seq<BucketView>>,
                         updates: seq<(Contact, Contact -> bool)>, n: nat, id: Key)
    requires k >= 1 && |tables| == |updates| + 1 && n < |updates|
  {
    exists at :: SplitsTo(k, self, tables[n], updates[n].0, at)
      && EvictsAt(k, self, updates[n].0, updates[n].1, at, tables[n + 1], id)
  }

  /** An update unlists exactly what it evicts. */
  lemma StepLeavesIff(k: nat, self: nat, top: nat, tables: seq<seq<BucketView>>,
                      updates: seq<(Contact, Contact -> bool)>, n: nat, id: Key)
    requires k >= 1 && TableRun(k, self, top, tables, updates) && n < |updates|
    ensures Lists(tables[n], id) && !Lists(tables[n + 1], id) <==> Evicts(k, self, tables, updates, n, id)
  {
    hide TableOk, Updates, Pos, AllContacts, Effect, Lists, EvictsAt, SplitsTo;
    RunTables(k, self, top, tables, updates, n);
    assert Follows(k, self, tables, updates, n);
    var c, alive := updates[n].0, updates[n].1;
    if Lists(tables[n], id) && !Lists(tables[n + 1], id) {
      UpdatesEffect(k, self, top, tables[n], c, alive, tables[n + 1]);
      var at :| Effect(k, self, top, tables[n], c, alive, tables[n + 1], at);
      LeavesEvicted(k, self, top, tables[n], c, alive, tables[n + 1], at, id);
    }
    if Evicts(k, self, tables, updates, n, id) {
      var at :| SplitsTo(k, self, tables[n], c, at) && EvictsAt(k, self, c, alive, at, tables[n + 1], id);
      EvictedLeaves(k, self, top, tables[n], c, alive, tables[n + 1], at, id);
    }
  }

  lemma LeavesEvicted(k: nat, self: nat, top: nat, bs: seq<BucketView>, c: Contact, alive: Contact -> bool,
                      after: seq<BucketView>, at: seq<BucketView>, id: Key)
    requires k >= 1 && Effect(k, self, top, bs, c, alive, after, at) && Lists(bs, id) && !Lists(after, id)
    ensures SplitsTo(k, self, bs, c, at) && EvictsAt(k, self, c, alive, at, after, id)
  {
    var b := at[IndexOf(at, Pos(c.id))];
    hide TableOk, Pos, AllContacts, SplitsTo;
    assert AllContacts(at) == AllContacts(bs);
    BucketIn(at, IndexOf(at, Pos(c.id)));
    KnownMeaning(b.contacts, c.id);
    var d :| d in AllContacts(bs) && d.id == id;
    assert d !in AllContacts(after);
    assert c in AllContacts(after) ==> c.id != id;
    assert d == b.contacts[0];
  }

  lemma BucketIn(bs: seq<BucketView>, i: nat)
    requires i < |bs|
    ensures forall d :: d in bs[i].contacts ==> d in AllContacts(bs)
  {
  }

  lemma EvictedLeaves(k: nat, self: nat, top: nat, bs: seq<BucketView>, c: Contact, alive: Contact -> bool,
                      after: seq<BucketView>, at: seq<BucketView>, id: Key)
    requires TableOk(k, self, top, bs) && Pos(c.id) <= top && SplitsTo(k, self, bs, c, at)
    requires EvictsAt(k, self, c, alive, at, after, id)
    ensures Lists(bs, id) && !Lists(after, id)
  {
    hide Pos, AllContacts, SplitsTo, Tiles, Budget;
    SplitsToKeeps(k, self, top, bs, c, at);
    EvictsInPlace(k, self, c, alive, at, after, id);
    InPlaceEffect(k, self, top, at, c, alive, after);
    TableOneAddress(k, self, top, at);
    BucketShare(k, self, top, at, IndexOf(at, Pos(c.id)));
    hide TableOk;
    var b := at[IndexOf(at, Pos(c.id))];
    KnownMeaning(b.contacts, c.id);
    assert b.contacts[0] in b.contacts;
    KnownHere(AllContacts(at), b, c);
  }

  lemma EvictsInPlace(k: nat, self: nat, c: Contact, alive: Contact -> bool, at: seq<BucketView>,
                      after: seq<BucketView>, id: Key)
    requires k >= 1 && EvictsAt(k, self, c, alive, at, after, id)
    ensures InPlace(k, self, at, c, alive, after)
  {
  }

  /** In any run an ID once listed goes only by an eviction. */
  lemma {:induction false} LeavesOnlyByEviction(k: nat, self: nat, top: nat, tables: seq<seq<BucketView>>,
                                                updates: seq<(Contact, Contact -> bool)>, i: nat, j: nat, id: Key)
    requires k >= 1 && TableRun(k, self, top, tables, updates) && i <= j < |tables|
    requires Lists(tables[i], id) && !Lists(tables[j], id)
    ensures exists n :: i <= n < j && Evicts(k, self, tables, updates, n, id)
    decreases j
  {
    hide TableOk, TableRun, Lists, Evicts;
    assert |tables| == |updates| + 1 by {
      RunShape(k, self, top, tables, updates);
    }
    if Lists(tables[j - 1], id) {
      StepLeavesIff(k, self, top, tables, updates, j - 1, id);
      assert Evicts(k, self, tables, updates, j - 1, id);
    } else {
      LeavesOnlyByEviction(k, self, top, tables, updates, i, j - 1, id);
    }
  }

  lemma RunShape(k: nat, self: nat, top: nat, tables: seq<seq<BucketView>>,
                 updates: seq<(Contact, Contact -> bool)>)
    requires k >= 1 && TableRun(k, self, top, tables, updates)
    ensures |tables| == |updates| + 1
  {
  }
}
