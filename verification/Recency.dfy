/** The order of a bucket (dht/routing_table.go): by when each contact was last
    seen, the one not seen for longest in front. */
module Recency {
  import opened Keys
  import opened Ranking
  import opened Contacts
  import opened BucketTables

  /** One update: the contact, and which pings would be answered. */
  type Update = (Contact, Contact -> bool)

  /** A bucket and what a sequence of updates makes of it, one after the other,
      none of which asks for a split. */
  ghost predicate BucketRun(k: nat, self: nat, bs: seq<BucketView>, ups: seq<Update>)
    requires k >= 1
  {
    && |bs| == |ups| + 1 && BucketOk(k, bs[0])
    && forall n :: 0 <= n < |ups| ==> Next(k, self, bs, ups, n)
  }

  ghost predicate Next(k: nat, self: nat, bs: seq<BucketView>, ups: seq<Update>, n: nat)
    requires k >= 1 && |bs| == |ups| + 1 && n < |ups|
  {
    && Covers(bs[n], Pos(ups[n].0.id)) && !WantsSplit(k, bs[n], self, ups[n].0)
    && bs[n + 1] == bs[n].(contacts := Updated(k, bs[n], self, ups[n].0, ups[n].1))
  }

  /** When an ID was last seen before update `n`: the number of the update that was
      for it, or for which its contact, the one not seen for longest, answered a
      ping. What the bucket held at the start was seen before all updates, in the
      order it was in. */
  ghost function LastSeen(k: nat, self: nat, bs: seq<BucketView>, ups: seq<Update>, n: nat, id: Key): int
    requires |bs| == |ups| + 1 && n <= |ups|
    decreases n, 0
  {
    if n == 0 then KnownAt(bs[0].contacts, id) - |bs[0].contacts|
    else if ups[n - 1].0.id == id || Answers(k, self, bs, ups, n - 1, id) then n
    else LastSeen(k, self, bs, ups, n - 1, id)
  }

  /** Update `n` finds a full bucket, and the contact not seen for longest is that of
      `id` and answers the ping. */
  ghost predicate Answers(k: nat, self: nat, bs: seq<BucketView>, ups: seq<Update>, n: nat, id: Key)
    requires |bs| == |ups| + 1 && n < |ups|
    decreases n, 2
  {
    && Pings(k, bs[n], self, ups[n].0)
    && exists o: Contact :: o.id == id && ups[n].1(o) && Oldest(k, self, bs, ups, n, o)
  }

  ghost predicate Oldest(k: nat, self: nat, bs: seq<BucketView>, ups: seq<Update>, n: nat, o: Contact)
    requires |bs| == |ups| + 1 && n < |ups|
    decreases n, 1
  {
    o in bs[n].contacts
    && forall d :: d in bs[n].contacts ==>
         LastSeen(k, self, bs, ups, n, o.id) <= LastSeen(k, self, bs, ups, n, d.id)
  }

  /** The contacts `l`, as they were seen before update `n`. */
  ghost predicate BySeen(k: nat, self: nat, bs: seq<BucketView>, ups: seq<Update>, n: nat, l: seq<Contact>)
    requires |bs| == |ups| + 1 && n <= |ups|
  {
    && (forall i, j :: 0 <= i < j < |l| ==>
          LastSeen(k, self, bs, ups, n, l[i].id) < LastSeen(k, self, bs, ups, n, l[j].id))
    && forall i :: 0 <= i < |l| ==> LastSeen(k, self, bs, ups, n, l[i].id) <= n
  }

  function Without(l: seq<Contact>, i: nat): seq<Contact> {
    if i < |l| then l[..i] + l[i + 1..] else l
  }

  lemma StartBySeen(k: nat, self: nat, bs: seq<BucketView>, ups: seq<Update>)
    requires |bs| == |ups| + 1 && DistinctIds(bs[0].contacts)
    ensures BySeen(k, self, bs, ups, 0, bs[0].contacts)
  {
    forall i | 0 <= i < |bs[0].contacts|
      ensures LastSeen(k, self, bs, ups, 0, bs[0].contacts[i].id) == i - |bs[0].contacts|
    {
      KnownInPlace(bs[0].contacts, i);
    }
    hide KnownAt;
  }

  /** In a bucket in that order the one not seen for longest is in front. */
  lemma OldestIsFront(k: nat, self: nat, bs: seq<BucketView>, ups: seq<Update>, n: nat, o: Contact)
    requires |bs| == |ups| + 1 && n < |ups| && bs[n].contacts != []
    requires BySeen(k, self, bs, ups, n, bs[n].contacts)
    ensures Oldest(k, self, bs, ups, n, o) <==> o == bs[n].contacts[0]
  {
    hide LastSeen;
    var l := bs[n].contacts;
    assert l[0] in l;
    if Oldest(k, self, bs, ups, n, o) {
      var i :| 0 <= i < |l| && l[i] == o;
    }
  }

  lemma FrontAnswers(k: nat, self: nat, bs: seq<BucketView>, ups: seq<Update>, n: nat, id: Key)
    requires |bs| == |ups| + 1 && n < |ups| && BySeen(k, self, bs, ups, n, bs[n].contacts)
    requires Pings(k, bs[n], self, ups[n].0) && bs[n].contacts != []
    ensures Answers(k, self, bs, ups, n, id) <==> ups[n].1(bs[n].contacts[0]) && bs[n].contacts[0].id == id
  {
    hide LastSeen, Pings, BySeen, Oldest;
    var front := bs[n].contacts[0];
    OldestIsFront(k, self, bs, ups, n, front);
    if Answers(k, self, bs, ups, n, id) {
      var o: Contact :| o.id == id && ups[n].1(o) && Oldest(k, self, bs, ups, n, o);
      OldestIsFront(k, self, bs, ups, n, o);
    }
  }

  /** Who was seen by an update. */
  lemma SeenNow(k: nat, self: nat, bs: seq<BucketView>, ups: seq<Update>, n: nat, id: Key)
    requires |bs| == |ups| + 1 && n < |ups| && BySeen(k, self, bs, ups, n, bs[n].contacts)
    requires Pings(k, bs[n], self, ups[n].0) ==> bs[n].contacts != []
    ensures var c, alive, l := ups[n].0, ups[n].1, bs[n].contacts;
            LastSeen(k, self, bs, ups, n + 1, id) ==
            if c.id == id || (Pings(k, bs[n], self, c) && alive(l[0]) && l[0].id == id) then n + 1
            else LastSeen(k, self, bs, ups, n, id)
  {
    if Pings(k, bs[n], self, ups[n].0) {
      FrontAnswers(k, self, bs, ups, n, id);
    }
    hide Pings, BySeen, Oldest;
  }

  /** Taking out one and putting one just seen last keeps the order. */
  lemma LastIsNewest(k: nat, self: nat, bs: seq<BucketView>, ups: seq<Update>, n: nat, i: nat, last: Contact)
    requires |bs| == |ups| + 1 && n < |ups| && BySeen(k, self, bs, ups, n, bs[n].contacts)
    requires LastSeen(k, self, bs, ups, n + 1, last.id) == n + 1
    requires forall j :: 0 <= j < |bs[n].contacts| && j != i ==>
               var id := bs[n].contacts[j].id;
               LastSeen(k, self, bs, ups, n + 1, id) == LastSeen(k, self, bs, ups, n, id)
    ensures BySeen(k, self, bs, ups, n + 1, Without(bs[n].contacts, i) + [last])
  {
    hide LastSeen;
    var l := bs[n].contacts;
    var r := Without(l, i) + [last];
    forall m | 0 <= m < |r| - 1
      ensures r[m] == l[if m < i then m else m + 1]
    {
    }
  }

  /** In every run: the contacts of the bucket are in the order in which they were
      last seen. */
  lemma {:induction false} RecencyOrder(k: nat, self: nat, bs: seq<BucketView>, ups: seq<Update>, n: nat)
    requires k >= 1 && BucketRun(k, self, bs, ups) && n <= |ups|
    ensures BucketOk(k, bs[n]) && BySeen(k, self, bs, ups, n, bs[n].contacts)
  {
    hide LastSeen, BucketOk, Pos, Covers;
    if n == 0 {
      StartOk(k, self, bs, ups);
      StartBySeen(k, self, bs, ups);
    } else {
      RecencyOrder(k, self, bs, ups, n - 1);
      assert Next(k, self, bs, ups, n - 1);
      UpdatedFacts(k, bs[n - 1], self, ups[n - 1].0, ups[n - 1].1);
      hide BySeen, Updated, WantsSplit;
      NextBySeen(k, self, bs, ups, n - 1);
    }
  }

  lemma StartOk(k: nat, self: nat, bs: seq<BucketView>, ups: seq<Update>)
    requires k >= 1 && BucketRun(k, self, bs, ups)
    ensures BucketOk(k, bs[0]) && DistinctIds(bs[0].contacts)
  {
  }

  lemma NextBySeen(k: nat, self: nat, bs: seq<BucketView>, ups: seq<Update>, n: nat)
    requires k >= 1 && |bs| == |ups| + 1 && n < |ups| && Next(k, self, bs, ups, n)
    requires BucketOk(k, bs[n]) && BySeen(k, self, bs, ups, n, bs[n].contacts)
    ensures BySeen(k, self, bs, ups, n + 1, bs[n + 1].contacts)
  {
    hide LastSeen, BySeen, Pos, Covers;
    var c, alive, l := ups[n].0, ups[n].1, bs[n].contacts;
    var i := KnownAt(l, c.id);
    var out := if i < |l| || |l| < k then i else 0;
    var last := if i < |l| || |l| < k || !alive(l[0]) then c else l[0];
    SeenNow(k, self, bs, ups, n, last.id);
    forall j | 0 <= j < |l| && j != out
      ensures LastSeen(k, self, bs, ups, n + 1, l[j].id) == LastSeen(k, self, bs, ups, n, l[j].id)
    {
      SeenNow(k, self, bs, ups, n, l[j].id);
    }
    LastIsNewest(k, self, bs, ups, n, out, last);
    assert |l| > 0 ==> l[..0] + l[1..] == l[1..];
  }

  /** So a full bucket with no room for a contact it does not know asks the one not
      seen for longest, and gives up that one and no other, if it does not answer. */
  lemma LongestUnseenGoes(k: nat, self: nat, bs: seq<BucketView>, ups: seq<Update>, n: nat, o: Contact)
    requires k >= 1 && BucketRun(k, self, bs, ups) && n < |ups|
    requires Pings(k, bs[n], self, ups[n].0) && Oldest(k, self, bs, ups, n, o)
    ensures Elems(bs[n + 1].contacts)
         == if ups[n].1(o) then Elems(bs[n].contacts) else Elems(bs[n].contacts) - {o} + {ups[n].0}
  {
    RecencyOrder(k, self, bs, ups, n);
    assert Next(k, self, bs, ups, n);
    hide Oldest, BySeen, LastSeen, Updated;
    OldestIsFront(k, self, bs, ups, n, o);
    UpdatedFacts(k, bs[n], self, ups[n].0, ups[n].1);
  }
}
