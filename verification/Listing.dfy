/** What a DAG listing says (fs/fs.go): in which order, and of what size. */
module Listings {
  import opened PeerRecords
  import opened Merkle
  import opened Trees

  /** A place in a tree: which link to follow, from the root on. */
  type Place = seq<nat>

  function At(t: Tree, p: Place): (r: Option<Tree>)
    decreases |p|
  {
    if p == [] then Some(t) else if p[0] < |t.kids| then At(t.kids[p[0]].tree, p[1..]) else None
  }

  /** A node comes before all below it, and these before all to their right. */
  predicate Before(p: Place, q: Place) {
    q != [] && (p == [] || p[0] < q[0] || (p[0] == q[0] && Before(p[1..], q[1..])))
  }

  predicate InOrder(ps: seq<Place>) {
    forall i, j :: 0 <= i < j < |ps| ==> Before(ps[i], ps[j])
  }

  /** `ps` are all the places of `t`, in order. */
  ghost predicate AllPlaces(t: Tree, ps: seq<Place>) {
    InOrder(ps) && forall p :: p in ps <==> At(t, p).Some?
  }

  /** `cids` are those of the nodes at `ps`. */
  predicate CidsAt(c: Codec, t: Tree, ps: seq<Place>, cids: seq<Cid>) {
    |cids| == |ps| && forall i :: 0 <= i < |ps| ==> At(t, ps[i]).Some? && cids[i] == CidOf(c, At(t, ps[i]).value)
  }

  // ----- the places, put together as the listing is

  function Under(i: nat, ps: seq<Place>): (r: seq<Place>)
    ensures |r| == |ps| && forall j :: 0 <= j < |r| ==> r[j] == [i] + ps[j]
  {
    seq(|ps|, j requires 0 <= j < |ps| => [i] + ps[j])
  }

  function Places(t: Tree): seq<Place>
    decreases t, 1
  {
    [[]] + KidsPlaces(t.kids, 0)
  }

  /** The places below the kids, the first of which is number `i`. */
  function KidsPlaces(kids: seq<Kid>, i: nat): seq<Place>
    decreases kids, 0
  {
    if kids == [] then [] else Under(i, Places(kids[0].tree)) + KidsPlaces(kids[1..], i + 1)
  }

  /** A place below one of the kids numbered from `i` on. */
  predicate Reaches(kids: seq<Kid>, i: nat, p: Place) {
    p != [] && i <= p[0] < i + |kids| && At(kids[p[0] - i].tree, p[1..]).Some?
  }

  lemma UnderOrder(i: nat, ps: seq<Place>)
    requires InOrder(ps)
    ensures InOrder(Under(i, ps))
  {
    var r := Under(i, ps);
    forall m, n | 0 <= m < n < |r|
      ensures Before(r[m], r[n])
    {
      assert r[m][1..] == ps[m] && r[n][1..] == ps[n];
    }
  }

  lemma UnderMembers(i: nat, ps: seq<Place>)
    ensures forall p :: p in Under(i, ps) <==> p != [] && p[0] == i && p[1..] in ps
  {
    var r := Under(i, ps);
    forall p | p in r
      ensures p != [] && p[0] == i && p[1..] in ps
    {
      var j :| 0 <= j < |r| && r[j] == p;
      assert p[1..] == ps[j];
    }
    forall p: Place | p != [] && p[0] == i && p[1..] in ps
      ensures p in r
    {
      var j :| 0 <= j < |ps| && ps[j] == p[1..];
      assert r[j] == p;
    }
  }

  lemma {:induction false} PlacesAll(t: Tree)
    ensures AllPlaces(t, Places(t))
    decreases t, 1
  {
    KidsPlacesAll(t.kids, 0);
    var below := KidsPlaces(t.kids, 0);
    hide KidsPlaces;
    forall p
      ensures p in [[]] + below <==> At(t, p).Some?
    {
      if p != [] {
        assert Reaches(t.kids, 0, p) <==> At(t, p).Some?;
      }
    }
    assert forall j :: 0 <= j < |below| ==> below[j] in below;
  }

  lemma {:induction false} KidsPlacesAll(kids: seq<Kid>, i: nat)
    ensures InOrder(KidsPlaces(kids, i))
    ensures forall p :: p in KidsPlaces(kids, i) <==> Reaches(kids, i, p)
    decreases kids, 0
  {
    if kids != [] {
      var first, rest := Under(i, Places(kids[0].tree)), KidsPlaces(kids[1..], i + 1);
      PlacesAll(kids[0].tree);
      UnderOrder(i, Places(kids[0].tree));
      UnderMembers(i, Places(kids[0].tree));
      KidsPlacesAll(kids[1..], i + 1);
      assert KidsPlaces(kids, i) == first + rest;
      hide KidsPlaces, Places, Under, At;
      ReachesSplit(kids, i);
      JoinOrder(first, rest, i);
    }
  }

  lemma ReachesSplit(kids: seq<Kid>, i: nat)
    requires kids != []
    ensures forall p :: Reaches(kids, i, p) <==>
              (p != [] && p[0] == i && At(kids[0].tree, p[1..]).Some?) || Reaches(kids[1..], i + 1, p)
  {
    hide At;
  }

  lemma JoinOrder(first: seq<Place>, rest: seq<Place>, i: nat)
    requires InOrder(first) && InOrder(rest)
    requires forall p :: p in first ==> p != [] && p[0] == i
    requires forall p :: p in rest ==> p != [] && p[0] > i
    ensures InOrder(first + rest)
  {
    var all := first + rest;
    forall m, n | 0 <= m < n < |all|
      ensures Before(all[m], all[n])
    {
      if m < |first| <= n {
        assert first[m] in first && rest[n - |first|] in rest;
      }
    }
  }

  lemma {:induction false} ListIsPlaces(c: Codec, t: Tree)
    ensures CidsAt(c, t, Places(t), DagList(c, t))
    decreases t, 1
  {
    KidsListIsPlaces(c, t, t.kids, 0);
    hide KidsPlaces, KidsList, CidOf;
  }

  lemma {:induction false} KidsListIsPlaces(c: Codec, t: Tree, kids: seq<Kid>, i: nat)
    requires i + |kids| == |t.kids| && kids == t.kids[i..]
    ensures CidsAt(c, t, KidsPlaces(kids, i), KidsList(c, kids))
    decreases kids, 0
  {
    if kids != [] {
      ListIsPlaces(c, kids[0].tree);
      KidsListIsPlaces(c, t, kids[1..], i + 1);
      hide Places, DagList, CidOf;
      UnderCids(c, t, i, Places(kids[0].tree), DagList(c, kids[0].tree));
    }
  }

  lemma UnderCids(c: Codec, t: Tree, i: nat, ps: seq<Place>, cids: seq<Cid>)
    requires i < |t.kids| && CidsAt(c, t.kids[i].tree, ps, cids)
    ensures CidsAt(c, t, Under(i, ps), cids)
  {
    hide CidOf;
    var r := Under(i, ps);
    assert forall j :: 0 <= j < |r| ==> r[j][0] == i && r[j][1..] == ps[j];
  }

  /** The listing of a stored tree names every node once, parents before what is
      below them and left before right. */
  lemma ListingOrder(c: Codec, st: Store, t: Tree, fuel: nat)
    requires Lawful(c) && HoldsAll(c, st, AllData(c, t)) && fuel > Height(t)
    ensures Dag(c, st, CidOf(c, t), fuel).Ok?
    ensures exists ps :: AllPlaces(t, ps) && CidsAt(c, t, ps, Dag(c, st, CidOf(c, t), fuel).value.0)
  {
    DagHeld(c, st, t, fuel);
    PlacesAll(t);
    ListIsPlaces(c, t);
  }

  // ----- the size

  /** The bytes of the blocks `cids` in the store. */
  function SizesOf(st: Store, cids: seq<Cid>): nat
    requires forall cid :: cid in cids ==> cid in st
  {
    if cids == [] then 0 else |st[cids[0]]| + SizesOf(st, cids[1..])
  }

  lemma {:induction false} SizesJoin(st: Store, a: seq<Cid>, b: seq<Cid>)
    requires forall cid :: cid in a + b ==> cid in st
    ensures (forall cid :: cid in a ==> cid in st) && (forall cid :: cid in b ==> cid in st)
    ensures SizesOf(st, a + b) == SizesOf(st, a) + SizesOf(st, b)
  {
    assert forall cid :: cid in a || cid in b ==> cid in a + b;
    if a == [] {
      assert a + b == b;
    } else {
      assert (a + b)[1..] == a[1..] + b;
      SizesJoin(st, a[1..], b);
    }
  }

  /** In any store: what is listed is stored, and the size is that of the blocks
      listed, each as often as it is. */
  lemma {:induction false} ListingSize(c: Codec, st: Store, id: Cid, fuel: nat)
    requires Dag(c, st, id, fuel).Ok?
    ensures var l := Dag(c, st, id, fuel).value;
            l.0 != [] && l.0[0] == id && (forall cid :: cid in l.0 ==> cid in st) && l.1 == SizesOf(st, l.0)
    decreases fuel, 0
  {
    var m := ParseBlock(c, Block(id, st[id])).value;
    LinksListingSize(c, st, m.attr.links, fuel - 1);
    var below := DagLinks(c, st, m.attr.links, fuel - 1).value;
    assert ([id] + below.0)[1..] == below.0;
  }

  lemma {:induction false} LinksListingSize(c: Codec, st: Store, links: seq<Link>, fuel: nat)
    requires DagLinks(c, st, links, fuel).Ok?
    ensures var l := DagLinks(c, st, links, fuel).value;
            (forall cid :: cid in l.0 ==> cid in st) && l.1 == SizesOf(st, l.0)
    decreases fuel, |links| + 1
  {
    if links != [] {
      ListingSize(c, st, links[0].cid, fuel);
      LinksListingSize(c, st, links[1..], fuel);
      SizesJoin(st, Dag(c, st, links[0].cid, fuel).value.0, DagLinks(c, st, links[1..], fuel).value.0);
    }
  }
}
