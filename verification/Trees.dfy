/** The trees that the store holds: what a node, a read, a path and a DAG
    listing mean without a store. */
module Trees {
  import opened PeerRecords
  import opened Merkle

  datatype Tree = Tree(data: Bytes, kids: seq<Kid>)

  datatype Kid = Kid(name: string, tree: Tree)

  // ----- nodes of a tree

  function AttrOf(c: Codec, t: Tree): Attributes
    decreases t, 1
  {
    Attributes(LinksOf(c, t.kids), t.data)
  }

  function LinksOf(c: Codec, kids: seq<Kid>): (links: seq<Link>)
    ensures |links| == |kids|
    decreases kids, 0
  {
    if kids == [] then [] else [Link(kids[0].name, CidOf(c, kids[0].tree))] + LinksOf(c, kids[1..])
  }

  function DataOf(c: Codec, t: Tree): Bytes
    decreases t, 2
  {
    c.encodeNode(AttrOf(c, t))
  }

  function CidOf(c: Codec, t: Tree): Cid
    decreases t, 3
  {
    c.hash(DataOf(c, t))
  }

  function NodeOf(c: Codec, t: Tree): Node {
    Node(AttrOf(c, t), Block(CidOf(c, t), DataOf(c, t)))
  }

  function AllData(c: Codec, t: Tree): set<Bytes>
    decreases t, 1
  {
    {DataOf(c, t)} + KidsData(c, t.kids)
  }

  function KidsData(c: Codec, kids: seq<Kid>): set<Bytes>
    decreases kids, 0
  {
    if kids == [] then {} else AllData(c, kids[0].tree) + KidsData(c, kids[1..])
  }

  /** The store holds the blocks `ds`. */
  ghost predicate HoldsAll(c: Codec, st: Store, ds: set<Bytes>) {
    forall d :: d in ds ==> Holds(c, st, d)
  }

  lemma HoldsAllExtends(c: Codec, st: Store, more: Store, ds: set<Bytes>)
    requires HoldsAll(c, st, ds) && Extends(st, more)
    ensures HoldsAll(c, more, ds)
  {
  }

  function Height(t: Tree): nat
    decreases t, 1
  {
    KidsHeight(t.kids)
  }

  /** One more than the highest kid, zero without kids. */
  function KidsHeight(kids: seq<Kid>): nat
    decreases kids, 0
  {
    if kids == [] then 0
    else
      var h, rest := Height(kids[0].tree) + 1, KidsHeight(kids[1..]);
      if h > rest then h else rest
  }

  /** A held tree can be fetched and parsed back, link by link. */
  lemma HeldParses(c: Codec, st: Store, t: Tree)
    requires Lawful(c) && HoldsAll(c, st, AllData(c, t))
    ensures Get(st, CidOf(c, t)) == Ok(Block(CidOf(c, t), DataOf(c, t)))
    ensures ParseBlock(c, Block(CidOf(c, t), DataOf(c, t))) == Ok(NodeOf(c, t))
    ensures HoldsAll(c, st, KidsData(c, t.kids))
  {
    assert DataOf(c, t) in AllData(c, t);
  }

  lemma KidsHeld(c: Codec, st: Store, kids: seq<Kid>)
    requires kids != [] && HoldsAll(c, st, KidsData(c, kids))
    ensures HoldsAll(c, st, AllData(c, kids[0].tree))
    ensures HoldsAll(c, st, KidsData(c, kids[1..]))
  {
  }

  // ----- reading

  /** The bytes a tree stands for. */
  function ReadTree(c: Codec, t: Tree): Result<Bytes>
    decreases t, 1
  {
    if t.kids == [] then
      match c.decodeInode(t.data)
      case None => Err(BadInode)
      case Some(Raw(d)) => Ok(d)
      case Some(Directory) => Err(IsDirectory)
    else
      ReadKids(c, t.kids)
  }

  function ReadKids(c: Codec, kids: seq<Kid>): Result<Bytes>
    decreases kids, 0
  {
    if kids == [] then Ok([])
    else
      var first :- ReadTree(c, kids[0].tree);
      var rest :- ReadKids(c, kids[1..]);
      Ok(first + rest)
  }

  /** Reads a node from the store. `fuel` bounds the depth of the recursion; by
      `ReadStable` it never shows in an answer other than `OutOfFuel`. */
  function ReadBytes(c: Codec, st: Store, n: Node, fuel: nat): Result<Bytes>
    decreases fuel, |n.attr.links| + 1
  {
    if n.attr.links == [] then
      match c.decodeInode(n.attr.data)
      case None => Err(BadInode)
      case Some(Raw(d)) => Ok(d)
      case Some(Directory) => Err(IsDirectory)
    else
      ReadLinks(c, st, n.attr.links, fuel)
  }

  function ReadLinks(c: Codec, st: Store, links: seq<Link>, fuel: nat): Result<Bytes>
    decreases fuel, |links|
  {
    if links == [] then Ok([])
    else if fuel == 0 then Err(OutOfFuel)
    else
      var b :- Get(st, links[0].cid);
      var m :- ParseBlock(c, b);
      var chunk :- ReadBytes(c, st, m, fuel - 1);
      var rest :- ReadLinks(c, st, links[1..], fuel);
      Ok(chunk + rest)
  }

  lemma {:induction false} ReadStable(c: Codec, st: Store, n: Node, fuel: nat, more: nat)
    requires fuel <= more && ReadBytes(c, st, n, fuel) != Err(OutOfFuel)
    ensures ReadBytes(c, st, n, more) == ReadBytes(c, st, n, fuel)
    decreases fuel, |n.attr.links| + 1
  {
    if n.attr.links != [] {
      ReadLinksStable(c, st, n.attr.links, fuel, more);
    }
  }

  lemma {:induction false} ReadLinksStable(c: Codec, st: Store, links: seq<Link>, fuel: nat, more: nat)
    requires fuel <= more && ReadLinks(c, st, links, fuel) != Err(OutOfFuel)
    ensures ReadLinks(c, st, links, more) == ReadLinks(c, st, links, fuel)
    decreases fuel, |links|
  {
    if links != [] {
      var b := Get(st, links[0].cid);
      if b.Ok? && ParseBlock(c, b.value).Ok? {
        var m := ParseBlock(c, b.value).value;
        ReadStable(c, st, m, fuel - 1, more - 1);
        if ReadBytes(c, st, m, fuel - 1).Ok? {
          ReadLinksStable(c, st, links[1..], fuel, more);
        }
      }
    }
  }

  /** Reading a held tree from the store gives what the tree stands for. */
  lemma {:induction false} ReadHeld(c: Codec, st: Store, t: Tree, fuel: nat)
    requires Lawful(c) && HoldsAll(c, st, KidsData(c, t.kids)) && fuel >= Height(t)
    ensures ReadBytes(c, st, NodeOf(c, t), fuel) == ReadTree(c, t)
    decreases t, 1
  {
    if t.kids != [] {
      ReadKidsHeld(c, st, t.kids, fuel);
    }
  }

  lemma {:induction false} ReadKidsHeld(c: Codec, st: Store, kids: seq<Kid>, fuel: nat)
    requires Lawful(c) && HoldsAll(c, st, KidsData(c, kids)) && fuel >= KidsHeight(kids)
    ensures ReadLinks(c, st, LinksOf(c, kids), fuel) == ReadKids(c, kids)
    decreases kids, 0
  {
    if kids != [] {
      var t := kids[0].tree;
      KidsHeld(c, st, kids);
      HeldParses(c, st, t);
      ReadHeld(c, st, t, fuel - 1);
      ReadKidsHeld(c, st, kids[1..], fuel);
      assert LinksOf(c, kids)[1..] == LinksOf(c, kids[1..]);
    }
  }

  /** Growing the store does not change what could be read. */
  lemma {:induction false} ReadExtends(c: Codec, st: Store, more: Store, n: Node, fuel: nat)
    requires Extends(st, more) && ReadBytes(c, st, n, fuel).Ok?
    ensures ReadBytes(c, more, n, fuel) == ReadBytes(c, st, n, fuel)
    decreases fuel, |n.attr.links| + 1
  {
    if n.attr.links != [] {
      ReadLinksExtends(c, st, more, n.attr.links, fuel);
    }
  }

  lemma {:induction false} ReadLinksExtends(c: Codec, st: Store, more: Store, links: seq<Link>, fuel: nat)
    requires Extends(st, more) && ReadLinks(c, st, links, fuel).Ok?
    ensures ReadLinks(c, more, links, fuel) == ReadLinks(c, st, links, fuel)
    decreases fuel, |links|
  {
    if links != [] {
      var b := Get(st, links[0].cid).value;
      ReadExtends(c, st, more, ParseBlock(c, b).value, fuel - 1);
      ReadLinksExtends(c, st, more, links[1..], fuel);
    }
  }

  // ----- paths

  /** The first kid of that name, or the number of kids. */
  function KidAt(kids: seq<Kid>, name: string): (i: nat)
    ensures i <= |kids|
    ensures i < |kids| ==> kids[i].name == name
    ensures forall j :: 0 <= j < i ==> kids[j].name != name
  {
    if kids == [] || kids[0].name == name then 0 else 1 + KidAt(kids[1..], name)
  }

  function Subtree(t: Tree, parts: seq<string>): Option<Tree>
    decreases |parts|
  {
    if parts == [] then Some(t)
    else
      var i := KidAt(t.kids, parts[0]);
      if i < |t.kids| then Subtree(t.kids[i].tree, parts[1..]) else None
  }

  function LinkAt(links: seq<Link>, name: string): (i: nat)
    ensures i <= |links|
    ensures i < |links| ==> links[i].name == name
    ensures forall j :: 0 <= j < i ==> links[j].name != name
  {
    if links == [] || links[0].name == name then 0 else 1 + LinkAt(links[1..], name)
  }

  function ResolveParts(c: Codec, st: Store, cid: Cid, parts: seq<string>): Result<Node>
    decreases |parts|
  {
    var b :- Get(st, cid);
    var n :- ParseBlock(c, b);
    if parts == [] then Ok(n)
    else
      var i := LinkAt(n.attr.links, parts[0]);
      if i < |n.attr.links| then ResolveParts(c, st, n.attr.links[i].cid, parts[1..]) else Err(InvalidPath)
  }

  lemma {:induction false} LinksAtKids(c: Codec, kids: seq<Kid>, name: string)
    ensures LinkAt(LinksOf(c, kids), name) == KidAt(kids, name)
    ensures forall i :: 0 <= i < |kids| ==> LinksOf(c, kids)[i] == Link(kids[i].name, CidOf(c, kids[i].tree))
  {
    if kids != [] {
      LinksAtKids(c, kids[1..], name);
      assert LinksOf(c, kids)[1..] == LinksOf(c, kids[1..]);
    }
  }

  lemma {:induction false} KidHeld(c: Codec, st: Store, kids: seq<Kid>, i: nat)
    requires HoldsAll(c, st, KidsData(c, kids)) && i < |kids|
    ensures HoldsAll(c, st, AllData(c, kids[i].tree))
  {
    KidsHeld(c, st, kids);
    if i > 0 {
      KidHeld(c, st, kids[1..], i - 1);
    }
  }

  /** Resolving a path in a held tree leads to the node of the subtree there, or
      fails when the tree has no such path. */
  lemma {:induction false} ResolveHeld(c: Codec, st: Store, t: Tree, parts: seq<string>)
    requires Lawful(c) && HoldsAll(c, st, AllData(c, t))
    ensures ResolveParts(c, st, CidOf(c, t), parts) ==
            match Subtree(t, parts) case None => Err(InvalidPath) case Some(s) => Ok(NodeOf(c, s))
    ensures Subtree(t, parts).Some? ==> HoldsAll(c, st, AllData(c, Subtree(t, parts).value))
    decreases |parts|
  {
    HeldParses(c, st, t);
    if parts != [] {
      LinksAtKids(c, t.kids, parts[0]);
      var i := KidAt(t.kids, parts[0]);
      if i < |t.kids| {
        KidHeld(c, st, t.kids, i);
        ResolveHeld(c, st, t.kids[i].tree, parts[1..]);
      }
    }
  }

  // ----- DAG listings

  /** The CIDs of a tree in pre-order, one entry a node. */
  function DagList(c: Codec, t: Tree): seq<Cid>
    decreases t, 1
  {
    [CidOf(c, t)] + KidsList(c, t.kids)
  }

  function KidsList(c: Codec, kids: seq<Kid>): seq<Cid>
    decreases kids, 0
  {
    if kids == [] then [] else DagList(c, kids[0].tree) + KidsList(c, kids[1..])
  }

  function DagSize(c: Codec, t: Tree): nat
    decreases t, 1
  {
    |DataOf(c, t)| + KidsSize(c, t.kids)
  }

  function KidsSize(c: Codec, kids: seq<Kid>): nat
    decreases kids, 0
  {
    if kids == [] then 0 else DagSize(c, kids[0].tree) + KidsSize(c, kids[1..])
  }

  /** Lists the blocks below `id` and their total size; `fuel` as in
      `ReadBytes`. */
  function Dag(c: Codec, st: Store, id: Cid, fuel: nat): Result<(seq<Cid>, nat)>
    decreases fuel, 0
  {
    if fuel == 0 then Err(OutOfFuel)
    else
      var b :- Get(st, id);
      var m :- ParseBlock(c, b);
      var below :- DagLinks(c, st, m.attr.links, fuel - 1);
      Ok(([id] + below.0, |b.data| + below.1))
  }

  function DagLinks(c: Codec, st: Store, links: seq<Link>, fuel: nat): Result<(seq<Cid>, nat)>
    decreases fuel, |links| + 1
  {
    if links == [] then Ok(([], 0))
    else
      var first :- Dag(c, st, links[0].cid, fuel);
      var rest :- DagLinks(c, st, links[1..], fuel);
      Ok((first.0 + rest.0, first.1 + rest.1))
  }

  /** The DAG of a held tree lists its CIDs in pre-order. */
  lemma {:induction false} DagHeld(c: Codec, st: Store, t: Tree, fuel: nat)
    requires Lawful(c) && HoldsAll(c, st, AllData(c, t)) && fuel > Height(t)
    ensures Dag(c, st, CidOf(c, t), fuel) == Ok((DagList(c, t), DagSize(c, t)))
    decreases t, 1
  {
    HeldParses(c, st, t);
    DagKidsHeld(c, st, t.kids, fuel - 1);
  }

  lemma {:induction false} DagKidsHeld(c: Codec, st: Store, kids: seq<Kid>, fuel: nat)
    requires Lawful(c) && HoldsAll(c, st, KidsData(c, kids)) && fuel >= KidsHeight(kids)
    ensures DagLinks(c, st, LinksOf(c, kids), fuel) == Ok((KidsList(c, kids), KidsSize(c, kids)))
    decreases kids, 0
  {
    if kids != [] {
      KidsHeld(c, st, kids);
      DagHeld(c, st, kids[0].tree, fuel);
      DagKidsHeld(c, st, kids[1..], fuel);
      assert LinksOf(c, kids)[1..] == LinksOf(c, kids[1..]);
    }
  }

  // ----- stores that agree on a DAG

  /** `local` holds each of `cids` as `remote` does. */
  ghost predicate Agrees(remote: Store, local: Store, cids: seq<Cid>) {
    forall x :: x in cids ==> x in remote && x in local && local[x] == remote[x]
  }

  /** Reading below links looks at no more than the blocks their DAG lists. */
  lemma {:induction false} ReadLinksAgree(c: Codec, remote: Store, local: Store, links: seq<Link>, fuel: nat,
                                          depth: nat)
    requires DagLinks(c, remote, links, depth).Ok?
    requires Agrees(remote, local, DagLinks(c, remote, links, depth).value.0)
    ensures ReadLinks(c, local, links, fuel) == ReadLinks(c, remote, links, fuel)
    decreases depth, |links|
  {
    if links != [] && fuel > 0 {
      var cid := links[0].cid;
      var first, rest := Dag(c, remote, cid, depth).value.0, DagLinks(c, remote, links[1..], depth).value.0;
      assert Agrees(remote, local, first + rest);
      assert forall x :: x in first || x in rest ==> x in first + rest;
      assert first[0] == cid;
      var m := ParseBlock(c, Block(cid, remote[cid])).value;
      var below := DagLinks(c, remote, m.attr.links, depth - 1).value.0;
      assert forall x :: x in below ==> x in [cid] + below;
      ReadLinksAgree(c, remote, local, m.attr.links, fuel - 1, depth - 1);
      ReadLinksAgree(c, remote, local, links[1..], fuel, depth);
      assert Get(local, cid) == Get(remote, cid);
      assert ReadBytes(c, local, m, fuel - 1) == ReadBytes(c, remote, m, fuel - 1);
      hide Dag, DagLinks, Agrees, ParseBlock, Get;
    }
  }

  lemma {:induction false} LinkListed(c: Codec, remote: Store, links: seq<Link>, depth: nat, i: nat)
    requires i < |links| && DagLinks(c, remote, links, depth).Ok?
    ensures Dag(c, remote, links[i].cid, depth).Ok?
    ensures forall x :: x in Dag(c, remote, links[i].cid, depth).value.0 ==>
              x in DagLinks(c, remote, links, depth).value.0
    decreases i
  {
    if i > 0 {
      LinkListed(c, remote, links[1..], depth, i - 1);
    }
  }

  /** So does resolving a path, and what it leads to can be read alike. */
  lemma {:induction false} ResolveAgrees(c: Codec, remote: Store, local: Store, cid: Cid, parts: seq<string>,
                                         fuel: nat, depth: nat)
    requires Dag(c, remote, cid, depth).Ok?
    requires Agrees(remote, local, Dag(c, remote, cid, depth).value.0)
    ensures ResolveParts(c, local, cid, parts) == ResolveParts(c, remote, cid, parts)
    ensures ResolveParts(c, remote, cid, parts).Ok? ==>
              var n := ResolveParts(c, remote, cid, parts).value;
              ReadBytes(c, local, n, fuel) == ReadBytes(c, remote, n, fuel)
    decreases |parts|
  {
    var all := Dag(c, remote, cid, depth).value.0;
    assert all[0] == cid;
    var m := ParseBlock(c, Block(cid, remote[cid])).value;
    var below := DagLinks(c, remote, m.attr.links, depth - 1).value.0;
    assert all == [cid] + below;
    assert forall x :: x in below ==> x in all;
    ReadLinksAgree(c, remote, local, m.attr.links, fuel, depth - 1);
    if parts != [] {
      var i := LinkAt(m.attr.links, parts[0]);
      if i < |m.attr.links| {
        LinkListed(c, remote, m.attr.links, depth - 1, i);
        ResolveAgrees(c, remote, local, m.attr.links[i].cid, parts[1..], fuel, depth - 1);
      }
    }
  }
}
