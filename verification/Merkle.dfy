/** Merkle nodes, blocks and the block store (merkle/node.go, store/block.go,
    store/store.go). The JSON codec and the hash are parameters. */
module Merkle {
  import opened Keys
  import opened Ranking
  import opened PeerRecords

  type Bytes = seq<Byte>
  type Cid = string

  const MAX_BLOCK_SIZE: nat := 5 * 1024 * 1024

  /** Characters of a CID: base32 of a 32-byte digest. */
  const CID_LEN: nat := 52

  datatype Error =
    | NotStored
    | BadNode
    | BadInode
    | IsDirectory
    | BlockTooBig
    | InvalidPath
    | Refused
    | OutOfFuel

  datatype Result<+T> = Ok(value: T) | Err(error: Error) {
    predicate IsFailure() {
      Err?
    }

    function PropagateFailure<U>(): Result<U>
      requires Err?
    {
      Err(error)
    }

    function Extract(): T
      requires Ok?
    {
      value
    }
  }

  datatype Link = Link(name: string, cid: Cid)

  datatype Attributes = Attributes(links: seq<Link>, data: Bytes)

  datatype Inode = Raw(data: Bytes) | Directory

  datatype Block = Block(cid: Cid, data: Bytes)

  datatype Node = Node(attr: Attributes, block: Block)

  // ----- codec

  datatype Codec = Codec(
    encodeNode: Attributes -> Bytes,
    decodeNode: Bytes -> Option<Attributes>,
    encodeInode: Inode -> Bytes,
    decodeInode: Bytes -> Option<Inode>,
    hash: Bytes -> Cid)

  /** Length of padded base64 (section 4 of RFC 4648). */
  function Base64Length(n: nat): nat {
    (n + 2) / 3 * 4
  }

  /** Bound on the JSON of a raw inode: its frame and the base64 of the data. */
  function RawBound(n: nat): nat {
    22 + Base64Length(n)
  }

  /** Bound on the JSON of links: each has a frame and a comma, a name of up to
      six bytes a character, and a CID, escaped likewise. */
  function LinksBound(links: seq<Link>): nat {
    if links == [] then 0
    else LinksBound(links[..|links| - 1]) + 21 + 6 * |links[|links| - 1].name| + 6 * |links[|links| - 1].cid|
  }

  function NodeBound(a: Attributes): nat {
    24 + Base64Length(|a.data|) + LinksBound(a.links)
  }

  /** Decoding inverts encoding, no inode is empty, the encodings are as short as
      JSON makes them, and CIDs are base32 text. */
  ghost predicate Lawful(c: Codec) {
    && (forall a :: c.decodeNode(c.encodeNode(a)) == Some(a))
    && (forall i :: c.decodeInode(c.encodeInode(i)) == Some(i))
    && c.decodeInode([]) == None
    && (forall a :: |c.encodeNode(a)| <= NodeBound(a))
    && (forall d :: |c.encodeInode(Raw(d))| <= RawBound(|d|))
    && (forall d :: |c.hash(d)| == CID_LEN && '/' !in c.hash(d))
  }

  // ----- blocks and nodes

  function NewBlock(c: Codec, data: Bytes): (r: Result<Block>)
    ensures r.Err? <==> |data| > MAX_BLOCK_SIZE
    ensures r.Ok? ==> BlockValid(c, r.value)
  {
    if |data| > MAX_BLOCK_SIZE then Err(BlockTooBig) else Ok(Block(c.hash(data), data))
  }

  predicate BlockValid(c: Codec, b: Block) {
    c.hash(b.data) == b.cid
  }

  function ParseBlock(c: Codec, b: Block): Result<Node> {
    match c.decodeNode(b.data)
    case None => Err(BadNode)
    case Some(attr) => Ok(Node(attr, b))
  }

  function Build(c: Codec, attr: Attributes): Result<Node> {
    var block :- NewBlock(c, c.encodeNode(attr));
    Ok(Node(attr, block))
  }

  /** A node that builds is valid, and is what its own block parses to. */
  lemma BuildParses(c: Codec, attr: Attributes)
    requires Lawful(c)
    ensures Build(c, attr).Ok? <==> |c.encodeNode(attr)| <= MAX_BLOCK_SIZE
    ensures Build(c, attr).Ok? ==>
              var n := Build(c, attr).value;
              n.attr == attr && BlockValid(c, n.block) && ParseBlock(c, n.block) == Ok(n)
  {
  }

  class NodeBuilder {
    var attr: Attributes

    constructor ()
      ensures attr == Attributes([], [])
    {
      attr := Attributes([], []);
    }

    method SetData(data: Bytes)
      modifies this
      ensures attr == old(attr).(data := data)
    {
      attr := attr.(data := data);
    }

    method AddLink(name: string, n: Node)
      modifies this
      ensures attr == old(attr).(links := old(attr.links) + [Link(name, n.block.cid)])
    {
      attr := attr.(links := attr.links + [Link(name, n.block.cid)]);
    }

    method Reset()
      modifies this
      ensures attr == Attributes([], [])
    {
      attr := Attributes([], []);
    }

    method BuildNode(c: Codec) returns (r: Result<Node>)
      ensures r == Build(c, attr)
    {
      r := Build(c, attr);
    }
  }

  // ----- the store

  type Store = map<Cid, Bytes>

  function Get(st: Store, cid: Cid): Result<Block> {
    if cid in st then Ok(Block(cid, st[cid])) else Err(NotStored)
  }

  function Put(st: Store, b: Block): Store {
    st[b.cid := b.data]
  }

  /** Puts the blocks holding `ds`, in order. */
  function PutAll(c: Codec, st: Store, ds: seq<Bytes>): Store {
    if ds == [] then st
    else
      var d := ds[|ds| - 1];
      Put(PutAll(c, st, ds[..|ds| - 1]), Block(c.hash(d), d))
  }

  lemma {:induction false} PutAllJoin(c: Codec, st: Store, ds: seq<Bytes>, es: seq<Bytes>)
    ensures PutAll(c, st, ds + es) == PutAll(c, PutAll(c, st, ds), es)
  {
    if es == [] {
      assert ds + es == ds;
    } else {
      assert (ds + es)[..|ds + es| - 1] == ds + es[..|es| - 1];
      PutAllJoin(c, st, ds, es[..|es| - 1]);
    }
  }

  ghost predicate ContentAddressed(c: Codec, st: Store) {
    forall cid :: cid in st ==> c.hash(st[cid]) == cid
  }

  ghost predicate CollisionFree(c: Codec, ds: set<Bytes>) {
    forall x, y :: x in ds && y in ds && c.hash(x) == c.hash(y) ==> x == y
  }

  ghost predicate Extends(st: Store, more: Store) {
    forall cid :: cid in st ==> cid in more && more[cid] == st[cid]
  }

  predicate Holds(c: Codec, st: Store, d: Bytes) {
    c.hash(d) in st && st[c.hash(d)] == d
  }

  lemma PutGrows(c: Codec, st: Store, d: Bytes, inPlay: set<Bytes>)
    requires ContentAddressed(c, st) && st.Values <= inPlay && d in inPlay && CollisionFree(c, inPlay)
    ensures var more := Put(st, Block(c.hash(d), d));
            ContentAddressed(c, more) && Extends(st, more) && more.Values <= inPlay && Holds(c, more, d)
  {
    var more := Put(st, Block(c.hash(d), d));
    forall cid | cid in st
      ensures more[cid] == st[cid]
    {
      assert st[cid] in st.Values;
    }
    forall v | v in more.Values
      ensures v in inPlay
    {
      var cid :| cid in more && more[cid] == v;
      assert cid != c.hash(d) ==> st[cid] in st.Values;
    }
  }

  lemma ExtendsTransitive(a: Store, b: Store, d: Store)
    requires Extends(a, b) && Extends(b, d)
    ensures Extends(a, d)
  {
  }

  /** Without collisions among the blocks in play, puts never change an entry:
      the store only grows, stays content-addressed, and holds all that was put. */
  lemma {:induction false} PutAllGrows(c: Codec, st: Store, ds: seq<Bytes>, inPlay: set<Bytes>)
    requires ContentAddressed(c, st) && CollisionFree(c, inPlay)
    requires st.Values <= inPlay && Elems(ds) <= inPlay
    ensures var more := PutAll(c, st, ds);
            && ContentAddressed(c, more) && Extends(st, more) && more.Values <= inPlay
            && forall d :: d in ds ==> Holds(c, more, d)
  {
    if ds != [] {
      var front, d := ds[..|ds| - 1], ds[|ds| - 1];
      assert ds == front + [d];
      assert d in Elems(ds);
      assert Elems(front) <= inPlay by {
        assert forall x :: x in front ==> x in Elems(ds);
      }
      hide ContentAddressed, CollisionFree;
      PutAllGrows(c, st, front, inPlay);
      PutGrows(c, PutAll(c, st, front), d, inPlay);
      ExtendsTransitive(st, PutAll(c, st, front), PutAll(c, st, ds));
    }
  }
}
