/** The trees that files are stored as: chunks, grouped fifteen at a time until
    one root is left (fs/fs.go). */
module FileTrees {
  import opened Keys
  import opened Ranking
  import opened Merkle
  import opened Trees

  const NUM_CHILDREN: nat := 15

  const CHUNK_SIZE: nat := 256 * 1024

  // ----- chunking

  function Chunks<T>(xs: seq<T>, size: nat): seq<seq<T>>
    requires size >= 1
    decreases |xs|
  {
    if |xs| <= size then [xs] else [xs[..size]] + Chunks(xs[size..], size)
  }

  function Flatten<T>(xss: seq<seq<T>>): seq<T> {
    if xss == [] then [] else xss[0] + Flatten(xss[1..])
  }

  /** Rounded-up quotient. */
  function CeilDiv(n: nat, size: nat): nat
    requires size >= 1
  {
    (n + size - 1) / size
  }

  lemma CeilDivStep(n: nat, size: nat)
    requires size >= 1 && n > size
    ensures CeilDiv(n, size) == 1 + CeilDiv(n - size, size)
    ensures size >= 2 ==> 1 <= CeilDiv(n, size) < n
  {
    var q := CeilDiv(n - size, size);
    DivStep(n - size + size - 1, size);
    if size >= 2 {
      DivLess(n, size);
    }
  }

  lemma DivStep(a: nat, d: nat)
    requires d >= 1
    ensures (a + d) / d == 1 + a / d
  {
    var q, r := a / d, a % d;
    assert a + d == (q + 1) * d + r;
    DivUnique(a + d, d, q + 1, r);
  }

  lemma DivLess(n: nat, size: nat)
    requires size >= 2 && n > size
    ensures 1 <= CeilDiv(n, size) < n
  {
    var a := n + size - 1;
    var q, r := a / size, a % size;
    assert a == q * size + r;
    if q >= n {
      MulMono(n, q, size);
      assert n * size == n + n * (size - 1);
      MulMono(1, n, size - 1);
      MulMono(2, n, size - 1);
    }
  }

  lemma {:induction false} ChunksFacts<T>(xs: seq<T>, size: nat)
    requires size >= 1
    ensures Flatten(Chunks(xs, size)) == xs
    ensures |Chunks(xs, size)| == if xs == [] then 1 else CeilDiv(|xs|, size)
    ensures forall i :: 0 <= i < |Chunks(xs, size)| ==> |Chunks(xs, size)[i]| <= size
    ensures xs != [] ==> forall i :: 0 <= i < |Chunks(xs, size)| ==> Chunks(xs, size)[i] != []
    decreases |xs|
  {
    if |xs| <= size {
      assert Flatten([xs]) == xs + Flatten([]) by {
        assert [xs][1..] == [];
      }
      if xs != [] {
        DivUnique(|xs| + size - 1, size, 1, |xs| - 1);
      }
    } else {
      var rest := Chunks(xs[size..], size);
      ChunksFacts(xs[size..], size);
      CeilDivStep(|xs|, size);
      assert ([xs[..size]] + rest)[1..] == rest;
    }
  }

  function Min(a: nat, b: nat): nat {
    if a < b then a else b
  }

  /** Chunk `i` starts at `i * size`, and only the last can be short. */
  lemma {:induction false} ChunkAt<T>(xs: seq<T>, size: nat, i: nat)
    requires size >= 1 && i < |Chunks(xs, size)|
    ensures ChunkOf(xs, size, i, Chunks(xs, size)[i])
    ensures i + 1 < |Chunks(xs, size)| ==> |Chunks(xs, size)[i]| == size
    decreases |xs|
  {
    if size < |xs| && i > 0 {
      var rest := xs[size..];
      ChunkAt(rest, size, i - 1);
      Distribute(i - 1, 1, size);
      assert Chunks(xs, size)[i] == Chunks(rest, size)[i - 1];
      assert rest[(i - 1) * size..] == xs[i * size..];
    }
  }

  /** All chunks at once. */
  lemma ChunksAt<T>(xs: seq<T>, size: nat)
    requires size >= 1
    ensures forall i :: 0 <= i < |Chunks(xs, size)| ==> ChunkOf(xs, size, i, Chunks(xs, size)[i])
    ensures forall i :: 0 <= i < |Chunks(xs, size)| - 1 ==> |Chunks(xs, size)[i]| == size
  {
    forall i | 0 <= i < |Chunks(xs, size)|
      ensures ChunkOf(xs, size, i, Chunks(xs, size)[i])
      ensures i < |Chunks(xs, size)| - 1 ==> |Chunks(xs, size)[i]| == size
    {
      ChunkAt(xs, size, i);
    }
  }

  /** `chunk` is what lies from `i * size` on, up to `size` of it. */
  predicate ChunkOf<T(==)>(xs: seq<T>, size: nat, i: nat, chunk: seq<T>) {
    i * size <= |xs| && chunk == xs[i * size..][..Min(size, |xs| - i * size)]
  }

  method ComputeChunks<T>(xs: seq<T>, size: nat) returns (chunks: seq<seq<T>>)
    requires size >= 1
    ensures chunks == Chunks(xs, size)
    ensures forall i :: 0 <= i < |chunks| ==> ChunkOf(xs, size, i, chunks[i])
    ensures |chunks| == if xs == [] then 1 else CeilDiv(|xs|, size)
  {
    chunks := [];
    var left := xs;
    while size < |left|
      invariant chunks + Chunks(left, size) == Chunks(xs, size)
      decreases |left|
    {
      assert chunks + ([left[..size]] + Chunks(left[size..], size))
          == chunks + [left[..size]] + Chunks(left[size..], size);
      left, chunks := left[size..], chunks + [left[..size]];
    }
    chunks := chunks + [left];
    ChunksFacts(xs, size);
    ChunksAt(xs, size);
  }

  // ----- the tree of a file

  function Leaf(c: Codec, chunk: Bytes): Tree {
    Tree(c.encodeInode(Raw(chunk)), [])
  }

  function Leaves(c: Codec, chunks: seq<Bytes>): (ts: seq<Tree>)
    ensures |ts| == |chunks|
    ensures forall i :: 0 <= i < |chunks| ==> ts[i] == Leaf(c, chunks[i])
  {
    if chunks == [] then [] else Leaves(c, chunks[..|chunks| - 1]) + [Leaf(c, chunks[|chunks| - 1])]
  }

  function Unnamed(ts: seq<Tree>): (kids: seq<Kid>)
    ensures |kids| == |ts|
    ensures forall i :: 0 <= i < |ts| ==> kids[i] == Kid("", ts[i])
  {
    if ts == [] then [] else Unnamed(ts[..|ts| - 1]) + [Kid("", ts[|ts| - 1])]
  }

  /** A parent node over the trees of one chunk. */
  function Group(ts: seq<Tree>): Tree {
    Tree([], Unnamed(ts))
  }

  function Groups(tss: seq<seq<Tree>>): (ps: seq<Tree>)
    ensures |ps| == |tss|
    ensures forall i :: 0 <= i < |tss| ==> ps[i] == Group(tss[i])
  {
    if tss == [] then [] else Groups(tss[..|tss| - 1]) + [Group(tss[|tss| - 1])]
  }

  function Parents(ts: seq<Tree>): seq<Tree> {
    Groups(Chunks(ts, NUM_CHILDREN))
  }

  /** A level of two or more trees has fewer parents than members. */
  lemma ParentsShrink(ts: seq<Tree>)
    requires |ts| >= 2
    ensures |Parents(ts)| == CeilDiv(|ts|, NUM_CHILDREN)
    ensures 1 <= |Parents(ts)| < |ts|
  {
    ChunksFacts(ts, NUM_CHILDREN);
    if |ts| > NUM_CHILDREN {
      DivLess(|ts|, NUM_CHILDREN);
    } else {
      DivUnique(|ts| + NUM_CHILDREN - 1, NUM_CHILDREN, 1, |ts| - 1);
    }
  }

  function Root(ts: seq<Tree>): Tree
    requires ts != []
    decreases |ts|
  {
    if |ts| == 1 then ts[0]
    else
      ParentsShrink(ts);
      Root(Parents(ts))
  }

  function FileTree(c: Codec, bytes: Bytes): Tree {
    ChunksFacts(bytes, CHUNK_SIZE);
    Root(Leaves(c, Chunks(bytes, CHUNK_SIZE)))
  }

  // ----- reading it back

  function ReadAll(c: Codec, ts: seq<Tree>): Result<Bytes> {
    if ts == [] then Ok([])
    else
      var first :- ReadTree(c, ts[0]);
      var rest :- ReadAll(c, ts[1..]);
      Ok(first + rest)
  }

  lemma {:induction false} ReadAllIsKids(c: Codec, ts: seq<Tree>)
    ensures ReadKids(c, Unnamed(ts)) == ReadAll(c, ts)
  {
    if ts != [] {
      ReadAllIsKids(c, ts[1..]);
      assert Unnamed(ts)[1..] == Unnamed(ts[1..]);
    }
  }

  lemma {:induction false} ReadGroups(c: Codec, tss: seq<seq<Tree>>)
    requires forall i :: 0 <= i < |tss| ==> tss[i] != []
    requires ReadAll(c, Flatten(tss)).Ok?
    ensures ReadAll(c, Groups(tss)) == ReadAll(c, Flatten(tss))
  {
    if tss != [] {
      assert Groups(tss)[1..] == Groups(tss[1..]);
      ReadAllSplit(c, tss[0], Flatten(tss[1..]));
      ReadGroups(c, tss[1..]);
      ReadAllIsKids(c, tss[0]);
    }
  }

  lemma {:induction false} ReadAllSplit(c: Codec, ts: seq<Tree>, us: seq<Tree>)
    requires ReadAll(c, ts + us).Ok?
    ensures ReadAll(c, ts).Ok? && ReadAll(c, us).Ok?
    ensures ReadAll(c, ts + us).value == ReadAll(c, ts).value + ReadAll(c, us).value
  {
    if ts == [] {
      assert ts + us == us;
    } else {
      assert (ts + us)[1..] == ts[1..] + us;
      ReadAllSplit(c, ts[1..], us);
    }
  }

  lemma {:induction false} ReadLeaves(c: Codec, chunks: seq<Bytes>)
    requires Lawful(c)
    ensures ReadAll(c, Leaves(c, chunks)) == Ok(Flatten(chunks))
  {
    if chunks != [] {
      assert Leaves(c, chunks)[1..] == Leaves(c, chunks[1..]);
      ReadLeaves(c, chunks[1..]);
    }
  }

  lemma {:induction false} ReadRoot(c: Codec, ts: seq<Tree>)
    requires ts != [] && ReadAll(c, ts).Ok?
    ensures ReadTree(c, Root(ts)) == ReadAll(c, ts)
    decreases |ts|
  {
    if |ts| == 1 {
      assert ts[1..] == [];
      assert ReadTree(c, ts[0]).Ok?;
      assert ReadTree(c, ts[0]).value + [] == ReadTree(c, ts[0]).value;
    } else {
      ParentsShrink(ts);
      ChunksFacts(ts, NUM_CHILDREN);
      ReadGroups(c, Chunks(ts, NUM_CHILDREN));
      ReadRoot(c, Parents(ts));
    }
  }

  /** The tree of a file stands for the bytes of the file. */
  lemma FileReads(c: Codec, bytes: Bytes)
    requires Lawful(c)
    ensures ReadTree(c, FileTree(c, bytes)) == Ok(bytes)
  {
    ChunksFacts(bytes, CHUNK_SIZE);
    ReadLeaves(c, Chunks(bytes, CHUNK_SIZE));
    ReadRoot(c, Leaves(c, Chunks(bytes, CHUNK_SIZE)));
  }

  // ----- shape

  /** Levels of parents above `n` leaves. */
  function Levels(n: nat): nat
    requires n >= 1
    decreases n
  {
    if n == 1 then 0
    else
      ParentCount(n);
      1 + Levels(CeilDiv(n, NUM_CHILDREN))
  }

  lemma ParentCount(n: nat)
    requires n >= 2
    ensures 1 <= CeilDiv(n, NUM_CHILDREN) < n
  {
    if n > NUM_CHILDREN {
      DivLess(n, NUM_CHILDREN);
    } else {
      DivUnique(n + NUM_CHILDREN - 1, NUM_CHILDREN, 1, n - 1);
    }
  }

  /** Nodes of the tree over `n` leaves, all levels counted. */
  function NodeCount(n: nat): nat
    requires n >= 1
    decreases n
  {
    if n == 1 then 1
    else
      ParentCount(n);
      n + NodeCount(CeilDiv(n, NUM_CHILDREN))
  }

  lemma {:induction false} UnnamedHeight(ts: seq<Tree>, h: nat)
    requires ts != [] && forall t :: t in ts ==> Height(t) == h
    ensures KidsHeight(Unnamed(ts)) == h + 1
  {
    assert ts[0] in ts;
    assert Unnamed(ts)[1..] == Unnamed(ts[1..]);
    if |ts| > 1 {
      UnnamedHeight(ts[1..], h);
    }
  }

  lemma {:induction false} FlattenMembers<T>(xss: seq<seq<T>>, i: nat, x: T)
    requires i < |xss| && x in xss[i]
    ensures x in Flatten(xss)
  {
    if i > 0 {
      FlattenMembers(xss[1..], i - 1, x);
    }
  }

  lemma {:induction false} RootHeight(ts: seq<Tree>, h: nat)
    requires ts != [] && forall t :: t in ts ==> Height(t) == h
    ensures Height(Root(ts)) == h + Levels(|ts|)
    decreases |ts|
  {
    if |ts| == 1 {
      assert ts[0] in ts;
    } else {
      ParentsShrink(ts);
      var tss := Chunks(ts, NUM_CHILDREN);
      ChunksFacts(ts, NUM_CHILDREN);
      forall p | p in Parents(ts)
        ensures Height(p) == h + 1
      {
        var i :| 0 <= i < |tss| && Groups(tss)[i] == p;
        forall t | t in tss[i]
          ensures Height(t) == h
        {
          FlattenMembers(tss, i, t);
        }
        UnnamedHeight(tss[i], h);
      }
      RootHeight(Parents(ts), h + 1);
    }
  }

  function CountAll(c: Codec, ts: seq<Tree>): nat {
    if ts == [] then 0 else |DagList(c, ts[0])| + CountAll(c, ts[1..])
  }

  lemma {:induction false} CountKids(c: Codec, ts: seq<Tree>)
    ensures |KidsList(c, Unnamed(ts))| == CountAll(c, ts)
  {
    if ts != [] {
      CountKids(c, ts[1..]);
      assert Unnamed(ts)[1..] == Unnamed(ts[1..]);
    }
  }

  lemma {:induction false} CountJoin(c: Codec, ts: seq<Tree>, us: seq<Tree>)
    ensures CountAll(c, ts + us) == CountAll(c, ts) + CountAll(c, us)
  {
    if ts == [] {
      assert ts + us == us;
    } else {
      assert (ts + us)[1..] == ts[1..] + us;
      CountJoin(c, ts[1..], us);
    }
  }

  lemma {:induction false} CountGroups(c: Codec, tss: seq<seq<Tree>>)
    ensures CountAll(c, Groups(tss)) == |tss| + CountAll(c, Flatten(tss))
  {
    if tss != [] {
      assert Groups(tss)[1..] == Groups(tss[1..]);
      CountGroups(c, tss[1..]);
      CountJoin(c, tss[0], Flatten(tss[1..]));
      CountKids(c, tss[0]);
    }
  }

  lemma {:induction false} RootCount(c: Codec, ts: seq<Tree>)
    requires ts != []
    ensures |DagList(c, Root(ts))| + |ts| == CountAll(c, ts) + NodeCount(|ts|)
    decreases |ts|
  {
    if |ts| == 1 {
      assert CountAll(c, ts[1..]) == 0;
    } else {
      ParentsShrink(ts);
      ChunksFacts(ts, NUM_CHILDREN);
      CountGroups(c, Chunks(ts, NUM_CHILDREN));
      RootCount(c, Parents(ts));
    }
  }

  lemma {:induction false} LeafCounts(c: Codec, chunks: seq<Bytes>)
    ensures CountAll(c, Leaves(c, chunks)) == |chunks|
    ensures forall t :: t in Leaves(c, chunks) ==> Height(t) == 0
  {
    if chunks != [] {
      LeafCounts(c, chunks[1..]);
      assert KidsList(c, []) == [];
      assert Leaves(c, chunks)[1..] == Leaves(c, chunks[1..]);
    }
  }

  /** Chunks of a file: at least one. */
  function ChunkCount(n: nat): nat {
    if n == 0 then 1 else CeilDiv(n, CHUNK_SIZE)
  }

  /** The trees below `ts`, left to right. */
  function Below(ts: seq<Tree>): seq<Tree> {
    if ts == [] then [] else Kids(ts[0]) + Below(ts[1..])
  }

  function Kids(t: Tree): (ts: seq<Tree>)
    ensures |ts| == |t.kids| && forall i :: 0 <= i < |ts| ==> ts[i] == t.kids[i].tree
  {
    seq(|t.kids|, i requires 0 <= i < |t.kids| => t.kids[i].tree)
  }

  /** The level of `t` at depth `d`, left to right. */
  function LevelOf(t: Tree, d: nat): seq<Tree> {
    if d == 0 then [t] else Below(LevelOf(t, d - 1))
  }

  /** All but the last have fifteen links. */
  predicate FullButLast(ts: seq<Tree>) {
    forall i :: 0 <= i < |ts| - 1 ==> |ts[i].kids| == NUM_CHILDREN
  }

  lemma {:induction false} BelowGroups(tss: seq<seq<Tree>>)
    ensures Below(Groups(tss)) == Flatten(tss)
  {
    if tss != [] {
      BelowGroups(tss[1..]);
      assert Groups(tss)[1..] == Groups(tss[1..]);
      assert Kids(Group(tss[0])) == tss[0];
    }
  }

  /** The leaves make up the lowest level. */
  lemma {:induction false} RootLevel(ts: seq<Tree>)
    requires ts != []
    ensures LevelOf(Root(ts), Levels(|ts|)) == ts
    decreases |ts|
  {
    if |ts| > 1 {
      ParentsShrink(ts);
      RootLevel(Parents(ts));
      ChunksFacts(ts, NUM_CHILDREN);
      BelowGroups(Chunks(ts, NUM_CHILDREN));
      hide Below, Chunks, Flatten, Groups;
    } else {
      assert ts == [ts[0]];
    }
  }

  lemma ParentsFull(ts: seq<Tree>)
    ensures FullButLast(Parents(ts))
  {
    ChunksAt(ts, NUM_CHILDREN);
    hide Chunks;
  }

  lemma {:induction false} RootFull(ts: seq<Tree>, d: nat)
    requires ts != [] && d < Levels(|ts|)
    ensures FullButLast(LevelOf(Root(ts), d))
    decreases |ts|
  {
    ParentsShrink(ts);
    var ps := Parents(ts);
    hide FullButLast, Parents, LevelOf;
    if d < Levels(|ps|) {
      RootFull(ps, d);
    } else {
      RootLevel(ps);
      ParentsFull(ts);
    }
  }

  /** `h` levels of links, one to fifteen unnamed ones a node and no data, and
      below them the chunks. */
  ghost predicate Layered(c: Codec, t: Tree, h: nat) {
    if h == 0 then exists chunk :: |chunk| <= CHUNK_SIZE && t == Leaf(c, chunk)
    else
      && t.data == [] && 1 <= |t.kids| <= NUM_CHILDREN
      && forall i :: 0 <= i < |t.kids| ==> t.kids[i].name == "" && Layered(c, t.kids[i].tree, h - 1)
  }

  lemma {:induction false} RootLayered(c: Codec, ts: seq<Tree>, h: nat)
    requires ts != [] && forall t :: t in ts ==> Layered(c, t, h)
    ensures Layered(c, Root(ts), h + Levels(|ts|))
    decreases |ts|
  {
    hide Layered, Chunks;
    if |ts| == 1 {
      assert ts[0] in ts;
    } else {
      ParentsShrink(ts);
      ParentsLayered(c, ts, h);
      hide Parents;
      RootLayered(c, Parents(ts), h + 1);
    }
  }

  lemma ParentsLayered(c: Codec, ts: seq<Tree>, h: nat)
    requires ts != [] && forall t :: t in ts ==> Layered(c, t, h)
    ensures forall p :: p in Parents(ts) ==> Layered(c, p, h + 1)
  {
    var tss := Chunks(ts, NUM_CHILDREN);
    ChunksFacts(ts, NUM_CHILDREN);
    hide Layered, Chunks, Groups, Flatten, CeilDiv, Group;
    forall p | p in Parents(ts)
      ensures Layered(c, p, h + 1)
    {
      var i :| 0 <= i < |tss| && Groups(tss)[i] == p;
      forall t | t in tss[i]
        ensures Layered(c, t, h)
      {
        FlattenMembers(tss, i, t);
      }
      GroupLayered(c, tss[i], h);
    }
  }

  lemma GroupLayered(c: Codec, ts: seq<Tree>, h: nat)
    requires 1 <= |ts| <= NUM_CHILDREN && forall t :: t in ts ==> Layered(c, t, h)
    ensures Layered(c, Group(ts), h + 1)
  {
    assert forall i :: 0 <= i < |ts| ==> ts[i] in ts;
  }

  /** Leaf `i` holds the bytes from `i * CHUNK_SIZE` on, and there is none more. */
  ghost predicate LeavesHold(c: Codec, bytes: Bytes, leaves: seq<Tree>) {
    && |leaves| == ChunkCount(|bytes|)
    && forall i :: 0 <= i < |leaves| ==> LeafHolds(c, bytes, leaves[i], i)
  }

  ghost predicate LeafHolds(c: Codec, bytes: Bytes, t: Tree, i: nat) {
    exists chunk :: ChunkOf(bytes, CHUNK_SIZE, i, chunk) && t == Leaf(c, chunk)
  }

  /** The shape of a file tree: height and block count follow from the length
      alone; all chunks are at one depth, the file in order, and only the last can
      be short; every node above has one to fifteen links, and fifteen if it is
      not the last of its level. */
  lemma FileShape(c: Codec, bytes: Bytes)
    ensures ChunkCount(|bytes|) >= 1
    ensures Height(FileTree(c, bytes)) == Levels(ChunkCount(|bytes|))
    ensures |DagList(c, FileTree(c, bytes))| == NodeCount(ChunkCount(|bytes|))
    ensures Layered(c, FileTree(c, bytes), Levels(ChunkCount(|bytes|)))
    ensures forall d :: 0 <= d < Levels(ChunkCount(|bytes|)) ==> FullButLast(LevelOf(FileTree(c, bytes), d))
    ensures LeavesHold(c, bytes, LevelOf(FileTree(c, bytes), Levels(ChunkCount(|bytes|))))
  {
    hide Layered, Leaves, Chunks, Root, Levels, NodeCount, Height, DagList, FullButLast, LevelOf, LeavesHold;
    ChunksFacts(bytes, CHUNK_SIZE);
    LeavesShape(c, Chunks(bytes, CHUNK_SIZE));
    LeavesLevels(c, Chunks(bytes, CHUNK_SIZE));
    ChunksHeld(c, bytes);
  }

  lemma LeavesLevels(c: Codec, chunks: seq<Bytes>)
    requires chunks != []
    ensures LevelOf(Root(Leaves(c, chunks)), Levels(|chunks|)) == Leaves(c, chunks)
    ensures forall d :: 0 <= d < Levels(|chunks|) ==> FullButLast(LevelOf(Root(Leaves(c, chunks)), d))
  {
    hide FullButLast, LevelOf, Leaves, Root, Levels;
    RootLevel(Leaves(c, chunks));
    forall d | 0 <= d < Levels(|chunks|)
      ensures FullButLast(LevelOf(Root(Leaves(c, chunks)), d))
    {
      RootFull(Leaves(c, chunks), d);
    }
  }

  lemma ChunksHeld(c: Codec, bytes: Bytes)
    ensures LeavesHold(c, bytes, Leaves(c, Chunks(bytes, CHUNK_SIZE)))
  {
    hide Chunks, Leaves, ChunkOf, Leaf;
    ChunksFacts(bytes, CHUNK_SIZE);
    ChunksAt(bytes, CHUNK_SIZE);
    var chunks := Chunks(bytes, CHUNK_SIZE);
    var leaves := Leaves(c, chunks);
    assert |leaves| == ChunkCount(|bytes|);
    forall i | 0 <= i < |leaves|
      ensures LeafHolds(c, bytes, leaves[i], i)
    {
      assert ChunkOf(bytes, CHUNK_SIZE, i, chunks[i]) && leaves[i] == Leaf(c, chunks[i]);
    }
  }

  lemma LeavesShape(c: Codec, chunks: seq<Bytes>)
    requires chunks != [] && forall i :: 0 <= i < |chunks| ==> |chunks[i]| <= CHUNK_SIZE
    ensures var t := Root(Leaves(c, chunks));
            && Height(t) == Levels(|chunks|) && |DagList(c, t)| == NodeCount(|chunks|)
            && Layered(c, t, Levels(|chunks|))
  {
    hide Layered, Leaves, Root, Levels, NodeCount, Height, CountAll, DagList;
    var leaves := Leaves(c, chunks);
    LeafCounts(c, chunks);
    LeavesLayered(c, chunks);
    RootHeight(leaves, 0);
    RootCount(c, leaves);
    RootLayered(c, leaves, 0);
  }

  lemma LeavesLayered(c: Codec, chunks: seq<Bytes>)
    requires forall i :: 0 <= i < |chunks| ==> |chunks[i]| <= CHUNK_SIZE
    ensures forall t :: t in Leaves(c, chunks) ==> Layered(c, t, 0)
  {
    var leaves := Leaves(c, chunks);
    forall t | t in leaves
      ensures Layered(c, t, 0)
    {
      var i :| 0 <= i < |leaves| && leaves[i] == t;
      assert t == Leaf(c, chunks[i]);
    }
  }

  // ----- the blocks of a file

  function TreesData(c: Codec, ts: seq<Tree>): set<Bytes> {
    if ts == [] then {} else AllData(c, ts[0]) + TreesData(c, ts[1..])
  }

  function DatasOf(c: Codec, ts: seq<Tree>): (ds: seq<Bytes>)
    ensures |ds| == |ts|
    ensures forall i :: 0 <= i < |ts| ==> ds[i] == DataOf(c, ts[i])
  {
    if ts == [] then [] else DatasOf(c, ts[..|ts| - 1]) + [DataOf(c, ts[|ts| - 1])]
  }

  lemma {:induction false} TreesDataKids(c: Codec, ts: seq<Tree>)
    ensures KidsData(c, Unnamed(ts)) == TreesData(c, ts)
  {
    if ts != [] {
      TreesDataKids(c, ts[1..]);
      assert Unnamed(ts)[1..] == Unnamed(ts[1..]);
    }
  }

  lemma {:induction false} TreesDataJoin(c: Codec, ts: seq<Tree>, us: seq<Tree>)
    ensures TreesData(c, ts + us) == TreesData(c, ts) + TreesData(c, us)
  {
    if ts == [] {
      assert ts + us == us;
    } else {
      assert (ts + us)[1..] == ts[1..] + us;
      TreesDataJoin(c, ts[1..], us);
    }
  }

  lemma GroupData(c: Codec, ts: seq<Tree>)
    ensures AllData(c, Group(ts)) == {DataOf(c, Group(ts))} + TreesData(c, ts)
  {
    TreesDataKids(c, ts);
  }

  lemma DatasHead(c: Codec, ts: seq<Tree>)
    requires ts != []
    ensures Elems(DatasOf(c, ts)) == {DataOf(c, ts[0])} + Elems(DatasOf(c, ts[1..]))
  {
    var ds, rest := DatasOf(c, ts), DatasOf(c, ts[1..]);
    assert ds[0] == DataOf(c, ts[0]);
    assert forall i :: 0 <= i < |rest| ==> rest[i] == ds[i + 1];
    hide DatasOf, DataOf;
    HeadRest(ds, rest);
  }

  lemma HeadRest(ds: seq<Bytes>, rest: seq<Bytes>)
    requires ds != [] && |rest| == |ds| - 1 && forall i :: 0 <= i < |rest| ==> rest[i] == ds[i + 1]
    ensures Elems(ds) == {ds[0]} + Elems(rest)
  {
    assert ds == [ds[0]] + rest;
    ElemsJoin([ds[0]], rest);
  }

  /** Storing the parents of a level adds exactly their own blocks. */
  lemma {:induction false} GroupsData(c: Codec, tss: seq<seq<Tree>>)
    ensures TreesData(c, Groups(tss)) == TreesData(c, Flatten(tss)) + Elems(DatasOf(c, Groups(tss)))
  {
    if tss != [] {
      var ps := Groups(tss);
      assert ps[1..] == Groups(tss[1..]);
      GroupsData(c, tss[1..]);
      TreesDataJoin(c, tss[0], Flatten(tss[1..]));
      GroupData(c, tss[0]);
      DatasHead(c, ps);
      assert Flatten(tss) == tss[0] + Flatten(tss[1..]);
      assert TreesData(c, ps) == AllData(c, ps[0]) + TreesData(c, ps[1..]);
      hide TreesData, DatasOf, DataOf, AllData, Elems, Group, Groups;
    }
  }

  lemma ElemsJoin<T>(a: seq<T>, b: seq<T>)
    ensures Elems(a + b) == Elems(a) + Elems(b)
  {
  }

  lemma {:induction false} LeavesData(c: Codec, chunks: seq<Bytes>)
    ensures TreesData(c, Leaves(c, chunks)) == Elems(DatasOf(c, Leaves(c, chunks)))
  {
    if chunks != [] {
      var ts := Leaves(c, chunks);
      assert ts[1..] == Leaves(c, chunks[1..]);
      assert KidsData(c, []) == {};
      LeavesData(c, chunks[1..]);
      DatasHead(c, ts);
    }
  }

  // ----- sizes

  ghost predicate Fits(d: Bytes) {
    |d| <= MAX_BLOCK_SIZE
  }

  /** A leaf fits a block: base64 is applied twice to at most a chunk. */
  lemma LeafFits(c: Codec, chunk: Bytes)
    requires Lawful(c) && |chunk| <= CHUNK_SIZE
    ensures Fits(DataOf(c, Leaf(c, chunk)))
  {
    var inode := c.encodeInode(Raw(chunk));
    assert |inode| <= RawBound(|chunk|) <= 349550 by {
      Base64Mono(|chunk|, CHUNK_SIZE);
    }
    Base64Mono(|inode|, 349550);
    assert AttrOf(c, Leaf(c, chunk)) == Attributes([], inode);
    assert |c.encodeNode(Attributes([], inode))| <= NodeBound(Attributes([], inode));
  }

  lemma Base64Mono(m: nat, n: nat)
    requires m <= n
    ensures Base64Length(m) <= Base64Length(n)
  {
  }

  lemma {:induction false} UnnamedLinksBound(links: seq<Link>)
    requires forall i :: 0 <= i < |links| ==> links[i].name == "" && |links[i].cid| == CID_LEN
    ensures LinksBound(links) == 333 * |links|
  {
    if links != [] {
      UnnamedLinksBound(links[..|links| - 1]);
    }
  }

  /** A node of at most fifteen unnamed links fits a block. */
  lemma FifteenFit(c: Codec, attr: Attributes)
    requires Lawful(c) && attr.data == [] && |attr.links| <= NUM_CHILDREN
    requires forall i :: 0 <= i < |attr.links| ==> attr.links[i].name == "" && |attr.links[i].cid| == CID_LEN
    ensures Fits(c.encodeNode(attr))
  {
    UnnamedLinksBound(attr.links);
    assert |c.encodeNode(attr)| <= NodeBound(attr);
  }

  /** So does a parent of at most fifteen trees. */
  lemma GroupFits(c: Codec, ts: seq<Tree>)
    requires Lawful(c) && |ts| <= NUM_CHILDREN
    ensures Fits(DataOf(c, Group(ts)))
  {
    LinksAtKids(c, Unnamed(ts), "");
    FifteenFit(c, AttrOf(c, Group(ts)));
  }
}
