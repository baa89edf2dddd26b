/** Adding files and directories to a block store (`FS` in fs/fs.go), proved
    against the trees they are stored as, and what can be read back. */
module FileSystems {
  import opened Ranking
  import opened Merkle
  import opened Trees
  import opened FileTrees
  import opened Directories

  function NodesOf(c: Codec, ts: seq<Tree>): (ns: seq<Node>)
    ensures |ns| == |ts|
    ensures forall i :: 0 <= i < |ts| ==> ns[i] == NodeOf(c, ts[i])
  {
    if ts == [] then [] else NodesOf(c, ts[..|ts| - 1]) + [NodeOf(c, ts[|ts| - 1])]
  }

  lemma {:induction false} ChunksOfNodes(c: Codec, ts: seq<Tree>, size: nat)
    requires size >= 1
    ensures |Chunks(NodesOf(c, ts), size)| == |Chunks(ts, size)|
    ensures forall i :: 0 <= i < |Chunks(ts, size)| ==>
              Chunks(NodesOf(c, ts), size)[i] == NodesOf(c, Chunks(ts, size)[i])
    decreases |ts|
  {
    hide NodesOf, NodeOf;
    if |ts| > size {
      assert NodesOf(c, ts)[size..] == NodesOf(c, ts[size..]);
      assert NodesOf(c, ts)[..size] == NodesOf(c, ts[..size]);
      ChunksOfNodes(c, ts[size..], size);
    }
  }

  lemma {:induction false} LinksAppend(c: Codec, kids: seq<Kid>, k: Kid)
    ensures LinksOf(c, kids + [k]) == LinksOf(c, kids) + [Link(k.name, CidOf(c, k.tree))]
  {
    if kids == [] {
      assert [k][1..] == [];
    } else {
      assert (kids + [k])[1..] == kids[1..] + [k];
      LinksAppend(c, kids[1..], k);
    }
  }

  lemma BuildsTree(c: Codec, t: Tree)
    ensures Build(c, AttrOf(c, t)) == if Fits(DataOf(c, t)) then Ok(NodeOf(c, t)) else Err(BlockTooBig)
  {
  }

  lemma PutAllOne(c: Codec, st: Store, ds: seq<Bytes>, d: Bytes)
    ensures PutAll(c, st, ds + [d]) == Put(PutAll(c, st, ds), Block(c.hash(d), d))
  {
    assert (ds + [d])[..|ds|] == ds;
  }

  /** The first `n` trees are built, as `ns`, and their blocks `ds` are put. */
  ghost predicate Putting(c: Codec, before: Store, ts: seq<Tree>, n: nat, ns: seq<Node>, ds: seq<Bytes>, st: Store) {
    && n <= |ts|
    && ns == NodesOf(c, ts[..n])
    && ds == DatasOf(c, ts[..n])
    && st == PutAll(c, before, ds)
  }

  lemma PuttingStarts(c: Codec, st: Store, ts: seq<Tree>)
    ensures Putting(c, st, ts, 0, [], [], st)
  {
  }

  lemma PuttingStep(c: Codec, before: Store, ts: seq<Tree>, n: nat, ns: seq<Node>, ds: seq<Bytes>, st: Store)
    requires Putting(c, before, ts, n, ns, ds, st) && n < |ts|
    ensures Putting(c, before, ts, n + 1, ns + [NodeOf(c, ts[n])], ds + [DataOf(c, ts[n])],
                    Put(st, NodeOf(c, ts[n]).block))
  {
    PutAllOne(c, before, ds, DataOf(c, ts[n]));
    NodeBlock(c, ts[n]);
    hide PutAll, DataOf, NodeOf;
    assert ts[..n + 1] == ts[..n] + [ts[n]];
  }

  lemma PuttingEnds(c: Codec, before: Store, ts: seq<Tree>, ns: seq<Node>, ds: seq<Bytes>, st: Store)
    requires Putting(c, before, ts, |ts|, ns, ds, st)
    ensures ns == NodesOf(c, ts) && ds == DatasOf(c, ts) && st == PutAll(c, before, ds)
  {
    assert ts[..|ts|] == ts;
  }

  /** The first `n` entries of a directory are added. */
  ghost predicate Adding(c: Codec, path: string, es: seq<Entry>, n: nat, records: seq<Record>, attr: Attributes,
                         ds: seq<Bytes>, before: Store, st: Store) {
    && n <= |es|
    && records == EntryRecords(c, path, es[..n])
    && attr == Attributes(LinksOf(c, EntryKids(c, es[..n])), [])
    && EntriesFit(c, es[..n])
    && Elems(ds) == KidsData(c, EntryKids(c, es[..n]))
    && st == PutAll(c, before, ds)
  }

  lemma {:induction false} EntriesAppend(c: Codec, path: string, es: seq<Entry>, e: Entry)
    ensures EntryRecords(c, path, es + [e]) == EntryRecords(c, path, es) + Records(c, path + "/" + e.name, e.node)
    ensures EntryKids(c, es + [e]) == EntryKids(c, es) + [Kid(e.name, PathTree(c, e.node))]
    ensures EntriesFit(c, es + [e]) <==> EntriesFit(c, es) && DirsFit(c, e.node)
    decreases |es|
  {
    if es == [] {
      assert [e][1..] == [];
    } else {
      assert (es + [e])[1..] == es[1..] + [e];
      EntriesAppend(c, path, es[1..], e);
    }
  }

  lemma {:induction false} KidsDataAppend(c: Codec, kids: seq<Kid>, k: Kid)
    ensures KidsData(c, kids + [k]) == KidsData(c, kids) + AllData(c, k.tree)
  {
    if kids == [] {
      assert [k][1..] == [];
    } else {
      assert (kids + [k])[1..] == kids[1..] + [k];
      KidsDataAppend(c, kids[1..], k);
    }
  }

  lemma {:induction false} EntriesFitPrefix(c: Codec, es: seq<Entry>, n: nat)
    requires n <= |es| && EntriesFit(c, es)
    ensures EntriesFit(c, es[..n])
    decreases |es|
  {
    if n > 0 {
      EntriesFitPrefix(c, es[1..], n - 1);
      assert es[..n][1..] == es[1..][..n - 1];
    }
  }

  lemma {:induction false} KidsDataPrefix(c: Codec, es: seq<Entry>, n: nat)
    requires n <= |es|
    ensures KidsData(c, EntryKids(c, es[..n])) <= KidsData(c, EntryKids(c, es))
    decreases |es|
  {
    if n > 0 {
      KidsDataPrefix(c, es[1..], n - 1);
      assert es[..n][1..] == es[1..][..n - 1];
      assert EntryKids(c, es)[1..] == EntryKids(c, es[1..]);
      assert EntryKids(c, es[..n])[1..] == EntryKids(c, es[..n][1..]);
    }
  }

  lemma AddingStarts(c: Codec, path: string, es: seq<Entry>, st: Store)
    ensures Adding(c, path, es, 0, [], Attributes([], []), [], st, st)
  {
  }

  /** One more entry: if it was added, the directory has come further; if not,
      the directory does not fit either. Both ways only blocks of the directory
      were put. */
  lemma AddingJoins(c: Codec, path: string, es: seq<Entry>, n: nat, records: seq<Record>, attr: Attributes,
                    ds: seq<Bytes>, before: Store, mid: Store, put: seq<Bytes>, st: Store)
    requires Adding(c, path, es, n, records, attr, ds, before, mid) && n < |es|
    requires st == PutAll(c, mid, put)
    requires Elems(put) <= AllData(c, PathTree(c, es[n].node))
    ensures st == PutAll(c, before, ds + put)
    ensures Elems(ds + put) <= KidsData(c, EntryKids(c, es))
    ensures !DirsFit(c, es[n].node) ==> !EntriesFit(c, es)
    ensures DirsFit(c, es[n].node) && Elems(put) == AllData(c, PathTree(c, es[n].node)) ==>
              Adding(c, path, es, n + 1, records + Records(c, path + "/" + es[n].name, es[n].node),
                     Attributes(attr.links + [Link(es[n].name, CidOf(c, PathTree(c, es[n].node)))], []),
                     ds + put, before, st)
  {
    hide EntryRecords, EntryKids, KidsData, EntriesFit, DirsFit, PutAll, AllData, LinksOf, PathTree, CidOf;
    var kid := Kid(es[n].name, PathTree(c, es[n].node));
    assert es[..n + 1] == es[..n] + [es[n]];
    EntriesAppend(c, path, es[..n], es[n]);
    LinksAppend(c, EntryKids(c, es[..n]), kid);
    KidsDataAppend(c, EntryKids(c, es[..n]), kid);
    KidsDataPrefix(c, es, n + 1);
    ElemsJoin(ds, put);
    PutAllJoin(c, before, ds, put);
    if EntriesFit(c, es) {
      EntriesFitPrefix(c, es, n + 1);
    }
  }

  lemma AddingEnds(c: Codec, path: string, f: Source, records: seq<Record>, attr: Attributes,
                   ds: seq<Bytes>, before: Store, st: Store)
    requires f.Dir? && Adding(c, path, f.entries, |f.entries|, records, attr, ds, before, st)
    ensures attr == AttrOf(c, PathTree(c, f)) && EntriesFit(c, f.entries)
    ensures AllData(c, PathTree(c, f)) == Elems(ds) + {DataOf(c, PathTree(c, f))}
    ensures records == EntryRecords(c, path, f.entries)
    ensures st == PutAll(c, before, ds)
  {
    assert f.entries[..|f.entries|] == f.entries;
  }

  class FileSystem {
    const codec: Codec
    var store: Store

    constructor (codec: Codec, store: Store)
      ensures this.codec == codec && this.store == store
    {
      this.codec, this.store := codec, store;
    }

    method PutBlock(b: Block)
      modifies this`store
      ensures store == Put(old(store), b)
    {
      store := Put(store, b);
    }

    /** Chunks, stores and groups the bytes. Whatever the store holds, the result
        is the root node of the tree of the file, and exactly the blocks of that
        tree are put. */
    method AddBytes(bytes: Bytes) returns (r: Result<Node>, ghost ds: seq<Bytes>)
      requires Lawful(codec)
      modifies this`store
      ensures r == Ok(NodeOf(codec, FileTree(codec, bytes)))
      ensures store == PutAll(codec, old(store), ds)
      ensures Elems(ds) == AllData(codec, FileTree(codec, bytes))
    {
      hide Putting, NodeOf, AllData, TreesData, Root, Lawful, NodesOf, DatasOf, PutAll, Chunks, Leaves, Elems;
      var nodes: seq<Node> := [];
      var builder := new NodeBuilder();
      ds := [];
      var cs := ComputeChunks(bytes, CHUNK_SIZE);
      ChunksFacts(bytes, CHUNK_SIZE);
      ghost var ts := Leaves(codec, cs);
      PuttingStarts(codec, store, ts);
      for n := 0 to |cs|
        invariant fresh(builder)
        invariant Putting(codec, old(store), ts, n, nodes, ds, store)
      {
        builder.Reset();
        builder.SetData(codec.encodeInode(Raw(cs[n])));
        var built := builder.BuildNode(codec);
        LeafNode(codec, cs[n]);
        PuttingStep(codec, old(store), ts, n, nodes, ds, store);
        PutBlock(built.value.block);
        nodes := nodes + [built.value];
        ds := ds + [DataOf(codec, ts[n])];
      }
      PuttingEnds(codec, old(store), ts, nodes, ds, store);
      LeavesData(codec, cs);
      RootSingle(codec, ts);
      if |nodes| == 1 {
        return Ok(nodes[0]), ds;
      }
      var children := ComputeChunks(nodes, NUM_CHILDREN);
      ghost var more;
      r, more := BuildDagLevel(children, ts);
      PutAllJoin(codec, old(store), ds, more);
      ElemsJoin(ds, more);
      ds := ds + more;
    }

    method BuildDagLevel(children: seq<seq<Node>>, ghost ts: seq<Tree>)
      returns (r: Result<Node>, ghost ds: seq<Bytes>)
      requires Lawful(codec) && |ts| >= 2
      requires children == Chunks(NodesOf(codec, ts), NUM_CHILDREN)
      modifies this`store
      ensures r == Ok(NodeOf(codec, Root(ts)))
      ensures store == PutAll(codec, old(store), ds)
      ensures Elems(ds) + TreesData(codec, ts) == AllData(codec, Root(ts))
      decreases |ts|
    {
      hide Putting, NodeOf, AllData, TreesData, Lawful, NodesOf, DatasOf, PutAll, Chunks, Elems, Root;
      ghost var tss := Chunks(ts, NUM_CHILDREN);
      ghost var ps := Groups(tss);
      ChunksFacts(ts, NUM_CHILDREN);
      ChunksOfNodes(codec, ts, NUM_CHILDREN);
      ParentsShrink(ts);
      RootUp(ts);
      var parents: seq<Node> := [];
      ds := [];
      PuttingStarts(codec, store, ps);
      for n := 0 to |children|
        invariant Putting(codec, old(store), ps, n, parents, ds, store)
      {
        NodeCids(codec, tss[n]);
        var p := ParentOf(children[n]);
        ParentIsGroup(codec, tss[n], p);
        PuttingStep(codec, old(store), ps, n, parents, ds, store);
        PutBlock(p.block);
        parents := parents + [p];
        ds := ds + [DataOf(codec, ps[n])];
      }
      PuttingEnds(codec, old(store), ps, parents, ds, store);
      GroupsData(codec, tss);
      RootSingle(codec, ps);
      if |parents| == 1 {
        return Ok(parents[0]), ds;
      }
      var next := ComputeChunks(parents, NUM_CHILDREN);
      ghost var more;
      r, more := BuildDagLevel(next, ps);
      PutAllJoin(codec, old(store), ds, more);
      ElemsJoin(ds, more);
      ds := ds + more;
    }

    /** Adds a file, or a directory after everything in it. It fails exactly when
        a directory node outgrows a block; whatever happens only blocks of the
        tree are put. */
    method AddPath(path: string, f: Source) returns (r: Result<(Node, seq<Record>)>, ghost ds: seq<Bytes>)
      requires Lawful(codec)
      modifies this`store
      ensures r.Ok? <==> DirsFit(codec, f)
      ensures r.Ok? ==> r.value == (NodeOf(codec, PathTree(codec, f)), Records(codec, path, f))
      ensures r.Err? ==> r.error == BlockTooBig
      ensures store == PutAll(codec, old(store), ds)
      ensures Elems(ds) <= AllData(codec, PathTree(codec, f))
      ensures r.Ok? ==> Elems(ds) == AllData(codec, PathTree(codec, f))
      decreases f
    {
      hide Lawful, NodeOf, AllData, PutAll, Elems, FileTree;
      if f.File? {
        var n;
        n, ds := AddBytes(f.bytes);
        NodeBlock(codec, PathTree(codec, f));
        return Ok((n.value, [Record(n.value.block.cid, path)])), ds;
      }
      var es := f.entries;
      var records: seq<Record> := [];
      var builder := new NodeBuilder();
      ds := [];
      ghost var before := store;
      AddingStarts(codec, path, es, store);
      for i := 0 to |es|
        invariant fresh(builder)
        invariant Adding(codec, path, es, i, records, builder.attr, ds, before, store)
      {
        var child: Result<(Node, seq<Record>)>;
        ghost var put;
        ghost var mid := store;
        child, put := AddPath(path + "/" + es[i].name, es[i].node);
        AddingJoins(codec, path, es, i, records, builder.attr, ds, before, mid, put, store);
        ds := ds + put;
        DirData(codec, f);
        NodeBlock(codec, PathTree(codec, es[i].node));
        if child.Err? {
          return Err(child.error), ds;
        }
        records := records + child.value.1;
        builder.AddLink(es[i].name, child.value.0);
      }
      AddingEnds(codec, path, f, records, builder.attr, ds, before, store);
      var built := builder.BuildNode(codec);
      BuildsTree(codec, PathTree(codec, f));
      if built.Err? {
        return Err(built.error), ds;
      }
      NodeBlock(codec, PathTree(codec, f));
      PutBlock(built.value.block);
      PutAllOne(codec, before, ds, DataOf(codec, PathTree(codec, f)));
      ElemsJoin(ds, [DataOf(codec, PathTree(codec, f))]);
      ElemsOne(DataOf(codec, PathTree(codec, f)));
      ds := ds + [DataOf(codec, PathTree(codec, f))];
      r := Ok((built.value, records + [Record(built.value.block.cid, path)]));
    }

    // Links the children of one chunk to their parent and builds it
    method ParentOf(cs: seq<Node>) returns (p: Node)
      requires Lawful(codec) && |cs| <= NUM_CHILDREN && forall c :: c in cs ==> |c.block.cid| == CID_LEN
      ensures Links(p, cs) && Build(codec, p.attr) == Ok(p)
    {
      hide Lawful;
      var builder := new NodeBuilder();
      for n := 0 to |cs|
        invariant fresh(builder)
        invariant builder.attr.data == [] && |builder.attr.links| == n
        invariant forall i :: 0 <= i < n ==> builder.attr.links[i] == Link("", cs[i].block.cid)
      {
        builder.AddLink("", cs[n]);
      }
      FifteenFit(codec, builder.attr);
      var built := builder.BuildNode(codec);
      p := built.value;
    }
  }

  /** `p` holds no data and one unnamed link to each of `cs`, in order. */
  predicate Links(p: Node, cs: seq<Node>) {
    && p.attr.data == [] && |p.attr.links| == |cs|
    && forall i :: 0 <= i < |cs| ==> p.attr.links[i] == Link("", cs[i].block.cid)
  }

  lemma NodeCids(c: Codec, ts: seq<Tree>)
    requires Lawful(c)
    ensures forall n :: n in NodesOf(c, ts) ==> |n.block.cid| == CID_LEN
  {
  }

  /** The parent built over the nodes of trees is the node of the tree above
      them. */
  lemma ParentIsGroup(c: Codec, ts: seq<Tree>, p: Node)
    requires Lawful(c) && |ts| <= NUM_CHILDREN && Links(p, NodesOf(c, ts)) && Build(c, p.attr) == Ok(p)
    ensures p == NodeOf(c, Group(ts))
  {
    hide Lawful, NodesOf, Unnamed, LinksOf, CidOf, DataOf;
    LinksAtKids(c, Unnamed(ts), "");
    assert p.attr == AttrOf(c, Group(ts));
    GroupFits(c, ts);
    BuildsTree(c, Group(ts));
  }

  lemma LeafNode(c: Codec, chunk: Bytes)
    requires Lawful(c) && |chunk| <= CHUNK_SIZE
    ensures Build(c, Attributes([], c.encodeInode(Raw(chunk)))) == Ok(NodeOf(c, Leaf(c, chunk)))
    ensures NodeOf(c, Leaf(c, chunk)).block == Block(c.hash(DataOf(c, Leaf(c, chunk))), DataOf(c, Leaf(c, chunk)))
  {
    LeafFits(c, chunk);
    BuildsTree(c, Leaf(c, chunk));
    assert AttrOf(c, Leaf(c, chunk)) == Attributes([], c.encodeInode(Raw(chunk)));
  }

  lemma DirData(c: Codec, f: Source)
    requires f.Dir?
    ensures AllData(c, PathTree(c, f)) == {DataOf(c, PathTree(c, f))} + KidsData(c, EntryKids(c, f.entries))
  {
  }

  lemma ElemsOne<T>(x: T)
    ensures Elems([x]) == {x}
  {
  }

  lemma NodeBlock(c: Codec, t: Tree)
    ensures NodeOf(c, t).block.cid == CidOf(c, t)
    ensures NodeOf(c, t).block == Block(c.hash(DataOf(c, t)), DataOf(c, t))
  {
  }

  lemma RootUp(ts: seq<Tree>)
    requires |ts| >= 2
    ensures Parents(ts) != [] && Root(ts) == Root(Parents(ts))
  {
    ParentsShrink(ts);
  }

  lemma RootSingle(c: Codec, ts: seq<Tree>)
    requires ts != []
    ensures |ts| == 1 ==> Root(ts) == ts[0] && TreesData(c, ts) == AllData(c, Root(ts))
  {
    if |ts| == 1 {
      assert TreesData(c, ts[1..]) == {};
    }
  }

  // ----- what was added can be read

  /** The blocks of `t` are put into a content-addressed store, and any blocks
      after them; the hash has no collisions among all of these. */
  ghost predicate AddedTo(c: Codec, st: Store, t: Tree, ds: seq<Bytes>, later: seq<Bytes>) {
    && Lawful(c)
    && ContentAddressed(c, st)
    && Elems(ds) == AllData(c, t)
    && CollisionFree(c, st.Values + Elems(ds) + Elems(later))
  }

  lemma AddedIsHeld(c: Codec, st: Store, t: Tree, ds: seq<Bytes>, later: seq<Bytes>)
    requires AddedTo(c, st, t, ds, later)
    ensures var more := PutAll(c, PutAll(c, st, ds), later);
            Extends(st, more) && ContentAddressed(c, more) && HoldsAll(c, more, AllData(c, t))
  {
    var inPlay := st.Values + Elems(ds) + Elems(later);
    hide AllData, ContentAddressed, CollisionFree, Extends;
    PutAllGrows(c, st, ds, inPlay);
    var mid := PutAll(c, st, ds);
    PutAllGrows(c, mid, later, inPlay);
    assert HoldsAll(c, mid, AllData(c, t)) by {
      forall d | d in AllData(c, t)
        ensures Holds(c, mid, d)
      {
        assert d in Elems(ds);
      }
    }
    HoldsAllExtends(c, mid, PutAll(c, mid, later), AllData(c, t));
    ExtendsTransitive(st, mid, PutAll(c, mid, later));
  }

  /** For every byte string and every content-addressed store: reading the node
      that adding the bytes returned gives the bytes back, also after any later
      additions, and the root block is found under its CID. */
  lemma AddedBytesReadBack(c: Codec, st: Store, bytes: Bytes, ds: seq<Bytes>, later: seq<Bytes>, fuel: nat)
    requires AddedTo(c, st, FileTree(c, bytes), ds, later)
    ensures ChunkCount(|bytes|) >= 1
    ensures var more := PutAll(c, PutAll(c, st, ds), later);
            var root := NodeOf(c, FileTree(c, bytes));
            && Get(more, root.block.cid) == Ok(root.block)
            && ParseBlock(c, root.block) == Ok(root)
            && (fuel >= Levels(ChunkCount(|bytes|)) ==> ReadBytes(c, more, root, fuel) == Ok(bytes))
  {
    var t := FileTree(c, bytes);
    var more := PutAll(c, PutAll(c, st, ds), later);
    AddedIsHeld(c, st, t, ds, later);
    FileShape(c, bytes);
    FileReads(c, bytes);
    HeldParses(c, more, t);
    if fuel >= Levels(ChunkCount(|bytes|)) {
      ReadHeld(c, more, t, fuel);
    }
  }

  /** For every directory tree: each path of allowed names resolves from the
      root CID to the node of the entry it finds on disk, or fails when there is
      none; and reading it gives the bytes of the files there, in order, or fails
      when there is an empty directory. */
  lemma AddedPathsResolve(c: Codec, st: Store, f: Source, ds: seq<Bytes>, later: seq<Bytes>,
                          parts: seq<string>, fuel: nat)
    requires AddedTo(c, st, PathTree(c, f), ds, later)
    requires forall p :: p in parts ==> GoodName(p)
    ensures var more := PutAll(c, PutAll(c, st, ds), later);
            var r := ResolvePath(c, more, JoinFrom(CidOf(c, PathTree(c, f)), parts));
            match Find(f, parts)
            case None => r == Err(InvalidPath)
            case Some(g) =>
              && r == Ok(NodeOf(c, PathTree(c, g)))
              && (fuel >= Height(PathTree(c, g)) ==> ReadBytes(c, more, r.value, fuel) == Contents(g))
  {
    var more := PutAll(c, PutAll(c, st, ds), later);
    AddedIsHeld(c, st, PathTree(c, f), ds, later);
    PathResolves(c, more, f, parts);
    if Find(f, parts).Some? {
      var g := Find(f, parts).value;
      DirectoryReads(c, g);
      if fuel >= Height(PathTree(c, g)) {
        HeldParses(c, more, PathTree(c, g));
        ReadHeld(c, more, PathTree(c, g), fuel);
      }
    }
  }
}
