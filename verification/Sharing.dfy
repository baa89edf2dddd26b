/** From adding at one peer to reading at another: adding, downloading and
    reading taken together (fs/fs.go, daemon.go). */
module Sharing {
  import opened Keys
  import opened Ranking
  import opened Merkle
  import opened Trees
  import opened FileTrees
  import opened Directories
  import opened FileSystems
  import opened JsonCodecs
  import opened Downloads

  /** The uploader has added `f` to a content-addressed store, and perhaps more
      after it; the blocks of both peers do not collide. */
  ghost predicate Shared(w: World, st: Store, f: Source, ds: seq<Bytes>, later: seq<Bytes>, before: Store) {
    && AddedTo(w.codec, st, PathTree(w.codec, f), ds, later)
    && w.remote == PutAll(w.codec, PutAll(w.codec, st, ds), later)
    && GoodWorld(w)
    && ContentAddressed(w.codec, before) && before.Values <= w.inPlay
    && w.fuel > Height(PathTree(w.codec, f))
  }

  lemma SharedDownloadable(w: World, st: Store, f: Source, ds: seq<Bytes>, later: seq<Bytes>, before: Store)
    requires Shared(w, st, f, ds, later, before)
    ensures var t := PathTree(w.codec, f);
            && Downloadable(w, before, [CidOf(w.codec, t)])
            && Dag(w.codec, w.remote, CidOf(w.codec, t), w.fuel) == Ok((DagList(w.codec, t), DagSize(w.codec, t)))
            && Due(w, [CidOf(w.codec, t)]) == multiset(DagList(w.codec, t))
  {
    hide AllData, PathTree, PutAll, GoodWorld, ContentAddressed, CollisionFree, Dag;
    var t := PathTree(w.codec, f);
    AddedIsHeld(w.codec, st, t, ds, later);
    DagHeld(w.codec, w.remote, t, w.fuel);
    var roots := [CidOf(w.codec, t)];
    assert roots[1..] == [] && Due(w, []) == multiset{};
  }

  /** Whatever one peer has added, another has after a download without errors:
      every path leads to the entry it finds on the first peer's disk, reading it
      gives the bytes of the files there, no other path resolves, and each block
      was fetched as often as the tree has it. */
  lemma SharedTreeArrives(w: World, st: Store, f: Source, ds: seq<Bytes>, later: seq<Bytes>, before: Store,
                          old0: set<Cid>, acts: seq<Action>, parts: seq<string>, fuel: nat)
    requires Shared(w, st, f, ds, later, before)
    requires Run(w, Start(before, old0, [CidOf(w.codec, PathTree(w.codec, f))]), acts)
    requires var s := After(w, Start(before, old0, [CidOf(w.codec, PathTree(w.codec, f))]), acts);
             Done(s) && !AnyFailed(s)
    requires forall p :: p in parts ==> GoodName(p)
    ensures var s := After(w, Start(before, old0, [CidOf(w.codec, PathTree(w.codec, f))]), acts);
            var r := ResolveParts(w.codec, s.store, CidOf(w.codec, PathTree(w.codec, f)), parts);
            && multiset(s.fetches) == multiset(DagList(w.codec, PathTree(w.codec, f)))
            && match Find(f, parts)
               case None => r == Err(InvalidPath)
               case Some(g) =>
                 && r == Ok(NodeOf(w.codec, PathTree(w.codec, g)))
                 && (fuel >= Height(PathTree(w.codec, g)) ==> ReadBytes(w.codec, s.store, r.value, fuel) == Contents(g))
  {
    var t := PathTree(w.codec, f);
    var cid := CidOf(w.codec, t);
    SharedDownloadable(w, st, f, ds, later, before);
    hide PathTree, PutAll, GoodWorld, Run, After, Dag, ResolveParts, ReadBytes, Downloadable, CidOf;
    DownloadComplete(w, before, old0, [cid], acts, cid, parts, fuel);
    AddedIsHeld(w.codec, st, t, ds, later);
    ResolveHeld(w.codec, w.remote, t, parts);
    forall p | p in parts
      ensures p != ""
    {
      assert GoodName(p);
    }
    SubtreeFinds(w.codec, f, parts);
    if Find(f, parts).Some? {
      EntryArrives(w, Find(f, parts).value, fuel);
    }
  }

  lemma EntryArrives(w: World, g: Source, fuel: nat)
    requires Lawful(w.codec) && HoldsAll(w.codec, w.remote, AllData(w.codec, PathTree(w.codec, g)))
    ensures fuel >= Height(PathTree(w.codec, g)) ==>
              ReadBytes(w.codec, w.remote, NodeOf(w.codec, PathTree(w.codec, g)), fuel) == Contents(g)
  {
    hide ReadBytes, PathTree, ReadTree, Contents;
    DirectoryReads(w.codec, g);
    if fuel >= Height(PathTree(w.codec, g)) {
      HeldParses(w.codec, w.remote, PathTree(w.codec, g));
      ReadHeld(w.codec, w.remote, PathTree(w.codec, g), fuel);
    }
  }

  /** How many blocks a file takes to download follows from its length alone. */
  lemma FetchesOfFile(w: World, st: Store, bytes: Bytes, ds: seq<Bytes>, later: seq<Bytes>, before: Store,
                      old0: set<Cid>, acts: seq<Action>)
    requires Shared(w, st, File(bytes), ds, later, before)
    requires Run(w, Start(before, old0, [CidOf(w.codec, FileTree(w.codec, bytes))]), acts)
    requires var s := After(w, Start(before, old0, [CidOf(w.codec, FileTree(w.codec, bytes))]), acts);
             Done(s) && !AnyFailed(s)
    ensures ChunkCount(|bytes|) >= 1
    ensures var s := After(w, Start(before, old0, [CidOf(w.codec, FileTree(w.codec, bytes))]), acts);
            |s.fetches| == NodeCount(ChunkCount(|bytes|)) && |acts| < 8 * NodeCount(ChunkCount(|bytes|))
  {
    SharedDownloadable(w, st, File(bytes), ds, later, before);
    var cid := CidOf(w.codec, FileTree(w.codec, bytes));
    FileShape(w.codec, bytes);
    hide FileTree, PutAll, GoodWorld, Run, After, Dag, Downloadable, CidOf, Shared, NodeCount, ChunkCount;
    DownloadComplete(w, before, old0, [cid], acts, cid, [], 0);
    DownloadTerminates(w, before, old0, [cid], acts);
  }

  // ----- the assumptions can be met

  function FillText(c: char): (s: string)
    ensures |s| == CID_LEN && s[0] == c && (c != '/' ==> '/' !in s)
  {
    [c] + seq(CID_LEN - 1, _ => 'A')
  }

  function SmallLeaf(x: Byte): Tree {
    Tree(InodeJson(Raw([x])), [])
  }

  /** The block of a file of one byte. */
  function SmallBlock(x: Byte): Bytes {
    NodeJson(Attributes([], InodeJson(Raw([x]))))
  }

  /** A hash that tells two of these from each other and from all else. */
  function SmallHash(d: Bytes): (s: Cid)
    ensures |s| == CID_LEN && '/' !in s
  {
    if d == SmallBlock(1) then FillText('B')
    else if d == SmallBlock(2) then FillText('C')
    else FillText('D')
  }

  const TWO_FILES: Source := Dir([Entry("a", File([1])), Entry("b", File([2]))])

  function SmallCodec(): Codec {
    JsonCodec(SmallHash)
  }

  lemma SmallLawful()
    ensures Lawful(SmallCodec())
  {
    hide Lawful;
    JsonCodecLawful(SmallHash);
  }

  lemma SmallFile(x: Byte)
    ensures PathTree(SmallCodec(), File([x])) == SmallLeaf(x)
    ensures AllData(SmallCodec(), SmallLeaf(x)) == {SmallBlock(x)}
  {
    hide InodeJson, NodeJson, SmallHash;
    var c := SmallCodec();
    assert Chunks([x], CHUNK_SIZE) == [[x]];
    assert Leaves(c, [[x]]) == [Leaf(c, [x])];
    assert AttrOf(c, SmallLeaf(x)) == Attributes([], InodeJson(Raw([x])));
  }

  function SmallKids(): seq<Kid> {
    [Kid("a", SmallLeaf(1)), Kid("b", SmallLeaf(2))]
  }

  /** The two files and their directory are three different blocks. */
  lemma SmallBlocksDiffer()
    ensures SmallBlock(1) != SmallBlock(2)
    ensures forall x: Byte :: DataOf(SmallCodec(), Tree([], SmallKids())) != SmallBlock(x)
  {
    hide NodeJson, InodeJson, ReadNode, ReadInode, SmallHash;
    NodeReads(Attributes([], InodeJson(Raw([1]))));
    NodeReads(Attributes([], InodeJson(Raw([2]))));
    InodeReads(Raw([1]));
    InodeReads(Raw([2]));
    var links := LinksOf(SmallCodec(), SmallKids());
    forall x: Byte
      ensures NodeJson(Attributes(links, [])) != SmallBlock(x)
    {
      NodeReads(Attributes([], InodeJson(Raw([x]))));
      NodeReads(Attributes(links, []));
    }
    assert AttrOf(SmallCodec(), Tree([], SmallKids())) == Attributes(links, []);
  }

  lemma SmallTree()
    ensures PathTree(SmallCodec(), TWO_FILES) == Tree([], SmallKids())
  {
    hide SmallCodec, FileTree, Chunks, SmallLeaf;
    SmallFile(1);
    SmallFile(2);
    PairKids(SmallCodec(), TWO_FILES.entries);
  }

  lemma PairKids(c: Codec, es: seq<Entry>)
    requires |es| == 2
    ensures EntryKids(c, es) == [Kid(es[0].name, PathTree(c, es[0].node)), Kid(es[1].name, PathTree(c, es[1].node))]
  {
    hide PathTree;
    var rest := es[1..];
    assert rest == [es[1]] && rest[1..] == [];
    assert EntryKids(c, rest) == [Kid(es[1].name, PathTree(c, es[1].node))];
  }

  lemma SmallData()
    ensures AllData(SmallCodec(), Tree([], SmallKids()))
         == {SmallBlock(1), SmallBlock(2), DataOf(SmallCodec(), Tree([], SmallKids()))}
  {
    var c, kids := SmallCodec(), SmallKids();
    hide SmallCodec, SmallLeaf, SmallBlock, DataOf;
    SmallFile(1);
    SmallFile(2);
    var rest := kids[1..];
    assert rest == [Kid("b", SmallLeaf(2))] && rest[1..] == [];
    assert KidsData(c, rest) == AllData(c, SmallLeaf(2)) + KidsData(c, []);
    assert KidsData(c, kids) == AllData(c, SmallLeaf(1)) + KidsData(c, rest);
  }

  /** There is a directory and a pair of peers for which all that `Shared` asks
      holds, with the JSON of the program. */
  lemma SharedIsMet()
    ensures exists w: World, ds :: w.codec == SmallCodec() && Shared(w, map[], TWO_FILES, ds, [], map[])
  {
    var c, t := SmallCodec(), Tree([], SmallKids());
    var root := DataOf(c, t);
    SmallLawful();
    SmallTree();
    SmallData();
    SmallNoCollision();
    hide SmallCodec, SmallKids, PathTree, DataOf, AllData, Lawful, SmallBlock;
    var ds: seq<Bytes> := [SmallBlock(1), SmallBlock(2), root];
    assert Elems(ds) == AllData(c, t);
    var inPlay := Elems(ds);
    var none: Store := map[];
    assert none.Values + Elems(ds) + Elems<Bytes>([]) == inPlay;
    PutAllGrows(c, none, ds, inPlay);
    var w := World(c, PutAll(c, PutAll(c, none, ds), []), inPlay, Height(t) + 1);
    assert Shared(w, none, TWO_FILES, ds, [], none);
  }

  lemma SmallNoCollision()
    ensures CollisionFree(SmallCodec(), {SmallBlock(1), SmallBlock(2), DataOf(SmallCodec(), Tree([], SmallKids()))})
  {
    hide SmallBlock, SmallKids, DataOf;
    SmallBlocksDiffer();
  }
}
