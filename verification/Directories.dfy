/** Directory trees: the nodes they are stored as, their paths and the records
    of adding them (fs/fs.go). */
module Directories {
  import opened PeerRecords
  import opened Merkle
  import opened Trees
  import opened FileTrees

  /** What is on disk below a path. */
  datatype Source = File(bytes: Bytes) | Dir(entries: seq<Entry>)

  datatype Entry = Entry(name: string, node: Source)

  datatype Record = Record(cid: Cid, path: string)

  function PathTree(c: Codec, f: Source): Tree
    decreases f, 1
  {
    match f
    case File(bytes) => FileTree(c, bytes)
    case Dir(es) => Tree([], EntryKids(c, es))
  }

  function EntryKids(c: Codec, es: seq<Entry>): seq<Kid>
    decreases es, 0
  {
    if es == [] then [] else [Kid(es[0].name, PathTree(c, es[0].node))] + EntryKids(c, es[1..])
  }

  /** The records of adding `f` at `path`: one an entry, directories after what
      they hold. */
  function Records(c: Codec, path: string, f: Source): seq<Record>
    decreases f, 1
  {
    match f
    case File(_) => [Record(CidOf(c, PathTree(c, f)), path)]
    case Dir(es) => EntryRecords(c, path, es) + [Record(CidOf(c, PathTree(c, f)), path)]
  }

  function EntryRecords(c: Codec, path: string, es: seq<Entry>): seq<Record>
    decreases es, 0
  {
    if es == [] then []
    else Records(c, path + "/" + es[0].name, es[0].node) + EntryRecords(c, path, es[1..])
  }

  /** Every directory node of `f` is small enough for a block. */
  ghost predicate DirsFit(c: Codec, f: Source)
    decreases f, 1
  {
    match f
    case File(_) => true
    case Dir(es) => EntriesFit(c, es) && Fits(DataOf(c, PathTree(c, f)))
  }

  ghost predicate EntriesFit(c: Codec, es: seq<Entry>)
    decreases es, 0
  {
    es == [] || (DirsFit(c, es[0].node) && EntriesFit(c, es[1..]))
  }

  // ----- names and paths

  /** A name a file system allows. */
  predicate GoodName(name: string) {
    name != "" && '/' !in name
  }

  /** The names of every directory are allowed and distinct. */
  ghost predicate WellNamed(f: Source)
    decreases f, 1
  {
    match f
    case File(_) => true
    case Dir(es) => EntriesNamed(es)
  }

  ghost predicate EntriesNamed(es: seq<Entry>)
    decreases es, 0
  {
    es == [] || (GoodName(es[0].name) && WellNamed(es[0].node) && EntriesNamed(es[1..])
                 && forall i :: 1 <= i < |es| ==> es[i].name != es[0].name)
  }

  function EntryAt(es: seq<Entry>, name: string): (i: nat)
    ensures i <= |es|
    ensures i < |es| ==> es[i].name == name
    ensures forall j :: 0 <= j < i ==> es[j].name != name
  {
    if es == [] || es[0].name == name then 0 else 1 + EntryAt(es[1..], name)
  }

  /** What is at `parts` below `f`. */
  function Find(f: Source, parts: seq<string>): Option<Source>
    decreases |parts|
  {
    if parts == [] then Some(f)
    else
      match f
      case File(_) => None
      case Dir(es) =>
        var i := EntryAt(es, parts[0]);
        if i < |es| then Find(es[i].node, parts[1..]) else None
  }

  lemma {:induction false} EntryKidsAt(c: Codec, es: seq<Entry>, name: string)
    ensures |EntryKids(c, es)| == |es|
    ensures KidAt(EntryKids(c, es), name) == EntryAt(es, name)
    ensures forall i :: 0 <= i < |es| ==> EntryKids(c, es)[i] == Kid(es[i].name, PathTree(c, es[i].node))
  {
    if es != [] {
      EntryKidsAt(c, es[1..], name);
      assert EntryKids(c, es)[1..] == EntryKids(c, es[1..]);
    }
  }

  lemma {:induction false} RootUnnamed(ts: seq<Tree>, name: string)
    requires ts != [] && name != ""
    requires forall t :: t in ts ==> KidAt(t.kids, name) == |t.kids|
    ensures KidAt(Root(ts).kids, name) == |Root(ts).kids|
    decreases |ts|
  {
    if |ts| == 1 {
      assert ts[0] in ts;
    } else {
      ParentsShrink(ts);
      forall p | p in Parents(ts)
        ensures KidAt(p.kids, name) == |p.kids|
      {
        var i :| 0 <= i < |Parents(ts)| && Parents(ts)[i] == p;
        assert forall j :: 0 <= j < |p.kids| ==> p.kids[j].name == "";
      }
      RootUnnamed(Parents(ts), name);
    }
  }

  /** No name leads into the nodes of a file. */
  lemma FileHasNoEntries(c: Codec, bytes: Bytes, name: string)
    requires name != ""
    ensures KidAt(FileTree(c, bytes).kids, name) == |FileTree(c, bytes).kids|
  {
    ChunksFacts(bytes, CHUNK_SIZE);
    RootUnnamed(Leaves(c, Chunks(bytes, CHUNK_SIZE)), name);
  }

  /** Paths of non-empty names lead to the same places in the stored tree and on
      disk. */
  lemma {:induction false} SubtreeFinds(c: Codec, f: Source, parts: seq<string>)
    requires forall p :: p in parts ==> p != ""
    ensures Subtree(PathTree(c, f), parts) ==
            match Find(f, parts) case None => None case Some(g) => Some(PathTree(c, g))
    decreases |parts|
  {
    if parts != [] {
      assert parts[0] in parts && forall p :: p in parts[1..] ==> p in parts;
      match f
      case File(bytes) =>
        FileHasNoEntries(c, bytes, parts[0]);
      case Dir(es) =>
        EntryKidsAt(c, es, parts[0]);
        var i := EntryAt(es, parts[0]);
        if i < |es| {
          SubtreeFinds(c, es[i].node, parts[1..]);
        }
    }
  }

  // ----- path strings

  function SlashAt(s: string): (i: nat)
    ensures i <= |s|
    ensures i < |s| ==> s[i] == '/'
    ensures forall j :: 0 <= j < i ==> s[j] != '/'
  {
    if s == "" || s[0] == '/' then 0 else 1 + SlashAt(s[1..])
  }

  /** The text between slashes (`strings.Split`). */
  function Split(s: string): (parts: seq<string>)
    ensures parts != []
    decreases |s|
  {
    var i := SlashAt(s);
    if i == |s| then [s] else [s[..i]] + Split(s[i + 1..])
  }

  function JoinFrom(path: string, parts: seq<string>): string
    decreases |parts|
  {
    if parts == [] then path else JoinFrom(path + "/" + parts[0], parts[1..])
  }

  /** `/a/b` for the parts a and b. */
  function Tail(parts: seq<string>): string {
    if parts == [] then "" else "/" + parts[0] + Tail(parts[1..])
  }

  lemma {:induction false} JoinIsTail(path: string, parts: seq<string>)
    ensures JoinFrom(path, parts) == path + Tail(parts)
    decreases |parts|
  {
    if parts != [] {
      JoinIsTail(path + "/" + parts[0], parts[1..]);
      assert path + "/" + parts[0] + Tail(parts[1..]) == path + ("/" + parts[0] + Tail(parts[1..]));
    }
  }

  lemma {:induction false} SplitJoins(head: string, parts: seq<string>)
    requires '/' !in head && forall p :: p in parts ==> '/' !in p
    ensures Split(head + Tail(parts)) == [head] + parts
    decreases |parts|
  {
    if parts == [] {
      assert head + Tail(parts) == head;
    } else {
      SplitJoins(parts[0], parts[1..]);
      TailUnfolds(head, parts);
      hide Tail, Split;
      FirstSlash(head, parts[0] + Tail(parts[1..]));
      assert parts == [parts[0]] + parts[1..];
      assert [head] + ([parts[0]] + parts[1..]) == [head] + parts;
    }
  }

  lemma TailUnfolds(head: string, parts: seq<string>)
    requires parts != []
    ensures head + Tail(parts) == head + "/" + (parts[0] + Tail(parts[1..]))
  {
    var p, rest := parts[0], Tail(parts[1..]);
    assert Tail(parts) == "/" + p + rest;
    hide Tail;
    SlashJoin(head, p, rest);
  }

  lemma SlashJoin(head: string, p: string, rest: string)
    ensures head + ("/" + p + rest) == head + "/" + (p + rest)
  {
  }

  lemma FirstSlash(head: string, rest: string)
    requires '/' !in head
    ensures Split(head + "/" + rest) == [head] + Split(rest)
  {
    var s := head + "/" + rest;
    assert s[|head|] == '/';
    assert forall j :: 0 <= j < |head| ==> s[j] == head[j];
    assert SlashAt(s) == |head|;
    assert s[..|head|] == head && s[|head| + 1..] == rest;
  }

  /** Slash-free parts are determined by the path string. */
  lemma JoinInjective(path: string, p: seq<string>, q: seq<string>)
    requires forall x :: x in p ==> '/' !in x
    requires forall x :: x in q ==> '/' !in x
    ensures JoinFrom(path, p) == JoinFrom(path, q) ==> p == q
  {
    if JoinFrom(path, p) == JoinFrom(path, q) {
      JoinIsTail(path, p);
      JoinIsTail(path, q);
      assert (path + Tail(p))[|path|..] == Tail(p) && (path + Tail(q))[|path|..] == Tail(q);
      SplitJoins("", p);
      SplitJoins("", q);
      assert "" + Tail(p) == Tail(p) && "" + Tail(q) == Tail(q);
      assert ([""] + p)[1..] == p && ([""] + q)[1..] == q;
    }
  }

  function ResolvePath(c: Codec, st: Store, path: string): Result<Node> {
    var parts := Split(path);
    ResolveParts(c, st, parts[0], parts[1..])
  }

  /** From the root CID, the path of every entry resolves to the node of that
      entry, and no other path of allowed names resolves. */
  lemma PathResolves(c: Codec, st: Store, f: Source, parts: seq<string>)
    requires Lawful(c) && HoldsAll(c, st, AllData(c, PathTree(c, f)))
    requires forall p :: p in parts ==> GoodName(p)
    ensures ResolvePath(c, st, JoinFrom(CidOf(c, PathTree(c, f)), parts)) ==
            match Find(f, parts) case None => Err(InvalidPath) case Some(g) => Ok(NodeOf(c, PathTree(c, g)))
    ensures Find(f, parts).Some? ==> HoldsAll(c, st, AllData(c, PathTree(c, Find(f, parts).value)))
  {
    var t := PathTree(c, f);
    var cid := CidOf(c, t);
    assert cid == c.hash(DataOf(c, t));
    JoinIsTail(cid, parts);
    SplitJoins(cid, parts);
    assert ([cid] + parts)[1..] == parts;
    ResolveHeld(c, st, t, parts);
    SubtreeFinds(c, f, parts);
  }

  // ----- records

  /** All entries below and at `f`, with their paths, in the order of the
      records. */
  function Entries(f: Source): seq<(seq<string>, Source)>
    decreases f, 1
  {
    match f
    case File(_) => [([], f)]
    case Dir(es) => EntriesOf(es) + [([], f)]
  }

  function EntriesOf(es: seq<Entry>): seq<(seq<string>, Source)>
    decreases es, 0
  {
    if es == [] then [] else Under(es[0].name, Entries(es[0].node)) + EntriesOf(es[1..])
  }

  function Under(name: string, xs: seq<(seq<string>, Source)>): (r: seq<(seq<string>, Source)>)
    ensures |r| == |xs|
    ensures forall i :: 0 <= i < |xs| ==> r[i] == ([name] + xs[i].0, xs[i].1)
  {
    seq(|xs|, i requires 0 <= i < |xs| => ([name] + xs[i].0, xs[i].1))
  }

  function RecordOf(c: Codec, path: string, e: (seq<string>, Source)): Record {
    Record(CidOf(c, PathTree(c, e.1)), JoinFrom(path, e.0))
  }

  /** The records are the entries, each with its own CID and path. */
  lemma {:induction false} RecordsAreEntries(c: Codec, path: string, f: Source)
    ensures |Records(c, path, f)| == |Entries(f)|
    ensures forall i :: 0 <= i < |Entries(f)| ==> Records(c, path, f)[i] == RecordOf(c, path, Entries(f)[i])
    decreases f, 1
  {
    if f.Dir? {
      EntryRecordsAre(c, path, f.entries);
    }
  }

  lemma {:induction false} EntryRecordsAre(c: Codec, path: string, es: seq<Entry>)
    ensures |EntryRecords(c, path, es)| == |EntriesOf(es)|
    ensures forall i :: 0 <= i < |EntriesOf(es)| ==>
              EntryRecords(c, path, es)[i] == RecordOf(c, path, EntriesOf(es)[i])
    decreases es, 0
  {
    if es != [] {
      var xs, first := Entries(es[0].node), Records(c, path + "/" + es[0].name, es[0].node);
      RecordsAreEntries(c, path + "/" + es[0].name, es[0].node);
      EntryRecordsAre(c, path, es[1..]);
      var rest, all := EntryRecords(c, path, es[1..]), EntriesOf(es);
      assert EntryRecords(c, path, es) == first + rest && all == Under(es[0].name, xs) + EntriesOf(es[1..]);
      hide EntryRecords, EntriesOf, Records, Entries, RecordOf;
      forall i | 0 <= i < |all|
        ensures (first + rest)[i] == RecordOf(c, path, all[i])
      {
        if i < |xs| {
          RecordUnder(c, path, es[0].name, xs[i]);
        }
      }
    }
  }

  lemma RecordUnder(c: Codec, path: string, name: string, e: (seq<string>, Source))
    ensures RecordOf(c, path, ([name] + e.0, e.1)) == RecordOf(c, path + "/" + name, e)
  {
    assert ([name] + e.0)[1..] == e.0;
  }

  /** In a well-named tree the entries are exactly what paths find. */
  lemma {:induction false} EntriesAreFound(f: Source, i: nat)
    requires WellNamed(f) && i < |Entries(f)|
    ensures Find(f, Entries(f)[i].0) == Some(Entries(f)[i].1)
    ensures forall p :: p in Entries(f)[i].0 ==> GoodName(p)
    decreases f, 1
  {
    if f.Dir? && i < |EntriesOf(f.entries)| {
      EntriesOfFound(f.entries, i);
    }
  }

  lemma {:induction false} EntriesOfFound(es: seq<Entry>, i: nat)
    requires EntriesNamed(es) && i < |EntriesOf(es)|
    ensures var (parts, g) := EntriesOf(es)[i];
            && parts != [] && (forall p :: p in parts ==> GoodName(p))
            && EntryAt(es, parts[0]) < |es|
            && Find(es[EntryAt(es, parts[0])].node, parts[1..]) == Some(g)
    decreases es, 0
  {
    var xs := Entries(es[0].node);
    if i < |xs| {
      EntriesAreFound(es[0].node, i);
      assert EntriesOf(es)[i] == ([es[0].name] + xs[i].0, xs[i].1);
      assert ([es[0].name] + xs[i].0)[1..] == xs[i].0;
    } else {
      EntriesOfFound(es[1..], i - |xs|);
      var (parts, g) := EntriesOf(es[1..])[i - |xs|];
      assert EntriesOf(es)[i] == (parts, g);
      var j := EntryAt(es[1..], parts[0]);
      assert es[1..][j] == es[j + 1];
      assert parts[0] != es[0].name;
    }
  }

  /** And every place a path finds is an entry. */
  lemma {:induction false} FoundIsEntry(f: Source, parts: seq<string>)
    requires Find(f, parts).Some?
    ensures (parts, Find(f, parts).value) in Entries(f)
    decreases |parts|
  {
    if parts == [] {
      assert Entries(f)[|Entries(f)| - 1] == ([], f);
    } else {
      var i := EntryAt(f.entries, parts[0]);
      FoundIsEntry(f.entries[i].node, parts[1..]);
      EntriesOfHas(f.entries, i, (parts[1..], Find(f, parts).value));
      assert [parts[0]] + parts[1..] == parts;
    }
  }

  lemma {:induction false} EntriesOfHas(es: seq<Entry>, i: nat, e: (seq<string>, Source))
    requires i < |es| && e in Entries(es[i].node)
    ensures ([es[i].name] + e.0, e.1) in EntriesOf(es)
    decreases |es|
  {
    if i == 0 {
      var xs := Entries(es[0].node);
      var j :| 0 <= j < |xs| && xs[j] == e;
      assert Under(es[0].name, xs)[j] == ([es[0].name] + e.0, e.1);
    } else {
      EntriesOfHas(es[1..], i - 1, e);
    }
  }

  /** The order of the records: what is below a directory comes before it, and the
      entries of a directory in their order, each with all that is below. */
  predicate Earlier(f: Source, p: seq<string>, q: seq<string>)
    decreases |p|
  {
    p != [] && f.Dir? && (q == [] || EarlierIn(f.entries, p, q))
  }

  predicate EarlierIn(es: seq<Entry>, p: seq<string>, q: seq<string>)
    requires p != [] && q != []
    decreases |p|, 0
  {
    var i, j := EntryAt(es, p[0]), EntryAt(es, q[0]);
    i < |es| && (i < j || (i == j && Earlier(es[i].node, p[1..], q[1..])))
  }

  lemma {:induction false} EarlierDiffers(f: Source, p: seq<string>)
    ensures !Earlier(f, p, p)
    decreases |p|
  {
    if p != [] && f.Dir? && EntryAt(f.entries, p[0]) < |f.entries| {
      EarlierDiffers(f.entries[EntryAt(f.entries, p[0])].node, p[1..]);
    }
  }

  lemma {:induction false} EntriesOrder(f: Source, i: nat, j: nat)
    requires WellNamed(f) && i < j < |Entries(f)|
    ensures Earlier(f, Entries(f)[i].0, Entries(f)[j].0)
    decreases f, 1
  {
    var es := f.entries;
    EntriesOfFound(es, i);
    if j < |EntriesOf(es)| {
      EntriesOfFound(es, j);
      EntriesOfOrder(es, i, j);
    }
  }

  lemma {:induction false} EntriesOfOrder(es: seq<Entry>, i: nat, j: nat)
    requires EntriesNamed(es) && i < j < |EntriesOf(es)|
    ensures EntriesOf(es)[i].0 != [] && EntriesOf(es)[j].0 != []
    ensures EarlierIn(es, EntriesOf(es)[i].0, EntriesOf(es)[j].0)
    decreases es, 0
  {
    hide Entries, EntriesOf, Earlier, EarlierIn, EntryAt, Find, GoodName, EntriesNamed, WellNamed;
    EntriesSplit(es, i);
    EntriesSplit(es, j);
    EntriesOfFound(es, i);
    EntriesOfFound(es, j);
    var xs := Entries(es[0].node);
    var p, q := EntriesOf(es)[i].0, EntriesOf(es)[j].0;
    if j < |xs| {
      EntriesOrder(es[0].node, i, j);
      FirstEntry(es, xs[i].0, xs[j].0);
    } else if i < |xs| {
      EntriesOfFound(es[1..], j - |xs|);
      AcrossEntries(es, p, q);
    } else {
      EntriesOfOrder(es[1..], i - |xs|, j - |xs|);
      EntriesOfFound(es[1..], i - |xs|);
      EntriesOfFound(es[1..], j - |xs|);
      LaterEntries(es, p, q);
    }
  }

  lemma EntriesSplit(es: seq<Entry>, i: nat)
    requires EntriesNamed(es) && i < |EntriesOf(es)|
    ensures es != [] && WellNamed(es[0].node) && EntriesNamed(es[1..])
    ensures var xs := Entries(es[0].node);
            && |EntriesOf(es)| == |xs| + |EntriesOf(es[1..])|
            && EntriesOf(es)[i] ==
               if i < |xs| then ([es[0].name] + xs[i].0, xs[i].1) else EntriesOf(es[1..])[i - |xs|]
  {
  }

  lemma AcrossEntries(es: seq<Entry>, p: seq<string>, q: seq<string>)
    requires EntriesNamed(es) && es != [] && p != [] && q != []
    requires p[0] == es[0].name && EntryAt(es[1..], q[0]) < |es| - 1
    ensures EarlierIn(es, p, q)
  {
    var m := EntryAt(es[1..], q[0]);
    assert es[1..][m] == es[m + 1];
    assert es[m + 1].name != es[0].name;
  }

  lemma FirstEntry(es: seq<Entry>, p: seq<string>, q: seq<string>)
    requires es != [] && Earlier(es[0].node, p, q)
    ensures EarlierIn(es, [es[0].name] + p, [es[0].name] + q)
  {
    assert ([es[0].name] + p)[1..] == p && ([es[0].name] + q)[1..] == q;
  }

  lemma LaterEntries(es: seq<Entry>, p: seq<string>, q: seq<string>)
    requires EntriesNamed(es) && es != [] && p != [] && q != [] && EarlierIn(es[1..], p, q)
    requires EntryAt(es[1..], p[0]) < |es| - 1 && EntryAt(es[1..], q[0]) < |es| - 1
    ensures EarlierIn(es, p, q)
  {
    var i, j := EntryAt(es[1..], p[0]), EntryAt(es[1..], q[0]);
    assert es[1..][i] == es[i + 1] && es[1..][j] == es[j + 1];
    assert es[i + 1].name != es[0].name && es[j + 1].name != es[0].name;
  }

  /** `r` records the entry at `parts` below `f`. */
  ghost predicate IsRecordOf(c: Codec, path: string, f: Source, parts: seq<string>, r: Record) {
    Find(f, parts).Some? && r == RecordOf(c, path, (parts, Find(f, parts).value))
  }

  /** Adding a well-named tree records every entry once, with its own CID, under
      its own path: the record of an entry is there, no two records share a path,
      and they come in order. */
  lemma RecordsComplete(c: Codec, path: string, f: Source)
    requires WellNamed(f)
    ensures forall parts :: Find(f, parts).Some? ==>
              exists r :: r in Records(c, path, f) && IsRecordOf(c, path, f, parts, r)
    ensures forall r :: r in Records(c, path, f) ==>
              exists parts :: IsRecordOf(c, path, f, parts, r)
    ensures forall i, j :: 0 <= i < j < |Records(c, path, f)| ==>
              Records(c, path, f)[i].path != Records(c, path, f)[j].path
    ensures exists ps: seq<seq<string>> :: RecordsInOrder(c, path, f, ps)
  {
    var rs, xs := Records(c, path, f), Entries(f);
    RecordsAreEntries(c, path, f);
    forall parts | Find(f, parts).Some?
      ensures exists r :: r in rs && IsRecordOf(c, path, f, parts, r)
    {
      FoundIsEntry(f, parts);
      var i :| 0 <= i < |xs| && xs[i] == (parts, Find(f, parts).value);
      assert rs[i] in rs && IsRecordOf(c, path, f, parts, rs[i]);
    }
    forall r | r in rs
      ensures exists parts :: IsRecordOf(c, path, f, parts, r)
    {
      var i :| 0 <= i < |rs| && rs[i] == r;
      EntriesAreFound(f, i);
      assert Find(f, xs[i].0).Some? && r == RecordOf(c, path, xs[i]);
      assert IsRecordOf(c, path, f, xs[i].0, r);
    }
    forall i, j | 0 <= i < j < |rs|
      ensures rs[i].path != rs[j].path
    {
      EntriesOrder(f, i, j);
      EarlierDiffers(f, xs[i].0);
      EntriesAreFound(f, i);
      EntriesAreFound(f, j);
      JoinInjective(path, xs[i].0, xs[j].0);
    }
    EntryPathsOrder(c, path, f);
  }

  /** The records are of the places `ps`, and these are in order. */
  ghost predicate RecordsInOrder(c: Codec, path: string, f: Source, ps: seq<seq<string>>) {
    && |ps| == |Records(c, path, f)|
    && (forall i :: 0 <= i < |ps| ==> IsRecordOf(c, path, f, ps[i], Records(c, path, f)[i]))
    && forall i, j :: 0 <= i < j < |ps| ==> Earlier(f, ps[i], ps[j])
  }

  lemma EntryPathsOrder(c: Codec, path: string, f: Source)
    requires WellNamed(f)
    ensures exists ps :: RecordsInOrder(c, path, f, ps)
  {
    var xs := Entries(f);
    var ps := seq(|xs|, i requires 0 <= i < |xs| => xs[i].0);
    RecordsAreEntries(c, path, f);
    forall i | 0 <= i < |ps|
      ensures IsRecordOf(c, path, f, ps[i], Records(c, path, f)[i])
    {
      EntriesAreFound(f, i);
    }
    forall i, j | 0 <= i < j < |ps|
      ensures Earlier(f, ps[i], ps[j])
    {
      EntriesOrder(f, i, j);
    }
    hide IsRecordOf, Earlier, Records, Entries;
    assert RecordsInOrder(c, path, f, ps);
  }

  // ----- reading a directory

  /** The bytes of the files below `f`, in order. */
  function AllBytes(f: Source): Bytes
    decreases f, 1
  {
    match f
    case File(bytes) => bytes
    case Dir(es) => EntryBytes(es)
  }

  function EntryBytes(es: seq<Entry>): Bytes
    decreases es, 0
  {
    if es == [] then [] else AllBytes(es[0].node) + EntryBytes(es[1..])
  }

  /** Some directory at or below `f` has no entries. */
  predicate HasEmpty(f: Source)
    decreases f, 1
  {
    match f
    case File(_) => false
    case Dir(es) => es == [] || EntryEmpty(es)
  }

  predicate EntryEmpty(es: seq<Entry>)
    decreases es, 0
  {
    es != [] && (HasEmpty(es[0].node) || EntryEmpty(es[1..]))
  }

  /** What reading a file or a directory gives. */
  function Contents(f: Source): Result<Bytes> {
    if HasEmpty(f) then Err(BadInode) else Ok(AllBytes(f))
  }

  /** Reading a directory gives its files joined together, and fails exactly when
      some directory in it is empty, as that has neither links nor an inode. */
  lemma {:induction false} DirectoryReads(c: Codec, f: Source)
    requires Lawful(c)
    ensures ReadTree(c, PathTree(c, f)) == Contents(f)
    decreases f, 1
  {
    match f {
      case File(bytes) => FileReads(c, bytes);
      case Dir(es) => EntriesRead(c, es);
    }
  }

  lemma {:induction false} EntriesRead(c: Codec, es: seq<Entry>)
    requires Lawful(c)
    ensures ReadKids(c, EntryKids(c, es)) == if EntryEmpty(es) then Err(BadInode) else Ok(EntryBytes(es))
    decreases es, 0
  {
    if es != [] {
      DirectoryReads(c, es[0].node);
      EntriesRead(c, es[1..]);
      assert EntryKids(c, es)[1..] == EntryKids(c, es[1..]);
    }
  }
}
