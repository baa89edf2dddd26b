/** The concurrent download of a DAG (`Download`, `download` and `Upload` in
    daemon.go) as a transition system: any number of goroutines, any
    interleaving, any failures. */
module Downloads {
  import opened Merkle
  import opened Trees
  import opened Directories

  /** Slots of the semaphore. */
  const MAX_DOWNLOADS: nat := 5000

  /** A download goroutine. All but the first and the last two hold a slot. */
  datatype Task =
    | Waiting(cid: Cid)
    | Looking(cid: Cid)
    | Fetched(cid: Cid, block: Block)
    | Parsed(cid: Cid, node: Node)
    | Saved(cid: Cid, links: seq<Link>)
    | Announced(cid: Cid, links: seq<Link>)
    | Finished
    | Failed

  datatype State = State(
    tasks: seq<Task>,
    slots: nat,
    store: Store,
    announced: set<Cid>,
    // history: the fetches that returned a block, in order
    fetches: seq<Cid>)

  datatype Action =
    | Acquire(i: nat)
    | Fetch(i: nat, b: Block)
    | Check(i: nat)
    | Save(i: nat)
    | Announce(i: nat)
    | Spawn(i: nat)
    | Return(i: nat)
    | Refuse(i: nat)

  /** A goroutine for each `Download` called. */
  function WaitingFor(roots: seq<Cid>): (ts: seq<Task>)
    ensures |ts| == |roots|
    ensures forall i :: 0 <= i < |ts| ==> ts[i] == Waiting(roots[i])
  {
    seq(|roots|, i requires 0 <= i < |roots| => Waiting(roots[i]))
  }

  /** Any number of downloads, sharing the semaphore and the store. A goroutine
      may wait as long as it likes, so they need not begin together. */
  function Start(store: Store, announced: set<Cid>, roots: seq<Cid>): State {
    State(WaitingFor(roots), 0, store, announced, [])
  }

  predicate HoldsSlot(t: Task) {
    !t.Waiting? && !t.Finished? && !t.Failed?
  }

  predicate Enabled(s: State, a: Action) {
    a.i < |s.tasks| &&
    var t := s.tasks[a.i];
    match a
    case Acquire(_) => t.Waiting? && s.slots < MAX_DOWNLOADS
    case Fetch(_, _) => t.Looking?
    case Check(_) => t.Fetched?
    case Save(_) => t.Parsed?
    case Announce(_) => t.Saved?
    case Spawn(_) => t.Announced? && t.links != []
    case Return(_) => t.Announced? && t.links == []
    case Refuse(_) => t.Waiting? || t.Looking? || t.Parsed? || t.Saved?
  }

  function Apply(c: Codec, s: State, a: Action): State
    requires Enabled(s, a)
  {
    var i := a.i;
    var t := s.tasks[i];
    var failed := s.(tasks := s.tasks[i := Failed],
                     slots := if HoldsSlot(t) && s.slots > 0 then s.slots - 1 else s.slots);
    match a
    case Acquire(_) => s.(tasks := s.tasks[i := Looking(t.cid)], slots := s.slots + 1)
    case Fetch(_, b) => s.(tasks := s.tasks[i := Fetched(t.cid, b)], fetches := s.fetches + [t.cid])
    case Check(_) =>
      if !BlockValid(c, t.block) then failed
      else
        (match ParseBlock(c, t.block)
         case Err(_) => failed
         case Ok(m) => s.(tasks := s.tasks[i := Parsed(t.cid, m)]))
    case Save(_) =>
      s.(tasks := s.tasks[i := Saved(t.cid, t.node.attr.links)], store := Put(s.store, t.node.block))
    case Announce(_) =>
      s.(tasks := s.tasks[i := Announced(t.cid, t.links)], announced := s.announced + {t.cid})
    case Spawn(_) =>
      s.(tasks := s.tasks[i := Announced(t.cid, t.links[1..])] + [Waiting(t.links[0].cid)])
    case Return(_) => s.(tasks := s.tasks[i := Finished], slots := if s.slots > 0 then s.slots - 1 else 0)
    case Refuse(_) => failed
  }

  /** The uploader's store, the blocks in play, and the depth of its DAGs. */
  datatype World = World(codec: Codec, remote: Store, inPlay: set<Bytes>, fuel: nat)

  ghost predicate GoodWorld(w: World) {
    && ContentAddressed(w.codec, w.remote)
    && w.remote.Values <= w.inPlay
    && CollisionFree(w.codec, w.inPlay)
  }

  /** Peers answer with the block asked for, or with other data under its CID. */
  ghost predicate Honest(w: World, s: State, a: Action) {
    a.Fetch? && a.i < |s.tasks| && s.tasks[a.i].Looking? ==>
      a.b.cid == s.tasks[a.i].cid && a.b.data in w.inPlay
  }

  // ----- what a task still owes

  ghost predicate Whole(w: World, cid: Cid) {
    Dag(w.codec, w.remote, cid, w.fuel).Ok?
  }

  /** The blocks of the DAG below `cid`, as often as they are listed. */
  ghost function Below(w: World, cid: Cid): multiset<Cid> {
    match Dag(w.codec, w.remote, cid, w.fuel)
    case Ok(r) => multiset(r.0)
    case Err(_) => multiset{}
  }

  ghost function BelowAll(w: World, links: seq<Link>): multiset<Cid> {
    if links == [] then multiset{} else Below(w, links[0].cid) + BelowAll(w, links[1..])
  }

  /** All that downloads of these roots have to fetch. */
  ghost function Due(w: World, roots: seq<Cid>): multiset<Cid> {
    if roots == [] then multiset{} else Below(w, roots[0]) + Due(w, roots[1..])
  }

  ghost predicate WholeAll(w: World, links: seq<Link>) {
    forall l :: l in links ==> Whole(w, l.cid)
  }

  lemma {:induction false} DagStable(c: Codec, st: Store, id: Cid, fuel: nat, more: nat)
    requires fuel <= more && Dag(c, st, id, fuel) != Err(OutOfFuel)
    ensures Dag(c, st, id, more) == Dag(c, st, id, fuel)
    decreases fuel, 0
  {
    var b := Get(st, id);
    if b.Ok? && ParseBlock(c, b.value).Ok? {
      DagLinksStable(c, st, ParseBlock(c, b.value).value.attr.links, fuel - 1, more - 1);
    }
  }

  lemma {:induction false} DagLinksStable(c: Codec, st: Store, links: seq<Link>, fuel: nat, more: nat)
    requires fuel <= more && DagLinks(c, st, links, fuel) != Err(OutOfFuel)
    ensures DagLinks(c, st, links, more) == DagLinks(c, st, links, fuel)
    decreases fuel, |links| + 1
  {
    if links != [] {
      DagStable(c, st, links[0].cid, fuel, more);
      if Dag(c, st, links[0].cid, fuel).Ok? {
        DagLinksStable(c, st, links[1..], fuel, more);
      }
    }
  }

  lemma {:induction false} LinksWhole(w: World, links: seq<Link>, fuel: nat)
    requires fuel <= w.fuel && DagLinks(w.codec, w.remote, links, fuel).Ok?
    ensures WholeAll(w, links)
    ensures multiset(DagLinks(w.codec, w.remote, links, fuel).value.0) == BelowAll(w, links)
    decreases |links|
  {
    if links != [] {
      DagStable(w.codec, w.remote, links[0].cid, fuel, w.fuel);
      LinksWhole(w, links[1..], fuel);
    }
  }

  /** A whole DAG is its root block and the DAGs of its links. */
  lemma WholeUnfolds(w: World, cid: Cid)
    requires Whole(w, cid)
    ensures cid in w.remote && ParseBlock(w.codec, Block(cid, w.remote[cid])).Ok?
    ensures var links := ParseBlock(w.codec, Block(cid, w.remote[cid])).value.attr.links;
            WholeAll(w, links) && Below(w, cid) == multiset{cid} + BelowAll(w, links)
  {
    var links := ParseBlock(w.codec, Block(cid, w.remote[cid])).value.attr.links;
    LinksWhole(w, links, w.fuel - 1);
    var below := DagLinks(w.codec, w.remote, links, w.fuel - 1).value.0;
    assert Dag(w.codec, w.remote, cid, w.fuel).value.0 == [cid] + below;
  }

  ghost function Owed(w: World, t: Task): multiset<Cid> {
    match t
    case Waiting(cid) => Below(w, cid)
    case Looking(cid) => Below(w, cid)
    case Fetched(cid, _) => Below(w, cid) - multiset{cid}
    case Parsed(_, m) => BelowAll(w, m.attr.links)
    case Saved(_, links) => BelowAll(w, links)
    case Announced(_, links) => BelowAll(w, links)
    case Finished => multiset{}
    case Failed => multiset{}
  }

  ghost function OwedAll(w: World, ts: seq<Task>): multiset<Cid> {
    if ts == [] then multiset{} else Owed(w, ts[0]) + OwedAll(w, ts[1..])
  }

  lemma {:induction false} OwedUpdate(w: World, ts: seq<Task>, i: nat, t: Task)
    requires i < |ts|
    ensures OwedAll(w, ts[i := t]) + Owed(w, ts[i]) == OwedAll(w, ts) + Owed(w, t)
    decreases |ts|
  {
    if i == 0 {
      assert ts[i := t][1..] == ts[1..];
    } else {
      assert ts[i := t][1..] == ts[1..][i - 1 := t] && ts[i := t][0] == ts[0];
      OwedUpdate(w, ts[1..], i - 1, t);
      Regroup(Owed(w, ts[0]), OwedAll(w, ts[1..][i - 1 := t]), Owed(w, ts[i]), OwedAll(w, ts[1..]), Owed(w, t));
    }
  }

  lemma Regroup<T>(a: multiset<T>, b: multiset<T>, c: multiset<T>, d: multiset<T>, e: multiset<T>)
    requires b + c == d + e
    ensures (a + b) + c == (a + d) + e
  {
    assert (a + b) + c == a + (b + c);
    assert (a + d) + e == a + (d + e);
  }

  lemma {:induction false} OwedAppend(w: World, ts: seq<Task>, t: Task)
    ensures OwedAll(w, ts + [t]) == OwedAll(w, ts) + Owed(w, t)
    decreases |ts|
  {
    if ts == [] {
      assert [t][1..] == [];
    } else {
      assert (ts + [t])[1..] == ts[1..] + [t];
      OwedAppend(w, ts[1..], t);
    }
  }

  function Holders(ts: seq<Task>): nat {
    if ts == [] then 0 else (if HoldsSlot(ts[0]) then 1 else 0) + Holders(ts[1..])
  }

  lemma {:induction false} HoldersUpdate(ts: seq<Task>, i: nat, t: Task)
    requires i < |ts|
    ensures Holders(ts[i := t]) + (if HoldsSlot(ts[i]) then 1 else 0) == Holders(ts) + (if HoldsSlot(t) then 1 else 0)
    decreases |ts|
  {
    if i == 0 {
      assert ts[i := t][1..] == ts[1..];
    } else {
      assert ts[i := t][1..] == ts[1..][i - 1 := t];
      HoldersUpdate(ts[1..], i - 1, t);
    }
  }

  lemma {:induction false} HoldersAppend(ts: seq<Task>, t: Task)
    ensures Holders(ts + [t]) == Holders(ts) + (if HoldsSlot(t) then 1 else 0)
    decreases |ts|
  {
    if ts == [] {
      assert [t][1..] == [];
    } else {
      assert (ts + [t])[1..] == ts[1..] + [t];
      HoldersAppend(ts[1..], t);
    }
  }

  // ----- the invariant

  /** The store holds the uploader's block of that CID. */
  ghost predicate Stored(w: World, st: Store, cid: Cid) {
    cid in w.remote && cid in st && st[cid] == w.remote[cid]
  }

  ghost predicate TaskOk(w: World, st: Store, t: Task) {
    match t
    case Waiting(cid) => Whole(w, cid)
    case Looking(cid) => Whole(w, cid)
    case Fetched(cid, b) => Whole(w, cid) && b.cid == cid && b.data in w.inPlay
    case Parsed(cid, m) =>
      && cid in w.remote && m.block == Block(cid, w.remote[cid]) && WholeAll(w, m.attr.links)
    case Saved(cid, links) => Stored(w, st, cid) && WholeAll(w, links)
    case Announced(cid, links) => Stored(w, st, cid) && WholeAll(w, links)
    case Finished => true
    case Failed => true
  }

  ghost predicate AnyFailed(s: State) {
    Failed in s.tasks
  }

  ghost predicate StoreOk(w: World, before: Store, st: Store) {
    ContentAddressed(w.codec, st) && st.Values <= w.inPlay && Extends(before, st)
  }

  /** Nothing is announced that is not stored, but for what was announced
      before the download. */
  ghost predicate AnnouncedOk(w: World, old0: set<Cid>, s: State) {
    forall cid :: cid in s.announced ==> cid in old0 || Stored(w, s.store, cid)
  }

  predicate Carries(t: Task) {
    t.Fetched? || t.Parsed? || t.Saved?
  }

  ghost predicate InHand(s: State, cid: Cid) {
    exists t :: t in s.tasks && Carries(t) && t.cid == cid
  }

  ghost predicate Offered(w: World, s: State, cid: Cid) {
    Stored(w, s.store, cid) && cid in s.announced
  }

  /** A fetched block is stored and announced, or in the hands of its goroutine. */
  ghost predicate FetchedOk(w: World, s: State) {
    forall cid :: cid in s.fetches ==> Offered(w, s, cid) || InHand(s, cid) || AnyFailed(s)
  }

  /** What was fetched and what is owed never exceed the DAG of the root, and
      make it up exactly as long as nothing has failed. */
  ghost predicate Conserved(w: World, roots: seq<Cid>, s: State) {
    && multiset(s.fetches) + OwedAll(w, s.tasks) <= Due(w, roots)
    && (!AnyFailed(s) ==> multiset(s.fetches) + OwedAll(w, s.tasks) == Due(w, roots))
  }

  ghost predicate SlotsOk(s: State) {
    s.slots == Holders(s.tasks) <= MAX_DOWNLOADS
  }

  ghost predicate TasksOk(w: World, s: State) {
    forall t :: t in s.tasks ==> TaskOk(w, s.store, t)
  }

  ghost predicate Inv(w: World, before: Store, old0: set<Cid>, roots: seq<Cid>, s: State) {
    && StoreOk(w, before, s.store)
    && TasksOk(w, s)
    && AnnouncedOk(w, old0, s)
    && FetchedOk(w, s)
    && Conserved(w, roots, s)
    && SlotsOk(s)
  }

  lemma StartInv(w: World, before: Store, announced: set<Cid>, roots: seq<Cid>)
    requires ContentAddressed(w.codec, before) && before.Values <= w.inPlay
    requires forall root :: root in roots ==> Whole(w, root)
    ensures Inv(w, before, announced, roots, Start(before, announced, roots))
  {
    var s := Start(before, announced, roots);
    OwedAtStart(w, roots);
    NoHolders(roots);
    forall t | t in s.tasks
      ensures TaskOk(w, s.store, t)
    {
      var i :| 0 <= i < |s.tasks| && s.tasks[i] == t;
      assert roots[i] in roots;
    }
  }

  lemma {:induction false} OwedAtStart(w: World, roots: seq<Cid>)
    ensures OwedAll(w, WaitingFor(roots)) == Due(w, roots)
  {
    if roots != [] {
      OwedAtStart(w, roots[1..]);
      assert WaitingFor(roots)[1..] == WaitingFor(roots[1..]);
    }
  }

  lemma {:induction false} NoHolders(roots: seq<Cid>)
    ensures Holders(WaitingFor(roots)) == 0
  {
    if roots != [] {
      NoHolders(roots[1..]);
      assert WaitingFor(roots)[1..] == WaitingFor(roots[1..]);
    }
  }

  // ----- every action keeps it, part by part

  lemma StoredGrows(w: World, st: Store, more: Store, cid: Cid)
    requires Extends(st, more) && Stored(w, st, cid)
    ensures Stored(w, more, cid)
  {
  }

  lemma UpdatedTask(ts: seq<Task>, i: nat, t: Task)
    requires i < |ts|
    ensures forall u :: u in ts[i := t] ==> u == t || u in ts
    ensures forall u :: u in ts && u != ts[i] ==> u in ts[i := t]
    ensures t in ts[i := t] && ts[i] in ts
    ensures Failed in ts[i := t] <== Failed in ts && !ts[i].Failed?
  {
    assert ts[i := t][i] == t;
    forall u | u in ts && u != ts[i]
      ensures u in ts[i := t]
    {
      var j :| 0 <= j < |ts| && ts[j] == u;
      assert ts[i := t][j] == u;
    }
  }

  lemma ConservedStep<T>(f: multiset<T>, all: multiset<T>, one: multiset<T>, one': multiset<T>, all': multiset<T>,
                        root: multiset<T>)
    requires f + all <= root && all' + one == all + one' && one' <= one
    ensures f + all' <= root
    ensures one' == one ==> all' == all
  {
    forall x
      ensures all'[x] + one[x] == all[x] + one'[x]
      ensures (f + all')[x] <= root[x]
    {
      assert (all' + one)[x] == (all + one')[x];
      assert (f + all)[x] <= root[x];
    }
  }

  /** A step of one task that stores and fetches nothing. */
  lemma QuietStep(w: World, before: Store, old0: set<Cid>, roots: seq<Cid>, s: State, i: nat, t: Task, s': State)
    requires Inv(w, before, old0, roots, s) && i < |s.tasks| && !s.tasks[i].Failed?
    requires s' == s.(tasks := s.tasks[i := t], slots := s'.slots, announced := s'.announced)
    requires TaskOk(w, s.store, t) && AnnouncedOk(w, old0, s')
    requires Owed(w, t) <= Owed(w, s.tasks[i]) && (t.Failed? || Owed(w, t) == Owed(w, s.tasks[i]))
    requires s.announced <= s'.announced
    requires Carries(s.tasks[i]) ==>
               || t.Failed?
               || (Carries(t) && t.cid == s.tasks[i].cid)
               || Offered(w, s', s.tasks[i].cid)
    requires s'.slots + (if HoldsSlot(s.tasks[i]) then 1 else 0) == s.slots + (if HoldsSlot(t) then 1 else 0)
    requires s'.slots <= MAX_DOWNLOADS
    ensures Inv(w, before, old0, roots, s')
  {
    hide Owed, TaskOk, Stored, StoreOk, Below;
    UpdatedTask(s.tasks, i, t);
    OwedUpdate(w, s.tasks, i, t);
    HoldersUpdate(s.tasks, i, t);
    hide OwedAll, Holders;
    ConservedStep(multiset(s.fetches), OwedAll(w, s.tasks), Owed(w, s.tasks[i]), Owed(w, t),
                  OwedAll(w, s'.tasks), Due(w, roots));
    hide Conserved, SlotsOk, TasksOk, AnnouncedOk;
    QuietFetched(w, s, i, t, s');
  }

  /** What was fetched stays in hand, or is offered now. */
  lemma QuietFetched(w: World, s: State, i: nat, t: Task, s': State)
    requires FetchedOk(w, s) && i < |s.tasks| && !s.tasks[i].Failed?
    requires s' == s.(tasks := s.tasks[i := t], slots := s'.slots, announced := s'.announced)
    requires s.announced <= s'.announced
    requires Carries(s.tasks[i]) ==>
               || t.Failed?
               || (Carries(t) && t.cid == s.tasks[i].cid)
               || Offered(w, s', s.tasks[i].cid)
    ensures FetchedOk(w, s')
  {
    hide Stored;
    UpdatedTask(s.tasks, i, t);
    forall cid | cid in s'.fetches
      ensures Offered(w, s', cid) || InHand(s', cid) || AnyFailed(s')
    {
      if InHand(s, cid) && !AnyFailed(s') {
        var u :| u in s.tasks && Carries(u) && u.cid == cid;
        assert u == s.tasks[i] || u in s'.tasks;
      }
    }
  }

  lemma AcquireInv(w: World, before: Store, old0: set<Cid>, roots: seq<Cid>, s: State, i: nat)
    requires Inv(w, before, old0, roots, s) && Enabled(s, Acquire(i))
    ensures Inv(w, before, old0, roots, Apply(w.codec, s, Acquire(i)))
  {
    assert TaskOk(w, s.store, s.tasks[i]);
    QuietStep(w, before, old0, roots, s, i, Looking(s.tasks[i].cid), Apply(w.codec, s, Acquire(i)));
  }

  lemma {:induction false} HolderCounts(ts: seq<Task>, i: nat)
    requires i < |ts| && HoldsSlot(ts[i])
    ensures Holders(ts) >= 1
  {
    if i > 0 {
      HolderCounts(ts[1..], i - 1);
    }
  }

  lemma FailInv(w: World, before: Store, old0: set<Cid>, roots: seq<Cid>, s: State, i: nat, s': State)
    requires Inv(w, before, old0, roots, s) && i < |s.tasks| && !s.tasks[i].Failed? && !s.tasks[i].Finished?
    requires s' == s.(tasks := s.tasks[i := Failed],
                      slots := if HoldsSlot(s.tasks[i]) && s.slots > 0 then s.slots - 1 else s.slots)
    ensures Inv(w, before, old0, roots, s')
  {
    if HoldsSlot(s.tasks[i]) {
      HolderCounts(s.tasks, i);
    }
    QuietStep(w, before, old0, roots, s, i, Failed, s');
  }

  lemma AnnounceInv(w: World, before: Store, old0: set<Cid>, roots: seq<Cid>, s: State, i: nat)
    requires Inv(w, before, old0, roots, s) && Enabled(s, Announce(i))
    ensures Inv(w, before, old0, roots, Apply(w.codec, s, Announce(i)))
  {
    var t := s.tasks[i];
    assert TaskOk(w, s.store, t);
    QuietStep(w, before, old0, roots, s, i, Announced(t.cid, t.links), Apply(w.codec, s, Announce(i)));
  }

  lemma ReturnInv(w: World, before: Store, old0: set<Cid>, roots: seq<Cid>, s: State, i: nat)
    requires Inv(w, before, old0, roots, s) && Enabled(s, Return(i))
    ensures Inv(w, before, old0, roots, Apply(w.codec, s, Return(i)))
  {
    HolderCounts(s.tasks, i);
    QuietStep(w, before, old0, roots, s, i, Finished, Apply(w.codec, s, Return(i)));
  }

  /** What passes the check under the CID asked for is the uploader's block. */
  lemma CheckedIsRemote(w: World, cid: Cid, b: Block)
    requires GoodWorld(w) && Whole(w, cid) && b.cid == cid && b.data in w.inPlay && BlockValid(w.codec, b)
    ensures cid in w.remote && b == Block(cid, w.remote[cid]) && ParseBlock(w.codec, b).Ok?
  {
    WholeUnfolds(w, cid);
    assert w.remote[cid] in w.remote.Values;
  }

  lemma CheckInv(w: World, before: Store, old0: set<Cid>, roots: seq<Cid>, s: State, i: nat)
    requires GoodWorld(w) && Inv(w, before, old0, roots, s) && Enabled(s, Check(i))
    ensures Inv(w, before, old0, roots, Apply(w.codec, s, Check(i)))
  {
    hide Owed, TaskOk, StoreOk, AnnouncedOk, FetchedOk, Conserved, GoodWorld;
    var t := s.tasks[i];
    assert TaskOk(w, s.store, t);
    if BlockValid(w.codec, t.block) {
      CheckTask(w, s.store, t);
      var m := ParseBlock(w.codec, t.block).value;
      AnnouncedSame(w, old0, s, Apply(w.codec, s, Check(i)));
      QuietStep(w, before, old0, roots, s, i, Parsed(t.cid, m), Apply(w.codec, s, Check(i)));
    } else {
      FailInv(w, before, old0, roots, s, i, Apply(w.codec, s, Check(i)));
    }
  }

  lemma AnnouncedSame(w: World, old0: set<Cid>, s: State, s': State)
    requires AnnouncedOk(w, old0, s) && s'.store == s.store && s'.announced == s.announced
    ensures AnnouncedOk(w, old0, s')
  {
  }

  lemma CheckTask(w: World, st: Store, t: Task)
    requires GoodWorld(w) && t.Fetched? && TaskOk(w, st, t) && BlockValid(w.codec, t.block)
    ensures ParseBlock(w.codec, t.block).Ok?
    ensures var t' := Parsed(t.cid, ParseBlock(w.codec, t.block).value);
            TaskOk(w, st, t') && Owed(w, t') == Owed(w, t)
  {
    CheckedIsRemote(w, t.cid, t.block);
    WholeUnfolds(w, t.cid);
  }

  lemma FetchTask(w: World, st: Store, t: Task, b: Block)
    requires t.Looking? && TaskOk(w, st, t) && b.cid == t.cid && b.data in w.inPlay
    ensures TaskOk(w, st, Fetched(t.cid, b))
    ensures Owed(w, t) == Owed(w, Fetched(t.cid, b)) + multiset{t.cid}
  {
    WholeUnfolds(w, t.cid);
  }

  lemma SpawnTask(w: World, st: Store, t: Task)
    requires t.Announced? && t.links != [] && TaskOk(w, st, t)
    ensures var t', u := Announced(t.cid, t.links[1..]), Waiting(t.links[0].cid);
            TaskOk(w, st, t') && TaskOk(w, st, u) && Owed(w, t) == Owed(w, u) + Owed(w, t')
  {
    assert t.links[0] in t.links && forall l :: l in t.links[1..] ==> l in t.links;
  }

  lemma FetchInv(w: World, before: Store, old0: set<Cid>, roots: seq<Cid>, s: State, i: nat, b: Block)
    requires Inv(w, before, old0, roots, s) && Enabled(s, Fetch(i, b)) && Honest(w, s, Fetch(i, b))
    ensures Inv(w, before, old0, roots, Apply(w.codec, s, Fetch(i, b)))
  {
    hide StoreOk, Stored, TaskOk, Owed, OwedAll, Holders, Below;
    var t := s.tasks[i];
    var t' := Fetched(t.cid, b);
    var s' := Apply(w.codec, s, Fetch(i, b));
    assert TaskOk(w, s.store, t);
    FetchTask(w, s.store, t, b);
    AnnouncedSame(w, old0, s, s');
    hide AnnouncedOk;
    UpdatedTask(s.tasks, i, t');
    OwedUpdate(w, s.tasks, i, t');
    HoldersUpdate(s.tasks, i, t');
    FetchMoves(multiset(s.fetches), OwedAll(w, s.tasks), Owed(w, t), Owed(w, t'), OwedAll(w, s'.tasks), t.cid);
    assert multiset(s'.fetches) == multiset(s.fetches) + multiset{t.cid};
    forall cid | cid in s'.fetches
      ensures Offered(w, s', cid) || InHand(s', cid) || AnyFailed(s')
    {
      if cid == t.cid {
        assert t' in s'.tasks && t'.cid == cid;
      } else if InHand(s, cid) {
        var u :| u in s.tasks && Carries(u) && u.cid == cid;
        assert u in s'.tasks;
      }
    }
  }

  lemma FetchMoves<T>(f: multiset<T>, all: multiset<T>, one: multiset<T>, one': multiset<T>, all': multiset<T>, x: T)
    requires all' + one == all + one' && one == one' + multiset{x}
    ensures f + multiset{x} + all' == f + all
  {
    forall y
      ensures all'[y] + multiset{x}[y] == all[y]
    {
      assert (all' + one)[y] == (all + one')[y];
    }
    assert all' + multiset{x} == all;
  }

  lemma SpawnInv(w: World, before: Store, old0: set<Cid>, roots: seq<Cid>, s: State, i: nat)
    requires Inv(w, before, old0, roots, s) && Enabled(s, Spawn(i))
    ensures Inv(w, before, old0, roots, Apply(w.codec, s, Spawn(i)))
  {
    hide StoreOk, Stored, TaskOk, Owed, OwedAll, Holders, Below;
    var t := s.tasks[i];
    var t', u := Announced(t.cid, t.links[1..]), Waiting(t.links[0].cid);
    var s' := Apply(w.codec, s, Spawn(i));
    var mid := s.tasks[i := t'];
    assert TaskOk(w, s.store, t);
    SpawnTask(w, s.store, t);
    AnnouncedSame(w, old0, s, s');
    hide AnnouncedOk;
    UpdatedTask(s.tasks, i, t');
    OwedUpdate(w, s.tasks, i, t');
    OwedAppend(w, mid, u);
    HoldersUpdate(s.tasks, i, t');
    HoldersAppend(mid, u);
    assert s'.tasks == mid + [u];
    SpawnMoves(OwedAll(w, s.tasks), Owed(w, t), Owed(w, t'), Owed(w, u), OwedAll(w, mid));
    assert forall v :: v in s'.tasks <==> v in mid || v == u;
    forall cid | cid in s'.fetches
      ensures Offered(w, s', cid) || InHand(s', cid) || AnyFailed(s')
    {
      if InHand(s, cid) {
        var v :| v in s.tasks && Carries(v) && v.cid == cid;
        assert v in s'.tasks;
      }
    }
  }

  lemma SpawnMoves<T>(all: multiset<T>, one: multiset<T>, one': multiset<T>, u: multiset<T>, mid: multiset<T>)
    requires mid + one == all + one' && one == u + one'
    ensures mid + u == all
  {
    forall y
      ensures (mid + u)[y] == all[y]
    {
      assert (mid + one)[y] == (all + one')[y];
    }
  }

  lemma SaveInv(w: World, before: Store, old0: set<Cid>, roots: seq<Cid>, s: State, i: nat)
    requires GoodWorld(w) && Inv(w, before, old0, roots, s) && Enabled(s, Save(i))
    ensures Inv(w, before, old0, roots, Apply(w.codec, s, Save(i)))
  {
    hide StoreOk, TaskOk, Owed, OwedAll, Holders, Below, GoodWorld, Put, AnnouncedOk;
    var t := s.tasks[i];
    var t' := Saved(t.cid, t.node.attr.links);
    var s' := Apply(w.codec, s, Save(i));
    assert TaskOk(w, s.store, t);
    SaveTask(w, before, s.store, t);
    UpdatedTask(s.tasks, i, t');
    OwedUpdate(w, s.tasks, i, t');
    HoldersUpdate(s.tasks, i, t');
    forall u | u in s'.tasks
      ensures TaskOk(w, s'.store, u)
    {
      if u != t' {
        assert TaskOk(w, s.store, u);
        TaskKept(w, s.store, s'.store, u);
      }
    }
    ConservedStep(multiset(s.fetches), OwedAll(w, s.tasks), Owed(w, t), Owed(w, t'), OwedAll(w, s'.tasks),
      Due(w, roots));
    AnnouncedGrows(w, old0, s, s');
    hide Stored;
    forall cid | cid in s'.fetches
      ensures Offered(w, s', cid) || InHand(s', cid) || AnyFailed(s')
    {
      if Stored(w, s.store, cid) {
        StoredGrows(w, s.store, s'.store, cid);
      }
      if cid == t.cid {
        assert Carries(t') && t' in s'.tasks;
      } else if InHand(s, cid) {
        var u :| u in s.tasks && Carries(u) && u.cid == cid;
        assert u in s'.tasks;
      }
    }
  }

  lemma AnnouncedGrows(w: World, old0: set<Cid>, s: State, s': State)
    requires AnnouncedOk(w, old0, s) && s'.announced == s.announced && Extends(s.store, s'.store)
    ensures AnnouncedOk(w, old0, s')
  {
  }

  lemma SaveTask(w: World, before: Store, st: Store, t: Task)
    requires GoodWorld(w) && StoreOk(w, before, st) && t.Parsed? && TaskOk(w, st, t)
    ensures var more := Put(st, t.node.block);
            && StoreOk(w, before, more) && Extends(st, more)
            && TaskOk(w, more, Saved(t.cid, t.node.attr.links))
            && Owed(w, Saved(t.cid, t.node.attr.links)) == Owed(w, t)
  {
    SaveStore(w, before, st, t.cid);
  }

  lemma SaveStore(w: World, before: Store, st: Store, cid: Cid)
    requires GoodWorld(w) && StoreOk(w, before, st) && cid in w.remote
    ensures var more := Put(st, Block(cid, w.remote[cid]));
            StoreOk(w, before, more) && Extends(st, more) && Stored(w, more, cid)
  {
    var d := w.remote[cid];
    assert w.codec.hash(d) == cid && d in w.remote.Values;
    PutGrows(w.codec, st, d, w.inPlay);
    ExtendsTransitive(before, st, Put(st, Block(cid, d)));
  }

  lemma TaskKept(w: World, st: Store, more: Store, t: Task)
    requires Extends(st, more) && TaskOk(w, st, t)
    ensures TaskOk(w, more, t)
  {
  }

  /** What every step keeps, as long as peers are honest. */
  lemma StepInv(w: World, before: Store, old0: set<Cid>, roots: seq<Cid>, s: State, a: Action)
    requires GoodWorld(w) && Inv(w, before, old0, roots, s) && Enabled(s, a) && Honest(w, s, a)
    ensures Inv(w, before, old0, roots, Apply(w.codec, s, a))
  {
    hide Inv, Honest, GoodWorld;
    match a
    case Acquire(i) => AcquireInv(w, before, old0, roots, s, i);
    case Fetch(i, b) => FetchInv(w, before, old0, roots, s, i, b);
    case Check(i) => CheckInv(w, before, old0, roots, s, i);
    case Save(i) => SaveInv(w, before, old0, roots, s, i);
    case Announce(i) => AnnounceInv(w, before, old0, roots, s, i);
    case Spawn(i) => SpawnInv(w, before, old0, roots, s, i);
    case Return(i) => ReturnInv(w, before, old0, roots, s, i);
    case Refuse(i) => FailInv(w, before, old0, roots, s, i, Apply(w.codec, s, a));
  }

  // ----- runs

  ghost predicate Run(w: World, s: State, acts: seq<Action>)
    decreases |acts|
  {
    acts == []
    || (Enabled(s, acts[0]) && Honest(w, s, acts[0]) && Run(w, Apply(w.codec, s, acts[0]), acts[1..]))
  }

  ghost function After(w: World, s: State, acts: seq<Action>): State
    requires Run(w, s, acts)
    decreases |acts|
  {
    if acts == [] then s else After(w, Apply(w.codec, s, acts[0]), acts[1..])
  }

  lemma {:induction false} RunInv(w: World, before: Store, old0: set<Cid>, roots: seq<Cid>, s: State, acts: seq<Action>)
    requires GoodWorld(w) && Inv(w, before, old0, roots, s) && Run(w, s, acts)
    ensures Inv(w, before, old0, roots, After(w, s, acts))
    decreases |acts|
  {
    hide GoodWorld, Inv, Enabled, Honest, Apply;
    if acts != [] {
      StepInv(w, before, old0, roots, s, acts[0]);
      RunInv(w, before, old0, roots, Apply(w.codec, s, acts[0]), acts[1..]);
    }
  }

  ghost predicate Done(s: State) {
    forall t :: t in s.tasks ==> t.Finished? || t.Failed?
  }

  lemma {:induction false} NothingOwed(w: World, ts: seq<Task>)
    requires forall t :: t in ts ==> t.Finished?
    ensures OwedAll(w, ts) == multiset{}
  {
    if ts != [] {
      assert ts[0] in ts;
      NothingOwed(w, ts[1..]);
    }
  }

  /** The downloads are possible: the uploader holds the whole DAGs, the local
      store is content-addressed, and no two blocks in play collide. */
  ghost predicate Downloadable(w: World, before: Store, roots: seq<Cid>) {
    && GoodWorld(w) && (forall root :: root in roots ==> Whole(w, root))
    && ContentAddressed(w.codec, before) && before.Values <= w.inPlay
  }

  /** In every run at every time: a CID is announced only after its block is
      stored, no block of the store is ever changed, and no more than the slots
      of the semaphore are held. */
  lemma DownloadSafety(w: World, before: Store, old0: set<Cid>, roots: seq<Cid>, acts: seq<Action>)
    requires Downloadable(w, before, roots) && Run(w, Start(before, old0, roots), acts)
    ensures var s := After(w, Start(before, old0, roots), acts);
            && (forall cid :: cid in s.announced - old0 ==> Stored(w, s.store, cid))
            && Extends(before, s.store) && ContentAddressed(w.codec, s.store)
            && Holders(s.tasks) <= MAX_DOWNLOADS
            && multiset(s.fetches) <= Due(w, roots)
  {
    StartInv(w, before, old0, roots);
    RunInv(w, before, old0, roots, Start(before, old0, roots), acts);
    var s := After(w, Start(before, old0, roots), acts);
    assert forall cid :: cid in s.announced - old0 ==> Stored(w, s.store, cid);
    hide Due, OwedAll;
    assert multiset(s.fetches) <= multiset(s.fetches) + OwedAll(w, s.tasks);
  }

  /** Downloads that end without an error have fetched every block of their DAGs
      exactly as often as the uploader's lists have it, stored and announced them
      all; and every path and file below each root reads as at the uploader. */
  lemma DownloadComplete(w: World, before: Store, old0: set<Cid>, roots: seq<Cid>, acts: seq<Action>,
                         root: Cid, parts: seq<string>, fuel: nat)
    requires Downloadable(w, before, roots) && Run(w, Start(before, old0, roots), acts)
    requires Done(After(w, Start(before, old0, roots), acts)) && !AnyFailed(After(w, Start(before, old0, roots), acts))
    ensures multiset(After(w, Start(before, old0, roots), acts).fetches) == Due(w, roots)
    ensures root in roots ==> Arrived(w, After(w, Start(before, old0, roots), acts), root, parts, fuel)
  {
    StartInv(w, before, old0, roots);
    RunInv(w, before, old0, roots, Start(before, old0, roots), acts);
    var s := After(w, Start(before, old0, roots), acts);
    NothingOwed(w, s.tasks);
    assert multiset(s.fetches) + multiset{} == multiset(s.fetches);
    if root in roots {
      hide Run, After, Conserved;
      DoneArrived(w, before, old0, roots, s, root, parts, fuel);
    }
  }

  /** The DAG of `root` is here, announced, and reads as at the uploader. */
  ghost predicate Arrived(w: World, s: State, root: Cid, parts: seq<string>, fuel: nat)
    requires Whole(w, root)
  {
    var list := Dag(w.codec, w.remote, root, w.fuel).value.0;
    && (forall cid :: cid in list ==> cid in s.announced)
    && Agrees(w.remote, s.store, list)
    && ResolveParts(w.codec, s.store, root, parts) == ResolveParts(w.codec, w.remote, root, parts)
    && (ResolveParts(w.codec, w.remote, root, parts).Ok? ==>
          var n := ResolveParts(w.codec, w.remote, root, parts).value;
          ReadBytes(w.codec, s.store, n, fuel) == ReadBytes(w.codec, w.remote, n, fuel))
  }

  lemma DoneArrived(w: World, before: Store, old0: set<Cid>, roots: seq<Cid>, s: State, root: Cid,
                    parts: seq<string>, fuel: nat)
    requires Inv(w, before, old0, roots, s) && Done(s) && !AnyFailed(s)
    requires multiset(s.fetches) == Due(w, roots) && root in roots && Whole(w, root)
    ensures Arrived(w, s, root, parts, fuel)
  {
    hide Conserved, ReadBytes, ResolveParts;
    var list := Dag(w.codec, w.remote, root, w.fuel).value.0;
    DueHas(w, roots, root);
    forall cid | cid in list
      ensures cid in s.announced && cid in w.remote && cid in s.store && s.store[cid] == w.remote[cid]
    {
      assert cid in multiset(list);
      assert cid in multiset(s.fetches);
      assert cid in s.fetches;
      assert !InHand(s, cid);
      assert Offered(w, s, cid);
    }
    ResolveAgrees(w.codec, w.remote, s.store, root, parts, fuel, w.fuel);
  }

  lemma {:induction false} DueHas(w: World, roots: seq<Cid>, root: Cid)
    requires root in roots
    ensures Below(w, root) <= Due(w, roots)
  {
    if roots[0] != root {
      assert roots == [roots[0]] + roots[1..];
      DueHas(w, roots[1..], root);
    }
  }

  // ----- termination

  /** Eight actions a block, less those its task has taken. */
  ghost function Weight(w: World, t: Task): int {
    match t
    case Waiting(cid) => 8 * |Below(w, cid)| - 1
    case Looking(cid) => 8 * |Below(w, cid)| - 2
    case Fetched(cid, _) => 8 * |Below(w, cid)| - 3
    case Parsed(_, m) => 8 * |BelowAll(w, m.attr.links)| + 4
    case Saved(_, links) => 8 * |BelowAll(w, links)| + 3
    case Announced(_, links) => 8 * |BelowAll(w, links)| + 2
    case Finished => 0
    case Failed => 0
  }

  ghost function WeightAll(w: World, ts: seq<Task>): int {
    if ts == [] then 0 else Weight(w, ts[0]) + WeightAll(w, ts[1..])
  }

  lemma {:induction false} WeightUpdate(w: World, ts: seq<Task>, i: nat, t: Task)
    requires i < |ts|
    ensures WeightAll(w, ts[i := t]) + Weight(w, ts[i]) == WeightAll(w, ts) + Weight(w, t)
    decreases |ts|
  {
    if i == 0 {
      assert ts[i := t][1..] == ts[1..];
    } else {
      assert ts[i := t][1..] == ts[1..][i - 1 := t];
      WeightUpdate(w, ts[1..], i - 1, t);
    }
  }

  lemma {:induction false} WeightAppend(w: World, ts: seq<Task>, t: Task)
    ensures WeightAll(w, ts + [t]) == WeightAll(w, ts) + Weight(w, t)
    decreases |ts|
  {
    if ts == [] {
      assert [t][1..] == [];
    } else {
      assert (ts + [t])[1..] == ts[1..] + [t];
      WeightAppend(w, ts[1..], t);
    }
  }

  lemma WeightPositive(w: World, st: Store, t: Task)
    requires TaskOk(w, st, t)
    ensures Weight(w, t) >= 0
    ensures !t.Finished? && !t.Failed? ==> Weight(w, t) > 0
  {
    if t.Waiting? || t.Looking? || t.Fetched? {
      WholeUnfolds(w, t.cid);
      assert t.cid in Below(w, t.cid);
    }
  }

  lemma {:induction false} WeightsPositive(w: World, st: Store, ts: seq<Task>)
    requires forall t :: t in ts ==> TaskOk(w, st, t)
    ensures WeightAll(w, ts) >= 0
  {
    if ts != [] {
      WeightPositive(w, st, ts[0]);
      WeightsPositive(w, st, ts[1..]);
    }
  }

  lemma StepWeight(w: World, before: Store, old0: set<Cid>, roots: seq<Cid>, s: State, a: Action)
    requires GoodWorld(w) && Inv(w, before, old0, roots, s) && Enabled(s, a) && Honest(w, s, a)
    ensures WeightAll(w, Apply(w.codec, s, a).tasks) < WeightAll(w, s.tasks)
  {
    hide StoreOk, AnnouncedOk, FetchedOk, Conserved, SlotsOk, GoodWorld, Honest, TaskOk, Weight, WeightAll, Owed,
         BelowAll, Below, ParseBlock;
    var t := s.tasks[a.i];
    var s' := Apply(w.codec, s, a);
    assert TaskOk(w, s.store, t);
    WeightPositive(w, s.store, t);
    WeightPositive(w, s.store, Failed);
    var t' := s'.tasks[a.i];
    TaskWeighsLess(w, s, a);
    WeightUpdate(w, s.tasks, a.i, t');
    if a.Spawn? {
      WeightAppend(w, s.tasks[a.i := t'], Waiting(t.links[0].cid));
    } else {
      assert s'.tasks == s.tasks[a.i := t'];
    }
  }

  lemma TaskWeighsLess(w: World, s: State, a: Action)
    requires GoodWorld(w) && Enabled(s, a) && TaskOk(w, s.store, s.tasks[a.i]) && Honest(w, s, a)
    ensures var t, t' := s.tasks[a.i], Apply(w.codec, s, a).tasks[a.i];
            Weight(w, t') + (if a.Spawn? then Weight(w, Waiting(t.links[0].cid)) else 0) < Weight(w, t)
  {
    hide GoodWorld, TaskOk, Below, ParseBlock, BlockValid, Honest;
    var t := s.tasks[a.i];
    WeightPositive(w, s.store, t);
    if a.Check? {
      CheckWeighsLess(w, s.store, t);
    }
    if a.Spawn? {
      assert |Below(w, t.links[0].cid) + BelowAll(w, t.links[1..])| ==
             |Below(w, t.links[0].cid)| + |BelowAll(w, t.links[1..])|;
    }
  }

  lemma CheckWeighsLess(w: World, st: Store, t: Task)
    requires GoodWorld(w) && t.Fetched? && TaskOk(w, st, t)
    ensures BlockValid(w.codec, t.block) ==>
              && ParseBlock(w.codec, t.block).Ok?
              && Weight(w, Parsed(t.cid, ParseBlock(w.codec, t.block).value)) < Weight(w, t)
  {
    if BlockValid(w.codec, t.block) {
      CheckedIsRemote(w, t.cid, t.block);
      WholeUnfolds(w, t.cid);
      var below := BelowAll(w, ParseBlock(w.codec, t.block).value.attr.links);
      hide Below, BelowAll;
      assert |multiset{t.cid} + below| == 1 + |below|;
    }
  }

  lemma {:induction false} RunWeight(w: World, before: Store, old0: set<Cid>, roots: seq<Cid>, s: State,
                                     acts: seq<Action>)
    requires GoodWorld(w) && Inv(w, before, old0, roots, s) && Run(w, s, acts)
    ensures |acts| <= WeightAll(w, s.tasks)
    decreases |acts|
  {
    if acts == [] {
      WeightsPositive(w, s.store, s.tasks);
    } else {
      hide GoodWorld, Inv, Enabled, Honest, Apply, WeightAll;
      StepInv(w, before, old0, roots, s, acts[0]);
      StepWeight(w, before, old0, roots, s, acts[0]);
      RunWeight(w, before, old0, roots, Apply(w.codec, s, acts[0]), acts[1..]);
    }
  }

  /** Downloads end: they take fewer than eight actions a listed block. */
  lemma DownloadTerminates(w: World, before: Store, old0: set<Cid>, roots: seq<Cid>, acts: seq<Action>)
    requires Downloadable(w, before, roots) && Run(w, Start(before, old0, roots), acts)
    ensures |acts| <= 8 * |Due(w, roots)| - |roots|
  {
    StartInv(w, before, old0, roots);
    RunWeight(w, before, old0, roots, Start(before, old0, roots), acts);
    WeightAtStart(w, roots);
  }

  lemma {:induction false} WeightAtStart(w: World, roots: seq<Cid>)
    ensures WeightAll(w, WaitingFor(roots)) == 8 * |Due(w, roots)| - |roots|
  {
    if roots != [] {
      WeightAtStart(w, roots[1..]);
      assert WaitingFor(roots)[1..] == WaitingFor(roots[1..]);
      hide Below, Due;
      DueFirst(w, roots);
      assert |Below(w, roots[0]) + Due(w, roots[1..])| == |Below(w, roots[0])| + |Due(w, roots[1..])|;
    }
  }

  lemma DueFirst(w: World, roots: seq<Cid>)
    requires roots != []
    ensures Due(w, roots) == Below(w, roots[0]) + Due(w, roots[1..])
  {
  }

  /** No goroutine that holds a slot ever waits for one, and while goroutines
      are left one of them can move: there is no deadlock, however many
      downloads wait. */
  lemma DownloadProgress(w: World, before: Store, old0: set<Cid>, roots: seq<Cid>, s: State)
    requires Inv(w, before, old0, roots, s)
    ensures forall i :: 0 <= i < |s.tasks| && HoldsSlot(s.tasks[i]) ==>
              exists a: Action :: a.i == i && !a.Acquire? && Enabled(s, a)
    ensures !Done(s) ==> exists a :: Enabled(s, a)
  {
    hide StoreOk, AnnouncedOk, FetchedOk, Conserved, TasksOk;
    forall i | 0 <= i < |s.tasks| && HoldsSlot(s.tasks[i])
      ensures exists a: Action :: a.i == i && !a.Acquire? && Enabled(s, a)
    {
      HolderMoves(s, i);
    }
    if !Done(s) {
      var t :| t in s.tasks && !t.Finished? && !t.Failed?;
      var i :| 0 <= i < |s.tasks| && s.tasks[i] == t;
      if t.Waiting? && s.slots >= MAX_DOWNLOADS {
        var j := SomeHolder(s.tasks);
        HolderMoves(s, j);
      } else if t.Waiting? {
        assert Enabled(s, Acquire(i));
      } else {
        HolderMoves(s, i);
      }
    }
  }

  lemma HolderMoves(s: State, i: nat)
    requires i < |s.tasks| && HoldsSlot(s.tasks[i])
    ensures exists a: Action :: a.i == i && !a.Acquire? && Enabled(s, a)
  {
    var t := s.tasks[i];
    var a := match t
      case Looking(_) => Refuse(i)
      case Fetched(_, _) => Check(i)
      case Parsed(_, _) => Save(i)
      case Saved(_, _) => Announce(i)
      case Announced(_, links) => if links == [] then Return(i) else Spawn(i)
      case _ => Return(i);
    assert Enabled(s, a);
  }

  lemma {:induction false} SomeHolder(ts: seq<Task>) returns (i: nat)
    requires Holders(ts) > 0
    ensures i < |ts| && HoldsSlot(ts[i])
  {
    if HoldsSlot(ts[0]) {
      i := 0;
    } else {
      i := SomeHolder(ts[1..]);
      i := i + 1;
    }
  }

  // ----- a download can succeed

  /** Nothing has failed, and what has been fetched is what was asked for. */
  ghost predicate Smooth(w: World, s: State) {
    forall t :: t in s.tasks ==> SmoothAt(w, t)
  }

  ghost predicate SmoothAt(w: World, t: Task) {
    !t.Failed? && (t.Fetched? ==> Whole(w, t.cid) && t.block == RemoteBlock(w, t.cid))
  }

  ghost function RemoteBlock(w: World, cid: Cid): Block
    requires Whole(w, cid)
  {
    Block(cid, w.remote[cid])
  }

  lemma SmoothStep(w: World, before: Store, old0: set<Cid>, roots: seq<Cid>, s: State) returns (a: Action)
    requires GoodWorld(w) && Inv(w, before, old0, roots, s) && Smooth(w, s) && !Done(s)
    ensures Enabled(s, a) && Honest(w, s, a) && Smooth(w, Apply(w.codec, s, a))
  {
    hide StoreOk, AnnouncedOk, FetchedOk, Conserved, GoodWorld;
    var t :| t in s.tasks && !t.Finished? && !t.Failed?;
    var i :| 0 <= i < |s.tasks| && s.tasks[i] == t;
    if t.Waiting? && s.slots >= MAX_DOWNLOADS {
      i := SomeHolder(s.tasks);
    }
    assert TaskOk(w, s.store, s.tasks[i]);
    a := SmoothMove(w, s, i);
    SmoothTask(w, s, a);
    hide Apply, Honest, Enabled, Inv, TaskOk;
    SmoothAfter(w, s, Apply(w.codec, s, a), i);
  }

  /** Only task `i` moves; what is added waits. */
  ghost predicate OthersSame(s: State, s': State, i: nat) {
    && i < |s.tasks| <= |s'.tasks|
    && forall j :: 0 <= j < |s'.tasks| && j != i ==>
         if j < |s.tasks| then s'.tasks[j] == s.tasks[j] else s'.tasks[j].Waiting?
  }

  lemma SmoothAfter(w: World, s: State, s': State, i: nat)
    requires Smooth(w, s) && OthersSame(s, s', i) && SmoothAt(w, s'.tasks[i])
    ensures Smooth(w, s')
  {
    forall u | u in s'.tasks
      ensures SmoothAt(w, u)
    {
      var j :| 0 <= j < |s'.tasks| && s'.tasks[j] == u;
      assert j < |s.tasks| ==> s.tasks[j] in s.tasks;
    }
  }

  lemma SmoothMove(w: World, s: State, i: nat) returns (a: Action)
    requires i < |s.tasks| && TaskOk(w, s.store, s.tasks[i]) && !s.tasks[i].Finished? && !s.tasks[i].Failed?
    requires s.tasks[i].Waiting? ==> s.slots < MAX_DOWNLOADS
    requires GoodWorld(w)
    ensures Enabled(s, a) && a.i == i && !a.Refuse? && Honest(w, s, a)
    ensures a.Fetch? ==> a.b == RemoteBlock(w, s.tasks[i].cid)
  {
    var t := s.tasks[i];
    match t {
      case Waiting(_) => a := Acquire(i);
      case Looking(cid) =>
        WholeUnfolds(w, cid);
        assert w.remote[cid] in w.remote.Values;
        a := Fetch(i, RemoteBlock(w, cid));
      case Fetched(_, _) => a := Check(i);
      case Parsed(_, _) => a := Save(i);
      case Saved(_, _) => a := Announce(i);
      case Announced(_, links) => a := if links == [] then Return(i) else Spawn(i);
      case _ =>
    }
  }

  lemma SmoothTask(w: World, s: State, a: Action)
    requires GoodWorld(w) && Enabled(s, a) && !a.Refuse? && TaskOk(w, s.store, s.tasks[a.i]) && Smooth(w, s)
    requires a.Fetch? ==> a.b == RemoteBlock(w, s.tasks[a.i].cid)
    ensures SmoothAt(w, Apply(w.codec, s, a).tasks[a.i])
    ensures OthersSame(s, Apply(w.codec, s, a), a.i)
  {
    assert s.tasks[a.i] in s.tasks;
    if a.Check? {
      var cid := s.tasks[a.i].cid;
      WholeUnfolds(w, cid);
      assert BlockValid(w.codec, RemoteBlock(w, cid));
    }
  }

  lemma {:induction false} SmoothFinish(w: World, before: Store, old0: set<Cid>, roots: seq<Cid>, s: State)
    returns (acts: seq<Action>)
    requires GoodWorld(w) && Inv(w, before, old0, roots, s) && Smooth(w, s)
    ensures Run(w, s, acts) && Done(After(w, s, acts)) && !AnyFailed(After(w, s, acts))
    decreases WeightAll(w, s.tasks)
  {
    WeightsPositive(w, s.store, s.tasks);
    if Done(s) {
      acts := [];
    } else {
      var a := SmoothStep(w, before, old0, roots, s);
      hide GoodWorld, Inv, Enabled, Honest, Apply, WeightAll, Smooth, Done;
      StepInv(w, before, old0, roots, s, a);
      StepWeight(w, before, old0, roots, s, a);
      var rest := SmoothFinish(w, before, old0, roots, Apply(w.codec, s, a));
      acts := [a] + rest;
      assert acts[0] == a && acts[1..] == rest;
    }
  }

  /** Whatever can be downloaded is, in some run, without an error. */
  lemma DownloadCanSucceed(w: World, before: Store, old0: set<Cid>, roots: seq<Cid>)
    requires Downloadable(w, before, roots)
    ensures exists acts :: Run(w, Start(before, old0, roots), acts)
              && Done(After(w, Start(before, old0, roots), acts))
              && !AnyFailed(After(w, Start(before, old0, roots), acts))
  {
    StartInv(w, before, old0, roots);
    var acts := SmoothFinish(w, before, old0, roots, Start(before, old0, roots));
  }

  // ----- the uploader

  /** The CIDs of the DAG at `path`. */
  function Listed(c: Codec, st: Store, path: string, fuel: nat): Result<seq<Cid>> {
    var n :- ResolvePath(c, st, path);
    var listed :- Dag(c, st, n.block.cid, fuel);
    Ok(listed.0)
  }

  predicate AllTaken(put: Cid -> bool, cids: seq<Cid>) {
    forall cid :: cid in cids ==> put(cid)
  }

  /** Announces every block of the DAG at `path`, in the order of its list, until
      an announcement is refused. */
  method Upload(c: Codec, st: Store, path: string, put: Cid -> bool, fuel: nat)
    returns (r: Result<nat>, announced: seq<Cid>)
    ensures Listed(c, st, path, fuel).Err? ==> r.Err? && r.error == Listed(c, st, path, fuel).error && announced == []
    ensures Listed(c, st, path, fuel).Ok? ==> announced <= Listed(c, st, path, fuel).value && AllTaken(put, announced)
    ensures r.Ok? ==> Listed(c, st, path, fuel) == Ok(announced) && r.value == |announced|
    ensures r.Err? && Listed(c, st, path, fuel).Ok? ==>
              && |announced| < |Listed(c, st, path, fuel).value|
              && !put(Listed(c, st, path, fuel).value[|announced|])
  {
    announced := [];
    var n := ResolvePath(c, st, path);
    if n.Err? {
      return Err(n.error), announced;
    }
    var listed := Dag(c, st, n.value.block.cid, fuel);
    if listed.Err? {
      return Err(listed.error), announced;
    }
    var cids := listed.value.0;
    for i := 0 to |cids|
      invariant announced == cids[..i]
      invariant AllTaken(put, announced)
    {
      if !put(cids[i]) {
        return Err(Refused), announced;
      }
      announced := announced + [cids[i]];
    }
    assert cids[..|cids|] == cids;
    r := Ok(|cids|);
  }
}
