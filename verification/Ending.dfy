/** Exactly when lookups end: where the world is not restless, an ID without an
    answer is listed once, and the measure of `Settling` goes down to the end
    (dht/node.go). */
module LookupEndings {
  import opened Keys
  import opened Ranking
  import opened Contacts
  import opened Shortlists
  import opened PeerRecords
  import opened Lookups
  import opened RestlessLookups
  import opened Settling
  import opened CalmLookups
  import opened SingleCalls

  // ----- what else is known of an ID behind all others

  /** As many as two calls at once, and room behind the nearer of two. */
  predicate TwoCalls(cfg: Config) {
    cfg.k == if cfg.alpha >= 2 then 2 else 3
  }

  /** While `a` has not answered, what is in flight under other IDs is listed, or
      `a` is off the list for good. */
  ghost predicate Held(cfg: Config, s: State, a: Contact) {
    a.id !in s.replies ==>
      forall d :: d in InFlight(s) && d.id != a.id ==>
        d in s.list || (Position(cfg.away, s.list, cfg.away(a)) >= cfg.k && InFlight(s) == {d})
  }

  /** After the first answer, if `a` is listed so is a contact that answered. */
  ghost predicate Told(s: State, a: Contact) {
    a.id !in s.replies && s.replies != map[] && Count(s.list, a.id) > 0 ==>
      exists e :: e in s.list && e.id in s.replies
  }

  /** One call at a time gives no second ID before the first answer. */
  ghost predicate FirstId(s: State) {
    s.replies == map[] ==> OneId(Elems(s.list) + InFlight(s))
  }

  ghost predicate OneId(cs: set<Contact>) {
    forall c, d :: c in cs && d in cs ==> c.id == d.id
  }

  /** A nearer entry stays when `cs` is inserted, or `a` goes for good. */
  lemma InsertedHolds(cfg: Config, l: seq<Contact>, cs: seq<Contact>, a: Contact, d: Contact)
    requires Ascending(cfg.away, l) && cfg.away(d) < cfg.away(a)
    requires d in l || Position(cfg.away, l, cfg.away(a)) >= cfg.k
    ensures d in Inserted(cfg, l, cs) || Position(cfg.away, Inserted(cfg, l, cs), cfg.away(a)) >= cfg.k
  {
    var all := InsertAll(cfg.away, l, cs);
    PositionInsertAll(cfg.away, l, cs, cfg.away(a));
    PositionTake(cfg.away, cfg.k, all, cfg.away(a));
    if d in l {
      assert d in all by {
        InsertAllProperties(cfg.away, l, cs);
        assert d in Elems(l) && d in Elems(all);
      }
      hide InsertAll;
      var i :| 0 <= i < |all| && all[i] == d;
      PositionAtLeast(cfg.away, all, cfg.away(a), i);
      assert i < cfg.k ==> Take(cfg.k, all)[i] == d;
    }
  }

  /** What is pushed out of sight is not counted. */
  lemma FullNoCount(cfg: Config, w: set<Contact>, l: seq<Contact>, a: Contact)
    requires ByIds(cfg, w) && Elems(l) <= Others(w, cfg.self) && a in Others(w, cfg.self)
    requires Position(cfg.away, l, cfg.away(a)) >= |l|
    ensures Count(l, a.id) == 0
  {
    CountHas(l, a.id);
    SameIdDistance(cfg, w, l, a);
  }

  // ----- what every action keeps of it

  lemma FlightWithin(cfg: Config, w: set<Contact>, s: State)
    requires Weak(cfg, w, s)
    ensures InFlight(s) <= Others(w, cfg.self)
  {
    hide MarksOk, PhaseOk;
    assert s.pending.Keys <= s.learned by {
      PendingWithin(s);
    }
  }

  lemma PendingWithin(s: State)
    requires MarksOk(s.contacted, s.pending, s.replies, s.learned, s.answers)
    ensures s.pending.Keys <= s.learned && s.replies.Keys <= Ids(s.learned)
  {
  }

  lemma FlightUnder(s: State)
    ensures |InFlight(s)| <= Total(s)
  {
    SubsetSize(QueryingSet(s.pending), s.pending.Keys);
    assert |s.pending| == |s.pending.Keys|;
    ElemsSize(s.toLaunch);
    UnionSize(Elems(s.toLaunch), QueryingSet(s.pending));
  }

  lemma HeldInsert(cfg: Config, w: set<Contact>, s: State, t: State, a: Contact, cs: seq<Contact>)
    requires ByIds(cfg, w) && Ascending(cfg.away, s.list) && InFlight(s) <= Others(w, cfg.self)
    requires a in Others(w, cfg.self) && Farthest(cfg, w, a) && Held(cfg, s, a)
    requires t.list == Inserted(cfg, s.list, cs) && s.replies.Keys <= t.replies.Keys
    requires InFlight(t) <= InFlight(s) && |InFlight(t)| <= 1
    ensures Held(cfg, t, a)
  {
    hide Inserted, InFlight, Ascending;
    forall d | a.id !in t.replies && d in InFlight(t) && d.id != a.id
      ensures d in t.list || (Position(cfg.away, t.list, cfg.away(a)) >= cfg.k && InFlight(t) == {d})
    {
      InsertedHolds(cfg, s.list, cs, a, d);
      SubsetEqual({d}, InFlight(t));
    }
  }

  lemma HeldRemove(cfg: Config, s: State, t: State, a: Contact, c: Contact)
    requires Held(cfg, s, a) && t.replies == s.replies && t.list == RemoveOne(cfg.away, s.list, c)
    requires c in InFlight(s) && InFlight(t) == InFlight(s) - {c}
    ensures Held(cfg, t, a)
  {
    hide InFlight, RemoveOne;
    forall d | a.id !in t.replies && d in InFlight(t) && d.id != a.id
      ensures d in t.list
    {
      assert c != d && InFlight(s) != {d};
      RemoveOther(cfg.away, s.list, c, d);
    }
  }

  lemma RemoveOther(f: Contact -> nat, l: seq<Contact>, c: Contact, d: Contact)
    requires d in l && d != c
    ensures d in RemoveOne(f, l, c)
  {
    var p := Position(f, l, f(c));
    if p < |l| && l[p] == c {
      assert l == l[..p] + [c] + l[p + 1..];
    }
  }

  lemma HeldSame(cfg: Config, s: State, t: State, a: Contact)
    requires Held(cfg, s, a) && t.list == s.list && s.replies.Keys <= t.replies.Keys && InFlight(t) <= InFlight(s)
    ensures Held(cfg, t, a)
  {
    hide InFlight;
  }

  lemma HeldListed(cfg: Config, t: State, a: Contact)
    requires InFlight(t) <= Elems(t.list)
    ensures Held(cfg, t, a)
  {
    hide InFlight;
  }

  // what was told

  /** The contact that has just answered is listed, if `a` is. */
  lemma ToldNow(cfg: Config, w: set<Contact>, t: State, a: Contact, c: Contact)
    requires ByIds(cfg, w) && Elems(t.list) <= Others(w, cfg.self) && |t.list| <= cfg.k && a in Others(w, cfg.self)
    requires c.id in t.replies
    requires a.id !in t.replies ==> c in t.list || Position(cfg.away, t.list, cfg.away(a)) >= cfg.k
    ensures Told(t, a)
  {
    if a.id !in t.replies && c !in t.list {
      FullNoCount(cfg, w, t.list, a);
    }
  }

  lemma ToldReply(cfg: Config, w: set<Contact>, s: State, t: State, a: Contact, c: Contact, cs: seq<Contact>)
    requires ByIds(cfg, w) && Ascending(cfg.away, s.list) && c in Others(w, cfg.self)
    requires a in Others(w, cfg.self) && Farthest(cfg, w, a) && Held(cfg, s, a) && c in InFlight(s)
    requires t.list == Inserted(cfg, s.list, cs) && t.replies.Keys == s.replies.Keys + {c.id}
    requires Elems(t.list) <= Others(w, cfg.self) && |t.list| <= cfg.k
    ensures Told(t, a)
  {
    hide Inserted, InFlight, Ascending, Told;
    if a.id !in t.replies {
      InsertedHolds(cfg, s.list, cs, a, c);
    }
    ToldNow(cfg, w, t, a, c);
  }

  lemma ToldOffer(cfg: Config, w: set<Contact>, s: State, t: State, a: Contact, c: Contact)
    requires ByIds(cfg, w) && a in Others(w, cfg.self) && Held(cfg, s, a) && c in InFlight(s)
    requires t.list == s.list && t.replies.Keys == s.replies.Keys + {c.id}
    requires Elems(t.list) <= Others(w, cfg.self) && |t.list| <= cfg.k
    ensures Told(t, a)
  {
    hide InFlight, Told;
    ToldNow(cfg, w, t, a, c);
  }

  lemma ToldReinsert(cfg: Config, w: set<Contact>, s: State, t: State, a: Contact, c: Contact)
    requires ByIds(cfg, w) && Ascending(cfg.away, s.list) && c in Others(w, cfg.self)
    requires a in Others(w, cfg.self) && Farthest(cfg, w, a) && c.id in t.replies
    requires t.list == Inserted(cfg, s.list, [c])
    requires Elems(t.list) <= Others(w, cfg.self) && |t.list| <= cfg.k
    ensures Told(t, a)
  {
    hide InsertOne, Ascending, Told;
    if a.id !in t.replies {
      InsertSingle(cfg.away, s.list, c);
      InsertOneElems(cfg.away, s.list, c);
      InsertOneAscending(cfg.away, s.list, c);
      assert c in Elems(InsertOne(cfg.away, s.list, c));
      InsertNothing(cfg.away, InsertOne(cfg.away, s.list, c));
      InsertedHolds(cfg, InsertOne(cfg.away, s.list, c), [], a, c);
    }
    ToldNow(cfg, w, t, a, c);
  }

  lemma ToldFail(cfg: Config, s: State, t: State, a: Contact, c: Contact)
    requires Told(s, a) && t.replies == s.replies && c.id !in s.replies && t.list == RemoveOne(cfg.away, s.list, c)
    ensures Told(t, a)
  {
    hide RemoveOne;
    CountRemove(cfg.away, s.list, c, a.id);
    if a.id !in t.replies && t.replies != map[] && Count(t.list, a.id) > 0 {
      var e :| e in s.list && e.id in s.replies;
      RemoveOther(cfg.away, s.list, c, e);
    }
  }

  ghost predicate Behind(cfg: Config, s: State, a: Contact) {
    Held(cfg, s, a) && Told(s, a)
  }

  /** A contact that all others are nearer than. */
  ghost predicate Last(cfg: Config, w: set<Contact>, a: Contact) {
    a in Others(w, cfg.self) && Farthest(cfg, w, a)
  }

  lemma PickBehind(cfg: Config, w: set<Contact>, s: State, a: Contact)
    requires Weak(cfg, w, s) && Behind(cfg, s, a) && Enabled(cfg, w, s, Pick)
    ensures Behind(cfg, Apply(cfg, w, s, Pick), a)
  {
    hide Weak, Held, InFlight, Picked, Unmarked;
    var t := Apply(cfg, w, s, Pick);
    PickIs(cfg, w, s);
    PickedListed(s, t);
    HeldListed(cfg, t, a);
  }

  lemma PickedListed(s: State, t: State)
    requires Picked(s, t)
    ensures InFlight(t) <= Elems(t.list) && t.list == s.list && t.replies == s.replies
  {
    PickedCalls(s, t);
    hide InFlight, Unmarked;
  }

  lemma LaunchBehind(cfg: Config, w: set<Contact>, s: State, a: Contact)
    requires Weak(cfg, w, s) && Behind(cfg, s, a) && Enabled(cfg, w, s, Launch)
    ensures Behind(cfg, Apply(cfg, w, s, Launch), a)
  {
    hide Weak, Held, InFlight;
    LaunchFlight(cfg, w, s);
    HeldSame(cfg, s, Apply(cfg, w, s, Launch), a);
  }

  lemma ReplyBehind(cfg: Config, w: set<Contact>, s: State, c: Contact, cs: seq<Contact>, a: Contact)
    requires ByIds(cfg, w) && Weak(cfg, w, s) && Behind(cfg, s, a) && Last(cfg, w, a)
    requires Enabled(cfg, w, s, Reply(c, cs)) && Weak(cfg, w, Apply(cfg, w, s, Reply(c, cs))) && Total(s) <= 2
    ensures Behind(cfg, Apply(cfg, w, s, Reply(c, cs)), a)
  {
    hide Weak, Held, Told, InFlight, ByIds, LegalReply, Inserted, Farthest, Others, Elems, Ascending, Total;
    var t := Apply(cfg, w, s, Reply(c, cs));
    ShortList(cfg, w, s);
    ShortList(cfg, w, t);
    AnswerFlies(cfg, w, s, t, c);
    FlightWithin(cfg, w, s);
    assert t.replies.Keys == s.replies.Keys + {c.id};
    HeldInsert(cfg, w, s, t, a, cs);
    ToldReply(cfg, w, s, t, a, c, cs);
  }

  lemma AnswerFlies(cfg: Config, w: set<Contact>, s: State, t: State, c: Contact)
    requires Weak(cfg, w, s) && c in s.pending && s.pending[c].Querying?
    requires t.pending == s.pending[c := Replied] && t.toLaunch == s.toLaunch
    ensures InFlight(t) == InFlight(s) - {c} && c in InFlight(s) && |InFlight(t)| < Total(s)
  {
    hide Weak;
    AnswerFlight(cfg, w, s, c);
    FlightUnder(s);
  }

  lemma OfferBehind(cfg: Config, w: set<Contact>, s: State, c: Contact, ps: seq<Peer>, a: Contact)
    requires ByIds(cfg, w) && Weak(cfg, w, s) && Behind(cfg, s, a) && Last(cfg, w, a)
    requires Enabled(cfg, w, s, Offer(c, ps))
    ensures Behind(cfg, Apply(cfg, w, s, Offer(c, ps)), a)
  {
    hide Weak, Held, Told, InFlight, ByIds, Farthest, Others, Elems, Ascending;
    var t := Apply(cfg, w, s, Offer(c, ps));
    ShortList(cfg, w, s);
    AnswerFlies(cfg, w, s, t, c);
    assert t.replies.Keys == s.replies.Keys + {c.id};
    HeldSame(cfg, s, t, a);
    ToldOffer(cfg, w, s, t, a, c);
  }

  lemma FailBehind(cfg: Config, w: set<Contact>, s: State, c: Contact, a: Contact)
    requires Weak(cfg, w, s) && Behind(cfg, s, a) && Enabled(cfg, w, s, Fail(c))
    ensures Behind(cfg, Apply(cfg, w, s, Fail(c)), a)
  {
    hide Weak, Held, Told, InFlight, RemoveOne;
    var t := Apply(cfg, w, s, Fail(c));
    FailFlight(cfg, w, s, c);
    PendingMarked(cfg, w, s, c);
    HeldRemove(cfg, s, t, a, c);
    ToldFail(cfg, s, t, a, c);
  }

  lemma FinishBehind(cfg: Config, w: set<Contact>, s: State, c: Contact, a: Contact)
    requires Behind(cfg, s, a) && Enabled(cfg, w, s, Finish(c))
    ensures Behind(cfg, Apply(cfg, w, s, Finish(c)), a)
  {
    hide Held, InFlight;
    var t := Apply(cfg, w, s, Finish(c));
    SameFlight(s, t, c);
    HeldSame(cfg, s, t, a);
  }

  lemma ReinsertBehind(cfg: Config, w: set<Contact>, s: State, c: Contact, a: Contact)
    requires ByIds(cfg, w) && Weak(cfg, w, s) && Behind(cfg, s, a) && Last(cfg, w, a)
    requires Enabled(cfg, w, s, Reinsert(c)) && Weak(cfg, w, Apply(cfg, w, s, Reinsert(c))) && Total(s) <= 2
    ensures Behind(cfg, Apply(cfg, w, s, Reinsert(c)), a)
  {
    hide Weak, Held, Told, InFlight, ByIds, Inserted, Farthest, Others, Elems, Ascending, Total;
    var t := Apply(cfg, w, s, Reinsert(c));
    ShortList(cfg, w, s);
    ShortList(cfg, w, t);
    SameFlight(s, t, c);
    HandOverTotal(s, t, c);
    FlightWithin(cfg, w, s);
    PendingMarked(cfg, w, s, c);
    HeldInsert(cfg, w, s, t, a, [c]);
    ToldReinsert(cfg, w, s, t, a, c);
  }

  lemma HandOverTotal(s: State, t: State, c: Contact)
    requires c in s.pending && t.pending == s.pending - {c} && t.toLaunch == s.toLaunch
    ensures |InFlight(t)| < Total(s)
  {
    DropTotal(s.pending, c);
    FlightUnder(t);
  }

  lemma ConcludeBehind(cfg: Config, w: set<Contact>, s: State, a: Contact)
    requires Behind(cfg, s, a) && Enabled(cfg, w, s, Conclude)
    ensures Behind(cfg, Apply(cfg, w, s, Conclude), a)
  {
    hide Held, InFlight, CacheTarget, Unmarked, Ahead;
    ConcludeFlight(s, Apply(cfg, w, s, Conclude));
    HeldSame(cfg, s, Apply(cfg, w, s, Conclude), a);
  }

  lemma StepBehind(cfg: Config, w: set<Contact>, s: State, action: Action, a: Contact)
    requires ByIds(cfg, w) && Weak(cfg, w, s) && Behind(cfg, s, a) && Last(cfg, w, a) && Total(s) <= 2
    requires Enabled(cfg, w, s, action) && Weak(cfg, w, Apply(cfg, w, s, action))
    ensures Behind(cfg, Apply(cfg, w, s, action), a)
  {
    hide *;
    match action
    case Pick => PickBehind(cfg, w, s, a);
    case Launch => LaunchBehind(cfg, w, s, a);
    case Reply(c, cs) => ReplyBehind(cfg, w, s, c, cs, a);
    case Offer(c, ps) => OfferBehind(cfg, w, s, c, ps, a);
    case Fail(c) => FailBehind(cfg, w, s, c, a);
    case Finish(c) => FinishBehind(cfg, w, s, c, a);
    case Reinsert(c) => ReinsertBehind(cfg, w, s, c, a);
    case Conclude => ConcludeBehind(cfg, w, s, a);
  }

  // ----- before the first answer

  lemma OneIdLess(cs: set<Contact>, ds: set<Contact>)
    requires OneId(cs) && ds <= cs
    ensures OneId(ds)
  {
  }

  lemma FirstIdFewer(s: State, t: State)
    requires FirstId(s) && Elems(t.list) <= Elems(s.list)
    requires InFlight(t) <= InFlight(s) || InFlight(t) <= Elems(t.list)
    requires t.replies == map[] ==> s.replies == map[]
    ensures FirstId(t)
  {
    hide InFlight, OneId, Elems;
    if t.replies == map[] {
      OneIdLess(Elems(s.list) + InFlight(s), Elems(t.list) + InFlight(t));
    }
  }

  lemma RemoveWithin(f: Contact -> nat, l: seq<Contact>, c: Contact)
    ensures Elems(RemoveOne(f, l, c)) <= Elems(l)
  {
    var p := Position(f, l, f(c));
    if p < |l| {
      assert l == l[..p] + [l[p]] + l[p + 1..];
    }
  }

  lemma StepFirst(cfg: Config, w: set<Contact>, s: State, a: Action)
    requires Weak(cfg, w, s) && FirstId(s) && Enabled(cfg, w, s, a)
    ensures FirstId(Apply(cfg, w, s, a))
  {
    hide Weak, FirstId, InFlight, Unmarked, CacheTarget, RemoveOne, Inserted, Elems, Picked, LegalReply, Ahead;
    var t := Apply(cfg, w, s, a);
    match a {
      case Pick =>
        PickIs(cfg, w, s);
        PickedListed(s, t);
        FirstIdFewer(s, t);
      case Launch =>
        LaunchFlight(cfg, w, s);
        FirstIdFewer(s, t);
      case Fail(c) =>
        FailFlight(cfg, w, s, c);
        RemoveWithin(cfg.away, s.list, c);
        FirstIdFewer(s, t);
      case Conclude =>
        ConcludeFlight(s, t);
        FirstIdFewer(s, t);
      case Reply(c, cs) =>
        Answered(t, c.id);
      case Offer(c, ps) =>
        Answered(t, c.id);
      case Finish(c) =>
        PendingMarked(cfg, w, s, c);
        Answered(t, c.id);
      case Reinsert(c) =>
        PendingMarked(cfg, w, s, c);
        Answered(t, c.id);
    }
  }

  lemma Answered(t: State, id: Key)
    requires id in t.replies
    ensures FirstId(t)
  {
  }

  // ----- an ID without an answer is listed once

  /** What every step of a lookup keeps where the world is not restless. */
  ghost predicate Calm(cfg: Config, w: set<Contact>, s: State) {
    && Weak(cfg, w, s) && AllSingle(cfg, w, s)
    && (cfg.alpha == 1 ==> OneByOne(cfg, w, s) && FirstId(s))
    && (TwoCalls(cfg) ==> forall a :: Last(cfg, w, a) ==> Behind(cfg, s, a))
  }

  /** A call to `c` is awaited, and `a` is listed without an answer. */
  ghost predicate Awaited(s: State, c: Contact, a: Contact) {
    c in InFlight(s) && c.id != a.id && a.id !in s.replies && c.id !in s.replies && Count(s.list, a.id) > 0
  }

  lemma RoomBehind(cfg: Config, w: set<Contact>, s: State, c: Contact, a: Contact)
    requires ByIds(cfg, w) && Ascending(cfg.away, s.list) && c in Others(w, cfg.self)
    requires Last(cfg, w, a) && Held(cfg, s, a) && Awaited(s, c, a)
    ensures Position(cfg.away, s.list, cfg.away(a)) >= cfg.k || (c in s.list && cfg.away(c) < cfg.away(a))
    ensures Position(cfg.away, s.list, cfg.away(a)) >= if cfg.k == 0 then 0 else 1
  {
    hide InFlight, Ascending;
    if c in s.list {
      var i :| 0 <= i < |s.list| && s.list[i] == c;
      PositionAtLeast(cfg.away, s.list, cfg.away(a), i);
    }
  }

  lemma RoomFirst(cfg: Config, w: set<Contact>, s: State, c: Contact, a: Contact)
    requires ByIds(cfg, w) && Ascending(cfg.away, s.list) && Elems(s.list) <= Others(w, cfg.self)
    requires c in Others(w, cfg.self) && a in Others(w, cfg.self) && Awaited(s, c, a)
    requires FirstOpen(s.list, s.replies.Keys, c)
    ensures Position(cfg.away, s.list, cfg.away(a)) >= 1
  {
    hide InFlight, Ascending, Position;
    CountHas(s.list, a.id);
    SameIdDistance(cfg, w, s.list, a);
    var i :| 0 <= i < |s.list| && s.list[i] == c && forall j :: 0 <= j < i ==> s.list[j].id in s.replies.Keys;
    var j :| 0 <= j < |s.list| && s.list[j].id == a.id;
    assert s.list[j] in s.list && i < j;
    assert cfg.away(s.list[j]) == cfg.away(a) && cfg.away(c) != cfg.away(a);
    EarlierNearer(cfg.away, s.list, i, j);
  }

  lemma EarlierNearer(f: Contact -> nat, l: seq<Contact>, i: nat, j: nat)
    requires Ascending(f, l) && i < j < |l| && f(l[i]) != f(l[j])
    ensures Position(f, l, f(l[j])) >= 1
  {
    PositionAtLeast(f, l, f(l[j]), i);
  }

  lemma TwoNearer(f: Contact -> nat, l: seq<Contact>, d: nat, x: Contact, y: Contact)
    requires Ascending(f, l) && x in l && y in l && x != y && f(x) < d && f(y) < d
    ensures Position(f, l, d) >= 2
  {
    var i :| 0 <= i < |l| && l[i] == x;
    var j :| 0 <= j < |l| && l[j] == y;
    PositionAtLeast(f, l, d, i);
    PositionAtLeast(f, l, d, j);
  }

  /** Before the first answer no two IDs are listed or called. */
  lemma FirstAnswered(s: State, c: Contact, a: Contact)
    requires FirstId(s) && Awaited(s, c, a)
    ensures s.replies != map[]
  {
    hide InFlight;
    CountHas(s.list, a.id);
    var e :| e in s.list && e.id == a.id;
    assert e in Elems(s.list) + InFlight(s) && c in Elems(s.list) + InFlight(s);
  }

  lemma RoomTold(cfg: Config, w: set<Contact>, s: State, c: Contact, a: Contact)
    requires ByIds(cfg, w) && Ascending(cfg.away, s.list) && Elems(s.list) <= Others(w, cfg.self)
    requires c in Others(w, cfg.self) && Last(cfg, w, a) && Behind(cfg, s, a) && Awaited(s, c, a) && FirstId(s)
    requires cfg.k == 3
    ensures Position(cfg.away, s.list, cfg.away(a)) >= 2
  {
    FirstAnswered(s, c, a);
    RoomBehind(cfg, w, s, c, a);
    hide InFlight, Held, Ascending;
    var e :| e in s.list && e.id in s.replies;
    assert e in Elems(s.list);
    if c in s.list {
      TwoNearer(cfg.away, s.list, cfg.away(a), c, e);
    }
  }

  /** The contact called and one that answered are two others. */
  lemma TwoOthers(cfg: Config, w: set<Contact>, s: State, c: Contact, a: Contact)
    requires Weak(cfg, w, s) && a in Others(w, cfg.self) && Awaited(s, c, a) && FirstId(s)
    ensures !OneOther(cfg, w, a)
  {
    FirstAnswered(s, c, a);
    FlightWithin(cfg, w, s);
    RepliesWithin(cfg, w, s);
    hide Weak, InFlight, Others;
    var id :| id in s.replies;
    var p :| p in Others(w, cfg.self) && p.id == id;
    assert p.id != a.id && c.id != a.id;
  }

  lemma RepliesWithin(cfg: Config, w: set<Contact>, s: State)
    requires Weak(cfg, w, s)
    ensures forall id :: id in s.replies ==> exists p :: p in Others(w, cfg.self) && p.id == id
  {
    hide Apart, PhaseOk;
    PendingWithin(s);
    hide MarksOk;
    forall id | id in s.replies
      ensures exists p :: p in Others(w, cfg.self) && p.id == id
    {
      assert id in Ids(s.learned);
      var p :| p in s.learned && p.id == id;
      assert p in Others(w, cfg.self);
    }
  }

  lemma RoomTogether(cfg: Config, w: set<Contact>, s: State, c: Contact, a: Contact)
    requires ByIds(cfg, w) && Calm(cfg, w, s) && a in Others(w, cfg.self) && c in Others(w, cfg.self)
    requires Awaited(s, c, a) && Cramped(cfg, w, a) && cfg.alpha >= 2
    ensures Position(cfg.away, s.list, cfg.away(a)) + 1 >= cfg.k
  {
    hide Weak, Awaited, Behind, AllSingle;
    ShortList(cfg, w, s);
    if cfg.k != 1 {
      AwaitedOther(s, c, a);
      assert Last(cfg, w, a);
      BehindHeld(cfg, s, a);
      hide Last, Ascending, ByIds;
      RoomBehind(cfg, w, s, c, a);
    }
  }

  lemma AwaitedOther(s: State, c: Contact, a: Contact)
    requires Awaited(s, c, a)
    ensures c.id != a.id
  {
  }

  lemma BehindHeld(cfg: Config, s: State, a: Contact)
    requires Behind(cfg, s, a)
    ensures Held(cfg, s, a)
  {
  }

  lemma RoomAlone(cfg: Config, w: set<Contact>, s: State, c: Contact, a: Contact)
    requires ByIds(cfg, w) && Calm(cfg, w, s) && a in Others(w, cfg.self) && c in Others(w, cfg.self)
    requires Awaited(s, c, a) && Cramped(cfg, w, a) && cfg.alpha == 1
    ensures Position(cfg.away, s.list, cfg.away(a)) + 1 >= cfg.k
  {
    hide Weak, Awaited, Behind, AllSingle, FirstId, OneOther, Ascending, ByIds;
    ShortList(cfg, w, s);
    if cfg.k == 2 {
      hide Others;
      LoneFirst(cfg, w, s, c, a);
      RoomFirst(cfg, w, s, c, a);
    } else if cfg.k == 3 {
      hide OneByOne;
      TwoOthers(cfg, w, s, c, a);
      assert Last(cfg, w, a);
      hide Last;
      RoomTold(cfg, w, s, c, a);
    } else if cfg.k > 3 {
      TwoOthers(cfg, w, s, c, a);
    }
  }

  lemma LoneFirst(cfg: Config, w: set<Contact>, s: State, c: Contact, a: Contact)
    requires OneByOne(cfg, w, s) && cfg.k == 2 && Awaited(s, c, a)
    ensures FirstOpen(s.list, s.replies.Keys, c)
  {
    hide InFlight, FirstOpen, HeadRule, NoStutter, TogetherLater;
  }

  lemma RoomAtReply(cfg: Config, w: set<Contact>, s: State, c: Contact, a: Contact)
    requires ValidConfig(cfg) && ByIds(cfg, w) && !Restless(cfg, w) && Calm(cfg, w, s) && c in Others(w, cfg.self)
    requires a in Others(w, cfg.self) && !Sole(w, cfg.self, a) && !Spared(cfg, w, a.id) && Awaited(s, c, a)
    ensures Position(cfg.away, s.list, cfg.away(a)) + 1 >= cfg.k
  {
    var b :| b in Others(w, cfg.self) && b.id == a.id && b != a;
    assert Twins(cfg, w, a, b);
    hide ByIds, Restless, Calm, Others, Sole, Spared, Awaited, Cramped;
    TwinsCramped(cfg, w, a, b);
    if cfg.alpha >= 2 {
      RoomTogether(cfg, w, s, c, a);
    } else {
      RoomAlone(cfg, w, s, c, a);
    }
  }

  lemma CalmFacts(cfg: Config, w: set<Contact>, s: State)
    requires Calm(cfg, w, s)
    ensures Weak(cfg, w, s) && Listed(cfg, w, s.list, Elems(s.list))
    ensures AllSingle(cfg, w, s) && forall x :: Spared(cfg, w, x) || Single(s, x)
    ensures cfg.alpha == 1 ==> OneByOne(cfg, w, s)
  {
    hide Weak, Spared, Single, OneByOne, FirstId;
    ShortList(cfg, w, s);
  }

  /** The reply of a calm lookup lists no open ID twice. */
  lemma ReplySingle(cfg: Config, w: set<Contact>, s: State, c: Contact, cs: seq<Contact>, a: Contact)
    requires ValidConfig(cfg) && ByIds(cfg, w) && !Restless(cfg, w) && Calm(cfg, w, s)
    requires c in s.pending && s.pending[c].Querying? && LegalReply(cfg, w, cs) && a in Others(w, cfg.self)
    requires !Spared(cfg, w, a.id) && a.id !in s.replies && a.id != c.id
    ensures Count(Inserted(cfg, s.list, cs), a.id) <= 1
  {
    hide ByIds, Restless, Calm, Weak, LegalReply, Inserted, Spared, Others, Sole, Listed;
    CalmFacts(cfg, w, s);
    PendingMarked(cfg, w, s, c);
    InFlightIs(s, c);
    assert Single(s, a.id);
    if !Sole(w, cfg.self, a) && Count(s.list, a.id) > 0 {
      RoomAtReply(cfg, w, s, c, a);
    }
    RoomForOne(cfg, w, s.list, cs, a);
  }

  lemma InFlightIs(s: State, c: Contact)
    requires c in s.pending && s.pending[c].Querying?
    ensures c in InFlight(s)
  {
  }

  lemma SingleSeen(cfg: Config, w: set<Contact>, t: State, x: Key)
    requires Elems(t.list) <= Others(w, cfg.self)
    requires forall a :: a in Others(w, cfg.self) && a.id == x ==> Count(t.list, x) <= 1
    ensures Single(t, x)
  {
    CountHas(t.list, x);
    if Count(t.list, x) > 0 {
      var a :| a in t.list && a.id == x;
      assert a in Elems(t.list);
    }
  }

  lemma ReplyAllSingle(cfg: Config, w: set<Contact>, s: State, c: Contact, cs: seq<Contact>)
    requires ValidConfig(cfg) && ByIds(cfg, w) && !Restless(cfg, w) && Calm(cfg, w, s)
    requires Enabled(cfg, w, s, Reply(c, cs)) && Weak(cfg, w, Apply(cfg, w, s, Reply(c, cs)))
    ensures AllSingle(cfg, w, Apply(cfg, w, s, Reply(c, cs)))
  {
    hide ByIds, Restless, Calm, Weak, LegalReply, Inserted, Spared, Others, Ascending, Elems;
    var t := Apply(cfg, w, s, Reply(c, cs));
    ShortList(cfg, w, t);
    assert t.replies.Keys == s.replies.Keys + {c.id};
    forall x
      ensures Spared(cfg, w, x) || Single(t, x)
    {
      if !Spared(cfg, w, x) && x !in t.replies {
        forall a | a in Others(w, cfg.self) && a.id == x
          ensures Count(t.list, x) <= 1
        {
          ReplySingle(cfg, w, s, c, cs, a);
        }
        SingleSeen(cfg, w, t, x);
      }
    }
  }

  lemma FewerSingle(cfg: Config, w: set<Contact>, s: State, t: State)
    requires AllSingle(cfg, w, s) && s.replies.Keys <= t.replies.Keys
    requires forall x :: x !in t.replies ==> Count(t.list, x) <= Count(s.list, x)
    ensures AllSingle(cfg, w, t)
  {
    hide Spared;
    forall x
      ensures Spared(cfg, w, x) || Single(t, x)
    {
      assert Spared(cfg, w, x) || Single(s, x);
    }
  }

  lemma ReinsertCount(cfg: Config, s: State, c: Contact, x: Key)
    requires x != c.id
    ensures Count(Inserted(cfg, s.list, [c]), x) <= Count(s.list, x)
  {
    hide InsertOne;
    InsertSingle(cfg.away, s.list, c);
    CountTake(cfg.k, InsertOne(cfg.away, s.list, c), x);
    CountInsertOne(cfg.away, s.list, c, x);
  }

  lemma FailSingle(cfg: Config, w: set<Contact>, s: State, c: Contact)
    requires AllSingle(cfg, w, s) && Enabled(cfg, w, s, Fail(c))
    ensures AllSingle(cfg, w, Apply(cfg, w, s, Fail(c)))
  {
    hide AllSingle, RemoveOne;
    var t := Apply(cfg, w, s, Fail(c));
    forall x
      ensures Count(t.list, x) <= Count(s.list, x)
    {
      CountRemove(cfg.away, s.list, c, x);
    }
    FewerSingle(cfg, w, s, t);
  }

  lemma ReinsertSingle(cfg: Config, w: set<Contact>, s: State, c: Contact)
    requires AllSingle(cfg, w, s) && Weak(cfg, w, s) && Enabled(cfg, w, s, Reinsert(c))
    ensures AllSingle(cfg, w, Apply(cfg, w, s, Reinsert(c)))
  {
    hide AllSingle, Weak, Inserted;
    var t := Apply(cfg, w, s, Reinsert(c));
    PendingMarked(cfg, w, s, c);
    forall x | x !in t.replies
      ensures Count(t.list, x) <= Count(s.list, x)
    {
      ReinsertCount(cfg, s, c, x);
    }
    FewerSingle(cfg, w, s, t);
  }

  lemma SameListSingle(cfg: Config, w: set<Contact>, s: State, a: Action)
    requires AllSingle(cfg, w, s) && Enabled(cfg, w, s, a) && !a.Reply? && !a.Fail? && !a.Reinsert?
    ensures AllSingle(cfg, w, Apply(cfg, w, s, a))
  {
    hide AllSingle, Unmarked, CacheTarget;
    FewerSingle(cfg, w, s, Apply(cfg, w, s, a));
  }

  lemma StepSingle(cfg: Config, w: set<Contact>, s: State, a: Action)
    requires ValidConfig(cfg) && ByIds(cfg, w) && !Restless(cfg, w) && Calm(cfg, w, s)
    requires Enabled(cfg, w, s, a) && Weak(cfg, w, Apply(cfg, w, s, a))
    ensures AllSingle(cfg, w, Apply(cfg, w, s, a))
  {
    hide *;
    CalmFacts(cfg, w, s);
    match a
    case Reply(c, cs) => ReplyAllSingle(cfg, w, s, c, cs);
    case Fail(c) => FailSingle(cfg, w, s, c);
    case Reinsert(c) => ReinsertSingle(cfg, w, s, c);
    case _ => SameListSingle(cfg, w, s, a);
  }

  // ----- what the measure needs of a calm lookup

  lemma OwnIfSingle(l: seq<Contact>)
    requires forall c :: c in l ==> Count(l, c.id) <= 1
    ensures OwnIds(l)
  {
    forall i, j | 0 <= i < j < |l|
      ensures l[i].id != l[j].id
    {
      assert l[i] in l;
      if l[i].id == l[j].id {
        CountTwo(l, i, j);
      }
    }
  }

  lemma OwnTake(k: nat, l: seq<Contact>)
    requires OwnIds(l)
    ensures OwnIds(Take(k, l))
  {
  }

  /** The contacts called together have IDs of their own. */
  lemma PickOwn(cfg: Config, w: set<Contact>, s: State)
    requires ValidConfig(cfg) && ByIds(cfg, w) && Calm(cfg, w, s) && s.phase.Picking?
    ensures OwnIds(Take(s.limit, Unmarked(s.list, s.contacted)))
  {
    var open := Unmarked(s.list, s.contacted);
    if s.limit != 1 {
      CalmFacts(cfg, w, s);
      MarksAreAnswers(cfg, w, s);
      assert cfg.alpha == 1 ==> HeadAnswered(s);
      hide ByIds, Calm, Weak, Nearest, OwnIds, OneByOne, HeadAnswered;
      forall c | c in open
        ensures Count(open, c.id) <= 1
      {
        CountUnmarked(s.list, s.contacted, c.id);
        if cfg.alpha == 1 {
          HeadNearest(cfg, w, s, c);
        }
        assert Single(s, c.id);
      }
      hide Unmarked, Count;
      OwnIfSingle(open);
      OwnTake(s.limit, open);
    }
  }

  lemma FoundFirst(cfg: Config, w: set<Contact>, s: State, c: Contact)
    requires ByIds(cfg, w) && Listed(cfg, w, s.list, Elems(s.list)) && c in Others(w, cfg.self)
    requires Nearest(cfg, w, c.id) && FirstOpen(s.list, s.replies.Keys, c) && c.id !in s.replies
    ensures FoundAtOnce(cfg, s, c)
  {
    var i :| 0 <= i < |s.list| && s.list[i] == c && forall j :: 0 <= j < i ==> s.list[j].id in s.replies.Keys;
    assert s.list[0] in Elems(s.list);
    assert cfg.away(s.list[0]) == cfg.away(c);
  }

  lemma FoundAlone(cfg: Config, w: set<Contact>, s: State, c: Contact)
    requires ByIds(cfg, w) && Listed(cfg, w, s.list, Elems(s.list)) && c in Others(w, cfg.self)
    requires Count(s.list, c.id) <= 1
    ensures FoundAtOnce(cfg, s, c)
  {
    if c in s.list {
      var i :| 0 <= i < |s.list| && s.list[i] == c;
      var p := Position(cfg.away, s.list, cfg.away(c));
      assert s.list[p] in Elems(s.list);
      if p < i {
        CountTwo(s.list, p, i);
      }
    }
  }

  /** What a call failed for is removed, if it is listed. */
  lemma FailFound(cfg: Config, w: set<Contact>, s: State, c: Contact)
    requires ValidConfig(cfg) && ByIds(cfg, w) && Calm(cfg, w, s) && c in s.pending && s.pending[c].Querying?
    ensures FoundAtOnce(cfg, s, c)
  {
    CalmFacts(cfg, w, s);
    PendingMarked(cfg, w, s, c);
    InFlightIs(s, c);
    hide ByIds, Calm, Weak, FoundAtOnce, Nearest, Listed, InFlight, Others;
    if Spared(cfg, w, c.id) {
      LoneCalled(cfg, w, s, c);
      FoundFirst(cfg, w, s, c);
    } else {
      assert Single(s, c.id);
      FoundAlone(cfg, w, s, c);
    }
  }

  lemma LoneCalled(cfg: Config, w: set<Contact>, s: State, c: Contact)
    requires OneByOne(cfg, w, s) && c in InFlight(s) && Nearest(cfg, w, c.id)
    ensures FirstOpen(s.list, s.replies.Keys, c)
  {
    hide InFlight, FirstOpen, HeadRule, NoStutter, Nearest;
  }

  // ----- calm lookups end

  lemma FewTotal(cfg: Config, w: set<Contact>, s: State)
    requires ValidConfig(cfg) && TwoCalls(cfg) && Calm(cfg, w, s)
    ensures Total(s) <= 2
  {
    if cfg.alpha >= 2 {
      hide MarksOk, PhaseOk, Listed;
    } else {
      hide Weak, InFlight, FirstOpen, HeadRule, TogetherLater;
    }
  }

  lemma StepAllBehind(cfg: Config, w: set<Contact>, s: State, action: Action)
    requires ValidConfig(cfg) && ByIds(cfg, w) && Calm(cfg, w, s) && TwoCalls(cfg)
    requires Enabled(cfg, w, s, action) && Weak(cfg, w, Apply(cfg, w, s, action))
    ensures forall a :: Last(cfg, w, a) ==> Behind(cfg, Apply(cfg, w, s, action), a)
  {
    FewTotal(cfg, w, s);
    forall a | Last(cfg, w, a)
      ensures Behind(cfg, Apply(cfg, w, s, action), a)
    {
      assert Weak(cfg, w, s) && Behind(cfg, s, a);
      hide *;
      StepBehind(cfg, w, s, action, a);
    }
  }

  lemma StepWeak(cfg: Config, w: set<Contact>, s: State, a: Action)
    requires ValidConfig(cfg) && ByIds(cfg, w) && Calm(cfg, w, s) && Enabled(cfg, w, s, a)
    ensures Weak(cfg, w, s) && Weak(cfg, w, Apply(cfg, w, s, a))
  {
    CalmFacts(cfg, w, s);
    assert a.Pick? ==> s.phase.Picking?;
    hide *;
    if a.Pick? {
      PickOwn(cfg, w, s);
    }
    WeakStep(cfg, w, s, a);
  }

  /** Every step of a lookup in a world that is not restless keeps it calm. */
  lemma StepCalm(cfg: Config, w: set<Contact>, s: State, a: Action)
    requires ValidConfig(cfg) && ByIds(cfg, w) && !Restless(cfg, w) && Calm(cfg, w, s) && Enabled(cfg, w, s, a)
    ensures Calm(cfg, w, Apply(cfg, w, s, a))
  {
    StepWeak(cfg, w, s, a);
    hide Weak, Enabled, Apply, Last, Behind, ByIds, Restless, OneByOne, FirstId, AllSingle, ValidConfig;
    StepSingle(cfg, w, s, a);
    if cfg.alpha == 1 {
      StepOrderly(cfg, w, s, a);
      StepFirst(cfg, w, s, a);
    }
    if TwoCalls(cfg) {
      StepAllBehind(cfg, w, s, a);
    }
  }

  /** And comes closer to the end. */
  lemma CalmLower(cfg: Config, w: set<Contact>, s: State, a: Action)
    requires ValidConfig(cfg) && ByIds(cfg, w) && !Restless(cfg, w) && Calm(cfg, w, s) && Enabled(cfg, w, s, a)
    ensures Measure(cfg, w, Apply(cfg, w, s, a)) < Measure(cfg, w, s)
  {
    assert a.Fail? ==> a.c in s.pending && s.pending[a.c].Querying?;
    hide *;
    StepWeak(cfg, w, s, a);
    if a.Fail? {
      FailFound(cfg, w, s, a.c);
    }
    StepLower(cfg, w, s, a);
    StepMeasure(cfg, w, s, Apply(cfg, w, s, a));
  }

  lemma {:induction false} RunCalm(cfg: Config, w: set<Contact>, s: State, acts: seq<Action>)
    requires ValidConfig(cfg) && ByIds(cfg, w) && !Restless(cfg, w) && Calm(cfg, w, s) && Run(cfg, w, s, acts)
    ensures |acts| <= Measure(cfg, w, s)
    decreases |acts|
  {
    hide Calm, Enabled, Apply, Measure, Restless, ByIds, Weak;
    if acts == [] {
      CalmFacts(cfg, w, s);
      MeasureBounds(cfg, w, s);
    } else {
      StepCalm(cfg, w, s, acts[0]);
      CalmLower(cfg, w, s, acts[0]);
      RunCalm(cfg, w, Apply(cfg, w, s, acts[0]), acts[1..]);
    }
  }

  lemma SeedOrder(cfg: Config, w: set<Contact>, table: set<Contact>)
    requires World(cfg, table) && table <= w
    ensures Strict(cfg.away, Seed(cfg, table)) && Elems(Seed(cfg, table)) <= Others(w, cfg.self)
    ensures |Seed(cfg, table)| <= cfg.k && |Seed(cfg, table)| <= cfg.alpha
  {
    var others := Others(table, cfg.self);
    var near := Lowest(cfg.away, cfg.k, others);
    LowestMeaning(cfg.away, cfg.k, others);
    TakeKeepsOrder(cfg.away, cfg.alpha, near);
    forall c | c in Seed(cfg, table)
      ensures c in others
    {
      assert c in near && c in Elems(near);
    }
  }

  lemma StartCalm(cfg: Config, w: set<Contact>, seed: seq<Contact>)
    requires ValidConfig(cfg) && ByIds(cfg, w) && seed != []
    requires Strict(cfg.away, seed) && Elems(seed) <= Others(w, cfg.self) && |seed| <= cfg.k && |seed| <= cfg.alpha
    ensures Calm(cfg, w, Start(cfg, seed))
  {
    var s := Start(cfg, seed);
    WeakStart(cfg, w, seed);
    StartReady(cfg, w, seed);
    StartNothing(s);
    StrictOwn(cfg, w, seed);
    hide Weak, Strict, Others, ByIds, Elems, Inserted, Spared, InFlight, OneByOne, Start, Restless, Last, Behind;
    forall x
      ensures Single(s, x)
    {
      CountOwn(seed, x);
    }
    if cfg.alpha == 1 {
      StartOrderly(cfg, w, seed);
      OneEntry(seed);
    }
    forall a
      ensures Behind(cfg, s, a)
    {
      NothingBehind(cfg, s, a);
    }
  }

  lemma NothingBehind(cfg: Config, s: State, a: Contact)
    requires InFlight(s) == {} && s.replies == map[]
    ensures Behind(cfg, s, a)
  {
    hide InFlight;
  }

  lemma StartNothing(s: State)
    requires s.toLaunch == [] && s.pending == map[]
    ensures InFlight(s) == {}
  {
  }

  lemma OneEntry(l: seq<Contact>)
    requires |l| <= 1
    ensures OneId(Elems(l) + {})
  {
  }

  // ----- the exact condition

  /** `acts` are the first actions of a lookup that starts from `table`. */
  ghost predicate LookupRun(cfg: Config, w: set<Contact>, table: set<Contact>, acts: seq<Action>) {
    && table <= w && World(cfg, table) && Seed(cfg, table) != []
    && Run(cfg, w, Start(cfg, Seed(cfg, table)), acts)
  }

  /** No lookup takes more than `n` actions, whatever the table, the replies, the
      failures and the interleaving. */
  ghost predicate EndsWithin(cfg: Config, w: set<Contact>, n: nat) {
    forall table, acts :: LookupRun(cfg, w, table, acts) ==> |acts| <= n
  }

  lemma CalmEnds(cfg: Config, w: set<Contact>)
    requires ValidConfig(cfg) && ByIds(cfg, w) && !Restless(cfg, w)
    ensures EndsWithin(cfg, w, SettleBound(|w|, cfg.k))
  {
    hide ByIds, Restless, Seed, Start, Calm, Measure, Run, SettleBound, Others, Strict, Weak;
    forall table, acts | LookupRun(cfg, w, table, acts)
      ensures |acts| <= SettleBound(|w|, cfg.k)
    {
      var seed := Seed(cfg, table);
      SeedOrder(cfg, w, table);
      StartCalm(cfg, w, seed);
      CalmFacts(cfg, w, Start(cfg, seed));
      RunCalm(cfg, w, Start(cfg, seed), acts);
      MeasureBounds(cfg, w, Start(cfg, seed));
    }
  }

  /** A lookup without end outlasts every bound. */
  lemma EndlessOutlasts(cfg: Config, w: set<Contact>, n: nat)
    requires exists table, sched :: Endless(cfg, w, table, sched)
    ensures !EndsWithin(cfg, w, n)
  {
    var table, sched :| Endless(cfg, w, table, sched);
    hide Seed, Start, Run, Prefix;
    assert Unreturned(cfg, w, Start(cfg, Seed(cfg, table)), Prefix(sched, n + 1));
    assert LookupRun(cfg, w, table, Prefix(sched, n + 1));
  }

  /** Among the contacts `w` either all lookups end, within some number of actions,
      or one of them never does; which it is depends on whether `w` is restless. */
  lemma LookupsEndIff(cfg: Config, w: set<Contact>)
    requires ValidConfig(cfg) && ByIds(cfg, w)
    ensures (exists n: nat :: EndsWithin(cfg, w, n)) <==> !Restless(cfg, w)
    ensures (exists table, sched :: Endless(cfg, w, table, sched)) <==> Restless(cfg, w)
    ensures !Restless(cfg, w) ==> EndsWithin(cfg, w, SettleBound(|w|, cfg.k))
  {
    hide ByIds, Restless, SettleBound, EndsWithin, Endless;
    if Restless(cfg, w) {
      RestlessNeverEnds(cfg, w);
      forall n: nat
        ensures !EndsWithin(cfg, w, n)
      {
        EndlessOutlasts(cfg, w, n);
      }
    } else {
      CalmEnds(cfg, w);
      if exists table, sched :: Endless(cfg, w, table, sched) {
        EndlessOutlasts(cfg, w, SettleBound(|w|, cfg.k));
      }
    }
  }

  /** With the distance of the protocol, for any target and any contacts. */
  lemma XorLookupsEndIff(cfg: Config, target: Key, w: set<Contact>)
    requires ValidConfig(cfg) && cfg.away == Away(target)
    ensures (exists n: nat :: EndsWithin(cfg, w, n)) <==> !Restless(cfg, w)
    ensures (exists table, sched :: Endless(cfg, w, table, sched)) <==> Restless(cfg, w)
  {
    hide Restless, EndsWithin, Endless, ByIds;
    XorByIds(cfg, target, w);
    LookupsEndIff(cfg, w);
  }

  /** With room for three and two calls at once: some ID under two addresses, and
      another ID. */
  lemma RestlessWide(cfg: Config, w: set<Contact>)
    requires cfg.alpha >= 2 && cfg.k >= 3
    ensures Restless(cfg, w) <==> !OneAddress(Others(w, cfg.self)) && |Ids(Others(w, cfg.self))| >= 2
  {
    var all := Others(w, cfg.self);
    hide Others;
    if Restless(cfg, w) {
      var a, b :| Twins(cfg, w, a, b) && exists c :: Helper(cfg, w, a, c);
      var c :| Helper(cfg, w, a, c);
      SubsetSize({a.id, c.id}, Ids(all));
    }
    if !OneAddress(all) && |Ids(all)| >= 2 {
      var a, b :| a in all && b in all && a.id == b.id && a != b;
      if Ids(all) <= {a.id} {
        SubsetSize(Ids(all), {a.id});
        assert false;
      }
      var id :| id in Ids(all) && id != a.id;
      var c :| c in all && c.id == id;
      assert Twins(cfg, w, a, b) && Helper(cfg, w, a, c);
    }
  }
}
