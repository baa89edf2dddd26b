/** The rounds of a lookup (dht/node.go): who is asked, and how many at once. */
module LookupRounds {
  import opened Keys
  import opened Ranking
  import opened Contacts
  import opened Shortlists
  import opened Lookups
  import opened RestlessLookups
  import opened SingleCalls
  import opened LookupHistory

  // ----- who is asked at once

  predicate WithinRound(a: Action) {
    !a.Pick? && !a.Conclude?
  }

  lemma StepCalls(cfg: Config, w: set<Contact>, s: State, a: Action)
    requires Enabled(cfg, w, s, a) && WithinRound(a)
    ensures var t := Apply(cfg, w, s, a);
            && Total(t) <= Total(s) && t.limit == s.limit && t.closest == s.closest
            && (t.phase == s.phase)
  {
    hide LegalReply, Inserted, RemoveOne;
    match a {
      case Launch =>
        var c := s.toLaunch[0];
        SubsetSize(s.pending[c := Querying].Keys, s.pending.Keys + {c});
        assert |s.pending[c := Querying]| == |s.pending[c := Querying].Keys| && |s.pending| == |s.pending.Keys|;
      case Reply(c, _) => SameKeys(s.pending, c);
      case Offer(c, _) => SameKeys(s.pending, c);
      case Fail(c) => DropTotal(s.pending, c);
      case Finish(c) => DropTotal(s.pending, c);
      case Reinsert(c) => DropTotal(s.pending, c);
    }
  }

  lemma SameKeys(pending: map<Contact, Pc>, c: Contact)
    requires c in pending
    ensures |pending[c := Replied]| == |pending|
  {
    assert pending[c := Replied].Keys == pending.Keys;
    assert |pending[c := Replied]| == |pending[c := Replied].Keys| && |pending| == |pending.Keys|;
  }

  lemma {:induction false} RoundKeeps(cfg: Config, w: set<Contact>, s: State, acts: seq<Action>)
    requires Run(cfg, w, s, acts) && forall a :: a in acts ==> WithinRound(a)
    ensures var t := After(cfg, w, s, acts);
            Total(t) <= Total(s) && t.limit == s.limit && t.closest == s.closest && t.phase == s.phase
    decreases |acts|
  {
    hide Enabled, Apply, Total, WithinRound;
    if acts != [] {
      StepCalls(cfg, w, s, acts[0]);
      RoundKeeps(cfg, w, Apply(cfg, w, s, acts[0]), acts[1..]);
    }
  }

  /** The contacts asked in a round: listed, not yet asked, at most `n`, no more being
      left unasked than need be, and none nearer than those asked. */
  ghost predicate Asks(cfg: Config, s: State, asked: seq<Contact>, n: nat) {
    && Ascending(cfg.away, asked) && |asked| <= n
    && (forall c :: c in asked ==> c in s.list && c.id !in s.contacted)
    && (|asked| < n ==> forall c :: c in s.list && c.id !in s.contacted ==> c in asked)
    && forall near, far :: near in asked && far in s.list && far.id !in s.contacted && far !in asked ==>
         cfg.away(near) <= cfg.away(far)
  }

  lemma {:induction false} UnmarkedAscending(f: Contact -> nat, l: seq<Contact>, marks: set<Key>)
    requires Ascending(f, l)
    ensures Ascending(f, Unmarked(l, marks))
  {
    if l != [] {
      var front, c := l[..|l| - 1], l[|l| - 1];
      UnmarkedAscending(f, front, marks);
      assert l == front + [c];
      forall x | x in Unmarked(front, marks)
        ensures f(x) <= f(c)
      {
        assert x in front;
      }
    }
  }

  lemma PickAsks(cfg: Config, w: set<Contact>, s: State)
    requires Ascending(cfg.away, s.list) && s.phase.Picking?
    ensures Asks(cfg, s, Apply(cfg, w, s, Pick).toLaunch, s.limit)
  {
    var open := Unmarked(s.list, s.contacted);
    UnmarkedAscending(cfg.away, s.list, s.contacted);
    hide Unmarked;
    TakeNearest(cfg.away, open, s.limit);
    TakeKeepsOrder(cfg.away, s.limit, open);
  }

  lemma TakeNearest(f: Contact -> nat, l: seq<Contact>, n: nat)
    requires Ascending(f, l)
    ensures var r := Take(n, l);
            && |r| <= n && (forall c :: c in r ==> c in l) && (|r| < n ==> r == l)
            && forall near, far :: near in r && far in l && far !in r ==> f(near) <= f(far)
  {
    var r := Take(n, l);
    forall near, far | near in r && far in l && far !in r
      ensures f(near) <= f(far)
    {
      var i :| 0 <= i < |r| && r[i] == near;
      var j :| 0 <= j < |l| && l[j] == far;
      assert l[i] == near && forall m :: 0 <= m < |r| ==> l[m] == r[m] && r[m] in r;
    }
  }

  /** How many may be asked at once in a round that follows another: as many as the
      parallelism if the nearest listed contact changed, and all that are left if it
      stayed; the calls of the round never exceed that. */
  lemma NextRound(cfg: Config, w: set<Contact>, s: State, b: seq<Action>, d: seq<Action>)
    requires Ascending(cfg.away, s.list) && s.phase.Picking? && s.list != [] && s.closest == s.list[0]
    requires (forall a :: a in b ==> WithinRound(a)) && (forall a :: a in d ==> WithinRound(a))
    requires Run(cfg, w, s, [Pick] + b + [Conclude]) && After(cfg, w, s, [Pick] + b + [Conclude]).phase.Picking?
    requires Run(cfg, w, After(cfg, w, s, [Pick] + b + [Conclude]), [Pick] + d)
    ensures var t := After(cfg, w, s, [Pick] + b + [Conclude]);
            && t.list != [] && t.closest == t.list[0]
            && (exists asked :: Asks(cfg, t, asked, if t.list[0] == s.list[0] then MAX_INT else cfg.alpha)
                  && Total(After(cfg, w, t, [Pick] + d)) <= |asked|)
  {
    var all := [Pick] + b + [Conclude];
    var p := Apply(cfg, w, s, Pick);
    assert all[0] == Pick && all[1..] == b + [Conclude];
    RunSplit(cfg, w, p, b, [Conclude]);
    RoundKeeps(cfg, w, p, b);
    var u := After(cfg, w, p, b);
    AscendingAfter(cfg, w, s, all);
    OneStep(cfg, w, u, Conclude);
    var t := After(cfg, w, s, all);
    ConcludeLimit(cfg, w, u);
    var more := [Pick] + d;
    assert more[0] == Pick && more[1..] == d;
    PickAsks(cfg, w, t);
    RoundKeeps(cfg, w, Apply(cfg, w, t, Pick), d);
    ConcludeEmpty(cfg, w, u);
  }

  lemma ConcludeEmpty(cfg: Config, w: set<Contact>, s: State)
    requires Enabled(cfg, w, s, Conclude)
    ensures Apply(cfg, w, s, Conclude).pending == map[]
  {
    hide CacheTarget, Unmarked;
  }

  lemma ConcludeLimit(cfg: Config, w: set<Contact>, s: State)
    requires Enabled(cfg, w, s, Conclude) && Apply(cfg, w, s, Conclude).phase.Picking?
    ensures var t := Apply(cfg, w, s, Conclude);
            && t.list == s.list != [] && t.closest == t.list[0] && t.contacted == s.contacted
            && t.limit == if t.list[0] == s.closest then MAX_INT else cfg.alpha
  {
    hide CacheTarget, Unmarked;
  }

  lemma OneStep(cfg: Config, w: set<Contact>, s: State, a: Action)
    requires Run(cfg, w, s, [a])
    ensures Enabled(cfg, w, s, a) && After(cfg, w, s, [a]) == Apply(cfg, w, s, a)
  {
    assert [a][1..] == [];
  }

  lemma {:induction false} RunSplit(cfg: Config, w: set<Contact>, s: State, a: seq<Action>, b: seq<Action>)
    requires Run(cfg, w, s, a + b)
    ensures Run(cfg, w, s, a) && Run(cfg, w, After(cfg, w, s, a), b)
    ensures After(cfg, w, s, a + b) == After(cfg, w, After(cfg, w, s, a), b)
    decreases |a|
  {
    hide Enabled, Apply;
    if a == [] {
      assert a + b == b;
    } else {
      assert (a + b)[0] == a[0] && (a + b)[1..] == a[1..] + b;
      RunSplit(cfg, w, Apply(cfg, w, s, a[0]), a[1..], b);
    }
  }

  lemma {:induction false} AscendingAfter(cfg: Config, w: set<Contact>, s: State, acts: seq<Action>)
    requires Ascending(cfg.away, s.list) && Run(cfg, w, s, acts)
    ensures Ascending(cfg.away, After(cfg, w, s, acts).list)
    decreases |acts|
  {
    hide Enabled, Apply, Ascending;
    if acts != [] {
      StepAscending(cfg, w, s, acts[0]);
      AscendingAfter(cfg, w, Apply(cfg, w, s, acts[0]), acts[1..]);
    }
  }

  function Fewer(a: nat, b: nat): nat {
    if a < b then a else b
  }

  /** The first round asks the nearest contacts of the node's own table, as many as
      the parallelism and `k` allow. */
  lemma FirstRound(cfg: Config, w: set<Contact>, table: set<Contact>)
    requires ValidConfig(cfg) && World(cfg, table) && Seed(cfg, table) != []
    ensures var t := Apply(cfg, w, Start(cfg, Seed(cfg, table)), Pick);
            IsLowest(cfg.away, Fewer(cfg.alpha, cfg.k), Others(table, cfg.self), t.toLaunch)
  {
    var others := Others(table, cfg.self);
    var seed := Seed(cfg, table);
    SeedIsLowest(cfg, table);
    StartList(cfg, seed);
    var s := Start(cfg, seed);
    UnmarkedAll(s.list, s.contacted);
    hide Unmarked, IsLowest, Seed, Start, World;
    assert Take(cfg.alpha, s.list) == s.list;
  }

  lemma SeedIsLowest(cfg: Config, table: set<Contact>)
    requires ValidConfig(cfg) && World(cfg, table)
    ensures IsLowest(cfg.away, Fewer(cfg.alpha, cfg.k), Others(table, cfg.self), Seed(cfg, table))
    ensures |Seed(cfg, table)| <= cfg.alpha && |Seed(cfg, table)| <= cfg.k && Strict(cfg.away, Seed(cfg, table))
  {
    var others := Others(table, cfg.self);
    assert Distinct(cfg.away, others);
    assert Seed(cfg, table) == Lowest(cfg.away, Fewer(cfg.alpha, cfg.k), others);
    LowestMeaning(cfg.away, Fewer(cfg.alpha, cfg.k), others);
    hide Seed, Ordering;
  }

  lemma StartList(cfg: Config, seed: seq<Contact>)
    requires cfg.k >= 1 && seed != [] && Strict(cfg.away, seed) && |seed| <= cfg.k
    ensures var s := Start(cfg, seed);
            s.list == seed && s.contacted == {} && s.limit == cfg.alpha && s.phase.Picking?
  {
    InsertedStrict(cfg, seed);
    hide Inserted;
  }

  /** What is heard of is listed, unless `k` at least as near are: the contacts of a
      reply, and a contact that is put back. */
  lemma HeardIsListed(cfg: Config, w: set<Contact>, s: State, a: Action)
    requires Ascending(cfg.away, s.list) && Enabled(cfg, w, s, a) && (a.Reply? || a.Reinsert?)
    ensures var t := Apply(cfg, w, s, a);
            forall d :: d in s.list || (a.Reply? && d in a.cs) || (a.Reinsert? && d == a.c) ==>
              d in t.list || (|t.list| == cfg.k && forall e :: e in t.list ==> cfg.away(e) <= cfg.away(d))
  {
    hide LegalReply, InsertAll;
    InsertedKeeps(cfg, s.list, if a.Reply? then a.cs else [a.c]);
  }

  lemma InsertedKeeps(cfg: Config, l: seq<Contact>, cs: seq<Contact>)
    requires Ascending(cfg.away, l)
    ensures forall d :: d in l || d in cs ==>
              d in Inserted(cfg, l, cs)
              || (|Inserted(cfg, l, cs)| == cfg.k
                  && forall e :: e in Inserted(cfg, l, cs) ==> cfg.away(e) <= cfg.away(d))
  {
    var all := InsertAll(cfg.away, l, cs);
    InsertAllProperties(cfg.away, l, cs);
    TakeNearest(cfg.away, all, cfg.k);
    assert forall d :: d in l || d in cs ==> d in Elems(all);
  }
}
