/** Lookups that need not end: an ID known under two addresses, of which one is
    dead, and room for both in the shortlist (dht/node.go). */
module RestlessLookups {
  import opened Keys
  import opened Ranking
  import opened Contacts
  import opened Shortlists
  import opened PeerRecords
  import opened Lookups

  /** Distances tell IDs apart, and nothing else. */
  ghost predicate ByIds(cfg: Config, w: set<Contact>) {
    forall a, b :: a in Others(w, cfg.self) && b in Others(w, cfg.self) ==>
      (cfg.away(a) == cfg.away(b) <==> a.id == b.id)
  }

  lemma XorByIds(cfg: Config, target: Key, w: set<Contact>)
    requires cfg.away == Away(target)
    ensures ByIds(cfg, w)
  {
    forall a, b | a in Others(w, cfg.self) && b in Others(w, cfg.self)
      ensures cfg.away(a) == cfg.away(b) <==> a.id == b.id
    {
      SameDistance(target, a, b);
    }
  }

  /** Two addresses of one ID other than the node's own. */
  ghost predicate Twins(cfg: Config, w: set<Contact>, a: Contact, b: Contact) {
    a in Others(w, cfg.self) && b in Others(w, cfg.self) && a != b && a.id == b.id
  }

  /** A contact that can tell of the second address while the first is called,
      and leaves room for both. */
  ghost predicate Helper(cfg: Config, w: set<Contact>, a: Contact, c: Contact) {
    && c in Others(w, cfg.self) && c.id != a.id
    && cfg.k >= if cfg.away(a) < cfg.away(c) then 2 else 3
  }

  /** With one call at a time, that needs a contact in front as well: it has
      answered, so that the rest are called together. */
  ghost predicate Helpers(cfg: Config, w: set<Contact>, a: Contact, p: Contact, d: Contact) {
    && p in Others(w, cfg.self) && cfg.away(p) < cfg.away(a)
    && d in Others(w, cfg.self) && d.id != a.id && d.id != p.id
    && cfg.k >= if cfg.away(a) < cfg.away(d) then 3 else 4
  }

  /** When lookups among the contacts `w` need not end. */
  ghost predicate Restless(cfg: Config, w: set<Contact>) {
    exists a, b :: Twins(cfg, w, a, b) &&
      if cfg.alpha >= 2 then exists c :: Helper(cfg, w, a, c) else exists p, d :: Helpers(cfg, w, a, p, d)
  }

  // ----- lists

  lemma InsertBetween(f: Contact -> nat, p: seq<Contact>, x: Contact, q: seq<Contact>)
    requires forall c :: c in p ==> f(c) < f(x)
    requires q != [] ==> f(x) <= f(q[0]) && q[0] != x
    ensures InsertOne(f, p + q, x) == p + [x] + q
  {
    var l := p + q;
    forall j | 0 <= j < |p|
      ensures f(l[j]) < f(x)
    {
      assert l[j] == p[j] && p[j] in p;
    }
    PositionUnique(f, l, f(x), |p|);
    assert l[..|p|] == p && l[|p|..] == q;
  }

  lemma InsertNothing(f: Contact -> nat, l: seq<Contact>)
    ensures InsertAll(f, l, []) == l
  {
  }

  lemma InsertSingle(f: Contact -> nat, l: seq<Contact>, x: Contact)
    ensures InsertAll(f, l, [x]) == InsertOne(f, l, x)
  {
    hide InsertOne;
    InsertNothing(f, l);
    InsertAllStep(f, l, [x], 0);
    assert [x][..1] == [x] && [x][..0] == [];
  }

  lemma InsertPair(f: Contact -> nat, l: seq<Contact>, x: Contact, y: Contact)
    ensures InsertAll(f, l, [x, y]) == InsertOne(f, InsertOne(f, l, x), y)
  {
    hide InsertOne;
    InsertSingle(f, l, x);
    InsertAllStep(f, l, [x, y], 1);
    assert [x, y][..2] == [x, y] && [x, y][..1] == [x];
  }

  lemma {:induction false} UnmarkedNone(l: seq<Contact>, marks: set<Key>)
    requires forall c :: c in l ==> c.id in marks
    ensures Unmarked(l, marks) == []
  {
    if l != [] {
      UnmarkedNone(l[..|l| - 1], marks);
    }
  }

  lemma {:induction false} UnmarkedAll(l: seq<Contact>, marks: set<Key>)
    requires forall c :: c in l ==> c.id !in marks
    ensures Unmarked(l, marks) == l
  {
    if l != [] {
      assert l == l[..|l| - 1] + [l[|l| - 1]];
      UnmarkedAll(l[..|l| - 1], marks);
    }
  }

  /** The old address `a` is listed behind the new one, and nothing else is
      unmarked. */
  ghost predicate Spins(cfg: Config, a: Contact, b: Contact, l: seq<Contact>, m: set<Key>) {
    && a != b && a.id == b.id && a.id !in m && l != []
    && Unmarked(l, m) == [b, a]
    && RemoveOne(cfg.away, l, a) == l
    && Inserted(cfg, l, []) == l
  }

  /** Inserting the new address in front of the old one. Removal of the old one
      looks at the entry the search finds, and removes nothing. */
  lemma ShadowedList(cfg: Config, pre: seq<Contact>, a: Contact, b: Contact, suf: seq<Contact>, m: set<Key>)
    returns (l: seq<Contact>)
    requires a != b && a.id == b.id && a.id !in m && cfg.away(a) == cfg.away(b) && |pre| + 2 <= cfg.k
    requires forall c :: c in pre ==> c.id in m && cfg.away(c) < cfg.away(a)
    requires forall c :: c in suf ==> c.id in m
    ensures l == Inserted(cfg, pre + [a] + suf, [b]) && Spins(cfg, a, b, l, m)
    ensures l[0] == if pre == [] then b else pre[0]
  {
    var rest := Take(cfg.k - |pre| - 2, suf);
    l := pre + [b, a] + rest;
    ShadowedInsert(cfg, pre, a, b, suf);
    ShadowStays(cfg.away, pre, b, [a] + rest, a);
    assert pre + [b] + ([a] + rest) == l;
    ShadowedNothing(cfg, l);
    hide InsertAll, InsertOne, RemoveOne, Position, Inserted, Unmarked;
    ShadowedUnmarked(pre, [b, a], rest, m);
  }

  lemma ShadowedUnmarked(pre: seq<Contact>, mid: seq<Contact>, suf: seq<Contact>, m: set<Key>)
    requires (forall c :: c in pre ==> c.id in m) && (forall c :: c in suf ==> c.id in m)
    requires forall c :: c in mid ==> c.id !in m
    ensures Unmarked(pre + mid + suf, m) == mid
  {
    hide Unmarked;
    UnmarkedNone(pre, m);
    UnmarkedNone(suf, m);
    UnmarkedAll(mid, m);
    UnmarkedSplit(pre, mid, m);
    UnmarkedSplit(pre + mid, suf, m);
  }

  lemma ShadowedNothing(cfg: Config, l: seq<Contact>)
    requires |l| <= cfg.k
    ensures Inserted(cfg, l, []) == l
  {
    InsertNothing(cfg.away, l);
  }

  lemma ShadowedInsert(cfg: Config, pre: seq<Contact>, a: Contact, b: Contact, suf: seq<Contact>)
    requires a != b && cfg.away(a) == cfg.away(b) && |pre| + 2 <= cfg.k
    requires forall c :: c in pre ==> cfg.away(c) < cfg.away(a)
    ensures Inserted(cfg, pre + [a] + suf, [b]) == pre + [b, a] + Take(cfg.k - |pre| - 2, suf)
  {
    hide InsertAll, InsertOne;
    InsertSingle(cfg.away, pre + [a] + suf, b);
    assert pre + [a] + suf == pre + ([a] + suf);
    InsertBetween(cfg.away, pre, b, [a] + suf);
    assert pre + [b] + ([a] + suf) == pre + [b, a] + suf;
    TakeTail(cfg.k, pre + [b, a], suf);
  }

  lemma TakeTail(k: nat, l: seq<Contact>, m: seq<Contact>)
    requires |l| <= k
    ensures Take(k, l + m) == l + Take(k - |l|, m)
  {
  }

  lemma ShadowStays(f: Contact -> nat, p: seq<Contact>, b: Contact, q: seq<Contact>, a: Contact)
    requires (forall c :: c in p ==> f(c) < f(a)) && f(a) == f(b) && a != b
    ensures RemoveOne(f, p + [b] + q, a) == p + [b] + q
  {
    var l := p + [b] + q;
    forall j | 0 <= j < |p|
      ensures f(l[j]) < f(a)
    {
      assert l[j] == p[j] && p[j] in p;
    }
    PositionUnique(f, l, f(a), |p|);
  }

  // ----- replies

  lemma EmptyReplyLegal(cfg: Config, w: set<Contact>)
    ensures LegalReply(cfg, w, [])
  {
    assert Others({}, cfg.self) == {};
    assert Lowest(cfg.away, 1, {}) == [];
    assert {} <= w;
  }

  /** Contacts in order are the reply of a table that holds just them. */
  lemma StrictReplyLegal(cfg: Config, w: set<Contact>, cs: seq<Contact>)
    requires Strict(cfg.away, cs) && Elems(cs) <= Others(w, cfg.self)
    ensures LegalReply(cfg, w, cs)
  {
    var table := Elems(cs);
    assert Others(table, cfg.self) == table;
    StrictIsDistinct(cfg.away, cs);
    StrictUnique(cfg.away, Ordering(cfg.away, table), cs);
    assert Lowest(cfg.away, |cs|, table) == cs;
    assert table <= w;
  }

  // ----- rounds

  ghost predicate Spinning(cfg: Config, a: Contact, b: Contact, l: seq<Contact>, m: set<Key>, s: State) {
    && Spins(cfg, a, b, l, m) && Ready(s, l, m) && 2 <= s.limit
  }

  /** About to pick from `l`, with the marks `m`. */
  ghost predicate Ready(s: State, l: seq<Contact>, m: set<Key>) {
    && l != [] && s.list == l && s.contacted == m && s.closest == l[0]
    && s.phase.Picking? && s.toLaunch == [] && s.pending == map[] && s.peers == None
  }

  /** A run from `s` to `t`. */
  ghost predicate Leads(cfg: Config, w: set<Contact>, s: State, acts: seq<Action>, t: State) {
    Run(cfg, w, s, acts) && After(cfg, w, s, acts) == t
  }

  lemma LeadsNowhere(cfg: Config, w: set<Contact>, s: State)
    ensures Leads(cfg, w, s, [], s)
  {
  }

  lemma LeadsStep(cfg: Config, w: set<Contact>, s: State, a: Action, rest: seq<Action>, t: State)
    requires Enabled(cfg, w, s, a) && Leads(cfg, w, Apply(cfg, w, s, a), rest, t)
    ensures Leads(cfg, w, s, [a] + rest, t)
  {
    assert ([a] + rest)[1..] == rest;
  }

  lemma {:induction false} LeadsOn(cfg: Config, w: set<Contact>, s: State, acts: seq<Action>, t: State,
                                   more: seq<Action>, u: State)
    requires Leads(cfg, w, s, acts, t) && Leads(cfg, w, t, more, u)
    ensures Leads(cfg, w, s, acts + more, u)
    decreases |acts|
  {
    hide Enabled, Apply;
    if acts == [] {
      assert [] + more == more;
    } else {
      LeadsOn(cfg, w, Apply(cfg, w, s, acts[0]), acts[1..], t, more, u);
      LeadsStep(cfg, w, s, acts[0], acts[1..] + more, u);
      assert [acts[0]] + (acts[1..] + more) == acts + more;
    }
  }

  /** Two calls in one round. */
  lemma PickTwo(cfg: Config, w: set<Contact>, s: State, x: Contact, y: Contact, l: seq<Contact>, m: set<Key>)
    returns (acts: seq<Action>, t: State)
    requires Ready(s, l, m) && 2 <= s.limit && Unmarked(l, m) == [x, y] && x != y
    ensures acts == [Pick, Launch, Launch] && Leads(cfg, w, s, acts, t)
    ensures t.list == l && t.contacted == m + {x.id, y.id} && t.pending == map[x := Querying, y := Querying]
    ensures t.toLaunch == [] && t.phase == Waiting(true) && t.peers == None
    ensures t.closest == l[0] && t.limit == s.limit
  {
    hide Unmarked, RemoveOne, LegalReply, Inserted, Run, After, Leads;
    var s1 := Apply(cfg, w, s, Pick);
    assert s1.toLaunch == [x, y];
    var s2 := Apply(cfg, w, s1, Launch);
    assert s2.toLaunch == [y] && s2.pending == map[x := Querying];
    t := Apply(cfg, w, s2, Launch);
    LeadsNowhere(cfg, w, t);
    LeadsStep(cfg, w, s2, Launch, [], t);
    LeadsStep(cfg, w, s1, Launch, [Launch] + [], t);
    LeadsStep(cfg, w, s, Pick, [Launch] + ([Launch] + []), t);
    acts := [Pick] + ([Launch] + ([Launch] + []));
  }

  /** Of `a` and one more in flight, `c` answers, then `a` fails and un-marks its
      ID; so the round ends. */
  lemma AnswerAndFail(cfg: Config, w: set<Contact>, s: State, a: Contact, b: Contact, c: Contact, cs: seq<Contact>,
                      l: seq<Contact>, m: set<Key>)
    returns (acts: seq<Action>, t: State)
    requires Spins(cfg, a, b, l, m) && LegalReply(cfg, w, cs) && Inserted(cfg, s.list, cs) == l
    requires c != a && s.pending == map[a := Querying, c := Querying] && s.toLaunch == [] && s.phase == Waiting(true)
    requires s.contacted - {a.id} == m && s.peers == None
    ensures acts == [Reply(c, cs), Finish(c), Fail(a), Conclude] && Leads(cfg, w, s, acts, t)
    ensures Ready(t, l, m) && t.limit == if s.closest == l[0] then MAX_INT else cfg.alpha
  {
    hide Unmarked, RemoveOne, LegalReply, Inserted, CacheTarget, Run, After, Leads;
    var s1 := Apply(cfg, w, s, Reply(c, cs));
    assert s1.list == l && s1.pending == map[a := Querying, c := Replied];
    var s2 := Apply(cfg, w, s1, Finish(c));
    assert s2.pending == map[a := Querying];
    var s3 := Apply(cfg, w, s2, Fail(a));
    assert s3.pending == map[];
    t := Apply(cfg, w, s3, Conclude);
    LeadsNowhere(cfg, w, t);
    LeadsStep(cfg, w, s3, Conclude, [], t);
    LeadsStep(cfg, w, s2, Fail(a), [Conclude] + [], t);
    LeadsStep(cfg, w, s1, Finish(c), [Fail(a)] + ([Conclude] + []), t);
    LeadsStep(cfg, w, s, Reply(c, cs), [Finish(c)] + ([Fail(a)] + ([Conclude] + [])), t);
    acts := [Reply(c, cs)] + ([Finish(c)] + ([Fail(a)] + ([Conclude] + [])));
  }

  /** `a` and `c` are called in one round, in this order or the other; `c` answers,
      then `a` fails. */
  lemma TwoCallRound(cfg: Config, w: set<Contact>, s: State, x: Contact, y: Contact, a: Contact, b: Contact, c: Contact,
                     cs: seq<Contact>, l0: seq<Contact>, m0: set<Key>, l: seq<Contact>, m: set<Key>)
    returns (acts: seq<Action>, t: State)
    requires Ready(s, l0, m0) && 2 <= s.limit && Unmarked(l0, m0) == [x, y] && a != c
    requires (x == a && y == c) || (x == c && y == a)
    requires Spins(cfg, a, b, l, m) && LegalReply(cfg, w, cs) && Inserted(cfg, l0, cs) == l
    requires m0 + {a.id, c.id} - {a.id} == m
    ensures acts == [Pick, Launch, Launch, Reply(c, cs), Finish(c), Fail(a), Conclude] && Leads(cfg, w, s, acts, t)
    ensures Ready(t, l, m) && t.limit == if l0[0] == l[0] then MAX_INT else cfg.alpha
  {
    hide Unmarked, RemoveOne, LegalReply, Inserted, Spins, Leads;
    var before, mid := PickTwo(cfg, w, s, x, y, l0, m0);
    assert mid.pending == map[a := Querying, c := Querying];
    assert mid.contacted == m0 + {a.id, c.id};
    hide Ready;
    var after;
    after, t := AnswerAndFail(cfg, w, mid, a, b, c, cs, l, m);
    LeadsOn(cfg, w, s, before, mid, after, t);
    acts := before + after;
  }

  /** The new address answers with nothing, then the old one fails. */
  function Spin(a: Contact, b: Contact): (acts: seq<Action>)
    ensures |acts| == 7
  {
    [Pick, Launch, Launch, Reply(b, []), Finish(b), Fail(a), Conclude]
  }

  /** After that all is as it was. */
  lemma SpinRound(cfg: Config, w: set<Contact>, a: Contact, b: Contact, l: seq<Contact>, m: set<Key>, s: State)
    returns (t: State)
    requires Spinning(cfg, a, b, l, m, s)
    ensures Leads(cfg, w, s, Spin(a, b), t) && Spinning(cfg, a, b, l, m, t)
  {
    hide Spins, Ready, Unmarked, Inserted, LegalReply, Leads, Spin;
    EmptyReplyLegal(cfg, w);
    SpinsFacts(cfg, a, b, l, m);
    var acts;
    acts, t := TwoCallRound(cfg, w, s, b, a, a, b, b, [], l, m, l, m);
    SpinIs(a, b);
  }

  lemma SpinIs(a: Contact, b: Contact)
    ensures Spin(a, b) == [Pick, Launch, Launch, Reply(b, []), Finish(b), Fail(a), Conclude]
  {
  }

  lemma SpinsFacts(cfg: Config, a: Contact, b: Contact, l: seq<Contact>, m: set<Key>)
    requires Spins(cfg, a, b, l, m)
    ensures a != b && m + {a.id, b.id} - {a.id} == m && l != []
    ensures Unmarked(l, m) == [b, a] && Inserted(cfg, l, []) == l
  {
    hide Unmarked, Inserted, RemoveOne;
  }

  function SpinTimes(a: Contact, b: Contact, n: nat): (acts: seq<Action>)
    ensures |acts| == 7 * n
  {
    if n == 0 then [] else Spin(a, b) + SpinTimes(a, b, n - 1)
  }

  lemma {:induction false} SpinsOn(cfg: Config, w: set<Contact>, a: Contact, b: Contact, l: seq<Contact>, m: set<Key>,
                                   s: State, n: nat)
    returns (t: State)
    requires Spinning(cfg, a, b, l, m, s)
    ensures Leads(cfg, w, s, SpinTimes(a, b, n), t)
    decreases n
  {
    hide Leads, Spinning, Spin;
    if n == 0 {
      t := s;
      LeadsNowhere(cfg, w, s);
    } else {
      var mid := SpinRound(cfg, w, a, b, l, m, s);
      t := SpinsOn(cfg, w, a, b, l, m, mid, n - 1);
      LeadsOn(cfg, w, s, Spin(a, b), mid, SpinTimes(a, b, n - 1), t);
    }
  }

  // ----- schedules without end

  /** What happens when, for ever. */
  type Schedule = nat -> Action

  function Prefix(sched: Schedule, n: nat): (acts: seq<Action>)
    ensures |acts| == n && forall i :: 0 <= i < n ==> acts[i] == sched(i)
  {
    seq(n, i requires i >= 0 => sched(i))
  }

  /** `first`, and then spinning for ever. */
  function ThenSpin(first: seq<Action>, a: Contact, b: Contact): Schedule {
    (i: nat) => if i < |first| then first[i] else Spin(a, b)[(i - |first|) % 7]
  }

  lemma {:induction false} SpinAt(a: Contact, b: Contact, n: nat, i: nat)
    requires i < 7 * n
    ensures SpinTimes(a, b, n)[i] == Spin(a, b)[i % 7]
  {
    hide Spin;
    if i >= 7 {
      SpinAt(a, b, n - 1, i - 7);
    }
  }

  lemma PrefixSpins(first: seq<Action>, a: Contact, b: Contact, n: nat)
    ensures Prefix(ThenSpin(first, a, b), |first| + 7 * n) == first + SpinTimes(a, b, n)
  {
    hide Spin, SpinTimes;
    forall i | 0 <= i < 7 * n
      ensures SpinTimes(a, b, n)[i] == ThenSpin(first, a, b)(|first| + i)
    {
      SpinAt(a, b, n, i);
    }
  }

  lemma {:induction false} RunFront(cfg: Config, w: set<Contact>, s: State, acts: seq<Action>, n: nat)
    requires Run(cfg, w, s, acts) && n <= |acts|
    ensures Run(cfg, w, s, acts[..n])
    decreases n
  {
    hide Enabled, Apply;
    if n > 0 {
      assert acts[..n][1..] == acts[1..][..n - 1];
      RunFront(cfg, w, Apply(cfg, w, s, acts[0]), acts[1..], n - 1);
    }
  }

  /** Returning is over with: no call is pending then. */
  ghost predicate Over(s: State) {
    s.phase.Returned? ==> s.pending == map[]
  }

  lemma StepOver(cfg: Config, w: set<Contact>, s: State, a: Action)
    requires Over(s) && Enabled(cfg, w, s, a)
    ensures Over(Apply(cfg, w, s, a)) && !s.phase.Returned?
  {
    hide LegalReply, Inserted, RemoveOne, CacheTarget, Unmarked;
  }

  /** A lookup that takes another step had not returned. */
  lemma {:induction false} NotReturned(cfg: Config, w: set<Contact>, s: State, acts: seq<Action>, n: nat)
    requires Over(s) && Run(cfg, w, s, acts) && n < |acts|
    ensures Run(cfg, w, s, acts[..n]) && !After(cfg, w, s, acts[..n]).phase.Returned?
    decreases n
  {
    hide Enabled, Apply, Over;
    RunFront(cfg, w, s, acts, n);
    StepOver(cfg, w, s, acts[0]);
    if n > 0 {
      assert acts[..n][1..] == acts[1..][..n - 1];
      NotReturned(cfg, w, Apply(cfg, w, s, acts[0]), acts[1..], n - 1);
    }
  }

  // ----- how such a round is reached

  /** A lookup from `table` that goes by `sched` and never returns. */
  ghost predicate Endless(cfg: Config, w: set<Contact>, table: set<Contact>, sched: Schedule) {
    && table <= w && World(cfg, table) && Seed(cfg, table) != []
    && forall n: nat :: Unreturned(cfg, w, Start(cfg, Seed(cfg, table)), Prefix(sched, n))
  }

  /** `acts` is a run at whose end the lookup has not returned. */
  ghost predicate Unreturned(cfg: Config, w: set<Contact>, s: State, acts: seq<Action>) {
    Run(cfg, w, s, acts) && !After(cfg, w, s, acts).phase.Returned?
  }

  /** A table of contacts in order gives them as the seed, cut to what is asked
      at once. */
  lemma SeedOf(cfg: Config, w: set<Contact>, l: seq<Contact>)
    requires ValidConfig(cfg) && l != [] && Strict(cfg.away, l) && Elems(l) <= Others(w, cfg.self) && |l| <= cfg.k
    requires OneAddress(Elems(l))
    ensures Elems(l) <= w && World(cfg, Elems(l)) && Seed(cfg, Elems(l)) == Take(cfg.alpha, l)
  {
    var table := Elems(l);
    StrictIsDistinct(cfg.away, l);
    assert Others(table, cfg.self) == table;
    StrictUnique(cfg.away, Ordering(cfg.away, table), l);
  }

  lemma InsertedStrict(cfg: Config, l: seq<Contact>)
    requires Strict(cfg.away, l) && |l| <= cfg.k
    ensures Inserted(cfg, [], l) == l
  {
    StrictIsDistinct(cfg.away, l);
    InsertAllProperties(cfg.away, [], l);
    assert Elems([]) + Elems(l) == Elems(l);
    StrictUnique(cfg.away, InsertAll(cfg.away, [], l), l);
  }

  lemma StartReady(cfg: Config, w: set<Contact>, l: seq<Contact>)
    requires ValidConfig(cfg) && l != [] && Strict(cfg.away, l) && |l| <= cfg.k
    ensures Ready(Start(cfg, l), l, {}) && Start(cfg, l).limit == cfg.alpha && Start(cfg, l).list == l
  {
    InsertedStrict(cfg, l);
  }

  lemma TwoInOrder(f: Contact -> nat, x: Contact, y: Contact)
    requires f(x) < f(y)
    ensures Strict(f, [x, y]) && Elems([x, y]) == {x, y}
  {
  }

  lemma TogetherLists(cfg: Config, a: Contact, b: Contact, c: Contact) returns (l0: seq<Contact>, l: seq<Contact>)
    requires a != b && a.id == b.id != c.id && cfg.away(a) == cfg.away(b) != cfg.away(c)
    requires cfg.k >= if cfg.away(a) < cfg.away(c) then 2 else 3
    ensures l0 == if cfg.away(a) < cfg.away(c) then [a, c] else [c, a]
    ensures Strict(cfg.away, l0) && Elems(l0) == {a, c} && Unmarked(l0, {}) == l0
    ensures l == Inserted(cfg, l0, [b]) && Spins(cfg, a, b, l, {c.id})
  {
    hide Inserted, Spins, Unmarked;
    if cfg.away(a) < cfg.away(c) {
      l0 := [a, c];
      TwoInOrder(cfg.away, a, c);
      assert [] + [a] + [c] == l0;
      l := ShadowedList(cfg, [], a, b, [c], {c.id});
    } else {
      l0 := [c, a];
      TwoInOrder(cfg.away, c, a);
      assert [c] + [a] + [] == l0;
      l := ShadowedList(cfg, [c], a, b, [], {c.id});
    }
    UnmarkedAll(l0, {});
  }

  /** The old address and a contact that knows the new one are called at once. */
  lemma TogetherNeverEnds(cfg: Config, w: set<Contact>, a: Contact, b: Contact, c: Contact)
    returns (table: set<Contact>, sched: Schedule)
    requires ValidConfig(cfg) && 2 <= cfg.alpha
    requires a in Others(w, cfg.self) && b in Others(w, cfg.self) && c in Others(w, cfg.self)
    requires a != b && a.id == b.id != c.id && cfg.away(a) == cfg.away(b) != cfg.away(c)
    requires cfg.k >= if cfg.away(a) < cfg.away(c) then 2 else 3
    ensures Endless(cfg, w, table, sched)
  {
    hide *;
    var l0, l := TogetherLists(cfg, a, b, c);
    PairOneAddress(a, c);
    StartReady(cfg, w, l0);
    var s := Start(cfg, l0);
    assert l0 == [l0[0], l0[1]] && {} + {c.id} == {c.id};
    TellsNew(cfg, w, b);
    var first, mid := TogetherRound(cfg, w, s, l0[0], l0[1], a, b, c, {}, l);
    table, sched := Elems(l0), ThenSpin(first, a, b);
    ThenSpins(cfg, w, a, b, l, {c.id}, l0, first, mid);
  }

  lemma PairOneAddress(a: Contact, c: Contact)
    requires a.id != c.id
    ensures OneAddress({a, c})
  {
  }

  lemma TellsNew(cfg: Config, w: set<Contact>, b: Contact)
    requires b in Others(w, cfg.self)
    ensures LegalReply(cfg, w, [b])
  {
    assert Elems([b]) == {b};
    StrictReplyLegal(cfg, w, [b]);
  }

  lemma SingleFacts(cfg: Config, p: Contact)
    ensures Elems([p]) == {p} && OneAddress({p}) && Strict(cfg.away, [p])
  {
  }

  /** The round of `TwoCallRound` in which `c` tells of the new address. */
  lemma TogetherRound(cfg: Config, w: set<Contact>, s: State, x: Contact, y: Contact, a: Contact, b: Contact,
                      c: Contact, m0: set<Key>, l: seq<Contact>)
    returns (acts: seq<Action>, t: State)
    requires Ready(s, s.list, m0) && 2 <= s.limit && Unmarked(s.list, m0) == [x, y] && a.id != c.id && a.id !in m0
    requires (x == a && y == c) || (x == c && y == a)
    requires Spins(cfg, a, b, l, m0 + {c.id}) && LegalReply(cfg, w, [b]) && Inserted(cfg, s.list, [b]) == l
    requires cfg.alpha >= 2 || s.list[0] == l[0]
    ensures Leads(cfg, w, s, acts, t) && Ready(t, l, m0 + {c.id}) && t.limit >= 2
  {
    hide Unmarked, LegalReply, Inserted, Leads, Spins, Ready;
    assert m0 + {a.id, c.id} - {a.id} == m0 + {c.id};
    acts, t := TwoCallRound(cfg, w, s, x, y, a, b, c, [b], s.list, m0, l, m0 + {c.id});
  }

  /** A lookup that begins with `l` and comes to spin goes on for ever. */
  lemma ThenSpins(cfg: Config, w: set<Contact>, a: Contact, b: Contact, l: seq<Contact>, m: set<Key>,
                  seed: seq<Contact>, first: seq<Action>, mid: State)
    requires ValidConfig(cfg) && seed != [] && Strict(cfg.away, seed) && Elems(seed) <= Others(w, cfg.self)
    requires OneAddress(Elems(seed)) && |seed| <= cfg.alpha && |seed| <= cfg.k
    requires Leads(cfg, w, Start(cfg, seed), first, mid)
    requires Spins(cfg, a, b, l, m) && Ready(mid, l, m) && mid.limit >= 2
    ensures Endless(cfg, w, Elems(seed), ThenSpin(first, a, b))
  {
    var sched := ThenSpin(first, a, b);
    hide Prefix, ThenSpin, Seed, Leads, Spins, Ready, Unreturned, Others, OneAddress, Strict, Elems, World;
    SeedOf(cfg, w, seed);
    StartOver(cfg, seed);
    hide Start;
    forall n: nat
      ensures Unreturned(cfg, w, Start(cfg, seed), Prefix(sched, n))
    {
      SpinsPast(cfg, w, a, b, l, m, Start(cfg, seed), first, mid, n);
    }
  }

  lemma StartOver(cfg: Config, seed: seq<Contact>)
    requires seed != [] && cfg.k >= 1
    ensures Over(Start(cfg, seed))
  {
  }

  lemma SpinsPast(cfg: Config, w: set<Contact>, a: Contact, b: Contact, l: seq<Contact>, m: set<Key>,
                  s: State, first: seq<Action>, mid: State, n: nat)
    requires Over(s) && Leads(cfg, w, s, first, mid)
    requires Spins(cfg, a, b, l, m) && Ready(mid, l, m) && mid.limit >= 2
    ensures Unreturned(cfg, w, s, Prefix(ThenSpin(first, a, b), n))
  {
    assert Spinning(cfg, a, b, l, m, mid);
    hide Spins, Ready, Run, After, Over, SpinTimes, ThenSpin, Spinning, Prefix, Unreturned;
    var t := SpinsOn(cfg, w, a, b, l, m, mid, n + 1);
    LeadsOn(cfg, w, s, first, mid, SpinTimes(a, b, n + 1), t);
    hide Leads;
    PrefixSpins(first, a, b, n + 1);
    LongUnreturned(cfg, w, s, ThenSpin(first, a, b), |first| + 7 * (n + 1), t, n);
  }

  lemma LongUnreturned(cfg: Config, w: set<Contact>, s: State, sched: Schedule, m: nat, t: State, n: nat)
    requires Over(s) && Leads(cfg, w, s, Prefix(sched, m), t) && n < m
    ensures Unreturned(cfg, w, s, Prefix(sched, n))
  {
    hide Over, Run, After;
    NotReturned(cfg, w, s, Prefix(sched, m), n);
    assert Prefix(sched, m)[..n] == Prefix(sched, n);
  }

  /** One call; the contact called keeps in front. */
  lemma OneCallRound(cfg: Config, w: set<Contact>, s: State, p: Contact, z: seq<Contact>)
    returns (acts: seq<Action>, t: State)
    requires Ready(s, [p], {}) && s.limit >= 1 && LegalReply(cfg, w, z)
    requires Inserted(cfg, [p], z) == [p] + z && Unmarked([p] + z, {p.id}) == z && z != []
    ensures Leads(cfg, w, s, acts, t) && Ready(t, [p] + z, {p.id}) && t.limit == MAX_INT && t.list == [p] + z
  {
    hide Leads;
    var before, mid := PickOne(cfg, w, s, p);
    hide Ready;
    var after;
    after, t := AnswerInFront(cfg, w, mid, p, z);
    LeadsOn(cfg, w, s, before, mid, after, t);
    acts := before + after;
  }

  lemma PickOne(cfg: Config, w: set<Contact>, s: State, p: Contact)
    returns (acts: seq<Action>, t: State)
    requires Ready(s, [p], {}) && s.limit >= 1
    ensures Leads(cfg, w, s, acts, t)
    ensures t.list == [p] && t.contacted == {p.id} && t.pending == map[p := Querying]
    ensures t.toLaunch == [] && t.phase == Waiting(true) && t.peers == None && t.closest == p
  {
    UnmarkedAll([p], {});
    hide Unmarked, RemoveOne, LegalReply, Inserted, Run, After, Leads;
    var s1 := Apply(cfg, w, s, Pick);
    assert s1.toLaunch == [p];
    t := Apply(cfg, w, s1, Launch);
    LeadsNowhere(cfg, w, t);
    LeadsStep(cfg, w, s1, Launch, [], t);
    LeadsStep(cfg, w, s, Pick, [Launch] + [], t);
    acts := [Pick] + ([Launch] + []);
  }

  lemma AnswerInFront(cfg: Config, w: set<Contact>, s: State, p: Contact, z: seq<Contact>)
    returns (acts: seq<Action>, t: State)
    requires s.list == [p] && s.contacted == {p.id} && s.pending == map[p := Querying]
    requires s.toLaunch == [] && s.phase == Waiting(true) && s.peers == None && s.closest == p
    requires LegalReply(cfg, w, z) && Inserted(cfg, [p], z) == [p] + z && Unmarked([p] + z, {p.id}) == z && z != []
    ensures Leads(cfg, w, s, acts, t) && Ready(t, [p] + z, {p.id}) && t.limit == MAX_INT && t.list == [p] + z
  {
    hide Unmarked, RemoveOne, LegalReply, Inserted, CacheTarget, Run, After, Leads;
    var s1 := Apply(cfg, w, s, Reply(p, z));
    assert s1.pending == map[p := Replied];
    var s2 := Apply(cfg, w, s1, Finish(p));
    assert s2.pending == map[];
    t := Apply(cfg, w, s2, Conclude);
    LeadsNowhere(cfg, w, t);
    LeadsStep(cfg, w, s2, Conclude, [], t);
    LeadsStep(cfg, w, s1, Finish(p), [Conclude] + [], t);
    LeadsStep(cfg, w, s, Reply(p, z), [Finish(p)] + ([Conclude] + []), t);
    acts := [Reply(p, z)] + ([Finish(p)] + ([Conclude] + []));
  }

  lemma AfterFront(cfg: Config, p: Contact, x: Contact, y: Contact)
    requires 3 <= cfg.k && cfg.away(p) < cfg.away(x) < cfg.away(y) && p.id != x.id && p.id != y.id
    ensures Inserted(cfg, [p], [x, y]) == [p] + [x, y] && Unmarked([p] + [x, y], {p.id}) == [x, y]
  {
    InsertedAfter(cfg, p, x, y);
    hide Inserted;
    UnmarkedNone([p], {p.id});
    UnmarkedAll([x, y], {p.id});
    hide Unmarked;
    UnmarkedSplit([p], [x, y], {p.id});
  }

  lemma InsertedAfter(cfg: Config, p: Contact, x: Contact, y: Contact)
    requires 3 <= cfg.k && cfg.away(p) < cfg.away(x) < cfg.away(y)
    ensures Inserted(cfg, [p], [x, y]) == [p] + [x, y]
  {
    var f := cfg.away;
    hide InsertOne, InsertAll;
    InsertPair(f, [p], x, y);
    assert [p] + [] == [p] && [p] + [x] + [] == [p, x];
    assert [p, x] + [] == [p, x] && [p, x] + [y] + [] == [p] + [x, y];
    InsertBetween(f, [p], x, []);
    InsertBetween(f, [p, x], y, []);
  }

  lemma OneByOneLists(cfg: Config, a: Contact, b: Contact, p: Contact, d: Contact)
    returns (x: Contact, y: Contact, l: seq<Contact>)
    requires a != b && a.id == b.id && d.id != a.id && p.id != a.id && d.id != p.id
    requires cfg.away(a) == cfg.away(b) != cfg.away(d) && cfg.away(p) < cfg.away(a) && cfg.away(p) < cfg.away(d)
    requires cfg.k >= if cfg.away(a) < cfg.away(d) then 3 else 4
    ensures (x == a && y == d) || (x == d && y == a)
    ensures Strict(cfg.away, [x, y]) && Elems([x, y]) == {a, d}
    ensures Inserted(cfg, [p], [x, y]) == [p] + [x, y] && Unmarked([p] + [x, y], {p.id}) == [x, y]
    ensures l == Inserted(cfg, [p] + [x, y], [b]) && Spins(cfg, a, b, l, {p.id, d.id}) && l[0] == p
  {
    hide Inserted, Spins, Unmarked;
    if cfg.away(a) < cfg.away(d) {
      x, y := a, d;
      assert [p] + [a] + [d] == [p] + [x, y];
      l := ShadowedList(cfg, [p], a, b, [d], {p.id, d.id});
    } else {
      x, y := d, a;
      assert [p, d] + [a] + [] == [p] + [x, y];
      l := ShadowedList(cfg, [p, d], a, b, [], {p.id, d.id});
    }
    TwoInOrder(cfg.away, x, y);
    AfterFront(cfg, p, x, y);
  }

  /** One call at a time: a contact in front answers with the old address and a
      contact that knows the new one; these two are then called at once. */
  lemma OneByOneRounds(cfg: Config, w: set<Contact>, s: State, a: Contact, b: Contact, p: Contact, d: Contact,
                       x: Contact, y: Contact, z: seq<Contact>, l1: seq<Contact>, l: seq<Contact>)
    returns (acts: seq<Action>, t: State)
    requires Ready(s, [p], {}) && s.limit >= 1 && LegalReply(cfg, w, z) && LegalReply(cfg, w, [b])
    requires (x == a && y == d) || (x == d && y == a)
    requires a.id != d.id && a.id != p.id && z != [] && l1 == [p] + z
    requires Inserted(cfg, [p], z) == l1 && Unmarked(l1, {p.id}) == z == [x, y]
    requires l == Inserted(cfg, l1, [b]) && Spins(cfg, a, b, l, {p.id} + {d.id}) && l[0] == p
    ensures Leads(cfg, w, s, acts, t) && Ready(t, l, {p.id} + {d.id}) && t.limit >= 2
  {
    assert MAX_INT >= 2 && l1[0] == p;
    hide *;
    var one, s1 := OneCallRound(cfg, w, s, p, z);
    var two;
    two, t := TogetherRound(cfg, w, s1, x, y, a, b, d, {p.id}, l);
    LeadsOn(cfg, w, s, one, s1, two, t);
    acts := one + two;
  }

  lemma OneByOneNeverEnds(cfg: Config, w: set<Contact>, a: Contact, b: Contact, p: Contact, d: Contact)
    returns (table: set<Contact>, sched: Schedule)
    requires ValidConfig(cfg) && cfg.alpha == 1
    requires a in Others(w, cfg.self) && b in Others(w, cfg.self)
    requires p in Others(w, cfg.self) && d in Others(w, cfg.self)
    requires a != b && a.id == b.id && d.id != a.id && p.id != a.id && d.id != p.id
    requires cfg.away(a) == cfg.away(b) != cfg.away(d) && cfg.away(p) < cfg.away(a) && cfg.away(p) < cfg.away(d)
    requires cfg.k >= if cfg.away(a) < cfg.away(d) then 3 else 4
    ensures Endless(cfg, w, table, sched)
  {
    hide *;
    var x, y, l := OneByOneLists(cfg, a, b, p, d);
    SingleFacts(cfg, p);
    StartReady(cfg, w, [p]);
    StrictReplyLegal(cfg, w, [x, y]);
    TellsNew(cfg, w, b);
    assert {p.id, d.id} == {p.id} + {d.id};
    var first, mid := OneByOneRounds(cfg, w, Start(cfg, [p]), a, b, p, d, x, y, [x, y], [p] + [x, y], l);
    table, sched := Elems([p]), ThenSpin(first, a, b);
    ThenSpins(cfg, w, a, b, l, {p.id} + {d.id}, [p], first, mid);
  }

  /** In a restless world some lookup never returns. */
  lemma RestlessNeverEnds(cfg: Config, w: set<Contact>)
    requires ValidConfig(cfg) && ByIds(cfg, w) && Restless(cfg, w)
    ensures exists table, sched :: Endless(cfg, w, table, sched)
  {
    hide Endless, ByIds;
    var a, b :| Twins(cfg, w, a, b) &&
      if cfg.alpha >= 2 then exists c :: Helper(cfg, w, a, c) else exists p, d :: Helpers(cfg, w, a, p, d);
    InFront(cfg, w, a, b);
    if cfg.alpha >= 2 {
      var c :| Helper(cfg, w, a, c);
      InFront(cfg, w, a, c);
      var table, sched := TogetherNeverEnds(cfg, w, a, b, c);
    } else {
      var p, d :| Helpers(cfg, w, a, p, d);
      InFront(cfg, w, p, d);
      InFront(cfg, w, p, a);
      InFront(cfg, w, d, a);
      if cfg.away(p) < cfg.away(d) {
        var table, sched := OneByOneNeverEnds(cfg, w, a, b, p, d);
      } else {
        var table, sched := OneByOneNeverEnds(cfg, w, a, b, d, p);
      }
    }
  }

  lemma InFront(cfg: Config, w: set<Contact>, p: Contact, d: Contact)
    requires ByIds(cfg, w) && p in Others(w, cfg.self) && d in Others(w, cfg.self)
    ensures cfg.away(p) == cfg.away(d) <==> p.id == d.id
  {
  }
}
