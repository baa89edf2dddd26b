/** Exactly when lookups end: the worlds that are not restless keep what makes the
    measure of `Settling` go down (dht/node.go). */
module CalmLookups {
  import opened Keys
  import opened Ranking
  import opened Contacts
  import opened Shortlists
  import opened Lookups
  import opened RestlessLookups
  import opened Settling

  // ----- counting entries

  function Count(l: seq<Contact>, x: Key): (n: nat)
    ensures n <= |l|
  {
    if l == [] then 0 else (if l[0].id == x then 1 else 0) + Count(l[1..], x)
  }

  lemma {:induction false} CountJoin(l: seq<Contact>, m: seq<Contact>, x: Key)
    ensures Count(l + m, x) == Count(l, x) + Count(m, x)
  {
    if l == [] {
      assert l + m == m;
    } else {
      assert (l + m)[1..] == l[1..] + m;
      CountJoin(l[1..], m, x);
    }
  }

  lemma {:induction false} CountHas(l: seq<Contact>, x: Key)
    ensures Count(l, x) > 0 <==> exists c :: c in l && c.id == x
  {
    if l != [] {
      CountHas(l[1..], x);
      assert l == [l[0]] + l[1..];
      assert l[0] in l;
    }
  }

  lemma CountTwo(l: seq<Contact>, i: nat, j: nat)
    requires i < j < |l| && l[i].id == l[j].id
    ensures Count(l, l[i].id) >= 2
  {
    var x := l[i].id;
    assert l == l[..j] + l[j..];
    CountJoin(l[..j], l[j..], x);
    CountHas(l[..j], x);
    CountHas(l[j..], x);
    assert l[..j][i] in l[..j] && l[j..][0] in l[j..];
  }

  lemma {:induction false} CountOwn(l: seq<Contact>, x: Key)
    requires OwnIds(l)
    ensures Count(l, x) <= 1
  {
    if l != [] {
      assert OwnIds(l[1..]) by {
        assert forall i :: 0 <= i < |l| - 1 ==> l[1..][i] == l[i + 1];
      }
      CountOwn(l[1..], x);
      CountHas(l[1..], x);
      forall c | c in l[1..]
        ensures c.id != l[0].id
      {
        var i :| 0 <= i < |l| - 1 && l[1..][i] == c;
        assert l[i + 1] == c;
      }
    }
  }

  lemma CountInsertOne(f: Contact -> nat, l: seq<Contact>, c: Contact, x: Key)
    ensures Count(InsertOne(f, l, c), x) <= Count(l, x) + if c.id == x then 1 else 0
  {
    var p := Position(f, l, f(c));
    assert l == l[..p] + l[p..];
    CountJoin(l[..p], l[p..], x);
    CountJoin(l[..p] + [c], l[p..], x);
    CountJoin(l[..p], [c], x);
  }

  lemma {:induction false} CountInsertAll(f: Contact -> nat, l: seq<Contact>, cs: seq<Contact>, x: Key)
    ensures Count(InsertAll(f, l, cs), x) <= Count(l, x) + Count(cs, x)
  {
    if cs != [] {
      var front, c := cs[..|cs| - 1], cs[|cs| - 1];
      CountInsertAll(f, l, front, x);
      CountInsertOne(f, InsertAll(f, l, front), c, x);
      assert cs == front + [c];
      hide InsertOne;
      CountJoin(front, [c], x);
      assert Count([c], x) == if c.id == x then 1 else 0;
      hide Count;
    }
  }

  lemma CountTake(k: nat, l: seq<Contact>, x: Key)
    ensures Count(Take(k, l), x) <= Count(l, x)
  {
    if |l| > k {
      assert l == l[..k] + l[k..];
      CountJoin(l[..k], l[k..], x);
    }
  }

  lemma CountRemove(f: Contact -> nat, l: seq<Contact>, c: Contact, x: Key)
    ensures Count(RemoveOne(f, l, c), x) <= Count(l, x)
  {
    var p := Position(f, l, f(c));
    if p < |l| {
      assert l == l[..p] + ([l[p]] + l[p + 1..]);
      CountJoin(l[..p], [l[p]] + l[p + 1..], x);
      CountJoin([l[p]], l[p + 1..], x);
      CountJoin(l[..p], l[p + 1..], x);
    }
  }

  lemma {:induction false} CountUnmarked(l: seq<Contact>, marks: set<Key>, x: Key)
    requires x !in marks
    ensures Count(Unmarked(l, marks), x) == Count(l, x)
  {
    if l != [] {
      var front, c := l[..|l| - 1], l[|l| - 1];
      CountUnmarked(front, marks, x);
      CountLast(front, c, x);
      assert l == front + [c];
      if c.id !in marks {
        CountLast(Unmarked(front, marks), c, x);
      } else {
        assert Unmarked(l, marks) == Unmarked(front, marks);
      }
    }
  }

  lemma CountLast(l: seq<Contact>, c: Contact, x: Key)
    ensures Count(l + [c], x) == Count(l, x) + if c.id == x then 1 else 0
  {
    CountJoin(l, [c], x);
  }

  // ----- entries nearer than a distance

  lemma PositionAtLeast(f: Contact -> nat, l: seq<Contact>, d: nat, i: nat)
    requires Ascending(f, l) && i < |l| && f(l[i]) < d
    ensures i < Position(f, l, d)
  {
  }

  lemma PositionInsertOne(f: Contact -> nat, l: seq<Contact>, c: Contact, d: nat)
    requires Ascending(f, l)
    ensures Position(f, InsertOne(f, l, c), d) >= Position(f, l, d)
  {
    var r, p, n := InsertOne(f, l, c), Position(f, l, f(c)), Position(f, l, d);
    InsertOneAscending(f, l, c);
    if r != l && n > 0 {
      assert r[if n - 1 < p then n - 1 else n] == l[n - 1];
      PositionAtLeast(f, r, d, if n - 1 < p then n - 1 else n);
    }
  }

  lemma {:induction false} PositionInsertAll(f: Contact -> nat, l: seq<Contact>, cs: seq<Contact>, d: nat)
    requires Ascending(f, l)
    ensures Ascending(f, InsertAll(f, l, cs)) && Position(f, InsertAll(f, l, cs), d) >= Position(f, l, d)
  {
    if cs != [] {
      PositionInsertAll(f, l, cs[..|cs| - 1], d);
      InsertOneAscending(f, InsertAll(f, l, cs[..|cs| - 1]), cs[|cs| - 1]);
      PositionInsertOne(f, InsertAll(f, l, cs[..|cs| - 1]), cs[|cs| - 1], d);
    }
  }

  lemma PositionTake(f: Contact -> nat, k: nat, l: seq<Contact>, d: nat)
    requires Ascending(f, l)
    ensures Position(f, Take(k, l), d) == if Position(f, l, d) < k then Position(f, l, d) else k
  {
    var p := Position(f, l, d);
    if |l| > k {
      PositionUnique(f, l[..k], d, if p < k then p else k);
    }
  }

  /** Of what is at distance `d` there is room for what the nearer leave. */
  lemma CountRoom(f: Contact -> nat, k: nat, all: seq<Contact>, x: Key, d: nat)
    requires Ascending(f, all) && forall c :: c in all && c.id == x ==> f(c) == d
    ensures Count(Take(k, all), x) <= if Position(f, all, d) < k then k - Position(f, all, d) else 0
  {
    var p, m := Position(f, all, d), Take(k, all);
    var q := if p < |m| then p else |m|;
    assert m == m[..q] + m[q..];
    CountJoin(m[..q], m[q..], x);
    CountHas(m[..q], x);
    forall c | c in m[..q]
      ensures c.id != x
    {
      var i :| 0 <= i < q && m[..q][i] == c;
      assert all[i] == c && f(all[i]) < d;
      assert all[i] in all;
    }
  }

  // ----- worlds in which nothing is called twice at once

  /** Some contact of the world has the ID and no other is nearer. */
  ghost predicate Nearest(cfg: Config, w: set<Contact>, x: Key) {
    forall a, c :: a in Others(w, cfg.self) && c in Others(w, cfg.self) && a.id == x ==> cfg.away(a) <= cfg.away(c)
  }

  ghost predicate Farthest(cfg: Config, w: set<Contact>, a: Contact) {
    forall c :: c in Others(w, cfg.self) ==> cfg.away(c) <= cfg.away(a)
  }

  /** With one call at a time the nearest ID may be listed twice: it comes first,
      and is called alone. */
  ghost predicate Spared(cfg: Config, w: set<Contact>, x: Key) {
    cfg.alpha == 1 && Nearest(cfg, w, x)
  }

  ghost predicate OneOther(cfg: Config, w: set<Contact>, a: Contact) {
    forall p, d :: p in Others(w, cfg.self) && d in Others(w, cfg.self) && p.id != a.id && d.id != a.id ==> p.id == d.id
  }

  ghost predicate NoOther(cfg: Config, w: set<Contact>, a: Contact) {
    forall c :: c in Others(w, cfg.self) ==> c.id == a.id
  }

  /** What is left for an ID under two addresses in a world that is not restless. */
  ghost predicate Cramped(cfg: Config, w: set<Contact>, a: Contact) {
    || cfg.k == 1
    || (cfg.alpha >= 2 && (NoOther(cfg, w, a) || (cfg.k == 2 && Farthest(cfg, w, a))))
    || (cfg.alpha == 1
        && (cfg.k == 2 || (cfg.k == 3 && Farthest(cfg, w, a)) || (Farthest(cfg, w, a) && OneOther(cfg, w, a))))
  }

  lemma TwinsCramped(cfg: Config, w: set<Contact>, a: Contact, b: Contact)
    requires ValidConfig(cfg) && ByIds(cfg, w) && !Restless(cfg, w)
    requires Twins(cfg, w, a, b) && !Spared(cfg, w, a.id)
    ensures Cramped(cfg, w, a)
  {
    if cfg.alpha >= 2 {
      assert forall c :: !Helper(cfg, w, a, c);
      CrampedTogether(cfg, w, a);
    } else {
      assert forall p, d :: !Helpers(cfg, w, a, p, d);
      CrampedAlone(cfg, w, a);
    }
  }

  lemma CrampedTogether(cfg: Config, w: set<Contact>, a: Contact)
    requires ValidConfig(cfg) && ByIds(cfg, w) && a in Others(w, cfg.self) && cfg.alpha >= 2
    requires forall c :: !Helper(cfg, w, a, c)
    ensures Cramped(cfg, w, a)
  {
    forall c | c in Others(w, cfg.self)
      ensures c.id == a.id || cfg.k < if cfg.away(a) < cfg.away(c) then 2 else 3
    {
      assert !Helper(cfg, w, a, c);
    }
  }

  lemma CrampedAlone(cfg: Config, w: set<Contact>, a: Contact)
    requires ValidConfig(cfg) && ByIds(cfg, w) && a in Others(w, cfg.self) && cfg.alpha == 1
    requires (forall p, d :: !Helpers(cfg, w, a, p, d)) && !Nearest(cfg, w, a.id)
    ensures Cramped(cfg, w, a)
  {
    if cfg.k >= 3 {
      var e, p :| e in Others(w, cfg.self) && p in Others(w, cfg.self) && e.id == a.id && cfg.away(p) < cfg.away(e);
      assert cfg.away(e) == cfg.away(a) && p.id != a.id;
      forall d | d in Others(w, cfg.self) && d.id != a.id && d.id != p.id
        ensures cfg.k < if cfg.away(a) < cfg.away(d) then 3 else 4
      {
        assert !Helpers(cfg, w, a, p, d);
      }
    }
  }

  // ----- one entry an ID

  /** An ID that has not answered is listed once at most. */
  ghost predicate Single(s: State, x: Key) {
    x !in s.replies ==> Count(s.list, x) <= 1
  }

  ghost predicate AllSingle(cfg: Config, w: set<Contact>, s: State) {
    forall x :: Spared(cfg, w, x) || Single(s, x)
  }

  lemma SameIdDistance(cfg: Config, w: set<Contact>, l: seq<Contact>, a: Contact)
    requires ByIds(cfg, w) && Elems(l) <= Others(w, cfg.self) && a in Others(w, cfg.self)
    ensures forall c :: c in l ==> (c.id == a.id <==> cfg.away(c) == cfg.away(a))
  {
    assert forall c :: c in l ==> c in Elems(l);
  }

  /** Only one contact of the world has the ID of `a`. */
  ghost predicate Sole(w: set<Contact>, self: Key, a: Contact) {
    forall c :: c in Others(w, self) && c.id == a.id ==> c == a
  }

  lemma SoleInsertOne(cfg: Config, w: set<Contact>, l: seq<Contact>, c: Contact, a: Contact)
    requires ByIds(cfg, w) && Ascending(cfg.away, l) && Elems(l) <= Others(w, cfg.self)
    requires a in Others(w, cfg.self) && c in Others(w, cfg.self) && Sole(w, cfg.self, a) && Count(l, a.id) <= 1
    ensures Count(InsertOne(cfg.away, l, c), a.id) <= 1
  {
    CountInsertOne(cfg.away, l, c, a.id);
    CountHas(l, a.id);
    if c.id == a.id && Count(l, a.id) == 1 {
      SameIdDistance(cfg, w, l, a);
      var i :| 0 <= i < |l| && l[i].id == a.id;
      assert l[i] in Elems(l);
      var p := Position(cfg.away, l, cfg.away(c));
      assert l[p] in Elems(l);
    }
  }

  lemma {:induction false} SoleInsertAll(cfg: Config, w: set<Contact>, l: seq<Contact>, cs: seq<Contact>, a: Contact)
    requires ByIds(cfg, w) && Ascending(cfg.away, l) && Elems(l) <= Others(w, cfg.self)
    requires a in Others(w, cfg.self) && Elems(cs) <= Others(w, cfg.self)
    requires Sole(w, cfg.self, a) && Count(l, a.id) <= 1
    ensures Count(InsertAll(cfg.away, l, cs), a.id) <= 1
  {
    if cs != [] {
      var front, c := cs[..|cs| - 1], cs[|cs| - 1];
      assert cs == front + [c];
      assert c in Elems(cs) && Elems(front) <= Elems(cs);
      hide ByIds, Ascending, Sole, Others, Elems;
      SoleInsertAll(cfg, w, l, front, a);
      InsertAllWithin(cfg, w, l, front);
      SoleInsertOne(cfg, w, InsertAll(cfg.away, l, front), c, a);
    }
  }

  lemma InsertAllWithin(cfg: Config, w: set<Contact>, l: seq<Contact>, cs: seq<Contact>)
    requires Ascending(cfg.away, l) && Elems(l) <= Others(w, cfg.self) && Elems(cs) <= Others(w, cfg.self)
    ensures Ascending(cfg.away, InsertAll(cfg.away, l, cs)) && Elems(InsertAll(cfg.away, l, cs)) <= Others(w, cfg.self)
  {
    InsertAllProperties(cfg.away, l, cs);
  }

  lemma LegalReplyOwn(cfg: Config, w: set<Contact>, cs: seq<Contact>)
    requires ByIds(cfg, w) && LegalReply(cfg, w, cs)
    ensures OwnIds(cs)
  {
    LegalReplyFacts(cfg, w, cs);
    LegalReplyStrict(cfg, w, cs);
    StrictOwn(cfg, w, cs);
  }

  lemma LegalReplyStrict(cfg: Config, w: set<Contact>, cs: seq<Contact>)
    requires LegalReply(cfg, w, cs)
    ensures Strict(cfg.away, cs)
  {
    var table: set<Contact>, k: nat :|
      table <= w && Distinct(cfg.away, Others(table, cfg.self))
      && cs == Lowest(cfg.away, k, Others(table, cfg.self));
    LowestMeaning(cfg.away, k, Others(table, cfg.self));
  }

  lemma StrictOwn(cfg: Config, w: set<Contact>, cs: seq<Contact>)
    requires ByIds(cfg, w) && Elems(cs) <= Others(w, cfg.self) && Strict(cfg.away, cs)
    ensures OwnIds(cs)
  {
    forall i, j | 0 <= i < j < |cs|
      ensures cs[i].id != cs[j].id
    {
      assert cs[i] in Elems(cs) && cs[j] in Elems(cs);
    }
  }

  /** A reply leaves an ID listed once if it has one address, or if the nearer
      entries leave room for one. */
  lemma RoomForOne(cfg: Config, w: set<Contact>, l: seq<Contact>, cs: seq<Contact>, a: Contact)
    requires ByIds(cfg, w) && Listed(cfg, w, l, Elems(l)) && LegalReply(cfg, w, cs) && a in Others(w, cfg.self)
    requires Count(l, a.id) <= 1
    requires Sole(w, cfg.self, a) || Count(l, a.id) == 0 || Position(cfg.away, l, cfg.away(a)) + 1 >= cfg.k
    ensures Count(Inserted(cfg, l, cs), a.id) <= 1
  {
    var all := InsertAll(cfg.away, l, cs);
    hide ByIds, LegalReply, Others, Sole, Ascending;
    LegalReplyFacts(cfg, w, cs);
    CountTake(cfg.k, all, a.id);
    if Sole(w, cfg.self, a) {
      SoleInsertAll(cfg, w, l, cs, a);
    } else if Count(l, a.id) == 0 {
      LegalReplyOwn(cfg, w, cs);
      CountOwn(cs, a.id);
      CountInsertAll(cfg.away, l, cs, a.id);
    } else {
      InsertAllWithin(cfg, w, l, cs);
      SameIdDistance(cfg, w, all, a);
      PositionInsertAll(cfg.away, l, cs, cfg.away(a));
      CountRoom(cfg.away, cfg.k, all, a.id, cfg.away(a));
    }
  }
}
