/** What a lookup returns, told from what happened in it (dht/node.go): which
    contacts replied, which offered peers, and who was asked at once. */
module LookupHistory {
  import opened Keys
  import opened Ranking
  import opened Contacts
  import opened Shortlists
  import opened PeerRecords
  import opened Lookups

  // ----- what happened

  /** An action of a lookup of `id` offers peers. */
  predicate OffersBy(a: Action, id: Key) {
    a.Offer? && a.c.id == id
  }

  predicate Offered(acts: seq<Action>, id: Key) {
    exists i :: 0 <= i < |acts| && OffersBy(acts[i], id)
  }

  /** `ps` are the peers of the last offer. */
  predicate LastOffer(acts: seq<Action>, ps: seq<Peer>) {
    exists i :: 0 <= i < |acts| && acts[i].Offer? && acts[i].ps == ps && NoOffer(acts[i + 1..])
  }

  predicate NoOffer(acts: seq<Action>) {
    forall i :: 0 <= i < |acts| ==> !acts[i].Offer?
  }

  predicate RepliesBy(a: Action, id: Key, cs: seq<Contact>) {
    (a.Reply? && a.c.id == id && a.cs == cs) || (OffersBy(a, id) && cs == [])
  }

  predicate RepliedWith(acts: seq<Action>, id: Key, cs: seq<Contact>) {
    exists i :: 0 <= i < |acts| && RepliesBy(acts[i], id, cs)
  }

  predicate Named(acts: seq<Action>, c: Contact) {
    exists i :: 0 <= i < |acts| && acts[i].Reply? && c in acts[i].cs
  }

  predicate FailedBy(a: Action, id: Key) {
    a.Fail? && a.c.id == id
  }

  predicate HasFailed(acts: seq<Action>, id: Key) {
    exists i :: 0 <= i < |acts| && FailedBy(acts[i], id)
  }

  // ----- the fields of the state are what happened

  /** The first action, or the rest. */
  lemma OfferedFirst(acts: seq<Action>, id: Key)
    requires acts != []
    ensures Offered(acts, id) <==> OffersBy(acts[0], id) || Offered(acts[1..], id)
  {
    var rest := acts[1..];
    if i :| 0 <= i < |acts| && OffersBy(acts[i], id) && i > 0 {
      assert rest[i - 1] == acts[i];
    }
    if i :| 0 <= i < |rest| && OffersBy(rest[i], id) {
      assert acts[i + 1] == rest[i];
    }
  }

  lemma FailedFirst(acts: seq<Action>, id: Key)
    requires acts != []
    ensures HasFailed(acts, id) <==> FailedBy(acts[0], id) || HasFailed(acts[1..], id)
  {
    var rest := acts[1..];
    if i :| 0 <= i < |acts| && FailedBy(acts[i], id) && i > 0 {
      assert rest[i - 1] == acts[i];
    }
    if i :| 0 <= i < |rest| && FailedBy(rest[i], id) {
      assert acts[i + 1] == rest[i];
    }
  }

  lemma RepliedFirst(acts: seq<Action>, id: Key, cs: seq<Contact>)
    requires acts != []
    ensures RepliedWith(acts, id, cs) <==> RepliesBy(acts[0], id, cs) || RepliedWith(acts[1..], id, cs)
  {
    var rest := acts[1..];
    if i :| 0 <= i < |acts| && RepliesBy(acts[i], id, cs) && i > 0 {
      assert rest[i - 1] == acts[i];
    }
    if i :| 0 <= i < |rest| && RepliesBy(rest[i], id, cs) {
      assert acts[i + 1] == rest[i];
    }
  }

  lemma NamedFirst(acts: seq<Action>, c: Contact)
    requires acts != []
    ensures Named(acts, c) <==> (acts[0].Reply? && c in acts[0].cs) || Named(acts[1..], c)
  {
    var rest := acts[1..];
    if i :| 0 <= i < |acts| && acts[i].Reply? && c in acts[i].cs && i > 0 {
      assert rest[i - 1] == acts[i];
    }
    if i :| 0 <= i < |rest| && rest[i].Reply? && c in rest[i].cs {
      assert acts[i + 1] == rest[i];
    }
  }

  lemma LastFirst(acts: seq<Action>, ps: seq<Peer>)
    requires acts != []
    ensures NoOffer(acts) <==> !acts[0].Offer? && NoOffer(acts[1..])
    ensures LastOffer(acts, ps) <==>
            LastOffer(acts[1..], ps) || (acts[0].Offer? && acts[0].ps == ps && NoOffer(acts[1..]))
  {
    var rest := acts[1..];
    assert acts == [acts[0]] + rest;
    if i :| 0 <= i < |acts| && acts[i].Offer? && acts[i].ps == ps && NoOffer(acts[i + 1..]) && i > 0 {
      assert rest[i - 1] == acts[i] && rest[i..] == acts[i + 1..];
    }
    if i :| 0 <= i < |rest| && rest[i].Offer? && rest[i].ps == ps && NoOffer(rest[i + 1..]) {
      assert acts[i + 1] == rest[i] && acts[i + 2..] == rest[i + 1..];
    }
  }

  /** What a step does to the marks, the peers and what was learned. */
  lemma StepFields(cfg: Config, w: set<Contact>, s: State, a: Action)
    requires Enabled(cfg, w, s, a)
    ensures var t := Apply(cfg, w, s, a);
            && (forall id :: id in t.hasPeers <==> id in s.hasPeers || OffersBy(a, id))
            && t.peers == (if a.Offer? then Some(a.ps) else s.peers)
            && (forall c :: c in t.learned <==> c in s.learned || (a.Reply? && c in a.cs))
            && (forall id :: id in t.failed <==> id in s.failed || FailedBy(a, id))
  {
    hide LegalReply, Inserted, RemoveOne, CacheTarget, Unmarked;
  }

  /** The marks, the peers and what was learned, after a run from `s`. */
  lemma {:induction false} RunFields(cfg: Config, w: set<Contact>, s: State, acts: seq<Action>)
    requires Run(cfg, w, s, acts)
    ensures var t := After(cfg, w, s, acts);
            && (forall id :: id in t.hasPeers <==> id in s.hasPeers || Offered(acts, id))
            && (forall c :: c in t.learned <==> c in s.learned || Named(acts, c))
            && (forall id :: id in t.failed <==> id in s.failed || HasFailed(acts, id))
    decreases |acts|
  {
    hide Enabled, Apply, Offered, Named, HasFailed;
    if acts == [] {
      NothingHappened();
    } else {
      StepFields(cfg, w, s, acts[0]);
      RunFields(cfg, w, Apply(cfg, w, s, acts[0]), acts[1..]);
      forall id
        ensures Offered(acts, id) <==> OffersBy(acts[0], id) || Offered(acts[1..], id)
        ensures HasFailed(acts, id) <==> FailedBy(acts[0], id) || HasFailed(acts[1..], id)
      {
        OfferedFirst(acts, id);
        FailedFirst(acts, id);
      }
      forall c
        ensures Named(acts, c) <==> (acts[0].Reply? && c in acts[0].cs) || Named(acts[1..], c)
      {
        NamedFirst(acts, c);
      }
    }
  }

  lemma NothingHappened()
    ensures forall id :: !Offered([], id) && !HasFailed([], id)
    ensures forall c :: !Named([], c)
  {
  }

  /** The peers are those of the last offer. */
  lemma {:induction false} RunPeers(cfg: Config, w: set<Contact>, s: State, acts: seq<Action>)
    requires Run(cfg, w, s, acts)
    ensures var t := After(cfg, w, s, acts);
            if NoOffer(acts) then t.peers == s.peers else t.peers.Some? && LastOffer(acts, t.peers.value)
    decreases |acts|
  {
    hide Enabled, Apply, LastOffer, NoOffer;
    if acts == [] {
      assert NoOffer([]) by {
        NoneOffered();
      }
    } else {
      StepFields(cfg, w, s, acts[0]);
      var t := Apply(cfg, w, s, acts[0]);
      RunPeers(cfg, w, t, acts[1..]);
      var u := After(cfg, w, t, acts[1..]);
      LastFirst(acts, if u.peers.Some? then u.peers.value else []);
    }
  }

  lemma NoneOffered()
    ensures NoOffer([])
  {
  }

  // ----- the order of the list, whatever the addresses

  lemma StepAscending(cfg: Config, w: set<Contact>, s: State, a: Action)
    requires Ascending(cfg.away, s.list) && Enabled(cfg, w, s, a)
    ensures Ascending(cfg.away, Apply(cfg, w, s, a).list)
  {
    hide LegalReply, CacheTarget, Unmarked, Ascending, InsertAll, RemoveOne, Take;
    match a {
      case Reply(c, cs) => InsertedAscending(cfg, s.list, cs);
      case Fail(c) => RemoveOneKeepsOrder(cfg.away, s.list, c);
      case Reinsert(c) => InsertedAscending(cfg, s.list, [c]);
      case _ =>
    }
  }

  lemma InsertedAscending(cfg: Config, l: seq<Contact>, cs: seq<Contact>)
    requires Ascending(cfg.away, l)
    ensures Ascending(cfg.away, Inserted(cfg, l, cs))
  {
    hide Ascending, InsertAll, Take;
    InsertAllProperties(cfg.away, l, cs);
    TakeKeepsOrder(cfg.away, cfg.k, InsertAll(cfg.away, l, cs));
  }

  // ----- what is returned

  /** A returned lookup is over, and returned what its state says. */
  ghost predicate ReturnOk(s: State) {
    s.phase.Returned? ==> s.pending == map[] && s.toLaunch == [] && Returns(s, s.phase.result)
  }

  ghost predicate Returns(s: State, r: Result) {
    if s.peers.Some? then r == Found(s.peers.value, CacheTarget(s))
    else if s.list == [] then r == Unreachable
    else r == NotFound(s.list)
  }

  lemma StepReturnOk(cfg: Config, w: set<Contact>, s: State, a: Action)
    requires ReturnOk(s) && Enabled(cfg, w, s, a)
    ensures ReturnOk(Apply(cfg, w, s, a))
  {
    hide LegalReply, Inserted, RemoveOne, Unmarked;
  }

  lemma {:induction false} RunReturnOk(cfg: Config, w: set<Contact>, s: State, acts: seq<Action>)
    requires ReturnOk(s) && Ascending(cfg.away, s.list) && Run(cfg, w, s, acts)
    ensures ReturnOk(After(cfg, w, s, acts)) && Ascending(cfg.away, After(cfg, w, s, acts).list)
    decreases |acts|
  {
    hide Enabled, Apply, ReturnOk, Ascending;
    if acts != [] {
      StepReturnOk(cfg, w, s, acts[0]);
      StepAscending(cfg, w, s, acts[0]);
      RunReturnOk(cfg, w, Apply(cfg, w, s, acts[0]), acts[1..]);
    }
  }

  /** Where the found peers are to be cached: at the nearest listed contact that did
      not offer any, if there is one. */
  ghost predicate CachedAt(cfg: Config, list: seq<Contact>, acts: seq<Action>, at: Option<Contact>) {
    match at
    case None => forall c :: c in list ==> Offered(acts, c.id)
    case Some(c) =>
      && c in list && !Offered(acts, c.id)
      && forall d :: d in list && cfg.away(d) < cfg.away(c) ==> Offered(acts, d.id)
  }

  /** The result of a lookup, from what happened: with an offer, the peers of the
      last one; without, the contacts left on the list, if any. */
  ghost predicate TrueResult(cfg: Config, list: seq<Contact>, acts: seq<Action>, r: Result) {
    match r
    case Found(ps, at) => LastOffer(acts, ps) && CachedAt(cfg, list, acts, at)
    case NotFound(cs) => NoOffer(acts) && cs == list != []
    case Unreachable => NoOffer(acts) && list == []
    case _ => false
  }

  lemma {:induction false} FirstUnmarkedNearest(f: Contact -> nat, l: seq<Contact>, marks: set<Key>)
    requires Ascending(f, l)
    ensures var open := Unmarked(l, marks);
            open != [] ==> forall d :: d in l && f(d) < f(open[0]) ==> d.id in marks
  {
    if l != [] {
      var front, c := l[..|l| - 1], l[|l| - 1];
      FirstUnmarkedNearest(f, front, marks);
      var open := Unmarked(front, marks);
      assert l == front + [c];
      if open == [] {
        assert forall d :: d in front ==> d.id in marks;
      } else {
        assert open[0] in open;
        var i :| 0 <= i < |front| && front[i] == open[0];
        assert f(l[i]) <= f(l[|l| - 1]);
      }
    }
  }

  /** A lookup that has returned found peers if and only if some contact offered
      them; it returns those of the last offer, with the nearest listed contact that
      offered none; whatever the addresses. */
  lemma LookupReturns(cfg: Config, w: set<Contact>, table: set<Contact>, acts: seq<Action>)
    requires ValidConfig(cfg) && World(cfg, table) && Seed(cfg, table) != []
    requires Run(cfg, w, Start(cfg, Seed(cfg, table)), acts)
    ensures var s := After(cfg, w, Start(cfg, Seed(cfg, table)), acts);
            s.phase.Returned? ==>
              && TrueResult(cfg, s.list, acts, s.phase.result)
              && (s.phase.result.Found? <==> exists i :: 0 <= i < |acts| && acts[i].Offer?)
  {
    var start := Start(cfg, Seed(cfg, table));
    StartReturnOk(cfg, Seed(cfg, table));
    RunReturnOk(cfg, w, start, acts);
    RunFields(cfg, w, start, acts);
    RunPeers(cfg, w, start, acts);
    var s := After(cfg, w, start, acts);
    hide Run, After, Start, Seed, World, LastOffer, Offered, Ascending;
    if s.phase.Returned? {
      ReturnsTrue(cfg, s, acts);
    }
  }

  lemma ReturnsTrue(cfg: Config, s: State, acts: seq<Action>)
    requires ReturnOk(s) && s.phase.Returned? && Ascending(cfg.away, s.list)
    requires forall id :: id in s.hasPeers <==> Offered(acts, id)
    requires if NoOffer(acts) then s.peers == None else s.peers.Some? && LastOffer(acts, s.peers.value)
    ensures TrueResult(cfg, s.list, acts, s.phase.result)
    ensures s.phase.result.Found? <==> !NoOffer(acts)
  {
    hide LastOffer, NoOffer, Offered;
    FirstUnmarkedNearest(cfg.away, s.list, s.hasPeers);
    var open := Unmarked(s.list, s.hasPeers);
    assert open != [] ==> open[0] in open;
    hide Unmarked, Ascending;
  }

  lemma StartReturnOk(cfg: Config, seed: seq<Contact>)
    requires seed != [] && cfg.k >= 1
    ensures var s := Start(cfg, seed);
            && ReturnOk(s) && Ascending(cfg.away, s.list) && s.peers == None && s.hasPeers == {}
            && s.replies == map[] && s.learned == Elems(seed) && s.failed == {}
  {
    InsertedAscending(cfg, [], seed);
    hide Inserted;
  }

  // ----- who replied what

  /** The ID an action is an answer of, if it is one. */
  function Answerer(a: Action): Option<Key> {
    match a
    case Reply(c, _) => Some(c.id)
    case Offer(c, _) => Some(c.id)
    case _ => None
  }

  predicate Answered(acts: seq<Action>, id: Key) {
    exists i :: 0 <= i < |acts| && Answerer(acts[i]) == Some(id)
  }

  lemma AnsweredFirst(acts: seq<Action>, id: Key)
    requires acts != []
    ensures Answered(acts, id) <==> Answerer(acts[0]) == Some(id) || Answered(acts[1..], id)
  {
    var rest := acts[1..];
    if i :| 0 <= i < |acts| && Answerer(acts[i]) == Some(id) && i > 0 {
      assert rest[i - 1] == acts[i];
    }
    if i :| 0 <= i < |rest| && Answerer(rest[i]) == Some(id) {
      assert acts[i + 1] == rest[i];
    }
  }

  lemma StepReplies(cfg: Config, w: set<Contact>, s: State, a: Action)
    requires Enabled(cfg, w, s, a)
    ensures var t := Apply(cfg, w, s, a);
            && (forall id :: id in t.replies <==> id in s.replies || Answerer(a) == Some(id))
            && (forall id :: id in t.replies ==>
                  RepliesBy(a, id, t.replies[id]) || (id in s.replies && t.replies[id] == s.replies[id]))
  {
    hide LegalReply, Inserted, RemoveOne, CacheTarget, Unmarked;
  }

  /** The replies, after a run from `s`. */
  lemma {:induction false} RunReplies(cfg: Config, w: set<Contact>, s: State, acts: seq<Action>, id: Key)
    requires Run(cfg, w, s, acts)
    ensures var t := After(cfg, w, s, acts);
            && (id in t.replies <==> id in s.replies || Answered(acts, id))
            && (id in t.replies ==>
                  RepliedWith(acts, id, t.replies[id]) || (id in s.replies && t.replies[id] == s.replies[id]))
    decreases |acts|
  {
    hide Enabled, Apply, Answered, RepliedWith;
    if acts == [] {
      assert !Answered([], id) by {
        NobodyAnswered(id);
      }
    } else {
      var t := Apply(cfg, w, s, acts[0]);
      StepReplies(cfg, w, s, acts[0]);
      RunReplies(cfg, w, t, acts[1..], id);
      AnsweredFirst(acts, id);
      var u := After(cfg, w, t, acts[1..]);
      if id in u.replies {
        RepliedFirst(acts, id, u.replies[id]);
      }
    }
  }

  lemma NobodyAnswered(id: Key)
    ensures !Answered([], id)
  {
  }

  /** No ID answers twice. */
  predicate AnswersOnce(acts: seq<Action>) {
    forall i, j :: 0 <= i < j < |acts| && Answerer(acts[i]).Some? ==> Answerer(acts[i]) != Answerer(acts[j])
  }

  lemma AnswerIsNew(cfg: Config, w: set<Contact>, s: State, a: Action)
    requires ValidConfig(cfg) && Inv(cfg, w, s) && Enabled(cfg, w, s, a) && Answerer(a).Some?
    ensures Answerer(a).value !in s.replies
  {
    hide Inv, Apply, LegalReply;
    match a {
      case Reply(c, cs) => ReplyInv(cfg, w, s, c, cs);
      case Offer(c, ps) => OfferInv(cfg, w, s, c, ps);
      case _ =>
    }
  }

  lemma {:induction false} RunAnswersOnce(cfg: Config, w: set<Contact>, s: State, acts: seq<Action>)
    requires ValidConfig(cfg) && Inv(cfg, w, s) && Run(cfg, w, s, acts)
    ensures AnswersOnce(acts) && forall id :: id in s.replies ==> !Answered(acts, id)
    decreases |acts|
  {
    hide Inv, Enabled, Apply, Answerer;
    if acts != [] {
      var t := Apply(cfg, w, s, acts[0]);
      StepInv(cfg, w, s, acts[0]);
      StepReplies(cfg, w, s, acts[0]);
      RunAnswersOnce(cfg, w, t, acts[1..]);
      forall id | id in s.replies
        ensures !Answered(acts, id)
      {
        AnsweredFirst(acts, id);
        if Answerer(acts[0]).Some? {
          AnswerIsNew(cfg, w, s, acts[0]);
        }
      }
      OnceFirst(acts);
    }
  }

  lemma OnceFirst(acts: seq<Action>)
    requires acts != [] && AnswersOnce(acts[1..])
    requires Answerer(acts[0]).Some? ==> !Answered(acts[1..], Answerer(acts[0]).value)
    ensures AnswersOnce(acts)
  {
    var rest := acts[1..];
    hide Answerer;
    forall i, j | 0 <= i < j < |acts| && Answerer(acts[i]).Some?
      ensures Answerer(acts[i]) != Answerer(acts[j])
    {
      assert acts[j] == rest[j - 1];
      if i > 0 {
        assert acts[i] == rest[i - 1];
      }
    }
  }

  /** What a lookup has learned: its seed, and what the replies named. */
  ghost predicate LearnedFrom(seed: seq<Contact>, acts: seq<Action>, learned: set<Contact>) {
    forall c :: c in learned <==> c in seed || Named(acts, c)
  }

  /** A not-found answer, from what happened: no ID answered twice; every contact of
      the answer did; and if no call failed, it is the `k` nearest of the seed and of
      all that was named in replies. */
  lemma LookupHeard(cfg: Config, w: set<Contact>, table: set<Contact>, acts: seq<Action>)
    requires ValidConfig(cfg) && World(cfg, w) && table <= w && World(cfg, table) && Seed(cfg, table) != []
    requires Run(cfg, w, Start(cfg, Seed(cfg, table)), acts)
    ensures AnswersOnce(acts)
    ensures var s := After(cfg, w, Start(cfg, Seed(cfg, table)), acts);
            && LearnedFrom(Seed(cfg, table), acts, s.learned)
            && (s.phase.Returned? && s.phase.result.NotFound? ==>
                  && Distinct(cfg.away, s.learned)
                  && (forall c :: c in s.phase.result.contacts ==> c in s.learned && Answered(acts, c.id))
                  && ((forall id :: !HasFailed(acts, id)) ==>
                        s.phase.result.contacts == Lowest(cfg.away, cfg.k, s.learned)))
  {
    var start := Start(cfg, Seed(cfg, table));
    StartInv(cfg, w, table);
    StartReturnOk(cfg, Seed(cfg, table));
    RunAnswersOnce(cfg, w, start, acts);
    RunFields(cfg, w, start, acts);
    LookupAnswer(cfg, w, table, acts);
    var s := After(cfg, w, start, acts);
    hide Run, After, Start, Seed, World, Inv, Named, HasFailed, Answered, AnswersOnce, Kept;
    assert forall c :: c in Elems(Seed(cfg, table)) <==> c in Seed(cfg, table);
    if s.phase.Returned? && s.phase.result.NotFound? {
      forall c | c in s.phase.result.contacts
        ensures c in s.learned && Answered(acts, c.id)
      {
        RunReplies(cfg, w, start, acts, c.id);
      }
      LearnedApart(cfg, w, table, acts);
      assert (forall id :: !HasFailed(acts, id)) ==> s.failed == {};
    }
  }

  lemma LearnedApart(cfg: Config, w: set<Contact>, table: set<Contact>, acts: seq<Action>)
    requires ValidConfig(cfg) && World(cfg, w) && table <= w && World(cfg, table) && Seed(cfg, table) != []
    requires Run(cfg, w, Start(cfg, Seed(cfg, table)), acts)
    ensures Distinct(cfg.away, After(cfg, w, Start(cfg, Seed(cfg, table)), acts).learned)
  {
    hide MarksOk, OffersOk, RoundOk, PhaseOk, RepliesLearned, ListOk;
    StartInv(cfg, w, table);
    RunInv(cfg, w, Start(cfg, Seed(cfg, table)), acts);
  }
}
