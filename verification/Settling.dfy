/** Why lookups end: a measure that every step lowers, for any state in which the
    contacts called together have IDs of their own (dht/node.go). */
module Settling {
  import opened Keys
  import opened Ranking
  import opened Contacts
  import opened Shortlists
  import opened PeerRecords
  import opened Lookups

  ghost predicate OwnIds(l: seq<Contact>) {
    forall i, j :: 0 <= i < j < |l| ==> l[i].id != l[j].id
  }

  /** Called or about to be, and without an answer. */
  ghost function InFlight(s: State): set<Contact> {
    Elems(s.toLaunch) + QueryingSet(s.pending)
  }

  // ----- what holds whatever the addresses

  ghost predicate Listed(cfg: Config, w: set<Contact>, list: seq<Contact>, learned: set<Contact>) {
    && Ascending(cfg.away, list) && |list| <= cfg.k
    && Elems(list) <= learned <= Others(w, cfg.self)
  }

  ghost predicate Apart(cfg: Config, s: State) {
    && OneAddress(s.pending.Keys) && OwnIds(s.toLaunch)
    && Elems(s.toLaunch) <= s.learned
    && (forall c :: c in s.toLaunch ==> c.id !in s.contacted)
    && |s.toLaunch| + |s.pending| <= cfg.k
  }

  ghost predicate Weak(cfg: Config, w: set<Contact>, s: State) {
    && Listed(cfg, w, s.list, s.learned)
    && MarksOk(s.contacted, s.pending, s.replies, s.learned, s.answers)
    && Apart(cfg, s)
    && PhaseOk(s)
  }

  lemma ListedInsert(cfg: Config, w: set<Contact>, list: seq<Contact>, learned: set<Contact>, cs: seq<Contact>)
    requires Listed(cfg, w, list, learned) && Elems(cs) <= Others(w, cfg.self)
    ensures Listed(cfg, w, Inserted(cfg, list, cs), learned + Elems(cs))
  {
    var all := InsertAll(cfg.away, list, cs);
    InsertAllProperties(cfg.away, list, cs);
    TakeKeepsOrder(cfg.away, cfg.k, all);
    assert forall c :: c in Take(cfg.k, all) ==> c in Elems(all);
  }

  lemma ListedRemove(cfg: Config, w: set<Contact>, list: seq<Contact>, learned: set<Contact>, c: Contact)
    requires Listed(cfg, w, list, learned)
    ensures Listed(cfg, w, RemoveOne(cfg.away, list, c), learned)
  {
    RemoveOneKeepsOrder(cfg.away, list, c);
    var p := Position(cfg.away, list, cfg.away(c));
    if p < |list| {
      assert list == list[..p] + [list[p]] + list[p + 1..];
    }
  }

  lemma WeakStart(cfg: Config, w: set<Contact>, seed: seq<Contact>)
    requires ValidConfig(cfg) && seed != [] && Elems(seed) <= Others(w, cfg.self)
    ensures Weak(cfg, w, Start(cfg, seed))
  {
    hide Unmarked, ResultOk, Inserted, Others;
    SeedListNonempty(cfg, seed);
    SeedMarks(Elems(seed));
    ListedInsert(cfg, w, [], {}, seed);
    assert {} + Elems(seed) == Elems(seed);
  }

  lemma WeakPick(cfg: Config, w: set<Contact>, s: State)
    requires Weak(cfg, w, s) && Enabled(cfg, w, s, Pick)
    requires OwnIds(Take(s.limit, Unmarked(s.list, s.contacted)))
    ensures Weak(cfg, w, Apply(cfg, w, s, Pick))
  {
    hide MarksOk, Apart, Listed, Unmarked, OwnIds, ResultOk;
    PickApart(cfg, w, s);
  }

  lemma PickApart(cfg: Config, w: set<Contact>, s: State)
    requires Weak(cfg, w, s) && Enabled(cfg, w, s, Pick)
    requires OwnIds(Take(s.limit, Unmarked(s.list, s.contacted)))
    ensures Apart(cfg, Apply(cfg, w, s, Pick)) && PhaseOk(Apply(cfg, w, s, Pick))
  {
    hide MarksOk, OwnIds, ResultOk, Ascending;
    UnmarkedShort(s.list, s.contacted);
    assert |s.pending| == 0;
    TakeUnmarked(s.list, s.contacted, s.limit);
    assert s.limit >= 1;
    hide Unmarked;
    assert forall c :: c in s.list ==> c in Elems(s.list);
  }

  lemma TakeUnmarked(l: seq<Contact>, marks: set<Key>, n: nat)
    ensures forall c :: c in Take(n, Unmarked(l, marks)) ==> c in l && c.id !in marks
  {
    hide Unmarked;
    forall c | c in Take(n, Unmarked(l, marks))
      ensures c in l && c.id !in marks
    {
      assert c in Unmarked(l, marks);
    }
  }

  lemma {:induction false} UnmarkedShort(l: seq<Contact>, marks: set<Key>)
    ensures |Unmarked(l, marks)| <= |l|
  {
    if l != [] {
      UnmarkedShort(l[..|l| - 1], marks);
    }
  }

  lemma PendingMarked(cfg: Config, w: set<Contact>, s: State, c: Contact)
    requires Weak(cfg, w, s) && c in s.pending
    ensures c in s.learned && c in Others(w, cfg.self) && c.id in s.contacted
    ensures if s.pending[c].Querying? then c.id !in s.replies else c.id in s.replies
  {
    hide PhaseOk;
    assert c in s.pending.Keys;
    assert c.id in PendingIds(s.pending, s.pending[c]);
  }

  lemma WeakLaunch(cfg: Config, w: set<Contact>, s: State)
    requires Weak(cfg, w, s) && Enabled(cfg, w, s, Launch)
    ensures Weak(cfg, w, Apply(cfg, w, s, Launch))
  {
    hide Apart, MarksOk, Listed;
    LaunchMarks(cfg, w, s);
    LaunchApart(cfg, w, s);
  }

  lemma LaunchMarks(cfg: Config, w: set<Contact>, s: State)
    requires Weak(cfg, w, s) && s.toLaunch != []
    ensures var c := s.toLaunch[0];
            MarksOk(s.contacted + {c.id}, s.pending[c := Querying], s.replies, s.learned, s.answers)
  {
    var c := s.toLaunch[0];
    assert c in Elems(s.toLaunch);
    LaunchNew(cfg, w, s);
    hide PhaseOk, Listed, MarksOk;
    MarksLaunch(s.contacted, s.pending, s.replies, s.learned, s.answers, c);
  }

  lemma LaunchApart(cfg: Config, w: set<Contact>, s: State)
    requires Weak(cfg, w, s) && Enabled(cfg, w, s, Launch)
    ensures Apart(cfg, Apply(cfg, w, s, Launch)) && s.toLaunch[0] !in s.pending
  {
    hide MarksOk, PhaseOk, Listed, OneAddress, OwnIds, Elems;
    LaunchNew(cfg, w, s);
    LaunchRest(s.toLaunch, s.contacted);
    LaunchPending(s.pending, s.toLaunch[0]);
  }

  lemma LaunchNew(cfg: Config, w: set<Contact>, s: State)
    requires Weak(cfg, w, s) && s.toLaunch != []
    ensures forall d :: d in s.pending ==> d.id != s.toLaunch[0].id
  {
    var c := s.toLaunch[0];
    assert c in s.toLaunch && c.id !in s.contacted;
    hide Weak;
    forall d | d in s.pending
      ensures d.id != c.id
    {
      PendingMarked(cfg, w, s, d);
    }
  }

  lemma LaunchRest(l: seq<Contact>, marks: set<Key>)
    requires l != [] && OwnIds(l) && forall c :: c in l ==> c.id !in marks
    ensures OwnIds(l[1..]) && Elems(l[1..]) <= Elems(l)
    ensures forall c :: c in l[1..] ==> c.id !in marks + {l[0].id}
  {
    var rest := l[1..];
    assert forall i :: 0 <= i < |rest| ==> rest[i] == l[i + 1];
  }

  lemma LaunchPending(pending: map<Contact, Pc>, c: Contact)
    requires OneAddress(pending.Keys) && forall d :: d in pending ==> d.id != c.id
    ensures OneAddress(pending[c := Querying].Keys) && |pending[c := Querying]| == |pending| + 1
  {
    assert pending[c := Querying].Keys == pending.Keys + {c};
  }

  /** A step that ends a call, or hands over, leaves the others as they were. */
  lemma ApartLess(cfg: Config, s: State, after: map<Contact, Pc>, less: set<Key>, learned: set<Contact>, t: State)
    requires Apart(cfg, s) && after.Keys <= s.pending.Keys && less <= s.contacted && s.learned <= learned
    requires t.toLaunch == s.toLaunch && t.pending == after && t.contacted == less && t.learned == learned
    ensures Apart(cfg, t)
  {
    SubsetSize(after.Keys, s.pending.Keys);
    assert |after| == |after.Keys| && |s.pending| == |s.pending.Keys|;
  }

  lemma ApartPending(cfg: Config, s: State)
    requires Apart(cfg, s)
    ensures OneAddress(s.pending.Keys)
  {
  }

  lemma WeakReply(cfg: Config, w: set<Contact>, s: State, c: Contact, cs: seq<Contact>)
    requires Weak(cfg, w, s) && Enabled(cfg, w, s, Reply(c, cs))
    ensures Weak(cfg, w, Apply(cfg, w, s, Reply(c, cs))) && c.id !in s.replies
  {
    hide MarksOk, Apart, Listed, Elems, Unmarked, ResultOk, CacheTarget, LegalReply, OneAddress, Inserted, Others;
    ApartPending(cfg, s);
    LegalReplyFacts(cfg, w, cs);
    ListedInsert(cfg, w, s.list, s.learned, cs);
    MarksAnswer(s.contacted, s.pending, s.replies, s.learned, s.answers, c, cs, Elems(cs));
    ApartLess(cfg, s, s.pending[c := Replied], s.contacted, s.learned + Elems(cs), Apply(cfg, w, s, Reply(c, cs)));
  }

  lemma WeakOffer(cfg: Config, w: set<Contact>, s: State, c: Contact, ps: seq<Peer>)
    requires Weak(cfg, w, s) && Enabled(cfg, w, s, Offer(c, ps))
    ensures Weak(cfg, w, Apply(cfg, w, s, Offer(c, ps))) && c.id !in s.replies
  {
    hide MarksOk, Apart, Listed, Elems, Unmarked, ResultOk, CacheTarget, OneAddress, Inserted, Others;
    ApartPending(cfg, s);
    MarksAnswer(s.contacted, s.pending, s.replies, s.learned, s.answers, c, [], {});
    assert s.learned + {} == s.learned;
    ApartLess(cfg, s, s.pending[c := Replied], s.contacted, s.learned, Apply(cfg, w, s, Offer(c, ps)));
  }

  lemma WeakFail(cfg: Config, w: set<Contact>, s: State, c: Contact)
    requires Weak(cfg, w, s) && Enabled(cfg, w, s, Fail(c))
    ensures Weak(cfg, w, Apply(cfg, w, s, Fail(c)))
  {
    hide MarksOk, Apart, Listed, Elems, Unmarked, ResultOk, CacheTarget, OneAddress, Inserted, Others;
    ApartPending(cfg, s);
    ListedRemove(cfg, w, s.list, s.learned, c);
    MarksFail(s.contacted, s.pending, s.replies, s.learned, s.answers, c);
    ApartLess(cfg, s, s.pending - {c}, s.contacted - {c.id}, s.learned, Apply(cfg, w, s, Fail(c)));
  }

  lemma WeakFinish(cfg: Config, w: set<Contact>, s: State, c: Contact)
    requires Weak(cfg, w, s) && Enabled(cfg, w, s, Finish(c))
    ensures Weak(cfg, w, Apply(cfg, w, s, Finish(c)))
  {
    hide MarksOk, Apart, Listed, Elems, Unmarked, ResultOk, CacheTarget, OneAddress, Inserted, Others;
    ApartPending(cfg, s);
    MarksDone(s.contacted, s.pending, s.replies, s.learned, s.answers, c);
    ApartLess(cfg, s, s.pending - {c}, s.contacted, s.learned, Apply(cfg, w, s, Finish(c)));
  }

  lemma WeakReinsert(cfg: Config, w: set<Contact>, s: State, c: Contact)
    requires Weak(cfg, w, s) && Enabled(cfg, w, s, Reinsert(c))
    ensures Weak(cfg, w, Apply(cfg, w, s, Reinsert(c)))
  {
    hide MarksOk, Apart, Listed, Unmarked, ResultOk, CacheTarget, OneAddress, Inserted, LegalReply, Others;
    PendingMarked(cfg, w, s, c);
    ApartPending(cfg, s);
    assert Elems([c]) == {c} && s.learned + {c} == s.learned;
    hide Elems;
    ListedInsert(cfg, w, s.list, s.learned, [c]);
    MarksDone(s.contacted, s.pending, s.replies, s.learned, s.answers, c);
    ApartLess(cfg, s, s.pending - {c}, s.contacted, s.learned, Apply(cfg, w, s, Reinsert(c)));
  }

  lemma WeakConclude(cfg: Config, w: set<Contact>, s: State)
    requires ValidConfig(cfg) && Weak(cfg, w, s) && Enabled(cfg, w, s, Conclude)
    ensures Weak(cfg, w, Apply(cfg, w, s, Conclude))
  {
    hide MarksOk, Listed, Unmarked, LegalReply, OneAddress, OwnIds;
  }

  lemma WeakStep(cfg: Config, w: set<Contact>, s: State, a: Action)
    requires ValidConfig(cfg) && Weak(cfg, w, s) && Enabled(cfg, w, s, a)
    requires a.Pick? ==> OwnIds(Take(s.limit, Unmarked(s.list, s.contacted)))
    ensures Weak(cfg, w, Apply(cfg, w, s, a))
  {
    hide Weak, Apply, Enabled;
    match a
    case Pick => WeakPick(cfg, w, s);
    case Launch => WeakLaunch(cfg, w, s);
    case Reply(c, cs) => WeakReply(cfg, w, s, c, cs);
    case Offer(c, ps) => WeakOffer(cfg, w, s, c, ps);
    case Fail(c) => WeakFail(cfg, w, s, c);
    case Finish(c) => WeakFinish(cfg, w, s, c);
    case Reinsert(c) => WeakReinsert(cfg, w, s, c);
    case Conclude => WeakConclude(cfg, w, s);
  }

  // ----- the measure

  /** Entries whose IDs have not answered. */
  function OpenCount(l: seq<Contact>, replied: set<Key>): (n: nat)
    ensures n <= |l|
  {
    if l == [] then 0 else (if l[0].id in replied then 0 else 1) + OpenCount(l[1..], replied)
  }

  lemma {:induction false} OpenJoin(l: seq<Contact>, m: seq<Contact>, replied: set<Key>)
    ensures OpenCount(l + m, replied) == OpenCount(l, replied) + OpenCount(m, replied)
  {
    if l == [] {
      assert l + m == m;
    } else {
      assert (l + m)[1..] == l[1..] + m;
      OpenJoin(l[1..], m, replied);
    }
  }

  /** Contacts in flight that have left the list. */
  ghost function Missing(s: State): set<Contact> {
    set c | c in InFlight(s) && c !in s.list
  }

  ghost function Ahead(s: State): nat {
    OpenCount(s.list, s.replies.Keys) + |Missing(s)|
  }

  /** The calls of a round are over. */
  ghost predicate CallsOver(s: State) {
    s.phase == Waiting(true) && InFlight(s) == {}
  }

  ghost function Burden(s: State): nat {
    2 * Ahead(s) + if CallsOver(s) then 1 else 0
  }

  function Toil(cfg: Config, s: State): nat {
    if s.phase.Picking? then 3 * cfg.k + 4 else RoundRank(s)
  }

  ghost predicate Lower(cfg: Config, w: set<Contact>, s: State, s': State) {
    || Silent(w, s') < Silent(w, s)
    || (Silent(w, s') == Silent(w, s)
        && (Burden(s') < Burden(s) || (Burden(s') <= Burden(s) && Toil(cfg, s') < Toil(cfg, s))))
  }

  /** Nothing is gained but that less of the round is left. */
  lemma LowerByToil(cfg: Config, w: set<Contact>, s: State, t: State)
    requires t.replies == s.replies && Ahead(t) <= Ahead(s) && (CallsOver(t) ==> CallsOver(s))
    requires Toil(cfg, t) < Toil(cfg, s)
    ensures Lower(cfg, w, s, t)
  {
    hide Ahead, CallsOver, Toil;
  }

  lemma PickLower(cfg: Config, w: set<Contact>, s: State)
    requires ValidConfig(cfg) && Weak(cfg, w, s) && Enabled(cfg, w, s, Pick)
    ensures Lower(cfg, w, s, Apply(cfg, w, s, Pick))
  {
    var t := Apply(cfg, w, s, Pick);
    PickFlight(cfg, w, s);
    PickToil(cfg, w, s);
    hide Weak, InFlight, Toil, OpenCount;
    LowerByToil(cfg, w, s, t);
  }

  lemma PickFlight(cfg: Config, w: set<Contact>, s: State)
    requires Weak(cfg, w, s) && Enabled(cfg, w, s, Pick)
    ensures var t := Apply(cfg, w, s, Pick);
            Missing(t) == {} && !CallsOver(t)
  {
    hide MarksOk, Listed, Apart, Unmarked, ResultOk, InFlight;
    var t := Apply(cfg, w, s, Pick);
    TakeUnmarked(s.list, s.contacted, s.limit);
    OnlyLaunches(t);
    if t.phase == Waiting(true) {
      assert t.toLaunch[0] in InFlight(t);
    }
  }

  lemma OnlyLaunches(t: State)
    requires t.pending == map[]
    ensures InFlight(t) == Elems(t.toLaunch)
  {
    assert QueryingSet(t.pending) == {};
  }

  lemma PickToil(cfg: Config, w: set<Contact>, s: State)
    requires ValidConfig(cfg) && Weak(cfg, w, s) && Enabled(cfg, w, s, Pick)
    ensures Toil(cfg, Apply(cfg, w, s, Pick)) < Toil(cfg, s)
  {
    hide MarksOk, Apart, Unmarked;
    UnmarkedShort(s.list, s.contacted);
    assert |s.pending| == 0 && QueryingSet(s.pending) == {};
  }

  lemma LaunchFlight(cfg: Config, w: set<Contact>, s: State)
    requires Weak(cfg, w, s) && Enabled(cfg, w, s, Launch)
    ensures var t := Apply(cfg, w, s, Launch);
            && InFlight(t) == InFlight(s)
            && |t.pending| == |s.pending| + 1 && |QueryingSet(t.pending)| == |QueryingSet(s.pending)| + 1
  {
    hide Weak, QueryingSet, Elems, Apart;
    LaunchApart(cfg, w, s);
    QueryingSetSteps(s.pending, s.toLaunch[0]);
    HeadElems(s.toLaunch);
  }

  lemma HeadElems(l: seq<Contact>)
    requires l != []
    ensures Elems(l) == {l[0]} + Elems(l[1..])
  {
    assert l == [l[0]] + l[1..];
  }

  lemma LaunchLower(cfg: Config, w: set<Contact>, s: State)
    requires Weak(cfg, w, s) && Enabled(cfg, w, s, Launch)
    ensures Lower(cfg, w, s, Apply(cfg, w, s, Launch))
  {
    hide Weak, InFlight, QueryingSet, Lower, OpenCount;
    var t := Apply(cfg, w, s, Launch);
    LaunchFlight(cfg, w, s);
    LaunchPhase(cfg, w, s);
    LaunchToil(cfg, s, t);
    assert Missing(t) == Missing(s);
    LowerByToil(cfg, w, s, t);
  }

  lemma LaunchPhase(cfg: Config, w: set<Contact>, s: State)
    requires Weak(cfg, w, s) && s.phase.Waiting? && s.toLaunch != []
    ensures s.phase == Waiting(true)
  {
    hide MarksOk, Apart, Listed;
  }

  lemma LaunchToil(cfg: Config, s: State, t: State)
    requires s.phase.Waiting? && t.phase == s.phase && s.toLaunch != [] && t.toLaunch == s.toLaunch[1..]
    requires |t.pending| == |s.pending| + 1 && |QueryingSet(t.pending)| == |QueryingSet(s.pending)| + 1
    requires s.phase == Waiting(true)
    ensures Toil(cfg, t) < Toil(cfg, s)
  {
  }

  lemma AnswerLower(cfg: Config, w: set<Contact>, s: State, a: Action)
    requires Weak(cfg, w, s) && Enabled(cfg, w, s, a) && (a.Reply? || a.Offer?)
    ensures Lower(cfg, w, s, Apply(cfg, w, s, a))
  {
    PendingMarked(cfg, w, s, a.c);
    hide Weak, Burden, Toil;
  }

  /** What a failed call finds at its place in the list, if the contact is listed
      at all, is that contact. */
  ghost predicate FoundAtOnce(cfg: Config, s: State, c: Contact) {
    c in s.list ==> var p := Position(cfg.away, s.list, cfg.away(c)); p < |s.list| && s.list[p] == c
  }

  lemma CutOpen(l: seq<Contact>, p: nat, replied: set<Key>)
    requires p < |l|
    ensures OpenCount(l[..p] + l[p + 1..], replied) == OpenCount(l, replied) - if l[p].id in replied then 0 else 1
  {
    assert l == l[..p] + ([l[p]] + l[p + 1..]);
    OpenJoin(l[..p], [l[p]] + l[p + 1..], replied);
    OpenJoin([l[p]], l[p + 1..], replied);
    OpenJoin(l[..p], l[p + 1..], replied);
  }

  lemma FailFlight(cfg: Config, w: set<Contact>, s: State, c: Contact)
    requires Weak(cfg, w, s) && Enabled(cfg, w, s, Fail(c))
    ensures var t := Apply(cfg, w, s, Fail(c));
            InFlight(t) == InFlight(s) - {c} && c in InFlight(s)
  {
    hide Weak, QueryingSet;
    QueryingSetSteps(s.pending, c);
    CalledBefore(cfg, w, s, c);
    FailQuerying(s.pending, c);
  }

  lemma FailQuerying(pending: map<Contact, Pc>, c: Contact)
    requires c in pending && pending[c].Querying?
    ensures c in QueryingSet(pending)
  {
  }

  lemma CalledBefore(cfg: Config, w: set<Contact>, s: State, c: Contact)
    requires Weak(cfg, w, s) && c in s.pending
    ensures c !in Elems(s.toLaunch)
  {
    PendingMarked(cfg, w, s, c);
    hide MarksOk, Listed, PhaseOk;
  }

  lemma FailLower(cfg: Config, w: set<Contact>, s: State, c: Contact)
    requires Weak(cfg, w, s) && Enabled(cfg, w, s, Fail(c)) && FoundAtOnce(cfg, s, c)
    ensures Lower(cfg, w, s, Apply(cfg, w, s, Fail(c)))
  {
    hide Weak, InFlight, FoundAtOnce, RemoveOne, Ahead, CallsOver, Toil;
    var t := Apply(cfg, w, s, Fail(c));
    FailFlight(cfg, w, s, c);
    PendingMarked(cfg, w, s, c);
    FailAhead(cfg, s, t, c);
    assert CallsOver(t) ==> Burden(t) < Burden(s);
  }

  lemma FailAhead(cfg: Config, s: State, t: State, c: Contact)
    requires InFlight(t) == InFlight(s) - {c} && c in InFlight(s) && c.id !in s.replies && FoundAtOnce(cfg, s, c)
    requires t.list == RemoveOne(cfg.away, s.list, c) && t.replies == s.replies
    ensures Ahead(t) < Ahead(s)
  {
    hide InFlight;
    if c in s.list {
      var p := Position(cfg.away, s.list, cfg.away(c));
      CutOpen(s.list, p, s.replies.Keys);
      assert s.list == s.list[..p] + [c] + s.list[p + 1..];
      assert Missing(t) <= Missing(s);
      SubsetSize(Missing(t), Missing(s));
    } else {
      RemoveAbsent(cfg.away, s.list, c);
      assert Missing(t) <= Missing(s) - {c};
      SubsetSize(Missing(t), Missing(s) - {c});
    }
  }

  lemma RemoveAbsent(f: Contact -> nat, l: seq<Contact>, c: Contact)
    requires c !in l
    ensures RemoveOne(f, l, c) == l
  {
  }

  lemma HandOverFlight(s: State, c: Contact)
    requires c in s.pending && s.pending[c].Replied?
    ensures QueryingSet(s.pending - {c}) == QueryingSet(s.pending) && |s.pending - {c}| == |s.pending| - 1
  {
    QueryingSetSteps(s.pending, c);
    assert c !in QueryingSet(s.pending);
  }

  lemma FinishLower(cfg: Config, w: set<Contact>, s: State, c: Contact)
    requires Weak(cfg, w, s) && Enabled(cfg, w, s, Finish(c))
    ensures Lower(cfg, w, s, Apply(cfg, w, s, Finish(c)))
  {
    hide Weak, QueryingSet, Lower, Ahead, RoundRank;
    InRound(cfg, w, s, c);
    var t := Apply(cfg, w, s, Finish(c));
    HandOverFlight(s, c);
    SameAhead(s, t);
    HandOverToil(cfg, s, t, c);
    hide Toil;
    LowerByToil(cfg, w, s, t);
  }

  lemma SameAhead(s: State, t: State)
    requires t.list == s.list && t.replies == s.replies && InFlight(t) == InFlight(s)
    ensures Ahead(t) == Ahead(s)
  {
    hide InFlight;
    assert Missing(t) == Missing(s);
  }

  lemma InRound(cfg: Config, w: set<Contact>, s: State, c: Contact)
    requires Weak(cfg, w, s) && c in s.pending
    ensures s.phase == Waiting(true) && |s.list| <= cfg.k
  {
    assert s.pending != map[];
    hide MarksOk, Apart;
  }

  lemma HandOverToil(cfg: Config, s: State, t: State, c: Contact)
    requires c in s.pending && s.pending[c].Replied? && t.pending == s.pending - {c}
    requires s.phase == Waiting(true) && t.phase == s.phase && t.toLaunch == s.toLaunch
    ensures Toil(cfg, t) < Toil(cfg, s)
  {
    HandOverFlight(s, c);
  }

  /** An insert of a contact that has answered adds no open entry, and what it
      pushes off the end is counted as missing at most. */
  lemma InsertAhead(cfg: Config, s: State, t: State, c: Contact)
    requires InFlight(t) == InFlight(s) && |s.list| <= cfg.k && t.replies == s.replies && c.id in s.replies
    requires t.list == Inserted(cfg, s.list, [c]) && forall d :: d in InFlight(s) ==> d.id !in s.replies
    ensures Ahead(t) <= Ahead(s)
  {
    var all := InsertOne(cfg.away, s.list, c);
    SingleInsert(cfg.away, s.list, c);
    InsertOneOpen(cfg.away, s.list, c, s.replies.Keys);
    InsertOneElems(cfg.away, s.list, c);
    hide InFlight, InsertOne, InsertAll;
    if |all| <= cfg.k {
      InsertKept(s, t);
    } else {
      InsertCut(cfg, s, t, all);
    }
  }

  lemma InsertKept(s: State, t: State)
    requires InFlight(t) == InFlight(s) && t.replies == s.replies && Elems(s.list) <= Elems(t.list)
    requires OpenCount(t.list, t.replies.Keys) == OpenCount(s.list, s.replies.Keys)
    ensures Ahead(t) <= Ahead(s)
  {
    hide InFlight;
    assert forall d :: d in s.list ==> d in Elems(t.list);
    SubsetSize(Missing(t), Missing(s));
  }

  lemma InsertCut(cfg: Config, s: State, t: State, all: seq<Contact>)
    requires InFlight(t) == InFlight(s) && t.replies == s.replies && |all| == cfg.k + 1 && t.list == all[..cfg.k]
    requires OpenCount(all, s.replies.Keys) == OpenCount(s.list, s.replies.Keys) && Elems(s.list) <= Elems(all)
    requires forall d :: d in InFlight(s) ==> d.id !in s.replies
    ensures Ahead(t) <= Ahead(s)
  {
    hide InFlight;
    var e := all[cfg.k];
    assert all == t.list + [e];
    OpenJoin(t.list, [e], s.replies.Keys);
    assert forall d :: d in s.list ==> d in Elems(all);
    assert Missing(t) <= Missing(s) + {e};
    if e.id in s.replies {
      SubsetSize(Missing(t), Missing(s));
    } else {
      SubsetSize(Missing(t), Missing(s) + {e});
    }
  }

  lemma SingleInsert(f: Contact -> nat, l: seq<Contact>, c: Contact)
    ensures InsertAll(f, l, [c]) == InsertOne(f, l, c) && |InsertOne(f, l, c)| <= |l| + 1
  {
    assert [c][..0] == [];
  }

  lemma InsertOneOpen(f: Contact -> nat, l: seq<Contact>, c: Contact, replied: set<Key>)
    requires c.id in replied
    ensures OpenCount(InsertOne(f, l, c), replied) == OpenCount(l, replied)
  {
    var p := Position(f, l, f(c));
    assert l == l[..p] + l[p..];
    OpenJoin(l[..p], l[p..], replied);
    OpenJoin(l[..p] + [c], l[p..], replied);
    OpenJoin(l[..p], [c], replied);
  }

  lemma FlightOpen(cfg: Config, w: set<Contact>, s: State)
    requires Weak(cfg, w, s)
    ensures forall d :: d in InFlight(s) ==> d.id !in s.replies
  {
    forall d | d in InFlight(s)
      ensures d.id !in s.replies
    {
      if d in s.pending && s.pending[d].Querying? {
        PendingMarked(cfg, w, s, d);
      } else {
        assert d in s.toLaunch;
      }
    }
  }

  lemma ReinsertLower(cfg: Config, w: set<Contact>, s: State, c: Contact)
    requires Weak(cfg, w, s) && Enabled(cfg, w, s, Reinsert(c))
    ensures Lower(cfg, w, s, Apply(cfg, w, s, Reinsert(c)))
  {
    hide Weak, QueryingSet, Lower, OpenCount, Inserted, Missing, Ahead;
    var t := Apply(cfg, w, s, Reinsert(c));
    InRound(cfg, w, s, c);
    HandOverFlight(s, c);
    PendingMarked(cfg, w, s, c);
    FlightOpen(cfg, w, s);
    InsertAhead(cfg, s, t, c);
    HandOverToil(cfg, s, t, c);
    LowerByToil(cfg, w, s, t);
  }

  lemma ConcludeLower(cfg: Config, w: set<Contact>, s: State)
    requires ValidConfig(cfg) && Weak(cfg, w, s) && Enabled(cfg, w, s, Conclude)
    ensures Lower(cfg, w, s, Apply(cfg, w, s, Conclude))
  {
    hide Weak, Ahead, Lower, Unmarked, CacheTarget;
    var t := Apply(cfg, w, s, Conclude);
    ConcludePhase(cfg, w, s);
    ConcludeFlight(s, t);
    RoundOver(cfg, w, s, t);
  }

  lemma RoundOver(cfg: Config, w: set<Contact>, s: State, t: State)
    requires s.phase.Waiting? && InFlight(s) == {} && InFlight(t) == {} && Ahead(t) == Ahead(s)
    requires t.replies == s.replies && !t.phase.Waiting?
    requires s.phase == Waiting(true) || t.phase.Returned?
    ensures Lower(cfg, w, s, t)
  {
    hide InFlight, Ahead;
  }

  /** A round without calls is the last. */
  lemma ConcludePhase(cfg: Config, w: set<Contact>, s: State)
    requires Weak(cfg, w, s) && Enabled(cfg, w, s, Conclude)
    ensures s.phase == Waiting(true) || Apply(cfg, w, s, Conclude).phase.Returned?
  {
    hide MarksOk, Apart, Listed, Unmarked;
  }

  lemma ConcludeFlight(s: State, t: State)
    requires s.toLaunch == [] && s.pending == map[] && t.toLaunch == [] && t.pending == map[]
    requires t.list == s.list && t.replies == s.replies
    ensures InFlight(s) == {} && InFlight(t) == {} && Ahead(t) == Ahead(s)
  {
    assert Missing(s) == {} && Missing(t) == {};
  }

  lemma StepLower(cfg: Config, w: set<Contact>, s: State, a: Action)
    requires ValidConfig(cfg) && Weak(cfg, w, s) && Enabled(cfg, w, s, a)
    requires a.Fail? ==> FoundAtOnce(cfg, s, a.c)
    ensures Lower(cfg, w, s, Apply(cfg, w, s, a))
  {
    hide Weak, Apply, Enabled, Lower, FoundAtOnce;
    match a
    case Pick => PickLower(cfg, w, s);
    case Launch => LaunchLower(cfg, w, s);
    case Reply(c, cs) => AnswerLower(cfg, w, s, a);
    case Offer(c, ps) => AnswerLower(cfg, w, s, a);
    case Fail(c) => FailLower(cfg, w, s, c);
    case Finish(c) => FinishLower(cfg, w, s, c);
    case Reinsert(c) => ReinsertLower(cfg, w, s, c);
    case Conclude => ConcludeLower(cfg, w, s);
  }

  // ----- the measure as a number

  ghost function Measure(cfg: Config, w: set<Contact>, s: State): int {
    Weigh(4 * cfg.k + 1, 3 * cfg.k + 5, Silent(w, s), Burden(s), Toil(cfg, s))
  }

  function SettleBound(n: nat, k: nat): nat {
    (n + 1) * (4 * k + 2) * (3 * k + 5)
  }

  lemma MeasureParts(cfg: Config, w: set<Contact>, s: State)
    requires Weak(cfg, w, s)
    ensures 0 <= Silent(w, s) <= |w| && Burden(s) <= 4 * cfg.k + 1 && Toil(cfg, s) < 3 * cfg.k + 5
  {
    hide Listed, MarksOk, Apart, PhaseOk, Missing, InFlight, OpenCount, RoundRank, Silent, Ids;
    SilentParts(cfg, w, s);
    AheadParts(cfg, w, s);
    ToilParts(cfg, w, s);
  }

  lemma SilentParts(cfg: Config, w: set<Contact>, s: State)
    requires Weak(cfg, w, s)
    ensures 0 <= Silent(w, s) <= |w|
  {
    hide PhaseOk, Apart;
    SilentBounds(w, s.replies, s.learned);
    IdsSize(w);
  }

  lemma AheadParts(cfg: Config, w: set<Contact>, s: State)
    requires Weak(cfg, w, s)
    ensures Burden(s) <= 4 * cfg.k + 1
  {
    hide MarksOk, PhaseOk, Ascending, OpenCount;
    FlightSize(cfg, s);
    hide Apart, InFlight;
    SubsetSize(Missing(s), InFlight(s));
  }

  lemma ToilParts(cfg: Config, w: set<Contact>, s: State)
    requires Weak(cfg, w, s)
    ensures Toil(cfg, s) < 3 * cfg.k + 5
  {
    hide MarksOk, PhaseOk, Listed;
    FlightSize(cfg, s);
    hide QueryingSet;
  }

  lemma FlightSize(cfg: Config, s: State)
    requires Apart(cfg, s)
    ensures |InFlight(s)| <= cfg.k && |QueryingSet(s.pending)| <= |s.pending|
  {
    SubsetSize(QueryingSet(s.pending), s.pending.Keys);
    assert |s.pending| == |s.pending.Keys|;
    ElemsSize(s.toLaunch);
    UnionSize(Elems(s.toLaunch), QueryingSet(s.pending));
  }

  lemma UnionSize<T>(a: set<T>, b: set<T>)
    ensures |a + b| <= |a| + |b|
  {
    assert a + b == a + (b - a);
    SubsetSize(b - a, b);
  }

  lemma StepMeasure(cfg: Config, w: set<Contact>, s: State, s': State)
    requires Weak(cfg, w, s) && Weak(cfg, w, s') && Lower(cfg, w, s, s')
    ensures Measure(cfg, w, s') < Measure(cfg, w, s)
  {
    hide Weak, Burden, Toil, Silent, Weigh;
    MeasureParts(cfg, w, s);
    MeasureParts(cfg, w, s');
    WeighDown(4 * cfg.k + 1, 3 * cfg.k + 5, Silent(w, s), Burden(s), Toil(cfg, s),
      Silent(w, s'), Burden(s'), Toil(cfg, s'));
  }

  lemma MeasureBounds(cfg: Config, w: set<Contact>, s: State)
    requires Weak(cfg, w, s)
    ensures 0 <= Measure(cfg, w, s) <= SettleBound(|w|, cfg.k)
  {
    hide Weak, Burden, Toil, Silent;
    MeasureParts(cfg, w, s);
    WeighLimit(4 * cfg.k + 1, 3 * cfg.k + 5, Silent(w, s), Burden(s), Toil(cfg, s), |w|);
  }

  lemma WeighLimit(k: nat, m: nat, a: nat, b: nat, i: nat, n: nat)
    requires b <= k && i < m && a <= n
    ensures 0 <= Weigh(k, m, a, b, i) <= (n + 1) * (k + 1) * m
  {
    MulMono(a, n, k + 1);
    assert (n + 1) * (k + 1) == n * (k + 1) + k + 1;
    MulMono(0, a * (k + 1) + b, m);
    MulGap(a * (k + 1) + b, (n + 1) * (k + 1), m);
  }
}
