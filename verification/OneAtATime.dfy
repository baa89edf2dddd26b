/** Lookups that call one contact at a time (a parallelism of one in dht/node.go):
    what keeps them orderly until the nearest contact has answered. */
module SingleCalls {
  import opened Keys
  import opened Ranking
  import opened Contacts
  import opened Shortlists
  import opened PeerRecords
  import opened Lookups
  import opened RestlessLookups
  import opened Settling
  import opened CalmLookups

  // ----- one call at a time

  ghost predicate NoStutter(l: seq<Contact>) {
    forall i :: 0 <= i && i + 1 < |l| ==> l[i] != l[i + 1]
  }

  lemma NoStutterInsertOne(cfg: Config, l: seq<Contact>, c: Contact)
    requires NoStutter(l)
    ensures NoStutter(InsertOne(cfg.away, l, c))
  {
    var p := Position(cfg.away, l, cfg.away(c));
    var r := InsertOne(cfg.away, l, c);
    if r != l {
      forall i | 0 <= i && i + 1 < |r|
        ensures r[i] != r[i + 1]
      {
        assert r[i] == if i < p then l[i] else if i == p then c else l[i - 1];
        assert r[i + 1] == if i + 1 < p then l[i + 1] else if i + 1 == p then c else l[i];
      }
    }
  }

  lemma {:induction false} NoStutterInserted(cfg: Config, l: seq<Contact>, cs: seq<Contact>)
    requires NoStutter(l)
    ensures NoStutter(InsertAll(cfg.away, l, cs)) && NoStutter(Inserted(cfg, l, cs))
  {
    if cs != [] {
      NoStutterInserted(cfg, l, cs[..|cs| - 1]);
      NoStutterInsertOne(cfg, InsertAll(cfg.away, l, cs[..|cs| - 1]), cs[|cs| - 1]);
    }
  }

  lemma NoStutterRemove(cfg: Config, l: seq<Contact>, c: Contact)
    requires NoStutter(l) && Ascending(cfg.away, l)
    ensures NoStutter(RemoveOne(cfg.away, l, c))
  {
    var p := Position(cfg.away, l, cfg.away(c));
    var r := RemoveOne(cfg.away, l, c);
    if r != l {
      assert l[p] == c;
      forall i | 0 <= i && i + 1 < |r|
        ensures r[i] != r[i + 1]
      {
        var m, n := if i < p then i else i + 1, if i + 1 < p then i + 1 else i + 2;
        assert r[i] == l[m] && r[i + 1] == l[n];
        assert i + 1 == p ==> cfg.away(l[m]) < cfg.away(c) <= cfg.away(l[n]);
      }
    }
  }

  ghost predicate FirstOpen(l: seq<Contact>, replied: set<Key>, c: Contact) {
    exists i :: 0 <= i < |l| && l[i] == c && forall j :: 0 <= j < i ==> l[j].id in replied
  }

  function Total(s: State): nat {
    |s.toLaunch| + |s.pending|
  }

  ghost predicate HeadAnswered(s: State) {
    s.list != [] && s.list[0].id in s.replies
  }

  /** The head of the list when the round began has answered, or is the one call
      in flight, or has failed and is the head no more. */
  ghost predicate ClosestRule(s: State) {
    || s.closest.id in s.replies
    || (InFlight(s) == {s.closest} && s.limit == 1 && s.list != [] && s.list[0] == s.closest)
    || (InFlight(s) == {} && (s.list == [] || s.list[0] != s.closest))
  }

  ghost predicate HeadRule(s: State) {
    match s.phase
    case Picking => s.limit == 1 || HeadAnswered(s)
    case Waiting(_) => ClosestRule(s)
    case Returned(_) => true
  }

  /** Few enough calls that no reply comes while another is awaited. */
  ghost predicate Lone(cfg: Config, s: State) {
    s.limit == 1 || cfg.k <= 2
  }

  ghost predicate CallsRule(cfg: Config, s: State) {
    if Lone(cfg, s)
    then Total(s) <= 1 && forall c :: c in InFlight(s) ==> FirstOpen(s.list, s.replies.Keys, c)
    else Total(s) < cfg.k
  }

  /** Calls are made together only after the nearest contact has answered. */
  ghost predicate TogetherLater(cfg: Config, w: set<Contact>, s: State) {
    s.limit != 1 ==> forall c :: c in InFlight(s) ==> !Nearest(cfg, w, c.id)
  }

  ghost predicate OneByOne(cfg: Config, w: set<Contact>, s: State) {
    NoStutter(s.list) && HeadRule(s) && CallsRule(cfg, s) && TogetherLater(cfg, w, s)
  }

  lemma {:induction false} FirstUnmarked(l: seq<Contact>, marks: set<Key>)
    requires Unmarked(l, marks) != []
    ensures FirstOpen(l, marks, Unmarked(l, marks)[0])
  {
    var front, c := l[..|l| - 1], l[|l| - 1];
    if Unmarked(front, marks) == [] {
      assert l[|l| - 1] == c;
      forall j | 0 <= j < |l| - 1
        ensures l[j].id in marks
      {
        assert l[j] in front;
      }
    } else {
      FirstUnmarked(front, marks);
      var i :| 0 <= i < |front| && front[i] == Unmarked(front, marks)[0]
        && forall j :: 0 <= j < i ==> front[j].id in marks;
      assert l[i] == front[i] && forall j :: 0 <= j < i ==> l[j] == front[j];
    }
  }

  lemma {:induction false} UnmarkedFewer(l: seq<Contact>, marks: set<Key>)
    requires l != [] && l[0].id in marks
    ensures |Unmarked(l, marks)| < |l|
  {
    if |l| > 1 {
      UnmarkedFewer(l[..|l| - 1], marks);
    } else {
      assert l[..0] == [];
    }
  }

  lemma {:induction false} UnmarkedHead(l: seq<Contact>, marks: set<Key>)
    requires l != [] && l[0].id !in marks
    ensures Unmarked(l, marks) != [] && Unmarked(l, marks)[0] == l[0]
  {
    if |l| > 1 {
      UnmarkedHead(l[..|l| - 1], marks);
    } else {
      assert l[..0] == [];
    }
  }

  /** With no calls the marks are the answers. */
  lemma MarksAreAnswers(cfg: Config, w: set<Contact>, s: State)
    requires Weak(cfg, w, s) && s.phase.Picking?
    ensures s.contacted == s.replies.Keys && s.pending == map[] && s.toLaunch == [] && InFlight(s) == {}
    ensures s.list != [] && s.closest == s.list[0]
  {
    hide Listed, Apart;
    assert PendingIds(s.pending, Querying) == {};
  }

  // ----- what a call awaited alone says

  lemma LoneCall(s: State, c: Contact)
    requires Total(s) <= 1 && c in s.pending
    ensures InFlight(s) == if s.pending[c].Querying? then {c} else {}
  {
    SubsetSize({c}, s.pending.Keys);
    assert |s.pending| == |s.pending.Keys|;
    forall d | d in s.pending
      ensures d == c
    {
      if d != c {
        SubsetSize({c, d}, s.pending.Keys);
      }
    }
  }

  /** A reply, an offer or a failure takes its contact out of flight. */
  lemma AnswerFlight(cfg: Config, w: set<Contact>, s: State, c: Contact)
    requires Weak(cfg, w, s) && c in s.pending && s.pending[c].Querying?
    ensures c in InFlight(s) && c !in s.toLaunch
    ensures QueryingSet(s.pending[c := Replied]) == QueryingSet(s.pending) - {c}
    ensures |s.pending[c := Replied]| == |s.pending|
  {
    hide Weak;
    CalledBefore(cfg, w, s, c);
    assert s.pending[c := Replied].Keys == s.pending.Keys;
    assert |s.pending[c := Replied]| == |s.pending[c := Replied].Keys| && |s.pending| == |s.pending.Keys|;
  }

  /** Fewer calls than before, and none left if there was one only. */
  lemma FewerCalls(cfg: Config, w: set<Contact>, s: State, t: State)
    requires CallsRule(cfg, s) && TogetherLater(cfg, w, s)
    requires t.limit == s.limit && InFlight(t) <= InFlight(s) && Total(t) <= Total(s)
    requires Lone(cfg, s) ==> InFlight(t) == {}
    ensures CallsRule(cfg, t) && TogetherLater(cfg, w, t)
  {
    hide InFlight, FirstOpen, Total, Nearest;
  }

  // ----- every action keeps the calls orderly

  lemma HeadNearest(cfg: Config, w: set<Contact>, s: State, c: Contact)
    requires ByIds(cfg, w) && Weak(cfg, w, s) && HeadAnswered(s)
    requires c in s.list && c.id !in s.replies
    ensures !Nearest(cfg, w, c.id)
  {
    hide MarksOk, Apart, PhaseOk;
    assert c in Elems(s.list) && s.list[0] in Elems(s.list);
    var i :| 0 <= i < |s.list| && s.list[i] == c;
  }

  /** A round begins by asking the entries without an answer, up to the limit. */
  ghost predicate Picked(s: State, t: State) {
    && t.list == s.list && t.replies == s.replies && t.limit == s.limit
    && s.list != [] && t.closest == s.list[0]
    && t.toLaunch == Take(s.limit, Unmarked(s.list, s.replies.Keys)) && t.pending == map[]
    && t.phase.Waiting?
  }

  lemma PickIs(cfg: Config, w: set<Contact>, s: State)
    requires Weak(cfg, w, s) && s.phase.Picking?
    ensures Picked(s, Apply(cfg, w, s, Pick))
  {
    MarksAreAnswers(cfg, w, s);
    hide Weak, Unmarked, InFlight;
  }

  lemma PickedCalls(s: State, t: State)
    requires Picked(s, t)
    ensures InFlight(t) == Elems(t.toLaunch) && Total(t) == |t.toLaunch|
    ensures forall c :: c in InFlight(t) ==> c in s.list && c.id !in s.replies
  {
    var open := Unmarked(s.list, s.replies.Keys);
    assert QueryingSet(t.pending) == {};
    forall c | c in Take(s.limit, open)
      ensures c in s.list && c.id !in s.replies
    {
      assert c in open;
    }
    hide Unmarked;
  }

  lemma PickCalls(cfg: Config, s: State, t: State)
    requires cfg.k >= 1 && Picked(s, t) && |s.list| <= cfg.k && (s.limit == 1 || HeadAnswered(s))
    ensures CallsRule(cfg, t)
  {
    var open := Unmarked(s.list, s.replies.Keys);
    PickedCalls(s, t);
    UnmarkedShort(s.list, s.replies.Keys);
    if s.limit != 1 {
      UnmarkedFewer(s.list, s.replies.Keys);
    }
    hide InFlight, Total, Unmarked;
    if t.toLaunch != [] {
      FirstUnmarked(s.list, s.replies.Keys);
      hide FirstOpen;
      assert t.toLaunch[0] == open[0];
    }
  }

  lemma PickLater(cfg: Config, w: set<Contact>, s: State, t: State)
    requires ByIds(cfg, w) && Weak(cfg, w, s) && Picked(s, t) && (s.limit == 1 || HeadAnswered(s))
    ensures TogetherLater(cfg, w, t)
  {
    PickedCalls(s, t);
    hide InFlight, Weak, Nearest, Unmarked;
    if s.limit != 1 {
      forall c | c in InFlight(t)
        ensures !Nearest(cfg, w, c.id)
      {
        HeadNearest(cfg, w, s, c);
      }
    }
  }

  lemma PickHead(s: State, t: State)
    requires Picked(s, t) && (s.limit == 1 || HeadAnswered(s))
    ensures ClosestRule(t)
  {
    PickedCalls(s, t);
    hide InFlight;
    if !HeadAnswered(s) {
      UnmarkedHead(s.list, s.replies.Keys);
      hide Unmarked;
      assert t.toLaunch == [s.list[0]];
    }
  }

  lemma PickOrderly(cfg: Config, w: set<Contact>, s: State)
    requires ValidConfig(cfg) && ByIds(cfg, w) && Weak(cfg, w, s) && OneByOne(cfg, w, s)
    requires Enabled(cfg, w, s, Pick)
    ensures OneByOne(cfg, w, Apply(cfg, w, s, Pick))
  {
    var t := Apply(cfg, w, s, Pick);
    assert s.limit == 1 || HeadAnswered(s);
    PickIs(cfg, w, s);
    ShortList(cfg, w, s);
    hide Unmarked, NoStutter, CallsRule, TogetherLater, ClosestRule, HeadAnswered;
    PickLater(cfg, w, s, t);
    hide Weak;
    PickCalls(cfg, s, t);
    PickHead(s, t);
  }

  lemma ShortList(cfg: Config, w: set<Contact>, s: State)
    requires Weak(cfg, w, s)
    ensures |s.list| <= cfg.k && Ascending(cfg.away, s.list) && Elems(s.list) <= Others(w, cfg.self)
  {
    hide MarksOk, Apart, PhaseOk;
  }

  lemma LaunchOrderly(cfg: Config, w: set<Contact>, s: State)
    requires Weak(cfg, w, s) && OneByOne(cfg, w, s) && Enabled(cfg, w, s, Launch)
    ensures OneByOne(cfg, w, Apply(cfg, w, s, Launch))
  {
    hide Weak, InFlight, OneByOne;
    LaunchFlight(cfg, w, s);
    SameCalls(cfg, w, s, Apply(cfg, w, s, Launch));
  }

  lemma SameCalls(cfg: Config, w: set<Contact>, s: State, t: State)
    requires OneByOne(cfg, w, s) && t.list == s.list && t.replies == s.replies && t.limit == s.limit
    requires t.closest == s.closest && t.phase == s.phase && InFlight(t) == InFlight(s) && Total(t) == Total(s)
    ensures OneByOne(cfg, w, t)
  {
    hide InFlight, NoStutter, FirstOpen, Nearest, Total;
  }

  lemma AnswerHead(cfg: Config, w: set<Contact>, s: State, t: State, c: Contact)
    requires ClosestRule(s) && c in InFlight(s)
    requires t.closest == s.closest && s.replies.Keys + {c.id} == t.replies.Keys
    ensures ClosestRule(t)
  {
    hide InFlight;
  }

  lemma AnswerCalls(cfg: Config, w: set<Contact>, s: State, t: State, c: Contact)
    requires Weak(cfg, w, s) && OneByOne(cfg, w, s) && c in s.pending && s.pending[c].Querying?
    requires t.pending == s.pending[c := Replied] && t.toLaunch == s.toLaunch && t.limit == s.limit
    requires t.phase == s.phase && t.closest == s.closest && t.replies.Keys == s.replies.Keys + {c.id}
    requires NoStutter(t.list)
    ensures OneByOne(cfg, w, t)
  {
    InRound(cfg, w, s, c);
    AnswerFlight(cfg, w, s, c);
    if Lone(cfg, s) {
      LoneCall(s, c);
    }
    hide Weak, NoStutter, QueryingSet;
    AnswerHead(cfg, w, s, t, c);
    hide ClosestRule, CallsRule, TogetherLater;
    assert Total(s) <= 1 || !Lone(cfg, s) by {
      CallsTotal(cfg, s);
    }
    FewerCalls(cfg, w, s, t);
  }

  lemma CallsTotal(cfg: Config, s: State)
    requires CallsRule(cfg, s)
    ensures if Lone(cfg, s) then Total(s) <= 1 else Total(s) < cfg.k
  {
  }

  lemma ReplyOrderly(cfg: Config, w: set<Contact>, s: State, c: Contact, cs: seq<Contact>)
    requires Weak(cfg, w, s) && OneByOne(cfg, w, s) && Enabled(cfg, w, s, Reply(c, cs))
    ensures OneByOne(cfg, w, Apply(cfg, w, s, Reply(c, cs)))
  {
    hide Weak, OneByOne, LegalReply, Inserted;
    assert NoStutter(s.list) by {
      OrderlyList(cfg, w, s);
    }
    NoStutterInserted(cfg, s.list, cs);
    AnswerCalls(cfg, w, s, Apply(cfg, w, s, Reply(c, cs)), c);
  }

  lemma OrderlyList(cfg: Config, w: set<Contact>, s: State)
    requires OneByOne(cfg, w, s)
    ensures NoStutter(s.list)
  {
  }

  lemma OfferOrderly(cfg: Config, w: set<Contact>, s: State, c: Contact, ps: seq<Peer>)
    requires Weak(cfg, w, s) && OneByOne(cfg, w, s) && Enabled(cfg, w, s, Offer(c, ps))
    ensures OneByOne(cfg, w, Apply(cfg, w, s, Offer(c, ps)))
  {
    hide Weak, OneByOne;
    OrderlyList(cfg, w, s);
    AnswerCalls(cfg, w, s, Apply(cfg, w, s, Offer(c, ps)), c);
  }

  /** The failure of the head brings another contact to the front. */
  lemma FailHead(cfg: Config, s: State, t: State, c: Contact)
    requires ClosestRule(s) && c in InFlight(s) && NoStutter(s.list) && Ascending(cfg.away, s.list)
    requires t.closest == s.closest && t.replies == s.replies && InFlight(t) == InFlight(s) - {c}
    requires t.list == RemoveOne(cfg.away, s.list, c)
    ensures ClosestRule(t)
  {
    hide InFlight, Ascending;
    if s.closest.id !in s.replies {
      assert c == s.closest == s.list[0] && Position(cfg.away, s.list, cfg.away(c)) == 0;
      assert t.list == s.list[1..];
    }
  }

  lemma FailOrderly(cfg: Config, w: set<Contact>, s: State, c: Contact)
    requires Weak(cfg, w, s) && OneByOne(cfg, w, s) && Enabled(cfg, w, s, Fail(c))
    ensures OneByOne(cfg, w, Apply(cfg, w, s, Fail(c)))
  {
    hide Weak, OneByOne, NoStutter, InFlight, RemoveOne, Ascending, ClosestRule, CallsRule, TogetherLater;
    var t := Apply(cfg, w, s, Fail(c));
    InRound(cfg, w, s, c);
    ShortList(cfg, w, s);
    OrderlyFacts(cfg, w, s);
    FailFlight(cfg, w, s, c);
    LoneEmpties(cfg, s, c);
    NoStutterRemove(cfg, s.list, c);
    FailHead(cfg, s, t, c);
    DropTotal(s.pending, c);
    FewerCalls(cfg, w, s, t);
    Orderly(cfg, w, t);
  }

  lemma Orderly(cfg: Config, w: set<Contact>, t: State)
    requires NoStutter(t.list) && t.phase.Waiting? && ClosestRule(t) && CallsRule(cfg, t) && TogetherLater(cfg, w, t)
    ensures OneByOne(cfg, w, t)
  {
    hide NoStutter, ClosestRule, CallsRule, TogetherLater;
  }

  lemma DropTotal(pending: map<Contact, Pc>, c: Contact)
    requires c in pending
    ensures |pending - {c}| == |pending| - 1
  {
    QueryingSetSteps(pending, c);
  }

  lemma LoneEmpties(cfg: Config, s: State, c: Contact)
    requires CallsRule(cfg, s) && c in s.pending
    ensures Lone(cfg, s) ==> InFlight(s) == if s.pending[c].Querying? then {c} else {}
  {
    hide InFlight, FirstOpen;
    if Lone(cfg, s) {
      LoneCall(s, c);
    }
  }

  lemma HandOverCalls(cfg: Config, w: set<Contact>, s: State, t: State, c: Contact)
    requires Weak(cfg, w, s) && OneByOne(cfg, w, s) && c in s.pending && s.pending[c].Replied?
    requires t.pending == s.pending - {c} && t.toLaunch == s.toLaunch && t.limit == s.limit
    requires t.phase == s.phase && NoStutter(t.list) && ClosestRule(t)
    ensures OneByOne(cfg, w, t)
  {
    hide Weak, OneByOne, NoStutter, InFlight, ClosestRule, CallsRule, TogetherLater;
    InRound(cfg, w, s, c);
    OrderlyFacts(cfg, w, s);
    LoneEmpties(cfg, s, c);
    SameFlight(s, t, c);
    DropTotal(s.pending, c);
    FewerCalls(cfg, w, s, t);
    Orderly(cfg, w, t);
  }

  lemma FinishOrderly(cfg: Config, w: set<Contact>, s: State, c: Contact)
    requires Weak(cfg, w, s) && OneByOne(cfg, w, s) && Enabled(cfg, w, s, Finish(c))
    ensures OneByOne(cfg, w, Apply(cfg, w, s, Finish(c)))
  {
    hide Weak, OneByOne, NoStutter, InFlight, ClosestRule;
    var t := Apply(cfg, w, s, Finish(c));
    InRound(cfg, w, s, c);
    SameFlight(s, t, c);
    OrderlyFacts(cfg, w, s);
    SameHead(s, t);
    HandOverCalls(cfg, w, s, t, c);
  }

  lemma SameFlight(s: State, t: State, c: Contact)
    requires c in s.pending && s.pending[c].Replied? && t.pending == s.pending - {c} && t.toLaunch == s.toLaunch
    ensures InFlight(t) == InFlight(s)
  {
    HandOverFlight(s, c);
  }

  lemma OrderlyFacts(cfg: Config, w: set<Contact>, s: State)
    requires OneByOne(cfg, w, s) && s.phase.Waiting?
    ensures NoStutter(s.list) && ClosestRule(s) && CallsRule(cfg, s) && TogetherLater(cfg, w, s)
  {
  }

  lemma SameHead(s: State, t: State)
    requires ClosestRule(s) && InFlight(t) == InFlight(s) && t.list == s.list && t.limit == s.limit
    requires t.closest == s.closest && t.replies == s.replies
    ensures ClosestRule(t)
  {
    hide InFlight;
  }

  /** A contact put back is another than the one that leads the round, unless
      that one has answered. */
  lemma ReinsertHead(cfg: Config, s: State, t: State, c: Contact)
    requires ClosestRule(s) && CallsRule(cfg, s) && c.id in s.replies && c in s.pending && s.pending[c].Replied?
    requires t.list == Inserted(cfg, s.list, [c]) && InFlight(t) == InFlight(s)
    requires t.closest == s.closest && t.replies == s.replies
    ensures ClosestRule(t)
  {
    LoneEmpties(cfg, s, c);
    hide InFlight, InsertOne;
    if s.closest.id !in s.replies {
      InsertSingle(cfg.away, s.list, c);
      InsertOneHead(cfg.away, s.list, c);
    }
  }

  lemma InsertOneHead(f: Contact -> nat, l: seq<Contact>, c: Contact)
    ensures InsertOne(f, l, c)[..1] == [c] || (l != [] && InsertOne(f, l, c)[..1] == [l[0]])
  {
  }

  lemma ReinsertOrderly(cfg: Config, w: set<Contact>, s: State, c: Contact)
    requires ValidConfig(cfg) && Weak(cfg, w, s) && OneByOne(cfg, w, s) && Enabled(cfg, w, s, Reinsert(c))
    ensures OneByOne(cfg, w, Apply(cfg, w, s, Reinsert(c)))
  {
    hide Weak, OneByOne, NoStutter, InFlight, ClosestRule, CallsRule, TogetherLater, Inserted;
    var t := Apply(cfg, w, s, Reinsert(c));
    InRound(cfg, w, s, c);
    PendingMarked(cfg, w, s, c);
    OrderlyFacts(cfg, w, s);
    SameFlight(s, t, c);
    NoStutterInserted(cfg, s.list, [c]);
    ReinsertHead(cfg, s, t, c);
    HandOverCalls(cfg, w, s, t, c);
  }

  lemma ConcludeOrderly(cfg: Config, w: set<Contact>, s: State)
    requires ValidConfig(cfg) && cfg.alpha == 1 && OneByOne(cfg, w, s) && Enabled(cfg, w, s, Conclude)
    ensures OneByOne(cfg, w, Apply(cfg, w, s, Conclude))
  {
    hide InFlight, NoStutter, CacheTarget, Unmarked, Ahead, ClosestRule, CallsRule, TogetherLater;
    var t := Apply(cfg, w, s, Conclude);
    ConcludeFlight(s, t);
    OrderlyFacts(cfg, w, s);
    NoCalls(cfg, w, t);
    ConcludeHead(s, t);
  }

  lemma NoCalls(cfg: Config, w: set<Contact>, t: State)
    requires cfg.k >= 1 && InFlight(t) == {} && Total(t) == 0
    ensures CallsRule(cfg, t) && TogetherLater(cfg, w, t)
  {
    hide InFlight;
  }

  /** A round of many calls comes only after the head kept its place and
      answered. */
  lemma ConcludeHead(s: State, t: State)
    requires ClosestRule(s) && InFlight(s) == {} && t.list == s.list && t.replies == s.replies
    requires t.phase.Returned? || (t.phase.Picking? && (t.limit == 1 || (s.list != [] && s.closest == s.list[0])))
    ensures HeadRule(t)
  {
    hide InFlight;
  }

  lemma StartOrderly(cfg: Config, w: set<Contact>, seed: seq<Contact>)
    requires ValidConfig(cfg) && cfg.alpha == 1 && |seed| == 1
    ensures OneByOne(cfg, w, Start(cfg, seed))
  {
    InsertSingle(cfg.away, [], seed[0]);
    assert seed == [seed[0]];
    assert |Inserted(cfg, [], seed)| <= 1;
  }

  lemma StepOrderly(cfg: Config, w: set<Contact>, s: State, a: Action)
    requires ValidConfig(cfg) && ByIds(cfg, w) && cfg.alpha == 1
    requires Weak(cfg, w, s) && OneByOne(cfg, w, s) && Enabled(cfg, w, s, a)
    ensures OneByOne(cfg, w, Apply(cfg, w, s, a))
  {
    hide Weak, OneByOne, Apply, Enabled;
    match a
    case Pick => PickOrderly(cfg, w, s);
    case Launch => LaunchOrderly(cfg, w, s);
    case Reply(c, cs) => ReplyOrderly(cfg, w, s, c, cs);
    case Offer(c, ps) => OfferOrderly(cfg, w, s, c, ps);
    case Fail(c) => FailOrderly(cfg, w, s, c);
    case Finish(c) => FinishOrderly(cfg, w, s, c);
    case Reinsert(c) => ReinsertOrderly(cfg, w, s, c);
    case Conclude => ConcludeOrderly(cfg, w, s);
  }
}
