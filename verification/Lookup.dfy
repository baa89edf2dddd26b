/** The iterative lookup (`lookup` in dht/node.go) as a transition system: every
    interleaving of the launches, replies, failures and late re-inserts of a
    round is a sequence of actions. */
module Lookups {
  import opened Keys
  import opened Ranking
  import opened Contacts
  import opened Shortlists
  import opened PeerRecords

  const MAX_INT: nat := 0x7FFF_FFFF_FFFF_FFFF

  datatype Kind = FindNode | FindPeers

  /** `away` is the distance to the target key, `Away(target)`. The transition
      system needs no more of it than that it tells the contacts of the world
      apart. */
  datatype Config = Config(away: Contact -> nat, self: Key, alpha: nat, k: nat, kind: Kind)

  /** The contacts that exist: one address per ID, one distance per contact. */
  ghost predicate World(cfg: Config, w: set<Contact>) {
    OneAddress(w) && Distinct(cfg.away, w)
  }

  /** A bucket size of at least one, which node construction enforces, and a
      parallelism of at least one, which nothing does: without it a lookup that
      has a contact to ask panics, see `LookupMethod.Lookup`. */
  predicate ValidConfig(cfg: Config) {
    1 <= cfg.alpha && SizedConfig(cfg)
  }

  /** Both numbers fit an int. */
  predicate SizedConfig(cfg: Config) {
    cfg.alpha <= MAX_INT && 1 <= cfg.k <= MAX_INT
  }

  /** Where an RPC goroutine is: waiting for its reply, or past the reply and
      about to hand over to the waiting round. */
  datatype Pc = Querying | Replied

  datatype Result =
    | NotFound(contacts: seq<Contact>)
    | Found(peers: seq<Peer>, cachedAt: Option<Contact>)
    | Unreachable
    | NoCloseNodes
    | Panicked

  datatype Phase = Picking | Waiting(sent: bool) | Returned(result: Result)

  datatype State = State(
    // the shortlist
    list: seq<Contact>,
    contacted: set<Key>,
    hasPeers: set<Key>,
    // locals of the round
    limit: nat,
    closest: Contact,
    toLaunch: seq<Contact>,
    pending: map<Contact, Pc>,
    peers: Option<seq<Peer>>,
    phase: Phase,
    // history
    learned: set<Contact>,
    replies: map<Key, seq<Contact>>,
    answers: nat,
    offers: map<Key, seq<Peer>>,
    failed: set<Key>)

  datatype Action =
    | Pick
    | Launch
    | Reply(c: Contact, cs: seq<Contact>)
    | Offer(c: Contact, ps: seq<Peer>)
    | Fail(c: Contact)
    | Finish(c: Contact)
    | Reinsert(c: Contact)
    | Conclude

  /** A reply lists the nearest contacts of the remote table, without the
      requester, whatever that table and its bucket size are. The world `w`
      bounds every table. */
  ghost predicate LegalReply(cfg: Config, w: set<Contact>, cs: seq<Contact>) {
    exists table: set<Contact>, k: nat ::
      table <= w && Distinct(cfg.away, Others(table, cfg.self))
      && cs == Lowest(cfg.away, k, Others(table, cfg.self))
  }

  lemma LegalReplyFacts(cfg: Config, w: set<Contact>, cs: seq<Contact>)
    requires LegalReply(cfg, w, cs)
    ensures Elems(cs) <= Others(w, cfg.self)
  {
    var table: set<Contact>, k: nat :|
      table <= w && Distinct(cfg.away, Others(table, cfg.self))
      && cs == Lowest(cfg.away, k, Others(table, cfg.self));
    LowestMeaning(cfg.away, k, Others(table, cfg.self));
  }

  // ----- initial states

  /** The seed: the nearest contacts of the own table, cut to `alpha`. */
  ghost function Seed(cfg: Config, table: set<Contact>): seq<Contact>
    requires World(cfg, table)
  {
    assert Distinct(cfg.away, Others(table, cfg.self));
    Take(cfg.alpha, Lowest(cfg.away, cfg.k, Others(table, cfg.self)))
  }

  function Inserted(cfg: Config, l: seq<Contact>, cs: seq<Contact>): seq<Contact> {
    Take(cfg.k, InsertAll(cfg.away, l, cs))
  }

  lemma SeedListNonempty(cfg: Config, seed: seq<Contact>)
    requires seed != [] && cfg.k >= 1
    ensures Inserted(cfg, [], seed) != []
  {
    InsertAllProperties(cfg.away, [], seed);
    assert seed[0] in Elems(seed);
    ElemsEmpty(InsertAll(cfg.away, [], seed));
  }

  ghost function Start(cfg: Config, seed: seq<Contact>): State
    requires seed != [] && cfg.k >= 1
  {
    var list := Inserted(cfg, [], seed);
    SeedListNonempty(cfg, seed);
    State(list, {}, {}, cfg.alpha, list[0], [], map[], None, Picking,
          Elems(seed), map[], 0, map[], {})
  }

  // ----- actions

  ghost predicate Enabled(cfg: Config, w: set<Contact>, s: State, a: Action) {
    match a
    case Pick => s.phase.Picking?
    case Launch => s.phase.Waiting? && s.toLaunch != []
    case Reply(c, cs) => c in s.pending && s.pending[c].Querying? && LegalReply(cfg, w, cs)
    case Offer(c, ps) => c in s.pending && s.pending[c].Querying? && cfg.kind.FindPeers?
    case Fail(c) => c in s.pending && s.pending[c].Querying?
    case Finish(c) => c in s.pending && s.pending[c].Replied?
    case Reinsert(c) => c in s.pending && s.pending[c].Replied?
    case Conclude => s.phase.Waiting? && s.toLaunch == [] && s.pending == map[]
  }

  ghost function Apply(cfg: Config, w: set<Contact>, s: State, a: Action): State
    requires Enabled(cfg, w, s, a)
  {
    match a
    case Pick =>
      var toContact := Take(s.limit, Unmarked(s.list, s.contacted));
      s.(toLaunch := toContact, phase := Waiting(toContact != []))
    case Launch =>
      var c := s.toLaunch[0];
      s.(toLaunch := s.toLaunch[1..], contacted := s.contacted + {c.id}, pending := s.pending[c := Querying])
    case Reply(c, cs) =>
      s.(list := Inserted(cfg, s.list, cs), pending := s.pending[c := Replied],
         learned := s.learned + Elems(cs), replies := s.replies[c.id := cs], answers := s.answers + 1)
    case Offer(c, ps) =>
      s.(peers := Some(ps), hasPeers := s.hasPeers + {c.id}, pending := s.pending[c := Replied],
         replies := s.replies[c.id := []], answers := s.answers + 1, offers := s.offers[c.id := ps])
    case Fail(c) =>
      s.(list := RemoveOne(cfg.away, s.list, c), contacted := s.contacted - {c.id},
         pending := s.pending - {c}, failed := s.failed + {c.id})
    case Finish(c) =>
      s.(pending := s.pending - {c})
    case Reinsert(c) =>
      s.(list := Inserted(cfg, s.list, [c]), pending := s.pending - {c})
    case Conclude =>
      if s.peers.Some? then s.(phase := Returned(Found(s.peers.value, CacheTarget(s))))
      else if s.list == [] then s.(phase := Returned(Unreachable))
      else if s.closest != s.list[0] then s.(closest := s.list[0], limit := cfg.alpha, phase := Picking)
      else if Unmarked(s.list, s.contacted) == [] then s.(phase := Returned(NotFound(s.list)))
      else s.(limit := MAX_INT, phase := Picking)
  }

  /** The nearest listed contact that did not offer the peers. */
  function CacheTarget(s: State): Option<Contact> {
    var without := Unmarked(s.list, s.hasPeers);
    if without == [] then None else Some(without[0])
  }

  // ----- the invariant, part by part

  function PendingIds(pending: map<Contact, Pc>, pc: Pc): set<Key> {
    set c | c in pending && pending[c] == pc :: c.id
  }

  /** The list is sorted, within `k`, and made of learned contacts. */
  ghost predicate ListOk(cfg: Config, w: set<Contact>, list: seq<Contact>, learned: set<Contact>) {
    && World(cfg, w)
    && learned <= Others(w, cfg.self)
    && Strict(cfg.away, list)
    && |list| <= cfg.k
    && Elems(list) <= learned
  }

  /** Each of the `k` nearest contacts ever learned is still listed, unless an
      RPC to it failed. */
  ghost predicate Kept(cfg: Config, list: seq<Contact>, learned: set<Contact>, failed: set<Key>) {
    && Distinct(cfg.away, learned)
    && forall c :: c in Lowest(cfg.away, cfg.k, learned) ==> c in list || c.id in failed
  }

  /** Marks agree with the calls made: a contact is marked while its RPC is in
      flight and after it has answered, and no ID answers twice. */
  ghost predicate MarksOk(contacted: set<Key>, pending: map<Contact, Pc>, replies: map<Key, seq<Contact>>,
                          learned: set<Contact>, answers: nat) {
    && Balanced(contacted, PendingIds(pending, Querying), PendingIds(pending, Replied), replies.Keys)
    && replies.Keys <= Ids(learned)
    && pending.Keys <= learned
    && answers == |replies|
  }

  ghost predicate RepliesLearned(replies: map<Key, seq<Contact>>, learned: set<Contact>) {
    forall id, c :: id in replies && c in replies[id] ==> c in learned
  }

  ghost predicate Balanced(contacted: set<Key>, querying: set<Key>, handingOver: set<Key>, replied: set<Key>) {
    && contacted == replied + querying
    && replied !! querying
    && handingOver <= replied
  }

  ghost predicate OffersOk(hasPeers: set<Key>, offers: map<Key, seq<Peer>>, peers: Option<seq<Peer>>,
                           replied: set<Key>) {
    && hasPeers == offers.Keys <= replied
    && (peers.None? <==> offers == map[])
    && (peers.Some? ==> exists id :: id in offers && offers[id] == peers.value)
  }

  /** The contacts still to launch are in order, learned and unmarked. */
  ghost predicate RoundOk(cfg: Config, toLaunch: seq<Contact>, pending: map<Contact, Pc>,
                          contacted: set<Key>, learned: set<Contact>) {
    && Strict(cfg.away, toLaunch)
    && Elems(toLaunch) <= learned
    && |toLaunch| + |pending| <= cfg.k
    && forall c :: c in toLaunch ==> c.id !in contacted
  }

  ghost predicate PhaseOk(s: State) {
    && s.limit >= 1
    && (s.phase.Picking? || s.phase.Returned? || s.phase == Waiting(false) ==> s.toLaunch == [] && s.pending == map[])
    && (s.phase.Picking? || s.phase == Waiting(false) ==>
          s.peers.None? && s.list != [] && s.closest == s.list[0])
    && (s.phase == Waiting(false) ==> Unmarked(s.list, s.contacted) == [])
    && (s.phase.Returned? ==> ResultOk(s, s.phase.result))
  }

  ghost predicate ResultOk(s: State, r: Result) {
    match r
    case NotFound(cs) => cs == s.list && cs != [] && Unmarked(cs, s.contacted) == [] && s.peers.None?
    case Found(ps, cachedAt) => s.peers == Some(ps) && cachedAt == CacheTarget(s)
    case Unreachable => s.list == [] && s.peers.None?
    case NoCloseNodes => false
    case Panicked => false
  }

  ghost predicate Inv(cfg: Config, w: set<Contact>, s: State) {
    && ListOk(cfg, w, s.list, s.learned)
    && Kept(cfg, s.list, s.learned, s.failed)
    && MarksOk(s.contacted, s.pending, s.replies, s.learned, s.answers)
    && RepliesLearned(s.replies, s.learned)
    && OffersOk(s.hasPeers, s.offers, s.peers, s.replies.Keys)
    && RoundOk(cfg, s.toLaunch, s.pending, s.contacted, s.learned)
    && PhaseOk(s)
  }

  // ----- what inserts and removals do to the list

  /** An insert of `cs` keeps the list sorted and within `k`, and drops nothing
      that is among the `k` nearest learned. */
  lemma InsertFacts(f: Contact -> nat, k: nat, l: seq<Contact>, learned: set<Contact>, cs: seq<Contact>)
    requires Strict(f, l) && |l| <= k && Elems(l) <= learned
    requires Distinct(f, learned + Elems(cs))
    ensures var m := Take(k, InsertAll(f, l, cs));
            && Strict(f, m) && |m| <= k && Elems(m) <= Elems(l) + Elems(cs)
            && forall c :: c in Lowest(f, k, learned + Elems(cs)) ==>
                 c in m || (c in learned && c !in l && Distinct(f, learned) && c in Lowest(f, k, learned))
  {
    var m := Take(k, InsertAll(f, l, cs));
    var small, big := Elems(l) + Elems(cs), learned + Elems(cs);
    StrictIsLowest(f, k, l);
    assert small <= big && Distinct(f, small);
    LowestInsert(f, k, Elems(l), cs);
    LowestMeaning(f, k, small);
    assert Distinct(f, learned);
    forall c | c in Lowest(f, k, big) && c !in m
      ensures c in learned && c !in l && c in Lowest(f, k, learned)
    {
      LowestMeaning(f, k, big);
      assert c in Elems(Lowest(f, k, big));
      if c in small {
        LowestOfSubset(f, k, small, big, c);
      } else {
        LowestOfSubset(f, k, learned, big, c);
      }
    }
  }

  /** A sorted list within `k` is the `k` lowest of its own members. */
  lemma StrictIsLowest(f: Contact -> nat, k: nat, l: seq<Contact>)
    requires Strict(f, l) && |l| <= k
    ensures Distinct(f, Elems(l)) && Lowest(f, k, Elems(l)) == l
  {
    StrictIsDistinct(f, l);
    StrictUnique(f, l, Ordering(f, Elems(l)));
  }

  lemma UnmarkedFacts(f: Contact -> nat, l: seq<Contact>, marks: set<Key>, n: nat)
    requires Strict(f, l)
    ensures var r := Take(n, Unmarked(l, marks));
            Strict(f, r) && Elems(r) <= Elems(l) && |r| <= |l| && (forall c :: c in r ==> c.id !in marks)
  {
    var r := Take(n, Unmarked(l, marks));
    UnmarkedStrict(f, l, marks);
    TakeKeepsOrder(f, n, Unmarked(l, marks));
    forall c | c in r
      ensures c in l && c.id !in marks
    {
      assert c in Unmarked(l, marks);
    }
    StrictLength(f, r);
    StrictLength(f, l);
    SubsetSize(Elems(r), Elems(l));
  }

  // ----- every action keeps each part

  lemma ListInsert(cfg: Config, w: set<Contact>, list: seq<Contact>, learned: set<Contact>, failed: set<Key>,
                   cs: seq<Contact>)
    requires ListOk(cfg, w, list, learned) && Kept(cfg, list, learned, failed)
    requires Elems(cs) <= Others(w, cfg.self)
    ensures ListOk(cfg, w, Inserted(cfg, list, cs), learned + Elems(cs))
    ensures Kept(cfg, Inserted(cfg, list, cs), learned + Elems(cs), failed)
  {
    InsertFacts(cfg.away, cfg.k, list, learned, cs);
  }

  lemma ListReinsert(cfg: Config, w: set<Contact>, list: seq<Contact>, learned: set<Contact>, failed: set<Key>,
                     c: Contact)
    requires ListOk(cfg, w, list, learned) && Kept(cfg, list, learned, failed)
    requires c in learned
    ensures ListOk(cfg, w, Inserted(cfg, list, [c]), learned)
    ensures Kept(cfg, Inserted(cfg, list, [c]), learned, failed)
  {
    assert learned + Elems([c]) == learned;
    ListInsert(cfg, w, list, learned, failed, [c]);
  }

  lemma ListRemove(cfg: Config, w: set<Contact>, list: seq<Contact>, learned: set<Contact>, failed: set<Key>,
                   c: Contact)
    requires ListOk(cfg, w, list, learned) && Kept(cfg, list, learned, failed)
    ensures ListOk(cfg, w, RemoveOne(cfg.away, list, c), learned)
    ensures Kept(cfg, RemoveOne(cfg.away, list, c), learned, failed + {c.id})
    ensures c !in RemoveOne(cfg.away, list, c)
  {
    var m := RemoveOne(cfg.away, list, c);
    RemoveOneKeepsOrder(cfg.away, list, c);
    RemoveOneElems(cfg.away, list, c);
    assert c !in Elems(m);
    forall d | d in Lowest(cfg.away, cfg.k, learned)
      ensures d in m || d.id in failed + {c.id}
    {
      if d in list && d != c {
        assert d in Elems(m);
      }
    }
  }

  lemma PendingIdsLaunch(pending: map<Contact, Pc>, c: Contact)
    requires c !in pending
    ensures PendingIds(pending[c := Querying], Querying) == PendingIds(pending, Querying) + {c.id}
    ensures PendingIds(pending[c := Querying], Replied) == PendingIds(pending, Replied)
    ensures pending[c := Querying].Keys == pending.Keys + {c}
  {
    var after := pending[c := Querying];
    assert forall d :: d in after <==> d in pending || d == c;
    assert forall d :: d in pending ==> after[d] == pending[d];
  }

  /** A contact in flight has an ID of its own. */
  lemma PendingAlone(pending: map<Contact, Pc>, learned: set<Contact>, c: Contact)
    requires OneAddress(pending.Keys) && pending.Keys <= learned && c in pending
    ensures c in learned && c.id in PendingIds(pending, pending[c])
    ensures forall d :: d in pending && d.id == c.id ==> d == c
  {
    assert c in pending.Keys;
    forall d | d in pending && d.id == c.id
      ensures d == c
    {
      assert d in pending.Keys;
    }
  }

  lemma PendingApart(pending: map<Contact, Pc>, learned: set<Contact>)
    requires OneAddress(learned) || OneAddress(pending.Keys)
    ensures pending.Keys <= learned ==> OneAddress(pending.Keys)
  {
  }

  lemma PendingIdsAnswer(pending: map<Contact, Pc>, c: Contact)
    requires c in pending && pending[c].Querying?
    requires forall d :: d in pending && d.id == c.id ==> d == c
    ensures PendingIds(pending[c := Replied], Querying) == PendingIds(pending, Querying) - {c.id}
    ensures PendingIds(pending[c := Replied], Replied) == PendingIds(pending, Replied) + {c.id}
    ensures pending[c := Replied].Keys == pending.Keys
  {
    var after := pending[c := Replied];
    assert forall d :: d in after <==> d in pending;
    assert forall d :: d in pending && d != c ==> after[d] == pending[d];
  }

  lemma PendingIdsDrop(pending: map<Contact, Pc>, c: Contact)
    requires c in pending
    requires forall d :: d in pending && d.id == c.id ==> d == c
    ensures PendingIds(pending - {c}, pending[c]) == PendingIds(pending, pending[c]) - {c.id}
    ensures forall pc :: pc != pending[c] ==> PendingIds(pending - {c}, pc) == PendingIds(pending, pc)
    ensures (pending - {c}).Keys <= pending.Keys
  {
  }

  lemma BalancedSteps(contacted: set<Key>, querying: set<Key>, handingOver: set<Key>, replied: set<Key>, id: Key)
    requires Balanced(contacted, querying, handingOver, replied)
    ensures id !in contacted ==> Balanced(contacted + {id}, querying + {id}, handingOver, replied)
    ensures id in querying ==>
              && id in contacted && id !in replied
              && Balanced(contacted, querying - {id}, handingOver + {id}, replied + {id})
              && Balanced(contacted - {id}, querying - {id}, handingOver, replied)
    ensures Balanced(contacted, querying, handingOver - {id}, replied)
  {
  }

  lemma MarksLaunch(contacted: set<Key>, pending: map<Contact, Pc>, replies: map<Key, seq<Contact>>,
                    learned: set<Contact>, answers: nat, c: Contact)
    requires MarksOk(contacted, pending, replies, learned, answers)
    requires c in learned && c.id !in contacted && c !in pending
    ensures MarksOk(contacted + {c.id}, pending[c := Querying], replies, learned, answers)
  {
    hide PendingIds, Ids, Balanced;
    BalancedSteps(contacted, PendingIds(pending, Querying), PendingIds(pending, Replied), replies.Keys, c.id);
    PendingIdsLaunch(pending, c);
  }

  lemma MarksAnswer(contacted: set<Key>, pending: map<Contact, Pc>, replies: map<Key, seq<Contact>>,
                    learned: set<Contact>, answers: nat, c: Contact, cs: seq<Contact>, more: set<Contact>)
    requires MarksOk(contacted, pending, replies, learned, answers)
    requires OneAddress(learned) || OneAddress(pending.Keys)
    requires c in pending && pending[c].Querying?
    ensures c.id !in replies
    ensures MarksOk(contacted, pending[c := Replied], replies[c.id := cs], learned + more, answers + 1)
  {
    hide PendingIds, OneAddress, Ids, Balanced;
    PendingApart(pending, learned);
    BalancedSteps(contacted, PendingIds(pending, Querying), PendingIds(pending, Replied), replies.Keys, c.id);
    PendingAlone(pending, learned, c);
    PendingIdsAnswer(pending, c);
    OneReplyMore(replies, c.id, cs);
    IdsGrow(learned, more, c);
  }

  lemma OneReplyMore(replies: map<Key, seq<Contact>>, id: Key, cs: seq<Contact>)
    requires id !in replies
    ensures replies[id := cs].Keys == replies.Keys + {id} && |replies[id := cs]| == |replies| + 1
  {
    assert |replies[id := cs]| == |replies[id := cs].Keys| && |replies| == |replies.Keys|;
  }

  lemma RepliesGrow(replies: map<Key, seq<Contact>>, learned: set<Contact>, id: Key, cs: seq<Contact>)
    requires RepliesLearned(replies, learned)
    ensures RepliesLearned(replies[id := cs], learned + Elems(cs))
    ensures RepliesLearned(replies[id := []], learned)
  {
  }

  lemma IdsGrow(s: set<Contact>, more: set<Contact>, c: Contact)
    ensures Ids(s) <= Ids(s + more)
    ensures c in s ==> c.id in Ids(s)
  {
  }

  lemma MarksFail(contacted: set<Key>, pending: map<Contact, Pc>, replies: map<Key, seq<Contact>>,
                  learned: set<Contact>, answers: nat, c: Contact)
    requires MarksOk(contacted, pending, replies, learned, answers)
    requires OneAddress(learned) || OneAddress(pending.Keys)
    requires c in pending && pending[c].Querying?
    ensures MarksOk(contacted - {c.id}, pending - {c}, replies, learned, answers)
  {
    hide PendingIds, OneAddress, Ids, Balanced;
    PendingApart(pending, learned);
    BalancedSteps(contacted, PendingIds(pending, Querying), PendingIds(pending, Replied), replies.Keys, c.id);
    PendingAlone(pending, learned, c);
    PendingIdsDrop(pending, c);
  }

  lemma MarksDone(contacted: set<Key>, pending: map<Contact, Pc>, replies: map<Key, seq<Contact>>,
                  learned: set<Contact>, answers: nat, c: Contact)
    requires MarksOk(contacted, pending, replies, learned, answers)
    requires OneAddress(learned) || OneAddress(pending.Keys)
    requires c in pending && pending[c].Replied?
    ensures MarksOk(contacted, pending - {c}, replies, learned, answers)
  {
    hide PendingIds, OneAddress, Ids, Balanced;
    PendingApart(pending, learned);
    BalancedSteps(contacted, PendingIds(pending, Querying), PendingIds(pending, Replied), replies.Keys, c.id);
    PendingAlone(pending, learned, c);
    PendingIdsDrop(pending, c);
  }

  lemma OffersAdd(hasPeers: set<Key>, offers: map<Key, seq<Peer>>, peers: Option<seq<Peer>>,
                  replied: set<Key>, id: Key, ps: seq<Peer>)
    requires OffersOk(hasPeers, offers, peers, replied)
    ensures OffersOk(hasPeers + {id}, offers[id := ps], Some(ps), replied + {id})
  {
    assert id in offers[id := ps];
  }

  lemma RoundLaunch(cfg: Config, w: set<Contact>, toLaunch: seq<Contact>, pending: map<Contact, Pc>,
                    contacted: set<Key>, learned: set<Contact>)
    requires RoundOk(cfg, toLaunch, pending, contacted, learned)
    requires toLaunch != [] && toLaunch[0] !in pending
    requires World(cfg, w) && learned <= w
    ensures toLaunch[0] in learned && toLaunch[0].id !in contacted
    ensures RoundOk(cfg, toLaunch[1..], pending[toLaunch[0] := Querying], contacted + {toLaunch[0].id}, learned)
  {
    var c, rest := toLaunch[0], toLaunch[1..];
    assert toLaunch == [c] + rest;
    assert c in Elems(toLaunch);
    assert Strict(cfg.away, rest) by {
      SplitOrder(cfg.away, toLaunch, 1);
    }
    forall d | d in rest
      ensures d.id !in contacted + {c.id}
    {
      assert d in Elems(toLaunch);
      assert cfg.away(c) < cfg.away(d);
    }
    assert |pending[c := Querying]| == |pending| + 1;
  }

  lemma RoundShrink(cfg: Config, toLaunch: seq<Contact>, pending: map<Contact, Pc>, after: map<Contact, Pc>,
                    contacted: set<Key>, less: set<Key>, learned: set<Contact>, more: set<Contact>)
    requires RoundOk(cfg, toLaunch, pending, contacted, learned)
    requires after.Keys <= pending.Keys && less <= contacted
    ensures RoundOk(cfg, toLaunch, after, less, learned)
    ensures RoundOk(cfg, toLaunch, after, less, learned + more)
  {
    SubsetSize(after.Keys, pending.Keys);
    assert |after| == |after.Keys| && |pending| == |pending.Keys|;
  }

  // ----- every action keeps the invariant

  lemma StartInv(cfg: Config, w: set<Contact>, table: set<Contact>)
    requires ValidConfig(cfg) && World(cfg, w) && table <= w
    ensures World(cfg, table)
    ensures Seed(cfg, table) != [] ==> Inv(cfg, w, Start(cfg, Seed(cfg, table)))
  {
    hide Kept, ListOk, MarksOk, Seed, Unmarked, ResultOk, Inserted, World, Others;
    SubWorld(cfg, w, table);
    var seed := Seed(cfg, table);
    if seed != [] {
      SeedFacts(cfg, w, table);
      SeedList(cfg, w, seed);
      SeedListNonempty(cfg, seed);
      SeedMarks(Elems(seed));
    }
  }

  lemma SubWorld(cfg: Config, w: set<Contact>, table: set<Contact>)
    requires World(cfg, w) && table <= w
    ensures World(cfg, table)
  {
  }

  lemma SeedList(cfg: Config, w: set<Contact>, seed: seq<Contact>)
    requires World(cfg, w) && Elems(seed) <= Others(w, cfg.self)
    ensures ListOk(cfg, w, Inserted(cfg, [], seed), Elems(seed))
    ensures Kept(cfg, Inserted(cfg, [], seed), Elems(seed), {})
  {
    assert Ordering(cfg.away, {}) == [];
    ListInsert(cfg, w, [], {}, {}, seed);
    assert {} + Elems(seed) == Elems(seed);
  }

  lemma SeedMarks(learned: set<Contact>)
    ensures MarksOk({}, map[], map[], learned, 0)
  {
    assert PendingIds(map[], Querying) == {};
  }

  lemma SeedFacts(cfg: Config, w: set<Contact>, table: set<Contact>)
    requires World(cfg, w) && table <= w && World(cfg, table)
    ensures Elems(Seed(cfg, table)) <= Others(w, cfg.self)
  {
    var others := Others(table, cfg.self);
    LowestMeaning(cfg.away, cfg.k, others);
    forall c | c in Seed(cfg, table)
      ensures c in others
    {
      assert c in Elems(Lowest(cfg.away, cfg.k, others));
    }
  }

  lemma PickInv(cfg: Config, w: set<Contact>, s: State)
    requires ValidConfig(cfg) && Inv(cfg, w, s) && Enabled(cfg, w, s, Pick)
    ensures Inv(cfg, w, Apply(cfg, w, s, Pick))
  {
    hide Kept, MarksOk, RepliesLearned, OffersOk;
    UnmarkedFacts(cfg.away, s.list, s.contacted, s.limit);
    assert |s.pending| == 0;
  }

  lemma LaunchInv(cfg: Config, w: set<Contact>, s: State)
    requires ValidConfig(cfg) && Inv(cfg, w, s) && Enabled(cfg, w, s, Launch)
    ensures Inv(cfg, w, Apply(cfg, w, s, Launch))
  {
    var c := s.toLaunch[0];
    assert c in s.learned && c.id !in s.contacted && s.learned <= w by {
      hide Kept, MarksOk, RepliesLearned, OffersOk;
      assert c in Elems(s.toLaunch);
    }
    if c in s.pending {
      PendingLearned(cfg, w, s, c);
    }
    hide Kept, MarksOk, RepliesLearned, OffersOk, RoundOk, ListOk;
    assert World(cfg, w) by {
      ListWorld(cfg, w, s.list, s.learned);
    }
    MarksLaunch(s.contacted, s.pending, s.replies, s.learned, s.answers, c);
    RoundLaunch(cfg, w, s.toLaunch, s.pending, s.contacted, s.learned);
  }

  lemma ListWorld(cfg: Config, w: set<Contact>, list: seq<Contact>, learned: set<Contact>)
    requires ListOk(cfg, w, list, learned)
    ensures World(cfg, w) && OneAddress(learned) && learned <= w
  {
  }

  lemma ReplyInv(cfg: Config, w: set<Contact>, s: State, c: Contact, cs: seq<Contact>)
    requires ValidConfig(cfg) && Inv(cfg, w, s) && Enabled(cfg, w, s, Reply(c, cs))
    ensures Inv(cfg, w, Apply(cfg, w, s, Reply(c, cs)))
    ensures c.id !in s.replies
  {
    hide Kept, MarksOk, RepliesLearned, RoundOk, ListOk, Elems, Unmarked, ResultOk, CacheTarget, LegalReply, World;
    ListWorld(cfg, w, s.list, s.learned);
    LegalReplyFacts(cfg, w, cs);
    ListInsert(cfg, w, s.list, s.learned, s.failed, cs);
    MarksAnswer(s.contacted, s.pending, s.replies, s.learned, s.answers, c, cs, Elems(cs));
    RepliesGrow(s.replies, s.learned, c.id, cs);
    RoundShrink(cfg, s.toLaunch, s.pending, s.pending[c := Replied], s.contacted, s.contacted, s.learned, Elems(cs));
  }

  lemma OfferInv(cfg: Config, w: set<Contact>, s: State, c: Contact, ps: seq<Peer>)
    requires ValidConfig(cfg) && Inv(cfg, w, s) && Enabled(cfg, w, s, Offer(c, ps))
    ensures Inv(cfg, w, Apply(cfg, w, s, Offer(c, ps)))
    ensures c.id !in s.replies
  {
    hide Kept, MarksOk, RepliesLearned, OffersOk, RoundOk, ListOk;
    ListWorld(cfg, w, s.list, s.learned);
    MarksAnswer(s.contacted, s.pending, s.replies, s.learned, s.answers, c, [], {});
    RepliesGrow(s.replies, s.learned, c.id, []);
    assert s.learned + {} == s.learned;
    OffersAdd(s.hasPeers, s.offers, s.peers, s.replies.Keys, c.id, ps);
    assert s.replies[c.id := []].Keys == s.replies.Keys + {c.id};
    RoundShrink(cfg, s.toLaunch, s.pending, s.pending[c := Replied], s.contacted, s.contacted, s.learned, {});
  }

  lemma FailInv(cfg: Config, w: set<Contact>, s: State, c: Contact)
    requires ValidConfig(cfg) && Inv(cfg, w, s) && Enabled(cfg, w, s, Fail(c))
    ensures Inv(cfg, w, Apply(cfg, w, s, Fail(c)))
  {
    hide Kept, MarksOk, RepliesLearned, OffersOk, RoundOk, ListOk;
    ListWorld(cfg, w, s.list, s.learned);
    ListRemove(cfg, w, s.list, s.learned, s.failed, c);
    MarksFail(s.contacted, s.pending, s.replies, s.learned, s.answers, c);
    RoundShrink(cfg, s.toLaunch, s.pending, s.pending - {c}, s.contacted, s.contacted - {c.id}, s.learned, {});
  }

  lemma FinishInv(cfg: Config, w: set<Contact>, s: State, c: Contact)
    requires ValidConfig(cfg) && Inv(cfg, w, s) && Enabled(cfg, w, s, Finish(c))
    ensures Inv(cfg, w, Apply(cfg, w, s, Finish(c)))
  {
    hide Kept, MarksOk, RepliesLearned, OffersOk, RoundOk, ListOk;
    ListWorld(cfg, w, s.list, s.learned);
    MarksDone(s.contacted, s.pending, s.replies, s.learned, s.answers, c);
    RoundShrink(cfg, s.toLaunch, s.pending, s.pending - {c}, s.contacted, s.contacted, s.learned, {});
  }

  lemma ReinsertInv(cfg: Config, w: set<Contact>, s: State, c: Contact)
    requires ValidConfig(cfg) && Inv(cfg, w, s) && Enabled(cfg, w, s, Reinsert(c))
    ensures Inv(cfg, w, Apply(cfg, w, s, Reinsert(c)))
  {
    hide Kept, MarksOk, RepliesLearned, OffersOk, RoundOk, ListOk, Unmarked, ResultOk, CacheTarget, Inserted,
         LegalReply, Others;
    PendingLearned(cfg, w, s, c);
    ListWorld(cfg, w, s.list, s.learned);
    ListReinsert(cfg, w, s.list, s.learned, s.failed, c);
    MarksDone(s.contacted, s.pending, s.replies, s.learned, s.answers, c);
    RoundShrink(cfg, s.toLaunch, s.pending, s.pending - {c}, s.contacted, s.contacted, s.learned, {});
  }

  lemma PendingLearned(cfg: Config, w: set<Contact>, s: State, c: Contact)
    requires Inv(cfg, w, s) && c in s.pending
    ensures c in s.learned && c in Others(w, cfg.self) && c.id in s.contacted
  {
    hide Kept, OffersOk, RoundOk, PhaseOk;
    assert c in s.pending.Keys;
    assert c.id in PendingIds(s.pending, s.pending[c]);
  }

  lemma ConcludeInv(cfg: Config, w: set<Contact>, s: State)
    requires ValidConfig(cfg) && Inv(cfg, w, s) && Enabled(cfg, w, s, Conclude)
    ensures Inv(cfg, w, Apply(cfg, w, s, Conclude))
  {
    hide Kept, MarksOk, RepliesLearned, OffersOk, RoundOk, ListOk, Unmarked, LegalReply, CacheTarget, Inv, PhaseOk;
    ConcludePhaseOk(cfg, w, s);
    SameButPhase(cfg, w, s, Apply(cfg, w, s, Conclude));
  }

  lemma ConcludePhaseOk(cfg: Config, w: set<Contact>, s: State)
    requires ValidConfig(cfg) && Inv(cfg, w, s) && Enabled(cfg, w, s, Conclude)
    ensures PhaseOk(Apply(cfg, w, s, Conclude))
  {
    hide Kept, MarksOk, RepliesLearned, OffersOk, RoundOk, ListOk, Unmarked, LegalReply;
    assert PhaseOk(s);
    hide Inv;
  }

  lemma SameButPhase(cfg: Config, w: set<Contact>, s: State, t: State)
    requires Inv(cfg, w, s) && PhaseOk(t)
    requires t == s.(phase := t.phase, limit := t.limit, closest := t.closest)
    ensures Inv(cfg, w, t)
  {
    hide Kept, MarksOk, RepliesLearned, OffersOk, RoundOk, ListOk, PhaseOk;
  }

  /** What every step of the protocol keeps. */
  lemma StepInv(cfg: Config, w: set<Contact>, s: State, a: Action)
    requires ValidConfig(cfg) && Inv(cfg, w, s) && Enabled(cfg, w, s, a)
    ensures Inv(cfg, w, Apply(cfg, w, s, a))
  {
    hide Inv, Apply, Enabled;
    match a
    case Pick => PickInv(cfg, w, s);
    case Launch => LaunchInv(cfg, w, s);
    case Reply(c, cs) => ReplyInv(cfg, w, s, c, cs);
    case Offer(c, ps) => OfferInv(cfg, w, s, c, ps);
    case Fail(c) => FailInv(cfg, w, s, c);
    case Finish(c) => FinishInv(cfg, w, s, c);
    case Reinsert(c) => ReinsertInv(cfg, w, s, c);
    case Conclude => ConcludeInv(cfg, w, s);
  }

  // ----- runs

  ghost predicate Run(cfg: Config, w: set<Contact>, s: State, acts: seq<Action>)
    decreases |acts|
  {
    acts == [] || (Enabled(cfg, w, s, acts[0]) && Run(cfg, w, Apply(cfg, w, s, acts[0]), acts[1..]))
  }

  ghost function After(cfg: Config, w: set<Contact>, s: State, acts: seq<Action>): State
    requires Run(cfg, w, s, acts)
    decreases |acts|
  {
    if acts == [] then s else After(cfg, w, Apply(cfg, w, s, acts[0]), acts[1..])
  }

  lemma {:induction false} RunInv(cfg: Config, w: set<Contact>, s: State, acts: seq<Action>)
    requires ValidConfig(cfg) && Inv(cfg, w, s) && Run(cfg, w, s, acts)
    ensures Inv(cfg, w, After(cfg, w, s, acts))
    decreases |acts|
  {
    hide Inv, Enabled, Apply;
    if acts != [] {
      StepInv(cfg, w, s, acts[0]);
      RunInv(cfg, w, Apply(cfg, w, s, acts[0]), acts[1..]);
    }
  }

  // ----- termination

  /** Listed contacts that no RPC was or is about to be sent to. */
  function Fresh(list: seq<Contact>, contacted: set<Key>, toLaunch: seq<Contact>): set<Contact> {
    set c | c in list && c.id !in contacted && c !in toLaunch
  }

  function QueryingSet(pending: map<Contact, Pc>): set<Contact> {
    set c | c in pending && pending[c].Querying?
  }

  /** What is left of the current round. */
  function RoundRank(s: State): nat {
    match s.phase
    case Picking => 2
    case Waiting(false) => 1
    case Waiting(true) => 3 + 3 * |s.toLaunch| + |s.pending| + |QueryingSet(s.pending)|
    case Returned(_) => 0
  }

  /** IDs of the world that have not answered. */
  function Silent(w: set<Contact>, s: State): int {
    |Ids(w)| - |s.replies|
  }

  /** More than any round has left to do: three actions a launch, and the frame. */
  function RoundBound(k: nat): nat {
    3 * k + 4
  }

  /** A lexicographic triple with `b <= k` and `i < m`, as one number. */
  function Weigh(k: nat, m: nat, a: int, b: int, i: int): int {
    (a * (k + 1) + b) * m + i
  }

  function Rank(cfg: Config, w: set<Contact>, s: State): int {
    Weigh(cfg.k, RoundBound(cfg.k),
          Silent(w, s), |Fresh(s.list, s.contacted, s.toLaunch)|, RoundRank(s))
  }

  lemma RankBounds(cfg: Config, w: set<Contact>, s: State)
    requires Inv(cfg, w, s)
    ensures 0 <= Silent(w, s) <= |Ids(w)|
    ensures |Fresh(s.list, s.contacted, s.toLaunch)| <= cfg.k
    ensures RoundRank(s) < RoundBound(cfg.k)
  {
    hide Kept, OffersOk, PhaseOk;
    SilentBounds(w, s.replies, s.learned);
    FreshBound(cfg, s.list, s.contacted, s.toLaunch);
    SubsetSize(QueryingSet(s.pending), s.pending.Keys);
    assert |s.pending| == |s.pending.Keys|;
  }

  lemma SilentBounds(w: set<Contact>, replies: map<Key, seq<Contact>>, learned: set<Contact>)
    requires replies.Keys <= Ids(learned) && learned <= w
    ensures |replies| <= |Ids(w)|
  {
    assert |replies| == |replies.Keys|;
    assert Ids(learned) <= Ids(w);
    SubsetSize(replies.Keys, Ids(w));
  }

  lemma FreshBound(cfg: Config, list: seq<Contact>, contacted: set<Key>, toLaunch: seq<Contact>)
    requires Strict(cfg.away, list)
    ensures |Fresh(list, contacted, toLaunch)| <= |list|
  {
    SubsetSize(Fresh(list, contacted, toLaunch), Elems(list));
    StrictLength(cfg.away, list);
  }

  /** The rank is lexicographic: silent IDs, then fresh contacts, then the rest
      of the round. */
  lemma WeighDown(k: nat, m: nat, a: int, b: int, i: int, a': int, b': int, i': int)
    requires 0 <= b' <= k && 0 <= i' < m && 0 <= b && 0 <= i
    requires a' < a || (a' == a && (b' < b || (b' <= b && i' < i)))
    ensures Weigh(k, m, a', b', i') < Weigh(k, m, a, b, i)
  {
    if a' < a {
      MulGap(a', a, k + 1);
      MulGap(a' * (k + 1) + b', a * (k + 1) + b, m);
    } else if b' < b {
      MulGap(a' * (k + 1) + b', a * (k + 1) + b, m);
    }
  }

  /** Actions a lookup among `n` contacts can take. */
  function LookupBound(n: nat, k: nat): nat {
    (n + 1) * (k + 1) * RoundBound(k)
  }

  lemma WeighBounds(k: nat, a: nat, b: nat, i: nat, n: nat)
    requires b <= k && i < RoundBound(k) && a <= n
    ensures 0 <= Weigh(k, RoundBound(k), a, b, i) <= LookupBound(n, k)
  {
    hide RoundBound;
    var m := RoundBound(k);
    MulMono(a, n, k + 1);
    assert (n + 1) * (k + 1) == n * (k + 1) + k + 1;
    MulMono(0, a * (k + 1) + b, m);
    MulGap(a * (k + 1) + b, (n + 1) * (k + 1), m);
  }

  lemma MulGap(x: int, y: int, m: nat)
    requires x < y
    ensures x * m + m <= y * m
  {
    MulMono(x + 1, y, m);
    assert (x + 1) * m == x * m + m;
  }

  lemma FreshPick(list: seq<Contact>, contacted: set<Key>, limit: nat)
    requires limit >= 1
    ensures var r := Take(limit, Unmarked(list, contacted));
            && Fresh(list, contacted, r) <= Fresh(list, contacted, [])
            && (r != [] ==> |Fresh(list, contacted, r)| < |Fresh(list, contacted, [])|)
            && (r == [] <==> Unmarked(list, contacted) == [])
  {
    var r := Take(limit, Unmarked(list, contacted));
    if r != [] {
      assert r[0] in Unmarked(list, contacted);
      SubsetSize(Fresh(list, contacted, r), Fresh(list, contacted, []) - {r[0]});
    }
  }

  lemma FreshLaunch(list: seq<Contact>, contacted: set<Key>, toLaunch: seq<Contact>)
    requires toLaunch != [] && OneAddress(Elems(list) + Elems(toLaunch))
    ensures Fresh(list, contacted + {toLaunch[0].id}, toLaunch[1..]) == Fresh(list, contacted, toLaunch)
  {
    var c := toLaunch[0];
    assert toLaunch == [c] + toLaunch[1..];
    assert c in Elems(toLaunch);
    assert forall d :: d in list && d.id == c.id ==> d in Elems(list) && d == c;
  }

  lemma FreshFewer(list: seq<Contact>, contacted: set<Key>, toLaunch: seq<Contact>,
                   list': seq<Contact>, contacted': set<Key>)
    requires forall d :: d in list' && d.id !in contacted' ==> d in list && d.id !in contacted
    ensures |Fresh(list', contacted', toLaunch)| <= |Fresh(list, contacted, toLaunch)|
  {
    SubsetSize(Fresh(list', contacted', toLaunch), Fresh(list, contacted, toLaunch));
  }

  lemma QueryingSetSteps(pending: map<Contact, Pc>, c: Contact)
    ensures c !in pending ==> QueryingSet(pending[c := Querying]) == QueryingSet(pending) + {c}
                              && c !in QueryingSet(pending)
                              && |pending[c := Querying]| == |pending| + 1
    ensures c in pending ==> QueryingSet(pending - {c}) == QueryingSet(pending) - {c}
                             && |pending - {c}| == |pending| - 1
  {
    if c in pending {
      assert (pending - {c}).Keys == pending.Keys - {c};
      assert |pending - {c}| == |(pending - {c}).Keys| && |pending| == |pending.Keys|;
    }
  }

  ghost predicate LexDown(w: set<Contact>, s: State, s': State) {
    var b, b' := |Fresh(s.list, s.contacted, s.toLaunch)|, |Fresh(s'.list, s'.contacted, s'.toLaunch)|;
    || Silent(w, s') < Silent(w, s)
    || (Silent(w, s') == Silent(w, s) && (b' < b || (b' <= b && RoundRank(s') < RoundRank(s))))
  }

  lemma PickDown(cfg: Config, w: set<Contact>, s: State)
    requires Inv(cfg, w, s) && Enabled(cfg, w, s, Pick)
    ensures LexDown(w, s, Apply(cfg, w, s, Pick))
  {
    hide Kept, MarksOk, OffersOk, RoundOk, ListOk, Unmarked, Fresh;
    FreshPick(s.list, s.contacted, s.limit);
  }

  lemma LaunchDown(cfg: Config, w: set<Contact>, s: State)
    requires ValidConfig(cfg) && Inv(cfg, w, s) && Enabled(cfg, w, s, Launch)
    ensures LexDown(w, s, Apply(cfg, w, s, Launch))
  {
    hide Kept, MarksOk, OffersOk, RoundOk, ListOk, Unmarked, Fresh, QueryingSet, OneAddress, Elems;
    var c := s.toLaunch[0];
    LaunchFacts(cfg, w, s);
    FreshLaunch(s.list, s.contacted, s.toLaunch);
    QueryingSetSteps(s.pending, c);
  }

  lemma LaunchFacts(cfg: Config, w: set<Contact>, s: State)
    requires Inv(cfg, w, s) && s.toLaunch != []
    ensures OneAddress(Elems(s.list) + Elems(s.toLaunch)) && s.toLaunch[0] !in s.pending
  {
    hide Kept, MarksOk, OffersOk, PhaseOk;
    assert Elems(s.list) + Elems(s.toLaunch) <= w;
    if s.toLaunch[0] in s.pending {
      PendingLearned(cfg, w, s, s.toLaunch[0]);
    }
  }

  lemma AnswerDown(cfg: Config, w: set<Contact>, s: State, a: Action)
    requires ValidConfig(cfg) && Inv(cfg, w, s) && Enabled(cfg, w, s, a) && (a.Reply? || a.Offer?)
    ensures LexDown(w, s, Apply(cfg, w, s, a))
  {
    hide Kept, MarksOk, OffersOk, RoundOk, ListOk, PhaseOk, LegalReply;
    if a.Reply? {
      ReplyInv(cfg, w, s, a.c, a.cs);
    } else {
      OfferInv(cfg, w, s, a.c, a.ps);
    }
  }

  lemma FailDown(cfg: Config, w: set<Contact>, s: State, c: Contact)
    requires ValidConfig(cfg) && Inv(cfg, w, s) && Enabled(cfg, w, s, Fail(c))
    ensures LexDown(w, s, Apply(cfg, w, s, Fail(c)))
  {
    hide Kept, MarksOk, OffersOk, RoundOk, Fresh, QueryingSet, RemoveOne, Position;
    PendingLearned(cfg, w, s, c);
    ListRemove(cfg, w, s.list, s.learned, s.failed, c);
    RemoveOneElems(cfg.away, s.list, c);
    var s' := Apply(cfg, w, s, Fail(c));
    forall d | d in s'.list && d.id !in s'.contacted
      ensures d in s.list && d.id !in s.contacted
    {
      assert d in Elems(s'.list) && d in Elems(s.list);
      assert d in w && c in w;
    }
    FreshFewer(s.list, s.contacted, s.toLaunch, s'.list, s'.contacted);
    QueryingSetSteps(s.pending, c);
  }

  lemma HandOverDown(cfg: Config, w: set<Contact>, s: State, c: Contact, list: seq<Contact>)
    requires Inv(cfg, w, s) && c in s.pending && s.pending[c].Replied?
    requires forall d :: d in list ==> d in s.list || d == c
    ensures LexDown(w, s, s.(list := list, pending := s.pending - {c}))
  {
    hide Kept, MarksOk, OffersOk, RoundOk, Fresh, Others, ListOk;
    PendingLearned(cfg, w, s, c);
    FreshFewer(s.list, s.contacted, s.toLaunch, list, s.contacted);
    QueryingSetSteps(s.pending, c);
    assert c !in QueryingSet(s.pending);
    hide QueryingSet;
  }

  lemma InsertedElems(cfg: Config, l: seq<Contact>, c: Contact)
    ensures forall d :: d in Inserted(cfg, l, [c]) ==> d in l || d == c
  {
    var all := InsertAll(cfg.away, l, [c]);
    InsertAllProperties(cfg.away, l, [c]);
    forall d | d in Inserted(cfg, l, [c])
      ensures d in l || d == c
    {
      assert d in Elems(all);
    }
  }

  lemma FinishDown(cfg: Config, w: set<Contact>, s: State, c: Contact)
    requires Inv(cfg, w, s) && Enabled(cfg, w, s, Finish(c))
    ensures LexDown(w, s, Apply(cfg, w, s, Finish(c)))
  {
    hide Inv, LexDown;
    HandOverDown(cfg, w, s, c, s.list);
    assert s.(list := s.list, pending := s.pending - {c}) == Apply(cfg, w, s, Finish(c));
  }

  lemma ReinsertDown(cfg: Config, w: set<Contact>, s: State, c: Contact)
    requires Inv(cfg, w, s) && Enabled(cfg, w, s, Reinsert(c))
    ensures LexDown(w, s, Apply(cfg, w, s, Reinsert(c)))
  {
    hide Inv, LexDown, Inserted;
    InsertedElems(cfg, s.list, c);
    HandOverDown(cfg, w, s, c, Inserted(cfg, s.list, [c]));
  }

  lemma ConcludeDown(cfg: Config, w: set<Contact>, s: State)
    requires ValidConfig(cfg) && Inv(cfg, w, s) && Enabled(cfg, w, s, Conclude)
    ensures LexDown(w, s, Apply(cfg, w, s, Conclude))
  {
    hide Kept, MarksOk, OffersOk, RoundOk, ListOk, Unmarked, Fresh, QueryingSet;
  }

  lemma StepRank(cfg: Config, w: set<Contact>, s: State, a: Action)
    requires ValidConfig(cfg) && Inv(cfg, w, s) && Enabled(cfg, w, s, a)
    ensures Rank(cfg, w, Apply(cfg, w, s, a)) < Rank(cfg, w, s)
  {
    var s' := Apply(cfg, w, s, a);
    StepDown(cfg, w, s, a);
    StepInv(cfg, w, s, a);
    RankBounds(cfg, w, s);
    RankBounds(cfg, w, s');
    hide Inv, Apply, Enabled, RoundRank, Fresh, Silent, RoundBound, Weigh;
    WeighDown(cfg.k, RoundBound(cfg.k),
      Silent(w, s), |Fresh(s.list, s.contacted, s.toLaunch)|, RoundRank(s),
      Silent(w, s'), |Fresh(s'.list, s'.contacted, s'.toLaunch)|, RoundRank(s'));
  }

  lemma StepDown(cfg: Config, w: set<Contact>, s: State, a: Action)
    requires ValidConfig(cfg) && Inv(cfg, w, s) && Enabled(cfg, w, s, a)
    ensures LexDown(w, s, Apply(cfg, w, s, a))
  {
    hide Inv, Apply, Enabled, LexDown;
    match a
    case Pick => PickDown(cfg, w, s);
    case Launch => LaunchDown(cfg, w, s);
    case Reply(c, cs) => AnswerDown(cfg, w, s, a);
    case Offer(c, ps) => AnswerDown(cfg, w, s, a);
    case Fail(c) => FailDown(cfg, w, s, c);
    case Finish(c) => FinishDown(cfg, w, s, c);
    case Reinsert(c) => ReinsertDown(cfg, w, s, c);
    case Conclude => ConcludeDown(cfg, w, s);
  }

  lemma RankLimit(cfg: Config, w: set<Contact>, s: State)
    requires Inv(cfg, w, s)
    ensures 0 <= Rank(cfg, w, s) <= LookupBound(|w|, cfg.k)
  {
    hide Fresh, RoundRank, Silent, Weigh, RoundBound, LookupBound;
    RankBounds(cfg, w, s);
    IdsSize(w);
    hide Inv;
    WeighBounds(cfg.k, Silent(w, s), |Fresh(s.list, s.contacted, s.toLaunch)|, RoundRank(s), |w|);
  }

  lemma {:induction false} RunRank(cfg: Config, w: set<Contact>, s: State, acts: seq<Action>)
    requires ValidConfig(cfg) && Inv(cfg, w, s) && Run(cfg, w, s, acts)
    ensures |acts| <= Rank(cfg, w, s)
    decreases |acts|
  {
    if acts == [] {
      RankLimit(cfg, w, s);
    } else {
      hide Inv, Enabled, Apply, Rank;
      StepInv(cfg, w, s, acts[0]);
      StepRank(cfg, w, s, acts[0]);
      RunRank(cfg, w, Apply(cfg, w, s, acts[0]), acts[1..]);
    }
  }

  /** Every lookup ends: whatever the replies, the failures and the
      interleaving, it takes no more actions than this bound. */
  lemma LookupTerminates(cfg: Config, w: set<Contact>, table: set<Contact>, acts: seq<Action>)
    requires ValidConfig(cfg) && World(cfg, w) && table <= w && World(cfg, table)
    requires Seed(cfg, table) != [] && Run(cfg, w, Start(cfg, Seed(cfg, table)), acts)
    ensures |acts| <= LookupBound(|w|, cfg.k)
  {
    hide Inv, Rank, Start, Seed, LookupBound;
    var s := Start(cfg, Seed(cfg, table));
    StartInv(cfg, w, table);
    RunRank(cfg, w, s, acts);
    RankLimit(cfg, w, s);
  }

  /** And it never gets stuck before it returns. */
  lemma LookupProgress(cfg: Config, w: set<Contact>, s: State)
    requires Inv(cfg, w, s) && !s.phase.Returned?
    ensures exists a :: Enabled(cfg, w, s, a)
  {
    hide Inv;
    if s.phase.Picking? {
      assert Enabled(cfg, w, s, Pick);
    } else if s.toLaunch != [] {
      assert Enabled(cfg, w, s, Launch);
    } else if s.pending != map[] {
      var c :| c in s.pending;
      if s.pending[c].Querying? {
        assert Enabled(cfg, w, s, Fail(c));
      } else {
        assert Enabled(cfg, w, s, Finish(c));
      }
    } else {
      assert Enabled(cfg, w, s, Conclude);
    }
  }

  // ----- what the answer is

  /** The not-found answer of a lookup: sorted contacts, each of which answered
      exactly one RPC of this lookup, never the caller itself; and every one of
      the `k` nearest contacts ever learned is in it unless an RPC to it failed. */
  ghost predicate GoodAnswer(cfg: Config, s: State, cs: seq<Contact>) {
    && Strict(cfg.away, cs)
    && |cs| <= cfg.k
    && cs != []
    && (forall c :: c in cs ==> c.id in s.replies && c.id != cfg.self && c in s.learned)
    && s.answers == |s.replies|
    && Kept(cfg, cs, s.learned, s.failed)
    && (s.failed == {} ==> cs == Lowest(cfg.away, cfg.k, s.learned))
  }

  lemma AnswerIsGood(cfg: Config, w: set<Contact>, s: State)
    requires Inv(cfg, w, s) && s.phase.Returned? && s.phase.result.NotFound?
    ensures GoodAnswer(cfg, s, s.phase.result.contacts)
  {
    var cs := s.phase.result.contacts;
    forall c | c in cs
      ensures c.id in s.replies && c.id != cfg.self && c in s.learned
    {
      hide Kept, OffersOk, RoundOk;
      assert c in Elems(s.list);
      assert c.id in s.contacted by {
        assert c !in Unmarked(cs, s.contacted);
      }
      assert PendingIds(s.pending, Querying) == {};
    }
    if s.failed == {} {
      hide MarksOk, OffersOk, RoundOk;
      KeptAll(cfg, w, s.list, s.learned);
    }
  }

  lemma KeptAll(cfg: Config, w: set<Contact>, list: seq<Contact>, learned: set<Contact>)
    requires ListOk(cfg, w, list, learned) && Kept(cfg, list, learned, {})
    ensures list == Lowest(cfg.away, cfg.k, learned)
  {
    var best := Lowest(cfg.away, cfg.k, learned);
    LowestMeaning(cfg.away, cfg.k, learned);
    assert Elems(best) <= Elems(list);
    StrictLength(cfg.away, best);
    StrictLength(cfg.away, list);
    SubsetSize(Elems(best), Elems(list));
    SubsetSize(Elems(list), learned);
    SubsetEqual(Elems(best), Elems(list));
    StrictUnique(cfg.away, best, list);
  }

  lemma SubsetEqual<T>(a: set<T>, b: set<T>)
    requires a <= b && |a| >= |b|
    ensures a == b
  {
    if x :| x in b && x !in a {
      SubsetSize(a + {x}, b);
    }
  }

  lemma LookupAnswer(cfg: Config, w: set<Contact>, table: set<Contact>, acts: seq<Action>)
    requires ValidConfig(cfg) && World(cfg, w) && table <= w && World(cfg, table)
    requires Seed(cfg, table) != [] && Run(cfg, w, Start(cfg, Seed(cfg, table)), acts)
    ensures var s := After(cfg, w, Start(cfg, Seed(cfg, table)), acts);
            s.phase.Returned? && s.phase.result.NotFound? ==> GoodAnswer(cfg, s, s.phase.result.contacts)
  {
    StartInv(cfg, w, table);
    RunInv(cfg, w, Start(cfg, Seed(cfg, table)), acts);
    var s := After(cfg, w, Start(cfg, Seed(cfg, table)), acts);
    if s.phase.Returned? && s.phase.result.NotFound? {
      AnswerIsGood(cfg, w, s);
    }
  }

  // ----- convergence

  /** Whether every contact that answered, other than `g`, named a strictly
      nearer one. */
  ghost predicate NamesNearer(cfg: Config, s: State, g: Contact) {
    forall c :: c in s.learned && c.id in s.replies && c != g ==>
      exists d :: d in s.replies[c.id] && cfg.away(d) < cfg.away(c)
  }

  /** If every answering contact but the globally nearest names a nearer one,
      the answer starts with the globally nearest, unless an RPC to a nearer
      contact failed. */
  lemma HeadIsClosest(cfg: Config, w: set<Contact>, s: State, g: Contact)
    requires ValidConfig(cfg) && Inv(cfg, w, s)
    requires s.phase.Returned? && s.phase.result.NotFound?
    requires g in Others(w, cfg.self) && forall c :: c in Others(w, cfg.self) ==> cfg.away(g) <= cfg.away(c)
    requires NamesNearer(cfg, s, g)
    ensures var head := s.phase.result.contacts[0];
            head == g || exists c :: c in s.learned && c.id in s.failed && cfg.away(c) < cfg.away(head)
  {
    var cs := s.phase.result.contacts;
    var head := cs[0];
    AnswerIsGood(cfg, w, s);
    if head != g {
      assert head in cs;
      var d :| d in s.replies[head.id] && cfg.away(d) < cfg.away(head);
      assert d in s.learned by {
        hide Kept, MarksOk, OffersOk, RoundOk, ListOk, PhaseOk;
      }
      hide Inv, NamesNearer, Others;
      NearestOfLearned(cfg, s.learned, d);
      var best := Lowest(cfg.away, cfg.k, s.learned)[0];
      StrictHead(cfg.away, cs);
      assert best !in cs;
      assert best.id in s.failed;
    }
  }

  lemma NearestOfLearned(cfg: Config, learned: set<Contact>, d: Contact)
    requires cfg.k >= 1 && Distinct(cfg.away, learned) && d in learned
    ensures var l := Lowest(cfg.away, cfg.k, learned);
            l != [] && l[0] in l && l[0] in learned && cfg.away(l[0]) <= cfg.away(d)
  {
    var l := Lowest(cfg.away, cfg.k, learned);
    LowestMeaning(cfg.away, cfg.k, learned);
    SubsetSize({d}, learned);
    assert l[0] in Elems(l);
    if d in l {
      var i :| 0 <= i < |l| && l[i] == d;
    }
  }

  /** In a run without failures the answer starts with the globally nearest
      contact other than the caller. */
  lemma LookupConverges(cfg: Config, w: set<Contact>, table: set<Contact>, acts: seq<Action>, g: Contact)
    requires ValidConfig(cfg) && World(cfg, w) && table <= w && World(cfg, table)
    requires Seed(cfg, table) != [] && Run(cfg, w, Start(cfg, Seed(cfg, table)), acts)
    requires g in Others(w, cfg.self) && forall c :: c in Others(w, cfg.self) ==> cfg.away(g) <= cfg.away(c)
    ensures var s := After(cfg, w, Start(cfg, Seed(cfg, table)), acts);
            s.phase.Returned? && s.phase.result.NotFound? && s.failed == {} && NamesNearer(cfg, s, g)
            ==> s.phase.result.contacts != [] && s.phase.result.contacts[0] == g
  {
    StartInv(cfg, w, table);
    RunInv(cfg, w, Start(cfg, Seed(cfg, table)), acts);
    var s := After(cfg, w, Start(cfg, Seed(cfg, table)), acts);
    if s.phase.Returned? && s.phase.result.NotFound? && s.failed == {} && NamesNearer(cfg, s, g) {
      AnswerIsGood(cfg, w, s);
      HeadIsClosest(cfg, w, s, g);
    }
  }

  lemma StrictHead(f: Contact -> nat, l: seq<Contact>)
    requires Strict(f, l) && l != []
    ensures forall d :: d in l ==> f(l[0]) <= f(d)
  {
  }

  /** With the XOR distance to a target, one address per ID is all a world
      needs. */
  lemma XorWorld(cfg: Config, target: Key, w: set<Contact>)
    requires cfg.away == Away(target)
    ensures World(cfg, w) <==> OneAddress(w)
  {
    OneAddressDistinct(target, w);
  }
}
