/** The lookup as the imperative loop of dht/node.go over a shortlist object,
    for one schedule and one set of replies. It is proved to be a run of the
    transition system in `Lookups`, and to end wherever every run does. */
module LookupMethod {
  import opened Keys
  import opened Ranking
  import opened Contacts
  import opened Shortlists
  import opened PeerRecords
  import opened Lookups
  import opened RestlessLookups
  import opened Settling
  import opened LookupEndings
  import opened LookupHistory
  import opened LookupRounds

  datatype Response = Nodes(contacts: seq<Contact>) | Peers(peers: seq<Peer>) | Failure

  /** Which goroutine moves next: the loop that launches, or one in flight. */
  datatype Move = LaunchNext | Advance(c: Contact)

  /** The scheduler, the network, and whether a reply misses the handover to the
      waiting round, each as a function of time. */
  datatype Environment = Environment(
    schedule: (nat, seq<Contact>, map<Contact, Pc>) -> Move,
    rpc: (nat, Contact) -> Response,
    late: nat -> bool)

  ghost predicate LegalResponse(cfg: Config, w: set<Contact>, r: Response) {
    match r
    case Nodes(cs) => LegalReply(cfg, w, cs)
    case Peers(_) => cfg.kind.FindPeers?
    case Failure => true
  }

  ghost predicate LegalMove(toLaunch: seq<Contact>, pending: map<Contact, Pc>, m: Move) {
    match m
    case LaunchNext => toLaunch != []
    case Advance(c) => c in pending
  }

  ghost predicate LegalEnvironment(cfg: Config, w: set<Contact>, env: Environment) {
    && (forall t, c :: LegalResponse(cfg, w, env.rpc(t, c)))
    && (forall t, l, p :: l != [] || p != map[] ==> LegalMove(l, p, env.schedule(t, l, p)))
  }

  // ----- what an environment makes a lookup do

  /** What comes of the response of `c`. */
  function Heard(c: Contact, r: Response): Action {
    match r
    case Nodes(cs) => Reply(c, cs)
    case Peers(ps) => Offer(c, ps)
    case Failure => Fail(c)
  }

  /** The next action at time `now`: the loop picks and concludes by itself, and in
      a round does what the environment says. */
  function NextAction(env: Environment, now: nat, s: State): Action {
    if s.phase.Picking? then Pick
    else if s.toLaunch == [] && s.pending == map[] then Conclude
    else
      match env.schedule(now, s.toLaunch, s.pending)
      case LaunchNext => Launch
      case Advance(c) =>
        if c in s.pending && s.pending[c].Querying? then Heard(c, env.rpc(now, c))
        else if env.late(now) then Reinsert(c) else Finish(c)
  }

  /** Time goes on with the actions of a round. */
  function Elapsed(acts: seq<Action>): nat {
    if acts == [] then 0 else (if WithinRound(acts[0]) then 1 else 0) + Elapsed(acts[1..])
  }

  /** From `s` at time `now`, `acts` is what the environment makes happen. */
  ghost predicate Obeys(cfg: Config, w: set<Contact>, env: Environment, s: State, acts: seq<Action>, now: nat)
    decreases |acts|
  {
    acts == []
    || (acts[0] == NextAction(env, now, s) && Enabled(cfg, w, s, acts[0])
        && Obeys(cfg, w, env, Apply(cfg, w, s, acts[0]), acts[1..], now + if WithinRound(acts[0]) then 1 else 0))
  }

  lemma {:induction false} ObeysAppend(cfg: Config, w: set<Contact>, env: Environment, s: State, acts: seq<Action>,
                                       now: nat, a: Action)
    requires Run(cfg, w, s, acts) && Obeys(cfg, w, env, s, acts, now)
    requires a == NextAction(env, now + Elapsed(acts), After(cfg, w, s, acts))
    requires Enabled(cfg, w, After(cfg, w, s, acts), a)
    ensures Obeys(cfg, w, env, s, acts + [a], now)
    ensures Elapsed(acts + [a]) == Elapsed(acts) + if WithinRound(a) then 1 else 0
    decreases |acts|
  {
    hide Enabled, Apply, NextAction, WithinRound;
    if acts == [] {
      assert [] + [a] == [a] && [a][1..] == [];
      assert Obeys(cfg, w, env, Apply(cfg, w, s, a), [], now + if WithinRound(a) then 1 else 0);
    } else {
      assert (acts + [a])[0] == acts[0] && (acts + [a])[1..] == acts[1..] + [a];
      var t := Apply(cfg, w, s, acts[0]);
      ObeysAppend(cfg, w, env, t, acts[1..], now + if WithinRound(acts[0]) then 1 else 0, a);
    }
  }

  // ----- ghost bookkeeping

  ghost predicate Reached(cfg: Config, w: set<Contact>, env: Environment, start: State, acts: seq<Action>, s: State) {
    && Run(cfg, w, start, acts) && After(cfg, w, start, acts) == s && Calm(cfg, w, s)
    && Obeys(cfg, w, env, start, acts, 0)
  }

  lemma {:induction false} RunAppend(cfg: Config, w: set<Contact>, s: State, acts: seq<Action>, a: Action)
    requires Run(cfg, w, s, acts) && Enabled(cfg, w, After(cfg, w, s, acts), a)
    ensures Run(cfg, w, s, acts + [a])
    ensures After(cfg, w, s, acts + [a]) == Apply(cfg, w, After(cfg, w, s, acts), a)
    decreases |acts|
  {
    hide Enabled, Apply;
    if acts == [] {
      assert [] + [a] == [a] && [a][1..] == [];
    } else {
      assert (acts + [a])[0] == acts[0] && (acts + [a])[1..] == acts[1..] + [a];
      RunAppend(cfg, w, Apply(cfg, w, s, acts[0]), acts[1..], a);
    }
  }

  /** Contacts among which every lookup ends. */
  ghost predicate Settles(cfg: Config, w: set<Contact>) {
    ValidConfig(cfg) && ByIds(cfg, w) && !Restless(cfg, w)
  }

  lemma Advances(cfg: Config, w: set<Contact>, env: Environment, start: State, acts: seq<Action>, s: State, a: Action)
    requires Settles(cfg, w) && Reached(cfg, w, env, start, acts, s) && Enabled(cfg, w, s, a)
    requires a == NextAction(env, Elapsed(acts), s)
    ensures Reached(cfg, w, env, start, acts + [a], Apply(cfg, w, s, a))
    ensures 0 <= Measure(cfg, w, Apply(cfg, w, s, a)) < Measure(cfg, w, s)
    ensures Elapsed(acts + [a]) == Elapsed(acts) + if WithinRound(a) then 1 else 0
  {
    hide Calm, Enabled, Apply, Measure, ByIds, Restless, Weak, NextAction, Obeys, Elapsed, WithinRound;
    RunAppend(cfg, w, start, acts, a);
    ObeysAppend(cfg, w, env, start, acts, 0, a);
    StepCalm(cfg, w, s, a);
    CalmLower(cfg, w, s, a);
    CalmFacts(cfg, w, Apply(cfg, w, s, a));
    MeasureBounds(cfg, w, Apply(cfg, w, s, a));
  }

  lemma StartsBounded(cfg: Config, w: set<Contact>, env: Environment, start: State, acts: seq<Action>, s: State)
    requires Reached(cfg, w, env, start, acts, s)
    ensures 0 <= Measure(cfg, w, s)
  {
    hide Calm, Measure, Weak;
    CalmFacts(cfg, w, s);
    MeasureBounds(cfg, w, s);
  }

  ghost predicate Mirrors(closest: Shortlist, cfg: Config, s: State)
    reads closest
  {
    && closest.Valid()
    && Away(closest.target) == cfg.away && closest.k == cfg.k
    && closest.list == s.list && closest.contacted == s.contacted && closest.hasPeers == s.hasPeers
  }

  lemma RemoveSingle(f: Contact -> nat, l: seq<Contact>, c: Contact)
    ensures RemoveAll(f, l, [c]) == RemoveOne(f, l, c)
    ensures Ids(Elems([c])) == {c.id}
  {
    assert [c][..0] == [];
    assert Elems([c]) == {c};
  }

  // ----- one round

  /** The locals of the waiting round against the state. */
  ghost predicate Locals(s: State, toLaunch: seq<Contact>, pending: map<Contact, Pc>, peers: Option<seq<Peer>>) {
    s.toLaunch == toLaunch && s.pending == pending && s.peers == peers
  }

  ghost predicate SameRound(s: State, s': State) {
    s'.phase == s.phase && s'.closest == s.closest && s'.limit == s.limit
  }

  /** The round marks the next contact and starts its goroutine. */
  method LaunchOne(cfg: Config, closest: Shortlist, toLaunch: seq<Contact>, pending: map<Contact, Pc>,
                   ghost w: set<Contact>, ghost s: State)
    returns (toLaunch': seq<Contact>, pending': map<Contact, Pc>, ghost a: Action)
    requires Mirrors(closest, cfg, s) && Locals(s, toLaunch, pending, s.peers)
    requires s.phase.Waiting? && toLaunch != []
    modifies closest
    ensures a == Launch && Enabled(cfg, w, s, a) && SameRound(s, Apply(cfg, w, s, a))
    ensures Mirrors(closest, cfg, Apply(cfg, w, s, a))
    ensures Locals(Apply(cfg, w, s, a), toLaunch', pending', s.peers)
  {
    hide Ascending, World;
    a := Launch;
    closest.SetContacted(toLaunch[0]);
    toLaunch', pending' := toLaunch[1..], pending[toLaunch[0] := Querying];
  }

  /** An RPC goroutine receives its reply. */
  method Answer(cfg: Config, closest: Shortlist, c: Contact, response: Response, pending: map<Contact, Pc>,
                peers: Option<seq<Peer>>, ghost w: set<Contact>, ghost s: State)
    returns (pending': map<Contact, Pc>, peers': Option<seq<Peer>>, ghost a: Action)
    requires LegalResponse(cfg, w, response)
    requires Mirrors(closest, cfg, s) && Locals(s, s.toLaunch, pending, peers)
    requires c in pending && pending[c].Querying?
    modifies closest
    ensures a == Heard(c, response) && Enabled(cfg, w, s, a) && SameRound(s, Apply(cfg, w, s, a))
    ensures Mirrors(closest, cfg, Apply(cfg, w, s, a))
    ensures Locals(Apply(cfg, w, s, a), s.toLaunch, pending', peers')
  {
    hide LegalReply, Ascending, Others, RemoveAll, RemoveOne, InsertAll, World;
    pending', peers' := pending[c := Replied], peers;
    match response
    case Failure =>
      a := Fail(c);
      RemoveSingle(cfg.away, closest.list, c);
      closest.Remove([c]);
      pending' := pending - {c};
    case Nodes(cs) =>
      a := Reply(c, cs);
      closest.Insert(cs);
    case Peers(ps) =>
      a := Offer(c, ps);
      peers' := Some(ps);
      closest.SetAsHavingPeers(c);
  }

  /** It hands over to the waiting round, or finds the round not waiting and
      inserts its contact once more. */
  method HandOver(cfg: Config, closest: Shortlist, c: Contact, late: bool, pending: map<Contact, Pc>,
                  ghost w: set<Contact>, ghost s: State)
    returns (pending': map<Contact, Pc>, ghost a: Action)
    requires Mirrors(closest, cfg, s) && s.pending == pending
    requires c in pending && pending[c].Replied?
    modifies closest
    ensures a == if late then Reinsert(c) else Finish(c)
    ensures Enabled(cfg, w, s, a) && SameRound(s, Apply(cfg, w, s, a))
    ensures Mirrors(closest, cfg, Apply(cfg, w, s, a))
    ensures Locals(Apply(cfg, w, s, a), s.toLaunch, pending', s.peers)
  {
    hide LegalReply, Ascending, Others, InsertAll, World;
    a := Finish(c);
    if late {
      a := Reinsert(c);
      closest.Insert([c]);
    }
    pending' := pending - {c};
  }

  /** Sends an RPC to every contact of `toContact` and waits for all goroutines. */
  method Round(cfg: Config, closest: Shortlist, toContact: seq<Contact>, env: Environment, now: nat,
               ghost w: set<Contact>, ghost start: State, ghost before: seq<Action>, ghost s0: State)
    returns (peers: Option<seq<Peer>>, time: nat, ghost acts: seq<Action>, ghost s: State)
    requires Settles(cfg, w) && LegalEnvironment(cfg, w, env)
    requires Reached(cfg, w, env, start, before, s0) && Mirrors(closest, cfg, s0)
    requires s0.phase.Waiting? && Locals(s0, toContact, map[], None) && now == Elapsed(before)
    modifies closest
    ensures Reached(cfg, w, env, start, acts, s) && Mirrors(closest, cfg, s)
    ensures SameRound(s0, s) && Locals(s, [], map[], peers) && time == Elapsed(acts)
    ensures 0 <= Measure(cfg, w, s) <= Measure(cfg, w, s0)
  {
    hide Settles, Measure, LegalReply, Others, Reached, Mirrors, World;
    peers, time, acts, s := None, now, before, s0;
    StartsBounded(cfg, w, env, start, acts, s);
    var toLaunch, pending := toContact, map[];
    while toLaunch != [] || pending != map[]
      invariant Reached(cfg, w, env, start, acts, s) && Mirrors(closest, cfg, s)
      invariant SameRound(s0, s) && Locals(s, toLaunch, pending, peers) && time == Elapsed(acts)
      invariant 0 <= Measure(cfg, w, s) <= Measure(cfg, w, s0)
      decreases Measure(cfg, w, s)
    {
      ghost var a;
      var move := env.schedule(time, toLaunch, pending);
      assert LegalMove(toLaunch, pending, move);
      match move {
        case LaunchNext =>
          toLaunch, pending, a := LaunchOne(cfg, closest, toLaunch, pending, w, s);
        case Advance(c) =>
          if pending[c].Querying? {
            var response := env.rpc(time, c);
            assert LegalResponse(cfg, w, response);
            pending, peers, a := Answer(cfg, closest, c, response, pending, peers, w, s);
          } else {
            pending, a := HandOver(cfg, closest, c, env.late(time), pending, w, s);
          }
      }
      Advances(cfg, w, env, start, acts, s, a);
      s, acts := Apply(cfg, w, s, a), acts + [a];
      time := time + 1;
    }
  }

  // ----- the lookup

  /** What the lookup does when a round is over: return, or go on from the new
      head, or query everything left. */
  method Decide(cfg: Config, closest: Shortlist, limit: nat, closestNode: Contact, peers: Option<seq<Peer>>,
                ghost w: set<Contact>, ghost s: State)
    returns (done: bool, r: Result, limit': nat, closestNode': Contact)
    requires Mirrors(closest, cfg, s) && Locals(s, [], map[], peers)
    requires s.phase.Waiting? && s.limit == limit && s.closest == closestNode
    ensures Enabled(cfg, w, s, Conclude) && Mirrors(closest, cfg, Apply(cfg, w, s, Conclude))
    ensures Locals(Apply(cfg, w, s, Conclude), [], map[], peers)
    ensures !r.NoCloseNodes?
    ensures var s' := Apply(cfg, w, s, Conclude);
            && s'.limit == limit' && s'.closest == closestNode'
            && s'.phase == (if done then Returned(r) else Picking)
            && (!done ==> peers == None)
  {
    hide World, LegalReply, Unmarked, Ascending;
    limit', closestNode' := limit, closestNode;
    if peers.Some? {
      var found, c := closest.PickClosestWithoutValue();
      return true, Found(peers.value, if found then Option.Some(c) else Option.None), limit, closestNode;
    }
    if |closest.list| == 0 {
      return true, Unreachable, limit, closestNode;
    }
    var h := closest.list[0];
    if closestNode != h {
      return false, Unreachable, cfg.alpha, h;
    }
    var all := closest.AllContacted();
    AllMarked(closest.list, closest.contacted);
    if all {
      return true, NotFound(closest.list), limit, closestNode;
    }
    return false, Unreachable, MAX_INT, closestNode;
  }

  /** `initial` is the routing table's answer for the target. Without any
      parallelism the seed is empty, and taking the head of the list panics. */
  method Lookup(cfg: Config, target: Key, initial: seq<Contact>, env: Environment,
                ghost w: set<Contact>, ghost table: set<Contact>)
    returns (r: Result, ghost acts: seq<Action>)
    requires SizedConfig(cfg) && cfg.away == Away(target)
    requires cfg.alpha >= 1 ==> !Restless(cfg, w)
    requires table <= w && World(cfg, table) && Distinct(cfg.away, Others(table, cfg.self))
    requires initial == Lowest(cfg.away, cfg.k, Others(table, cfg.self))
    requires LegalEnvironment(cfg, w, env)
    ensures r.NoCloseNodes? <==> initial == []
    ensures r.Panicked? <==> initial != [] && cfg.alpha == 0
    ensures initial != [] && cfg.alpha >= 1 ==>
              && Seed(cfg, table) != []
              && Run(cfg, w, Start(cfg, Seed(cfg, table)), acts)
              && After(cfg, w, Start(cfg, Seed(cfg, table)), acts).phase == Returned(r)
              && Obeys(cfg, w, env, Start(cfg, Seed(cfg, table)), acts, 0)
              && TrueResult(cfg, After(cfg, w, Start(cfg, Seed(cfg, table)), acts).list, acts, r)
              && (r.Found? <==> exists i :: 0 <= i < |acts| && acts[i].Offer?)
  {
    hide World, Distinct, Others, Lowest, Seed, Run, After, Start, LegalEnvironment;
    if |initial| == 0 {
      return NoCloseNodes, [];
    }
    if |Take(cfg.alpha, initial)| == 0 {
      return Panicked, [];
    }
    XorByIds(cfg, target, w);
    r, acts := Search(cfg, target, initial, env, w, table);
    hide TrueResult, Obeys;
    LookupReturns(cfg, w, table, acts);
  }

  // Lookup from the first insert on
  method Search(cfg: Config, target: Key, initial: seq<Contact>, env: Environment,
                ghost w: set<Contact>, ghost table: set<Contact>)
    returns (r: Result, ghost acts: seq<Action>)
    requires ValidConfig(cfg) && Settles(cfg, w) && cfg.away == Away(target)
    requires table <= w && World(cfg, table) && Distinct(cfg.away, Others(table, cfg.self))
    requires initial == Lowest(cfg.away, cfg.k, Others(table, cfg.self)) && initial != []
    requires LegalEnvironment(cfg, w, env)
    ensures Seed(cfg, table) != []
    ensures Run(cfg, w, Start(cfg, Seed(cfg, table)), acts)
    ensures After(cfg, w, Start(cfg, Seed(cfg, table)), acts).phase == Returned(r)
    ensures Obeys(cfg, w, env, Start(cfg, Seed(cfg, table)), acts, 0)
    ensures !r.NoCloseNodes? && !r.Panicked?
  {
    hide Settles, Measure, LegalReply, Others, Reached, World, Unmarked, Run, After, Apply, Enabled, Start, Ascending;
    var seed := Take(cfg.alpha, initial);
    var closest := new Shortlist(target, cfg.k);
    closest.Insert(seed);
    ghost var start := Start(cfg, seed);
    ghost var s := start;
    acts := [];
    StartReached(cfg, w, env, table);
    StartMirrors(cfg, closest, seed);
    var limit, closestNode, now := cfg.alpha, closest.list[0], 0;
    while true
      invariant Reached(cfg, w, env, start, acts, s) && Mirrors(closest, cfg, s)
      invariant s.phase.Picking? && Locals(s, [], map[], None)
      invariant s.limit == limit && s.closest == closestNode && now == Elapsed(acts)
      invariant 0 <= Measure(cfg, w, s)
      decreases Measure(cfg, w, s)
    {
      StartsBounded(cfg, w, env, start, acts, s);
      var toContact := closest.PickNotContacted(limit);
      PickStarts(cfg, w, s);
      Advances(cfg, w, env, start, acts, s, Pick);
      s, acts := Apply(cfg, w, s, Pick), acts + [Pick];
      var peers: Option<seq<Peer>>;
      peers, now, acts, s := Round(cfg, closest, toContact, env, now, w, start, acts, s);
      var done;
      done, r, limit, closestNode := Decide(cfg, closest, limit, closestNode, peers, w, s);
      Advances(cfg, w, env, start, acts, s, Conclude);
      s, acts := Apply(cfg, w, s, Conclude), acts + [Conclude];
      if done {
        ReachedRun(cfg, w, env, start, acts, s);
        ReachedResult(cfg, w, env, start, acts, s);
        return;
      }
    }
  }

  lemma StartMirrors(cfg: Config, closest: Shortlist, seed: seq<Contact>)
    requires seed != [] && cfg.k >= 1
    requires closest.Valid() && Away(closest.target) == cfg.away && closest.k == cfg.k
    requires closest.list == Take(cfg.k, InsertAll(cfg.away, [], seed))
    requires closest.contacted == {} && closest.hasPeers == {}
    ensures var s := Start(cfg, seed);
            && Mirrors(closest, cfg, s) && s.phase.Picking? && Locals(s, [], map[], None)
            && closest.list != [] && s.limit == cfg.alpha && s.closest == closest.list[0]
  {
    SeedListNonempty(cfg, seed);
  }

  lemma PickStarts(cfg: Config, w: set<Contact>, s: State)
    requires s.phase.Picking? && Locals(s, [], map[], None)
    ensures Enabled(cfg, w, s, Pick)
    ensures var s' := Apply(cfg, w, s, Pick);
            && s'.phase.Waiting? && Locals(s', Take(s.limit, Unmarked(s.list, s.contacted)), map[], None)
            && s'.limit == s.limit && s'.closest == s.closest
            && s'.list == s.list && s'.contacted == s.contacted && s'.hasPeers == s.hasPeers
  {
  }

  lemma AllMarked(l: seq<Contact>, marks: set<Key>)
    ensures Unmarked(l, marks) == [] <==> forall c :: c in l ==> c.id in marks
  {
    var r := Unmarked(l, marks);
    assert r != [] ==> r[0] in r;
  }

  lemma ReachedResult(cfg: Config, w: set<Contact>, env: Environment, start: State, acts: seq<Action>, s: State)
    requires Reached(cfg, w, env, start, acts, s) && s.phase.Returned?
    ensures !s.phase.result.NoCloseNodes? && !s.phase.result.Panicked?
  {
    hide Run, After, Listed, MarksOk, Apart, Calm;
    CalmFacts(cfg, w, s);
  }

  lemma ReachedRun(cfg: Config, w: set<Contact>, env: Environment, start: State, acts: seq<Action>, s: State)
    requires Reached(cfg, w, env, start, acts, s)
    ensures Run(cfg, w, start, acts) && After(cfg, w, start, acts) == s && Obeys(cfg, w, env, start, acts, 0)
  {
  }

  lemma StartReached(cfg: Config, w: set<Contact>, env: Environment, table: set<Contact>)
    requires Settles(cfg, w) && table <= w && World(cfg, table) && Seed(cfg, table) != []
    ensures Reached(cfg, w, env, Start(cfg, Seed(cfg, table)), [], Start(cfg, Seed(cfg, table)))
    ensures Elapsed([]) == 0 && 0 <= Measure(cfg, w, Start(cfg, Seed(cfg, table)))
  {
    hide Calm, Measure, Seed, Start;
    SeedOrder(cfg, w, table);
    StartCalm(cfg, w, Seed(cfg, table));
    StartsBounded(cfg, w, env, Start(cfg, Seed(cfg, table)), [], Start(cfg, Seed(cfg, table)));
  }
}
