/** Peer records on their way through a network of nodes (dht/node.go): client
    PUTs and the check in front of them, store RPCs, lookups and what they cache,
    republishing and expiry, interleaved in any order on any number of nodes.
    Each node has a clock of its own; messages may be late, lost or repeated. */
module Networks {
  import opened Keys
  import opened PeerRecords
  import opened PeerStores

  type Node = nat

  /** The key of 32 zeros stands for no upload key. */
  function NoKey(): Key {
    seq(KEY_LEN, _ => 0)
  }

  datatype NodeConfig = NodeConfig(expiry: int, uploadKey: Key)

  /** The upload header of a PUT. */
  datatype Header = NoHeader | Unreadable | UploadKey(key: Key)

  /** Where a batch of records is: in a found reply on its way to a node, about
      to be sent by it, in a store RPC on its way to it, or returned to a caller
      of `FindPeers` there. */
  datatype Place = Reply | Outgoing | StoreRpc | Answer

  datatype Parcel = Parcel(place: Place, node: Node, key: Key, peers: set<Peer>)

  /** An accepted PUT. */
  datatype Put = Put(node: Node, key: Key, peer: Peer, header: Header)

  /** Records read from the store of a node whose clock showed `at`. */
  datatype Read = Read(reader: Node, key: Key, peers: set<Peer>, at: int)

  /** `puts` and `readings` are the history of the run. */
  datatype State = State(clocks: seq<int>, stores: seq<Store>, parcels: set<Parcel>, puts: seq<Put>,
                         readings: set<Read>)

  datatype Action =
    | Tick(node: Node, later: int)
      // A PUT that passes the check; `found` is what `FindPeers` gave, if asked
    | ClientPut(node: Node, key: Key, ip: nat, port: nat, asn: int, header: Header, found: Option<set<Peer>>)
      // A key read from the store of `node`: by FindPeers there, for the reply
      // to `to`, or for republishing
    | ReadStore(node: Node, place: Place, to: Node, key: Key, kept: set<Peer>, later: int)
      // A store RPC for an outgoing batch or, after a lookup, for a found reply
    | SendStore(from: Parcel, to: Node)
    | HandleStore(rpc: Parcel)
      // The lookup of FindPeers returns: the node caches what it found
    | FoundPeers(reply: Parcel)

  function At(s: State, n: Node, k: Key): set<Peer>
    requires n < |s.stores|
  {
    Records(s.stores[n], k)
  }

  /** The check in front of a PUT; `known` says whether peers have been found for
      the key. */
  predicate Accepts(uploadKey: Key, header: Header, known: bool) {
    if uploadKey == NoKey() then true
    else match header
      case Unreadable => false
      case NoHeader => known
      case UploadKey(key) => key == uploadKey || known
  }

  predicate Enabled(cs: seq<NodeConfig>, s: State, a: Action)
    requires |s.clocks| == |s.stores| == |cs|
  {
    match a
    case Tick(n, later) => n < |cs| && s.clocks[n] <= later
    case ClientPut(n, k, _, _, _, header, found) =>
      && n < |cs| && Accepts(cs[n].uploadKey, header, found.Some?)
      && (found.Some? ==> Parcel(Answer, n, k, found.value) in s.parcels)
    case ReadStore(n, place, to, k, kept, later) =>
      && n < |cs| && to < |cs| && !place.StoreRpc? && (!place.Reply? ==> to == n)
      && k in s.stores[n] && s.clocks[n] <= later
      && Kept(s.stores[n][k], kept, cs[n].expiry, s.clocks[n], later)
    case SendStore(from, to) =>
      from in s.parcels && (from.place.Outgoing? || from.place.Reply?) && to < |cs|
    case HandleStore(rpc) => rpc in s.parcels && rpc.place.StoreRpc? && rpc.node < |cs|
    case FoundPeers(reply) => reply in s.parcels && reply.place.Reply? && reply.node < |cs|
  }

  function Apply(cs: seq<NodeConfig>, s: State, a: Action): (t: State)
    requires |s.clocks| == |s.stores| == |cs| && Enabled(cs, s, a)
    ensures |t.clocks| == |t.stores| == |cs|
  {
    match a
    case Tick(n, later) => s.(clocks := s.clocks[n := later])
    case ClientPut(n, k, ip, port, asn, header, _) => PutAt(s, n, k, Peer(ip, port, asn, s.clocks[n]), header)
    case ReadStore(n, place, to, k, kept, later) =>
      State(s.clocks[n := later],
            s.stores[n := Replaced(s.stores[n], k, kept)],
            s.parcels + if kept == {} then {} else {Parcel(place, to, k, kept)},
            s.puts,
            s.readings + if kept == {} then {} else {Read(n, k, kept, s.clocks[n])})
    case SendStore(from, to) => s.(parcels := s.parcels + {Parcel(StoreRpc, to, from.key, from.peers)})
    case HandleStore(rpc) => s.(stores := s.stores[rpc.node := Added(s.stores[rpc.node], rpc.key, rpc.peers)])
    case FoundPeers(reply) =>
      State(s.clocks,
            s.stores[reply.node := Added(s.stores[reply.node], reply.key, reply.peers)],
            s.parcels + {Parcel(Answer, reply.node, reply.key, reply.peers)},
            s.puts, s.readings)
  }

  function PutAt(s: State, n: Node, k: Key, p: Peer, header: Header): State
    requires n < |s.stores|
  {
    State(s.clocks,
          s.stores[n := Added(s.stores[n], k, {p})],
          s.parcels + {Parcel(Outgoing, n, k, {p})},
          s.puts + [Put(n, k, p, header)],
          s.readings)
  }

  predicate Sized(cs: seq<NodeConfig>, s: State) {
    |s.clocks| == |s.stores| == |cs|
  }

  predicate Started(cs: seq<NodeConfig>, s: State) {
    && Sized(cs, s) && s.parcels == {} && s.puts == [] && s.readings == {}
    && forall n :: 0 <= n < |cs| ==> s.stores[n] == map[]
  }

  predicate Run(cs: seq<NodeConfig>, s: State, acts: seq<Action>)
    requires Sized(cs, s)
    decreases |acts|
  {
    acts == [] || (Enabled(cs, s, acts[0]) && Run(cs, Apply(cs, s, acts[0]), acts[1..]))
  }

  function After(cs: seq<NodeConfig>, s: State, acts: seq<Action>): (t: State)
    requires Sized(cs, s) && Run(cs, s, acts)
    ensures Sized(cs, t)
    decreases |acts|
  {
    if acts == [] then s else After(cs, Apply(cs, s, acts[0]), acts[1..])
  }

  // ----- every record was published

  /** The records that PUTs have published for a key. */
  function Published(puts: seq<Put>, k: Key): set<Peer> {
    set i | 0 <= i < |puts| && puts[i].key == k :: puts[i].peer
  }

  lemma PublishedGrows(puts: seq<Put>, p: Put, k: Key)
    ensures Published(puts + [p], k) == Published(puts, k) + if p.key == k then {p.peer} else {}
  {
    var more := puts + [p];
    forall q | q in Published(puts, k) + if p.key == k then {p.peer} else {}
      ensures q in Published(more, k)
    {
      if q in Published(puts, k) {
        var i :| 0 <= i < |puts| && puts[i].key == k && puts[i].peer == q;
        assert more[i] == puts[i];
      } else {
        assert more[|puts|] == p;
      }
    }
  }

  /** Whatever a node holds for a key, and whatever travels for it, was published
      for that key. */
  ghost predicate Held(s: State) {
    forall n, k :: 0 <= n < |s.stores| ==> At(s, n, k) <= Published(s.puts, k)
  }

  ghost predicate Carried(s: State) {
    forall c :: c in s.parcels ==> c.peers != {} && c.peers <= Published(s.puts, c.key)
  }

  lemma AtAfterAdd(s: State, t: State, n: Node, k: Key, peers: set<Peer>, m: Node, j: Key)
    requires n < |s.stores| && t.stores == s.stores[n := Added(s.stores[n], k, peers)] && m < |s.stores|
    ensures At(t, m, j) == At(s, m, j) + if m == n && j == k then peers else {}
  {
  }

  lemma AtAfterRead(s: State, t: State, n: Node, k: Key, kept: set<Peer>, m: Node, j: Key)
    requires n < |s.stores| && t.stores == s.stores[n := Replaced(s.stores[n], k, kept)] && m < |s.stores|
    ensures At(t, m, j) == if m == n && j == k then kept else At(s, m, j)
  {
  }

  /** What a step does to what is held. */
  lemma AtStep(cs: seq<NodeConfig>, s: State, a: Action, m: Node, j: Key)
    requires Sized(cs, s) && Enabled(cs, s, a) && m < |cs|
    ensures var t := Apply(cs, s, a);
            match a
            case ClientPut(n, k, ip, port, asn, _, _) =>
              At(t, m, j) == At(s, m, j) + if m == n && j == k then {Peer(ip, port, asn, s.clocks[n])} else {}
            case ReadStore(n, _, _, k, kept, _) =>
              At(t, m, j) == if m == n && j == k then kept else At(s, m, j)
            case HandleStore(rpc) =>
              At(t, m, j) == At(s, m, j) + if m == rpc.node && j == rpc.key then rpc.peers else {}
            case FoundPeers(rpc) => At(t, m, j) == At(s, m, j) + if m == rpc.node && j == rpc.key then rpc.peers else {}
            case _ => At(t, m, j) == At(s, m, j)
  {
    var t := Apply(cs, s, a);
    match a {
      case ClientPut(n, k, ip, port, asn, _, _) => AtAfterAdd(s, t, n, k, {Peer(ip, port, asn, s.clocks[n])}, m, j);
      case ReadStore(n, _, _, k, kept, _) => AtAfterRead(s, t, n, k, kept, m, j);
      case HandleStore(rpc) => AtAfterAdd(s, t, rpc.node, rpc.key, rpc.peers, m, j);
      case FoundPeers(rpc) => AtAfterAdd(s, t, rpc.node, rpc.key, rpc.peers, m, j);
      case _ =>
    }
  }

  lemma PublishedStep(cs: seq<NodeConfig>, s: State, a: Action, k: Key)
    requires Sized(cs, s) && Enabled(cs, s, a)
    ensures Published(s.puts, k) <= Published(Apply(cs, s, a).puts, k)
    ensures match a
            case ClientPut(n, j, ip, port, asn, _, _) =>
              j == k ==> Peer(ip, port, asn, s.clocks[n]) in Published(Apply(cs, s, a).puts, k)
            case _ => true
  {
    hide Published;
    match a {
      case ClientPut(n, j, ip, port, asn, header, _) =>
        PublishedGrows(s.puts, Put(n, j, Peer(ip, port, asn, s.clocks[n]), header), k);
      case _ =>
    }
  }

  lemma HeldStep(cs: seq<NodeConfig>, s: State, a: Action)
    requires Sized(cs, s) && Enabled(cs, s, a) && Held(s) && Carried(s)
    ensures Held(Apply(cs, s, a))
  {
    var t := Apply(cs, s, a);
    forall m: nat, j | m < |cs|
      ensures At(t, m, j) <= Published(t.puts, j)
    {
      HeldStepAt(cs, s, a, m, j);
    }
  }

  lemma HeldStepAt(cs: seq<NodeConfig>, s: State, a: Action, m: Node, j: Key)
    requires Sized(cs, s) && Enabled(cs, s, a) && Held(s) && Carried(s) && m < |cs|
    ensures At(Apply(cs, s, a), m, j) <= Published(Apply(cs, s, a).puts, j)
  {
    hide Published, Apply, At;
    AtStep(cs, s, a, m, j);
    PublishedStep(cs, s, a, j);
    assert At(s, m, j) <= Published(s.puts, j);
    if a.ReadStore? {
      KeptIsHeld(cs, s, a);
    }
  }

  lemma KeptIsHeld(cs: seq<NodeConfig>, s: State, a: Action)
    requires Sized(cs, s) && Enabled(cs, s, a) && a.ReadStore?
    ensures a.kept <= Alive(At(s, a.node, a.key), cs[a.node].expiry, s.clocks[a.node])
  {
  }

  lemma CarriedStep(cs: seq<NodeConfig>, s: State, a: Action)
    requires Sized(cs, s) && Enabled(cs, s, a) && Held(s) && Carried(s)
    ensures Carried(Apply(cs, s, a))
  {
    var t := Apply(cs, s, a);
    forall c | c in t.parcels
      ensures c.peers != {} && c.peers <= Published(t.puts, c.key)
    {
      hide Published;
      PublishedStep(cs, s, a, c.key);
      if c !in s.parcels && a.ReadStore? {
        KeptIsHeld(cs, s, a);
      }
    }
  }

  // ----- no copy outlives its record

  /** Every batch of records read from a store was alive by the clock of the node
      it was read from. */
  ghost predicate ReadAlive(cs: seq<NodeConfig>, s: State) {
    forall r :: r in s.readings ==> AliveAt(cs, s, r)
  }

  ghost predicate AliveAt(cs: seq<NodeConfig>, s: State, r: Read) {
    && r.reader < |cs| && r.peers <= Published(s.puts, r.key)
    && forall p :: p in r.peers ==> r.at <= p.published + cs[r.reader].expiry
  }

  /** Whatever is answered, and whatever is on its way other than a new PUT, is
      what some node read from its store. */
  ghost predicate FromReads(s: State) {
    forall c :: c in s.parcels ==> FromRead(s, c) || (!c.place.Answer? && !c.place.Reply? && FromPut(s, c))
  }

  ghost predicate FromRead(s: State, c: Parcel) {
    exists r :: r in s.readings && r.key == c.key && r.peers == c.peers
  }

  ghost predicate FromPut(s: State, c: Parcel) {
    exists i :: 0 <= i < |s.puts| && s.puts[i].key == c.key && c.peers == {s.puts[i].peer}
  }

  lemma FromStep(cs: seq<NodeConfig>, s: State, a: Action, c: Parcel)
    requires Sized(cs, s) && Enabled(cs, s, a)
    ensures FromRead(s, c) ==> FromRead(Apply(cs, s, a), c)
    ensures FromPut(s, c) ==> FromPut(Apply(cs, s, a), c)
  {
    var t := Apply(cs, s, a);
    if FromRead(s, c) {
      var r :| r in s.readings && r.key == c.key && r.peers == c.peers;
      assert r in t.readings;
    }
    if FromPut(s, c) {
      var i :| 0 <= i < |s.puts| && s.puts[i].key == c.key && c.peers == {s.puts[i].peer};
      assert t.puts[i] == s.puts[i];
    }
  }

  lemma FromReadsStep(cs: seq<NodeConfig>, s: State, a: Action)
    requires Sized(cs, s) && Enabled(cs, s, a) && FromReads(s)
    ensures FromReads(Apply(cs, s, a))
  {
    var t := Apply(cs, s, a);
    forall c | c in t.parcels
      ensures FromRead(t, c) || (!c.place.Answer? && !c.place.Reply? && FromPut(t, c))
    {
      FromStep(cs, s, a, c);
      if c !in s.parcels {
        match a {
          case ClientPut(n, k, _, _, _, _, _) => assert t.puts[|s.puts|].key == k;
          case ReadStore(n, _, _, k, kept, _) => assert Read(n, k, kept, s.clocks[n]) in t.readings;
          case SendStore(from, _) => FromSame(t, from, c); FromStep(cs, s, a, from);
          case FoundPeers(reply) => FromSame(t, reply, c); FromStep(cs, s, a, reply);
        }
      }
    }
  }

  lemma FromSame(s: State, b: Parcel, c: Parcel)
    requires b.key == c.key && b.peers == c.peers
    ensures FromRead(s, b) ==> FromRead(s, c)
    ensures FromPut(s, b) ==> FromPut(s, c)
  {
  }

  lemma ReadAliveStep(cs: seq<NodeConfig>, s: State, a: Action)
    requires Sized(cs, s) && Enabled(cs, s, a) && Held(s) && ReadAlive(cs, s)
    ensures ReadAlive(cs, Apply(cs, s, a))
  {
    var t := Apply(cs, s, a);
    forall r | r in t.readings
      ensures AliveAt(cs, t, r)
    {
      hide Published;
      PublishedStep(cs, s, a, r.key);
      if r !in s.readings {
        KeptIsHeld(cs, s, a);
        assert At(s, a.node, a.key) <= Published(s.puts, a.key);
      }
    }
  }

  // ----- a PUT is kept until it expires

  /** The node that took a PUT holds its record until its own clock is past the
      record's life, and stamped it with that clock. */
  ghost predicate PutsKept(cs: seq<NodeConfig>, s: State)
    requires Sized(cs, s)
  {
    forall i :: 0 <= i < |s.puts| ==> PutKept(cs, s, s.puts[i])
  }

  ghost predicate PutKept(cs: seq<NodeConfig>, s: State, p: Put)
    requires Sized(cs, s)
  {
    && p.node < |cs| && p.peer.published <= s.clocks[p.node]
    && (p.peer in At(s, p.node, p.key) || p.peer.published + cs[p.node].expiry < s.clocks[p.node])
  }

  lemma PutsKeptStep(cs: seq<NodeConfig>, s: State, a: Action)
    requires Sized(cs, s) && Enabled(cs, s, a) && PutsKept(cs, s)
    ensures PutsKept(cs, Apply(cs, s, a))
  {
    var t := Apply(cs, s, a);
    forall i | 0 <= i < |t.puts|
      ensures PutKept(cs, t, t.puts[i])
    {
      if i < |s.puts| {
        PutKeptStep(cs, s, a, s.puts[i]);
      }
    }
  }

  lemma PutKeptStep(cs: seq<NodeConfig>, s: State, a: Action, p: Put)
    requires Sized(cs, s) && Enabled(cs, s, a) && PutKept(cs, s, p)
    ensures PutKept(cs, Apply(cs, s, a), p)
  {
    StepLasts(cs, s, a, p.node, p.key, p.peer);
  }

  // ----- what is held stays until it expires

  lemma StepLasts(cs: seq<NodeConfig>, s: State, a: Action, n: Node, k: Key, p: Peer)
    requires Sized(cs, s) && Enabled(cs, s, a) && n < |cs|
    requires p in At(s, n, k) || p.published + cs[n].expiry < s.clocks[n]
    ensures var t := Apply(cs, s, a);
            p in At(t, n, k) || p.published + cs[n].expiry < t.clocks[n]
  {
    AtStep(cs, s, a, n, k);
    if a.ReadStore? && a.node == n && a.key == k && p in At(s, n, k) && p !in a.kept {
      assert p !in Alive(At(s, n, k), cs[n].expiry, a.later);
    }
  }

  /** A record a node holds, however it came there, is held in every later state
      until the node's clock is past the record's life. */
  lemma {:induction false} RecordsLast(cs: seq<NodeConfig>, s: State, acts: seq<Action>, n: Node, k: Key, p: Peer)
    requires Sized(cs, s) && Run(cs, s, acts) && n < |cs|
    requires p in At(s, n, k) || p.published + cs[n].expiry < s.clocks[n]
    ensures var t := After(cs, s, acts);
            p in At(t, n, k) || p.published + cs[n].expiry < t.clocks[n]
    decreases |acts|
  {
    hide Enabled, Apply, At;
    if acts != [] {
      StepLasts(cs, s, acts[0], n, k, p);
      RecordsLast(cs, Apply(cs, s, acts[0]), acts[1..], n, k, p);
    }
  }

  /** A delivered store RPC and a found lookup leave the node holding every record
      they brought. */
  lemma DeliveryHolds(cs: seq<NodeConfig>, s: State, a: Action)
    requires Sized(cs, s) && Enabled(cs, s, a)
    ensures a.HandleStore? ==> a.rpc.peers <= At(Apply(cs, s, a), a.rpc.node, a.rpc.key)
    ensures a.FoundPeers? ==> a.reply.peers <= At(Apply(cs, s, a), a.reply.node, a.reply.key)
  {
    if a.HandleStore? {
      AtStep(cs, s, a, a.rpc.node, a.rpc.key);
    } else if a.FoundPeers? {
      AtStep(cs, s, a, a.reply.node, a.reply.key);
    }
  }

  /** The parcel an action brings to the store of a node, if it brings one. */
  function Brought(a: Action): Option<Parcel> {
    match a
    case HandleStore(rpc) => Some(rpc)
    case FoundPeers(reply) => Some(reply)
    case _ => None
  }

  /** What is brought to a node is held there from then on, in every run, until
      the node's clock is past the record's life. */
  lemma DeliveredLasts(cs: seq<NodeConfig>, s: State, acts: seq<Action>, p: Peer)
    requires Sized(cs, s) && Run(cs, s, acts) && acts != [] && Brought(acts[0]).Some?
    requires p in Brought(acts[0]).value.peers
    ensures var t, b := After(cs, s, acts), Brought(acts[0]).value;
            p in At(t, b.node, b.key) || p.published + cs[b.node].expiry < t.clocks[b.node]
  {
    var b := Brought(acts[0]).value;
    DeliveryHolds(cs, s, acts[0]);
    RecordsLast(cs, Apply(cs, s, acts[0]), acts[1..], b.node, b.key, p);
  }

  // ----- what is sent arrives where it is sent

  lemma RunOne(cs: seq<NodeConfig>, s: State, a: Action, acts: seq<Action>)
    requires Sized(cs, s) && Enabled(cs, s, a) && Run(cs, Apply(cs, s, a), acts)
    ensures Run(cs, s, [a] + acts) && After(cs, s, [a] + acts) == After(cs, Apply(cs, s, a), acts)
  {
    assert ([a] + acts)[1..] == acts;
  }

  lemma RunEnd(cs: seq<NodeConfig>, s: State)
    requires Sized(cs, s)
    ensures Run(cs, s, []) && After(cs, s, []) == s
  {
  }

  /** After some further actions that only send and deliver, node `to` holds
      `peers`. */
  ghost predicate CanArrive(cs: seq<NodeConfig>, s: State, to: Node, k: Key, peers: set<Peer>)
    requires Sized(cs, s)
  {
    exists acts: seq<Action> :: Delivers(cs, s, acts, to, k, peers)
  }

  ghost predicate Delivers(cs: seq<NodeConfig>, s: State, acts: seq<Action>, to: Node, k: Key, peers: set<Peer>)
    requires Sized(cs, s)
  {
    && Run(cs, s, acts) && to < |cs| && peers <= At(After(cs, s, acts), to, k)
    && forall a :: a in acts ==> a.SendStore? || a.HandleStore? || a.FoundPeers?
  }

  /** A store RPC sent to a node can be delivered next, and then the node holds
      all it was to bring. */
  lemma SendDelivers(cs: seq<NodeConfig>, s: State, from: Parcel, to: Node)
    requires Sized(cs, s) && Enabled(cs, s, SendStore(from, to))
    ensures exists rpc: Parcel ::
              && Run(cs, s, [SendStore(from, to), HandleStore(rpc)])
              && from.peers <= At(After(cs, s, [SendStore(from, to), HandleStore(rpc)]), to, from.key)
  {
    var rpc := Parcel(StoreRpc, to, from.key, from.peers);
    var t := Apply(cs, s, SendStore(from, to));
    var u := Apply(cs, t, HandleStore(rpc));
    AtStep(cs, t, HandleStore(rpc), to, from.key);
    hide Enabled, Apply, At;
    RunEnd(cs, u);
    RunOne(cs, t, HandleStore(rpc), []);
    RunOne(cs, s, SendStore(from, to), [HandleStore(rpc)]);
    assert [HandleStore(rpc)] + [] == [HandleStore(rpc)];
    assert [SendStore(from, to)] + [HandleStore(rpc)] == [SendStore(from, to), HandleStore(rpc)];
  }

  lemma SendArrives(cs: seq<NodeConfig>, s: State, from: Parcel, to: Node)
    requires Sized(cs, s) && Enabled(cs, s, SendStore(from, to))
    ensures CanArrive(cs, s, to, from.key, from.peers)
  {
    SendDelivers(cs, s, from, to);
    hide Enabled, Apply, At;
    var rpc: Parcel :|
      && Run(cs, s, [SendStore(from, to), HandleStore(rpc)])
      && from.peers <= At(After(cs, s, [SendStore(from, to), HandleStore(rpc)]), to, from.key);
    assert to < |cs| by {
      SentTo(cs, s, from, to);
    }
    assert Delivers(cs, s, [SendStore(from, to), HandleStore(rpc)], to, from.key, from.peers);
  }

  lemma SentTo(cs: seq<NodeConfig>, s: State, from: Parcel, to: Node)
    requires Sized(cs, s) && Enabled(cs, s, SendStore(from, to))
    ensures to < |cs|
  {
  }

  /** A PUT can be stored at any node. */
  lemma PutArrives(cs: seq<NodeConfig>, s: State, a: Action, to: Node)
    requires Sized(cs, s) && Enabled(cs, s, a) && a.ClientPut? && to < |cs|
    ensures CanArrive(cs, Apply(cs, s, a), to, a.key, {Peer(a.ip, a.port, a.asn, s.clocks[a.node])})
  {
    var p := Peer(a.ip, a.port, a.asn, s.clocks[a.node]);
    SendArrives(cs, Apply(cs, s, a), Parcel(Outgoing, a.node, a.key, {p}), to);
  }

  /** What a node reads from its store: to republish, it can go to any node; in
      reply to another, that node can hold it and answer with it; found at home, it
      is answered there. */
  lemma ReadArrives(cs: seq<NodeConfig>, s: State, a: Action, to: Node)
    requires Sized(cs, s) && Enabled(cs, s, a) && a.ReadStore? && a.kept != {} && to < |cs|
    ensures a.place.Outgoing? ==> CanArrive(cs, Apply(cs, s, a), to, a.key, a.kept)
    ensures a.place.Reply? ==> CanArrive(cs, Apply(cs, s, a), a.to, a.key, a.kept)
    ensures a.place.Reply? ==> CanAnswer(cs, Apply(cs, s, a), a.to, a.key, a.kept)
    ensures a.place.Answer? ==> Parcel(Answer, a.node, a.key, a.kept) in Apply(cs, s, a).parcels
  {
    var t := Apply(cs, s, a);
    var c := Parcel(a.place, a.to, a.key, a.kept);
    assert c in t.parcels;
    if a.place.Outgoing? {
      SendArrives(cs, t, c, to);
    } else if a.place.Reply? {
      FoundArrives(cs, t, c);
    }
  }

  /** A lookup at a node can return `peers` for a key. */
  ghost predicate CanAnswer(cs: seq<NodeConfig>, s: State, n: Node, k: Key, peers: set<Peer>)
    requires Sized(cs, s)
  {
    exists reply: Parcel ::
      && Enabled(cs, s, FoundPeers(reply)) && reply.node == n
      && Parcel(Answer, n, k, peers) in Apply(cs, s, FoundPeers(reply)).parcels
  }

  lemma FoundArrives(cs: seq<NodeConfig>, s: State, reply: Parcel)
    requires Sized(cs, s) && Enabled(cs, s, FoundPeers(reply))
    ensures CanArrive(cs, s, reply.node, reply.key, reply.peers)
    ensures CanAnswer(cs, s, reply.node, reply.key, reply.peers)
  {
    AtStep(cs, s, FoundPeers(reply), reply.node, reply.key);
    RunEnd(cs, Apply(cs, s, FoundPeers(reply)));
    RunOne(cs, s, FoundPeers(reply), []);
    assert [FoundPeers(reply)] + [] == [FoundPeers(reply)];
    assert Delivers(cs, s, [FoundPeers(reply)], reply.node, reply.key, reply.peers);
  }

  // ----- and nothing else is on its way

  /** The action that makes the parcel `c`. */
  ghost predicate Makes(cs: seq<NodeConfig>, a: Action, c: Parcel) {
    match c.place
    case StoreRpc => a.SendStore? && a.to == c.node && a.from.key == c.key && a.from.peers == c.peers
    case Reply => a.ReadStore? && a.place.Reply? && a.to == c.node && a.key == c.key && a.kept == c.peers
    case Outgoing =>
      || (a.ReadStore? && a.place.Outgoing? && a.node == c.node && a.key == c.key && a.kept == c.peers)
      || (a.ClientPut? && a.node == c.node && a.key == c.key
          && exists at :: c.peers == {Peer(a.ip, a.port, a.asn, at)})
    case Answer =>
      || (a.ReadStore? && a.place.Answer? && a.node == c.node && a.key == c.key && a.kept == c.peers)
      || (a.FoundPeers? && a.reply.node == c.node && a.reply.key == c.key && a.reply.peers == c.peers)
  }

  lemma StepMakes(cs: seq<NodeConfig>, s: State, a: Action, c: Parcel)
    requires Sized(cs, s) && Enabled(cs, s, a) && c in Apply(cs, s, a).parcels
    ensures c in s.parcels || Makes(cs, a, c)
  {
  }

  /** In every run: each store RPC on its way to a node was sent to that node, with
      these records; each reply was read for the node that gets it; and whatever a
      node sends or answers comes from a PUT there, from its own store, or from a
      reply to it. */
  lemma {:induction false} ParcelOrigin(cs: seq<NodeConfig>, s: State, acts: seq<Action>, c: Parcel)
    requires Sized(cs, s) && Run(cs, s, acts) && c in After(cs, s, acts).parcels && c !in s.parcels
    ensures exists i :: 0 <= i < |acts| && Makes(cs, acts[i], c)
    decreases |acts|
  {
    hide Enabled, Apply, Makes;
    if acts != [] {
      var t := Apply(cs, s, acts[0]);
      if c in t.parcels {
        StepMakes(cs, s, acts[0], c);
      } else {
        ParcelOrigin(cs, t, acts[1..], c);
        var i :| 0 <= i < |acts| - 1 && Makes(cs, acts[1..][i], c);
        assert acts[i + 1] == acts[1..][i];
      }
    }
  }

  // ----- which PUTs are taken

  /** A PUT is taken if and only if the node has no upload key, or the header holds
      it, or the header can be read and a lookup at the node has found peers for the
      key. */
  lemma PutTakenIff(cs: seq<NodeConfig>, s: State, n: Node, k: Key, ip: nat, port: nat, asn: int, header: Header)
    requires Sized(cs, s) && n < |cs|
    ensures (exists found :: PutWorks(cs, s, ClientPut(n, k, ip, port, asn, header, found))) <==>
            || cs[n].uploadKey == NoKey() || header == UploadKey(cs[n].uploadKey)
            || (header != Unreadable && exists peers :: Parcel(Answer, n, k, peers) in s.parcels)
  {
    if cs[n].uploadKey == NoKey() || header == UploadKey(cs[n].uploadKey) {
      PutDone(cs, s, ClientPut(n, k, ip, port, asn, header, None));
    } else if header != Unreadable && exists peers :: Parcel(Answer, n, k, peers) in s.parcels {
      var peers :| Parcel(Answer, n, k, peers) in s.parcels;
      PutDone(cs, s, ClientPut(n, k, ip, port, asn, header, Some(peers)));
    }
  }

  /** The PUT can be taken, and then its node holds the record, stamped with the
      node's clock. */
  ghost predicate PutWorks(cs: seq<NodeConfig>, s: State, a: Action)
    requires Sized(cs, s)
  {
    && a.ClientPut? && Enabled(cs, s, a)
    && Peer(a.ip, a.port, a.asn, s.clocks[a.node]) in At(Apply(cs, s, a), a.node, a.key)
  }

  lemma PutDone(cs: seq<NodeConfig>, s: State, a: Action)
    requires Sized(cs, s) && a.ClientPut? && Enabled(cs, s, a)
    ensures PutWorks(cs, s, a)
  {
    AtStep(cs, s, a, a.node, a.key);
  }

  // ----- the first PUT of a key had the upload key

  predicate Protected(cs: seq<NodeConfig>) {
    forall n :: 0 <= n < |cs| ==> cs[n].uploadKey != NoKey()
  }

  predicate Authorised(cs: seq<NodeConfig>, p: Put) {
    p.node < |cs| && p.header == UploadKey(cs[p.node].uploadKey)
  }

  ghost predicate FirstOf(puts: seq<Put>, i: nat) {
    i < |puts| && forall j :: 0 <= j < i ==> puts[j].key != puts[i].key
  }

  ghost predicate FirstsAuthorised(cs: seq<NodeConfig>, puts: seq<Put>) {
    forall i: nat :: FirstOf(puts, i) ==> Authorised(cs, puts[i])
  }

  lemma FirstsStep(cs: seq<NodeConfig>, s: State, a: Action)
    requires Sized(cs, s) && Enabled(cs, s, a) && Protected(cs) && Carried(s) && FirstsAuthorised(cs, s.puts)
    ensures FirstsAuthorised(cs, Apply(cs, s, a).puts)
  {
    var t := Apply(cs, s, a);
    if a.ClientPut? && a.found.Some? {
      var p :| p in a.found.value;
      assert p in Published(s.puts, a.key);
      NotFirst(s.puts, t.puts[|s.puts|], p);
    }
    forall i: nat | FirstOf(t.puts, i)
      ensures Authorised(cs, t.puts[i])
    {
      if i < |s.puts| {
        assert forall j :: 0 <= j < |s.puts| ==> s.puts[j] == t.puts[j];
        assert FirstOf(s.puts, i);
      }
    }
  }

  /** Peers are found only for a key that has been put. */
  lemma NotFirst(puts: seq<Put>, p: Put, found: Peer)
    requires found in Published(puts, p.key)
    ensures !FirstOf(puts + [p], |puts|)
  {
    var j :| 0 <= j < |puts| && puts[j].key == p.key && puts[j].peer == found;
    assert (puts + [p])[j] == puts[j];
  }

  // ----- over whole runs

  ghost predicate Inv(cs: seq<NodeConfig>, s: State) {
    && Sized(cs, s) && Held(s) && Carried(s) && ReadAlive(cs, s) && FromReads(s) && PutsKept(cs, s)
    && (Protected(cs) ==> FirstsAuthorised(cs, s.puts))
  }

  lemma StepInv(cs: seq<NodeConfig>, s: State, a: Action)
    requires Inv(cs, s) && Enabled(cs, s, a)
    ensures Inv(cs, Apply(cs, s, a))
  {
    hide Enabled, Apply, Held, Carried, ReadAlive, FromReads, PutsKept, Protected, FirstsAuthorised;
    HeldStep(cs, s, a);
    CarriedStep(cs, s, a);
    ReadAliveStep(cs, s, a);
    FromReadsStep(cs, s, a);
    PutsKeptStep(cs, s, a);
    if Protected(cs) {
      FirstsStep(cs, s, a);
    }
  }

  lemma {:induction false} RunInv(cs: seq<NodeConfig>, s: State, acts: seq<Action>)
    requires Inv(cs, s) && Run(cs, s, acts)
    ensures Inv(cs, After(cs, s, acts))
    decreases |acts|
  {
    assert Sized(cs, s);
    hide Inv, Enabled, Apply;
    if acts != [] {
      StepInv(cs, s, acts[0]);
      RunInv(cs, Apply(cs, s, acts[0]), acts[1..]);
    }
  }

  lemma StartInv(cs: seq<NodeConfig>, s: State)
    requires Started(cs, s)
    ensures Inv(cs, s)
  {
  }

  /** Safety of any run: what is held, on its way or answered for a key was
      published by a PUT for that key; what is answered was read from some store
      within the life of each record, by the clock of that store's node; and a
      node keeps the records it was given until their life is over. */
  lemma NetworkSafety(cs: seq<NodeConfig>, s: State, acts: seq<Action>)
    requires Started(cs, s) && Run(cs, s, acts)
    ensures var t := After(cs, s, acts);
            && (forall n: nat, k :: n < |cs| ==> At(t, n, k) <= Published(t.puts, k))
            && (forall c :: c in t.parcels ==> c.peers != {} && c.peers <= Published(t.puts, c.key))
            && (forall c :: c in t.parcels && c.place.Answer? ==> InTime(cs, t, c))
            && (forall i :: 0 <= i < |t.puts| ==> PutKept(cs, t, t.puts[i]))
  {
    StartInv(cs, s);
    RunInv(cs, s, acts);
    var t := After(cs, s, acts);
    forall c | c in t.parcels && c.place.Answer?
      ensures InTime(cs, t, c)
    {
      var r :| r in t.readings && r.key == c.key && r.peers == c.peers;
      assert AliveAt(cs, t, r);
    }
  }

  /** Some node read exactly these records from its store while all were alive. */
  ghost predicate InTime(cs: seq<NodeConfig>, s: State, c: Parcel) {
    exists r :: r in s.readings && r.key == c.key && r.peers == c.peers && AliveAt(cs, s, r)
  }

  /** A PUT without the upload key to a node that has none. */
  function OpenPut(n: Node, k: Key): Action {
    ClientPut(n, k, 0, 0, 0, NoHeader, None)
  }

  /** The first PUT of every key carries an upload key in every run, if and only if
      every node has an upload key. */
  lemma FirstPutsAuthorised(cs: seq<NodeConfig>, s: State)
    requires Started(cs, s)
    ensures Protected(cs) <==>
            forall acts: seq<Action> :: Run(cs, s, acts) ==> FirstsAuthorised(cs, After(cs, s, acts).puts)
  {
    StartInv(cs, s);
    if Protected(cs) {
      forall acts: seq<Action> | Run(cs, s, acts)
        ensures FirstsAuthorised(cs, After(cs, s, acts).puts)
      {
        RunInv(cs, s, acts);
      }
    } else {
      var n: nat :| n < |cs| && cs[n].uploadKey == NoKey();
      var acts := [OpenPut(n, NoKey())];
      OpenRun(cs, s, n);
      assert Run(cs, s, acts) && !FirstsAuthorised(cs, After(cs, s, acts).puts);
    }
  }

  lemma OpenRun(cs: seq<NodeConfig>, s: State, n: Node)
    requires Started(cs, s) && n < |cs| && cs[n].uploadKey == NoKey()
    ensures var acts := [OpenPut(n, NoKey())];
            Run(cs, s, acts) && !FirstsAuthorised(cs, After(cs, s, acts).puts)
  {
    var a := OpenPut(n, NoKey());
    var acts := [a];
    assert acts[0] == a && acts[1..] == [];
    var t := Apply(cs, s, a);
    assert Run(cs, t, []) && After(cs, t, []) == t;
    assert FirstOf(t.puts, 0) && !Authorised(cs, t.puts[0]);
  }
}
