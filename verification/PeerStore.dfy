/** The expiring store of peer records (dht/peer_store.go). Time is an integer;
    the clock is read once for each record looked at. */
module PeerStores {
  import opened Keys
  import opened PeerRecords
  import opened Ranking

  type Store = map<Key, set<Peer>>

  datatype GetError = KeyNotFound | AllPeersDead

  datatype GetResult = Found(peers: seq<Peer>) | Missing(error: GetError)

  /** `clock(i)` is the time the clock shows when it is read for the i-th time. */
  type Clock = nat -> int

  ghost predicate GoesForward(clock: Clock) {
    forall i: nat, j: nat :: i <= j ==> clock(i) <= clock(j)
  }

  function Alive(peers: set<Peer>, expiry: int, now: int): (alive: set<Peer>)
    ensures alive <= peers
  {
    set p | p in peers && now <= p.published + expiry
  }

  /** What reading a set of records may leave of it, when the clock shows `start`
      before and `end` after: nothing alive goes, nothing dead stays. */
  predicate Kept(before: set<Peer>, after: set<Peer>, expiry: int, start: int, end: int) {
    Alive(before, expiry, end) <= after <= Alive(before, expiry, start)
  }

  predicate Once<T(==)>(s: seq<T>) {
    forall i, j :: 0 <= i < j < |s| ==> s[i] != s[j]
  }

  /** What reading every key leaves of a store: no key without records. */
  ghost predicate AllKept(before: Store, after: Store, expiry: int, start: int, end: int) {
    forall k :: if k in before then
                  Kept(before[k], Records(after, k), expiry, start, end) && (k in after ==> after[k] != {})
                else k !in after
  }

  function Records(s: Store, k: Key): set<Peer> {
    if k in s then s[k] else {}
  }

  /** Records added under a key. */
  function Added(s: Store, k: Key, peers: set<Peer>): Store {
    s[k := Records(s, k) + peers]
  }

  /** The records of a key replaced, the key dropped with the last of them. */
  function Replaced(s: Store, k: Key, peers: set<Peer>): Store {
    if peers == {} then s - {k} else s[k := peers]
  }

  /** The same while only the keys outside `left` have been read. */
  ghost predicate Walked(before: Store, now: Store, left: set<Key>, expiry: int, start: int, end: int) {
    && left <= before.Keys
    && (forall k :: k in left ==> k in now && now[k] == before[k])
    && forall k :: k !in left ==>
         if k in before then
           Kept(before[k], Records(now, k), expiry, start, end) && (k in now ==> now[k] != {})
         else k !in now
  }

  /** What is handed out: each key read that is still there, once. */
  ghost predicate HandedOut(pairs: seq<(Key, seq<Peer>)>, now: Store, left: set<Key>) {
    && |now| == |left| + |pairs|
    && (forall i, j :: 0 <= i < j < |pairs| ==> pairs[i].0 != pairs[j].0)
    && forall i :: 0 <= i < |pairs| ==>
         && pairs[i].0 in now && pairs[i].0 !in left
         && Elems(pairs[i].1) == now[pairs[i].0] && Once(pairs[i].1)
  }

  lemma NoneLeft(pairs: seq<(Key, seq<Peer>)>, now: Store, left: set<Key>, k: Key)
    requires HandedOut(pairs, now, left) && k in left && k in now
    ensures HandedOut(pairs, Replaced(now, k, {}), left - {k})
  {
    assert (now - {k}).Keys == now.Keys - {k};
    assert |now| == |now.Keys| && |now - {k}| == |(now - {k}).Keys|;
  }

  lemma SomeLeft(pairs: seq<(Key, seq<Peer>)>, now: Store, left: set<Key>, k: Key, peers: seq<Peer>)
    requires HandedOut(pairs, now, left) && k in left && k in now && Once(peers) && Elems(peers) != {}
    ensures HandedOut(pairs + [(k, peers)], Replaced(now, k, Elems(peers)), left - {k})
  {
    var next := now[k := Elems(peers)];
    assert next.Keys == now.Keys;
    assert |now| == |now.Keys| && |next| == |next.Keys|;
  }

  /** Reading the next key at a time from `mid` to `end`. */
  lemma WalkStep(before: Store, now: Store, left: set<Key>, k: Key, kept: set<Peer>, expiry: int,
                 start: int, mid: int, end: int)
    requires Walked(before, now, left, expiry, start, mid) && k in left && start <= mid <= end
    requires Kept(now[k], kept, expiry, mid, end)
    ensures Walked(before, Replaced(now, k, kept), left - {k}, expiry, start, end)
    ensures k in now
  {
    var next := Replaced(now, k, kept);
    forall key | key !in left - {k} && key in before
      ensures Kept(before[key], Records(next, key), expiry, start, end)
    {
      assert key == k || Kept(before[key], Records(now, key), expiry, start, mid);
    }
  }

  /** Reading again later only takes more away, and only what has died since. */
  lemma KeptTwice(a: set<Peer>, b: set<Peer>, c: set<Peer>, expiry: int, t: int, u: int, v: int, w: int)
    requires t <= u <= v <= w && Kept(a, b, expiry, t, u) && Kept(b, c, expiry, v, w)
    ensures Kept(a, c, expiry, v, w)
  {
  }

  lemma ElemsPlus<T>(s: seq<T>, x: T)
    ensures Elems(s + [x]) == Elems(s) + {x}
    ensures x !in Elems(s) <==> forall i :: 0 <= i < |s| ==> s[i] != x
  {
    assert x == (s + [x])[|s|];
    forall y | y in s + [x]
      ensures y in Elems(s) + {x}
    {
      var i :| 0 <= i < |s| + 1 && (s + [x])[i] == y;
    }
    forall y | y in s
      ensures y in s + [x]
    {
      var i :| 0 <= i < |s| && s[i] == y;
      assert (s + [x])[i] == y;
    }
  }

  class PeerStore {
    var data: Store
    const expiry: int

    constructor (expiry: int)
      ensures data == map[] && this.expiry == expiry
    {
      data := map[];
      this.expiry := expiry;
    }

    // Drops the records of `k` that have expired, in any order
    method Prune(k: Key, clock: Clock, tick: nat) returns (t: nat)
      requires k in data && GoesForward(clock)
      modifies this
      ensures t == tick + |old(data[k])|
      ensures k in data && data == old(data)[k := data[k]]
      ensures Kept(old(data[k]), data[k], expiry, clock(tick), clock(t))
    {
      var rest := data[k];
      t := tick;
      while rest != {}
        invariant tick <= t == tick + |old(data[k])| - |rest|
        invariant k in data && data == old(data)[k := data[k]]
        invariant rest <= data[k] <= old(data[k])
        invariant forall p :: p in data[k] && p !in rest ==> clock(tick) <= p.published + expiry
        invariant forall p :: p in old(data[k]) && p !in data[k] ==> p.published + expiry < clock(t)
      {
        var p :| p in rest;
        rest := rest - {p};
        assert clock(tick) <= clock(t) <= clock(t + 1);
        if clock(t) > p.published + expiry {
          data := data[k := data[k] - {p}];
        }
        t := t + 1;
      }
    }

    /** The records of a key that have not expired; the expired ones go, and the
        key with the last of them. */
    method Get(k: Key, clock: Clock, tick: nat) returns (r: GetResult, t: nat)
      requires GoesForward(clock)
      modifies this
      ensures t >= tick
      ensures k !in old(data) ==> r == Missing(KeyNotFound) && data == old(data)
      ensures k in old(data) ==>
                var kept := Records(data, k);
                && Kept(old(data[k]), kept, expiry, clock(tick), clock(t)) && data == Replaced(old(data), k, kept)
                && if kept == {} then r == Missing(AllPeersDead)
                   else r.Found? && Elems(r.peers) == kept && Once(r.peers)
    {
      if k !in data {
        return Missing(KeyNotFound), tick;
      }
      t := Prune(k, clock, tick);
      var kept := data[k];
      if kept == {} {
        data := data - {k};
        assert data == Replaced(old(data), k, kept);
        return Missing(AllPeersDead), t;
      }
      assert data == Replaced(old(data), k, kept);
      var peers, rest := [], kept;
      while rest != {}
        invariant rest <= kept && Elems(peers) == kept - rest && Once(peers)
        invariant data == Replaced(old(data), k, kept)
      {
        var p :| p in rest;
        ElemsPlus(peers, p);
        peers, rest := peers + [p], rest - {p};
      }
      return Found(peers), t;
    }

    /** Adds records under a key, which need not be there yet. */
    method Put(k: Key, peers: seq<Peer>)
      modifies this
      ensures data == Added(old(data), k, Elems(peers))
    {
      if k !in data {
        data := data[k := {}];
      }
      assert peers[..0] == [] && Elems(peers[..0]) == {};
      assert Records(data, k) == Records(old(data), k) + {};
      for i := 0 to |peers|
        invariant k in data && data == Added(old(data), k, Elems(peers[..i]))
      {
        assert peers[..i + 1] == peers[..i] + [peers[i]];
        ElemsPlus(peers[..i], peers[i]);
        assert Records(data, k) + {peers[i]} == Records(old(data), k) + Elems(peers[..i + 1]);
        data := data[k := data[k] + {peers[i]}];
      }
      assert peers[..|peers|] == peers;
    }

    method Delete(k: Key)
      modifies this
      ensures data == old(data) - {k}
    {
      data := data - {k};
    }

    /** Every key with its records, after dropping what has expired: the whole
        store, each key once. */
    method GetAll(clock: Clock, tick: nat) returns (pairs: seq<(Key, seq<Peer>)>, t: nat)
      requires GoesForward(clock)
      modifies this
      ensures t >= tick && AllKept(old(data), data, expiry, clock(tick), clock(t))
      ensures |pairs| == |data| && forall i, j :: 0 <= i < j < |pairs| ==> pairs[i].0 != pairs[j].0
      ensures forall i :: 0 <= i < |pairs| ==>
                pairs[i].0 in data && Elems(pairs[i].1) == data[pairs[i].0] && Once(pairs[i].1)
    {
      var keys := data.Keys;
      pairs, t := [], tick;
      while keys != {}
        invariant t >= tick && Walked(old(data), data, keys, expiry, clock(tick), clock(t))
        invariant HandedOut(pairs, data, keys)
      {
        var k :| k in keys;
        ghost var now, mid := data, t;
        var r;
        r, t := Get(k, clock, t);
        WalkStep(old(data), now, keys, k, Records(data, k), expiry, clock(tick), clock(mid), clock(t));
        if r.Found? {
          SomeLeft(pairs, now, keys, k, r.peers);
          pairs := pairs + [(k, r.peers)];
        } else {
          NoneLeft(pairs, now, keys, k);
        }
        keys := keys - {k};
      }
    }
  }
}
