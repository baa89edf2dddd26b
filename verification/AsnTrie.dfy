/** The routing trie from IPv4 prefixes to AS numbers (dht/asn.go). */
module AsnTries {
  import opened Keys
  import opened PeerRecords

  type Addr4 = s: seq<Byte> | |s| == 4 witness [0, 0, 0, 0]

  datatype Addr = V4(bytes: Addr4) | NotV4

  /** A prefix as the source sees it; an invalid one has -1 bits. */
  datatype Prefix = Prefix(addr: Addr, bits: int)

  predicate PrefixOk(p: Prefix) {
    -1 <= p.bits <= 32
  }

  /** The leading bits of an address, as the way down from the root. */
  datatype Path = Root | Down(up: Path, bit: bool)

  function Depth(p: Path): nat {
    if p.Root? then 0 else Depth(p.up) + 1
  }

  predicate Above(p: Path, q: Path) {
    p == q || (q.Down? && Above(p, q.up))
  }

  /** Bit `i`, the most significant first; the source panics from bit 32 on. */
  function BitAt(buf: Addr4, i: nat): bool
    requires i < 32
  {
    buf[i / 8] / Pow2(7 - i % 8) % 2 == 1
  }

  /** The first `n` bits of an address. */
  function PathOf(buf: Addr4, n: nat): (p: Path)
    requires n <= 32
  {
    if n == 0 then Root else Down(PathOf(buf, n - 1), BitAt(buf, n - 1))
  }

  lemma EmptyPath(buf: Addr4)
    ensures PathOf(buf, 0) == Root
  {
  }

  lemma {:induction false} PathDepth(buf: Addr4, n: nat)
    requires n <= 32
    ensures Depth(PathOf(buf, n)) == n
  {
    if n > 0 {
      PathDepth(buf, n - 1);
    }
  }

  lemma NextBit(buf: Addr4, n: nat)
    requires n < 32
    ensures PathOf(buf, n + 1) == Down(PathOf(buf, n), BitAt(buf, n))
  {
  }

  lemma {:induction false} AboveDepth(p: Path, q: Path)
    requires Above(p, q)
    ensures Depth(p) <= Depth(q) && (Depth(p) == Depth(q) ==> p == q)
  {
    if p != q {
      AboveDepth(p, q.up);
    }
  }

  lemma {:induction false} AboveTrans(p: Path, q: Path, r: Path)
    requires Above(p, q) && Above(q, r)
    ensures Above(p, r)
  {
    if q != r {
      AboveTrans(p, q, r.up);
    }
  }

  lemma {:induction false} AbovePath(p: Path, buf: Addr4, n: nat)
    requires n <= 32
    ensures Above(p, PathOf(buf, n)) <==> Depth(p) <= n && p == PathOf(buf, Depth(p))
  {
    PathDepth(buf, n);
    if n > 0 {
      AbovePath(p, buf, n - 1);
    }
  }

  // ----- the specification: the inserts so far

  /** Prefixes inserted, with their AS numbers, in order. */
  type History = seq<(Path, int)>

  /** The AS number last inserted for exactly these bits, zero if none. */
  function Latest(h: History, p: Path): int {
    if h == [] then 0
    else if h[|h| - 1].0 == p then h[|h| - 1].1
    else Latest(h[..|h| - 1], p)
  }

  ghost predicate Inserted(h: History, p: Path) {
    exists i :: 0 <= i < |h| && h[i].0 == p
  }

  /** Some inserted prefix is `p` or goes on from there. */
  ghost predicate Begins(h: History, p: Path) {
    exists i :: 0 <= i < |h| && Above(p, h[i].0)
  }

  lemma {:induction false} LatestInserted(h: History, p: Path)
    ensures Latest(h, p) != 0 ==> Inserted(h, p)
  {
    if h != [] && h[|h| - 1].0 != p {
      LatestInserted(h[..|h| - 1], p);
      if Latest(h, p) != 0 {
        var i :| 0 <= i < |h| - 1 && h[..|h| - 1][i].0 == p;
        assert h[i].0 == p;
      }
    }
  }

  lemma LatestGrows(h: History, p: Path, number: int, q: Path)
    ensures Latest(h + [(p, number)], q) == if q == p then number else Latest(h, q)
  {
    assert (h + [(p, number)])[..|h|] == h;
  }

  lemma InsertedBegins(h: History, p: Path)
    ensures Inserted(h, p) ==> Begins(h, p)
  {
    if Inserted(h, p) {
      var i :| 0 <= i < |h| && h[i].0 == p;
      assert Above(p, h[i].0);
    }
  }

  lemma BeginsShorter(h: History, p: Path, q: Path)
    requires Above(q, p)
    ensures Begins(h, p) ==> Begins(h, q)
  {
    if Begins(h, p) {
      var i :| 0 <= i < |h| && Above(p, h[i].0);
      AboveTrans(q, p, h[i].0);
    }
  }

  lemma BeginsGrows(h: History, p: Path, number: int, q: Path)
    ensures Begins(h + [(p, number)], q) <==> Begins(h, q) || Above(q, p)
  {
    var more := h + [(p, number)];
    if Begins(h, q) {
      var i :| 0 <= i < |h| && Above(q, h[i].0);
      assert more[i] == h[i];
    }
    if Above(q, p) {
      assert more[|h|].0 == p;
    }
  }

  /** `asn` is that of the longest inserted prefix of the address, of at most `n`
      bits, whose latest number is not zero. */
  ghost predicate LongestMatch(h: History, buf: Addr4, n: nat, asn: int, found: bool)
    requires n <= 32
  {
    if found then
      exists m: nat :: m <= n && asn == Latest(h, PathOf(buf, m)) != 0
        && forall k: nat :: m < k <= n ==> Latest(h, PathOf(buf, k)) == 0
    else
      asn == 0 && forall k: nat :: k <= n ==> Latest(h, PathOf(buf, k)) == 0
  }

  // ----- the paths that have a node

  /** The paths of the nodes are the beginnings of the inserted prefixes. */
  ghost predicate Reaches(nodes: set<Path>, h: History) {
    && (forall p :: p in nodes <==> p == Root || Begins(h, p))
    && (forall i :: 0 <= i < |h| ==> Depth(h[i].0) <= 32)
  }

  /** The nodes on the way to the first `n` bits of the address are added. */
  ghost predicate Grows(before: map<Path, TrieNode>, after: map<Path, TrieNode>, buf: Addr4, n: nat)
    requires n <= 32
  {
    && (forall q :: q in before ==> q in after && after[q] == before[q])
    && (forall q :: q in after <==> q in before || Above(q, PathOf(buf, n)))
  }

  lemma GrowsStart(nodes: map<Path, TrieNode>, buf: Addr4)
    requires Root in nodes
    ensures Grows(nodes, nodes, buf, 0)
  {
  }

  lemma GrowsKeeps(before: map<Path, TrieNode>, nodes: map<Path, TrieNode>, buf: Addr4, i: nat, q: Path)
    requires i <= 32 && Grows(before, nodes, buf, i)
    ensures q in before ==> q in nodes && nodes[q] == before[q]
  {
  }

  lemma GrowsStep(before: map<Path, TrieNode>, nodes: map<Path, TrieNode>, after: map<Path, TrieNode>, buf: Addr4,
                  i: nat, y: TrieNode)
    requires i < 32 && Grows(before, nodes, buf, i)
    requires var p := PathOf(buf, i + 1); after == if p in nodes then nodes else nodes[p := y]
    ensures Grows(before, after, buf, i + 1)
  {
    NextBit(buf, i);
    hide PathOf, BitAt;
  }

  lemma HistoryGrows(before: map<Path, TrieNode>, after: map<Path, TrieNode>, h: History, buf: Addr4, n: nat,
                     number: int)
    requires n <= 32 && Grows(before, after, buf, n) && Reaches(before.Keys, h)
    ensures Reaches(after.Keys, h + [(PathOf(buf, n), number)])
  {
    hide PathOf, Above, Begins;
    var p := PathOf(buf, n);
    PathDepth(buf, n);
    forall q
      ensures Begins(h + [(p, number)], q) <==> Begins(h, q) || Above(q, p)
    {
      BeginsGrows(h, p, number, q);
    }
  }

  /** Where there is no node, nothing was inserted. */
  lemma NoneBelow(nodes: set<Path>, h: History, q: Path)
    requires Reaches(nodes, h) && q !in nodes
    ensures !Begins(h, q) && !Inserted(h, q) && Latest(h, q) == 0
  {
    LatestInserted(h, q);
    InsertedBegins(h, q);
  }

  lemma NodeMeans(nodes: set<Path>, h: History, p: Path)
    requires Reaches(nodes, h)
    ensures p in nodes <==> p == Root || Begins(h, p)
  {
  }

  /** Past a missing node on the way of the address there is no node. */
  lemma NothingBelow(nodes: set<Path>, h: History, buf: Addr4, i: nat, n: nat)
    requires i <= n <= 32 && Reaches(nodes, h) && PathOf(buf, i) !in nodes
    ensures PathOf(buf, n) !in nodes
    ensures !Inserted(h, PathOf(buf, n)) && Latest(h, PathOf(buf, n)) == 0
  {
    hide Latest, Inserted;
    PathDepth(buf, i);
    AbovePath(PathOf(buf, i), buf, n);
    BeginsShorter(h, PathOf(buf, n), PathOf(buf, i));
    NoneBelow(nodes, h, PathOf(buf, n));
  }

  /** One longer prefix: its number, when it has one, takes over. */
  lemma MatchStep(h: History, buf: Addr4, i: nat, asn: int, found: bool)
    requires i <= 32
    requires if i == 0 then asn == 0 && !found else LongestMatch(h, buf, i - 1, asn, found)
    ensures var number := Latest(h, PathOf(buf, i));
            if number != 0 then LongestMatch(h, buf, i, number, true) else LongestMatch(h, buf, i, asn, found)
  {
    hide Latest, PathOf;
  }

  lemma MatchStops(nodes: set<Path>, h: History, buf: Addr4, i: nat, asn: int, found: bool)
    requires i < 32 && Reaches(nodes, h) && PathOf(buf, i + 1) !in nodes
    requires LongestMatch(h, buf, i, asn, found)
    ensures LongestMatch(h, buf, 32, asn, found) && !Inserted(h, PathOf(buf, 32))
  {
    hide Latest, PathOf, Reaches, Inserted;
    forall k | i < k <= 32
      ensures Latest(h, PathOf(buf, k)) == 0
    {
      NothingBelow(nodes, h, buf, i + 1, k);
    }
    NothingBelow(nodes, h, buf, i + 1, 32);
  }

  lemma WholeAddress(nodes: set<Path>, h: History, buf: Addr4)
    requires Reaches(nodes, h) && PathOf(buf, 32) in nodes
    ensures Inserted(h, PathOf(buf, 32))
  {
    var p := PathOf(buf, 32);
    PathDepth(buf, 32);
    var i :| 0 <= i < |h| && Above(p, h[i].0);
    AboveDepth(p, h[i].0);
  }

  // ----- the trie

  class TrieNode {
    var child0: TrieNode?
    var child1: TrieNode?
    var asn: int
    // On the root: the node at each path, and the inserts so far
    ghost var nodes: map<Path, TrieNode>
    ghost var history: History

    constructor ()
      ensures Valid() && history == [] && nodes == map[Root := this]
      ensures child0 == null && child1 == null && asn == 0
    {
      child0, child1, asn := null, null, 0;
      history := [];
      new;
      nodes := map[Root := this];
    }

    function Child(b: bool): TrieNode?
      reads this`child0, this`child1
    {
      if b then child1 else child0
    }

    /** Paths and nodes agree: a child hangs where its path is. */
    ghost predicate Shape()
      reads this`nodes, nodes.Values`child0, nodes.Values`child1
    {
      && Root in nodes && nodes[Root] == this
      && (forall p :: p in nodes && p.Down? ==> p.up in nodes)
      && (forall p, b :: p in nodes ==>
            nodes[p].Child(b) == if Down(p, b) in nodes then nodes[Down(p, b)] else null)
      && (forall p, q :: p in nodes && q in nodes && nodes[p] == nodes[q] ==> p == q)
    }

    /** Each node holds the number last inserted for its path. */
    ghost predicate Numbers()
      reads this, nodes.Values`asn
    {
      forall p :: p in nodes ==> nodes[p].asn == Latest(history, p)
    }

    /** The trie is its history, with nodes on the way to inserted prefixes only. */
    ghost predicate Valid()
      reads this, nodes.Values
    {
      Shape() && Numbers() && Reaches(nodes.Keys, history)
    }

    /** Nodes that are not at one of these paths hold no number. */
    ghost predicate Blank(before: set<Path>)
      reads this`nodes, nodes.Values`asn
    {
      forall q :: q in nodes && q !in before ==> nodes[q].asn == 0
    }

    lemma AtRoot()
      requires Shape()
      ensures Root in nodes && nodes[Root] == this
    {
    }

    lemma Apart(p: Path, q: Path)
      requires Shape() && p in nodes && q in nodes && p != q
      ensures nodes[p] != nodes[q]
    {
    }

    // The child is there when its path is
    lemma Below(p: Path, b: bool)
      requires Shape() && p in nodes
      ensures nodes[p].Child(b) == if Down(p, b) in nodes then nodes[Down(p, b)] else null
    {
    }

    lemma IsBlank(before: set<Path>, q: Path)
      requires Blank(before) && q in nodes && q !in before
      ensures nodes[q].asn == 0
    {
    }

    lemma Parts()
      requires Valid()
      ensures Shape() && Reaches(nodes.Keys, history)
      ensures forall p :: p in nodes ==> nodes[p].asn == Latest(history, p)
    {
    }

    lemma Whole()
      requires Shape() && Reaches(nodes.Keys, history)
      requires forall p :: p in nodes ==> nodes[p].asn == Latest(history, p)
      ensures Valid()
    {
    }

    // Hangs a new node below `x`, the node at `p`
    method AddChild(ghost p: Path, x: TrieNode, b: bool) returns (y: TrieNode)
      requires Shape() && p in nodes && nodes[p] == x && Down(p, b) !in nodes
      modifies this`nodes, x`child0, x`child1
      ensures Shape() && nodes == old(nodes)[Down(p, b) := y]
      ensures fresh(y) && y.asn == 0
    {
      hide Reaches, Latest, Valid, Numbers, Blank;
      forall q | q in nodes && q != p
        ensures nodes[q] != x
      {
        Apart(q, p);
      }
      y := new TrieNode();
      if b {
        x.child1 := y;
      } else {
        x.child0 := y;
      }
      nodes := nodes[Down(p, b) := y];
    }

    // The step of the loop of Insert: the child on the path, added when missing
    method Enter(ghost before: map<Path, TrieNode>, buf: Addr4, i: nat, x: TrieNode) returns (y: TrieNode?)
      requires i < 32 && Shape() && PathOf(buf, i) in nodes && nodes[PathOf(buf, i)] == x
      requires Grows(before, nodes, buf, i) && Blank(before.Keys)
      modifies this`nodes, x`child0, x`child1
      ensures Shape() && y != null && PathOf(buf, i + 1) in nodes && nodes[PathOf(buf, i + 1)] == y
      ensures Grows(before, nodes, buf, i + 1) && Blank(before.Keys)
      ensures y in nodes.Values && nodes.Values <= old(nodes.Values) + {y}
      ensures y in old(nodes.Values) || fresh(y)
    {
      ghost var was := nodes;
      NextBit(buf, i);
      Below(PathOf(buf, i), BitAt(buf, i));
      hide Shape, Grows, PathOf, BitAt;
      y := x.Child(BitAt(buf, i));
      if y == null {
        y := AddChild(PathOf(buf, i), x, BitAt(buf, i));
      }
      GrowsStep(before, was, nodes, buf, i, y);
      assert y == nodes[PathOf(buf, i + 1)];
    }

    // The loop of Insert: walks down `n` bits, adding the nodes that are missing
    method Descend(buf: Addr4, n: nat) returns (x: TrieNode)
      requires Shape() && n <= 32
      modifies this`nodes, nodes.Values`child0, nodes.Values`child1
      ensures Shape() && PathOf(buf, n) in nodes && x == nodes[PathOf(buf, n)]
      ensures Grows(old(nodes), nodes, buf, n)
      ensures Blank(old(nodes.Keys)) && fresh(nodes.Values - old(nodes.Values))
    {
      AtRoot();
      GrowsStart(nodes, buf);
      assert Blank(nodes.Keys);
      hide *;
      x := this;
      for i := 0 to n
        invariant Shape() && PathOf(buf, i) in nodes && x == nodes[PathOf(buf, i)] && x in nodes.Values
        invariant Grows(old(nodes), nodes, buf, i)
        invariant Blank(old(nodes.Keys)) && fresh(nodes.Values - old(nodes.Values))
      {
        x := Enter(old(nodes), buf, i, x);
      }
    }

    // The last step of Insert
    method Mark(ghost p: Path, x: TrieNode, number: int)
      requires Shape() && p in nodes && nodes[p] == x
      requires Reaches(nodes.Keys, history + [(p, number)])
      requires forall q :: q in nodes && q != p ==> nodes[q].asn == Latest(history, q)
      modifies this`history, x`asn
      ensures Valid() && history == old(history) + [(p, number)]
    {
      hide *;
      forall q | q in nodes
        ensures nodes[q] != x || q == p
        ensures q != p ==> Latest(history + [(p, number)], q) == nodes[q].asn
        ensures Latest(history + [(p, number)], p) == number
      {
        if q != p {
          Apart(q, p);
        }
        LatestGrows(history, p, number, q);
        LatestGrows(history, p, number, p);
      }
      x.asn := number;
      history := history + [(p, number)];
      Whole();
    }

    /** Sets the AS number of a prefix, adding the nodes on the way to it. Fails
        for an address that is not IPv4. A prefix of -1 bits is taken for one of
        none. */
    method Insert(prefix: Prefix, number: int) returns (ok: bool)
      requires Valid() && PrefixOk(prefix)
      modifies this, nodes.Values
      ensures Valid() && fresh(nodes.Values - old(nodes.Values))
      ensures ok <==> prefix.addr.V4?
      ensures ok ==> history == old(history) +
                     [(PathOf(prefix.addr.bytes, if prefix.bits < 0 then 0 else prefix.bits), number)]
      ensures !ok ==> history == old(history)
    {
      if !prefix.addr.V4? {
        return false;
      }
      hide *;
      Parts();
      var n := if prefix.bits < 0 then 0 else prefix.bits;
      ghost var before := nodes;
      var x := Descend(prefix.addr.bytes, n);
      HistoryGrows(before, nodes, history, prefix.addr.bytes, n, number);
      forall q | q in nodes
        ensures nodes[q].asn == Latest(history, q)
      {
        if q in before {
          GrowsKeeps(before, nodes, prefix.addr.bytes, n, q);
        } else {
          NoneBelow(before.Keys, history, q);
          IsBlank(before.Keys, q);
        }
      }
      assert x in nodes.Values;
      Mark(PathOf(prefix.addr.bytes, n), x, number);
      return true;
    }

    // One step of the walks of Find and Match: the child on the way, if any
    method Next(buf: Addr4, i: nat, x: TrieNode) returns (y: TrieNode?)
      requires i < 32 && Shape() && PathOf(buf, i) in nodes && x == nodes[PathOf(buf, i)]
      ensures y == if PathOf(buf, i + 1) in nodes then nodes[PathOf(buf, i + 1)] else null
    {
      hide Shape;
      NextBit(buf, i);
      Below(PathOf(buf, i), BitAt(buf, i));
      y := x.Child(BitAt(buf, i));
    }

    /** The number of exactly this prefix, found when it or a longer one was
        inserted. */
    method Find(buf: Addr4, bits: int) returns (number: int, found: bool)
      requires Valid() && bits <= 32
      ensures var p := PathOf(buf, if bits < 0 then 0 else bits);
              && (found <==> p == Root || Begins(history, p))
              && number == Latest(history, p)
    {
      hide *;
      Parts();
      AtRoot();
      EmptyPath(buf);
      var x := this;
      var n := if bits < 0 then 0 else bits;
      NodeMeans(nodes.Keys, history, PathOf(buf, n));
      for i := 0 to n
        invariant PathOf(buf, i) in nodes && x == nodes[PathOf(buf, i)]
      {
        var y := Next(buf, i, x);
        if y == null {
          NothingBelow(nodes.Keys, history, buf, i + 1, n);
          return 0, false;
        }
        x := y;
      }
      return x.asn, true;
    }

    /** The number of the longest inserted prefix of the address; a panic when
        some inserted prefix is the whole address, as the walk then asks for a
        bit past the last. */
    method Match(buf: Addr4) returns (answer: Option<(int, bool)>)
      requires Valid()
      ensures answer.None? <==> Inserted(history, PathOf(buf, 32))
      ensures answer.Some? ==> LongestMatch(history, buf, 32, answer.value.0, answer.value.1)
    {
      hide *;
      Parts();
      AtRoot();
      EmptyPath(buf);
      var x := this;
      var i, asn, found := 0, 0, false;
      while true
        invariant i <= 32
        invariant PathOf(buf, i) in nodes && x == nodes[PathOf(buf, i)]
        invariant if i == 0 then asn == 0 && !found else LongestMatch(history, buf, i - 1, asn, found)
        decreases 32 - i
      {
        MatchStep(history, buf, i, asn, found);
        if x.asn != 0 {
          asn, found := x.asn, true;
        }
        if i == 32 {
          // The index of the bit is out of range
          WholeAddress(nodes.Keys, history, buf);
          return None;
        }
        var y := Next(buf, i, x);
        if y == null {
          MatchStops(nodes.Keys, history, buf, i, asn, found);
          return Some((asn, found));
        }
        x := y;
        i := i + 1;
      }
    }
  }

  // ----- what the bits mean

  /** An address and a prefix agree when dividing by the size of the block gives
      the same number: the classless blocks of RFC 4632. */
  lemma {:induction false} SameBits(a: Addr4, b: Addr4, n: nat)
    requires n <= 32
    ensures PathOf(a, n) == PathOf(b, n) <==> Value(a) / Pow2(32 - n) == Value(b) / Pow2(32 - n)
  {
    hide Value, Pow2, BitAt;
    if n == 0 {
      BlockOfAll(a);
      BlockOfAll(b);
    } else {
      SameBits(a, b, n - 1);
      NextBlock(a, n - 1);
      NextBlock(b, n - 1);
    }
  }

  lemma BlockOfAll(a: Addr4)
    ensures Value(a) / Pow2(32) == 0
  {
    ValueBound(a);
    Pow256IsPow2(4);
  }

  /** Halving a block: the next bit says which half. */
  lemma NextBlock(a: Addr4, n: nat)
    requires n < 32
    ensures Value(a) / Pow2(31 - n) == 2 * (Value(a) / Pow2(32 - n)) + if BitAt(a, n) then 1 else 0
  {
    var x, p := Value(a), Pow2(31 - n);
    assert Pow2(32 - n) == 2 * p;
    DivDiv(x, p, 2);
    BitIsDigit(a, n);
  }

  /** The bit the source reads from its byte is the digit of the whole number. */
  lemma BitIsDigit(a: Addr4, n: nat)
    requires n < 32
    ensures Value(a) / Pow2(31 - n) % 2 == 1 <==> BitAt(a, n)
  {
    var q, r := n / 8, n % 8;
    Pow2Sum(3 - q, 7 - r);
    assert 31 - n == 8 * (3 - q) + (7 - r);
    DivDiv(Value(a), Pow256(3 - q), Pow2(7 - r));
    ByteOf(a, q);
    DigitOfByte(Value(a[..q]), a[q], r);
  }

  lemma ByteOf(a: Addr4, q: nat)
    requires q < 4
    ensures Value(a) / Pow256(3 - q) == 256 * Value(a[..q]) + a[q]
    decreases 4 - q
  {
    if q == 3 {
    } else {
      ByteOf(a, q + 1);
      assert a[..q + 1][..q] == a[..q];
      assert Value(a[..q + 1]) == 256 * Value(a[..q]) + a[q];
      DivDiv(Value(a), Pow256(2 - q), 256);
    }
  }

  lemma Pow2Sum(m: nat, j: nat)
    ensures Pow2(8 * m + j) == Pow256(m) * Pow2(j)
  {
    if j == 0 {
      Pow256IsPow2(m);
    } else {
      Pow2Sum(m, j - 1);
      MulAssoc(2, Pow256(m), Pow2(j - 1));
    }
  }

  lemma DigitOfByte(high: nat, b: Byte, r: nat)
    requires r < 8
    ensures (256 * high + b) / Pow2(7 - r) % 2 == b / Pow2(7 - r) % 2
  {
    Pow2Split(r);
    DigitAt(high, b, Pow2(7 - r), Pow2(r));
  }

  lemma DigitAt(high: nat, b: nat, d: nat, e: nat)
    requires 2 * e * d == 256
    ensures d > 0 && (256 * high + b) / d % 2 == b / d % 2
  {
    var k := e * high;
    WholeTurns(high, d, e);
    ShiftDigit(256 * high, b, d, 2 * k);
    EvenPlus(k, b / d);
  }

  lemma ShiftDigit(x: nat, b: nat, d: nat, m: nat)
    requires d > 0 && x == m * d
    ensures (x + b) / d == m + b / d
  {
    Distribute(m, b / d, d);
    DivUnique(x + b, d, m + b / d, b % d);
  }

  lemma WholeTurns(high: nat, d: nat, e: nat)
    requires 2 * e * d == 256
    ensures 2 * (e * high) * d == 256 * high
  {
    MulAssoc(2 * e, high, d);
    assert 2 * (e * high) == high * (2 * e);
  }

  lemma EvenPlus(k: nat, m: nat)
    ensures (2 * k + m) % 2 == m % 2
  {
  }

  lemma Pow2Split(r: nat)
    requires r < 8
    ensures 2 * Pow2(r) * Pow2(7 - r) == 256
  {
    if r == 7 {
    } else if r == 6 {
    } else if r == 5 {
    } else if r == 4 {
    } else if r == 3 {
    } else if r == 2 {
    } else if r == 1 {
    } else {
    }
  }
}
