/** The JSON of nodes and inodes (merkle/node.go, merkle/link.go, fs/inode.go) as
    encoding/json of Go 1.22 writes it, and a reader of what it writes. */
module JsonCodecs {
  import opened Keys
  import opened PeerRecords
  import opened Merkle

  // ----- bytes of fixed text

  predicate IsAscii(s: string) {
    forall i :: 0 <= i < |s| ==> s[i] as int < 128
  }

  function Ascii(s: string): (b: Bytes)
    requires IsAscii(s)
    ensures |b| == |s|
  {
    seq(|s|, i requires 0 <= i < |s| => s[i] as int)
  }

  /** What follows `p`, if `b` begins with it. */
  function Past(p: Bytes, b: Bytes): Option<Bytes> {
    if |p| <= |b| && b[..|p|] == p then Some(b[|p|..]) else None
  }

  lemma PastJoin(p: Bytes, x: Bytes)
    ensures Past(p, p + x) == Some(x)
  {
  }

  // ----- characters

  const QUOTE: Byte := 34
  const BACKSLASH: Byte := 92

  /** A lower-case hexadecimal digit. */
  function Hex(n: nat): Byte
    requires n < 16
  {
    if n < 10 then 48 + n else 87 + n
  }

  function HexValue(b: Byte): (n: nat)
    ensures n <= 16
  {
    if 48 <= b < 58 then b - 48 else if 97 <= b < 103 then b - 87 else 16
  }

  /** The six bytes of an escape by number. */
  function Escaped(n: nat): Bytes
    requires n < 0x1_0000
  {
    [BACKSLASH, 117, Hex(n / 4096), Hex(n / 256 % 16), Hex(n / 16 % 16), Hex(n % 16)]
  }

  /** UTF-8 (section 3 of RFC 3629). */
  function Utf8(n: nat): (b: Bytes)
    requires n < 0x11_0000
    ensures 1 <= |b| <= 4
  {
    if n < 0x80 then [n]
    else if n < 0x800 then [0xC0 + n / 64, 0x80 + n % 64]
    else if n < 0x1_0000 then [0xE0 + n / 4096, 0x80 + n / 64 % 64, 0x80 + n % 64]
    else [0xF0 + n / 0x4_0000, 0x80 + n / 4096 % 64, 0x80 + n / 64 % 64, 0x80 + n % 64]
  }

  /** The letter after the backslash in a short escape. */
  function Short(n: nat): Option<Byte> {
    if n == 34 || n == 92 then Some(n)
    else if n == 8 then Some(98)
    else if n == 9 then Some(116)
    else if n == 10 then Some(110)
    else if n == 12 then Some(102)
    else if n == 13 then Some(114)
    else None
  }

  /** Control characters, those with a meaning in HTML, and two line separators. */
  predicate ByNumber(n: nat) {
    n < 32 || n == 38 || n == 60 || n == 62 || n == 0x2028 || n == 0x2029
  }

  function CharJson(c: char): (b: Bytes)
    ensures 1 <= |b| <= 6
  {
    var n := c as int;
    if Short(n).Some? then [BACKSLASH, Short(n).value]
    else if ByNumber(n) then Escaped(n)
    else Utf8(n)
  }

  /** A number that is a character. */
  predicate IsScalar(n: int) {
    0 <= n < 0xD800 || 0xE000 <= n < 0x11_0000
  }

  function Unshort(b: Byte): Option<char> {
    if b == 34 then Some('\"')
    else if b == 92 then Some('\\')
    else if b == 98 then Some(8 as char)
    else if b == 116 then Some('\t')
    else if b == 110 then Some('\n')
    else if b == 102 then Some(12 as char)
    else if b == 114 then Some('\r')
    else None
  }

  /** A character and what follows it. */
  function Char(n: int, rest: Bytes): (r: Option<(char, Bytes)>)
    ensures r.Some? ==> r.value.1 == rest
  {
    if IsScalar(n) then Some((n as char, rest)) else None
  }

  function ReadEscape(b: Bytes): (r: Option<(char, Bytes)>)
    requires |b| >= 2
    ensures r.Some? ==> |r.value.1| < |b|
  {
    if Unshort(b[1]).Some? then Some((Unshort(b[1]).value, b[2..]))
    else if b[1] == 117 && |b| >= 6 && (forall i :: 2 <= i < 6 ==> HexValue(b[i]) < 16) then
      Char(HexValue(b[2]) * 4096 + HexValue(b[3]) * 256 + HexValue(b[4]) * 16 + HexValue(b[5]), b[6..])
    else None
  }

  function Less(b: int, mark: int): int {
    b - mark
  }

  function ReadUtf8(b: Bytes): (r: Option<(char, Bytes)>)
    requires b != []
    ensures r.Some? ==> |r.value.1| < |b|
  {
    if b[0] < 0x80 then Char(b[0], b[1..])
    else if b[0] < 0xE0 then
      if |b| < 2 then None else Char(Less(b[0], 0xC0) * 64 + Less(b[1], 0x80), b[2..])
    else if b[0] < 0xF0 then
      if |b| < 3 then None
      else Char(Less(b[0], 0xE0) * 4096 + Less(b[1], 0x80) * 64 + Less(b[2], 0x80), b[3..])
    else
      if |b| < 4 then None
      else Char(Less(b[0], 0xF0) * 0x4_0000 + Less(b[1], 0x80) * 4096 + Less(b[2], 0x80) * 64 + Less(b[3], 0x80),
                b[4..])
  }

  function ReadChar(b: Bytes): (r: Option<(char, Bytes)>)
    ensures r.Some? ==> |r.value.1| < |b|
  {
    if b == [] then None
    else if b[0] == BACKSLASH then (if |b| < 2 then None else ReadEscape(b))
    else ReadUtf8(b)
  }

  lemma HexInverts(n: nat)
    requires n < 16
    ensures HexValue(Hex(n)) == n
  {
  }

  lemma Digits(n: nat)
    requires n < 0x1_0000
    ensures n / 4096 < 16 && n == n / 4096 * 4096 + n / 256 % 16 * 256 + n / 16 % 16 * 16 + n % 16
  {
    var h := n / 16;
    assert n == h * 16 + n % 16 && n / 256 == h / 16 && n / 4096 == h / 256;
    var g := h / 16;
    assert h == g * 16 + h % 16 && h / 256 == g / 16;
    assert g == g / 16 * 16 + g % 16;
  }

  lemma Sextets(n: nat)
    ensures n == n / 64 * 64 + n % 64
    ensures n == n / 4096 * 4096 + n / 64 % 64 * 64 + n % 64
    ensures n == n / 0x4_0000 * 0x4_0000 + n / 4096 % 64 * 4096 + n / 64 % 64 * 64 + n % 64
  {
    var h := n / 64;
    assert n == h * 64 + n % 64 && n / 4096 == h / 64;
    var g := h / 64;
    assert h == g * 64 + h % 64 && n / 0x4_0000 == g / 64;
    assert g == g / 64 * 64 + g % 64;
  }

  lemma EscapeReads(n: nat, x: Bytes)
    requires n < 0x1_0000 && IsScalar(n)
    ensures ReadEscape(Escaped(n) + x) == Some((n as char, x))
  {
    Digits(n);
    var b := Escaped(n) + x;
    HexInverts(n / 4096);
    HexInverts(n / 256 % 16);
    HexInverts(n / 16 % 16);
    HexInverts(n % 16);
    hide Hex, HexValue;
    assert b[2] == Hex(n / 4096) && b[3] == Hex(n / 256 % 16) && b[4] == Hex(n / 16 % 16) && b[5] == Hex(n % 16);
    assert b[6..] == x;
  }

  lemma Utf8Reads(n: nat, x: Bytes)
    requires IsScalar(n)
    ensures ReadUtf8(Utf8(n) + x) == Some((n as char, x))
  {
    Sextets(n);
    var u := Utf8(n);
    assert (u + x)[|u|..] == x && forall i :: 0 <= i < |u| ==> (u + x)[i] == u[i];
  }

  lemma CharReads(c: char, x: Bytes)
    ensures CharJson(c)[0] != QUOTE && ReadChar(CharJson(c) + x) == Some((c, x))
  {
    var n := c as int;
    if Short(n).Some? {
      assert (CharJson(c) + x)[2..] == x;
    } else if ByNumber(n) {
      EscapeReads(n, x);
    } else {
      Utf8Reads(n, x);
    }
  }

  // ----- text

  /** Text up to and with the closing quote. */
  function TextJson(s: string): Bytes {
    if s == "" then [QUOTE] else CharJson(s[0]) + TextJson(s[1..])
  }

  function ReadText(b: Bytes): (r: Option<(string, Bytes)>)
    ensures r.Some? ==> |r.value.1| < |b|
    decreases |b|
  {
    if b == [] then None
    else if b[0] == QUOTE then Some(("", b[1..]))
    else
      match ReadChar(b)
      case None => None
      case Some((c, rest)) =>
        match ReadText(rest)
        case None => None
        case Some((s, more)) => Some(([c] + s, more))
  }

  lemma {:induction false} TextReads(s: string, x: Bytes)
    ensures ReadText(TextJson(s) + x) == Some((s, x))
    ensures |TextJson(s)| <= 6 * |s| + 1
  {
    hide CharJson, ReadChar;
    if s != "" {
      var rest := TextJson(s[1..]) + x;
      CharReads(s[0], rest);
      TextReads(s[1..], x);
      assert TextJson(s) + x == CharJson(s[0]) + rest;
      assert (CharJson(s[0]) + rest)[0] == CharJson(s[0])[0];
      assert s == [s[0]] + s[1..];
    }
  }

  // ----- base64 (section 4 of RFC 4648)

  const PAD: Byte := 61

  /** The symbol of six bits. */
  function Symbol(n: nat): Byte
    requires n < 64
  {
    if n < 26 then 65 + n
    else if n < 52 then 71 + n
    else if n < 62 then n - 4
    else if n == 62 then 43
    else 47
  }

  function Unsymbol(b: Byte): (n: nat)
    ensures n <= 64
  {
    if 65 <= b < 91 then b - 65
    else if 97 <= b < 123 then b - 71
    else if 48 <= b < 58 then b + 4
    else if b == 43 then 62
    else if b == 47 then 63
    else 64
  }

  lemma SymbolInverts(n: nat)
    requires n < 64
    ensures Unsymbol(Symbol(n)) == n && Symbol(n) != QUOTE && Symbol(n) != PAD
  {
  }

  function LastOne(d: Byte): (q: Bytes)
    ensures |q| == 4
  {
    [Symbol(d / 4), Symbol(d % 4 * 16), PAD, PAD]
  }

  function LastTwo(d: Byte, e: Byte): (q: Bytes)
    ensures |q| == 4
  {
    [Symbol(d / 4), Symbol(d % 4 * 16 + e / 16), Symbol(e % 16 * 4), PAD]
  }

  function Quad(d: Byte, e: Byte, f: Byte): (q: Bytes)
    ensures |q| == 4
  {
    [Symbol(d / 4), Symbol(d % 4 * 16 + e / 16), Symbol(e % 16 * 4 + f / 64), Symbol(f % 64)]
  }

  function Base64(d: Bytes): (b: Bytes)
    ensures |b| == Base64Length(|d|)
  {
    if d == [] then []
    else if |d| == 1 then LastOne(d[0])
    else if |d| == 2 then LastTwo(d[0], d[1])
    else Quad(d[0], d[1], d[2]) + Base64(d[3..])
  }

  /** The bytes of four symbols. */
  function First(v: nat, w: nat): Byte
    requires v < 64 && w < 64
  {
    v * 4 + w / 16
  }

  function Second(w: nat, x: nat): Byte
    requires w < 64 && x < 64
  {
    w % 16 * 16 + x / 4
  }

  function Third(x: nat, y: nat): Byte
    requires x < 64 && y < 64
  {
    x % 4 * 64 + y
  }

  /** Base64 up to and with the closing quote. */
  function ReadBase64(b: Bytes): (r: Option<(Bytes, Bytes)>)
    decreases |b|
  {
    if b == [] then None
    else if b[0] == QUOTE then Some(([], b[1..]))
    else if |b| < 5 then None
    else
      var v, w, x, y := Unsymbol(b[0]), Unsymbol(b[1]), Unsymbol(b[2]), Unsymbol(b[3]);
      if v == 64 || w == 64 then None
      else if b[2] == PAD && b[3] == PAD then
        if b[4] == QUOTE then Some(([First(v, w)], b[5..])) else None
      else if x == 64 then None
      else if b[3] == PAD then
        if b[4] == QUOTE then Some(([First(v, w), Second(w, x)], b[5..])) else None
      else if y == 64 then None
      else
        match ReadBase64(b[4..])
        case None => None
        case Some((d, rest)) => Some(([First(v, w), Second(w, x), Third(x, y)] + d, rest))
  }

  lemma OneReads(d: Byte, x: Bytes)
    ensures ReadBase64(Base64([d]) + [QUOTE] + x) == Some(([d], x))
  {
    var b := Base64([d]) + [QUOTE] + x;
    SymbolInverts(d / 4);
    SymbolInverts(d % 4 * 16);
    assert b == [Symbol(d / 4), Symbol(d % 4 * 16), PAD, PAD, QUOTE] + x;
    assert First(d / 4, d % 4 * 16) == d;
    hide Symbol, Unsymbol;
    assert b[5..] == x;
  }

  lemma TwoReads(d: Byte, e: Byte, x: Bytes)
    ensures ReadBase64(Base64([d, e]) + [QUOTE] + x) == Some(([d, e], x))
  {
    var b := Base64([d, e]) + [QUOTE] + x;
    SymbolInverts(d / 4);
    SymbolInverts(d % 4 * 16 + e / 16);
    SymbolInverts(e % 16 * 4);
    assert b == [Symbol(d / 4), Symbol(d % 4 * 16 + e / 16), Symbol(e % 16 * 4), PAD, QUOTE] + x;
    assert First(d / 4, d % 4 * 16 + e / 16) == d && Second(d % 4 * 16 + e / 16, e % 16 * 4) == e;
    hide Symbol, Unsymbol;
    assert b[5..] == x;
  }

  lemma FourRead(v: nat, w: nat, x: nat, y: nat, rest: Bytes)
    requires v < 64 && w < 64 && x < 64 && y < 64 && rest != []
    ensures ReadBase64([Symbol(v), Symbol(w), Symbol(x), Symbol(y)] + rest) ==
            match ReadBase64(rest)
            case None => None
            case Some((more, end)) => Some(([First(v, w), Second(w, x), Third(x, y)] + more, end))
  {
    SymbolInverts(v);
    SymbolInverts(w);
    SymbolInverts(x);
    SymbolInverts(y);
    hide Symbol, Unsymbol, First, Second, Third;
    var b := [Symbol(v), Symbol(w), Symbol(x), Symbol(y)] + rest;
    assert b[4..] == rest && |b| >= 5;
    assert b[0] == Symbol(v) && b[1] == Symbol(w) && b[2] == Symbol(x) && b[3] == Symbol(y);
  }

  lemma ThreeRead(d: Byte, e: Byte, f: Byte, rest: Bytes)
    requires rest != []
    ensures ReadBase64(Quad(d, e, f) + rest) ==
            match ReadBase64(rest)
            case None => None
            case Some((more, x)) => Some(([d, e, f] + more, x))
  {
    hide ReadBase64, Symbol;
    Joined(d, e, f);
    FourRead(d / 4, d % 4 * 16 + e / 16, e % 16 * 4 + f / 64, f % 64, rest);
  }

  lemma Joined(d: Byte, e: Byte, f: Byte)
    ensures First(d / 4, d % 4 * 16 + e / 16) == d
    ensures Second(d % 4 * 16 + e / 16, e % 16 * 4 + f / 64) == e
    ensures Third(e % 16 * 4 + f / 64, f % 64) == f
  {
  }

  lemma LongUnfolds(d: Bytes)
    requires |d| >= 3
    ensures Base64(d) == Quad(d[0], d[1], d[2]) + Base64(d[3..])
  {
    hide Quad, LastOne, LastTwo, Symbol;
  }

  lemma LongBase64(d: Bytes, x: Bytes)
    requires |d| >= 3
    ensures Base64(d) + [QUOTE] + x == Quad(d[0], d[1], d[2]) + (Base64(d[3..]) + [QUOTE] + x)
  {
    hide Base64, Quad;
    LongUnfolds(d);
    JoinEnd(Quad(d[0], d[1], d[2]), Base64(d[3..]), [QUOTE], x);
  }

  lemma JoinEnd(p: Bytes, q: Bytes, r: Bytes, x: Bytes)
    ensures p + q + r + x == p + (q + r + x)
  {
  }

  lemma {:induction false} Base64Reads(d: Bytes, x: Bytes)
    ensures ReadBase64(Base64(d) + [QUOTE] + x) == Some((d, x))
  {
    if |d| >= 3 {
      LongBase64(d, x);
      Base64Reads(d[3..], x);
      ThreeRead(d[0], d[1], d[2], Base64(d[3..]) + [QUOTE] + x);
      hide ReadBase64, Base64, Quad;
      assert d == [d[0], d[1], d[2]] + d[3..];
    } else if |d| == 2 {
      assert d == [d[0], d[1]];
      hide ReadBase64, Base64;
      TwoReads(d[0], d[1], x);
    } else if |d| == 1 {
      assert d == [d[0]];
      hide ReadBase64, Base64;
      OneReads(d[0], x);
    } else {
      assert Base64(d) + [QUOTE] + x == [QUOTE] + x;
    }
  }

  // ----- links

  const NAME: string := "{\"name\":\""
  const CID: string := ",\"cid\":\""

  function LinkJson(l: Link): Bytes {
    Ascii(NAME) + TextJson(l.name) + Ascii(CID) + TextJson(l.cid) + Ascii("}")
  }

  /** The links after the first, and the end of the list. */
  function MoreJson(links: seq<Link>): Bytes {
    if links == [] then Ascii("]") else Ascii(",") + LinkJson(links[0]) + MoreJson(links[1..])
  }

  function LinksJson(links: seq<Link>): Bytes {
    if links == [] then Ascii("]") else LinkJson(links[0]) + MoreJson(links[1..])
  }

  function Then<T>(r: Option<(T, Bytes)>, p: Bytes): (t: Option<(T, Bytes)>)
    ensures t.Some? ==> r.Some? && |t.value.1| <= |r.value.1|
  {
    match r
    case None => None
    case Some((v, b)) =>
      match Past(p, b)
      case None => None
      case Some(rest) => Some((v, rest))
  }

  function ReadLink(b: Bytes): (r: Option<(Link, Bytes)>)
    ensures r.Some? ==> |r.value.1| < |b|
  {
    match Past(Ascii(NAME), b)
    case None => None
    case Some(b1) =>
      match Then(ReadText(b1), Ascii(CID))
      case None => None
      case Some((name, b2)) =>
        match Then(ReadText(b2), Ascii("}"))
        case None => None
        case Some((cid, rest)) => Some((Link(name, cid), rest))
  }

  function ReadMore(b: Bytes): (r: Option<(seq<Link>, Bytes)>)
    decreases |b|, 0
  {
    if Past(Ascii("]"), b).Some? then Some(([], Past(Ascii("]"), b).value))
    else
      match Past(Ascii(","), b)
      case None => None
      case Some(rest) => ReadFirst(rest)
  }

  function ReadFirst(b: Bytes): (r: Option<(seq<Link>, Bytes)>)
    decreases |b|, 1
  {
    match ReadLink(b)
    case None => None
    case Some((l, rest)) =>
      match ReadMore(rest)
      case None => None
      case Some((links, more)) => Some(([l] + links, more))
  }

  function ReadLinks(b: Bytes): (r: Option<(seq<Link>, Bytes)>) {
    if Past(Ascii("]"), b).Some? then Some(([], Past(Ascii("]"), b).value)) else ReadFirst(b)
  }

  lemma TextThen(s: string, p: Bytes, x: Bytes)
    ensures Then(ReadText(TextJson(s) + (p + x)), p) == Some((s, x))
  {
    TextReads(s, p + x);
    PastJoin(p, x);
  }

  lemma LinkReads(l: Link, x: Bytes)
    ensures ReadLink(LinkJson(l) + x) == Some((l, x))
  {
    hide Ascii, TextJson, ReadText, Past, Then;
    var b2 := TextJson(l.cid) + (Ascii("}") + x);
    var b1 := TextJson(l.name) + (Ascii(CID) + b2);
    assert LinkJson(l) + x == Ascii(NAME) + b1;
    PastJoin(Ascii(NAME), b1);
    TextThen(l.name, Ascii(CID), b2);
    TextThen(l.cid, Ascii("}"), x);
  }

  lemma FirstByte(p: Bytes, q: Bytes, x: Bytes)
    requires p != [] && q != [] && p[0] != q[0]
    ensures Past(p, q + x) == None
  {
  }

  lemma {:induction false} MoreReads(links: seq<Link>, x: Bytes)
    ensures ReadMore(MoreJson(links) + x) == Some((links, x))
    decreases |links|, 1
  {
    hide Ascii, LinkJson, ReadLink, Past;
    if links == [] {
      PastJoin(Ascii("]"), x);
    } else {
      var more := MoreJson(links[1..]);
      var b := LinkJson(links[0]) + (more + x);
      assert MoreJson(links) + x == Ascii(",") + b;
      CommaIsNot(b);
      PastJoin(Ascii(","), b);
      FirstReads(links, x);
    }
  }

  lemma CommaIsNot(b: Bytes)
    ensures Past(Ascii("]"), Ascii(",") + b) == None
  {
    FirstByte(Ascii("]"), Ascii(","), b);
  }

  lemma {:induction false} FirstReads(links: seq<Link>, x: Bytes)
    requires links != []
    ensures ReadFirst(LinkJson(links[0]) + (MoreJson(links[1..]) + x)) == Some((links, x))
    decreases |links|, 0
  {
    LinkReads(links[0], MoreJson(links[1..]) + x);
    MoreReads(links[1..], x);
    hide LinkJson, ReadLink, MoreJson, ReadMore;
    assert links == [links[0]] + links[1..];
  }

  lemma LinksRead(links: seq<Link>, x: Bytes)
    ensures ReadLinks(LinksJson(links) + x) == Some((links, x))
  {
    if links == [] {
      PastJoin(Ascii("]"), x);
    } else {
      var more := MoreJson(links[1..]);
      LinkStarts(links[0], more + x);
      FirstReads(links, x);
      hide Ascii, LinkJson, ReadFirst, Past, MoreJson;
      assert LinksJson(links) + x == LinkJson(links[0]) + (more + x);
    }
  }

  lemma LinkStarts(l: Link, x: Bytes)
    ensures Past(Ascii("]"), LinkJson(l) + x) == None
  {
    hide TextJson;
    assert LinkJson(l)[0] == Ascii(NAME)[0];
    FirstByte(Ascii("]"), LinkJson(l), x);
  }

  // ----- nodes

  const LINKS: string := "{\"links\":["
  const DATA: string := ",\"data\":"

  /** Data that was never set is nil. */
  function DataJson(d: Bytes): Bytes {
    if d == [] then Ascii("null") else [QUOTE] + Base64(d) + [QUOTE]
  }

  function ReadData(b: Bytes): Option<(Bytes, Bytes)> {
    if Past(Ascii("null"), b).Some? then Some(([], Past(Ascii("null"), b).value))
    else if b != [] && b[0] == QUOTE then ReadBase64(b[1..])
    else None
  }

  function NodeJson(a: Attributes): Bytes {
    Ascii(LINKS) + LinksJson(a.links) + Ascii(DATA) + DataJson(a.data) + Ascii("}")
  }

  /** Reads what `NodeJson` writes, and nothing else. */
  function ReadNode(b: Bytes): Option<Attributes> {
    match Past(Ascii(LINKS), b)
    case None => None
    case Some(b1) =>
      match Then(ReadLinks(b1), Ascii(DATA))
      case None => None
      case Some((links, b2)) =>
        match Then(ReadData(b2), Ascii("}"))
        case None => None
        case Some((data, rest)) => if rest == [] then Some(Attributes(links, data)) else None
  }

  lemma DataReads(d: Bytes, x: Bytes)
    ensures ReadData(DataJson(d) + x) == Some((d, x))
  {
    hide Ascii, Base64, ReadBase64, Past;
    if d == [] {
      PastJoin(Ascii("null"), x);
    } else {
      var b := Base64(d) + [QUOTE] + x;
      Base64Reads(d, x);
      QuotedIsNot(b);
      assert DataJson(d) + x == [QUOTE] + b;
      assert ([QUOTE] + b)[1..] == b;
    }
  }

  lemma QuotedIsNot(b: Bytes)
    ensures Past(Ascii("null"), [QUOTE] + b) == None
  {
    FirstByte(Ascii("null"), [QUOTE], b);
  }

  lemma NodeReads(a: Attributes)
    ensures ReadNode(NodeJson(a)) == Some(a)
  {
    hide Ascii, LinksJson, DataJson, ReadLinks, ReadData, Past;
    var end := Ascii("}") + [];
    var b2 := DataJson(a.data) + end;
    var b1 := LinksJson(a.links) + (Ascii(DATA) + b2);
    assert NodeJson(a) == Ascii(LINKS) + b1;
    PastJoin(Ascii(LINKS), b1);
    LinksRead(a.links, Ascii(DATA) + b2);
    PastJoin(Ascii(DATA), b2);
    DataReads(a.data, end);
    PastJoin(Ascii("}"), []);
  }

  // ----- inodes

  const RAW: string := "{\"kind\":0,\"data\":\""
  const DIRECTORY: string := "{\"kind\":1}"

  function InodeJson(i: Inode): Bytes {
    match i
    case Raw(d) => Ascii(RAW) + Base64(d) + [QUOTE] + Ascii("}")
    case Directory => Ascii(DIRECTORY)
  }

  /** Reads what `InodeJson` writes, and nothing else. */
  function ReadInode(b: Bytes): Option<Inode> {
    if b == Ascii(DIRECTORY) then Some(Directory)
    else
      match Past(Ascii(RAW), b)
      case None => None
      case Some(b1) =>
        match Then(ReadBase64(b1), Ascii("}"))
        case None => None
        case Some((d, rest)) => if rest == [] then Some(Raw(d)) else None
  }

  lemma InodeReads(i: Inode)
    ensures ReadInode(InodeJson(i)) == Some(i)
  {
    hide Ascii, Base64, ReadBase64, Past;
    if i.Raw? {
      var end := Ascii("}") + [];
      var b1 := Base64(i.data) + [QUOTE] + end;
      assert InodeJson(i) == Ascii(RAW) + b1;
      KindsDiffer(b1);
      PastJoin(Ascii(RAW), b1);
      Base64Reads(i.data, end);
      PastJoin(Ascii("}"), []);
    }
  }

  lemma KindsDiffer(b: Bytes)
    ensures Ascii(RAW) + b != Ascii(DIRECTORY)
  {
    assert (Ascii(RAW) + b)[8] == Ascii(RAW)[8] != Ascii(DIRECTORY)[8];
  }

  // ----- lengths

  lemma LinkLength(l: Link)
    ensures |LinkJson(l)| <= 20 + 6 * |l.name| + 6 * |l.cid|
  {
    TextReads(l.name, []);
    TextReads(l.cid, []);
  }

  lemma {:induction false} MoreLength(links: seq<Link>)
    ensures |MoreJson(links)| <= LinksBound(links) + 1
  {
    if links != [] {
      LinkLength(links[0]);
      MoreLength(links[1..]);
      LinksBoundHead(links);
      hide LinkJson;
    }
  }

  lemma {:induction false} LinksBoundHead(links: seq<Link>)
    requires links != []
    ensures LinksBound(links) == 21 + 6 * |links[0].name| + 6 * |links[0].cid| + LinksBound(links[1..])
  {
    if |links| > 1 {
      LinksBoundHead(links[..|links| - 1]);
      assert links[1..][..|links| - 2] == links[..|links| - 1][1..];
    }
  }

  lemma NodeLength(a: Attributes)
    ensures |NodeJson(a)| <= NodeBound(a)
  {
    MoreLength(a.links);
    if a.links != [] {
      hide LinkJson;
      assert |LinksJson(a.links)| + 1 == |MoreJson(a.links)|;
    }
  }

  // ----- the codec

  /** The encodings of the program, with any hash. */
  function JsonCodec(hash: Bytes -> Cid): Codec {
    Codec(NodeJson, ReadNode, InodeJson, ReadInode, hash)
  }

  ghost predicate CidText(hash: Bytes -> Cid) {
    forall d :: |hash(d)| == CID_LEN && '/' !in hash(d)
  }

  /** All that is asked of the encodings holds of this JSON: what is written reads
      back, whatever the names and the data, and is as short as the sizes of
      chunks and nodes need. */
  lemma JsonCodecLawful(hash: Bytes -> Cid)
    requires CidText(hash)
    ensures Lawful(JsonCodec(hash))
  {
    hide NodeJson, ReadNode, InodeJson, ReadInode;
    var c := JsonCodec(hash);
    forall a
      ensures c.decodeNode(c.encodeNode(a)) == Some(a) && |c.encodeNode(a)| <= NodeBound(a)
    {
      NodeReads(a);
      NodeLength(a);
    }
    forall i
      ensures c.decodeInode(c.encodeInode(i)) == Some(i)
    {
      InodeReads(i);
    }
    forall d
      ensures |c.encodeInode(Raw(d))| <= RawBound(|d|)
    {
      RawLength(d);
    }
    NoEmptyInode();
  }

  lemma RawLength(d: Bytes)
    ensures |InodeJson(Raw(d))| <= RawBound(|d|)
  {
  }

  lemma NoEmptyInode()
    ensures ReadInode([]) == None
  {
    assert |Ascii(DIRECTORY)| > 0 && |Ascii(RAW)| > 0;
  }

  /** A node as it looks in the block store. */
  lemma NodeExample()
    ensures NodeJson(Attributes([], [97])) == Ascii("{\"links\":[],\"data\":\"YQ==\"}")
  {
    assert LINKS + "]" + DATA + "\"YQ==\"" + "}" == "{\"links\":[],\"data\":\"YQ==\"}";
    hide Ascii, Base64;
    ExampleData();
    AsciiFive(LINKS, "]", DATA, "\"YQ==\"", "}");
  }

  /** And an inode in its data. */
  lemma InodeExample()
    ensures InodeJson(Raw([97])) == Ascii("{\"kind\":0,\"data\":\"YQ==\"}")
  {
    assert RAW + "YQ==" + "\"" + "}" == "{\"kind\":0,\"data\":\"YQ==\"}";
    hide Ascii, Base64;
    ExampleData();
    AsciiJoin(RAW, "YQ==");
    AsciiJoin(RAW + "YQ==", "\"");
    AsciiJoin(RAW + "YQ==" + "\"", "}");
  }

  /** What is written for a node of one byte and one link `a`, before and after the
      CID. */
  function Front(): (s: string)
    ensures IsAscii(s)
  {
    "{\"links\":[{\"name\":\"a\",\"cid\":\""
  }

  function Back(): (s: string)
    ensures IsAscii(s)
  {
    "\"}],\"data\":\"Yg==\"}"
  }

  /** That node, for any CID of plain characters. */
  lemma LinkExample(cid: string)
    requires Plain(cid)
    ensures IsAscii(Front() + cid + Back())
    ensures NodeJson(Attributes([Link("a", cid)], [98])) == Ascii(Front() + cid + Back())
  {
    hide Ascii, Base64, TextJson, Front, Back, DataJson, LinkJson, LinksJson;
    FrontText();
    BackText();
    PlainText(cid);
    AsciiJoin(Front(), cid);
    AsciiJoin(Front() + cid, Back());
    OneLink(Link("a", cid));
    ExampleJoin(Ascii(LINKS), Ascii(NAME), TextJson("a"), Ascii(CID), Ascii(cid), [QUOTE], Ascii("}"), Ascii("]"),
                Ascii(DATA), DataJson([98]), Ascii("}"));
  }

  lemma OneLink(l: Link)
    ensures LinksJson([l])
         == Ascii(NAME) + TextJson(l.name) + Ascii(CID) + TextJson(l.cid) + Ascii("}") + Ascii("]")
  {
    assert [l][1..] == [];
  }

  lemma ExampleJoin(a: Bytes, b: Bytes, c: Bytes, d: Bytes, e: Bytes, f: Bytes, g: Bytes, h: Bytes, i: Bytes,
                    j: Bytes, k: Bytes)
    ensures a + (b + c + d + (e + f) + g + h) + i + j + k == (a + b + c + d) + e + (f + g + h + i + j + k)
  {
  }

  lemma FrontText()
    ensures Ascii(Front()) == Ascii(LINKS) + Ascii(NAME) + TextJson("a") + Ascii(CID)
  {
    hide Ascii, TextJson, Front;
    FrontIs();
    PlainText("a");
    AsciiFive(LINKS, NAME, "a", "\"", CID);
    MoreExampleData();
  }

  lemma FrontIs()
    ensures LINKS + NAME + "a" + "\"" + CID == Front()
  {
  }

  lemma BackText()
    ensures Ascii(Back()) == [QUOTE] + Ascii("}") + Ascii("]") + Ascii(DATA) + DataJson([98]) + Ascii("}")
  {
    hide Ascii, DataJson, Back;
    MoreExampleData();
    BackIs();
    AsciiFive("\"", "}", "]", DATA, "\"Yg==\"");
    AsciiJoin("\"" + "}" + "]" + DATA + "\"Yg==\"", "}");
  }

  lemma BackIs()
    ensures "\"" + "}" + "]" + DATA + "\"Yg==\"" + "}" == Back()
  {
  }

  lemma MoreExampleData()
    ensures DataJson([98]) == Ascii("\"Yg==\"") && Ascii("\"") == [QUOTE]
  {
    assert Symbol(98 / 4) == 89 && Symbol(98 % 4 * 16) == 103;
  }

  /** Characters that are written as they are, in one byte. */
  predicate Plain(s: string) {
    forall i :: 0 <= i < |s| ==> 32 <= s[i] as int < 127 && s[i] !in {'\"', '\\', '<', '>', '&'}
  }

  lemma {:induction false} PlainText(s: string)
    requires Plain(s)
    ensures IsAscii(s) && TextJson(s) == Ascii(s) + [QUOTE]
  {
    if s != "" {
      PlainText(s[1..]);
      assert CharJson(s[0]) == [s[0] as int];
      assert Ascii(s) == [s[0] as int] + Ascii(s[1..]);
    }
  }

  /** What is written for text has no control characters, and none with a meaning
      in HTML. */
  lemma {:induction false} TextSafe(s: string)
    ensures forall b :: b in TextJson(s) ==> b >= 32 && b !in {38, 60, 62}
  {
    if s != "" {
      CharSafe(s[0]);
      TextSafe(s[1..]);
      hide CharJson;
    }
  }

  lemma CharSafe(c: char)
    ensures forall b :: b in CharJson(c) ==> b >= 32 && b !in {38, 60, 62}
  {
    var n := c as int;
    if Short(n).None? && ByNumber(n) {
      Digits(n);
    }
  }

  lemma DirectoryExample()
    ensures InodeJson(Directory) == Ascii("{\"kind\":1}")
  {
  }

  lemma ExampleData()
    ensures DataJson([97]) == Ascii("\"YQ==\"") && Base64([97]) == Ascii("YQ==") && [QUOTE] == Ascii("\"")
  {
    assert Symbol(97 / 4) == 89 && Symbol(97 % 4 * 16) == 81;
  }

  lemma AsciiFive(a: string, b: string, c: string, d: string, e: string)
    requires IsAscii(a) && IsAscii(b) && IsAscii(c) && IsAscii(d) && IsAscii(e)
    ensures IsAscii(a + b + c + d + e)
    ensures Ascii(a + b + c + d + e) == Ascii(a) + Ascii(b) + Ascii(c) + Ascii(d) + Ascii(e)
  {
    hide Ascii;
    AsciiJoin(a, b);
    AsciiJoin(a + b, c);
    AsciiJoin(a + b + c, d);
    AsciiJoin(a + b + c + d, e);
  }

  lemma AsciiJoin(s: string, t: string)
    requires IsAscii(s) && IsAscii(t)
    ensures IsAscii(s + t)
    ensures Ascii(s + t) == Ascii(s) + Ascii(t)
  {
  }

  // ----- the tables

  /** The alphabet of base64 (table 1 of RFC 4648). */
  lemma SymbolTable()
    ensures forall n :: 0 <= n < 26 ==> Symbol(n) == "ABCDEFGHIJKLMNOPQRSTUVWXYZ"[n] as int
    ensures forall n :: 0 <= n < 26 ==> Symbol(26 + n) == "abcdefghijklmnopqrstuvwxyz"[n] as int
    ensures forall n :: 0 <= n < 10 ==> Symbol(52 + n) == "0123456789"[n] as int
    ensures Symbol(62) == '+' as int && Symbol(63) == '/' as int
  {
  }

  /** Hexadecimal digits are in lower case. */
  lemma HexTable()
    ensures |"0123456789abcdef"| == 16 && forall n :: 0 <= n < 16 ==> Hex(n) == "0123456789abcdef"[n] as int
  {
  }

  /** Which characters are escaped, and how. */
  lemma EscapeTable(c: char)
    ensures CharJson(c) ==
            match c
            case '\"' => Ascii("\\\"")
            case '\\' => Ascii("\\\\")
            case '\n' => Ascii("\\n")
            case '\r' => Ascii("\\r")
            case '\t' => Ascii("\\t")
            case '<' => Ascii("\\u003c")
            case '>' => Ascii("\\u003e")
            case '&' => Ascii("\\u0026")
            case _ => CharJson(c)
  {
  }

  /** Of all other characters from the space on, only the two line separators are
      escaped; those below 128 stand for themselves. */
  lemma OthersUnescaped(c: char)
    requires c as int >= 32 && c !in {'\"', '\\', '<', '>', '&'}
    ensures c as int < 128 ==> CharJson(c) == [c as int]
    ensures CharJson(c)[0] == BACKSLASH <==> c as int in {0x2028, 0x2029}
  {
  }

  /** Characters of two, three and four bytes. */
  lemma Utf8Examples()
    ensures Utf8(0xE9) == [0xC3, 0xA9] && Utf8(0x20AC) == [0xE2, 0x82, 0xAC]
    ensures Utf8(0x1_F600) == [0xF0, 0x9F, 0x98, 0x80]
  {
  }
}
