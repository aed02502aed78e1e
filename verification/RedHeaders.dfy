/**
  The packet layout of redundant audio (RFC 2198, section 3) as rat/cc_rdncy.c writes it in
  redundancy_encoder_output and walks it in redundancy_decoder_output.

  A packet is the four-byte headers of its redundant blocks, the one-byte header of the
  primary block, the data of the redundant blocks in the same order, and the primary data.
 */
module RedHeaders {
  import opened Options
  import opened ByteValues
  import opened Arithmetic

  const RED_MAX_OFFSET := 16383
  const RED_MAX_LEN := 1023

  datatype Block = Block(pt: int, off: int, data: seq<byte>)

  predicate ValidBlock(b: Block) {
    0 <= b.pt < 128 && 0 <= b.off <= RED_MAX_OFFSET && |b.data| <= RED_MAX_LEN
  }

  type RedBlock = b: Block | ValidBlock(b) witness Block(0, 0, [])

  // The RED_HDR32_* macros.  Their fields do not overlap (see MacrosAdd), so OR is plus.

  function Header(pt: int, off: int, len: int): (h: int)
    requires 0 <= pt < 128 && 0 <= off <= RED_MAX_OFFSET && 0 <= len <= RED_MAX_LEN
    ensures 0x8000_0000 <= h < 0x1_0000_0000
  {
    0x8000_0000 + pt * 0x100_0000 + off * 0x400 + len
  }

  function GetPt(h: int): int { h / 0x100_0000 % 0x80 }

  function GetOff(h: int): int { h / 0x400 % 0x4000 }

  function GetLen(h: int): int { h % 0x400 }

  predicate IsRedundant(h: int) { h / 0x8000_0000 % 2 == 1 }

  lemma DisjointOr(x: bv32, y: bv32)
    requires x & y == 0
    ensures x | y == x + y
  {}

  /** The macros as C has them, on 32-bit words: the getters take out what was put in with OR. */
  lemma MacrosRoundTrip(pt: bv32, off: bv32, len: bv32)
    requires pt < 0x80 && off <= 0x3fff && len <= 0x3ff
    ensures var h := 0x8000_0000 | (pt << 24) | (off << 10) | len;
            && (h >> 24) & 0x7f == pt && (h >> 10) & 0x3fff == off && h & 0x3ff == len
            && h & 0x8000_0000 != 0
  {}

  /** Setting the three fields of a cleared header with OR is adding them. */
  lemma MacrosAdd(pt: bv32, off: bv32, len: bv32)
    requires pt < 0x80 && off <= 0x3fff && len <= 0x3ff
    ensures 0x8000_0000 | (pt << 24) | (off << 10) | len == 0x8000_0000 + (pt << 24) + (off << 10) + len
  {
    DisjointOr(0x8000_0000, pt << 24);
    DisjointOr(0x8000_0000 | (pt << 24), off << 10);
    DisjointOr(0x8000_0000 | (pt << 24) | (off << 10), len);
  }

  /** htonl: the word in network order. */
  function Htonl(h: int): (s: seq<byte>)
    requires 0 <= h < 0x1_0000_0000
    ensures |s| == 4
  {
    [h / 0x100_0000, h / 0x1_0000 % 0x100, h / 0x100 % 0x100, h % 0x100]
  }

  function Ntohl(a: byte, b: byte, c: byte, d: byte): (h: int)
    ensures 0 <= h < 0x1_0000_0000
  {
    (a as int) * 0x100_0000 + (b as int) * 0x1_0000 + (c as int) * 0x100 + d as int
  }

  /** Where the fields of a header lie in its four bytes (RFC 2198, section 3): one bit, seven
      bits of payload type, fourteen of offset, ten of length. */
  function HeaderOf(b: RedBlock): (s: seq<byte>)
    ensures |s| == 4
  {
    [128 + b.pt, b.off / 64, b.off % 64 * 4 + |b.data| / 256, |b.data| % 256]
  }

  function OffAt(buf: seq<byte>, at: nat): int
    requires at + 4 <= |buf|
  {
    (buf[at + 1] as int) * 64 + (buf[at + 2] as int) / 4
  }

  function LenAt(buf: seq<byte>, at: nat): nat
    requires at + 4 <= |buf|
  {
    (buf[at + 2] as int) % 4 * 256 + buf[at + 3] as int
  }

  /** add_hdr writes those bytes. */
  lemma HeaderBytes(b: RedBlock)
    ensures Htonl(Header(b.pt, b.off, |b.data|)) == HeaderOf(b)
  {
    var h := Header(b.pt, b.off, |b.data|);
    var x, y := b.off / 64, b.off % 64 * 4 + |b.data| / 256;
    assert h == (128 + b.pt) * 0x100_0000 + x * 0x1_0000 + y * 0x100 + |b.data| % 256;
    Digits(128 + b.pt, x, y, |b.data| % 256);
  }

  /** The decoder's getters read them. */
  lemma FieldsOfBytes(a: byte, b: byte, c: byte, d: byte)
    ensures var h := Ntohl(a, b, c, d);
            && (IsRedundant(h) <==> a >= 128)
            && (a >= 128 ==> GetPt(h) == a - 128)
            && GetOff(h) == (b as int) * 64 + (c as int) / 4
            && GetLen(h) == (c as int) % 4 * 256 + d as int
  {
    var h := Ntohl(a, b, c, d);
    var (p, q, r, s) := (a as int, b as int, c as int, d as int);
    var low := r % 4 * 256 + s;
    assert h == (p * 0x4000 + (q * 64 + r / 4)) * 0x400 + low;
    DivMod(p * 0x4000 + (q * 64 + r / 4), low, 0x400);
    DivMod(p, q * 64 + r / 4, 0x4000);
    Digits(p, q, r, s);
    TopBit(h, p);
  }

  lemma TopBit(h: int, p: int)
    requires 0 <= p < 256 && 0 <= h && h / 0x100_0000 == p
    ensures h / 0x8000_0000 % 2 == 1 <==> p >= 128
    ensures p >= 128 ==> h / 0x100_0000 % 0x80 == p - 128
  {
    var rest := h - p * 0x100_0000;
    assert 0 <= rest < 0x100_0000;
    if p >= 128 {
      DivMod(1, (p - 128) * 0x100_0000 + rest, 0x8000_0000);
    } else {
      DivMod(0, h, 0x8000_0000);
    }
  }

  lemma Digits(a: int, b: int, c: int, d: int)
    requires 0 <= a < 256 && 0 <= b < 256 && 0 <= c < 256 && 0 <= d < 256
    ensures var h := a * 0x100_0000 + b * 0x1_0000 + c * 0x100 + d;
            h / 0x100_0000 == a && h / 0x1_0000 % 0x100 == b && h / 0x100 % 0x100 == c && h % 0x100 == d
  {
    var h := a * 0x100_0000 + b * 0x1_0000 + c * 0x100 + d;
    assert h / 0x1_0000 == a * 0x100 + b;
    assert h / 0x100 == a * 0x1_0000 + b * 0x100 + c;
  }

  // ------------------------------------------------------------------ laying out

  function Headers(blocks: seq<RedBlock>): seq<byte>
  {
    if blocks == [] then [] else HeaderOf(blocks[0]) + Headers(blocks[1..])
  }

  function Bodies(blocks: seq<RedBlock>): seq<byte> {
    if blocks == [] then [] else blocks[0].data + Bodies(blocks[1..])
  }

  datatype Packet = Packet(blocks: seq<RedBlock>, ppt: int, primary: seq<byte>)

  /** What the encoder sends and the decoder takes: at least one redundant block, and data, be it
      redundant or primary. */
  predicate ValidPacket(p: Packet) {
    p.blocks != [] && 0 <= p.ppt < 128 && Bodies(p.blocks) + p.primary != []
  }

  function Layout(p: Packet): seq<byte>
    requires 0 <= p.ppt < 128
  {
    Headers(p.blocks) + [p.ppt] + Bodies(p.blocks) + p.primary
  }

  // --------------------------------------------------------------------- walking

  /** Offset of the one-byte header, `None` if the headers run out of the packet. */
  function SkipHeaders(buf: seq<byte>, at: nat): (r: Option<nat>)
    ensures r.Some? ==> at <= r.value < |buf| && buf[r.value] < 128
    decreases |buf| - at
  {
    if at >= |buf| then None
    else if buf[at] < 128 then Some(at)
    else SkipHeaders(buf, at + 4)
  }

  /** Both pointers at once: `hp` over the headers, `dp` over the data they describe. */
  function Walk(buf: seq<byte>, hp: nat, dp: nat): (r: Option<(seq<RedBlock>, nat)>)
    ensures r.Some? ==> dp <= r.value.1 <= |buf|
    decreases |buf| - hp
  {
    if hp >= |buf| || dp > |buf| then None
    else if buf[hp] < 128 then Some(([], dp))
    else if hp + 4 > |buf| || dp + LenAt(buf, hp) > |buf| then None
    else
      var data := buf[dp..dp + LenAt(buf, hp)];
      match Walk(buf, hp + 4, dp + LenAt(buf, hp))
      case None => None
      case Some((rest, end)) => Some(([Block(buf[hp] - 128, OffAt(buf, hp), data)] + rest, end))
  }

  /** redundancy_decoder_output up to the point where blocks are split into frames. */
  function Parse(buf: seq<byte>): Option<Packet> {
    match SkipHeaders(buf, 0)
    case None => None
    case Some(at) =>
      if at == 0 || at + 1 >= |buf| then None
      else
        match Walk(buf, 0, at + 1)
        case None => None
        case Some((blocks, end)) => Some(Packet(blocks, buf[at], buf[end..]))
  }

  lemma {:induction false} HeadersLength(blocks: seq<RedBlock>)
    ensures |Headers(blocks)| == 4 * |blocks|
  {
    if blocks != [] {
      HeadersLength(blocks[1..]);
    }
  }

  lemma Regroup(a: seq<byte>, b: seq<byte>, c: seq<byte>, d: seq<byte>)
    ensures a + (b + c) + d == (a + b) + c + d
    ensures a + (b + c) + d == a + b + (c + d)
  {}

  lemma HeadersSplit(pre: seq<byte>, blocks: seq<RedBlock>, post: seq<byte>)
    requires blocks != []
    ensures var b := blocks[0];
            var buf := pre + Headers(blocks) + post;
            && buf == (pre + HeaderOf(b)) + Headers(blocks[1..]) + post
            && |pre| + 4 <= |buf| && buf[|pre|..|pre| + 4] == HeaderOf(b)
  {
    Regroup(pre, HeaderOf(blocks[0]), Headers(blocks[1..]), post);
  }

  lemma HeaderAt(buf: seq<byte>, at: nat, b: RedBlock)
    requires at + 4 <= |buf| && buf[at..at + 4] == HeaderOf(b)
    ensures buf[at] == 128 + b.pt && OffAt(buf, at) == b.off && LenAt(buf, at) == |b.data|
  {
    var h := buf[at..at + 4];
    assert h[0] == buf[at] && h[1] == buf[at + 1] && h[2] == buf[at + 2] && h[3] == buf[at + 3];
  }

  lemma {:induction false} SkipOverHeaders(pre: seq<byte>, blocks: seq<RedBlock>, post: seq<byte>)
    requires post != [] && post[0] < 128
    ensures SkipHeaders(pre + Headers(blocks) + post, |pre|) == Some(|pre| + 4 * |blocks|)
    decreases |blocks|
  {
    var buf := pre + Headers(blocks) + post;
    if blocks == [] {
      assert buf[|pre|] == post[0];
    } else {
      HeadersSplit(pre, blocks, post);
      HeaderAt(buf, |pre|, blocks[0]);
      SkipOverHeaders(pre + HeaderOf(blocks[0]), blocks[1..], post);
    }
  }

  lemma BodiesSplit(before: seq<byte>, blocks: seq<RedBlock>, after: seq<byte>)
    requires blocks != []
    ensures var all := before + Bodies(blocks) + after; var n := |before|;
            && all == (before + blocks[0].data) + Bodies(blocks[1..]) + after
            && n + |blocks[0].data| <= |all| && all[n..n + |blocks[0].data|] == blocks[0].data
  {
    Regroup(before, blocks[0].data, Bodies(blocks[1..]), after);
  }

  lemma WalkOne(buf: seq<byte>, hp: nat, dp: nat, b: RedBlock)
    requires hp + 4 <= |buf| && buf[hp..hp + 4] == HeaderOf(b)
    requires dp + |b.data| <= |buf| && buf[dp..dp + |b.data|] == b.data
    ensures Walk(buf, hp, dp) == match Walk(buf, hp + 4, dp + |b.data|)
                                 case None => None
                                 case Some((rest, end)) => Some(([b] + rest, end))
  {
    HeaderAt(buf, hp, b);
  }

  lemma WalkStep(buf: seq<byte>, pre: seq<byte>, blocks: seq<RedBlock>, post: seq<byte>,
                 before: seq<byte>, after: seq<byte>)
    requires blocks != []
    requires buf == pre + Headers(blocks) + post
    requires buf == before + Bodies(blocks) + after
    ensures var b := blocks[0];
            && buf == (pre + HeaderOf(b)) + Headers(blocks[1..]) + post
            && buf == (before + b.data) + Bodies(blocks[1..]) + after
            && Walk(buf, |pre|, |before|) == match Walk(buf, |pre| + 4, |before| + |b.data|)
                                             case None => None
                                             case Some((rest, end)) => Some(([b] + rest, end))
  {
    hide Walk, Headers, Bodies, HeaderOf;
    HeadersSplit(pre, blocks, post);
    BodiesSplit(before, blocks, after);
    WalkOne(buf, |pre|, |before|, blocks[0]);
  }

  lemma WalkNone(buf: seq<byte>, pre: seq<byte>, post: seq<byte>, dp: nat)
    requires buf == pre + Headers([]) + post && post != [] && post[0] < 128 && dp <= |buf|
    ensures Walk(buf, |pre|, dp) == Some(([], dp))
  {
    assert buf[|pre|] == post[0];
  }

  /** The two-pointer walk over headers at `pre` and bodies after `before` gives the blocks back. */
  lemma {:induction false} WalkOver(buf: seq<byte>, pre: seq<byte>, blocks: seq<RedBlock>, post: seq<byte>,
                                    before: seq<byte>, after: seq<byte>)
    requires post != [] && post[0] < 128
    requires buf == pre + Headers(blocks) + post
    requires buf == before + Bodies(blocks) + after
    ensures Walk(buf, |pre|, |before|) == Some((blocks, |before| + |Bodies(blocks)|))
    decreases |blocks|
  {
    hide Walk, Headers, HeaderOf;
    if blocks == [] {
      WalkNone(buf, pre, post, |before|);
    } else {
      WalkStep(buf, pre, blocks, post, before, after);
      assert [blocks[0]] + blocks[1..] == blocks;
      WalkOver(buf, pre + HeaderOf(blocks[0]), blocks[1..], post, before + blocks[0].data, after);
    }
  }

  /** RFC 2198 round trip: the decoder recovers every payload type, offset and block. */
  lemma ParseOfLayout(p: Packet)
    requires ValidPacket(p)
    ensures Parse(Layout(p)) == Some(p)
  {
    hide Walk, Headers, Bodies, SkipHeaders;
    var heads, bodies := Headers(p.blocks), Bodies(p.blocks);
    var buf := Layout(p);
    var post := [p.ppt] + bodies + p.primary;
    var before := heads + [p.ppt];
    Regrouped(heads, p.ppt, bodies, p.primary);
    SkipOverHeaders([], p.blocks, post);
    HeadersLength(p.blocks);
    WalkOver(buf, [], p.blocks, post, before, p.primary);
  }

  lemma Regrouped(heads: seq<byte>, b: byte, bodies: seq<byte>, primary: seq<byte>)
    ensures var buf := heads + [b] + bodies + primary;
            && buf == [] + heads + ([b] + bodies + primary)
            && buf == (heads + [b]) + bodies + primary
            && buf[|heads|] == b && |buf| == |heads| + 1 + |bodies + primary|
            && buf[|heads + [b]| + |bodies|..] == primary
  {}

  /** The loops of redundancy_decoder_output load a word of four bytes at every header, also at
      the primary one, of which the first byte alone decides (see FieldsOfBytes).  All these
      words lie in the packet if and only if at least three bytes follow the headers. */
  lemma WordsInside(p: Packet)
    requires ValidPacket(p)
    ensures (forall i :: 0 <= i <= |p.blocks| ==> 4 * i + 4 <= |Layout(p)|) <==>
            |Bodies(p.blocks)| + |p.primary| >= 3
  {
    HeadersLength(p.blocks);
    if |Bodies(p.blocks)| + |p.primary| < 3 {
      var i := |p.blocks|;
      assert 4 * i + 4 > |Layout(p)|;
    }
  }

  lemma SliceSplit(s: seq<byte>, a: nat, b: nat, c: nat)
    requires a <= b <= c <= |s|
    ensures s[a..c] == s[a..b] + s[b..c]
  {}

  lemma HeaderBack(buf: seq<byte>, hp: nat, data: seq<byte>)
    requires hp + 4 <= |buf| && buf[hp] >= 128 && |data| == LenAt(buf, hp)
    ensures var b := Block(buf[hp] - 128, OffAt(buf, hp), data);
            ValidBlock(b) && HeaderOf(b) == buf[hp..hp + 4]
  {}

  lemma WalkOpens(buf: seq<byte>, hp: nat, dp: nat)
    requires Walk(buf, hp, dp).Some? && buf[hp] >= 128
    ensures hp + 4 <= |buf|
    ensures var dp' := dp + LenAt(buf, hp);
            && dp' <= |buf| && Walk(buf, hp + 4, dp').Some? && SkipHeaders(buf, hp) == SkipHeaders(buf, hp + 4)
            && var (rest, end) := Walk(buf, hp + 4, dp').value;
               var b: Block := Block(buf[hp] - 128, OffAt(buf, hp), buf[dp..dp']);
               && ValidBlock(b) && HeaderOf(b) == buf[hp..hp + 4]
               && Walk(buf, hp, dp).value == ([b] + rest, end)
               && Headers([b] + rest) == HeaderOf(b) + Headers(rest)
               && Bodies([b] + rest) == b.data + Bodies(rest)
  {
    var dp' := dp + LenAt(buf, hp);
    HeaderBack(buf, hp, buf[dp..dp']);
    var rest := Walk(buf, hp + 4, dp').value.0;
    var b: RedBlock := Block(buf[hp] - 128, OffAt(buf, hp), buf[dp..dp']);
    assert ([b] + rest)[1..] == rest;
  }

  lemma {:induction false} WalkBack(buf: seq<byte>, hp: nat, dp: nat)
    requires Walk(buf, hp, dp).Some? && SkipHeaders(buf, hp).Some?
    ensures var (blocks, end) := Walk(buf, hp, dp).value; var at := SkipHeaders(buf, hp).value;
            Headers(blocks) == buf[hp..at] && Bodies(blocks) == buf[dp..end] && |blocks| * 4 == at - hp
    decreases |buf| - hp
  {
    hide Walk, Headers, Bodies, HeaderOf, SkipHeaders, ValidBlock, OffAt, LenAt;
    if buf[hp] >= 128 {
      WalkOpens(buf, hp, dp);
      var dp' := dp + LenAt(buf, hp);
      WalkBack(buf, hp + 4, dp');
      SliceSplit(buf, hp, hp + 4, SkipHeaders(buf, hp).value);
      SliceSplit(buf, dp, dp', Walk(buf, hp, dp).value.1);
    } else {
      WalkShuts(buf, hp, dp);
    }
  }

  lemma WalkShuts(buf: seq<byte>, hp: nat, dp: nat)
    requires Walk(buf, hp, dp).Some? && buf[hp] < 128
    ensures Walk(buf, hp, dp) == Some(([], dp)) && SkipHeaders(buf, hp) == Some(hp)
    ensures Headers([]) == buf[hp..hp] && Bodies([]) == buf[dp..dp]
  {}

  lemma ParseIs(buf: seq<byte>)
    requires Parse(buf).Some?
    ensures SkipHeaders(buf, 0).Some?
    ensures var at := SkipHeaders(buf, 0).value;
            && 0 < at < |buf| - 1 && Walk(buf, 0, at + 1).Some?
            && Parse(buf).value == Packet(Walk(buf, 0, at + 1).value.0, buf[at], buf[Walk(buf, 0, at + 1).value.1..])
  {
    hide Walk, SkipHeaders;
  }

  /** And nothing else parses: whatever the decoder accepts is the layout of what it found. */
  lemma LayoutOfParse(buf: seq<byte>)
    requires Parse(buf).Some?
    ensures ValidPacket(Parse(buf).value) && Layout(Parse(buf).value) == buf
  {
    hide Parse, Walk, Headers, Bodies, SkipHeaders;
    ParseIs(buf);
    var at := SkipHeaders(buf, 0).value;
    var (blocks, end) := Walk(buf, 0, at + 1).value;
    WalkBack(buf, 0, at + 1);
    Cut(buf, at, end);
  }

  lemma Cut(s: seq<byte>, at: nat, end: nat)
    requires at < end <= |s|
    ensures s[0..at] + [s[at]] + s[at + 1..end] + s[end..] == s
  {}

  /** The decoder's own loops: first `dp` past the headers, then both pointers together. */
  method WalkPacket(buf: seq<byte>) returns (p: Option<Packet>)
    ensures p == Parse(buf)
  {
    var dp := 0;
    while dp < |buf| && buf[dp] >= 128
      invariant 0 <= dp && SkipHeaders(buf, 0) == SkipHeaders(buf, dp)
    {
      dp := dp + 4;
    }
    if dp >= |buf| || dp == 0 || dp + 1 >= |buf| { return None; }
    var blocks := WalkBlocks(buf, dp + 1);
    match blocks {
      case None => return None;
      case Some((bs, end)) =>
        return Some(Packet(bs, buf[dp], buf[end..]));
    }
  }

  /** Of the walk that began at `start`, what is left when `found` has been found. */
  ghost predicate WalkLeft(buf: seq<byte>, start: nat, found: seq<RedBlock>, hp: nat, dp: nat)
    requires start <= |buf| && dp <= |buf| && SkipHeaders(buf, 0).Some? && SkipHeaders(buf, hp).Some?
  {
    match Walk(buf, hp, dp)
    case None => Walk(buf, 0, start) == None
    case Some(r) => Walk(buf, 0, start) == Some((found + r.0, r.1))
  }

  lemma WalkFirst(buf: seq<byte>, start: nat)
    requires start <= |buf| && SkipHeaders(buf, 0).Some?
    ensures WalkLeft(buf, start, [], 0, start)
  {
    var w := Walk(buf, 0, start);
    assert w.Some? ==> [] + w.value.0 == w.value.0;
  }

  lemma WalkFound(buf: seq<byte>, start: nat, found: seq<RedBlock>, hp: nat, dp: nat, b: Block)
    requires start <= |buf| && dp <= |buf| && SkipHeaders(buf, 0).Some? && SkipHeaders(buf, hp).Some?
    requires hp + 4 <= |buf| && buf[hp] >= 128 && dp + LenAt(buf, hp) <= |buf|
    requires b == Block(buf[hp] - 128, OffAt(buf, hp), buf[dp..dp + LenAt(buf, hp)])
    requires WalkLeft(buf, start, found, hp, dp)
    ensures ValidBlock(b)
    ensures SkipHeaders(buf, hp + 4).Some? && WalkLeft(buf, start, found + [b], hp + 4, dp + |b.data|)
  {
    HeaderBack(buf, hp, b.data);
    WalkOne(buf, hp, dp, b);
    hide Walk, HeaderOf, OffAt, LenAt;
    var w := Walk(buf, hp + 4, dp + |b.data|);
    assert w.Some? ==> found + ([b] + w.value.0) == found + [b] + w.value.0;
  }

  lemma WalkEnds(buf: seq<byte>, start: nat, found: seq<RedBlock>, hp: nat, dp: nat)
    requires start <= |buf| && dp <= |buf| && SkipHeaders(buf, 0).Some? && SkipHeaders(buf, hp).Some?
    requires WalkLeft(buf, start, found, hp, dp)
    ensures hp < |buf|
    ensures buf[hp] < 128 ==> Walk(buf, 0, start) == Some((found, dp))
    ensures buf[hp] >= 128 && (hp + 4 > |buf| || dp + LenAt(buf, hp) > |buf|) ==> Walk(buf, 0, start) == None
  {
    assert found + [] == found;
  }

  method WalkBlocks(buf: seq<byte>, start: nat) returns (r: Option<(seq<RedBlock>, nat)>)
    requires start <= |buf| && SkipHeaders(buf, 0).Some?
    ensures r == Walk(buf, 0, start)
  {
    hide Walk, WalkLeft, SkipHeaders, ValidBlock;
    var hp: nat, dp: nat := 0, start;
    var blocks: seq<RedBlock> := [];
    WalkFirst(buf, start);
    WalkEnds(buf, start, blocks, hp, dp);
    while buf[hp] >= 128
      invariant hp < |buf| && dp <= |buf| && SkipHeaders(buf, hp).Some?
      invariant WalkLeft(buf, start, blocks, hp, dp)
      invariant buf[hp] < 128 ==> Walk(buf, 0, start) == Some((blocks, dp))
      decreases |buf| - hp
    {
      WalkEnds(buf, start, blocks, hp, dp);
      if hp + 4 > |buf| { return None; }
      var h := Ntohl(buf[hp], buf[hp + 1], buf[hp + 2], buf[hp + 3]);
      FieldsOfBytes(buf[hp], buf[hp + 1], buf[hp + 2], buf[hp + 3]);
      var len := GetLen(h);
      if dp + len > |buf| { return None; }
      var b := Block(GetPt(h), GetOff(h), buf[dp..dp + len]);
      WalkFound(buf, start, blocks, hp, dp, b);
      blocks := blocks + [b];
      hp, dp := hp + 4, dp + len;
      WalkEnds(buf, start, blocks, hp, dp);
    }
    return Some((blocks, dp));
  }
}
