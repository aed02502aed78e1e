/**
  What the redundancy coder sends of a talkspurt.

  The units are contiguous, each coded by a primary and by a second codec, and the redundant
  copy of a unit is to be sent `m` packets after the unit itself.  The encoder keeps a history
  of `h` units; the code sets it to `m`, which can be too little.
 */
module RedTheorem {
  import opened Arithmetic
  import opened Options
  import opened ByteValues
  import opened PlayoutBuffers
  import opened RedHeaders
  import opened RedCoder
  import opened RedSpent

  datatype Spurt = Spurt(
    cs: Codecs,
    t0: int,             // playout time of unit 0
    d: nat,              // duration of a frame, in samples
    upp: nat,            // units per packet
    m: nat,              // offset of the redundant layer, in packets
    h: nat,              // history kept behind the iterator, in units
    c0: CodecId,         // primary codec
    c1: CodecId,         // redundant codec
    unit: nat -> Media)

  function UnitTime(sp: Spurt, k: int): int {
    At(sp.t0, k, sp.d)
  }

  predicate HasRep(md: Media, cid: CodecId, cu: Coding) {
    var j := Find(md, cid);
    j < |md| && md[j] == cu
  }

  /** The two copies of a unit that are sent. */
  datatype Copy = Primary | Redundant

  function Cid(sp: Spurt, x: Copy): CodecId {
    if x == Primary then sp.c0 else sp.c1
  }

  /** A unit after its coding by `cid` has been sent. */
  function Left(md: Media, cid: CodecId): Media {
    var j := Find(md, cid);
    if j < |md| then md[j := Taken(md[j], true)] else md
  }

  /** Unit `k` as it is when copy `x` is taken from it. */
  function Held(sp: Spurt, x: Copy, k: nat): Media {
    if x == Primary then sp.unit(k) else Left(sp.unit(k), sp.c0)
  }

  /** Copy `x` of unit `k`; if both codecs are the same, the unit's first and second coding. */
  function Rep(sp: Spurt, x: Copy, k: nat): Coding {
    var md := Held(sp, x, k);
    var j := Find(md, Cid(sp, x));
    if j < |md| then md[j] else Coding(0, [], [])
  }

  /** Unit `k` has a copy `x` that the codec can find the end of, and whose state is as long as
      the codec says. */
  ghost predicate WellCoded(sp: Spurt, x: Copy, k: nat) {
    var cu := Rep(sp, x, k);
    && HasRep(Held(sp, x, k), Cid(sp, x), cu)
    && |cu.data| > 0
    && |cu.state| == sp.cs.stateSize(Cid(sp, x))
    && (forall rest: seq<byte> :: sp.cs.peek(Cid(sp, x), cu.data + rest) == |cu.data|)
  }

  /** The data of copy `x` of `n` units from unit `k` on, one after the other. */
  function BlockBytes(sp: Spurt, x: Copy, k: nat, n: nat, first: bool): seq<byte>
    decreases n
  {
    if n == 0 then [] else Bytes(Rep(sp, x, k), first) + BlockBytes(sp, x, k + 1, n - 1, false)
  }

  ghost predicate Good(sp: Spurt) {
    var cs := sp.cs;
    && sp.d > 0 && sp.upp > 0
    && sp.c0 != 0 && sp.c1 != 0
    && cs.samplesPerFrame(sp.c0) == sp.d && cs.samplesPerFrame(sp.c1) == sp.d
    && 0 <= cs.payload(sp.c0) < 128 && 0 <= cs.payload(sp.c1) < 128
    && cs.byPayload(cs.payload(sp.c0)) == sp.c0 && cs.byPayload(cs.payload(sp.c1)) == sp.c1
    && cs.compatible(sp.c0, sp.c0) && cs.compatible(sp.c0, sp.c1)
    && !cs.native(sp.c0) && !cs.native(sp.c1)
    && sp.d * (sp.m * sp.upp) <= RED_MAX_OFFSET
    && (forall k: nat :: WellCoded(sp, Primary, k) && WellCoded(sp, Redundant, k))
    && (forall k: nat :: |BlockBytes(sp, Redundant, k, sp.upp, true)| <= RED_MAX_LEN)
  }

  // ------------------------------------------------------------------ the encoder

  function Start(sp: Spurt): Enc {
    Enc([Layer(sp.c0, 0), Layer(sp.c1, sp.m)], sp.d * sp.h, [], 0)
  }

  /** The encoder after `n` units, and what it has sent. */
  function Encode(sp: Spurt, n: nat): Option<(Enc, seq<Node<seq<byte>>>)>
    requires sp.upp > 0
  {
    if n == 0 then Some((Start(sp), []))
    else
      match Encode(sp, n - 1)
      case None => None
      case Some((e, sent)) =>
        match Accept(sp.cs, e, sp.upp, Node(UnitTime(sp, n - 1), sp.unit(n - 1)))
        case None => None
        case Some((e', None)) => Some((e', sent))
        case Some((e', Some(p))) => Some((e', sent + [p]))
  }

  /** Packet `j`, with the redundant block that starts at unit `r` or with an empty one. */
  function PacketWith(sp: Spurt, j: nat, full: bool, r: nat): (p: Packet)
    requires Good(sp)
    ensures 0 <= p.ppt < 128
  {
    var data := if full then BlockBytes(sp, Redundant, r, sp.upp, true) else [];
    assert |BlockBytes(sp, Redundant, r, sp.upp, true)| <= RED_MAX_LEN;
    Packet([Block(sp.cs.payload(sp.c1), sp.d * (sp.m * sp.upp), data)], sp.cs.payload(sp.c0),
           BlockBytes(sp, Primary, j * sp.upp, sp.upp, true))
  }

  lemma GoodBasics(sp: Spurt)
    requires Good(sp)
    ensures sp.d > 0 && sp.upp > 0 && sp.c0 != 0 && sp.c1 != 0
  {}

  /** The units still in the encoder's buffer are `lo` and those after it.  From those from `p` on
      nothing has been sent, and from those between `r` and `p` the primary copy only. */
  ghost predicate BufferOk(sp: Spurt, buf: Buffer, lo: nat, p: nat, r: nat) {
    forall i :: 0 <= i < |buf| ==>
      && buf[i].playout == UnitTime(sp, lo + i)
      && (lo + i >= p ==> buf[i].data == sp.unit(lo + i))
      && (r <= lo + i < p ==> HasRep(buf[i].data, sp.c1, Rep(sp, Redundant, lo + i)))
  }

  lemma {:induction false} FindIs(md: Media, cid: CodecId, j: nat)
    requires j < |md| && md[j].id == cid
    requires forall i :: 0 <= i < j ==> md[i].id != cid
    ensures Find(md, cid) == j
  {}

  /** One coding by `cid` has been taken from a unit. */
  ghost predicate TookOne(md: Media, md': Media, cid: CodecId) {
    var j := Find(md, cid);
    j < |md| && (md' == md[j := Taken(md[j], true)] || md' == md[j := Taken(md[j], false)])
  }

  /** What is left for another codec, or for the same, does not depend on how it was taken. */
  lemma TookLeaves(md: Media, md': Media, cid: CodecId, other: CodecId, cu: Coding)
    requires cid != 0 && other != 0 && TookOne(md, md', cid) && HasRep(Left(md, cid), other, cu)
    ensures HasRep(md', other, cu)
  {
    var l := Left(md, cid);
    assert |l| == |md'| && forall i :: 0 <= i < |l| ==> l[i].id == md'[i].id;
    FindIs(md', other, Find(l, other));
  }

  lemma TookSingle(md: Media, md': Media, cid: CodecId, other: CodecId)
    requires cid != 0 && other != 0 && TookOne(md, md', cid) && Single(Left(md, cid), other)
    ensures Single(md', other)
  {
    var l := Left(md, cid);
    assert |l| == |md'| && forall i :: 0 <= i < |l| ==> l[i].id == md'[i].id;
  }

  ghost predicate SameButTaken(buf: Buffer, buf': Buffer, at: nat, n: nat, cid: CodecId) {
    && |buf'| == |buf|
    && (forall i :: 0 <= i < |buf| ==> buf'[i].playout == buf[i].playout)
    && (forall i :: 0 <= i < |buf| && !(at <= i < at + n) ==> buf'[i] == buf[i])
    && (forall i :: at <= i < at + n && i < |buf| ==> TookOne(buf[i].data, buf'[i].data, cid))
  }

  lemma SameTwice(buf: Buffer, buf1: Buffer, buf2: Buffer, at: nat, n: nat, cid: CodecId)
    requires n > 0 && SameButTaken(buf, buf1, at, 1, cid) && SameButTaken(buf1, buf2, at + 1, n - 1, cid)
    ensures SameButTaken(buf, buf2, at, n, cid)
  {
    hide TookOne;
  }

  /** make_pdu packs the data of `n` units and leaves the other codings alone. */
  lemma {:induction false} MakePduPacks(sp: Spurt, buf: Buffer, lo: nat, at: nat, n: nat, x: Copy, first: bool)
    requires Cid(sp, x) != 0 && at < |buf| && at + n <= |buf|
    requires forall i :: at <= i < at + n ==> HasRep(buf[i].data, Cid(sp, x), Rep(sp, x, lo + i))
    ensures var (buf', bytes, used) := MakePdu(buf, at, n, Cid(sp, x), first);
            && used == n && bytes == BlockBytes(sp, x, lo + at, n, first)
            && SameButTaken(buf, buf', at, n, Cid(sp, x))
    decreases n
  {
    hide HasRep, SameButTaken, Taken, Rep, Cid;
    var cid := Cid(sp, x);
    if n == 0 {
      SameNone(buf, at, cid);
    } else {
      HasRepMeans(buf[at].data, cid, Rep(sp, x, lo + at));
      var md := buf[at].data;
      var j := Find(md, cid);
      var buf1 := buf[at := Node(buf[at].playout, md[j := Taken(md[j], first)])];
      SameOnce(buf, at, cid, first);
      if n > 1 {
        MakePduPacks(sp, buf1, lo, at + 1, n - 1, x, false);
        SameTwice(buf, buf1, MakePdu(buf1, at + 1, n - 1, cid, false).0, at, n, cid);
      } else {
        assert BlockBytes(sp, x, lo + at + 1, 0, false) == [];
      }
    }
  }

  lemma HasRepMeans(md: Media, cid: CodecId, cu: Coding)
    requires HasRep(md, cid, cu)
    ensures Find(md, cid) < |md| && md[Find(md, cid)] == cu
  {}

  lemma SameNone(buf: Buffer, at: nat, cid: CodecId)
    ensures SameButTaken(buf, buf, at, 0, cid)
  {}

  lemma SameOnce(buf: Buffer, at: nat, cid: CodecId, first: bool)
    requires cid != 0 && at < |buf| && Find(buf[at].data, cid) < |buf[at].data|
    ensures var md, j := buf[at].data, Find(buf[at].data, cid);
            SameButTaken(buf, buf[at := Node(buf[at].playout, md[j := Taken(md[j], first)])], at, 1, cid)
  {
    hide Taken;
  }

  lemma UnitOrder(sp: Spurt, a: int, b: int)
    requires sp.d > 0
    ensures UnitTime(sp, a) < UnitTime(sp, b) - sp.d * sp.h <==> b - a > sp.h
  {
    assert UnitTime(sp, b) - UnitTime(sp, a) == (b - a) * sp.d;
    if b - a > sp.h {
      assert (b - a) * sp.d >= (sp.h + 1) * sp.d;
    } else {
      assert (b - a) * sp.d <= sp.h * sp.d;
    }
  }

  lemma {:induction false} TrimDrops(sp: Spurt, buf: Buffer, lo: nat, at: nat)
    requires sp.d > 0 && at < |buf|
    requires forall i :: 0 <= i < |buf| ==> buf[i].playout == UnitTime(sp, lo + i)
    ensures Trim(buf, at, sp.d * sp.h) == buf[if at > sp.h then at - sp.h else 0..]
    decreases |buf|
  {
    UnitOrder(sp, lo, lo + at);
    if at > sp.h {
      TrimDrops(sp, buf[1..], lo + 1, at - 1);
    }
  }

  function Max(a: int, b: int): int { if a > b then a else b }

  /** The units nobody can send a redundant copy of, because the history has dropped them before
      the first redundant block is made. */
  function Lost(sp: Spurt): nat {
    Max(0, (sp.m - 1) * sp.upp - sp.h)
  }

  predicate Safe(sp: Spurt) {
    Lost(sp) == 0
  }

  /** No unit comes with two codings by the second codec besides the primary copy. */
  ghost predicate Once(sp: Spurt) {
    forall k: nat :: Single(Left(sp.unit(k), sp.c0), sp.c1)
  }

  /** Units before `p` hold at most one coding by `c1`, those of the first redundant block none once
      it has been sent, which is when more than `m` packets have been. */
  ghost predicate Spent(sp: Spurt, buf: Buffer, lo: nat, p: nat, j: nat) {
    Once(sp) ==>
      && (forall i :: 0 <= i < |buf| && lo + i < p ==> Single(buf[i].data, sp.c1))
      && (j > sp.m ==>
            forall i :: 0 <= i < |buf| && Lost(sp) <= lo + i < Lost(sp) + sp.upp ==> Without(buf[i].data, sp.c1))
  }

  /** The encoder is about to send packet `j`; its buffer starts at unit `lo`. */
  ghost predicate Full(sp: Spurt, e: Enc, j: nat, lo: nat, r: nat) {
    && e.layers == Start(sp).layers && e.history == Start(sp).history
    && e.ready == (j + 1) * sp.upp
    && lo <= j * sp.upp && lo + |e.buffer| == (j + 1) * sp.upp
    && BufferOk(sp, e.buffer, lo, j * sp.upp, r) && Spent(sp, e.buffer, lo, j * sp.upp, j)
  }

  /** Where the redundant block of packet `j` begins: `m` packets back, if that far remains. */
  function BlockStart(sp: Spurt, j: nat, lo: nat): nat
    requires j >= sp.m
  {
    Max(lo, (j - sp.m) * sp.upp)
  }

  /** Where the encoder stands when packet `j` is sent; what lies more than `h` units before
      that is forgotten. */
  function Stand(sp: Spurt, j: nat, lo: nat): int {
    if j >= sp.m then BlockStart(sp, j, lo) else j * sp.upp
  }

  lemma Times(sp: Spurt, j: nat)
    ensures (j + 1) * sp.upp == j * sp.upp + sp.upp
    ensures j >= sp.m ==> (j - sp.m) * sp.upp == j * sp.upp - sp.m * sp.upp
    ensures j >= sp.m ==> (j + 1) * sp.upp >= sp.m * sp.upp + sp.upp
    ensures j < sp.m ==> (j + 1) * sp.upp <= sp.m * sp.upp
  {
    Distributes(j, 1, sp.upp);
    if j < sp.m {
      MulMonotone(j + 1, sp.m, sp.upp);
    } else {
      Distributes(j - sp.m, sp.m, sp.upp);
      MulMonotone(sp.m, j, sp.upp);
    }
  }

  lemma Distributes(a: int, b: int, n: int)
    ensures (a + b) * n == a * n + b * n
  {}

  lemma UnitsWellCoded(sp: Spurt, k: nat)
    requires Good(sp)
    ensures HasRep(sp.unit(k), sp.c0, Rep(sp, Primary, k))
    ensures HasRep(Left(sp.unit(k), sp.c0), sp.c1, Rep(sp, Redundant, k))
  {
    assert WellCoded(sp, Primary, k) && WellCoded(sp, Redundant, k);
  }

  lemma PrimaryTaken(sp: Spurt, e: Enc, j: nat, lo: nat, r: nat)
    requires Good(sp) && Full(sp, e, j, lo, r)
    ensures var at := |e.buffer| - sp.upp;
            0 <= at < |e.buffer| && lo + at == j * sp.upp &&
            var (buf, data, used) := MakePdu(e.buffer, at, sp.upp, sp.c0, true);
            && used == sp.upp && data == BlockBytes(sp, Primary, j * sp.upp, sp.upp, true)
            && |buf| == |e.buffer| && BufferOk(sp, buf, lo, (j + 1) * sp.upp, r)
            && Spent(sp, buf, lo, (j + 1) * sp.upp, j)
  {
    hide Good, MakePdu, BlockBytes, Rep, HasRep, UnitTime, Spent, TookOne, Left;
    GoodBasics(sp);
    Times(sp, j);
    var at := |e.buffer| - sp.upp;
    forall i | at <= i < |e.buffer|
      ensures HasRep(e.buffer[i].data, sp.c0, Rep(sp, Primary, lo + i))
    {
      UnitsWellCoded(sp, lo + i);
    }
    MakePduPacks(sp, e.buffer, lo, at, sp.upp, Primary, true);
    var buf := MakePdu(e.buffer, at, sp.upp, sp.c0, true).0;
    forall i | at <= i < |buf|
      ensures HasRep(buf[i].data, sp.c1, Rep(sp, Redundant, lo + i))
    {
      UnitsWellCoded(sp, lo + i);
      TookLeaves(e.buffer[i].data, buf[i].data, sp.c0, sp.c1, Rep(sp, Redundant, lo + i));
    }
    SpentPrimary(sp, e.buffer, buf, lo, at, j);
  }

  lemma SpentPrimary(sp: Spurt, buf: Buffer, buf1: Buffer, lo: nat, at: nat, j: nat)
    requires sp.c0 != 0 && sp.c1 != 0 && sp.upp > 0
    requires lo + at == j * sp.upp && at + sp.upp == |buf|
    requires forall i :: at <= i < |buf| ==> buf[i].data == sp.unit(lo + i)
    requires SameButTaken(buf, buf1, at, sp.upp, sp.c0) && Spent(sp, buf, lo, j * sp.upp, j)
    ensures Spent(sp, buf1, lo, (j + 1) * sp.upp, j)
  {
    hide Single, Without, TookOne, Left, Lost;
    if Once(sp) {
      forall i | at <= i < |buf|
        ensures Single(buf1[i].data, sp.c1)
      {
        TookSingle(buf[i].data, buf1[i].data, sp.c0, sp.c1);
      }
      BlockIsOld(sp, j);
    }
  }

  /** The first redundant block lies before packet `m` + 1. */
  lemma BlockIsOld(sp: Spurt, j: nat)
    ensures j > sp.m ==> Lost(sp) + sp.upp <= j * sp.upp
  {
    if j > sp.m {
      MulMonotone(sp.m + 1, j, sp.upp);
      Distributes(sp.m, 1, sp.upp);
      assert (sp.m - 1) * sp.upp == sp.m * sp.upp - sp.upp;
    }
  }

  lemma RedundantTaken(sp: Spurt, buf: Buffer, lo: nat, p: nat, r: nat, s: nat)
    requires Good(sp) && lo <= s && s + sp.upp <= lo + |buf| && r <= s && s + sp.upp <= p
    requires BufferOk(sp, buf, lo, p, r)
    ensures var (buf', data, used) := MakePdu(buf, s - lo, sp.upp, sp.c1, true);
            && used == sp.upp && data == BlockBytes(sp, Redundant, s, sp.upp, true)
            && |buf'| == |buf| && BufferOk(sp, buf', lo, p, s + sp.upp)
  {
    hide MakePdu, BlockBytes, Good, Rep, HasRep, UnitTime, TookOne;
    GoodBasics(sp);
    MakePduPacks(sp, buf, lo, s - lo, sp.upp, Redundant, true);
  }

  /** Gather on its second and last layer, spelled out. */
  lemma GatherLast(e: Enc, upp: nat, buf: Buffer, at: nat, m: nat)
    requires at < |buf| && |e.layers| == 2 && e.layers[1].pktsOff == m
    ensures Gather(e, upp, buf, at, 0, 1) ==
              if e.ready <= m * upp then (buf, at, [])
              else
                var back := Min(at, m * upp);
                var (buf2, data2, used2) := MakePdu(buf, at - back, upp, e.layers[1].cid, true);
                (buf2, at - back, if used2 == 0 then [] else [data2])
  {
    if e.ready > m * upp {
      var back := Min(at, m * upp);
      assert (if 0 < m * upp then Min(at, m * upp - 0) else 0) == back;
      var (buf2, data2, used2) := MakePdu(buf, at - back, upp, e.layers[1].cid, true);
      assert Gather(e, upp, buf2, at - back, 0 + back, 2) == (buf2, at - back, []);
      assert [data2] + [] == [data2];
    }
  }

  /** Gather on two layers whose first always has data. */
  lemma GatherTwo(e: Enc, upp: nat, buf: Buffer, at: nat, m: nat)
    requires at < |buf| && upp > 0 && e.ready > 0
    requires |e.layers| == 2 && e.layers[0].pktsOff == 0 && e.layers[1].pktsOff == m
    requires MakePdu(buf, at, upp, e.layers[0].cid, true).2 == upp
    ensures var (buf1, data1, used1) := MakePdu(buf, at, upp, e.layers[0].cid, true);
            var (buf2, at2, more) := Gather(e, upp, buf1, at, 0, 1);
            Gather(e, upp, buf, at, 0, 0) == (buf2, at2, [data1] + more)
  {
    assert e.layers[0].pktsOff * upp == 0;
  }

  /** Whether packet `j` carries redundant data: the coding by `c1` of unit `s`, where the block
      begins, and of those after it is still there; or that of unit `s` is not. */
  ghost predicate Decided(sp: Spurt, e: Enc, j: nat, lo: nat, r: nat, full: bool) {
    if full then j >= sp.m && r <= BlockStart(sp, j, lo)
    else j >= sp.m ==>
           var at := BlockStart(sp, j, lo) - lo;
           0 <= at < |e.buffer| && Without(e.buffer[at].data, sp.c1)
  }

  /** Up to where the second codings have been sent, once packet `j` is gone. */
  function SentTo(sp: Spurt, j: nat, lo: nat, r: nat, full: bool): nat
    requires full ==> j >= sp.m
  {
    if full then BlockStart(sp, j, lo) + sp.upp else r
  }

  /** Stage 1 collects the primary data and, in a packet that carries any, the redundant data. */
  ghost predicate Collected(sp: Spurt, e: Enc, j: nat, lo: nat, r: nat, full: bool, g: (Buffer, nat, seq<seq<byte>>))
    requires full ==> j >= sp.m
  {
    var primary := BlockBytes(sp, Primary, j * sp.upp, sp.upp, true);
    && |g.0| == |e.buffer| && lo + g.1 == Stand(sp, j, lo)
    && g.2 == (if full then [primary, BlockBytes(sp, Redundant, BlockStart(sp, j, lo), sp.upp, true)] else [primary])
    && BufferOk(sp, g.0, lo, (j + 1) * sp.upp, SentTo(sp, j, lo, r, full))
    && Spent(sp, g.0, lo, (j + 1) * sp.upp, j + 1)
  }

  lemma GatherEarly(sp: Spurt, e: Enc, j: nat, lo: nat, r: nat)
    requires Good(sp) && Full(sp, e, j, lo, r) && j < sp.m && |e.buffer| >= sp.upp
    ensures Collected(sp, e, j, lo, r, false, Gather(e, sp.upp, e.buffer, |e.buffer| - sp.upp, 0, 0))
  {
    hide Good, MakePdu, Gather, BlockBytes, BufferOk, Spent;
    GoodBasics(sp);
    Times(sp, j);
    PrimaryTaken(sp, e, j, lo, r);
    var at0 := |e.buffer| - sp.upp;
    var buf1 := MakePdu(e.buffer, at0, sp.upp, sp.c0, true).0;
    GatherTwo(e, sp.upp, e.buffer, at0, sp.m);
    GatherLast(e, sp.upp, buf1, at0, sp.m);
    SpentNext(sp, buf1, lo, (j + 1) * sp.upp, j);
  }

  lemma SpentNext(sp: Spurt, buf: Buffer, lo: nat, p: nat, j: nat)
    requires Spent(sp, buf, lo, p, j) && j != sp.m
    ensures Spent(sp, buf, lo, p, j + 1)
  {
    hide Once, Single, Without, Lost;
  }

  lemma BackTo(sp: Spurt, j: nat, lo: nat, at0: nat)
    requires j >= sp.m && lo + at0 == j * sp.upp
    ensures lo + (at0 - Min(at0, sp.m * sp.upp)) == BlockStart(sp, j, lo)
    ensures lo <= BlockStart(sp, j, lo) <= j * sp.upp
  {
    Times(sp, j);
  }

  /** Packet `m` carries the block that begins with the first unit the history has kept. */
  predicate FirstBlock(sp: Spurt, j: nat, lo: nat, full: bool) {
    j == sp.m ==> full && BlockStart(sp, j, lo) == Lost(sp)
  }

  lemma GatherLate(sp: Spurt, e: Enc, j: nat, lo: nat, r: nat, full: bool)
    requires Good(sp) && Full(sp, e, j, lo, r) && j >= sp.m && |e.buffer| >= sp.upp
    requires Decided(sp, e, j, lo, r, full) && FirstBlock(sp, j, lo, full)
    ensures Collected(sp, e, j, lo, r, full, Gather(e, sp.upp, e.buffer, |e.buffer| - sp.upp, 0, 0))
  {
    hide Gather, MakePdu, BufferOk, BlockBytes, Good, BufferWorn, Emptied, Without, Spent, Lost;
    GoodBasics(sp);
    Times(sp, j);
    PrimaryTaken(sp, e, j, lo, r);
    var at0 := |e.buffer| - sp.upp;
    var s := BlockStart(sp, j, lo);
    BackTo(sp, j, lo, at0);
    var buf1 := MakePdu(e.buffer, at0, sp.upp, sp.c0, true).0;
    if full {
      GatherBoth(sp, e, at0, lo, (j + 1) * sp.upp, r, s);
      SpentGathered(sp, buf1, Gather(e, sp.upp, e.buffer, at0, 0, 0).0, lo, s - lo, (j + 1) * sp.upp, j);
    } else {
      MakePduWears(e.buffer, at0, sp.upp, sp.c0, true);
      GatherOne(sp, e, at0, s - lo);
      SpentNext(sp, buf1, lo, (j + 1) * sp.upp, j);
    }
  }

  lemma GatherBoth(sp: Spurt, e: Enc, at0: nat, lo: nat, p: nat, r: nat, s: nat)
    requires Good(sp) && e.layers == Start(sp).layers && at0 < |e.buffer| && e.ready > sp.m * sp.upp
    requires lo <= s && s + sp.upp <= lo + |e.buffer| && r <= s && s + sp.upp <= p
    requires s - lo == at0 - Min(at0, sp.m * sp.upp)
    requires var (buf1, _, used) := MakePdu(e.buffer, at0, sp.upp, sp.c0, true);
             used == sp.upp && BufferOk(sp, buf1, lo, p, r)
    ensures var (buf1, data, _) := MakePdu(e.buffer, at0, sp.upp, sp.c0, true);
            var (buf, at, coded) := Gather(e, sp.upp, e.buffer, at0, 0, 0);
            && |buf| == |e.buffer| && at == s - lo && BufferOk(sp, buf, lo, p, s + sp.upp)
            && coded == [data, BlockBytes(sp, Redundant, s, sp.upp, true)]
            && BufferWorn(buf1, buf) && Emptied(buf1, buf, at, sp.upp, sp.c1)
  {
    hide Gather, MakePdu, BufferOk, BlockBytes, Good, BufferWorn, Emptied;
    GoodBasics(sp);
    var (buf1, data1, _) := MakePdu(e.buffer, at0, sp.upp, sp.c0, true);
    GatherTwo(e, sp.upp, e.buffer, at0, sp.m);
    GatherLast(e, sp.upp, buf1, at0, sp.m);
    RedundantTaken(sp, buf1, lo, p, r, s);
    MakePduWears(buf1, s - lo, sp.upp, sp.c1, true);
    var data2 := BlockBytes(sp, Redundant, s, sp.upp, true);
    assert [data1] + [data2] == [data1, data2];
  }

  /** The first redundant block takes its units' codings, and nothing brings them back. */
  lemma SpentGathered(sp: Spurt, buf: Buffer, buf1: Buffer, lo: nat, at: nat, p: nat, j: nat)
    requires sp.c1 != 0 && Spent(sp, buf, lo, p, j)
    requires BufferWorn(buf, buf1) && Emptied(buf, buf1, at, sp.upp, sp.c1)
    requires j == sp.m ==> lo + at == Lost(sp) && lo + at + sp.upp <= p
    ensures Spent(sp, buf1, lo, p, j + 1)
  {
    hide Single, Without, Worn, Lost, Once;
    forall i | 0 <= i < |buf|
      ensures Single(buf[i].data, sp.c1) ==> Single(buf1[i].data, sp.c1)
      ensures Without(buf[i].data, sp.c1) ==> Without(buf1[i].data, sp.c1)
    {
      WornKeeps(buf[i].data, buf1[i].data, sp.c1);
    }
  }

  /** The unit where the redundant block would begin has been sent already. */
  lemma GatherOne(sp: Spurt, e: Enc, at0: nat, at: nat)
    requires Good(sp) && e.layers == Start(sp).layers && at0 < |e.buffer| && e.ready > sp.m * sp.upp
    requires at == at0 - Min(at0, sp.m * sp.upp) && Without(e.buffer[at].data, sp.c1)
    requires var (buf1, _, used) := MakePdu(e.buffer, at0, sp.upp, sp.c0, true);
             used == sp.upp && BufferWorn(e.buffer, buf1)
    ensures var (buf1, data1, _) := MakePdu(e.buffer, at0, sp.upp, sp.c0, true);
            Gather(e, sp.upp, e.buffer, at0, 0, 0) == (buf1, at, [data1])
  {
    hide Gather, MakePdu, Good, Without, Worn;
    GoodBasics(sp);
    var (buf1, data1, _) := MakePdu(e.buffer, at0, sp.upp, sp.c0, true);
    GatherTwo(e, sp.upp, e.buffer, at0, sp.m);
    GatherLast(e, sp.upp, buf1, at0, sp.m);
    WornKeeps(e.buffer[at].data, buf1[at].data, sp.c1);
    MakePduFindsNone(buf1, at, sp.upp, sp.c1, true);
    assert [data1] + [] == [data1];
  }

  lemma GatherCollects(sp: Spurt, e: Enc, j: nat, lo: nat, r: nat, full: bool)
    requires Good(sp) && Full(sp, e, j, lo, r) && Decided(sp, e, j, lo, r, full) && FirstBlock(sp, j, lo, full)
    ensures |e.buffer| >= sp.upp
    ensures Collected(sp, e, j, lo, r, full, Gather(e, sp.upp, e.buffer, |e.buffer| - sp.upp, 0, 0))
  {
    hide Collected, Gather, Good, BufferOk, Spent, FirstBlock;
    GoodBasics(sp);
    Times(sp, j);
    if j >= sp.m { GatherLate(sp, e, j, lo, r, full); } else { GatherEarly(sp, e, j, lo, r); }
  }

  /** Where the redundant block of packet `j` would begin, or 0 while there is none. */
  function From(sp: Spurt, j: nat, lo: nat): nat {
    if j >= sp.m then BlockStart(sp, j, lo) else 0
  }

  /** What the encoder has forgotten once packet `j` is sent. */
  function Forget(sp: Spurt, j: nat, lo: nat): nat {
    Max(lo, Stand(sp, j, lo) - sp.h)
  }

  /** After `j` packets and `i` more units: the buffer starts at unit `lo`, and redundant data
      has been sent of no unit from `r` on. */
  ghost predicate Between(sp: Spurt, e: Enc, j: nat, i: nat, lo: nat, r: nat) {
    && e.layers == Start(sp).layers && e.history == Start(sp).history
    && e.ready == j * sp.upp + i
    && lo <= j * sp.upp && lo + |e.buffer| == j * sp.upp + i
    && BufferOk(sp, e.buffer, lo, j * sp.upp, r) && Spent(sp, e.buffer, lo, j * sp.upp, j)
  }

  lemma BlocksAre(sp: Spurt, coded: seq<seq<byte>>)
    requires |coded| == 1 || |coded| == 2
    ensures var off := sp.d * (sp.m * sp.upp);
            sp.cs.samplesPerFrame(sp.c1) == sp.d ==>
              RedundantBlocks(sp.cs, Start(sp).layers, sp.upp, coded)
                == [Block(sp.cs.payload(sp.c1), off, if |coded| == 2 then coded[1] else [])]
  {
    var layers := Start(sp).layers;
    assert layers[1] == Layer(sp.c1, sp.m);
    if |coded| == 2 {
      assert coded[|coded| - 1 - 0] == coded[1];
    }
  }

  lemma BufferTimes(sp: Spurt, buf: Buffer, lo: nat, p: nat, r: nat)
    requires BufferOk(sp, buf, lo, p, r)
    ensures forall i :: 0 <= i < |buf| ==> buf[i].playout == UnitTime(sp, lo + i)
  {
    hide HasRep, Rep, UnitTime;
  }

  lemma BufferTail(sp: Spurt, buf: Buffer, lo: nat, p: nat, r: nat, drop: nat)
    requires BufferOk(sp, buf, lo, p, r) && drop <= |buf|
    ensures BufferOk(sp, buf[drop..], lo + drop, p, r)
  {
    hide HasRep, Rep, UnitTime;
    var kept := buf[drop..];
    assert forall i :: 0 <= i < |kept| ==> kept[i] == buf[drop + i];
  }

  lemma TrimmedOk(sp: Spurt, buf: Buffer, lo: nat, at: nat, p: nat, r: nat)
    requires sp.d > 0 && at < |buf| && BufferOk(sp, buf, lo, p, r)
    ensures var lo' := Max(lo, lo + at - sp.h); var kept := Trim(buf, at, sp.d * sp.h);
            lo' + |kept| == lo + |buf| && BufferOk(sp, kept, lo', p, r)
  {
    hide BufferOk, Trim;
    BufferTimes(sp, buf, lo, p, r);
    TrimDrops(sp, buf, lo, at);
    BufferTail(sp, buf, lo, p, r, if at > sp.h then at - sp.h else 0);
  }

  lemma StartIs(sp: Spurt)
    requires Good(sp)
    ensures Start(sp).history == sp.d * sp.h
  {}

  lemma SpentTail(sp: Spurt, buf: Buffer, lo: nat, p: nat, j: nat, drop: nat)
    requires Spent(sp, buf, lo, p, j) && drop <= |buf|
    ensures Spent(sp, buf[drop..], lo + drop, p, j)
  {
    hide Single, Without, Lost, Once;
    var kept := buf[drop..];
    assert forall i :: 0 <= i < |kept| ==> kept[i] == buf[drop + i];
  }

  lemma SpentTrimmed(sp: Spurt, buf: Buffer, lo: nat, at: nat, p: nat, r: nat, j: nat)
    requires sp.d > 0 && at < |buf| && BufferOk(sp, buf, lo, p, r) && Spent(sp, buf, lo, p, j)
    ensures Spent(sp, Trim(buf, at, sp.d * sp.h), Max(lo, lo + at - sp.h), p, j)
  {
    hide BufferOk, Trim, Spent;
    BufferTimes(sp, buf, lo, p, r);
    TrimDrops(sp, buf, lo, at);
    SpentTail(sp, buf, lo, p, j, if at > sp.h then at - sp.h else 0);
  }

  /** redundancy_encoder_output sends packet `j`. */
  lemma OutputSends(sp: Spurt, e: Enc, j: nat, lo: nat, r: nat, full: bool)
    requires Good(sp) && Full(sp, e, j, lo, r) && Decided(sp, e, j, lo, r, full) && FirstBlock(sp, j, lo, full)
    ensures match Output(sp.cs, e, sp.upp)
            case None => false
            case Some((e', bytes)) =>
              && bytes == Layout(PacketWith(sp, j, full, From(sp, j, lo)))
              && Between(sp, e', j + 1, 0, Forget(sp, j, lo), SentTo(sp, j, lo, r, full))
  {
    hide Good, Gather, BlockBytes, PacketWith, Output, Layout, Trim, RedundantBlocks, BufferOk, Spent, Lost, Without,
      FirstBlock;
    GatherCollects(sp, e, j, lo, r, full);
    GoodBasics(sp);
    StartIs(sp);
    Times(sp, j);
    var (buf, at, coded) := Gather(e, sp.upp, e.buffer, |e.buffer| - sp.upp, 0, 0);
    OutputIs(sp, e, j, lo, full, buf, at, coded);
    TrimmedOk(sp, buf, lo, at, (j + 1) * sp.upp, SentTo(sp, j, lo, r, full));
    SpentTrimmed(sp, buf, lo, at, (j + 1) * sp.upp, SentTo(sp, j, lo, r, full), j + 1);
  }

  lemma OutputIs(sp: Spurt, e: Enc, j: nat, lo: nat, full: bool, buf: Buffer, at: nat, coded: seq<seq<byte>>)
    requires Good(sp) && e.layers == Start(sp).layers && |e.buffer| >= sp.upp && at < |buf|
    requires Gather(e, sp.upp, e.buffer, |e.buffer| - sp.upp, 0, 0) == (buf, at, coded)
    requires var primary := BlockBytes(sp, Primary, j * sp.upp, sp.upp, true);
             coded == if full then [primary, BlockBytes(sp, Redundant, From(sp, j, lo), sp.upp, true)] else [primary]
    ensures Output(sp.cs, e, sp.upp) ==
              Some((e.(buffer := Trim(buf, at, e.history)), Layout(PacketWith(sp, j, full, From(sp, j, lo)))))
  {
    hide Gather, Trim, BlockBytes, RedundantBlocks, Layout;
    BlocksAre(sp, coded);
    var blocks := RedundantBlocks(sp.cs, e.layers, sp.upp, coded);
    var p := PacketWith(sp, j, full, From(sp, j, lo));
    assert blocks == p.blocks && coded[0] == p.primary;
    assert forall b <- blocks :: b in p.blocks;
  }

  lemma Within(j: nat, i: nat, upp: nat)
    requires i <= upp && upp > 0
    ensures (j * upp + i) % upp == if i == upp then 0 else i
  {
    if i == upp {
      assert j * upp + i == (j + 1) * upp + 0;
      DivMod(j + 1, 0, upp);
    } else {
      DivMod(j, i, upp);
    }
  }

  lemma AppendKeeps(sp: Spurt, e: Enc, j: nat, i: nat, lo: nat, r: nat)
    requires Good(sp) && Between(sp, e, j, i, lo, r)
    ensures var k := j * sp.upp + i;
            var e1 := e.(buffer := e.buffer + [Node(UnitTime(sp, k), sp.unit(k))], ready := e.ready + 1);
            && sp.unit(k) != []
            && e1.layers == Start(sp).layers && e1.history == Start(sp).history
            && e1.ready == k + 1 && lo + |e1.buffer| == k + 1
            && BufferOk(sp, e1.buffer, lo, j * sp.upp, r) && Spent(sp, e1.buffer, lo, j * sp.upp, j)
  {
    hide Spent, Good, HasRep, Rep;
    var k := j * sp.upp + i;
    UnitsWellCoded(sp, k);
    HasRepMeans(sp.unit(k), sp.c0, Rep(sp, Primary, k));
    assert lo + |e.buffer| == k;
    SpentAppend(sp, e.buffer, lo, j, i);
  }

  /** Units that come after the first redundant block are not in it. */
  lemma SpentAppend(sp: Spurt, buf: Buffer, lo: nat, j: nat, i: nat)
    requires Spent(sp, buf, lo, j * sp.upp, j) && lo + |buf| == j * sp.upp + i
    ensures var k := j * sp.upp + i; Spent(sp, buf + [Node(UnitTime(sp, k), sp.unit(k))], lo, j * sp.upp, j)
  {
    hide Single, Without, UnitTime, Lost, Once;
    BlockIsOld(sp, j);
  }

  function PacketTime(sp: Spurt, j: nat): int {
    UnitTime(sp, (j + 1) * sp.upp - 1)
  }

  /** A unit that does not complete a packet is only buffered. */
  lemma AcceptEarly(sp: Spurt, e: Enc, j: nat, i: nat, lo: nat, r: nat)
    requires Good(sp) && Between(sp, e, j, i, lo, r) && i + 1 < sp.upp
    ensures var k := j * sp.upp + i;
            match Accept(sp.cs, e, sp.upp, Node(UnitTime(sp, k), sp.unit(k)))
            case Some((e', None)) => Between(sp, e', j, i + 1, lo, r)
            case _ => false
  {
    AppendKeeps(sp, e, j, i, lo, r);
    Within(j, i + 1, sp.upp);
  }

  /** The unit that completes packet `j` sends it. */
  ghost predicate Sends(sp: Spurt, j: nat, lo: nat, r: nat, full: bool, result: Option<(Enc, Option<Node<seq<byte>>>)>)
    requires Good(sp) && (full ==> j >= sp.m)
  {
    match result
    case Some((e', Some(p))) =>
      && p == Node(PacketTime(sp, j), Layout(PacketWith(sp, j, full, From(sp, j, lo))))
      && Between(sp, e', j + 1, 0, Forget(sp, j, lo), SentTo(sp, j, lo, r, full))
    case _ => false
  }

  /** The settings decide which of the two it is: the block of packet `m` is full, and begins
      with the first unit the history has kept. */
  ghost predicate Settled(sp: Spurt, j: nat, lo: nat, r: nat, full: bool) {
    && (full ==> j >= sp.m && r <= BlockStart(sp, j, lo))
    && FirstBlock(sp, j, lo, full)
    && (j > sp.m && !full ==> Once(sp) && Lost(sp) <= BlockStart(sp, j, lo) < Lost(sp) + sp.upp)
  }

  lemma FullDecided(sp: Spurt, e: Enc, j: nat, lo: nat, r: nat, full: bool)
    requires sp.upp > 0 && Full(sp, e, j, lo, r) && Settled(sp, j, lo, r, full)
    ensures Decided(sp, e, j, lo, r, full)
  {
    hide Lost, Once, Single, Without, BufferOk;
    Times(sp, j);
    if j > sp.m && !full {
      BackTo(sp, j, lo, j * sp.upp - lo);
    }
  }

  lemma AcceptLast(sp: Spurt, e: Enc, j: nat, lo: nat, r: nat, full: bool)
    requires Good(sp) && Between(sp, e, j, sp.upp - 1, lo, r) && Settled(sp, j, lo, r, full)
    ensures var k := j * sp.upp + (sp.upp - 1);
            Sends(sp, j, lo, r, full, Accept(sp.cs, e, sp.upp, Node(UnitTime(sp, k), sp.unit(k))))
  {
    hide Output, PacketWith, Good, Accept, Spent, Lost, Decided;
    var k := j * sp.upp + (sp.upp - 1);
    AppendKeeps(sp, e, j, sp.upp - 1, lo, r);
    Within(j, sp.upp, sp.upp);
    Times(sp, j);
    var n := Node(UnitTime(sp, k), sp.unit(k));
    var e1 := e.(buffer := e.buffer + [n], ready := e.ready + 1);
    assert Full(sp, e1, j, lo, r);
    FullDecided(sp, e1, j, lo, r, full);
    OutputSends(sp, e1, j, lo, r, full);
    AcceptIs(sp.cs, e, sp.upp, n);
  }

  lemma AcceptIs(cs: Codecs, e: Enc, upp: nat, n: Node<Media>)
    requires upp > 0 && n.data != [] && (e.ready + 1) % upp == 0
    ensures Accept(cs, e, upp, n) ==
              match Output(cs, e.(buffer := e.buffer + [n], ready := e.ready + 1), upp)
              case None => None
              case Some((e2, bytes)) => Some((e2, Some(Node(n.playout, bytes))))
  {}

  // --------------------------------------------------- how far back the history goes

  /** The first unit still in the encoder's buffer after `j` packets. */
  function LoAfter(sp: Spurt, j: nat): nat {
    if j == 0 then 0 else Forget(sp, j - 1, LoAfter(sp, j - 1))
  }

  /** With the history the code keeps, of as many units as the offset has packets, nothing is
      lost in three cases only. */
  lemma SafeSettings(sp: Spurt)
    requires sp.upp > 0 && sp.h == sp.m
    ensures Safe(sp) <==> sp.upp == 1 || sp.m <= 1 || (sp.m == 2 && sp.upp == 2)
  {
    LostIs(sp);
    ShortHistory(sp.m, sp.upp);
  }

  lemma LostIs(sp: Spurt)
    ensures Safe(sp) <==> (sp.m - 1) * sp.upp <= sp.h
  {}

  lemma ShortHistory(m: nat, upp: nat)
    requires upp > 0
    ensures (m - 1) * upp <= m <==> upp == 1 || m <= 1 || (m == 2 && upp == 2)
  {
    if m == 0 {
      assert (m - 1) * upp == -(upp as int);
    } else if m == 1 {
      assert (m - 1) * upp == 0;
    } else if m == 2 {
      assert (m - 1) * upp == upp;
    } else if upp > 1 {
      MulMonotone(2, upp, m - 1);
      assert upp * (m - 1) == (m - 1) * upp;
    }
  }

  lemma {:induction false} LoEarly(sp: Spurt, j: nat)
    requires j <= sp.m
    ensures LoAfter(sp, j) == Max(0, (j - 1) * sp.upp - sp.h)
  {
    if j > 0 {
      LoEarly(sp, j - 1);
      assert (j - 1 - 1) * sp.upp == (j - 1) * sp.upp - sp.upp;
    } else {
      assert (0 - 1) * sp.upp == -(sp.upp as int);
    }
  }

  /** From packet `m` on the buffer starts between unit `Lost` and the next redundant block. */
  lemma {:induction false} LoLate(sp: Spurt, j: nat)
    requires j >= sp.m
    ensures Lost(sp) <= LoAfter(sp, j) <= Max(Lost(sp), (j - sp.m) * sp.upp)
  {
    if j == sp.m {
      LoEarly(sp, j);
      assert (j - sp.m) * sp.upp == 0;
    } else {
      LoLate(sp, j - 1);
      Step(j - 1 - sp.m, sp.upp);
    }
  }

  lemma Step(a: int, n: int)
    ensures (a + 1) * n == a * n + n
  {}

  /** Where the redundant block of packet `j` begins: `m` packets back, or with the first unit
      that is not lost. */
  function BlockFrom(sp: Spurt, j: nat): nat {
    if j >= sp.m then Max(Lost(sp), (j - sp.m) * sp.upp) else 0
  }

  /** The packets with redundant data: packet `m`, none while their block would begin among the
      units packet `m` has taken, and all after that. */
  predicate Carries(sp: Spurt, j: nat) {
    j == sp.m || (j > sp.m && (j - sp.m) * sp.upp >= Lost(sp) + sp.upp)
  }

  lemma BlockFromIs(sp: Spurt, j: nat)
    ensures From(sp, j, LoAfter(sp, j)) == BlockFrom(sp, j)
  {
    if j >= sp.m {
      LoLate(sp, j);
    }
  }

  /** In safe settings every packet from `m` on carries the block of `m` packets before. */
  lemma SafeCarries(sp: Spurt, j: nat)
    requires Safe(sp)
    ensures Carries(sp, j) <==> j >= sp.m
    ensures j >= sp.m ==> BlockFrom(sp, j) == (j - sp.m) * sp.upp
  {
    if j > sp.m {
      MulMonotone(1, j - sp.m, sp.upp);
    } else if j == sp.m {
      assert (j - sp.m) * sp.upp == 0;
    }
  }

  /** Up to where redundant copies have been sent after `j` packets. */
  function RAfter(sp: Spurt, j: nat): nat {
    if j == 0 then 0 else SentTo(sp, j - 1, LoAfter(sp, j - 1), RAfter(sp, j - 1), Carries(sp, j - 1))
  }

  lemma {:induction false} RSmall(sp: Spurt, j: nat)
    ensures RAfter(sp, j) <= if j <= sp.m then 0 else Max(Lost(sp) + sp.upp, (j - sp.m) * sp.upp)
  {
    if j > 0 {
      RSmall(sp, j - 1);
      BlockFromIs(sp, j - 1);
      Step(j - 1 - sp.m, sp.upp);
      if j - 1 == sp.m {
        assert (j - 1 - sp.m) * sp.upp == 0;
      }
    }
  }

  lemma AllSettled(sp: Spurt, j: nat)
    requires sp.upp > 0 && (Safe(sp) || Once(sp))
    ensures Settled(sp, j, LoAfter(sp, j), RAfter(sp, j), Carries(sp, j))
  {
    hide Once, LoAfter, RAfter;
    RSmall(sp, j);
    BlockFromIs(sp, j);
    if j == sp.m {
      assert (j - sp.m) * sp.upp == 0;
    }
    if Safe(sp) {
      SafeCarries(sp, j);
    }
  }

  /** Packet `j`, whatever the settings. */
  function PacketOf(sp: Spurt, j: nat): (p: Packet)
    requires Good(sp)
    ensures 0 <= p.ppt < 128
  {
    PacketWith(sp, j, Carries(sp, j), BlockFrom(sp, j))
  }

  ghost predicate SentSoFar(sp: Spurt, sent: seq<Node<seq<byte>>>, j: nat)
    requires Good(sp)
  {
    && |sent| == j
    && forall q :: 0 <= q < j ==> sent[q] == Node(PacketTime(sp, q), Layout(PacketOf(sp, q)))
  }

  /** The encoder over a whole talkspurt. */
  ghost predicate Runs(sp: Spurt, j: nat, i: nat)
    requires Good(sp)
  {
    match Encode(sp, j * sp.upp + i)
    case Some((e, sent)) => Between(sp, e, j, i, LoAfter(sp, j), RAfter(sp, j)) && SentSoFar(sp, sent, j)
    case None => false
  }

  lemma {:induction false} EncodeRun(sp: Spurt, j: nat, i: nat)
    requires Good(sp) && i < sp.upp && (Safe(sp) || Once(sp))
    ensures Runs(sp, j, i)
    decreases j, i
  {
    hide Good, Accept, Between, Safe, Once;
    if i > 0 {
      EncodeRun(sp, j, i - 1);
      RunWithin(sp, j, i - 1);
    } else if j > 0 {
      EncodeRun(sp, j - 1, sp.upp - 1);
      RunPacket(sp, j - 1);
    } else {
      RunStart(sp);
    }
  }

  lemma RunStart(sp: Spurt)
    requires Good(sp)
    ensures Runs(sp, 0, 0)
  {
    assert 0 * sp.upp == 0;
  }

  lemma RunWithin(sp: Spurt, j: nat, i: nat)
    requires Good(sp) && i + 1 < sp.upp && Runs(sp, j, i)
    ensures Runs(sp, j, i + 1)
  {
    hide Accept, Good, BufferOk, PacketOf, Layout, PacketTime, SentSoFar, Between;
    GoodBasics(sp);
    var (e, sent) := Encode(sp, j * sp.upp + i).value;
    AcceptEarly(sp, e, j, i, LoAfter(sp, j), RAfter(sp, j));
  }

  lemma RunPacket(sp: Spurt, j: nat)
    requires Good(sp) && Runs(sp, j, sp.upp - 1) && (Safe(sp) || Once(sp))
    ensures Runs(sp, j + 1, 0)
  {
    hide Accept, Output, Good, Between, PacketWith, Safe, Once, Carries, BlockFrom, From, Settled, Layout, PacketTime;
    GoodBasics(sp);
    var k := j * sp.upp + (sp.upp - 1);
    var (e, sent) := Encode(sp, k).value;
    AllSettled(sp, j);
    BlockFromIs(sp, j);
    AcceptLast(sp, e, j, LoAfter(sp, j), RAfter(sp, j), Carries(sp, j));
    Step(j, sp.upp);
    assert (j + 1) * sp.upp + 0 == k + 1;
  }
}
