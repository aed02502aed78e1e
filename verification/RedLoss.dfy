/**
  The decoder's half of the loss theorem: any packets of a talkspurt are dropped, the rest
  is decoded in order, and every unit that arrived in either copy is back in its place.
 */
module RedLoss {
  import opened Arithmetic
  import opened Options
  import opened ByteValues
  import opened PlayoutBuffers
  import opened RedHeaders
  import opened RedCoder
  import opened RedSpent
  import opened RedTheorem

  /** Unit `k` as the decoder gets it: its codec state travels only at the head of a packet. */
  function Received(sp: Spurt, x: Copy, k: nat, first: bool): Coding {
    Coding(Cid(sp, x), if first then Rep(sp, x, k).state else [], Rep(sp, x, k).data)
  }

  function ReceivedBlock(sp: Spurt, x: Copy, k: nat, n: nat, first: bool): (s: seq<Coding>)
    ensures |s| == n
  {
    seq(n, i requires 0 <= i < n => Received(sp, x, k + i, first && i == 0))
  }

  lemma BlockCodec(sp: Spurt, x: Copy, k: nat, n: nat, first: bool)
    ensures forall i :: 0 <= i < n ==> ReceivedBlock(sp, x, k, n, first)[i].id == Cid(sp, x)
  {
    hide Rep;
    forall i | 0 <= i < n
      ensures ReceivedBlock(sp, x, k, n, first)[i].id == Cid(sp, x)
    {
      assert ReceivedBlock(sp, x, k, n, first)[i] == Received(sp, x, k + i, first && i == 0);
    }
  }

  lemma SplitBlockIs(sp: Spurt, x: Copy, k: nat, t: int, out: MediaBuffer)
    requires Good(sp)
    ensures SplitBlock(sp, x, k, t, out) == Some(PlaceAll(sp.cs, out, ReceivedBlock(sp, x, k, sp.upp, true), t, sp.d))
  {
    hide Frames, PlaceAll, BlockBytes, ReceivedBlock;
    FramesOfBlock(sp, x, k, sp.upp, true);
  }

  lemma SpurtCodec(sp: Spurt, x: Copy, k: nat)
    requires Good(sp)
    ensures WellCoded(sp, x, k)
  {}

  /** Splitting a block finds the units it was made of. */
  lemma {:induction false} FramesOfBlock(sp: Spurt, x: Copy, k: nat, n: nat, first: bool)
    requires Good(sp)
    ensures Frames(sp.cs, Cid(sp, x), BlockBytes(sp, x, k, n, first), first) == Some(ReceivedBlock(sp, x, k, n, first))
    decreases n
  {
    hide Good, Frames, Rep;
    if n > 0 {
      FramesOfBlock(sp, x, k + 1, n - 1, false);
      FirstOfBlock(sp, x, k, BlockBytes(sp, x, k + 1, n - 1, false), first,
                   ReceivedBlock(sp, x, k + 1, n - 1, false));
      assert ReceivedBlock(sp, x, k, n, first) ==
             [Received(sp, x, k, first)] + ReceivedBlock(sp, x, k + 1, n - 1, false);
    } else {
      NoFrames(sp.cs, Cid(sp, x), first);
    }
  }

  lemma NoFrames(cs: Codecs, cid: CodecId, first: bool)
    ensures Frames(cs, cid, [], first) == Some([])
  {}

  lemma FirstOfBlock(sp: Spurt, x: Copy, k: nat, rest: seq<byte>, first: bool, more: seq<Coding>)
    requires Good(sp)
    requires Frames(sp.cs, Cid(sp, x), rest, false) == Some(more)
    ensures Frames(sp.cs, Cid(sp, x), Bytes(Rep(sp, x, k), first) + rest, first) ==
            Some([Received(sp, x, k, first)] + more)
  {
    hide Good, Frames, Rep;
    SpurtCodec(sp, x, k);
    var cu := Rep(sp, x, k);
    var state := if first then cu.state else [];
    OneFrame(sp.cs, Cid(sp, x), state, cu.data, rest, first, more);
    assert Bytes(cu, first) + rest == state + (cu.data + rest);
  }

  /** Decoding one block of the spurt adds one coding to each of its units. */
  lemma BlockPlaced(sp: Spurt, x: Copy, k: nat, t: int, out: MediaBuffer)
    requires Good(sp)
    requires forall i :: 0 <= i < sp.upp ==> Room(sp.cs, out, At(t, i, sp.d), Cid(sp, x))
    ensures match SplitBlock(sp, x, k, t, out)
            case None => false
            case Some(out') => Extended(out, out', ReceivedBlock(sp, x, k, sp.upp, true), sp.upp, t, sp.d)
  {
    hide Good, SplitBlock, ReceivedBlock, Extended, PlaceAll, Room;
    GoodBasics(sp);
    var frames := ReceivedBlock(sp, x, k, sp.upp, true);
    SplitBlockIs(sp, x, k, t, out);
    BlockCodec(sp, x, k, sp.upp, true);
    AcceptedExactly(sp.cs, out, frames, Cid(sp, x), t, sp.d);
    SplitPlacesPrefix(sp.cs, out, frames, t, sp.d);
  }

  /** If the two codecs are one and the first unit has a coding already, the whole block is
      refused. */
  lemma BlockRefused(sp: Spurt, x: Copy, k: nat, t: int, out: MediaBuffer)
    requires Good(sp) && sp.c0 == sp.c1
    requires Get(out, t) != [] && Get(out, t)[0].id == sp.c0
    ensures match SplitBlock(sp, x, k, t, out)
            case None => false
            case Some(out') => forall u :: Get(out', u) == Get(out, u)
  {
    hide Good, SplitBlock, ReceivedBlock, PlaceAll;
    GoodBasics(sp);
    var frames := ReceivedBlock(sp, x, k, sp.upp, true);
    SplitBlockIs(sp, x, k, t, out);
    BlockCodec(sp, x, k, sp.upp, true);
    assert Find(Get(out, t), frames[0].id) == 0;
    NothingAfterRefusal(sp.cs, out, frames, t, sp.d);
  }

  function SplitBlock(sp: Spurt, x: Copy, k: nat, t: int, out: MediaBuffer): Option<MediaBuffer> {
    SplitUnit(sp.cs, sp.cs.payload(sp.c0), sp.cs.payload(Cid(sp, x)), BlockBytes(sp, x, k, sp.upp, true), t, out)
  }

  lemma EmptyBlock(sp: Spurt, t: int, out: MediaBuffer)
    ensures SplitUnit(sp.cs, sp.cs.payload(sp.c0), sp.cs.payload(sp.c1), [], t, out) == Some(out)
  {
    assert Frames(sp.cs, sp.cs.byPayload(sp.cs.payload(sp.c1)), [], true) == Some([]);
  }

  // ------------------------------------------------------- where units reappear

  /** What every unit is delayed by: the network, `upp` - 1 frames to fill a packet, and `m`
      packets for the redundant copies. */
  function Shift(sp: Spurt, delay: int): int {
    delay + (sp.upp - 1) * sp.d + (sp.m * sp.upp) * sp.d
  }

  /** The playout time of unit `k` at the decoder. */
  function Slot(sp: Spurt, delay: int, k: int): int {
    At(sp.t0 + Shift(sp, delay), k, sp.d)
  }

  lemma SlotIsShifted(sp: Spurt, delay: int, k: int)
    ensures Slot(sp, delay, k) == UnitTime(sp, k) + Shift(sp, delay)
  {}

  /** A redundant block starts at its packet's own time, and that is the slot of its first unit;
      the primary block starts the greatest offset later, and that is the slot of its. */
  lemma BlockSlots(sp: Spurt, delay: int, j: nat)
    ensures PacketTime(sp, j) + delay == Slot(sp, delay, (j - sp.m) * sp.upp)
    ensures PacketTime(sp, j) + delay + sp.d * (sp.m * sp.upp) == Slot(sp, delay, j * sp.upp)
  {
    var u, v, w := j * sp.upp, sp.m * sp.upp, (j - sp.m) * sp.upp;
    assert w == u - v;
    assert (j + 1) * sp.upp - 1 == u + (sp.upp - 1);
    assert (u + (sp.upp - 1)) * sp.d == u * sp.d + (sp.upp - 1) * sp.d;
    assert w * sp.d == u * sp.d - v * sp.d;
    assert sp.d * v == v * sp.d;
  }

  lemma SlotPlus(sp: Spurt, delay: int, k: int, i: int)
    ensures At(Slot(sp, delay, k), i, sp.d) == Slot(sp, delay, k + i)
  {
    assert (k + i) * sp.d == k * sp.d + i * sp.d;
  }

  lemma SlotInjective(sp: Spurt, delay: int, k: int, l: int)
    requires sp.d > 0
    ensures Slot(sp, delay, k) == Slot(sp, delay, l) <==> k == l
  {
    AtInjective(sp.t0 + Shift(sp, delay), k, l, sp.d);
  }

  /** What a unit holds that is offered one more coding: if the two codecs are one it takes only
      the first. */
  function Offered(sp: Spurt, md: Media, more: Media): Media {
    if sp.c0 == sp.c1 && md != [] then md else md + more
  }

  /** What unit `k` should hold after the packets below `j`: the copy from its own packet and
      the copy from the packet `m` later, if they arrived, the redundant one marked by codec. */
  function Expected(sp: Spurt, arrived: nat -> bool, j: nat, k: nat): Media
    requires sp.upp > 0
  {
    var own := k / sp.upp;
    var first := k % sp.upp == 0;
    var primary := if own < j && arrived(own) then [Received(sp, Primary, k, first)] else [];
    var redundant := if own + sp.m < j && arrived(own + sp.m) then [Received(sp, Redundant, k, first)] else [];
    if sp.m == 0 then Offered(sp, redundant, primary) else Offered(sp, primary, redundant)
  }

  /** The unit whose redundant copy is sent for unit `k`: the first block begins at `Lost`. */
  function Source(sp: Spurt, k: nat): nat {
    if k < sp.upp then Lost(sp) + k else k
  }

  /** What unit `k` does hold. */
  function Heard(sp: Spurt, arrived: nat -> bool, j: nat, k: nat): Media
    requires sp.upp > 0
  {
    var own := k / sp.upp;
    var first := k % sp.upp == 0;
    var primary := if own < j && arrived(own) then [Received(sp, Primary, k, first)] else [];
    var redundant := if own + sp.m < j && arrived(own + sp.m) && Carries(sp, own + sp.m)
                     then [Received(sp, Redundant, Source(sp, k), first)] else [];
    if sp.m == 0 then Offered(sp, redundant, primary) else Offered(sp, primary, redundant)
  }

  ghost predicate IsSlot(sp: Spurt, delay: int, u: int) {
    exists k: nat :: u == Slot(sp, delay, k)
  }

  /** The decoder's buffer holds exactly those codings, each in its unit's slot. */
  ghost predicate InPlace(sp: Spurt, delay: int, arrived: nat -> bool, base: MediaBuffer, j: nat, out: MediaBuffer)
    requires sp.upp > 0
  {
    && (forall k: nat :: Get(out, Slot(sp, delay, k)) == Heard(sp, arrived, j, k))
    && (forall u :: !IsSlot(sp, delay, u) ==> Get(out, u) == Get(base, u))
  }

  /** `base` holds nothing where units of the spurt go. */
  ghost predicate Clear(sp: Spurt, delay: int, base: MediaBuffer) {
    forall k: nat :: Get(base, Slot(sp, delay, k)) == []
  }

  /** In the block for packet `q`, whose units are those from `s` on, what is for unit `k`. */
  function InBlock(sp: Spurt, x: Copy, q: int, s: nat, k: nat): Media
    requires sp.upp > 0
  {
    if k / sp.upp == q then [Received(sp, x, s + k % sp.upp, k % sp.upp == 0)] else []
  }

  /** Copies `x` of the units from `s` on are offered to the units of packet `q` and to no others. */
  ghost predicate BlockAdded(sp: Spurt, delay: int, x: Copy, q: int, s: nat, out: MediaBuffer, out': MediaBuffer)
    requires sp.upp > 0
  {
    && (forall k: nat ::
          Get(out', Slot(sp, delay, k)) == Offered(sp, Get(out, Slot(sp, delay, k)), InBlock(sp, x, q, s, k)))
    && (forall u :: !IsSlot(sp, delay, u) ==> Get(out', u) == Get(out, u))
  }

  lemma ExtendedInBlock(sp: Spurt, delay: int, x: Copy, q: nat, s: nat, out: MediaBuffer, out': MediaBuffer, k: nat)
    requires sp.d > 0 && sp.upp > 0
    requires Extended(out, out', ReceivedBlock(sp, x, s, sp.upp, true), sp.upp, Slot(sp, delay, q * sp.upp), sp.d)
    ensures Get(out', Slot(sp, delay, k)) == Get(out, Slot(sp, delay, k)) + InBlock(sp, x, q, s, k)
  {
    hide Get, Slot, At, Received;
    var k0, t := q * sp.upp, Slot(sp, delay, q * sp.upp);
    UnitOfBlock(q, k, sp.upp);
    if k / sp.upp == q {
      SlotPlus(sp, delay, k0, k - k0);
      assert Get(out', At(t, k - k0, sp.d)) ==
             Get(out, At(t, k - k0, sp.d)) + [ReceivedBlock(sp, x, s, sp.upp, true)[k - k0]];
    } else {
      if Among(Slot(sp, delay, k), sp.upp, t, sp.d) {
        var i :| 0 <= i < sp.upp && Slot(sp, delay, k) == At(t, i, sp.d);
        SlotPlus(sp, delay, k0, i);
        SlotInjective(sp, delay, k, k0 + i);
      }
      assert Get(out, Slot(sp, delay, k)) + [] == Get(out, Slot(sp, delay, k));
    }
  }

  lemma ExtendedOffBlock(sp: Spurt, delay: int, x: Copy, q: nat, s: nat, out: MediaBuffer, out': MediaBuffer, u: int)
    requires sp.upp > 0
    requires Extended(out, out', ReceivedBlock(sp, x, s, sp.upp, true), sp.upp, Slot(sp, delay, q * sp.upp), sp.d)
    requires !IsSlot(sp, delay, u)
    ensures Get(out', u) == Get(out, u)
  {
    hide Get, Slot, At, Received;
    var k0, t := q * sp.upp, Slot(sp, delay, q * sp.upp);
    if Among(u, sp.upp, t, sp.d) {
      var i :| 0 <= i < sp.upp && u == At(t, i, sp.d);
      SlotPlus(sp, delay, k0, i);
    }
  }

  /** The units of packet `q` hold nothing, if the two codecs are one. */
  ghost predicate Vacant(sp: Spurt, delay: int, q: int, out: MediaBuffer)
    requires sp.upp > 0
  {
    forall k: nat :: sp.c0 == sp.c1 && k / sp.upp == q ==> Get(out, Slot(sp, delay, k)) == []
  }

  lemma ExtendedAdds(sp: Spurt, delay: int, x: Copy, q: nat, s: nat, out: MediaBuffer, out': MediaBuffer)
    requires sp.d > 0 && sp.upp > 0 && Vacant(sp, delay, q, out)
    requires Extended(out, out', ReceivedBlock(sp, x, s, sp.upp, true), sp.upp, Slot(sp, delay, q * sp.upp), sp.d)
    ensures BlockAdded(sp, delay, x, q, s, out, out')
  {
    hide Extended, Get, Slot, IsSlot, Received;
    forall k: nat
      ensures Get(out', Slot(sp, delay, k)) == Offered(sp, Get(out, Slot(sp, delay, k)), InBlock(sp, x, q, s, k))
    {
      ExtendedInBlock(sp, delay, x, q, s, out, out', k);
      assert Get(out, Slot(sp, delay, k)) + [] == Get(out, Slot(sp, delay, k));
    }
    forall u | !IsSlot(sp, delay, u)
      ensures Get(out', u) == Get(out, u)
    {
      ExtendedOffBlock(sp, delay, x, q, s, out, out', u);
    }
  }

  lemma RefusedAdds(sp: Spurt, delay: int, x: Copy, q: nat, s: nat, out: MediaBuffer, out': MediaBuffer)
    requires sp.upp > 0 && sp.c0 == sp.c1
    requires forall k: nat :: k / sp.upp == q ==> Get(out, Slot(sp, delay, k)) != []
    requires forall u :: Get(out', u) == Get(out, u)
    ensures BlockAdded(sp, delay, x, q, s, out, out')
  {
    hide Get, Slot, IsSlot, Received;
    forall k: nat
      ensures Get(out', Slot(sp, delay, k)) == Offered(sp, Get(out, Slot(sp, delay, k)), InBlock(sp, x, q, s, k))
    {
      assert Get(out, Slot(sp, delay, k)) + [] == Get(out, Slot(sp, delay, k));
    }
  }

  lemma UnitOfBlock(q: nat, k: nat, n: nat)
    requires n > 0
    ensures k / n == q <==> q * n <= k < q * n + n
    ensures k / n == q ==> k % n == k - q * n
  {
    assert k == n * (k / n) + k % n;
    assert n * (k / n) == (k / n) * n;
    if q * n <= k < q * n + n {
      DivMod(q, k - q * n, n);
    }
  }

  // ------------------------------------------------------------- one more packet

  lemma SourceIs(sp: Spurt, j: nat, k: nat)
    requires sp.upp > 0 && j >= sp.m && k / sp.upp == j - sp.m && Carries(sp, j)
    ensures BlockFrom(sp, j) + k % sp.upp == Source(sp, k)
  {
    UnitOfBlock(j - sp.m, k, sp.upp);
    if j > sp.m {
      MulMonotone(1, j - sp.m, sp.upp);
    } else {
      assert (j - sp.m) * sp.upp == 0;
    }
  }

  /** What packet `j` has for unit `k`. */
  function RedundantFor(sp: Spurt, j: nat, k: nat): Media
    requires sp.upp > 0
  {
    if k / sp.upp == j - sp.m && Carries(sp, j) then [Received(sp, Redundant, Source(sp, k), k % sp.upp == 0)] else []
  }

  function PrimaryFor(sp: Spurt, j: nat, k: nat): Media
    requires sp.upp > 0
  {
    if k / sp.upp == j then [Received(sp, Primary, k, k % sp.upp == 0)] else []
  }

  lemma HeardGrows(sp: Spurt, arrived: nat -> bool, j: nat, k: nat)
    requires sp.upp > 0 && arrived(j)
    ensures Heard(sp, arrived, j + 1, k) ==
              Offered(sp, Offered(sp, Heard(sp, arrived, j, k), RedundantFor(sp, j, k)), PrimaryFor(sp, j, k))
  {
    hide Received, Carries, Source;
    var own := k / sp.upp;
    var before, after := Heard(sp, arrived, j, k), Heard(sp, arrived, j + 1, k);
    assert own == j || own + sp.m == j || before == after;
    assert before + [] + [] == before;
    assert forall md: Media :: md + [] == md;
  }

  /** There is room for the redundant copies in the units `m` packets back, unless they hold the
      primary ones by the same codec, and for the primary ones in the units of this packet. */
  lemma HeardRoom(sp: Spurt, arrived: nat -> bool, j: nat, k: nat)
    requires sp.upp > 0
    ensures var md := Heard(sp, arrived, j, k);
            && |md| <= 2
            && (forall i :: 0 <= i < |md| ==> md[i].id == sp.c0 || md[i].id == sp.c1)
            && (k / sp.upp == j - sp.m ==>
                  && |md| <= 1 && (sp.c0 != sp.c1 ==> Find(md, sp.c1) == |md|)
                  && (md != [] <==> sp.m > 0 && arrived(j - sp.m)))
            && (k / sp.upp == j ==> md == [])
  {
    hide Carries, Source;
  }

  lemma RoomFor(sp: Spurt, out: MediaBuffer, t: int, cid: CodecId)
    requires !sp.cs.native(sp.c0) && !sp.cs.native(sp.c1)
    requires var md := Get(out, t);
             |md| <= 1 && Find(md, cid) == |md| && forall i :: 0 <= i < |md| ==> md[i].id == sp.c0 || md[i].id == sp.c1
    ensures Room(sp.cs, out, t, cid)
  {}

  /** The units `m` packets back hold their primary copies, by the one codec there is. */
  predicate BackTaken(sp: Spurt, arrived: nat -> bool, j: nat) {
    sp.c0 == sp.c1 && 0 < sp.m <= j && arrived(j - sp.m)
  }

  lemma SlotBack(sp: Spurt, delay: int, arrived: nat -> bool, base: MediaBuffer, j: nat, out: MediaBuffer, k: nat)
    requires Good(sp) && InPlace(sp, delay, arrived, base, j, out) && j >= sp.m && k / sp.upp == j - sp.m
    ensures var md := Get(out, Slot(sp, delay, k));
            && (BackTaken(sp, arrived, j) ==> md != [] && md[0].id == sp.c0)
            && (!BackTaken(sp, arrived, j) ==> Room(sp.cs, out, Slot(sp, delay, k), sp.c1))
            && (!BackTaken(sp, arrived, j) && sp.c0 == sp.c1 ==> md == [])
  {
    hide Slot, Get, Heard, Good;
    GoodBasics(sp);
    GoodNative(sp);
    HeardRoom(sp, arrived, j, k);
    assert Get(out, Slot(sp, delay, k)) == Heard(sp, arrived, j, k);
    if !BackTaken(sp, arrived, j) {
      RoomFor(sp, out, Slot(sp, delay, k), sp.c1);
    }
  }

  lemma RedundantRoom(sp: Spurt, delay: int, arrived: nat -> bool, base: MediaBuffer, j: nat, out: MediaBuffer, i: nat)
    requires Good(sp) && InPlace(sp, delay, arrived, base, j, out) && j >= sp.m && i < sp.upp
    requires !BackTaken(sp, arrived, j)
    ensures Room(sp.cs, out, At(Slot(sp, delay, (j - sp.m) * sp.upp), i, sp.d), sp.c1)
  {
    hide Slot, Get, Heard, Room, InPlace;
    var q := j - sp.m;
    SlotPlus(sp, delay, q * sp.upp, i);
    UnitOfBlock(q, q * sp.upp + i, sp.upp);
    SlotBack(sp, delay, arrived, base, j, out, q * sp.upp + i);
  }

  /** The redundant data of packet `j`. */
  function RedundantBytes(sp: Spurt, j: nat): seq<byte> {
    if Carries(sp, j) then BlockBytes(sp, Redundant, BlockFrom(sp, j), sp.upp, true) else []
  }

  lemma RedundantDecoded(sp: Spurt, delay: int, arrived: nat -> bool, base: MediaBuffer, j: nat, out: MediaBuffer)
    requires Good(sp) && InPlace(sp, delay, arrived, base, j, out)
    ensures match SplitUnit(sp.cs, sp.cs.payload(sp.c0), sp.cs.payload(sp.c1), RedundantBytes(sp, j),
                            PacketTime(sp, j) + delay, out)
            case None => false
            case Some(out1) => Midway(sp, delay, j, out, out1)
  {
    hide Slot, Room, InPlace, SplitUnit, BlockBytes, Extended, BlockAdded, BlockFrom, Good, Get, PacketTime, Vacant,
      BackTaken;
    GoodBasics(sp);
    var t := PacketTime(sp, j) + delay;
    if Carries(sp, j) {
      BlockSlots(sp, delay, j);
      if BackTaken(sp, arrived, j) {
        RedundantRefused(sp, delay, arrived, base, j, out);
      } else {
        RedundantPlaced(sp, delay, arrived, base, j, out);
      }
    } else {
      EmptyBlock(sp, t, out);
    }
  }

  lemma RedundantRefused(sp: Spurt, delay: int, arrived: nat -> bool, base: MediaBuffer, j: nat, out: MediaBuffer)
    requires Good(sp) && InPlace(sp, delay, arrived, base, j, out) && j >= sp.m && BackTaken(sp, arrived, j)
    ensures match SplitBlock(sp, Redundant, BlockFrom(sp, j), Slot(sp, delay, (j - sp.m) * sp.upp), out)
            case None => false
            case Some(out1) => BlockAdded(sp, delay, Redundant, j - sp.m, BlockFrom(sp, j), out, out1)
  {
    hide Slot, InPlace, SplitBlock, BlockAdded, BlockFrom, Good, Get;
    GoodBasics(sp);
    var q, s := j - sp.m, BlockFrom(sp, j);
    var t := Slot(sp, delay, q * sp.upp);
    forall k: nat | k / sp.upp == q
      ensures Get(out, Slot(sp, delay, k)) != []
    {
      SlotBack(sp, delay, arrived, base, j, out, k);
    }
    UnitOfBlock(q, q * sp.upp, sp.upp);
    SlotBack(sp, delay, arrived, base, j, out, q * sp.upp);
    BlockRefused(sp, Redundant, s, t, out);
    RefusedAdds(sp, delay, Redundant, q, s, out, SplitBlock(sp, Redundant, s, t, out).value);
  }

  lemma RedundantPlaced(sp: Spurt, delay: int, arrived: nat -> bool, base: MediaBuffer, j: nat, out: MediaBuffer)
    requires Good(sp) && InPlace(sp, delay, arrived, base, j, out) && j >= sp.m && !BackTaken(sp, arrived, j)
    ensures match SplitBlock(sp, Redundant, BlockFrom(sp, j), Slot(sp, delay, (j - sp.m) * sp.upp), out)
            case None => false
            case Some(out1) => BlockAdded(sp, delay, Redundant, j - sp.m, BlockFrom(sp, j), out, out1)
  {
    hide Slot, Room, InPlace, SplitBlock, BlockAdded, BlockFrom, Good, Get, Extended, BackTaken;
    GoodBasics(sp);
    var q, s := j - sp.m, BlockFrom(sp, j);
    var t := Slot(sp, delay, q * sp.upp);
    forall i | 0 <= i < sp.upp
      ensures Room(sp.cs, out, At(t, i, sp.d), sp.c1)
    {
      RedundantRoom(sp, delay, arrived, base, j, out, i);
    }
    forall k: nat | sp.c0 == sp.c1 && k / sp.upp == q
      ensures Get(out, Slot(sp, delay, k)) == []
    {
      SlotBack(sp, delay, arrived, base, j, out, k);
    }
    BlockPlaced(sp, Redundant, s, t, out);
    ExtendedAdds(sp, delay, Redundant, q, s, out, SplitBlock(sp, Redundant, s, t, out).value);
  }

  /** What the redundant block, if there is one, has left behind. */
  ghost predicate Midway(sp: Spurt, delay: int, j: nat, out: MediaBuffer, out1: MediaBuffer)
    requires sp.upp > 0
  {
    if Carries(sp, j) then BlockAdded(sp, delay, Redundant, j - sp.m, BlockFrom(sp, j), out, out1) else out1 == out
  }

  lemma MidwayAt(sp: Spurt, delay: int, j: nat, out: MediaBuffer, out1: MediaBuffer, k: nat)
    requires sp.upp > 0 && Midway(sp, delay, j, out, out1)
    ensures Get(out1, Slot(sp, delay, k)) == Offered(sp, Get(out, Slot(sp, delay, k)), RedundantFor(sp, j, k))
  {
    hide Get, Slot, Carries, BlockFrom, Source, Received;
    if Carries(sp, j) && k / sp.upp == j - sp.m {
      SourceIs(sp, j, k);
    } else {
      assert Get(out, Slot(sp, delay, k)) + [] == Get(out, Slot(sp, delay, k));
    }
  }

  /** The units of this packet hold their redundant copies, by the one codec there is. */
  predicate HereTaken(sp: Spurt) {
    sp.c0 == sp.c1 && sp.m == 0
  }

  lemma NoOffsetCarries(sp: Spurt, j: nat)
    requires sp.m == 0
    ensures Carries(sp, j)
  {
    if j > 0 {
      MulMonotone(1, j, sp.upp);
    }
  }

  lemma SlotHere(sp: Spurt, delay: int, arrived: nat -> bool, base: MediaBuffer, j: nat, out: MediaBuffer,
      out1: MediaBuffer, k: nat)
    requires Good(sp) && InPlace(sp, delay, arrived, base, j, out) && Midway(sp, delay, j, out, out1) && k / sp.upp == j
    ensures var md := Get(out1, Slot(sp, delay, k));
            && (HereTaken(sp) ==> md != [] && md[0].id == sp.c0)
            && (!HereTaken(sp) ==> Room(sp.cs, out1, Slot(sp, delay, k), sp.c0))
            && (!HereTaken(sp) && sp.c0 == sp.c1 ==> md == [])
  {
    hide Slot, Get, Heard, Good, Midway, Source, Carries;
    GoodBasics(sp);
    GoodNative(sp);
    HeardRoom(sp, arrived, j, k);
    assert Get(out, Slot(sp, delay, k)) == Heard(sp, arrived, j, k);
    MidwayAt(sp, delay, j, out, out1, k);
    if sp.m == 0 {
      NoOffsetCarries(sp, j);
    }
    if !HereTaken(sp) {
      RoomFor(sp, out1, Slot(sp, delay, k), sp.c0);
    }
  }

  lemma GoodNative(sp: Spurt)
    requires Good(sp)
    ensures !sp.cs.native(sp.c0) && !sp.cs.native(sp.c1)
  {}

  lemma PrimaryRoom(sp: Spurt, delay: int, arrived: nat -> bool, base: MediaBuffer, j: nat, out: MediaBuffer,
      out1: MediaBuffer, i: nat)
    requires Good(sp) && InPlace(sp, delay, arrived, base, j, out) && Midway(sp, delay, j, out, out1) && i < sp.upp
    requires !HereTaken(sp)
    ensures Room(sp.cs, out1, At(Slot(sp, delay, j * sp.upp), i, sp.d), sp.c0)
  {
    hide Slot, Get, Heard, Room, InPlace, Midway, Good;
    GoodBasics(sp);
    SlotPlus(sp, delay, j * sp.upp, i);
    UnitOfBlock(j, j * sp.upp + i, sp.upp);
    SlotHere(sp, delay, arrived, base, j, out, out1, j * sp.upp + i);
  }

  lemma PrimaryDecoded(sp: Spurt, delay: int, arrived: nat -> bool, base: MediaBuffer, j: nat, out: MediaBuffer,
      out1: MediaBuffer)
    requires Good(sp) && InPlace(sp, delay, arrived, base, j, out) && Midway(sp, delay, j, out, out1)
    ensures match SplitBlock(sp, Primary, j * sp.upp, PacketTime(sp, j) + delay + sp.d * (sp.m * sp.upp), out1)
            case None => false
            case Some(out2) => BlockAdded(sp, delay, Primary, j, j * sp.upp, out1, out2)
  {
    hide Slot, Room, InPlace, Midway, SplitBlock, BlockAdded, Good, Get, Extended, PacketTime, HereTaken;
    GoodBasics(sp);
    BlockSlots(sp, delay, j);
    var t := Slot(sp, delay, j * sp.upp);
    if HereTaken(sp) {
      PrimaryRefused(sp, delay, arrived, base, j, out, out1);
    } else {
      forall i | 0 <= i < sp.upp
        ensures Room(sp.cs, out1, At(t, i, sp.d), sp.c0)
      {
        PrimaryRoom(sp, delay, arrived, base, j, out, out1, i);
      }
      forall k: nat | sp.c0 == sp.c1 && k / sp.upp == j
        ensures Get(out1, Slot(sp, delay, k)) == []
      {
        SlotHere(sp, delay, arrived, base, j, out, out1, k);
      }
      BlockPlaced(sp, Primary, j * sp.upp, t, out1);
      ExtendedAdds(sp, delay, Primary, j, j * sp.upp, out1, SplitBlock(sp, Primary, j * sp.upp, t, out1).value);
    }
  }

  lemma PrimaryRefused(sp: Spurt, delay: int, arrived: nat -> bool, base: MediaBuffer, j: nat, out: MediaBuffer,
      out1: MediaBuffer)
    requires Good(sp) && InPlace(sp, delay, arrived, base, j, out) && Midway(sp, delay, j, out, out1) && HereTaken(sp)
    ensures match SplitBlock(sp, Primary, j * sp.upp, Slot(sp, delay, j * sp.upp), out1)
            case None => false
            case Some(out2) => BlockAdded(sp, delay, Primary, j, j * sp.upp, out1, out2)
  {
    hide Slot, InPlace, Midway, SplitBlock, BlockAdded, Good, Get;
    GoodBasics(sp);
    var t := Slot(sp, delay, j * sp.upp);
    forall k: nat | k / sp.upp == j
      ensures Get(out1, Slot(sp, delay, k)) != []
    {
      SlotHere(sp, delay, arrived, base, j, out, out1, k);
    }
    UnitOfBlock(j, j * sp.upp, sp.upp);
    SlotHere(sp, delay, arrived, base, j, out, out1, j * sp.upp);
    BlockRefused(sp, Primary, j * sp.upp, t, out1);
    RefusedAdds(sp, delay, Primary, j, j * sp.upp, out1, SplitBlock(sp, Primary, j * sp.upp, t, out1).value);
  }

  lemma PrimaryAt(sp: Spurt, delay: int, j: nat, out1: MediaBuffer, out2: MediaBuffer, k: nat)
    requires sp.upp > 0 && BlockAdded(sp, delay, Primary, j, j * sp.upp, out1, out2)
    ensures Get(out2, Slot(sp, delay, k)) == Offered(sp, Get(out1, Slot(sp, delay, k)), PrimaryFor(sp, j, k))
  {
    hide Get, Slot, Received;
    UnitOfBlock(j, k, sp.upp);
  }

  lemma InPlaceGrows(sp: Spurt, delay: int, arrived: nat -> bool, base: MediaBuffer, j: nat, out: MediaBuffer,
      out1: MediaBuffer, out2: MediaBuffer)
    requires sp.upp > 0 && arrived(j)
    requires InPlace(sp, delay, arrived, base, j, out) && Midway(sp, delay, j, out, out1)
    requires BlockAdded(sp, delay, Primary, j, j * sp.upp, out1, out2)
    ensures InPlace(sp, delay, arrived, base, j + 1, out2)
  {
    hide Get, Slot, IsSlot, Heard, Received, Carries, Source, BlockFrom, Offered, PrimaryFor, RedundantFor;
    forall k: nat
      ensures Get(out2, Slot(sp, delay, k)) == Heard(sp, arrived, j + 1, k)
    {
      HeardGrows(sp, arrived, j, k);
      MidwayAt(sp, delay, j, out, out1, k);
      PrimaryAt(sp, delay, j, out1, out2, k);
    }
    forall u | !IsSlot(sp, delay, u)
      ensures Get(out2, u) == Get(base, u)
    {
      assert Get(out1, u) == Get(out, u);
    }
  }

  /** A packet of the spurt is decoded into the right slots, whatever was lost before it. */
  lemma PacketDecoded(sp: Spurt, delay: int, arrived: nat -> bool, base: MediaBuffer, j: nat, out: MediaBuffer)
    requires Good(sp) && InPlace(sp, delay, arrived, base, j, out) && arrived(j)
    ensures match DecodePacket(sp.cs, Layout(PacketOf(sp, j)), PacketTime(sp, j) + delay, out)
            case None => false
            case Some(out') => InPlace(sp, delay, arrived, base, j + 1, out')
  {
    hide InPlace, BlockAdded, SplitUnit, BlockBytes, PacketTime, Midway, Carries, BlockFrom, Layout, Parse;
    var cs := sp.cs;
    var p := PacketOf(sp, j);
    var b := p.blocks[0];
    var t := PacketTime(sp, j) + delay;
    PrimaryNotEmpty(sp, j);
    ParseOfLayout(p);
    assert b.data == RedundantBytes(sp, j);
    RedundantDecoded(sp, delay, arrived, base, j, out);
    var out1 := SplitUnit(cs, p.ppt, b.pt, b.data, t, out).value;
    assert p.blocks[1..] == [];
    assert SplitBlocks(cs, p.ppt, p.blocks, t + b.off, out) == Some(out1);
    PrimaryDecoded(sp, delay, arrived, base, j, out, out1);
    InPlaceGrows(sp, delay, arrived, base, j, out, out1, SplitUnit(cs, p.ppt, p.ppt, p.primary, t + b.off, out1).value);
  }

  lemma PrimaryNotEmpty(sp: Spurt, j: nat)
    requires Good(sp)
    ensures BlockBytes(sp, Primary, j * sp.upp, sp.upp, true) != []
  {
    SpurtCodec(sp, Primary, j * sp.upp);
  }

  // --------------------------------------------------------------- the whole run

  /** Decode, in order, those of the first `j` packets that arrived, into `base`. */
  function DecodeArrived(cs: Codecs, sent: seq<Node<seq<byte>>>, delay: int, arrived: nat -> bool, base: MediaBuffer,
      j: nat): Option<MediaBuffer>
    requires j <= |sent|
  {
    if j == 0 then Some(base)
    else
      match DecodeArrived(cs, sent, delay, arrived, base, j - 1)
      case None => None
      case Some(out) =>
        if arrived(j - 1) then DecodePacket(cs, sent[j - 1].data, sent[j - 1].playout + delay, out) else Some(out)
  }

  lemma HeardNothing(sp: Spurt, delay: int, arrived: nat -> bool, base: MediaBuffer)
    requires sp.upp > 0 && Clear(sp, delay, base)
    ensures InPlace(sp, delay, arrived, base, 0, base)
  {
    hide Slot, IsSlot, Received, Heard, Get;
    forall k: nat
      ensures Heard(sp, arrived, 0, k) == []
    {
      NoneHeard(sp, arrived, k);
    }
  }

  lemma NoneHeard(sp: Spurt, arrived: nat -> bool, k: nat)
    requires sp.upp > 0
    ensures Heard(sp, arrived, 0, k) == []
  {
    hide Received, Carries, Source;
  }

  lemma HeardSkips(sp: Spurt, delay: int, arrived: nat -> bool, base: MediaBuffer, j: nat, out: MediaBuffer)
    requires sp.upp > 0 && !arrived(j) && InPlace(sp, delay, arrived, base, j, out)
    ensures InPlace(sp, delay, arrived, base, j + 1, out)
  {
    hide Get, Slot, IsSlot, Received, Carries, Source;
    forall k: nat
      ensures Get(out, Slot(sp, delay, k)) == Heard(sp, arrived, j + 1, k)
    {
      assert Heard(sp, arrived, j + 1, k) == Heard(sp, arrived, j, k);
    }
  }

  lemma ArrivedStep(sp: Spurt, delay: int, arrived: nat -> bool, base: MediaBuffer, n: Node<seq<byte>>, j: nat,
      out: MediaBuffer)
    requires Good(sp) && arrived(j) && InPlace(sp, delay, arrived, base, j, out)
    requires n == Node(PacketTime(sp, j), Layout(PacketOf(sp, j)))
    ensures match DecodePacket(sp.cs, n.data, n.playout + delay, out)
            case None => false
            case Some(out') => InPlace(sp, delay, arrived, base, j + 1, out')
  {
    hide InPlace, DecodePacket, PacketOf, Layout, Good, PacketTime;
    GoodBasics(sp);
    PacketDecoded(sp, delay, arrived, base, j, out);
  }

  ghost predicate DecodedInPlace(sp: Spurt, delay: int, arrived: nat -> bool, base: MediaBuffer, j: nat,
      r: Option<MediaBuffer>)
    requires sp.upp > 0
  {
    r.Some? && InPlace(sp, delay, arrived, base, j, r.value)
  }

  lemma ArrivedNext(sp: Spurt, delay: int, arrived: nat -> bool, base: MediaBuffer, sent: seq<Node<seq<byte>>>, j: nat)
    requires Good(sp) && j < |sent| && SentSoFar(sp, sent, |sent|)
    requires DecodedInPlace(sp, delay, arrived, base, j, DecodeArrived(sp.cs, sent, delay, arrived, base, j))
    ensures DecodedInPlace(sp, delay, arrived, base, j + 1, DecodeArrived(sp.cs, sent, delay, arrived, base, j + 1))
  {
    hide InPlace, DecodePacket, PacketOf, Layout, PacketTime, Good;
    GoodBasics(sp);
    var out := DecodeArrived(sp.cs, sent, delay, arrived, base, j).value;
    if arrived(j) {
      ArrivedStep(sp, delay, arrived, base, sent[j], j, out);
    } else {
      HeardSkips(sp, delay, arrived, base, j, out);
    }
  }

  lemma NothingDecoded(sp: Spurt, delay: int, arrived: nat -> bool, base: MediaBuffer, sent: seq<Node<seq<byte>>>)
    requires sp.upp > 0 && Clear(sp, delay, base)
    ensures DecodedInPlace(sp, delay, arrived, base, 0, DecodeArrived(sp.cs, sent, delay, arrived, base, 0))
  {
    HeardNothing(sp, delay, arrived, base);
    hide InPlace;
  }

  lemma {:induction false} ArrivedDecoded(sp: Spurt, delay: int, arrived: nat -> bool, base: MediaBuffer,
      sent: seq<Node<seq<byte>>>,
                                          j: nat)
    requires Good(sp) && j <= |sent| && SentSoFar(sp, sent, |sent|) && Clear(sp, delay, base)
    ensures DecodedInPlace(sp, delay, arrived, base, j, DecodeArrived(sp.cs, sent, delay, arrived, base, j))
  {
    hide *;
    GoodBasics(sp);
    if j == 0 {
      NothingDecoded(sp, delay, arrived, base, sent);
    } else {
      ArrivedDecoded(sp, delay, arrived, base, sent, j - 1);
      ArrivedNext(sp, delay, arrived, base, sent, j - 1);
    }
  }

  /** Encode `n` packets' worth of a talkspurt, lose any packets, decode the others in order. */
  function AfterLoss(sp: Spurt, delay: int, arrived: nat -> bool, n: nat): Option<MediaBuffer>
    requires sp.upp > 0
  {
    match Encode(sp, n * sp.upp)
    case None => None
    case Some((_, sent)) => if |sent| == n then DecodeArrived(sp.cs, sent, delay, arrived, map[], n) else None
  }

  ghost predicate NothingElse(sp: Spurt, delay: int, out: MediaBuffer) {
    forall u :: (forall k: nat :: u != UnitTime(sp, k) + Shift(sp, delay)) ==> Get(out, u) == []
  }

  /** Exactly what is heard after any loss, with any history: every unit's codings at its original
      time plus one constant, both copies in the same place, and nothing else. */
  lemma HeardAfterLoss(sp: Spurt, delay: int, arrived: nat -> bool, n: nat)
    requires Good(sp) && (Safe(sp) || Once(sp))
    ensures match AfterLoss(sp, delay, arrived, n)
            case None => false
            case Some(out) =>
              && (forall k: nat :: Get(out, UnitTime(sp, k) + Shift(sp, delay)) == Heard(sp, arrived, n, k))
              && NothingElse(sp, delay, out)
  {
    hide DecodeArrived, Encode, InPlace, Between, Good, Safe, Once, Heard, Get, UnitTime, Shift, NothingElse,
      Layout, PacketOf, PacketTime;
    GoodBasics(sp);
    EncodeRun(sp, n, 0);
    assert n * sp.upp + 0 == n * sp.upp;
    var sent := Encode(sp, n * sp.upp).value.1;
    ClearNothing(sp, delay);
    ArrivedDecoded(sp, delay, arrived, map[], sent, n);
    InPlaceMeans(sp, delay, arrived, n, DecodeArrived(sp.cs, sent, delay, arrived, map[], n).value);
  }

  lemma ClearNothing(sp: Spurt, delay: int)
    ensures Clear(sp, delay, map[])
  {
    hide Slot;
  }

  lemma InPlaceMeans(sp: Spurt, delay: int, arrived: nat -> bool, n: nat, out: MediaBuffer)
    requires sp.upp > 0 && InPlace(sp, delay, arrived, map[], n, out)
    ensures forall k: nat :: Get(out, UnitTime(sp, k) + Shift(sp, delay)) == Heard(sp, arrived, n, k)
    ensures NothingElse(sp, delay, out)
  {
    hide Heard, Shift, At;
    forall k: nat
      ensures Slot(sp, delay, k) == UnitTime(sp, k) + Shift(sp, delay)
    {
      SlotIsShifted(sp, delay, k);
    }
  }

  // ------------------------------------------------- which units the history keeps

  /** Every unit of which a copy arrived is in the buffer, at its original time plus one
      constant, both copies of it in the same place; and nothing else is in the buffer. */
  ghost predicate Recovered(sp: Spurt, delay: int, arrived: nat -> bool, n: nat)
    requires sp.upp > 0
  {
    match AfterLoss(sp, delay, arrived, n)
    case None => false
    case Some(out) =>
      && (forall k: nat :: Get(out, UnitTime(sp, k) + Shift(sp, delay)) == Expected(sp, arrived, n, k))
      && NothingElse(sp, delay, out)
  }

  lemma RecoveredMeans(sp: Spurt, delay: int, arrived: nat -> bool, n: nat)
    requires Good(sp) && (Safe(sp) || Once(sp))
    ensures sp.upp > 0
    ensures Recovered(sp, delay, arrived, n) <==>
            forall k: nat :: Heard(sp, arrived, n, k) == Expected(sp, arrived, n, k)
  {
    hide Good, Heard, Expected, AfterLoss, Safe, Once, Get, UnitTime, Shift, NothingElse;
    GoodBasics(sp);
    HeardAfterLoss(sp, delay, arrived, n);
    var out := AfterLoss(sp, delay, arrived, n).value;
    if Recovered(sp, delay, arrived, n) {
      forall k: nat
        ensures Heard(sp, arrived, n, k) == Expected(sp, arrived, n, k)
      {
        assert Get(out, UnitTime(sp, k) + Shift(sp, delay)) == Heard(sp, arrived, n, k);
      }
    }
  }

  /** The second codings of units `Lost` + i and i are the same. */
  predicate Alike(sp: Spurt, i: nat) {
    Received(sp, Redundant, Lost(sp) + i, i == 0) == Received(sp, Redundant, i, i == 0)
  }

  /** The redundant copy of unit `k` is its own, or equal to it, and is sent. */
  predicate Kept(sp: Spurt, k: nat)
    requires sp.upp > 0
  {
    if k < sp.upp then Alike(sp, k)
    else k / sp.upp * sp.upp >= Lost(sp) + sp.upp
  }

  lemma OwnPacket(k: nat, n: nat)
    requires n > 0
    ensures k < n <==> k / n == 0
    ensures k < n ==> k % n == k
  {
    UnitOfBlock(0, k, n);
  }

  lemma CarriesCopy(sp: Spurt, k: nat)
    requires sp.upp > 0
    ensures Carries(sp, k / sp.upp + sp.m) <==> k < sp.upp || k / sp.upp * sp.upp >= Lost(sp) + sp.upp
  {
    OwnPacket(k, sp.upp);
  }

  /** A unit that is kept is heard as it should be under any loss. */
  lemma KeptRecovered(sp: Spurt, arrived: nat -> bool, n: nat, k: nat)
    requires sp.upp > 0
    ensures Kept(sp, k) ==> Heard(sp, arrived, n, k) == Expected(sp, arrived, n, k)
  {
    hide Rep, Carries, Lost;
    OwnPacket(k, sp.upp);
    CarriesCopy(sp, k);
  }

  /** Nothing arrives but packet `j`. */
  function Only(j: nat): nat -> bool {
    i => i == j
  }

  /** When only the packet with the redundant copy of a unit arrives, the unit is recovered if and
      only if it is kept. */
  lemma OnlyRedundant(sp: Spurt, k: nat)
    requires sp.upp > 0 && sp.m > 0
    ensures var j := k / sp.upp + sp.m;
            Heard(sp, Only(j), j + 1, k) == Expected(sp, Only(j), j + 1, k) <==> Kept(sp, k)
  {
    hide Rep, Carries, Lost;
    OwnPacket(k, sp.upp);
    CarriesCopy(sp, k);
    var j := k / sp.upp + sp.m;
    var heard, expected := Heard(sp, Only(j), j + 1, k), Expected(sp, Only(j), j + 1, k);
    assert expected == [Received(sp, Redundant, k, k % sp.upp == 0)];
    if k < sp.upp || Carries(sp, j) {
      assert heard == [Received(sp, Redundant, Source(sp, k), k % sp.upp == 0)];
      assert heard[0] == expected[0] ==> heard == expected;
    } else {
      assert heard == [];
    }
  }

  /** The loss theorem: with the full history kept, any packets may be lost. */
  lemma SurvivesLoss(sp: Spurt, delay: int, arrived: nat -> bool, n: nat)
    requires Good(sp) && Safe(sp)
    ensures sp.upp > 0 && Recovered(sp, delay, arrived, n)
  {
    hide Good, Heard, Expected, Recovered, Lost, Received;
    GoodBasics(sp);
    RecoveredMeans(sp, delay, arrived, n);
    forall k: nat
      ensures Heard(sp, arrived, n, k) == Expected(sp, arrived, n, k)
    {
      SafeKeeps(sp, k);
      KeptRecovered(sp, arrived, n, k);
    }
  }

  lemma SafeKeeps(sp: Spurt, k: nat)
    requires sp.upp > 0 && Safe(sp)
    ensures Kept(sp, k)
  {
    OwnPacket(k, sp.upp);
    if k >= sp.upp {
      MulMonotone(1, k / sp.upp, sp.upp);
    }
  }

  /** Unit `k` holds what arrived of it, in its place, and nothing else. */
  ghost predicate UnitRecovered(sp: Spurt, delay: int, arrived: nat -> bool, n: nat, k: nat)
    requires sp.upp > 0
  {
    match AfterLoss(sp, delay, arrived, n)
    case None => false
    case Some(out) => Get(out, UnitTime(sp, k) + Shift(sp, delay)) == Expected(sp, arrived, n, k)
  }

  /** A unit survives every loss if and only if it is kept. */
  lemma KeptExactly(sp: Spurt, delay: int, k: nat)
    requires Good(sp) && Once(sp)
    ensures sp.upp > 0
    ensures Kept(sp, k) <==> forall arrived: nat -> bool, n: nat :: UnitRecovered(sp, delay, arrived, n, k)
  {
    hide Good, Once, Heard, Expected, AfterLoss, Get, UnitTime, Shift, Kept;
    GoodBasics(sp);
    forall arrived: nat -> bool, n: nat
      ensures UnitRecovered(sp, delay, arrived, n, k) <==> Heard(sp, arrived, n, k) == Expected(sp, arrived, n, k)
      ensures Kept(sp, k) ==> Heard(sp, arrived, n, k) == Expected(sp, arrived, n, k)
    {
      HeardAfterLoss(sp, delay, arrived, n);
      KeptRecovered(sp, arrived, n, k);
    }
    var j := k / sp.upp + sp.m;
    if sp.m > 0 {
      OnlyRedundant(sp, k);
      assert UnitRecovered(sp, delay, Only(j), j + 1, k) ==> Kept(sp, k);
    } else {
      NoOffsetSafe(sp);
      SafeKeeps(sp, k);
    }
  }

  /** Of the primary copies `md` holds that of unit `k` if its packet arrived, and then no other
      coding by that codec.  (With one codec for both, and offset 0, the redundant copy comes first.) */
  ghost predicate PrimaryIn(sp: Spurt, arrived: nat -> bool, n: nat, k: nat, md: Media)
    requires sp.upp > 0
  {
    var primary, got := Received(sp, Primary, k, k % sp.upp == 0), k / sp.upp < n && arrived(k / sp.upp);
    && (got && !HereTaken(sp) ==> primary in md && forall c :: c in md && c.id == sp.c0 ==> c == primary)
    && (!got && sp.c0 != sp.c1 ==> forall c :: c in md ==> c.id != sp.c0)
  }

  lemma PrimaryHeard(sp: Spurt, arrived: nat -> bool, n: nat, k: nat)
    requires sp.upp > 0
    ensures PrimaryIn(sp, arrived, n, k, Heard(sp, arrived, n, k))
  {
    hide Rep, Source, Carries;
  }

  /** The primary copies survive with any history. */
  lemma PrimarySurvives(sp: Spurt, delay: int, arrived: nat -> bool, n: nat, k: nat)
    requires Good(sp) && (Safe(sp) || Once(sp))
    ensures sp.upp > 0
    ensures match AfterLoss(sp, delay, arrived, n)
            case None => false
            case Some(out) => PrimaryIn(sp, arrived, n, k, Get(out, UnitTime(sp, k) + Shift(sp, delay)))
  {
    hide Good, Safe, Once, Get, UnitTime, Shift, AfterLoss, Heard, PrimaryIn;
    GoodBasics(sp);
    HeardAfterLoss(sp, delay, arrived, n);
    PrimaryHeard(sp, arrived, n, k);
  }

  lemma NoOffsetSafe(sp: Spurt)
    requires sp.m == 0
    ensures Safe(sp)
  {}

  /** If nothing but packet `m` arrives, unit `Lost` + i is heard where unit i belongs. */
  lemma LostIsHeard(sp: Spurt, delay: int, i: nat)
    requires Good(sp) && (Safe(sp) || Once(sp)) && sp.m > 0 && i < sp.upp
    ensures match AfterLoss(sp, delay, Only(sp.m), sp.m + 1)
            case None => false
            case Some(out) =>
              Get(out, UnitTime(sp, i) + Shift(sp, delay)) == [Received(sp, Redundant, Lost(sp) + i, i == 0)]
  {
    hide Good, Safe, Once, Heard, AfterLoss, Get, UnitTime, Shift, Lost, Received;
    HeardAfterLoss(sp, delay, Only(sp.m), sp.m + 1);
    OnlyFirst(sp, i);
  }

  /** That is right exactly when those units are coded alike. */
  lemma FirstAlone(sp: Spurt, delay: int)
    requires Good(sp) && (Safe(sp) || Once(sp)) && sp.m > 0
    ensures sp.upp > 0
    ensures Recovered(sp, delay, Only(sp.m), sp.m + 1) <==> forall i: nat :: i < sp.upp ==> Alike(sp, i)
  {
    hide Good, Safe, Once, Heard, Expected, Recovered, Alike;
    GoodBasics(sp);
    var arrived, n := Only(sp.m), sp.m + 1;
    RecoveredMeans(sp, delay, arrived, n);
    forall k: nat
      ensures Heard(sp, arrived, n, k) == Expected(sp, arrived, n, k) <==> (k < sp.upp ==> Alike(sp, k))
    {
      OnlyFirst(sp, k);
    }
    if forall i: nat :: i < sp.upp ==> Alike(sp, i) {
      assert forall k: nat :: Heard(sp, arrived, n, k) == Expected(sp, arrived, n, k);
    } else {
      var i: nat :| i < sp.upp && !Alike(sp, i);
      assert Heard(sp, arrived, n, i) != Expected(sp, arrived, n, i);
    }
  }

  lemma OnlyFirst(sp: Spurt, k: nat)
    requires sp.upp > 0 && sp.m > 0
    ensures var heard, expected := Heard(sp, Only(sp.m), sp.m + 1, k), Expected(sp, Only(sp.m), sp.m + 1, k);
            && (k < sp.upp ==> heard == [Received(sp, Redundant, Lost(sp) + k, k == 0)])
            && (heard == expected <==> (k < sp.upp ==> Alike(sp, k)))
  {
    hide Received, Lost;
    OwnPacket(k, sp.upp);
    if k < sp.upp {
      var heard, expected := Heard(sp, Only(sp.m), sp.m + 1, k), Expected(sp, Only(sp.m), sp.m + 1, k);
      assert heard == [Received(sp, Redundant, Lost(sp) + k, k == 0)];
      assert expected == [Received(sp, Redundant, k, k == 0)];
      assert heard[0] == expected[0] ==> heard == expected;
    }
  }

  /** No loss pattern is too much if and only if the history reaches over all but one of the
      packets of the offset: otherwise packet `m` + 1 is sent without redundant data. */
  lemma SafeExactly(sp: Spurt, delay: int)
    requires Good(sp) && Once(sp)
    ensures sp.upp > 0
    ensures (forall arrived: nat -> bool, n: nat :: Recovered(sp, delay, arrived, n)) <==> (sp.m - 1) * sp.upp <= sp.h
  {
    hide Good, Once, Recovered, Heard, Expected;
    GoodBasics(sp);
    if Safe(sp) {
      forall arrived: nat -> bool, n: nat
        ensures Recovered(sp, delay, arrived, n)
      {
        SurvivesLoss(sp, delay, arrived, n);
      }
    } else {
      SecondUnkept(sp);
      var j := 1 + sp.m;
      OnlyRedundant(sp, sp.upp);
      RecoveredMeans(sp, delay, Only(j), j + 1);
    }
  }

  lemma SecondUnkept(sp: Spurt)
    requires sp.upp > 0 && !Safe(sp)
    ensures !Kept(sp, sp.upp) && sp.upp / sp.upp == 1 && sp.m > 0
  {
    DivMod(1, 0, sp.upp);
  }

  /** Unit `k` once, if either packet with a copy of it arrived. */
  function OneCopy(sp: Spurt, arrived: nat -> bool, n: nat, k: nat): Media
    requires sp.upp > 0
  {
    var own := k / sp.upp;
    if (own < n && arrived(own)) || (own + sp.m < n && arrived(own + sp.m))
    then [Received(sp, Primary, k, k % sp.upp == 0)] else []
  }

  /** With one codec for both copies every unit is heard once, whichever copy arrives. */
  lemma HeardOnce(sp: Spurt, delay: int, arrived: nat -> bool, n: nat, k: nat)
    requires Good(sp) && Safe(sp) && sp.c0 == sp.c1 && Rep(sp, Redundant, k) == Rep(sp, Primary, k)
    ensures sp.upp > 0
    ensures match AfterLoss(sp, delay, arrived, n)
            case None => false
            case Some(out) => Get(out, UnitTime(sp, k) + Shift(sp, delay)) == OneCopy(sp, arrived, n, k)
  {
    hide Good, Lost, Expected, AfterLoss, Get, UnitTime, Shift, Rep, OneCopy;
    SurvivesLoss(sp, delay, arrived, n);
    ExpectedOnce(sp, arrived, n, k);
  }

  lemma ExpectedOnce(sp: Spurt, arrived: nat -> bool, n: nat, k: nat)
    requires sp.upp > 0 && sp.c0 == sp.c1 && Rep(sp, Redundant, k) == Rep(sp, Primary, k)
    ensures Expected(sp, arrived, n, k) == OneCopy(sp, arrived, n, k)
  {
    hide Rep;
  }

  // ---------------------------------------------------------------------- instances

  /** Codecs with frames of one byte, and units numbered modulo 256: coded by two codecs, or by
      one and then doubled. */
  function Counting(d: nat, upp: nat, m: nat, h: nat, one: bool, t0: int): Spurt {
    Spurt(Codecs(c => c, pt => if pt < 0 then 0 else pt, c => 0, c => d, (c, b) => 1, c => false, (a, b) => true),
          t0, d, upp, m, h, 1, if one then 1 else 2,
          k => [Coding(1, [], [k % 256]), if one then Coding(1, [], [k % 256]) else Coding(2, [], [(k + 7) % 256])])
  }

  lemma CountingRep(d: nat, upp: nat, m: nat, h: nat, one: bool, t0: int, k: nat)
    ensures var sp := Counting(d, upp, m, h, one, t0);
            && Rep(sp, Primary, k) == Coding(1, [], [k % 256]) && Rep(sp, Redundant, k) == sp.unit(k)[1]
            && WellCoded(sp, Primary, k) && WellCoded(sp, Redundant, k)
            && Single(Left(sp.unit(k), sp.c0), sp.c1)
  {
    var sp := Counting(d, upp, m, h, one, t0);
    var md := sp.unit(k);
    FindIs(md, 1, 0);
    assert Left(md, 1) == [Coding(0, [], []), md[1]];
    FindIs(Left(md, 1), sp.c1, 1);
  }

  lemma {:induction false} CountingBytes(d: nat, upp: nat, m: nat, h: nat, one: bool, t0: int, k: nat, n: nat,
                                         first: bool)
    ensures |BlockBytes(Counting(d, upp, m, h, one, t0), Redundant, k, n, first)| == n
    decreases n
  {
    hide Counting, Rep;
    if n > 0 {
      CountingLength(d, upp, m, h, one, t0, k, first);
      CountingBytes(d, upp, m, h, one, t0, k + 1, n - 1, false);
    }
  }

  lemma CountingLength(d: nat, upp: nat, m: nat, h: nat, one: bool, t0: int, k: nat, first: bool)
    ensures |Bytes(Rep(Counting(d, upp, m, h, one, t0), Redundant, k), first)| == 1
  {
    CountingRep(d, upp, m, h, one, t0, k);
    hide Rep;
  }

  /** The hypotheses of the theorem can be met with every packet size, offset and history, and
      with one codec as with two. */
  lemma CountingIsGood(d: nat, upp: nat, m: nat, h: nat, one: bool, t0: int)
    requires d > 0 && 0 < upp <= RED_MAX_LEN && d * (m * upp) <= RED_MAX_OFFSET
    ensures Good(Counting(d, upp, m, h, one, t0)) && Once(Counting(d, upp, m, h, one, t0))
  {
    hide WellCoded, BlockBytes, Single, Left;
    var sp := Counting(d, upp, m, h, one, t0);
    forall k: nat
      ensures WellCoded(sp, Primary, k) && WellCoded(sp, Redundant, k)
      ensures |BlockBytes(sp, Redundant, k, sp.upp, true)| <= RED_MAX_LEN
      ensures Single(Left(sp.unit(k), sp.c0), sp.c1)
    {
      CountingRep(d, upp, m, h, one, t0, k);
      CountingBytes(d, upp, m, h, one, t0, k, upp, true);
    }
  }

  /** With four units a packet and an offset of three packets the history the code keeps is too
      short: if only packet 3 arrives, unit 5 is heard in place of unit 0; packets 4 and 5 have
      no redundant data; packet 6 is the first to carry what it should. */
  lemma HistoryTooShort(one: bool)
    ensures var sp := Counting(160, 4, 3, 3, one, 0);
            && Good(sp) && Once(sp) && Lost(sp) == 5
            && BlockFrom(sp, 3) == 5 && Carries(sp, 3) && !Recovered(sp, 0, Only(3), 4)
            && !Carries(sp, 4) && !Carries(sp, 5) && Carries(sp, 6) && BlockFrom(sp, 6) == 12
  {
    hide Recovered, Good, Once, Received, AfterLoss, Get, Alike;
    CountingIsGood(160, 4, 3, 3, one, 0);
    CountingDiffers(160, 4, 3, 3, one, 0);
    FirstAlone(Counting(160, 4, 3, 3, one, 0), 0);
  }

  lemma CountingDiffers(d: nat, upp: nat, m: nat, h: nat, one: bool, t0: int)
    requires 0 < Lost(Counting(d, upp, m, h, one, t0)) < 256
    ensures !Alike(Counting(d, upp, m, h, one, t0), 0)
  {
    CountingRep(d, upp, m, h, one, t0, 0);
    CountingRep(d, upp, m, h, one, t0, Lost(Counting(d, upp, m, h, one, t0)));
  }
}
