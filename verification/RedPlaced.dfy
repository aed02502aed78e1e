/**
  What decoding leaves in the buffer, whatever packets arrive: well formed or not, in any order
  and with any timing.
 */
module RedPlaced {
  import opened Options
  import opened ByteValues
  import opened PlayoutBuffers
  import opened RedHeaders
  import opened RedCoder

  /** Decoding is over for this unit: its last coding is a native one. */
  ghost predicate Done(cs: Codecs, md: Media) {
    md != [] && cs.native(md[|md| - 1].id)
  }

  /** A unit is never too full, holds no codec twice, none but those of `ids`, and a native coding
      only as its last. */
  ghost predicate Tidy(cs: Codecs, ids: set<CodecId>, md: Media) {
    && |md| <= MAX_MEDIA_UNITS
    && (forall i, j :: 0 <= i < j < |md| ==> md[i].id != md[j].id)
    && (forall i :: 0 <= i < |md| - 1 ==> !cs.native(md[i].id))
    && (forall i :: 0 <= i < |md| ==> md[i].id in ids)
  }

  /** Codings are only added, none to a unit that has been decoded, and tidily. */
  ghost predicate UnitKept(cs: Codecs, ids: set<CodecId>, md: Media, md': Media) {
    && md <= md'
    && (Done(cs, md) ==> md' == md)
    && (Tidy(cs, ids, md) ==> Tidy(cs, ids, md'))
  }

  ghost predicate Kept(cs: Codecs, ids: set<CodecId>, out: MediaBuffer, out': MediaBuffer) {
    forall u: int :: UnitKept(cs, ids, Get(out, u), Get(out', u))
  }

  lemma NothingChanged(cs: Codecs, ids: set<CodecId>, out: MediaBuffer)
    ensures Kept(cs, ids, out, out)
  {}

  lemma KeptTwice(cs: Codecs, ids: set<CodecId>, out: MediaBuffer, out1: MediaBuffer, out2: MediaBuffer)
    requires Kept(cs, ids, out, out1) && Kept(cs, ids, out1, out2)
    ensures Kept(cs, ids, out, out2)
  {
    hide Tidy, Get;
    forall u: int
      ensures UnitKept(cs, ids, Get(out, u), Get(out2, u))
    {
      assert UnitKept(cs, ids, Get(out, u), Get(out1, u)) && UnitKept(cs, ids, Get(out1, u), Get(out2, u));
    }
  }

  lemma PlaceKeeps(cs: Codecs, ids: set<CodecId>, out: MediaBuffer, t: int, cu: Coding)
    requires cu.id in ids
    ensures Kept(cs, ids, out, Place(cs, out, t, cu).0)
  {}

  lemma {:induction false} PlaceAllKeeps(cs: Codecs, ids: set<CodecId>, out: MediaBuffer, frames: seq<Coding>, t: int,
                                         step: int)
    requires forall i :: 0 <= i < |frames| ==> frames[i].id in ids
    ensures Kept(cs, ids, out, PlaceAll(cs, out, frames, t, step))
    decreases |frames|
  {
    hide Kept, Place;
    if frames == [] {
      NothingChanged(cs, ids, out);
    } else {
      PlaceKeeps(cs, ids, out, t, frames[0]);
      var (out1, placed) := Place(cs, out, t, frames[0]);
      var t1 := if placed then t + step else t;
      PlaceAllKeeps(cs, ids, out1, frames[1..], t1, step);
      KeptTwice(cs, ids, out, out1, PlaceAll(cs, out1, frames[1..], t1, step));
    }
  }

  lemma {:induction false} FramesCodec(cs: Codecs, cid: CodecId, b: seq<byte>, first: bool)
    requires Frames(cs, cid, b, first).Some?
    ensures forall i :: 0 <= i < |Frames(cs, cid, b, first).value| ==> Frames(cs, cid, b, first).value[i].id == cid
    decreases |b|
  {
    if b != [] {
      var s := if first then cs.stateSize(cid) else 0;
      FramesCodec(cs, cid, b[s + cs.peek(cid, b[s..])..], false);
    }
  }

  /** The two codecs are known, and the formats of their audio agree. */
  predicate Match(cs: Codecs, ppt: int, bpt: int) {
    var pid, cid := cs.byPayload(ppt), cs.byPayload(bpt);
    pid != 0 && cid != 0 && cs.compatible(pid, cid)
  }

  /** What one block does: nothing, unless its codec goes with the primary one; otherwise its
      frames go to consecutive units, up to the first that has no room. */
  lemma BlockDecoded(cs: Codecs, ppt: int, bpt: int, b: seq<byte>, t: int, out: MediaBuffer)
    requires SplitUnit(cs, ppt, bpt, b, t, out).Some?
    requires Match(cs, ppt, bpt) ==> cs.samplesPerFrame(cs.byPayload(bpt)) > 0
    ensures var out', cid := SplitUnit(cs, ppt, bpt, b, t, out).value, cs.byPayload(bpt);
            var step, frames := cs.samplesPerFrame(cid), Frames(cs, cid, b, true);
            if !Match(cs, ppt, bpt) then out' == out
            else
              && frames.Some?
              && exists n: nat :: n <= |frames.value| && Extended(out, out', frames.value, n, t, step)
                   && (forall i :: 0 <= i < n ==> Room(cs, out, At(t, i, step), cid))
                   && (n < |frames.value| ==> !Room(cs, out, At(t, n, step), cid))
  {
    hide Frames, PlaceAll, Extended, Room;
    var cid := cs.byPayload(bpt);
    if Match(cs, ppt, bpt) {
      FramesCodec(cs, cid, b, true);
      var frames := Frames(cs, cid, b, true).value;
      SplitPlacesPrefix(cs, out, frames, t, cs.samplesPerFrame(cid));
      AcceptedExactly(cs, out, frames, cid, t, cs.samplesPerFrame(cid));
    }
  }

  lemma SplitUnitKeeps(cs: Codecs, ids: set<CodecId>, ppt: int, bpt: int, b: seq<byte>, t: int, out: MediaBuffer)
    requires SplitUnit(cs, ppt, bpt, b, t, out).Some? && (Match(cs, ppt, bpt) ==> cs.byPayload(bpt) in ids)
    ensures Kept(cs, ids, out, SplitUnit(cs, ppt, bpt, b, t, out).value)
  {
    hide Kept, PlaceAll, Frames;
    NothingChanged(cs, ids, out);
    var cid := cs.byPayload(bpt);
    if Match(cs, ppt, bpt) {
      FramesCodec(cs, cid, b, true);
      PlaceAllKeeps(cs, ids, out, Frames(cs, cid, b, true).value, t, cs.samplesPerFrame(cid));
    }
  }

  lemma {:induction false} SplitBlocksKeeps(cs: Codecs, ids: set<CodecId>, ppt: int, blocks: seq<RedBlock>, latest: int,
                                            out: MediaBuffer)
    requires SplitBlocks(cs, ppt, blocks, latest, out).Some?
    requires forall b <- blocks :: Match(cs, ppt, b.pt) ==> cs.byPayload(b.pt) in ids
    ensures Kept(cs, ids, out, SplitBlocks(cs, ppt, blocks, latest, out).value)
    decreases |blocks|
  {
    hide Kept, SplitUnit, Match;
    if blocks == [] {
      NothingChanged(cs, ids, out);
    } else {
      var b := blocks[0];
      SplitUnitKeeps(cs, ids, ppt, b.pt, b.data, latest - b.off, out);
      var out1 := SplitUnit(cs, ppt, b.pt, b.data, latest - b.off, out).value;
      SplitBlocksKeeps(cs, ids, ppt, blocks[1..], latest, out1);
      KeptTwice(cs, ids, out, out1, SplitBlocks(cs, ppt, blocks[1..], latest, out1).value);
    }
  }

  /** The codecs of a packet that go with its primary one; none without redundancy. */
  function Offered(cs: Codecs, bytes: seq<byte>): set<CodecId> {
    match Parse(bytes)
    case None => {}
    case Some(p) =>
      if p.blocks == [] then {}
      else
        (set b <- p.blocks | Match(cs, p.ppt, b.pt) :: cs.byPayload(b.pt))
        + (if Match(cs, p.ppt, p.ppt) then {cs.byPayload(p.ppt)} else {})
  }

  lemma PacketKeeps(cs: Codecs, ids: set<CodecId>, bytes: seq<byte>, playout: int, out: MediaBuffer)
    requires DecodePacket(cs, bytes, playout, out).Some? && Offered(cs, bytes) <= ids
    ensures Kept(cs, ids, out, DecodePacket(cs, bytes, playout, out).value)
  {
    hide Kept, SplitUnit, SplitBlocks, Parse, Match;
    NothingChanged(cs, ids, out);
    var parsed := Parse(bytes);
    if parsed.Some? && cs.byPayload(parsed.value.ppt) != 0 && parsed.value.blocks != [] {
      var p, latest := parsed.value, playout + parsed.value.blocks[0].off;
      forall b <- p.blocks | Match(cs, p.ppt, b.pt)
        ensures cs.byPayload(b.pt) in ids
      {
        assert cs.byPayload(b.pt) in Offered(cs, bytes);
      }
      SplitBlocksKeeps(cs, ids, p.ppt, p.blocks, latest, out);
      var out1 := SplitBlocks(cs, p.ppt, p.blocks, latest, out).value;
      SplitUnitKeeps(cs, ids, p.ppt, p.ppt, p.primary, latest, out1);
      KeptTwice(cs, ids, out, out1, SplitUnit(cs, p.ppt, p.ppt, p.primary, latest, out1).value);
    }
  }

  /** A packet without a redundant header is ignored, and so is one whose primary codec is unknown;
      one that begins like a redundant packet but is none makes the decoder read past its end. */
  lemma PacketIgnored(cs: Codecs, bytes: seq<byte>, playout: int, out: MediaBuffer)
    ensures bytes != [] && bytes[0] < 128 ==> DecodePacket(cs, bytes, playout, out) == Some(out)
    ensures forall p: Packet :: ValidPacket(p) && Layout(p) == bytes && cs.byPayload(p.ppt) == 0 ==>
                                  DecodePacket(cs, bytes, playout, out) == Some(out)
    ensures (bytes == [] || bytes[0] >= 128) && (forall p: Packet :: ValidPacket(p) ==> Layout(p) != bytes) ==>
              DecodePacket(cs, bytes, playout, out) == None
  {
    hide Layout, Walk, SplitUnit, SplitBlocks;
    forall p: Packet | ValidPacket(p) && Layout(p) == bytes
      ensures Parse(bytes) == Some(p)
    {
      ParseOfLayout(p);
    }
    if Parse(bytes).Some? {
      LayoutOfParse(bytes);
      assert ValidPacket(Parse(bytes).value);
    }
  }

  /** Any sequence of packets, one after the other. */
  function DecodeAll(cs: Codecs, packets: seq<Node<seq<byte>>>): Option<MediaBuffer> {
    if packets == [] then Some(map[])
    else
      var last := packets[|packets| - 1];
      match DecodeAll(cs, packets[..|packets| - 1])
      case None => None
      case Some(out) => DecodePacket(cs, last.data, last.playout, out)
  }

  function OfferedByAny(cs: Codecs, packets: seq<Node<seq<byte>>>): set<CodecId> {
    set n <- packets, cid <- Offered(cs, n.data) :: cid
  }

  lemma DecodeLast(cs: Codecs, packets: seq<Node<seq<byte>>>)
    requires packets != [] && DecodeAll(cs, packets).Some?
    ensures var before, last := DecodeAll(cs, packets[..|packets| - 1]), packets[|packets| - 1];
            before.Some? && DecodePacket(cs, last.data, last.playout, before.value) == DecodeAll(cs, packets)
  {}

  /** No later packet changes or removes a coding, or adds one to a unit that has been decoded. */
  lemma {:induction false} DecodingKeeps(cs: Codecs, packets: seq<Node<seq<byte>>>, ids: set<CodecId>, k: nat)
    requires k <= |packets| && DecodeAll(cs, packets).Some? && OfferedByAny(cs, packets) <= ids
    ensures DecodeAll(cs, packets[..k]).Some?
    ensures Kept(cs, ids, DecodeAll(cs, packets[..k]).value, DecodeAll(cs, packets).value)
    decreases |packets|
  {
    hide Kept, DecodePacket, Offered, DecodeAll;
    if k == |packets| {
      assert packets[..k] == packets;
      NothingChanged(cs, ids, DecodeAll(cs, packets).value);
    } else {
      var before, last := packets[..|packets| - 1], packets[|packets| - 1];
      assert before[..k] == packets[..k];
      DecodeLast(cs, packets);
      assert last in packets && forall n <- before :: n in packets;
      DecodingKeeps(cs, before, ids, k);
      PacketKeeps(cs, ids, last.data, last.playout, DecodeAll(cs, before).value);
      KeptTwice(cs, ids, DecodeAll(cs, packets[..k]).value, DecodeAll(cs, before).value, DecodeAll(cs, packets).value);
    }
  }

  lemma NothingYet(cs: Codecs, ids: set<CodecId>, u: int)
    ensures DecodeAll(cs, []) == Some(map[]) && Tidy(cs, ids, Get(map[], u))
  {}

  /** Every unit stays tidy, and holds only codecs some packet offered beside a primary one that
      they go with. */
  lemma AlwaysTidy(cs: Codecs, packets: seq<Node<seq<byte>>>, u: int)
    requires DecodeAll(cs, packets).Some?
    ensures Tidy(cs, OfferedByAny(cs, packets), Get(DecodeAll(cs, packets).value, u))
  {
    hide Tidy, OfferedByAny, DecodeAll;
    var ids := OfferedByAny(cs, packets);
    DecodingKeeps(cs, packets, ids, 0);
    assert packets[..0] == [];
    NothingYet(cs, ids, u);
    assert UnitKept(cs, ids, Get(DecodeAll(cs, packets[..0]).value, u), Get(DecodeAll(cs, packets).value, u));
  }
}
