/**
  The redundancy coder of rat/cc_rdncy.c as functions of its state: what one call of
  redundancy_encoder_encode does with one unit, and what redundancy_decoder_output does
  with one packet.
 */
module RedCoder {
  import opened Options
  import opened ByteValues
  import opened PlayoutBuffers
  import opened RedHeaders

  type CodecId = nat  // 0 is no codec

  /** coded_unit: an empty `state` is a null pointer. */
  datatype Coding = Coding(id: CodecId, state: seq<byte>, data: seq<byte>)

  /** media_data: the codings of one time interval. */
  type Media = seq<Coding>

  const MAX_MEDIA_UNITS := 5

  /** The codec table. */
  datatype Codecs = Codecs(
    payload: CodecId -> int,
    byPayload: int -> CodecId,
    stateSize: CodecId -> nat,
    samplesPerFrame: CodecId -> nat,
    peek: (CodecId, seq<byte>) -> nat,
    native: CodecId -> bool,
    compatible: (CodecId, CodecId) -> bool)

  // --------------------------------------------------------------------- encoder

  datatype Layer = Layer(cid: CodecId, pktsOff: nat)

  type Buffer = seq<Node<Media>>

  datatype Enc = Enc(layers: seq<Layer>, history: nat, buffer: Buffer, ready: nat)

  /** Index of the first coding by codec `cid`, `|md|` if there is none. */
  function Find(md: Media, cid: CodecId): (j: nat)
    ensures j <= |md|
    ensures j < |md| ==> md[j].id == cid
    ensures forall i :: 0 <= i < j ==> md[i].id != cid
  {
    if md == [] then 0 else if md[0].id == cid then 0 else 1 + Find(md[1..], cid)
  }

  /** A coding after its data has been moved into a packet. */
  function Taken(c: Coding, first: bool): Coding {
    Coding(0, if first then [] else c.state, [])
  }

  function Bytes(c: Coding, first: bool): seq<byte> {
    (if first then c.state else []) + c.data
  }

  /** make_pdu: the buffer without the data taken, that data, and how many units gave some. */
  function MakePdu(buf: Buffer, at: nat, upp: nat, cid: CodecId, first: bool): (r: (Buffer, seq<byte>, nat))
    requires at < |buf|
    ensures |r.0| == |buf| && r.2 <= upp
    ensures forall i :: 0 <= i < |buf| ==> r.0[i].playout == buf[i].playout
    decreases upp
  {
    if upp == 0 then (buf, [], 0)
    else
      var md := buf[at].data;
      var j := Find(md, cid);
      if j == |md| then (buf, [], 0)
      else
        var buf1 := buf[at := Node(buf[at].playout, md[j := Taken(md[j], first)])];
        var next := if at + 1 < |buf| then at + 1 else at;
        var (buf2, rest, used) := MakePdu(buf1, next, upp - 1, cid, false);
        (buf2, Bytes(md[j], first) + rest, used + 1)
  }

  function Min(a: nat, b: nat): nat { if a < b then a else b }

  /** How far the iterator at `at` rewinds to reach `target` units before the newest packet. */
  function Back(at: nat, offset: nat, target: nat): (back: nat)
    ensures back <= at
  {
    if offset < target then Min(at, target - offset) else 0
  }

  /** Stage 1 of redundancy_encoder_output: from `at`, which lies `offset` units before the
      newest packet, collect the data of layer `i` and the layers after it. */
  function Gather(e: Enc, upp: nat, buf: Buffer, at: nat, offset: nat, i: nat): (r: (Buffer, nat, seq<seq<byte>>))
    requires at < |buf| && i <= |e.layers|
    ensures |r.0| == |buf| && r.1 <= at && |r.2| <= |e.layers| - i
    ensures forall k :: 0 <= k < |buf| ==> r.0[k].playout == buf[k].playout
    decreases |e.layers| - i
  {
    if i == |e.layers| || e.ready <= e.layers[i].pktsOff * upp then (buf, at, [])
    else
      var back := Back(at, offset, e.layers[i].pktsOff * upp);
      var (buf1, data, used) := MakePdu(buf, at - back, upp, e.layers[i].cid, true);
      if used == 0 then (buf1, at - back, [])
      else
        var (buf2, at2, more) := Gather(e, upp, buf1, at - back, offset + back, i + 1);
        (buf2, at2, [data] + more)
  }

  /** Stage 2: the headers in front of the primary one.  All carry the last layer's codec and
      offset; a packet that lacks layers starts with an empty block to announce the offset. */
  function RedundantBlocks(cs: Codecs, layers: seq<Layer>, upp: nat, coded: seq<seq<byte>>): seq<Block>
    requires layers != [] && coded != []
  {
    var last := layers[|layers| - 1];
    var pt, off := cs.payload(last.cid), cs.samplesPerFrame(last.cid) * (last.pktsOff * upp);
    (if |coded| != |layers| then [Block(pt, off, [])] else [])
    + seq(|coded| - 1, i requires 0 <= i < |coded| - 1 => Block(pt, off, coded[|coded| - 1 - i]))
  }

  /** pb_iterator_audit: units more than `history` older than the one at `at` are dropped. */
  function Trim(buf: Buffer, at: nat, history: nat): (kept: Buffer)
    requires at < |buf|
    ensures kept != []
    decreases |buf|
  {
    if at > 0 && buf[0].playout < buf[at].playout - history then Trim(buf[1..], at - 1, history) else buf
  }

  /** redundancy_encoder_output; `None` when one of its assertions fails. */
  function Output(cs: Codecs, e: Enc, upp: nat): Option<(Enc, seq<byte>)> {
    if e.layers == [] || upp == 0 || |e.buffer| < upp then None
    else
      var (buf, at, coded) := Gather(e, upp, e.buffer, |e.buffer| - upp, 0, 0);
      if coded == [] then None
      else
        var blocks := RedundantBlocks(cs, e.layers, upp, coded);
        var ppt := cs.payload(e.layers[0].cid);
        if 0 <= ppt < 128 && forall b <- blocks :: ValidBlock(b) then
          Some((e.(buffer := Trim(buf, at, e.history)), Layout(Packet(blocks, ppt, coded[0]))))
        else None
  }

  /** One turn of the loop of redundancy_encoder_encode: the new state, and the packet sent
      if this unit completes one. */
  function Accept(cs: Codecs, e: Enc, upp: nat, n: Node<Media>): Option<(Enc, Option<Node<seq<byte>>>)>
    requires upp > 0
  {
    if n.data == [] then Some((e.(buffer := [], ready := 0), None))
    else
      var e1 := e.(buffer := e.buffer + [n], ready := e.ready + 1);
      if e1.ready % upp != 0 then Some((e1, None))
      else
        match Output(cs, e1, upp)
        case None => None
        case Some((e2, bytes)) => Some((e2, Some(Node(n.playout, bytes))))
  }

  /** redundancy_encoder_encode: all units in turn, and the packets sent on the way. */
  function EncodeAll(cs: Codecs, e: Enc, upp: nat, units: seq<Node<Media>>): Option<(Enc, seq<Node<seq<byte>>>)>
    requires upp > 0
    decreases |units|
  {
    if units == [] then Some((e, []))
    else
      match Accept(cs, e, upp, units[0])
      case None => None
      case Some((e1, p)) =>
        match EncodeAll(cs, e1, upp, units[1..])
        case None => None
        case Some((e2, more)) => Some((e2, (if p == None then [] else [p.value]) + more))
  }

  // --------------------------------------------------------------------- decoder

  type MediaBuffer = map<int, Media>

  function Get(out: MediaBuffer, t: int): Media {
    if t in out then out[t] else []
  }

  /** red_media_data_create_or_get, the check against MAX_MEDIA_UNITS, and place_unit. */
  function Place(cs: Codecs, out: MediaBuffer, t: int, cu: Coding): (MediaBuffer, bool) {
    var md := Get(out, t);
    if |md| >= MAX_MEDIA_UNITS || Find(md, cu.id) < |md| || (md != [] && cs.native(md[|md| - 1].id))
    then (out[t := md], false)
    else (out[t := md + [cu]], true)
  }

  /** The frames of a block; `None` if they do not end where the block ends. */
  function Frames(cs: Codecs, cid: CodecId, b: seq<byte>, first: bool): Option<seq<Coding>>
    decreases |b|
  {
    if b == [] then Some([])
    else
      var s := if first then cs.stateSize(cid) else 0;
      if s > |b| then None
      else
        var len := cs.peek(cid, b[s..]);
        if len == 0 || s + len > |b| then None
        else
          match Frames(cs, cid, b[s + len..], false)
          case None => None
          case Some(rest) => Some([Coding(cid, b[..s], b[s..s + len])] + rest)
  }

  lemma OneFrame(cs: Codecs, c: CodecId, state: seq<byte>, data: seq<byte>, rest: seq<byte>, first: bool,
      more: seq<Coding>)
    requires |state| == (if first then cs.stateSize(c) else 0)
    requires |data| > 0 && cs.peek(c, data + rest) == |data|
    requires Frames(cs, c, rest, false) == Some(more)
    ensures Frames(cs, c, state + (data + rest), first) == Some([Coding(c, state, data)] + more)
  {
    var b, s := state + (data + rest), |state|;
    assert b[s..] == data + rest && b[..s] == state && b[s..s + |data|] == data && b[s + |data|..] == rest;
  }

  lemma FirstFrame(cs: Codecs, cid: CodecId, b: seq<byte>, first: bool, frames: seq<Coding>)
    requires b != [] && Frames(cs, cid, b, first) == Some(frames)
    ensures var s := if first then cs.stateSize(cid) else 0;
            && s <= |b|
            && var len := cs.peek(cid, b[s..]);
            && 0 < len <= |b| - s
            && frames != [] && frames[0] == Coding(cid, b[..s], b[s..s + len])
            && Frames(cs, cid, b[s + len..], false) == Some(frames[1..])
  {
    var s := if first then cs.stateSize(cid) else 0;
    var len := cs.peek(cid, b[s..]);
    var rest := Frames(cs, cid, b[s + len..], false).value;
    assert frames == [Coding(cid, b[..s], b[s..s + len])] + rest;
    assert frames[1..] == rest;
  }

  /** The loop of red_split_unit: time moves on only past a frame that was placed. */
  function PlaceAll(cs: Codecs, out: MediaBuffer, frames: seq<Coding>, t: int, step: int): MediaBuffer
    decreases |frames|
  {
    if frames == [] then out
    else
      var (out1, placed) := Place(cs, out, t, frames[0]);
      PlaceAll(cs, out1, frames[1..], if placed then t + step else t, step)
  }

  function SplitUnit(cs: Codecs, ppt: int, bpt: int, b: seq<byte>, t: int, out: MediaBuffer): Option<MediaBuffer> {
    var pid, cid := cs.byPayload(ppt), cs.byPayload(bpt);
    if pid == 0 || cid == 0 || !cs.compatible(pid, cid) then Some(out)
    else
      match Frames(cs, cid, b, true)
      case None => None
      case Some(frames) => Some(PlaceAll(cs, out, frames, t, cs.samplesPerFrame(cid)))
  }

  /** Redundant blocks, realigned by the difference of their offset to the greatest. */
  function SplitBlocks(cs: Codecs, ppt: int, blocks: seq<RedBlock>, latest: int, out: MediaBuffer): Option<MediaBuffer>
    decreases |blocks|
  {
    if blocks == [] then Some(out)
    else
      match SplitUnit(cs, ppt, blocks[0].pt, blocks[0].data, latest - blocks[0].off, out)
      case None => None
      case Some(out1) => SplitBlocks(cs, ppt, blocks[1..], latest, out1)
  }

  /** redundancy_decoder_output.  A packet without redundancy, or of an unknown codec, is
      ignored; `None` stands for reading past the end of the packet. */
  function DecodePacket(cs: Codecs, bytes: seq<byte>, playout: int, out: MediaBuffer): Option<MediaBuffer> {
    match Parse(bytes)
    case None => if SkipHeaders(bytes, 0) == Some(0) then Some(out) else None
    case Some(p) =>
      if cs.byPayload(p.ppt) == 0 || p.blocks == [] then Some(out)
      else
        var latest := playout + p.blocks[0].off;
        match SplitBlocks(cs, p.ppt, p.blocks, latest, out)
        case None => None
        case Some(out1) => SplitUnit(cs, p.ppt, p.ppt, p.primary, latest, out1)
  }

  // ------------------------------------------------ what splitting can and cannot do

  /** How many leading frames of a block find room. */
  function Accepted(cs: Codecs, out: MediaBuffer, frames: seq<Coding>, t: int, step: int): (n: nat)
    ensures n <= |frames|
    decreases |frames|
  {
    if frames == [] then 0
    else
      var (out1, placed) := Place(cs, out, t, frames[0]);
      if placed then 1 + Accepted(cs, out1, frames[1..], t + step, step) else 0
  }

  /** Frames of one codec that follow a refused one are refused too: they meet the same unit. */
  lemma {:induction false} NothingAfterRefusal(cs: Codecs, out: MediaBuffer, frames: seq<Coding>, t: int, step: int)
    requires forall i, j :: 0 <= i < j < |frames| ==> frames[i].id == frames[j].id
    requires frames != [] && !Place(cs, out, t, frames[0]).1
    ensures forall u :: Get(PlaceAll(cs, out, frames, t, step), u) == Get(out, u)
    decreases |frames|
  {
    var out1 := Place(cs, out, t, frames[0]).0;
    assert forall u :: Get(out1, u) == Get(out, u);
    if |frames| > 1 {
      assert frames[1].id == frames[0].id && frames[1..][0] == frames[1];
      assert forall i :: 0 <= i < |frames[1..]| ==> frames[1..][i] == frames[i + 1];
      NothingAfterRefusal(cs, out1, frames[1..], t, step);
      assert PlaceAll(cs, out, frames, t, step) == PlaceAll(cs, out1, frames[1..], t, step);
    }
  }

  /** The time `i` steps after `t`. */
  function At(t: int, i: int, step: int): int {
    t + i * step
  }

  lemma AtStart(t: int, step: int)
    ensures At(t, 0, step) == t
  {}

  lemma AtShift(t: int, i: int, step: int)
    ensures At(t + step, i, step) == At(t, i + 1, step)
  {}

  lemma AtInjective(t: int, i: int, j: int, step: int)
    requires step > 0
    ensures At(t, i, step) == At(t, j, step) <==> i == j
  {
    if At(t, i, step) == At(t, j, step) {
      assert (i - j) * step == 0;
    }
  }

  ghost predicate Among(u: int, n: nat, t: int, step: int) {
    exists i :: 0 <= i < n && u == At(t, i, step)
  }

  /** `out'` has one coding more, taken from `frames` in order, at each of the `n` consecutive
      times that begin at `t`, and is otherwise like `out`. */
  ghost predicate Extended(out: MediaBuffer, out': MediaBuffer, frames: seq<Coding>, n: nat, t: int, step: int)
    requires n <= |frames|
  {
    && (forall i :: 0 <= i < n ==> Get(out', At(t, i, step)) == Get(out, At(t, i, step)) + [frames[i]])
    && (forall u :: !Among(u, n, t, step) ==> Get(out', u) == Get(out, u))
  }

  lemma AmongShift(u: int, n: nat, t: int, step: int)
    ensures Among(u, n + 1, t, step) <==> u == t || Among(u, n, t + step, step)
  {
    var t1 := t + step;
    if Among(u, n + 1, t, step) {
      var i :| 0 <= i < n + 1 && u == At(t, i, step);
      if i > 0 {
        AtShift(t, i - 1, step);
        assert u == At(t1, i - 1, step);
      }
    }
    if Among(u, n, t1, step) {
      var i :| 0 <= i < n && u == At(t1, i, step);
      AtShift(t, i, step);
    }
    assert At(t, 0, step) == t;
  }

  lemma NotAmongLater(n: nat, t: int, step: int)
    requires step > 0
    ensures !Among(t, n, t + step, step)
  {
    var t1 := t + step;
    if Among(t, n, t1, step) {
      var i :| 0 <= i < n && t == At(t1, i, step);
      AtShift(t, i, step);
      AtInjective(t, 0, i + 1, step);
    }
  }

  lemma ExtendedStep(out: MediaBuffer, out1: MediaBuffer, out': MediaBuffer, frames: seq<Coding>, n1: nat, t: int,
      step: int)
    requires step > 0 && n1 < |frames|
    requires out1 == out[t := Get(out, t) + [frames[0]]]
    requires Extended(out1, out', frames[1..], n1, t + step, step)
    ensures Extended(out, out', frames, n1 + 1, t, step)
  {
    hide Get, At, Among;
    var t1, md := t + step, Get(out, t) + [frames[0]];
    NotAmongLater(n1, t, step);
    AtStart(t, step);
    forall i | 0 <= i < n1 + 1
      ensures Get(out', At(t, i, step)) == Get(out, At(t, i, step)) + [frames[i]]
    {
      AtInjective(t, i, 0, step);
      GetUpdated(out, t, md, At(t, i, step));
      if i > 0 {
        AtShift(t, i - 1, step);
        assert frames[1..][i - 1] == frames[i];
        assert Get(out', At(t1, i - 1, step)) == Get(out1, At(t1, i - 1, step)) + [frames[i]];
      }
    }
    forall u | !Among(u, n1 + 1, t, step)
      ensures Get(out', u) == Get(out, u)
    {
      AmongShift(u, n1, t, step);
      GetUpdated(out, t, md, u);
    }
  }

  lemma GetUpdated(out: MediaBuffer, t: int, md: Media, u: int)
    ensures Get(out[t := md], u) == if u == t then md else Get(out, u)
  {}

  lemma NothingExtended(out: MediaBuffer, frames: seq<Coding>, t: int, step: int)
    ensures Extended(out, out, frames, 0, t, step)
  {}

  lemma SameExtended(out: MediaBuffer, out': MediaBuffer, frames: seq<Coding>, t: int, step: int)
    requires forall u :: Get(out', u) == Get(out, u)
    ensures Extended(out, out', frames, 0, t, step)
  {}

  lemma PlacedIs(cs: Codecs, out: MediaBuffer, t: int, cu: Coding)
    ensures Place(cs, out, t, cu).1 ==> Place(cs, out, t, cu).0 == out[t := Get(out, t) + [cu]]
  {}

  /** Splitting a block places a prefix of its frames at consecutive times, one more coding in
      each of those units, and changes nothing else. */
  lemma {:induction false} SplitPlacesPrefix(cs: Codecs, out: MediaBuffer, frames: seq<Coding>, t: int, step: nat)
    requires step > 0
    requires forall i, j :: 0 <= i < j < |frames| ==> frames[i].id == frames[j].id
    ensures Extended(out, PlaceAll(cs, out, frames, t, step), frames, Accepted(cs, out, frames, t, step), t, step)
    decreases |frames|
  {
    hide Place, Extended, Get;
    if frames == [] {
      NothingExtended(out, frames, t, step);
    } else {
      var (out1, placed) := Place(cs, out, t, frames[0]);
      PlacedIs(cs, out, t, frames[0]);
      if !placed {
        NothingAfterRefusal(cs, out, frames, t, step);
        SameExtended(out, PlaceAll(cs, out, frames, t, step), frames, t, step);
      } else {
        assert forall i :: 0 <= i < |frames[1..]| ==> frames[1..][i] == frames[i + 1];
        SplitPlacesPrefix(cs, out1, frames[1..], t + step, step);
        ExtendedStep(out, out1, PlaceAll(cs, out1, frames[1..], t + step, step), frames,
                     Accepted(cs, out1, frames[1..], t + step, step), t, step);
      }
    }
  }

  /** A unit has room for a coding by codec `cid`: it is not full, has none by this codec, and has
      not been decoded yet. */
  ghost predicate Room(cs: Codecs, out: MediaBuffer, t: int, cid: CodecId) {
    var md := Get(out, t);
    |md| < MAX_MEDIA_UNITS && Find(md, cid) == |md| && (md == [] || !cs.native(md[|md| - 1].id))
  }

  lemma PlaceRoom(cs: Codecs, out: MediaBuffer, t: int, cu: Coding)
    ensures Place(cs, out, t, cu).1 <==> Room(cs, out, t, cu.id)
  {}

  lemma RoomLater(cs: Codecs, out: MediaBuffer, cid: CodecId, t: int, u: int, md: Media)
    requires u != t
    ensures Room(cs, out[t := md], u, cid) <==> Room(cs, out, u, cid)
  {}

  /** The frames of a block are placed up to the first whose unit had no room before. */
  lemma {:induction false} AcceptedExactly(cs: Codecs, out: MediaBuffer, frames: seq<Coding>, cid: CodecId, t: int,
                                           step: nat)
    requires step > 0 && forall i :: 0 <= i < |frames| ==> frames[i].id == cid
    ensures var n := Accepted(cs, out, frames, t, step);
            && (forall i :: 0 <= i < n ==> Room(cs, out, At(t, i, step), cid))
            && (n < |frames| ==> !Room(cs, out, At(t, n, step), cid))
    decreases |frames|
  {
    hide Room, Place, Get, At;
    AtStart(t, step);
    if frames != [] {
      PlaceRoom(cs, out, t, frames[0]);
      PlacedIs(cs, out, t, frames[0]);
      var (out1, placed) := Place(cs, out, t, frames[0]);
      if placed {
        var n1 := Accepted(cs, out1, frames[1..], t + step, step);
        assert forall i :: 0 <= i < |frames[1..]| ==> frames[1..][i] == frames[i + 1];
        AcceptedExactly(cs, out1, frames[1..], cid, t + step, step);
        forall i | 0 < i <= n1 + 1
          ensures Room(cs, out, At(t, i, step), cid) <==> Room(cs, out1, At(t + step, i - 1, step), cid)
        {
          AtShift(t, i - 1, step);
          AtInjective(t, i, 0, step);
          RoomLater(cs, out, cid, t, At(t, i, step), Get(out, t) + [frames[0]]);
        }
      }
    }
  }
}
