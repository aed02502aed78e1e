/**
  The redundancy coder's own loops over playout buffers (rat/cc_rdncy.c), proved to compute
  the functions of RedCoder.
 */
module RedObjects {
  import opened Options
  import opened ByteValues
  import opened PlayoutBuffers
  import opened RedHeaders
  import opened RedCoder

  class RedundancyEncoder {
    const cs: Codecs
    const layers: seq<Layer>
    const history: nat
    const mediaBuffer: PlayoutBuffer<Media>
    var unitsReady: nat
    var lastIn: int

    ghost predicate Valid()
      reads this, mediaBuffer
    {
      var nodes := mediaBuffer.nodes;
      && mediaBuffer.Valid()
      && (unitsReady == 0 ==> nodes == [])
      && (nodes != [] ==> nodes[|nodes| - 1].playout == lastIn)
    }

    ghost function View(): Enc
      reads this, mediaBuffer
    {
      Enc(layers, history, mediaBuffer.nodes, unitsReady)
    }

    constructor (cs: Codecs, layers: seq<Layer>, history: nat)
      ensures Valid() && fresh(mediaBuffer)
      ensures this.cs == cs && View() == Enc(layers, history, [], 0)
    {
      this.cs, this.layers, this.history := cs, layers, history;
      mediaBuffer := new PlayoutBuffer();
      unitsReady, lastIn := 0, 0;
    }

    /** make_pdu */
    method MakePdu(at: nat, upp: nat, cid: CodecId) returns (data: seq<byte>, used: nat)
      requires mediaBuffer.Valid() && at < |mediaBuffer.nodes|
      modifies mediaBuffer
      ensures mediaBuffer.Valid()
      ensures (mediaBuffer.nodes, data, used) == RedCoder.MakePdu(old(mediaBuffer.nodes), at, upp, cid, true)
    {
      ghost var start := mediaBuffer.nodes;
      var p: nat, i: nat := at, 0;
      data, used := [], 0;
      PduStart(start, at, upp, cid);
      hide RedCoder.MakePdu;
      while i < upp
        invariant i <= upp && used == i && mediaBuffer.Valid()
        invariant p < |mediaBuffer.nodes| == |start|
        invariant PduLeft(start, at, upp, cid, mediaBuffer.nodes, p, i, data)
      {
        var md := mediaBuffer.nodes[p].data;
        var j := FindCoding(md, cid);
        if j == |md| {
          PduEnd(start, at, upp, cid, mediaBuffer.nodes, p, i, data);
          return;
        }
        PduStep(start, at, upp, cid, mediaBuffer.nodes, p, i, data);
        TakeData(p, j, i == 0);
        data := data + Bytes(md[j], i == 0);
        if p + 1 < |mediaBuffer.nodes| { p := p + 1; }
        i, used := i + 1, used + 1;
      }
      PduEnd(start, at, upp, cid, mediaBuffer.nodes, p, i, data);
    }

    /** Move one coding's data out of the buffer. */
    method TakeData(at: nat, j: nat, first: bool)
      requires mediaBuffer.Valid() && at < |mediaBuffer.nodes| && j < |mediaBuffer.nodes[at].data|
      modifies mediaBuffer
      ensures mediaBuffer.Valid()
      ensures mediaBuffer.nodes == AfterTaking(old(mediaBuffer.nodes), at, j, first)
    {
      var n := mediaBuffer.nodes[at];
      mediaBuffer.nodes := mediaBuffer.nodes[at := Node(n.playout, n.data[j := Taken(n.data[j], first)])];
    }

    /** Rewind the iterator to where a layer begins. */
    method Rewind(at: nat, offset: nat, target: nat) returns (at': nat, offset': nat)
      ensures at' == at - Back(at, offset, target) && offset' == offset + Back(at, offset, target)
    {
      at', offset' := at, offset;
      while offset' < target && at' > 0
        invariant at' <= at && offset' - offset == at - at'
        invariant offset' == offset || offset' <= target
        decreases at'
      {
        at', offset' := at' - 1, offset' + 1;
      }
    }

    /** Stage 1 of redundancy_encoder_output. */
    method Gather(upp: nat, start: nat) returns (at: nat, coded: seq<seq<byte>>)
      requires mediaBuffer.Valid() && start < |mediaBuffer.nodes|
      modifies mediaBuffer
      ensures mediaBuffer.Valid()
      ensures (mediaBuffer.nodes, at, coded) == RedCoder.Gather(old(View()), upp, old(mediaBuffer.nodes), start, 0, 0)
    {
      hide RedCoder.Gather, RedCoder.MakePdu, GatherLeft, Back, Sorted;
      ghost var e := View();
      ghost var before := mediaBuffer.nodes;
      var offset: nat, i: nat := 0, 0;
      at, coded := start, [];
      GatherStart(e, upp, before, start);
      while i < |layers| && unitsReady > layers[i].pktsOff * upp
        invariant i <= |layers| && mediaBuffer.Valid() && at < |mediaBuffer.nodes| == |before|
        invariant GatherLeft(e, upp, before, start, mediaBuffer.nodes, at, offset, i, coded)
      {
        ghost var buf, at0, offset0 := mediaBuffer.nodes, at, offset;
        at, offset := Rewind(at, offset, layers[i].pktsOff * upp);
        var data, used := MakePdu(at, upp, layers[i].cid);
        GatherStep(e, upp, before, start, buf, at0, offset0, i, coded, at0 - at, mediaBuffer.nodes, data, used);
        if used == 0 { return; }
        coded := coded + [data];
        i := i + 1;
      }
      GatherEnd(e, upp, before, start, mediaBuffer.nodes, at, offset, i, coded);
    }

    /** Stage 2 of redundancy_encoder_output. */
    method Headers(upp: nat, coded: seq<seq<byte>>) returns (blocks: seq<Block>)
      requires layers != [] && coded != []
      ensures blocks == RedundantBlocks(cs, layers, upp, coded)
    {
      var last := layers[|layers| - 1];
      var pt, off := cs.payload(last.cid), cs.samplesPerFrame(last.cid) * (last.pktsOff * upp);
      blocks := if |coded| != |layers| then [Block(pt, off, [])] else [];
      ghost var none := |blocks|;
      var i: nat := |coded| - 1;
      while i > 0
        invariant i < |coded| && |blocks| == none + |coded| - 1 - i
        invariant none == (if |coded| != |layers| then 1 else 0)
        invariant none == 1 ==> blocks[0] == Block(pt, off, [])
        invariant forall k :: none <= k < |blocks| ==> blocks[k] == Block(pt, off, coded[|coded| - 1 - (k - none)])
      {
        blocks := blocks + [Block(pt, off, coded[i])];
        i := i - 1;
      }
    }

    /** redundancy_encoder_output; `None` when an assertion of it fails. */
    method Output(upp: nat) returns (packet: Option<seq<byte>>)
      requires mediaBuffer.Valid()
      modifies mediaBuffer
      ensures OutputIs(RedCoder.Output(cs, old(View()), upp), View(), packet)
      ensures packet != None ==> mediaBuffer.Valid() && SameEnd(old(mediaBuffer.nodes), mediaBuffer.nodes)
    {
      hide Layout, RedCoder.Gather, RedCoder.MakePdu, RedundantBlocks, RedCoder.Trim, ValidBlock, Sorted,
        RedCoder.Output;
      ghost var e := View();
      OutputStages(cs, e, upp);
      if layers == [] || upp == 0 || |mediaBuffer.nodes| < upp { return None; }
      var at, coded := Gather(upp, |mediaBuffer.nodes| - upp);
      if coded == [] { return None; }
      var blocks := Headers(upp, coded);
      var ppt := cs.payload(layers[0].cid);
      if !(0 <= ppt < 128) || exists b | b in blocks :: !ValidBlock(b) { return None; }
      ghost var taken := mediaBuffer.nodes;
      var removed := mediaBuffer.Audit(at, history);
      TrimIs(taken, at, history, removed);
      return Some(Layout(Packet(blocks, ppt, coded[0])));
    }

    /** One turn of the loop of redundancy_encoder_encode, which asserts that units come in
        the order of their playout times. */
    method Encode(n: Node<Media>, upp: nat) returns (packet: Option<Option<Node<seq<byte>>>>)
      requires Valid() && upp > 0
      requires unitsReady > 0 ==> lastIn < n.playout
      modifies this, mediaBuffer
      ensures AcceptIs(Accept(cs, old(View()), upp, n), View(), packet)
      ensures lastIn == n.playout && (packet != None ==> Valid())
    {
      hide RedCoder.Output, Contents, Position;
      lastIn := n.playout;
      if n.data == [] {
        mediaBuffer.nodes := [];
        unitsReady := 0;
        return Some(None);
      }
      var _ := mediaBuffer.Add(n.data, n.playout);
      unitsReady := unitsReady + 1;
      if unitsReady % upp != 0 { return Some(None); }
      var out := Output(upp);
      match out {
        case None => return None;
        case Some(bytes) => return Some(Some(Node(n.playout, bytes)));
      }
    }

    /** The whole loop: take every unit off the input buffer. */
    method EncodeUnits(input: PlayoutBuffer<Media>, upp: nat) returns (packets: Option<seq<Node<seq<byte>>>>)
      requires Valid() && input.Valid() && upp > 0 && input != mediaBuffer
      requires unitsReady > 0 && input.nodes != [] ==> lastIn < input.nodes[0].playout
      modifies this, mediaBuffer, input
      ensures match EncodeAll(cs, old(View()), upp, old(input.nodes))
              case None => packets == None
              case Some((e, sent)) => packets == Some(sent) && View() == e && Valid() && input.nodes == []
    {
      hide EncodeAll, UnitsLeft, Accept;
      ghost var e0, units := View(), input.nodes;
      var sent := [];
      UnitsStart(cs, upp, e0, units);
      while input.nodes != []
        invariant Valid() && input.Valid()
        invariant unitsReady > 0 && input.nodes != [] ==> lastIn < input.nodes[0].playout
        invariant UnitsLeft(cs, upp, e0, units, View(), input.nodes, sent)
        decreases |input.nodes|
      {
        UnitsStep(cs, upp, e0, units, View(), input.nodes, sent);
        var n := input.DetachHead();
        var p := Encode(n, upp);
        if p == None { return None; }
        sent := sent + if p.value == None then [] else [p.value.value];
      }
      UnitsEnd(cs, upp, e0, units, View(), sent);
      return Some(sent);
    }
  }

  /** Of the loop of redundancy_encoder_encode, `rest` is left to do and `sent` has been sent. */
  ghost predicate UnitsLeft(cs: Codecs, upp: nat, e0: Enc, units: seq<Node<Media>>, e: Enc, rest: seq<Node<Media>>,
                            sent: seq<Node<seq<byte>>>)
    requires upp > 0
  {
    EncodeAll(cs, e0, upp, units) ==
      match EncodeAll(cs, e, upp, rest)
      case None => None
      case Some((e', more)) => Some((e', sent + more))
  }

  lemma UnitsStart(cs: Codecs, upp: nat, e0: Enc, units: seq<Node<Media>>)
    requires upp > 0
    ensures UnitsLeft(cs, upp, e0, units, e0, units, [])
  {
    var r := EncodeAll(cs, e0, upp, units);
    assert r.Some? ==> [] + r.value.1 == r.value.1;
  }

  lemma UnitsStep(cs: Codecs, upp: nat, e0: Enc, units: seq<Node<Media>>, e: Enc, rest: seq<Node<Media>>,
                  sent: seq<Node<seq<byte>>>)
    requires upp > 0 && rest != [] && UnitsLeft(cs, upp, e0, units, e, rest, sent)
    ensures match Accept(cs, e, upp, rest[0])
            case None => EncodeAll(cs, e0, upp, units) == None
            case Some((e1, p)) =>
              UnitsLeft(cs, upp, e0, units, e1, rest[1..], sent + if p == None then [] else [p.value])
  {
    hide Accept;
    var step := Accept(cs, e, upp, rest[0]);
    if step.Some? {
      var first := if step.value.1 == None then [] else [step.value.1.value];
      var r := EncodeAll(cs, step.value.0, upp, rest[1..]);
      assert r.Some? ==> sent + (first + r.value.1) == sent + first + r.value.1;
    }
  }

  lemma UnitsEnd(cs: Codecs, upp: nat, e0: Enc, units: seq<Node<Media>>, e: Enc, sent: seq<Node<seq<byte>>>)
    requires upp > 0 && UnitsLeft(cs, upp, e0, units, e, [], sent)
    ensures EncodeAll(cs, e0, upp, units) == Some((e, sent))
  {
    assert sent + [] == sent;
  }

  /** redundancy_encoder_output, its header checks as the loop has them. */
  lemma OutputStages(cs: Codecs, e: Enc, upp: nat)
    ensures e.layers == [] || upp == 0 || |e.buffer| < upp ==> Output(cs, e, upp) == None
    ensures e.layers != [] && upp > 0 && |e.buffer| >= upp ==>
              var (buf, at, coded) := Gather(e, upp, e.buffer, |e.buffer| - upp, 0, 0);
              if coded == [] then Output(cs, e, upp) == None
              else
                var blocks := RedundantBlocks(cs, e.layers, upp, coded);
                var ppt := cs.payload(e.layers[0].cid);
                if !(0 <= ppt < 128) || exists b <- blocks :: !ValidBlock(b) then Output(cs, e, upp) == None
                else
                  Output(cs, e, upp) ==
                    Some((e.(buffer := Trim(buf, at, e.history)), Layout(Packet(blocks, ppt, coded[0]))))
  {
    hide Layout, Gather, MakePdu, RedundantBlocks, Trim, ValidBlock;
  }

  /** What a call that ends in state `now` and returns `packet` must agree with. */
  ghost predicate OutputIs(spec: Option<(Enc, seq<byte>)>, now: Enc, packet: Option<seq<byte>>) {
    match spec
    case None => packet == None
    case Some(r) => packet == Some(r.1) && now == r.0
  }

  ghost predicate AcceptIs(spec: Option<(Enc, Option<Node<seq<byte>>>)>, now: Enc,
                           packet: Option<Option<Node<seq<byte>>>>) {
    match spec
    case None => packet == None
    case Some(r) => packet == Some(r.1) && now == r.0
  }

  ghost predicate SameEnd(a: Buffer, b: Buffer) {
    a != [] && b != [] && a[|a| - 1].playout == b[|b| - 1].playout
  }

  /** The loop of pb_iterator_audit removes exactly what `Trim` drops. */
  lemma {:induction false} TrimIs(buf: Buffer, at: nat, history: nat, removed: nat)
    requires at < |buf| && removed <= at
    requires forall i :: 0 <= i < removed ==> buf[i].playout < buf[at].playout - history
    requires buf[removed].playout >= buf[at].playout - history
    ensures Trim(buf, at, history) == buf[removed..]
    decreases removed
  {
    if removed == 0 {
      assert buf[0..] == buf;
    } else {
      TrimIs(buf[1..], at - 1, history, removed - 1);
      assert buf[1..][removed - 1..] == buf[removed..];
    }
  }

  method FindCoding(md: Media, cid: CodecId) returns (j: nat)
    ensures j == Find(md, cid)
  {
    j := 0;
    while j < |md| && md[j].id != cid
      invariant j <= |md| && forall k :: 0 <= k < j ==> md[k].id != cid
    {
      j := j + 1;
    }
  }

  ghost function AfterTaking(buf: Buffer, at: nat, j: nat, first: bool): Buffer
    requires at < |buf| && j < |buf[at].data|
  {
    buf[at := Node(buf[at].playout, buf[at].data[j := Taken(buf[at].data[j], first)])]
  }

  /** Of the call of make_pdu that began in `start`, turns `i` and later are left to do. */
  ghost predicate PduLeft(start: Buffer, at: nat, upp: nat, cid: CodecId, buf: Buffer, p: nat, i: nat, data: seq<byte>)
    requires at < |start| && p < |buf| && i <= upp
  {
    var rest := MakePdu(buf, p, upp - i, cid, i == 0);
    MakePdu(start, at, upp, cid, true) == (rest.0, data + rest.1, i + rest.2)
  }

  lemma PduStart(start: Buffer, at: nat, upp: nat, cid: CodecId)
    requires at < |start|
    ensures PduLeft(start, at, upp, cid, start, at, 0, [])
  {
    var rest := MakePdu(start, at, upp, cid, true);
    assert [] + rest.1 == rest.1;
  }

  lemma PduStep(start: Buffer, at: nat, upp: nat, cid: CodecId, buf: Buffer, p: nat, i: nat, data: seq<byte>)
    requires at < |start| && p < |buf| && i < upp
    requires PduLeft(start, at, upp, cid, buf, p, i, data)
    requires Find(buf[p].data, cid) < |buf[p].data|
    ensures var j := Find(buf[p].data, cid);
            PduLeft(start, at, upp, cid, AfterTaking(buf, p, j, i == 0), if p + 1 < |buf| then p + 1 else p, i + 1,
                    data + Bytes(buf[p].data[j], i == 0))
  {
    var j := Find(buf[p].data, cid);
    var rest := MakePdu(AfterTaking(buf, p, j, i == 0), if p + 1 < |buf| then p + 1 else p, upp - (i + 1), cid, false);
    var taken := Bytes(buf[p].data[j], i == 0);
    assert MakePdu(buf, p, upp - i, cid, i == 0) == (rest.0, taken + rest.1, rest.2 + 1);
    assert data + (taken + rest.1) == data + taken + rest.1;
  }

  lemma PduEnd(start: Buffer, at: nat, upp: nat, cid: CodecId, buf: Buffer, p: nat, i: nat, data: seq<byte>)
    requires at < |start| && p < |buf| && i <= upp
    requires PduLeft(start, at, upp, cid, buf, p, i, data)
    requires i < upp ==> Find(buf[p].data, cid) == |buf[p].data|
    ensures MakePdu(start, at, upp, cid, true) == (buf, data, i)
  {
    assert data + [] == data;
  }

  /** Of stage 1 begun in `before`, layers `i` and later are left to do. */
  ghost predicate GatherLeft(e: Enc, upp: nat, before: Buffer, start: nat, buf: Buffer, at: nat, offset: nat, i: nat,
                             coded: seq<seq<byte>>)
    requires start < |before| && at < |buf| && i <= |e.layers|
  {
    var rest := Gather(e, upp, buf, at, offset, i);
    Gather(e, upp, before, start, 0, 0) == (rest.0, rest.1, coded + rest.2)
  }

  lemma GatherStart(e: Enc, upp: nat, before: Buffer, start: nat)
    requires start < |before|
    ensures GatherLeft(e, upp, before, start, before, start, 0, 0, [])
  {
    var rest := Gather(e, upp, before, start, 0, 0);
    assert [] + rest.2 == rest.2;
  }

  lemma GatherUnfold(e: Enc, upp: nat, buf: Buffer, at: nat, offset: nat, i: nat,
                     back: nat, buf1: Buffer, data: seq<byte>, used: nat)
    requires at < |buf| && i < |e.layers| && e.ready > e.layers[i].pktsOff * upp
    requires back == Back(at, offset, e.layers[i].pktsOff * upp)
    requires (buf1, data, used) == MakePdu(buf, at - back, upp, e.layers[i].cid, true)
    ensures Gather(e, upp, buf, at, offset, i) ==
              if used == 0 then (buf1, at - back, [])
              else
                var rest := Gather(e, upp, buf1, at - back, offset + back, i + 1);
                (rest.0, rest.1, [data] + rest.2)
  {
    hide MakePdu;
  }

  lemma GatherStep(e: Enc, upp: nat, before: Buffer, start: nat, buf: Buffer, at: nat, offset: nat, i: nat,
                   coded: seq<seq<byte>>, back: nat, buf1: Buffer, data: seq<byte>, used: nat)
    requires start < |before| && at < |buf| && i < |e.layers| && e.ready > e.layers[i].pktsOff * upp
    requires GatherLeft(e, upp, before, start, buf, at, offset, i, coded)
    requires back == Back(at, offset, e.layers[i].pktsOff * upp)
    requires (buf1, data, used) == MakePdu(buf, at - back, upp, e.layers[i].cid, true)
    ensures if used == 0 then Gather(e, upp, before, start, 0, 0) == (buf1, at - back, coded)
            else GatherLeft(e, upp, before, start, buf1, at - back, offset + back, i + 1, coded + [data])
  {
    hide Gather, MakePdu, Back;
    GatherUnfold(e, upp, buf, at, offset, i, back, buf1, data, used);
    if used == 0 {
      assert coded + [] == coded;
    } else {
      var rest := Gather(e, upp, buf1, at - back, offset + back, i + 1);
      assert coded + ([data] + rest.2) == coded + [data] + rest.2;
    }
  }

  lemma GatherEnd(e: Enc, upp: nat, before: Buffer, start: nat, buf: Buffer, at: nat, offset: nat, i: nat,
                  coded: seq<seq<byte>>)
    requires start < |before| && at < |buf| && i <= |e.layers|
    requires i == |e.layers| || e.ready <= e.layers[i].pktsOff * upp
    requires GatherLeft(e, upp, before, start, buf, at, offset, i, coded)
    ensures Gather(e, upp, before, start, 0, 0) == (buf, at, coded)
  {
    assert coded + [] == coded;
  }

  // --------------------------------------------------------------------- decoder

  /** The checks of place_unit: there is room, no coding by this codec yet, and the newest
      coding is not the native one. */
  method HasRoom(cs: Codecs, md: Media, cid: CodecId) returns (room: bool)
    ensures room <==> |md| < MAX_MEDIA_UNITS && Find(md, cid) == |md| && (md == [] || !cs.native(md[|md| - 1].id))
  {
    if |md| >= MAX_MEDIA_UNITS { return false; }
    var i := 0;
    while i < |md|
      invariant i <= |md| && forall k :: 0 <= k < i ==> md[k].id != cid
    {
      if md[i].id == cid { return false; }
      i := i + 1;
    }
    return |md| == 0 || !cs.native(md[|md| - 1].id);
  }

  lemma PlaceIs(cs: Codecs, was: MediaBuffer, t: int, cu: Coding, placed: bool, now: MediaBuffer)
    requires placed <==> var md := Get(was, t);
               |md| < MAX_MEDIA_UNITS && Find(md, cu.id) == |md| && (md == [] || !cs.native(md[|md| - 1].id))
    requires now == if placed then was[t := Get(was, t)][t := Get(was, t) + [cu]] else was[t := Get(was, t)]
    ensures Place(cs, was, t, cu) == (now, placed)
  {
    assert was[t := Get(was, t)][t := Get(was, t) + [cu]] == was[t := Get(was, t) + [cu]];
  }

  lemma PlaceFirst(cs: Codecs, out: MediaBuffer, frames: seq<Coding>, t: int, step: int)
    requires frames != []
    ensures var (out1, placed) := Place(cs, out, t, frames[0]);
            PlaceAll(cs, out, frames, t, step) == PlaceAll(cs, out1, frames[1..], if placed then t + step else t, step)
  {
    hide Place;
  }

  lemma NoFrames(cs: Codecs, cid: CodecId, first: bool, out: MediaBuffer, frames: seq<Coding>, t: int, step: int)
    requires Frames(cs, cid, [], first) == Some(frames)
    ensures PlaceAll(cs, out, frames, t, step) == out
  {}

  class RedundancyDecoder {
    const cs: Codecs
    const out: PlayoutBuffer<Media>

    constructor (cs: Codecs)
      ensures out.Valid() && fresh(out) && out.View() == map[] && this.cs == cs
    {
      this.cs := cs;
      out := new PlayoutBuffer();
    }

    /** red_media_data_create_or_get */
    method GetOrCreate(t: int) returns (at: nat)
      requires out.Valid()
      modifies out
      ensures out.Valid() && out.View() == old(out.View())[t := Get(old(out.View()), t)]
      ensures at < |out.nodes| && out.nodes[at].playout == t && out.nodes[at].data == Get(old(out.View()), t)
    {
      ghost var was := out.View();
      var found := out.Find(t);
      if found == -1 {
        var _ := out.Add([], t);
        found := out.Find(t);
      } else {
        assert was == was[t := was[t]];
      }
      at := found;
    }

    /** red_media_data_create_or_get, then place_unit. */
    method PlaceUnit(t: int, cu: Coding) returns (placed: bool)
      requires out.Valid()
      modifies out
      ensures out.Valid() && (out.View(), placed) == Place(cs, old(out.View()), t, cu)
    {
      hide Contents, Position, Sorted, Get, Place, Find;
      ghost var was := out.View();
      var at := GetOrCreate(t);
      var md := out.nodes[at].data;
      placed := HasRoom(cs, md, cu.id);
      if placed {
        out.Replace(at, md + [cu]);
      }
      PlaceIs(cs, was, t, cu, placed, out.View());
    }

    /** red_split_unit.  The block must end where a frame ends, or the C code reads on. */
    method SplitUnit(ppt: int, bpt: int, b: seq<byte>, playout: int)
      requires out.Valid()
      requires RedCoder.SplitUnit(cs, ppt, bpt, b, playout, out.View()).Some?
      modifies out
      ensures out.Valid() && Some(out.View()) == RedCoder.SplitUnit(cs, ppt, bpt, b, playout, old(out.View()))
    {
      var pid, cid := cs.byPayload(ppt), cs.byPayload(bpt);
      if pid == 0 || cid == 0 || !cs.compatible(pid, cid) { return; }
      ghost var frames := Frames(cs, cid, b, true).value;
      SplitFrames(cid, b, playout, frames);
    }

    /** Its loop over the frames of a block. */
    method SplitFrames(cid: CodecId, b: seq<byte>, playout: int, ghost frames: seq<Coding>)
      requires out.Valid() && Frames(cs, cid, b, true) == Some(frames)
      modifies out
      ensures out.Valid()
      ensures out.View() == PlaceAll(cs, old(out.View()), frames, playout, cs.samplesPerFrame(cid))
    {
      var step := cs.samplesPerFrame(cid);
      var rest, first, t := b, true, playout;
      ghost var left := frames;
      hide Frames, PlaceAll, Place;
      while rest != []
        invariant out.Valid() && Frames(cs, cid, rest, first) == Some(left)
        invariant PlaceAll(cs, out.View(), left, t, step) == PlaceAll(cs, old(out.View()), frames, playout, step)
        decreases |rest|
      {
        FirstFrame(cs, cid, rest, first, left);
        PlaceFirst(cs, out.View(), left, t, step);
        var s := if first then cs.stateSize(cid) else 0;
        var len := cs.peek(cid, rest[s..]);
        var placed := PlaceUnit(t, Coding(cid, rest[..s], rest[s..s + len]));
        rest, first, left := rest[s + len..], false, left[1..];
        if placed { t := t + step; }
      }
      NoFrames(cs, cid, first, out.View(), left, t, step);
    }

    /** redundancy_decoder_output on a packet whose blocks are whole. */
    method Decode(bytes: seq<byte>, playout: int)
      requires out.Valid() && DecodePacket(cs, bytes, playout, out.View()).Some?
      modifies out
      ensures out.Valid() && Some(out.View()) == DecodePacket(cs, bytes, playout, old(out.View()))
    {
      hide SplitBlocks, RedCoder.SplitUnit, Parse, DecodePacket, BlocksLeft;
      ghost var was := out.View();
      DecodeIs(cs, bytes, playout, was);
      var p := WalkPacket(bytes);
      match p {
        case None =>
        case Some(Packet(blocks, ppt, primary)) =>
          if cs.byPayload(ppt) == 0 || blocks == [] { return; }
          var latest := playout + blocks[0].off;
          var i := 0;
          BlocksStart(cs, ppt, blocks, latest, was);
          while i < |blocks|
            invariant 0 <= i <= |blocks| && out.Valid()
            invariant BlocksLeft(cs, ppt, blocks, latest, was, i, out.View())
          {
            BlocksStep(cs, ppt, blocks, latest, was, i, out.View());
            SplitUnit(ppt, blocks[i].pt, blocks[i].data, latest - blocks[i].off);
            i := i + 1;
          }
          BlocksEnd(cs, ppt, blocks, latest, was, i, out.View());
          SplitUnit(ppt, ppt, primary, latest);
      }
    }
  }

  lemma DecodeIs(cs: Codecs, bytes: seq<byte>, playout: int, out: MediaBuffer)
    requires DecodePacket(cs, bytes, playout, out).Some?
    ensures match Parse(bytes)
            case None => DecodePacket(cs, bytes, playout, out) == Some(out)
            case Some(p) =>
              if cs.byPayload(p.ppt) == 0 || p.blocks == [] then DecodePacket(cs, bytes, playout, out) == Some(out)
              else
                var latest := playout + p.blocks[0].off;
                var redundant := SplitBlocks(cs, p.ppt, p.blocks, latest, out);
                && redundant.Some?
                && DecodePacket(cs, bytes, playout, out) ==
                   SplitUnit(cs, p.ppt, p.ppt, p.primary, latest, redundant.value)
  {
    hide SplitBlocks, SplitUnit, Parse, SkipHeaders;
  }

  /** Of the redundant blocks of a packet, those from `i` on are left to split. */
  ghost predicate BlocksLeft(cs: Codecs, ppt: int, blocks: seq<RedBlock>, latest: int, was: MediaBuffer, i: nat,
                             now: MediaBuffer)
    requires i <= |blocks|
  {
    && SplitBlocks(cs, ppt, blocks, latest, was).Some?
    && SplitBlocks(cs, ppt, blocks, latest, was) == SplitBlocks(cs, ppt, blocks[i..], latest, now)
  }

  lemma BlocksStart(cs: Codecs, ppt: int, blocks: seq<RedBlock>, latest: int, was: MediaBuffer)
    requires SplitBlocks(cs, ppt, blocks, latest, was).Some?
    ensures BlocksLeft(cs, ppt, blocks, latest, was, 0, was)
  {
    assert blocks[0..] == blocks;
  }

  lemma BlocksStep(cs: Codecs, ppt: int, blocks: seq<RedBlock>, latest: int, was: MediaBuffer, i: nat, now: MediaBuffer)
    requires i < |blocks| && BlocksLeft(cs, ppt, blocks, latest, was, i, now)
    ensures var split := SplitUnit(cs, ppt, blocks[i].pt, blocks[i].data, latest - blocks[i].off, now);
            split.Some? && BlocksLeft(cs, ppt, blocks, latest, was, i + 1, split.value)
  {
    hide SplitUnit;
    assert blocks[i..][0] == blocks[i] && blocks[i..][1..] == blocks[i + 1..];
  }

  lemma BlocksEnd(cs: Codecs, ppt: int, blocks: seq<RedBlock>, latest: int, was: MediaBuffer, i: nat, now: MediaBuffer)
    requires i == |blocks| && BlocksLeft(cs, ppt, blocks, latest, was, i, now)
    ensures SplitBlocks(cs, ppt, blocks, latest, was) == Some(now)
  {}
}
