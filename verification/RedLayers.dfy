/**
  The packets of an encoder with any number of layers, each by a codec of its own: what make_pdu
  takes for one layer leaves the others alone, and a packet holds for every layer the codings of
  the units its offset points back to.
 */
module RedLayers {
  import opened Options
  import opened ByteValues
  import opened PlayoutBuffers
  import opened RedHeaders
  import opened RedCoder

  /** The codings by `cid`. */
  function Only(md: Media, cid: CodecId): seq<Coding> {
    if md == [] then [] else (if md[0].id == cid then [md[0]] else []) + Only(md[1..], cid)
  }

  lemma {:induction false} FindOnly(md: Media, cid: CodecId)
    ensures var j := Find(md, cid);
            if j == |md| then Only(md, cid) == [] else Only(md, cid) != [] && Only(md, cid)[0] == md[j]
  {
    if md != [] && md[0].id != cid {
      FindOnly(md[1..], cid);
    }
  }

  lemma {:induction false} OnlyAfter(md: Media, j: nat, cu: Coding, cid: CodecId)
    requires j < |md| && md[j].id != cid && cu.id != cid
    ensures Only(md[j := cu], cid) == Only(md, cid)
    decreases j
  {
    if j > 0 {
      assert md[j := cu][1..] == md[1..][j - 1 := cu];
      OnlyAfter(md[1..], j - 1, cu, cid);
    } else {
      assert md[0 := cu][1..] == md[1..];
    }
  }

  /** The same codings by `cid` in every unit. */
  ghost predicate Alike(buf: Buffer, buf': Buffer, cid: CodecId) {
    |buf| == |buf'| && forall i :: 0 <= i < |buf| ==> Only(buf[i].data, cid) == Only(buf'[i].data, cid)
  }

  /** make_pdu takes nothing of other codecs. */
  lemma {:induction false} PduSpares(buf: Buffer, at: nat, upp: nat, cid: CodecId, first: bool, other: CodecId)
    requires at < |buf| && other != cid && other != 0
    ensures Alike(buf, MakePdu(buf, at, upp, cid, first).0, other)
    decreases upp
  {
    hide Only;
    var md := buf[at].data;
    var j := Find(md, cid);
    if upp > 0 && j < |md| {
      OnlyAfter(md, j, Taken(md[j], first), other);
      var buf1 := buf[at := Node(buf[at].playout, md[j := Taken(md[j], first)])];
      PduSpares(buf1, if at + 1 < |buf| then at + 1 else at, upp - 1, cid, false, other);
    }
  }

  /** How many units from `at` on, of the next `n`, have a coding by `cid`. */
  function Leading(buf: Buffer, at: nat, n: nat, cid: CodecId): (k: nat)
    requires at + n <= |buf|
    ensures k <= n
    ensures forall i :: at <= i < at + k ==> Only(buf[i].data, cid) != []
    ensures k < n ==> Only(buf[at + k].data, cid) == []
    decreases n
  {
    if n == 0 || Only(buf[at].data, cid) == [] then 0 else 1 + Leading(buf, at + 1, n - 1, cid)
  }

  /** Their codings in a row, with the state of the first alone. */
  function InARow(buf: Buffer, at: nat, n: nat, cid: CodecId, first: bool): seq<byte>
    requires at + n <= |buf| && forall i :: at <= i < at + n ==> Only(buf[i].data, cid) != []
    decreases n
  {
    if n == 0 then []
    else Bytes(Only(buf[at].data, cid)[0], first) + InARow(buf, at + 1, n - 1, cid, false)
  }

  lemma {:induction false} LaterAlike(buf: Buffer, buf': Buffer, at: nat, n: nat, cid: CodecId, first: bool)
    requires |buf| == |buf'| && at + n <= |buf|
    requires forall i :: at <= i < at + n ==> Only(buf[i].data, cid) == Only(buf'[i].data, cid)
    ensures Leading(buf, at, n, cid) == Leading(buf', at, n, cid)
    ensures var k := Leading(buf, at, n, cid); InARow(buf, at, k, cid, first) == InARow(buf', at, k, cid, first)
    decreases n
  {
    hide Only;
    if n > 0 {
      LaterAlike(buf, buf', at + 1, n - 1, cid, false);
    }
  }

  /** The buffer after one coding has been taken. */
  function Spend(buf: Buffer, at: nat, cid: CodecId, first: bool): Buffer
    requires at < |buf| && Find(buf[at].data, cid) < |buf[at].data|
  {
    var md := buf[at].data;
    var j := Find(md, cid);
    buf[at := Node(buf[at].playout, md[j := Taken(md[j], first)])]
  }

  lemma PduStep(buf: Buffer, at: nat, upp: nat, cid: CodecId, first: bool)
    requires 1 < upp && at + upp <= |buf| && Only(buf[at].data, cid) != []
    ensures Find(buf[at].data, cid) < |buf[at].data|
    ensures var buf1 := Spend(buf, at, cid, first);
            && |buf1| == |buf| && (forall i :: at < i < |buf| ==> buf1[i] == buf[i])
            && var r, r1 := MakePdu(buf, at, upp, cid, first), MakePdu(buf1, at + 1, upp - 1, cid, false);
               r.2 == r1.2 + 1 && r.1 == Bytes(Only(buf[at].data, cid)[0], first) + r1.1
  {
    hide Only, Taken, Bytes;
    FindOnly(buf[at].data, cid);
  }

  lemma PduLast(buf: Buffer, at: nat, cid: CodecId, first: bool)
    requires at < |buf| && Only(buf[at].data, cid) != []
    ensures var r := MakePdu(buf, at, 1, cid, first);
            r.2 == 1 && r.1 == Bytes(Only(buf[at].data, cid)[0], first) + []
  {
    hide Only, Taken, Bytes;
    FindOnly(buf[at].data, cid);
  }

  lemma RowStep(buf: Buffer, at: nat, upp: nat, cid: CodecId, first: bool)
    requires 0 < upp && at + upp <= |buf| && Only(buf[at].data, cid) != []
    ensures Leading(buf, at, upp, cid) == 1 + Leading(buf, at + 1, upp - 1, cid)
    ensures InARow(buf, at, Leading(buf, at, upp, cid), cid, first) ==
            Bytes(Only(buf[at].data, cid)[0], first)
            + InARow(buf, at + 1, Leading(buf, at + 1, upp - 1, cid), cid, false)
  {
    hide Only, Bytes;
  }

  /** What make_pdu finds, without regard to what it leaves. */
  lemma {:induction false} PduIs(buf: Buffer, at: nat, upp: nat, cid: CodecId, first: bool)
    requires at + upp <= |buf| && at < |buf|
    ensures var k := Leading(buf, at, upp, cid); var r := MakePdu(buf, at, upp, cid, first);
            r.2 == k && r.1 == InARow(buf, at, k, cid, first)
    decreases upp
  {
    if upp == 0 || Only(buf[at].data, cid) == [] {
      PduEnds(buf, at, upp, cid, first);
    } else {
      hide Only, MakePdu, Bytes, Spend, Leading, InARow;
      RowStep(buf, at, upp, cid, first);
      if upp > 1 {
        PduStep(buf, at, upp, cid, first);
        var buf1 := Spend(buf, at, cid, first);
        PduIs(buf1, at + 1, upp - 1, cid, false);
        LaterAlike(buf, buf1, at + 1, upp - 1, cid, false);
      } else {
        PduLast(buf, at, cid, first);
        NoneInARow(buf, at + 1, cid);
      }
    }
  }

  lemma NoneInARow(buf: Buffer, at: nat, cid: CodecId)
    requires at <= |buf|
    ensures Leading(buf, at, 0, cid) == 0 && InARow(buf, at, 0, cid, false) == []
  {}

  lemma PduEnds(buf: Buffer, at: nat, upp: nat, cid: CodecId, first: bool)
    requires at < |buf| && (upp == 0 || Only(buf[at].data, cid) == [])
    ensures MakePdu(buf, at, upp, cid, first) == (buf, [], 0)
  {
    FindOnly(buf[at].data, cid);
  }

  // ----------------------------------------------------------------------- all layers

  /** The layers are by codecs that exist, and no two by the same. */
  ghost predicate Apart(layers: seq<Layer>) {
    && (forall i :: 0 <= i < |layers| ==> layers[i].cid != 0)
    && (forall i, j :: 0 <= i < j < |layers| ==> layers[i].cid != layers[j].cid)
  }

  /** The greatest offset, in units, of the first `n` layers. */
  function Farthest(layers: seq<Layer>, upp: nat, n: nat): (f: nat)
    requires n <= |layers|
    ensures forall i :: 0 <= i < n ==> layers[i].pktsOff * upp <= f
    ensures f == 0 || exists i :: 0 <= i < n && f == layers[i].pktsOff * upp
  {
    if n == 0 then 0
    else
      var f, last := Farthest(layers, upp, n - 1), layers[n - 1].pktsOff * upp;
      if f < last then last else f
  }

  /** Where the iterator stands after `n` layers: it never moves forward again. */
  function Stand(e: Enc, upp: nat, n: nat): (at: nat)
    requires upp <= |e.buffer| && n <= |e.layers|
    ensures at + upp <= |e.buffer|
  {
    var start := |e.buffer| - upp;
    start - Min(start, Farthest(e.layers, upp, n))
  }

  /** What layer `i` finds in the buffer as it was. */
  function Length(e: Enc, upp: nat, i: nat): (k: nat)
    requires upp <= |e.buffer| && i < |e.layers|
    ensures k <= upp
  {
    Leading(e.buffer, Stand(e, upp, i + 1), upp, e.layers[i].cid)
  }

  function LayerBlock(e: Enc, upp: nat, i: nat): seq<byte>
    requires upp <= |e.buffer| && i < |e.layers|
  {
    InARow(e.buffer, Stand(e, upp, i + 1), Length(e, upp, i), e.layers[i].cid, true)
  }

  /** The layer is not yet due, or finds nothing. */
  predicate Stops(e: Enc, upp: nat, i: nat)
    requires upp <= |e.buffer| && i < |e.layers|
  {
    e.ready <= e.layers[i].pktsOff * upp || Length(e, upp, i) == 0
  }

  /** How many layers from `i` on have a block in the packet: all up to the first that stops. */
  function Filled(e: Enc, upp: nat, i: nat): (n: nat)
    requires upp <= |e.buffer| && i <= |e.layers|
    ensures i + n <= |e.layers|
    decreases |e.layers| - i
  {
    if i == |e.layers| || Stops(e, upp, i) then 0 else 1 + Filled(e, upp, i + 1)
  }

  lemma {:induction false} FilledMeans(e: Enc, upp: nat, i: nat)
    requires upp <= |e.buffer| && i <= |e.layers|
    ensures var n := Filled(e, upp, i);
            && (forall k :: i <= k < i + n ==> !Stops(e, upp, k))
            && (i + n < |e.layers| ==> Stops(e, upp, i + n))
    decreases |e.layers| - i
  {
    hide Stops;
    if i < |e.layers| && !Stops(e, upp, i) {
      FilledMeans(e, upp, i + 1);
    }
  }

  /** `buf` still has what the layers from `i` on are to find. */
  ghost predicate StillThere(e: Enc, buf: Buffer, i: nat) {
    |buf| == |e.buffer| && forall k :: i <= k < |e.layers| ==> Alike(e.buffer, buf, e.layers[k].cid)
  }

  lemma AlikeTwice(a: Buffer, b: Buffer, c: Buffer, cid: CodecId)
    requires Alike(a, b, cid) && Alike(b, c, cid)
    ensures Alike(a, c, cid)
  {
    hide Only;
  }

  lemma LayerTakes(e: Enc, upp: nat, buf: Buffer, i: nat)
    requires 0 < upp <= |e.buffer| && i < |e.layers| && Apart(e.layers) && StillThere(e, buf, i)
    ensures var r := MakePdu(buf, Stand(e, upp, i + 1), upp, e.layers[i].cid, true);
            r.2 == Length(e, upp, i) && r.1 == LayerBlock(e, upp, i) && StillThere(e, r.0, i + 1)
  {
    hide MakePdu, Alike, Leading, InARow, Stand;
    var at, cid := Stand(e, upp, i + 1), e.layers[i].cid;
    PduIs(buf, at, upp, cid, true);
    assert Alike(e.buffer, buf, cid);
    AlikeLater(e.buffer, buf, at, upp, cid);
    var buf1 := MakePdu(buf, at, upp, cid, true).0;
    forall k | i + 1 <= k < |e.layers|
      ensures Alike(e.buffer, buf1, e.layers[k].cid)
    {
      PduSpares(buf, at, upp, cid, true, e.layers[k].cid);
      AlikeTwice(e.buffer, buf, buf1, e.layers[k].cid);
    }
  }

  lemma AlikeLater(buf: Buffer, buf': Buffer, at: nat, n: nat, cid: CodecId)
    requires at + n <= |buf| && Alike(buf, buf', cid)
    ensures Leading(buf, at, n, cid) == Leading(buf', at, n, cid)
    ensures var k := Leading(buf, at, n, cid); InARow(buf, at, k, cid, true) == InARow(buf', at, k, cid, true)
  {
    hide Only;
    LaterAlike(buf, buf', at, n, cid, true);
  }

  /** The iterator goes back to the next layer, or stays where it is. */
  lemma NextStand(e: Enc, upp: nat, i: nat)
    requires upp <= |e.buffer| && i < |e.layers|
    ensures var at := Stand(e, upp, i); var offset := |e.buffer| - upp - at;
            Stand(e, upp, i + 1) == at - Back(at, offset, e.layers[i].pktsOff * upp)
  {}

  /** Stage 1, from layer `i` on. */
  lemma {:induction false} GatherFrom(e: Enc, upp: nat, buf: Buffer, i: nat)
    requires 0 < upp <= |e.buffer| && i <= |e.layers| && Apart(e.layers) && StillThere(e, buf, i)
    ensures var at := Stand(e, upp, i);
            var (_, at', coded) := Gather(e, upp, buf, at, |e.buffer| - upp - at, i);
            && |coded| == Filled(e, upp, i)
            && (forall k :: 0 <= k < |coded| ==> coded[k] == LayerBlock(e, upp, i + k))
            && at' == Stand(e, upp, Visited(e, upp, i + |coded|))
    decreases |e.layers| - i
  {
    hide MakePdu, Alike, Length, LayerBlock, Stand, Back, Min, Apart;
    var at := Stand(e, upp, i);
    if i < |e.layers| && e.ready > e.layers[i].pktsOff * upp {
      NextStand(e, upp, i);
      LayerTakes(e, upp, buf, i);
      var at1 := Stand(e, upp, i + 1);
      var (buf1, data, used) := MakePdu(buf, at1, upp, e.layers[i].cid, true);
      if used > 0 {
        GatherFrom(e, upp, buf1, i + 1);
        var (_, _, more) := Gather(e, upp, buf1, at1, |e.buffer| - upp - at1, i + 1);
        forall k | 0 <= k < |more| + 1
          ensures ([data] + more)[k] == LayerBlock(e, upp, i + k)
        {
          assert k > 0 ==> more[k - 1] == LayerBlock(e, upp, i + 1 + (k - 1));
        }
      }
    }
  }

  /** Layers the iterator has been to when it stops at layer `n`. */
  function Visited(e: Enc, upp: nat, n: nat): nat
    requires n <= |e.layers|
  {
    if n == |e.layers| || e.ready <= e.layers[n].pktsOff * upp then n else n + 1
  }

  // ------------------------------------------------------------------------- the packet

  /** The headers in front of the primary one, and their data: from the primary header backwards
      the layers in order, all marked with the last one's codec and offset, and in front of them
      an empty block when layers are missing. */
  lemma BlocksAre(cs: Codecs, layers: seq<Layer>, upp: nat, coded: seq<seq<byte>>)
    requires layers != [] && 0 < |coded| <= |layers|
    ensures var blocks, last := RedundantBlocks(cs, layers, upp, coded), layers[|layers| - 1];
            && |blocks| == (if |coded| == |layers| then |coded| - 1 else |coded|)
            && (forall b <- blocks :: b.pt == cs.payload(last.cid)
                                      && b.off == cs.samplesPerFrame(last.cid) * (last.pktsOff * upp))
            && (forall k :: 0 < k < |coded| ==> blocks[|blocks| - k].data == coded[k])
            && (|coded| < |layers| ==> blocks[0].data == [])
  {}

  lemma PacketOf(cs: Codecs, e: Enc, upp: nat)
    requires Output(cs, e, upp).Some? && Apart(e.layers)
    ensures upp > 0 && upp <= |e.buffer| && e.layers != [] && 0 < Filled(e, upp, 0) <= |e.layers|
    ensures var coded := seq(Filled(e, upp, 0), k requires 0 <= k < Filled(e, upp, 0) => LayerBlock(e, upp, k));
            var blocks := RedundantBlocks(cs, e.layers, upp, coded);
            var ppt := cs.payload(e.layers[0].cid);
            && 0 <= ppt < 128 && (forall b <- blocks :: ValidBlock(b))
            && Output(cs, e, upp).value.1 == Layout(Packet(blocks, ppt, LayerBlock(e, upp, 0)))
  {
    hide Gather, Layout, RedundantBlocks, ValidBlock, Trim, LayerBlock, Filled, Apart, Visited, Length;
    var start := |e.buffer| - upp;
    assert StillThere(e, e.buffer, 0);
    GatherFrom(e, upp, e.buffer, 0);
    var coded := Gather(e, upp, e.buffer, start, 0, 0).2;
    assert coded == seq(Filled(e, upp, 0), k requires 0 <= k < Filled(e, upp, 0) => LayerBlock(e, upp, k));
  }

  /** What a receiver finds in a packet of two layers or more: of every layer up to the first that
      stops, the codings of its units, the primary layer's behind its own header and the others'
      from there backwards. */
  lemma PacketHolds(cs: Codecs, e: Enc, upp: nat)
    requires Output(cs, e, upp).Some? && Apart(e.layers) && |e.layers| >= 2
    requires upp <= |e.buffer| && LayerBlock(e, upp, 0) != []
    ensures var n, p, last := Filled(e, upp, 0), Parse(Output(cs, e, upp).value.1), e.layers[|e.layers| - 1];
            match p
            case None => false
            case Some(p) =>
              && p.ppt == cs.payload(e.layers[0].cid) && p.primary == LayerBlock(e, upp, 0)
              && 0 < n <= |e.layers| && |p.blocks| == (if n == |e.layers| then n - 1 else n)
              && (forall b <- p.blocks :: b.pt == cs.payload(last.cid)
                                          && b.off == cs.samplesPerFrame(last.cid) * (last.pktsOff * upp))
              && (forall k :: 0 < k < n ==> p.blocks[|p.blocks| - k].data == LayerBlock(e, upp, k))
              && (n < |e.layers| ==> p.blocks[0].data == [])
  {
    hide Output, Layout, Parse, RedundantBlocks, ValidBlock, LayerBlock, Filled, Apart;
    PacketOf(cs, e, upp);
    var coded := seq(Filled(e, upp, 0), k requires 0 <= k < Filled(e, upp, 0) => LayerBlock(e, upp, k));
    BlocksAre(cs, e.layers, upp, coded);
    var blocks := RedundantBlocks(cs, e.layers, upp, coded);
    forall k | 0 < k < |coded|
      ensures blocks[|blocks| - k].data == LayerBlock(e, upp, k)
    {
      assert blocks[|blocks| - k].data == coded[k];
    }
    ParseOfLayout(Packet(blocks, cs.payload(e.layers[0].cid), LayerBlock(e, upp, 0)));
  }
}
