/**
  Codings whose data has gone into a packet.  make_pdu nobbles a coding it has taken, so that a
  unit that held one coding by a codec has none by it any more.
 */
module RedSpent {
  import opened PlayoutBuffers
  import opened RedCoder

  predicate Without(md: Media, cid: CodecId) {
    Find(md, cid) == |md|
  }

  /** At most one coding by `cid`. */
  ghost predicate Single(md: Media, cid: CodecId) {
    forall i, j :: 0 <= i < j < |md| && md[i].id == cid ==> md[j].id != cid
  }

  /** The same codings, some of them nobbled. */
  ghost predicate Worn(md: Media, md': Media) {
    |md'| == |md| && forall i :: 0 <= i < |md| ==> md'[i].id == md[i].id || md'[i].id == 0
  }

  ghost predicate BufferWorn(buf: Buffer, buf': Buffer) {
    |buf'| == |buf| && forall i :: 0 <= i < |buf| ==> Worn(buf[i].data, buf'[i].data)
  }

  /** Of `n` units from `at` on, those that held one coding by `cid` hold none now. */
  ghost predicate Emptied(buf: Buffer, buf': Buffer, at: nat, n: nat, cid: CodecId) {
    |buf'| == |buf| &&
    forall i :: at <= i < at + n && i < |buf| && Single(buf[i].data, cid) ==> Without(buf'[i].data, cid)
  }

  lemma WornKeeps(md: Media, md': Media, cid: CodecId)
    requires Worn(md, md') && cid != 0
    ensures Without(md, cid) ==> Without(md', cid)
    ensures Single(md, cid) ==> Single(md', cid)
  {
    var j := Find(md', cid);
    assert j < |md'| ==> md'[j].id == md[j].id;
  }

  lemma WornTwice(a: Buffer, b: Buffer, c: Buffer)
    requires BufferWorn(a, b) && BufferWorn(b, c)
    ensures BufferWorn(a, c)
  {
    forall i | 0 <= i < |a|
      ensures Worn(a[i].data, c[i].data)
    {
      assert Worn(a[i].data, b[i].data) && Worn(b[i].data, c[i].data);
    }
  }

  lemma TakenSpends(md: Media, cid: CodecId, first: bool)
    requires Find(md, cid) < |md|
    ensures var md' := md[Find(md, cid) := Taken(md[Find(md, cid)], first)];
            Worn(md, md') && (cid != 0 && Single(md, cid) ==> Without(md', cid))
  {
    var j := Find(md, cid);
    var md' := md[j := Taken(md[j], first)];
    var k := Find(md', cid);
    assert forall i :: 0 <= i < |md| && i != j ==> md'[i] == md[i];
  }

  /** make_pdu leaves nothing by its codec where it has been. */
  lemma {:induction false} MakePduWears(buf: Buffer, at: nat, upp: nat, cid: CodecId, first: bool)
    requires at < |buf| && cid != 0
    ensures var r := MakePdu(buf, at, upp, cid, first);
            BufferWorn(buf, r.0) && Emptied(buf, r.0, at, r.2, cid)
    decreases upp
  {
    hide Worn, Single, Without, Taken;
    var md := buf[at].data;
    var j := Find(md, cid);
    if upp == 0 || j == |md| {
      NotWorn(buf, at, cid);
    } else {
      var buf1 := buf[at := Node(buf[at].playout, md[j := Taken(md[j], first)])];
      var next := if at + 1 < |buf| then at + 1 else at;
      OneWorn(buf, at, cid, first);
      MakePduWears(buf1, next, upp - 1, cid, false);
      var r := MakePdu(buf1, next, upp - 1, cid, false);
      WornTwice(buf, buf1, r.0);
      EmptiedMore(buf, buf1, r.0, at, next, r.2, cid);
    }
  }

  lemma NotWorn(buf: Buffer, at: nat, cid: CodecId)
    ensures BufferWorn(buf, buf) && Emptied(buf, buf, at, 0, cid)
  {}

  lemma OneWorn(buf: Buffer, at: nat, cid: CodecId, first: bool)
    requires at < |buf| && cid != 0 && Find(buf[at].data, cid) < |buf[at].data|
    ensures var md, j := buf[at].data, Find(buf[at].data, cid);
            var buf1 := buf[at := Node(buf[at].playout, md[j := Taken(md[j], first)])];
            BufferWorn(buf, buf1) && Emptied(buf, buf1, at, 1, cid)
  {
    TakenSpends(buf[at].data, cid, first);
    hide Single, Without, Taken;
  }

  lemma EmptiedMore(buf: Buffer, buf1: Buffer, buf2: Buffer, at: nat, next: nat, n: nat, cid: CodecId)
    requires cid != 0 && at < |buf|
    requires BufferWorn(buf, buf1) && BufferWorn(buf1, buf2)
    requires Emptied(buf, buf1, at, 1, cid) && Emptied(buf1, buf2, next, n, cid)
    requires next == if at + 1 < |buf| then at + 1 else at
    ensures Emptied(buf, buf2, at, n + 1, cid)
  {
    hide Single, Without, Worn;
    forall i | at <= i < at + n + 1 && i < |buf| && Single(buf[i].data, cid)
      ensures Without(buf2[i].data, cid)
    {
      WornKeeps(buf[i].data, buf1[i].data, cid);
      WornKeeps(buf1[i].data, buf2[i].data, cid);
    }
  }

  /** A unit without the codec stops make_pdu at once. */
  lemma MakePduFindsNone(buf: Buffer, at: nat, upp: nat, cid: CodecId, first: bool)
    requires at < |buf| && Without(buf[at].data, cid)
    ensures MakePdu(buf, at, upp, cid, first) == (buf, [], 0)
  {}

  lemma WornThenEmptied(buf: Buffer, buf1: Buffer, buf2: Buffer, at: nat, n: nat, cid: CodecId)
    requires cid != 0 && BufferWorn(buf, buf1) && Emptied(buf1, buf2, at, n, cid)
    ensures Emptied(buf, buf2, at, n, cid)
  {
    hide Single, Without, Worn;
    forall i | at <= i < at + n && i < |buf| && Single(buf[i].data, cid)
      ensures Without(buf2[i].data, cid)
    {
      WornKeeps(buf[i].data, buf1[i].data, cid);
    }
  }
}
