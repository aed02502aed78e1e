/**
  Several talkspurts, one after the other.

  A unit without data ends a talkspurt: what is buffered then is never sent, and the encoder
  begins the next one as if it had just been built.
 */
module RedSpurts {
  import opened Arithmetic
  import opened Options
  import opened ByteValues
  import opened PlayoutBuffers
  import opened RedHeaders
  import opened RedCoder
  import opened RedTheorem
  import opened RedLoss

  type Sent = seq<Node<seq<byte>>>

  lemma {:induction false} EncodeAppend(cs: Codecs, e: Enc, upp: nat, a: seq<Node<Media>>, b: seq<Node<Media>>)
    requires upp > 0
    ensures EncodeAll(cs, e, upp, a + b) ==
              match EncodeAll(cs, e, upp, a)
              case None => None
              case Some((e1, sent)) =>
                match EncodeAll(cs, e1, upp, b)
                case None => None
                case Some((e2, more)) => Some((e2, sent + more))
    decreases |a|
  {
    hide Accept;
    if a == [] {
      assert a + b == b;
      var r := EncodeAll(cs, e, upp, b);
      assert r.Some? ==> [] + r.value.1 == r.value.1;
    } else {
      assert (a + b)[0] == a[0] && (a + b)[1..] == a[1..] + b;
      var step := Accept(cs, e, upp, a[0]);
      if step.Some? {
        var (e1, p) := step.value;
        EncodeAppend(cs, e1, upp, a[1..], b);
        var first := if p == None then [] else [p.value];
        forall x: Sent, y: Sent
          ensures first + (x + y) == first + x + y
        {}
      }
    }
  }

  /** The encoder never changes its layers or its history. */
  lemma {:induction false} SettingsStay(cs: Codecs, e: Enc, upp: nat, units: seq<Node<Media>>)
    requires upp > 0
    ensures match EncodeAll(cs, e, upp, units)
            case None => true
            case Some((e', _)) => e'.layers == e.layers && e'.history == e.history
    decreases |units|
  {
    if units != [] {
      AcceptStays(cs, e, upp, units[0]);
      hide Accept;
      var step := Accept(cs, e, upp, units[0]);
      if step.Some? {
        SettingsStay(cs, step.value.0, upp, units[1..]);
      }
    }
  }

  lemma AcceptStays(cs: Codecs, e: Enc, upp: nat, n: Node<Media>)
    requires upp > 0
    ensures match Accept(cs, e, upp, n)
            case None => true
            case Some((e', _)) => e'.layers == e.layers && e'.history == e.history
  {
    hide Gather, Trim, RedundantBlocks, Layout;
  }

  ghost predicate Silent(units: seq<Node<Media>>) {
    forall i :: 0 <= i < |units| ==> units[i].data == []
  }

  /** The packets that an encoder just built sends for a list of units. */
  function Packets(cs: Codecs, layers: seq<Layer>, history: nat, upp: nat, units: seq<Node<Media>>): Option<Sent>
    requires upp > 0
  {
    match EncodeAll(cs, Enc(layers, history, [], 0), upp, units)
    case None => None
    case Some((_, sent)) => Some(sent)
  }

  lemma {:induction false} PauseRestarts(cs: Codecs, e: Enc, upp: nat, pause: seq<Node<Media>>)
    requires upp > 0 && pause != [] && Silent(pause)
    ensures EncodeAll(cs, e, upp, pause) == Some((Enc(e.layers, e.history, [], 0), []))
    decreases |pause|
  {
    hide Output;
    var e1 := Enc(e.layers, e.history, [], 0);
    assert Accept(cs, e, upp, pause[0]) == Some((e1, None));
    if |pause| > 1 {
      PauseRestarts(cs, e1, upp, pause[1..]);
    } else {
      EncodeOne(cs, e, upp, pause[0]);
      assert pause == [pause[0]];
    }
  }

  /** A pause separates: what is sent is what is sent for the units before it and, by an encoder
      just built, for those after it.  No packet holds units from both sides. */
  lemma PauseSeparates(cs: Codecs, layers: seq<Layer>, history: nat, upp: nat, a: seq<Node<Media>>,
                       pause: seq<Node<Media>>, b: seq<Node<Media>>)
    requires upp > 0 && pause != [] && Silent(pause)
    ensures Packets(cs, layers, history, upp, a + pause + b) ==
              match Packets(cs, layers, history, upp, a)
              case None => None
              case Some(first) =>
                match Packets(cs, layers, history, upp, b)
                case None => None
                case Some(second) => Some(first + second)
  {
    hide EncodeAll, Silent;
    var e := Enc(layers, history, [], 0);
    EncodeAppend(cs, e, upp, a + pause, b);
    EncodeAppend(cs, e, upp, a, pause);
    SettingsStay(cs, e, upp, a);
    var first := EncodeAll(cs, e, upp, a);
    if first.Some? {
      PauseRestarts(cs, first.value.0, upp, pause);
      assert first.value.1 + [] == first.value.1;
    }
  }

  // ---------------------------------------------------------------- a talkspurt of them

  /** `n` packets' worth of a spurt and `i` more units, and the pause after them. */
  datatype Talk = Talk(sp: Spurt, n: nat, i: nat, pause: seq<Node<Media>>)

  function FirstUnits(sp: Spurt, n: nat): seq<Node<Media>> {
    seq(n, k requires 0 <= k < n => Node(UnitTime(sp, k), sp.unit(k)))
  }

  function TalkUnits(t: Talk): seq<Node<Media>> {
    FirstUnits(t.sp, t.n * t.sp.upp + t.i)
  }

  lemma {:induction false} EncodeIsAll(sp: Spurt, n: nat)
    requires sp.upp > 0
    ensures EncodeAll(sp.cs, Start(sp), sp.upp, FirstUnits(sp, n)) == Encode(sp, n)
  {
    hide Accept, Start;
    if n > 0 {
      EncodeIsAll(sp, n - 1);
      var last := Node(UnitTime(sp, n - 1), sp.unit(n - 1));
      assert FirstUnits(sp, n) == FirstUnits(sp, n - 1) + [last];
      EncodeAppend(sp.cs, Start(sp), sp.upp, FirstUnits(sp, n - 1), [last]);
      var before := EncodeAll(sp.cs, Start(sp), sp.upp, FirstUnits(sp, n - 1));
      if before.Some? {
        EncodeOne(sp.cs, before.value.0, sp.upp, last);
        assert before.value.1 + [] == before.value.1;
      }
    }
  }

  lemma EncodeOne(cs: Codecs, e: Enc, upp: nat, n: Node<Media>)
    requires upp > 0
    ensures EncodeAll(cs, e, upp, [n]) ==
              match Accept(cs, e, upp, n)
              case None => None
              case Some((e1, None)) => Some((e1, []))
              case Some((e1, Some(p))) => Some((e1, [p]))
  {
    hide Accept;
    assert [n][1..] == [];
    NothingMore([]);
    var step := Accept(cs, e, upp, n);
    if step.Some? && step.value.1.Some? {
      NothingMore([step.value.1.value]);
    }
  }

  lemma NothingMore(sent: Sent)
    ensures sent + [] == sent
  {}

  ghost predicate SameSettings(a: Spurt, b: Spurt) {
    a.cs == b.cs && a.d == b.d && a.upp == b.upp && a.m == b.m && a.h == b.h && a.c0 == b.c0 && a.c1 == b.c1
  }

  ghost predicate GoodTalk(t: Talk) {
    Good(t.sp) && (Safe(t.sp) || Once(t.sp)) && t.i < t.sp.upp && t.pause != [] && Silent(t.pause)
  }

  /** The talks are all coded alike and follow each other in time. */
  ghost predicate GoodTalks(talks: seq<Talk>) {
    && (forall q :: 0 <= q < |talks| ==> GoodTalk(talks[q]) && SameSettings(talks[q].sp, talks[0].sp))
    && (forall q :: 0 <= q < |talks| - 1 ==>
          UnitTime(talks[q].sp, talks[q].n * talks[q].sp.upp) <= talks[q + 1].sp.t0)
  }

  function Stream(talks: seq<Talk>): seq<Node<Media>> {
    if talks == [] then [] else TalkUnits(talks[0]) + talks[0].pause + Stream(talks[1..])
  }

  function TalkSent(t: Talk): Sent
    requires t.sp.upp > 0
  {
    match Encode(t.sp, t.n * t.sp.upp + t.i)
    case None => []
    case Some((_, sent)) => sent
  }

  function AllSent(talks: seq<Talk>): Sent
    requires forall q :: 0 <= q < |talks| ==> talks[q].sp.upp > 0
  {
    if talks == [] then [] else TalkSent(talks[0]) + AllSent(talks[1..])
  }

  lemma TalkRuns(t: Talk)
    requires GoodTalk(t)
    ensures t.sp.upp > 0 && Encode(t.sp, t.n * t.sp.upp + t.i).Some?
    ensures |TalkSent(t)| == t.n && SentSoFar(t.sp, TalkSent(t), t.n)
  {
    hide Good, Safe, Once, Between, Encode, PacketOf, Layout, PacketTime;
    GoodBasics(t.sp);
    EncodeRun(t.sp, t.n, t.i);
  }

  lemma TalkPackets(t: Talk, layers: seq<Layer>, history: nat)
    requires GoodTalk(t) && Start(t.sp) == Enc(layers, history, [], 0)
    ensures t.sp.upp > 0 && Packets(t.sp.cs, layers, history, t.sp.upp, TalkUnits(t)) == Some(TalkSent(t))
  {
    hide Good, Safe, Once, EncodeAll, Encode, Start;
    TalkRuns(t);
    EncodeIsAll(t.sp, t.n * t.sp.upp + t.i);
  }

  lemma GoodRest(talks: seq<Talk>)
    requires GoodTalks(talks) && talks != []
    ensures GoodTalk(talks[0]) && GoodTalks(talks[1..])
    ensures forall q :: 0 <= q < |talks[1..]| ==> talks[1..][q] == talks[q + 1]
    ensures |talks| > 1 ==> SameSettings(talks[1].sp, talks[0].sp)
    ensures |talks| > 1 ==> UnitTime(talks[0].sp, talks[0].n * talks[0].sp.upp) <= talks[1].sp.t0
  {
    hide GoodTalk, UnitTime;
    forall q | 0 <= q < |talks[1..]|
      ensures GoodTalk(talks[1..][q]) && SameSettings(talks[1..][q].sp, talks[1..][0].sp)
    {
      assert talks[1..][q] == talks[q + 1] && talks[1..][0] == talks[1];
    }
  }

  lemma TalkBasics(t: Talk)
    requires GoodTalk(t)
    ensures t.sp.upp > 0 && t.sp.d > 0
  {
    GoodBasics(t.sp);
  }

  /** The packets of a stream are those of its talkspurts, each encoded on its own. */
  lemma {:induction false} StreamSent(talks: seq<Talk>, sp: Spurt)
    requires GoodTalks(talks) && sp.upp > 0 && forall q :: 0 <= q < |talks| ==> SameSettings(talks[q].sp, sp)
    ensures forall q :: 0 <= q < |talks| ==> talks[q].sp.upp > 0
    ensures Packets(sp.cs, Start(sp).layers, Start(sp).history, sp.upp, Stream(talks)) == Some(AllSent(talks))
    decreases |talks|
  {
    hide GoodTalk, TalkUnits, Packets, TalkSent;
    if talks == [] {
      NothingSent(sp);
    } else {
      GoodRest(talks);
      StreamSent(talks[1..], sp);
      var t := talks[0];
      TalkPause(t);
      TalkBasics(t);
      SameStart(t.sp, sp);
      TalkPackets(t, Start(sp).layers, Start(sp).history);
      PauseSeparates(sp.cs, Start(sp).layers, Start(sp).history, sp.upp, TalkUnits(t), t.pause, Stream(talks[1..]));
    }
  }

  lemma TalkPause(t: Talk)
    requires GoodTalk(t)
    ensures t.pause != [] && Silent(t.pause)
  {}

  lemma NothingSent(sp: Spurt)
    requires sp.upp > 0
    ensures Packets(sp.cs, Start(sp).layers, Start(sp).history, sp.upp, []) == Some([])
  {}

  lemma SameStart(a: Spurt, b: Spurt)
    requires SameSettings(a, b)
    ensures Start(a) == Start(b) && Start(a) == Enc(Start(b).layers, Start(b).history, [], 0)
    ensures forall delay :: Shift(a, delay) == Shift(b, delay)
  {}

  // ------------------------------------------------------------- decoding all of them

  /** The loss pattern from packet `n` on. */
  function From(arrived: nat -> bool, n: nat): nat -> bool {
    (j: nat) => arrived(n + j)
  }

  lemma {:induction false} DecodeBoth(cs: Codecs, a: Sent, b: Sent, delay: int, arrived: nat -> bool, base: MediaBuffer,
                                      j: nat)
    requires j <= |b|
    ensures DecodeArrived(cs, a + b, delay, arrived, base, |a| + j) ==
              match DecodeArrived(cs, a, delay, arrived, base, |a|)
              case None => None
              case Some(out) => DecodeArrived(cs, b, delay, From(arrived, |a|), out, j)
    decreases j
  {
    hide DecodePacket;
    if j == 0 {
      DecodePrefix(cs, a, b, delay, arrived, base, |a|);
    } else {
      DecodeBoth(cs, a, b, delay, arrived, base, j - 1);
      assert (a + b)[|a| + j - 1] == b[j - 1];
    }
  }

  lemma {:induction false} DecodePrefix(cs: Codecs, a: Sent, b: Sent, delay: int, arrived: nat -> bool,
                                        base: MediaBuffer, j: nat)
    requires j <= |a|
    ensures DecodeArrived(cs, a + b, delay, arrived, base, j) == DecodeArrived(cs, a, delay, arrived, base, j)
    decreases j
  {
    hide DecodePacket;
    if j > 0 {
      DecodePrefix(cs, a, b, delay, arrived, base, j - 1);
      assert (a + b)[j - 1] == a[j - 1];
    }
  }

  /** Nothing is there from time `t` on. */
  ghost predicate EmptyFrom(out: MediaBuffer, t: int) {
    forall u :: u >= t ==> Get(out, u) == []
  }

  /** When unit `k` of a talkspurt is heard. */
  function HeardAt(t: Talk, delay: int, k: int): int {
    UnitTime(t.sp, k) + Shift(t.sp, delay)
  }

  ghost predicate TalkHeard(t: Talk, delay: int, arrived: nat -> bool, out: MediaBuffer) {
    t.sp.upp > 0 &&
    forall k: nat :: k < t.n * t.sp.upp ==> Get(out, HeardAt(t, delay, k)) == Heard(t.sp, arrived, t.n, k)
  }

  /** Every unit sent of every talkspurt holds what arrived of it. */
  ghost predicate TalksHeard(talks: seq<Talk>, delay: int, arrived: nat -> bool, out: MediaBuffer) {
    talks != [] ==>
      TalkHeard(talks[0], delay, arrived, out) && TalksHeard(talks[1..], delay, From(arrived, talks[0].n), out)
  }

  ghost predicate TalkTime(t: Talk, delay: int, u: int) {
    exists k: nat :: k < t.n * t.sp.upp && u == HeardAt(t, delay, k)
  }

  ghost predicate TalksTime(talks: seq<Talk>, delay: int, u: int) {
    talks != [] && (TalkTime(talks[0], delay, u) || TalksTime(talks[1..], delay, u))
  }

  /** The buffer after a talkspurt: its units, and before it what was there. */
  ghost predicate TalkAdded(t: Talk, delay: int, arrived: nat -> bool, base: MediaBuffer, out: MediaBuffer) {
    && TalkHeard(t, delay, arrived, out)
    && (forall u :: u < HeardAt(t, delay, 0) ==> Get(out, u) == Get(base, u))
    && (forall u :: u >= HeardAt(t, delay, 0) && !TalkTime(t, delay, u) ==> Get(out, u) == [])
  }

  lemma TimeGrows(t: Talk, delay: int, j: int, k: int)
    requires t.sp.d > 0
    ensures j < k <==> HeardAt(t, delay, j) < HeardAt(t, delay, k)
  {
    MulMonotone(if j < k then j else k, if j < k then k else j, t.sp.d);
    if j < k {
      MulMonotone(1, k - j, t.sp.d);
    }
  }

  lemma SlotAt(t: Talk, delay: int, k: int)
    ensures Slot(t.sp, delay, k) == HeardAt(t, delay, k)
  {
    SlotIsShifted(t.sp, delay, k);
  }

  lemma ClearAfter(t: Talk, delay: int, base: MediaBuffer)
    requires t.sp.d > 0 && EmptyFrom(base, HeardAt(t, delay, 0))
    ensures Clear(t.sp, delay, base)
  {
    hide Slot, HeardAt;
    forall k: nat
      ensures Get(base, Slot(t.sp, delay, k)) == []
    {
      SlotAt(t, delay, k);
      TimeGrows(t, delay, k, 0);
    }
  }

  lemma NoneHeardAfter(t: Talk, arrived: nat -> bool, k: nat)
    requires t.sp.upp > 0 && k >= t.n * t.sp.upp
    ensures Heard(t.sp, arrived, t.n, k) == []
  {
    hide Received, Carries, Source;
    var own := k / t.sp.upp;
    if own < t.n {
      MulMonotone(own + 1, t.n, t.sp.upp);
      UnitOfBlock(own, k, t.sp.upp);
    }
  }

  lemma PlaceAdds(t: Talk, delay: int, arrived: nat -> bool, base: MediaBuffer, out: MediaBuffer)
    requires t.sp.upp > 0 && t.sp.d > 0 && EmptyFrom(base, HeardAt(t, delay, 0))
    requires InPlace(t.sp, delay, arrived, base, t.n, out)
    ensures TalkAdded(t, delay, arrived, base, out)
  {
    hide Heard, HeardAt, Slot, Get;
    forall k: nat
      ensures Slot(t.sp, delay, k) == HeardAt(t, delay, k) && HeardAt(t, delay, k) >= HeardAt(t, delay, 0)
    {
      SlotAt(t, delay, k);
      TimeGrows(t, delay, k, 0);
    }
    forall u | u >= HeardAt(t, delay, 0) && !TalkTime(t, delay, u)
      ensures Get(out, u) == []
    {
      if IsSlot(t.sp, delay, u) {
        var k: nat :| u == Slot(t.sp, delay, k);
        NoneHeardAfter(t, arrived, k);
      }
    }
  }

  lemma TalkDecoded(t: Talk, delay: int, arrived: nat -> bool, base: MediaBuffer)
    requires GoodTalk(t) && EmptyFrom(base, HeardAt(t, delay, 0))
    ensures t.sp.upp > 0 && |TalkSent(t)| == t.n
    ensures match DecodeArrived(t.sp.cs, TalkSent(t), delay, arrived, base, t.n)
            case None => false
            case Some(out) => TalkAdded(t, delay, arrived, base, out)
  {
    hide DecodeArrived, TalkAdded, TalkSent, EmptyFrom, SentSoFar, Clear, InPlace;
    TalkRuns(t);
    TalkBasics(t);
    ClearAfter(t, delay, base);
    ArrivedDecoded(t.sp, delay, arrived, base, TalkSent(t), t.n);
    PlaceAdds(t, delay, arrived, base, DecodeArrived(t.sp.cs, TalkSent(t), delay, arrived, base, t.n).value);
  }

  /** All talkspurts in turn: what was there before the first stays. */
  ghost predicate TalksAdded(talks: seq<Talk>, delay: int, arrived: nat -> bool, base: MediaBuffer, out: MediaBuffer) {
    && TalksHeard(talks, delay, arrived, out)
    && (talks != [] ==>
          && (forall u :: u < HeardAt(talks[0], delay, 0) ==> Get(out, u) == Get(base, u))
          && (forall u :: u >= HeardAt(talks[0], delay, 0) && !TalksTime(talks, delay, u) ==> Get(out, u) == []))
    && (talks == [] ==> out == base)
  }

  /** What lies between two talkspurts. */
  lemma NextIsLater(a: Talk, b: Talk, delay: int)
    requires a.sp.d > 0 && SameSettings(b.sp, a.sp) && UnitTime(a.sp, a.n * a.sp.upp) <= b.sp.t0
    ensures HeardAt(a, delay, a.n * a.sp.upp) <= HeardAt(b, delay, 0)
    ensures HeardAt(a, delay, 0) <= HeardAt(b, delay, 0)
    ensures forall u :: TalkTime(a, delay, u) ==> u < HeardAt(b, delay, 0)
  {
    SameStart(b.sp, a.sp);
    MulNonNegative(a.n, a.sp.upp);
    assert UnitTime(b.sp, 0) == b.sp.t0;
    hide UnitTime;
    TimeGrows(a, delay, a.n * a.sp.upp, 0);
    forall u | TalkTime(a, delay, u)
      ensures u < HeardAt(b, delay, 0)
    {
      var k: nat :| k < a.n * a.sp.upp && u == HeardAt(a, delay, k);
      TimeGrows(a, delay, k, a.n * a.sp.upp);
    }
  }

  lemma EmptyLater(a: Talk, b: Talk, delay: int, arrived: nat -> bool, base: MediaBuffer, out: MediaBuffer)
    requires a.sp.d > 0 && SameSettings(b.sp, a.sp) && UnitTime(a.sp, a.n * a.sp.upp) <= b.sp.t0
    requires TalkAdded(a, delay, arrived, base, out)
    ensures EmptyFrom(out, HeardAt(b, delay, 0))
  {
    hide HeardAt, TalkTime, TalkHeard, UnitTime, Get;
    NextIsLater(a, b, delay);
  }

  lemma StillHeard(a: Talk, b: Talk, delay: int, arrived: nat -> bool, mid: MediaBuffer, out: MediaBuffer)
    requires a.sp.d > 0 && SameSettings(b.sp, a.sp) && UnitTime(a.sp, a.n * a.sp.upp) <= b.sp.t0
    requires TalkHeard(a, delay, arrived, mid)
    requires forall u :: u < HeardAt(b, delay, 0) ==> Get(out, u) == Get(mid, u)
    ensures TalkHeard(a, delay, arrived, out)
  {
    hide HeardAt, UnitTime, Get, Heard;
    NextIsLater(a, b, delay);
    forall k: nat | k < a.n * a.sp.upp
      ensures Get(out, HeardAt(a, delay, k)) == Heard(a.sp, arrived, a.n, k)
    {
      assert TalkTime(a, delay, HeardAt(a, delay, k));
    }
  }

  lemma TalksJoin(talks: seq<Talk>, delay: int, arrived: nat -> bool, base: MediaBuffer, mid: MediaBuffer,
                  out: MediaBuffer)
    requires GoodTalks(talks) && talks != []
    requires TalkAdded(talks[0], delay, arrived, base, mid)
    requires TalksAdded(talks[1..], delay, From(arrived, talks[0].n), mid, out)
    ensures TalksAdded(talks, delay, arrived, base, out)
  {
    hide GoodTalk, HeardAt, UnitTime, Get, TalkHeard, TalkTime;
    GoodRest(talks);
    TalkBasics(talks[0]);
    if |talks| > 1 {
      NextIsLater(talks[0], talks[1], delay);
      StillHeard(talks[0], talks[1], delay, arrived, mid, out);
    }
  }

  /** The decoder's half, over all packets of a stream in order, whatever was lost. */
  lemma {:induction false} TalksDecoded(talks: seq<Talk>, cs: Codecs, delay: int, arrived: nat -> bool,
                                        base: MediaBuffer)
    requires GoodTalks(talks) && forall q :: 0 <= q < |talks| ==> talks[q].sp.cs == cs
    requires talks != [] ==> EmptyFrom(base, HeardAt(talks[0], delay, 0))
    ensures forall q :: 0 <= q < |talks| ==> talks[q].sp.upp > 0
    ensures match DecodeArrived(cs, AllSent(talks), delay, arrived, base, |AllSent(talks)|)
            case None => false
            case Some(out) => TalksAdded(talks, delay, arrived, base, out)
    decreases |talks|
  {
    hide GoodTalk, HeardAt, UnitTime, TalkSent, EmptyFrom, TalkAdded, DecodePacket, SameSettings;
    if talks != [] {
      var t := talks[0];
      GoodRest(talks);
      TalkBasics(t);
      TalkDecoded(t, delay, arrived, base);
      var mid := DecodeArrived(cs, TalkSent(t), delay, arrived, base, t.n).value;
      if |talks| > 1 {
        EmptyLater(t, talks[1], delay, arrived, base, mid);
      }
      TalksDecoded(talks[1..], cs, delay, From(arrived, t.n), mid);
      var rest := AllSent(talks[1..]);
      DecodeBoth(cs, TalkSent(t), rest, delay, arrived, base, |rest|);
      TalksJoin(talks, delay, arrived, base, mid,
                DecodeArrived(cs, rest, delay, From(arrived, t.n), mid, |rest|).value);
    }
  }

  /** The stream of all talkspurts through encoder, network and decoder. */
  function StreamHeard(talks: seq<Talk>, delay: int, arrived: nat -> bool): Option<MediaBuffer>
    requires talks != [] && talks[0].sp.upp > 0
  {
    var sp := talks[0].sp;
    match Packets(sp.cs, Start(sp).layers, Start(sp).history, sp.upp, Stream(talks))
    case None => None
    case Some(sent) => DecodeArrived(sp.cs, sent, delay, arrived, map[], |sent|)
  }

  /** Any number of talkspurts, encoded one after the other by one encoder, any packets lost, the
      others decoded in order into one buffer: every unit of every talkspurt is heard as it would
      be if there were only that talkspurt, and nothing else is heard. */
  lemma TalkspurtsHeard(talks: seq<Talk>, delay: int, arrived: nat -> bool)
    requires talks != [] && GoodTalks(talks)
    ensures talks[0].sp.upp > 0
    ensures match StreamHeard(talks, delay, arrived)
            case None => false
            case Some(out) =>
              TalksHeard(talks, delay, arrived, out) && forall u :: !TalksTime(talks, delay, u) ==> Get(out, u) == []
  {
    hide GoodTalk, HeardAt, UnitTime, TalkSent, Packets, DecodeArrived, TalksHeard, TalksTime, Stream, AllSent;
    GoodRest(talks);
    TalkBasics(talks[0]);
    StreamSent(talks, talks[0].sp);
    NothingThere(HeardAt(talks[0], delay, 0));
    TalksDecoded(talks, talks[0].sp.cs, delay, arrived, map[]);
  }

  lemma NothingThere(t: int)
    ensures EmptyFrom(map[], t) && forall u :: Get(map[], u) == []
  {}

  ghost predicate TalkRecovered(t: Talk, delay: int, arrived: nat -> bool, out: MediaBuffer) {
    t.sp.upp > 0 &&
    forall k: nat :: k < t.n * t.sp.upp ==> Get(out, HeardAt(t, delay, k)) == Expected(t.sp, arrived, t.n, k)
  }

  ghost predicate TalksRecovered(talks: seq<Talk>, delay: int, arrived: nat -> bool, out: MediaBuffer) {
    talks != [] ==>
      TalkRecovered(talks[0], delay, arrived, out) && TalksRecovered(talks[1..], delay, From(arrived, talks[0].n), out)
  }

  lemma SafeTalk(t: Talk, delay: int, arrived: nat -> bool, out: MediaBuffer)
    requires Safe(t.sp) && TalkHeard(t, delay, arrived, out)
    ensures TalkRecovered(t, delay, arrived, out)
  {
    hide Safe, Heard, Expected, HeardAt, Get;
    forall k: nat | k < t.n * t.sp.upp
      ensures Get(out, HeardAt(t, delay, k)) == Expected(t.sp, arrived, t.n, k)
    {
      SafeKeeps(t.sp, k);
      KeptRecovered(t.sp, arrived, t.n, k);
    }
  }

  lemma {:induction false} SafeTalks(talks: seq<Talk>, delay: int, arrived: nat -> bool, out: MediaBuffer)
    requires TalksHeard(talks, delay, arrived, out) && forall q :: 0 <= q < |talks| ==> Safe(talks[q].sp)
    ensures TalksRecovered(talks, delay, arrived, out)
    decreases |talks|
  {
    hide Safe, TalkHeard, TalkRecovered;
    if talks != [] {
      SafeTalk(talks[0], delay, arrived, out);
      SafeTalks(talks[1..], delay, From(arrived, talks[0].n), out);
    }
  }

  /** With the full history kept, every unit of which a copy arrived is heard in every talkspurt. */
  lemma TalkspurtsSurvive(talks: seq<Talk>, delay: int, arrived: nat -> bool)
    requires talks != [] && GoodTalks(talks) && forall q :: 0 <= q < |talks| ==> Safe(talks[q].sp)
    ensures talks[0].sp.upp > 0
    ensures match StreamHeard(talks, delay, arrived)
            case None => false
            case Some(out) => TalksRecovered(talks, delay, arrived, out)
  {
    hide GoodTalk, Safe, TalksHeard, TalksRecovered, StreamHeard;
    TalkspurtsHeard(talks, delay, arrived);
    SafeTalks(talks, delay, arrived, StreamHeard(talks, delay, arrived).value);
  }

  /** Such streams exist at every size that fits the headers: talkspurts of numbered units, the first
      of each at any time not before the one in front has ended. */
  lemma CountingTalksAreGood(d: nat, upp: nat, m: nat, h: nat, one: bool, talks: seq<Talk>)
    requires d > 0 && 0 < upp <= RED_MAX_LEN && d * (m * upp) <= RED_MAX_OFFSET
    requires forall t <- talks :: t.sp == Counting(d, upp, m, h, one, t.sp.t0) && t.i < upp && t.pause != []
                                  && Silent(t.pause)
    requires forall q :: 0 <= q < |talks| - 1 ==>
               UnitTime(talks[q].sp, talks[q].n * talks[q].sp.upp) <= talks[q + 1].sp.t0
    ensures GoodTalks(talks)
  {
    hide Good, Once, Safe, UnitTime, Silent;
    forall q | 0 <= q < |talks|
      ensures GoodTalk(talks[q]) && SameSettings(talks[q].sp, talks[0].sp)
    {
      assert talks[q] in talks && talks[0] in talks;
      CountingIsGood(d, upp, m, h, one, talks[q].sp.t0);
    }
  }
}
