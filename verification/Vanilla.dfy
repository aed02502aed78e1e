/**
  The plain channel coder of RAT (rat/cc_vanilla.c): it groups coded units into packets and
  splits packets into units again.  Of a media unit only the first coding is ever read.
 */
module Vanilla {
  import opened Arithmetic
  import opened Options
  import opened ByteValues
  import opened PlayoutBuffers
  import opened RedHeaders
  import opened RedCoder

  /** channel_data of one packet: the payload type and the byte strings to be sent. */
  datatype Pdu = Pdu(pt: int, elems: seq<seq<byte>>)

  /** ve_state */
  datatype Pending = Pending(codec: CodecId, playout: int, units: seq<Coding>)

  // --------------------------------------------------------------------- encoder

  function Datas(units: seq<Coding>): seq<seq<byte>> {
    seq(|units|, i requires 0 <= i < |units| => units[i].data)
  }

  /** vanilla_encoder_output: the state of the first unit, then the data of all units. */
  function Grouped(cs: Codecs, codec: CodecId, units: seq<Coding>): Pdu
    requires units != []
  {
    Pdu(cs.payload(codec), (if units[0].state != [] then [units[0].state] else []) + Datas(units))
  }

  /** One turn of the loop of vanilla_encoder_encode: the new state, and the packets sent. */
  function Step(cs: Codecs, upp: nat, s: Pending, n: Node<Media>): (Pending, seq<Node<Pdu>>) {
    if n.data == [] then
      if s.units == [] then (s.(playout := n.playout), [])
      else (s.(units := []), [Node(s.playout, Grouped(cs, s.codec, s.units))])
    else
      var cu := n.data[0];
      var early := s.units != [] && cu.id != s.codec;
      var playout := if s.units == [] then n.playout else s.playout;
      var first := if early then [Node(s.playout, Grouped(cs, s.codec, s.units))] else [];
      var units := if early then [cu] else s.units + [cu];
      if |units| >= upp then (Pending(cu.id, playout, []), first + [Node(playout, Grouped(cs, cu.id, units))])
      else (Pending(cu.id, playout, units), first)
  }

  /** The first `n` units of `ns`, one after the other. */
  function Run(cs: Codecs, upp: nat, s: Pending, ns: seq<Node<Media>>, n: nat): (Pending, seq<Node<Pdu>>)
    requires n <= |ns|
  {
    if n == 0 then (s, [])
    else
      var (s1, sent1) := Run(cs, upp, s, ns, n - 1);
      var (s2, sent2) := Step(cs, upp, s1, ns[n - 1]);
      (s2, sent1 + sent2)
  }

  // ---------------------------------------------------- which units share a packet

  /** Units `from` up to but not including `to` of the input, sent with the playout time of
      unit `noted`. */
  datatype Span = Span(from: nat, to: nat, noted: nat)

  /** The spans sent, where the span that is still open begins, and the unit whose time the
      encoder remembers for it. */
  datatype Cuts = Cuts(spans: seq<Span>, open: nat, noted: nat)

  function First(n: Node<Media>): Coding {
    if n.data == [] then Coding(0, [], []) else n.data[0]
  }

  /** The cuts among the first `n` units. */
  function CutsOf(upp: nat, ns: seq<Node<Media>>, n: nat): (c: Cuts)
    requires n <= |ns|
    ensures c.open <= n
  {
    if n == 0 then Cuts([], 0, 0)
    else CloseFull(upp, ns, n - 1, CloseEarly(ns, n - 1, CutsOf(upp, ns, n - 1)))
  }

  /** Unit `n` has no data, or not the codec of the unit before. */
  predicate Breaks(ns: seq<Node<Media>>, n: nat)
    requires 0 < n < |ns|
  {
    ns[n].data == [] || First(ns[n - 1]).id != First(ns[n]).id
  }

  function CloseEarly(ns: seq<Node<Media>>, n: nat, c: Cuts): (c': Cuts)
    requires n < |ns| && c.open <= n
    ensures c'.open <= n
  {
    if c.open == n then Cuts(c.spans, n, n)
    else if Breaks(ns, n) then Cuts(c.spans + [Span(c.open, n, c.noted)], n, c.noted)
    else c
  }

  function CloseFull(upp: nat, ns: seq<Node<Media>>, n: nat, c: Cuts): (c': Cuts)
    requires n < |ns| && c.open <= n
    ensures c'.open <= n + 1
  {
    if ns[n].data == [] then c.(open := n + 1)
    else if n + 1 - c.open >= upp then Cuts(c.spans + [Span(c.open, n + 1, c.noted)], n + 1, c.noted)
    else c
  }

  ghost predicate SameCodec(ns: seq<Node<Media>>, from: nat, to: nat) {
    from <= to <= |ns| && forall i :: from <= i < to ==> ns[i].data != [] && First(ns[i]).id == First(ns[from]).id
  }

  /** A packet's worth: at most `upp` units, all with data, by one codec; and as many as can
      be: it is full, or the next unit has no data or another codec. */
  ghost predicate IsSpan(upp: nat, ns: seq<Node<Media>>, s: Span) {
    && s.from < s.to <= |ns| && s.to - s.from <= upp
    && SameCodec(ns, s.from, s.to)
    && (s.to - s.from == upp || (s.to < |ns| && Breaks(ns, s.to)))
  }

  ghost predicate Within(s: Span, i: nat) {
    s.from <= i < s.to
  }

  ghost predicate Covered(spans: seq<Span>, i: nat) {
    exists s :: s in spans && Within(s, i)
  }

  /** The spans follow each other and end by `open`; those before `open` that have data are
      all covered. */
  ghost predicate SpansOk(upp: nat, ns: seq<Node<Media>>, c: Cuts) {
    && c.open <= |ns|
    && (forall s <- c.spans :: IsSpan(upp, ns, s) && s.to <= c.open)
    && (forall j, k :: 0 <= j < k < |c.spans| ==> c.spans[j].to <= c.spans[k].from)
    && (forall i :: 0 <= i < c.open && ns[i].data != [] ==> Covered(c.spans, i))
  }

  /** Of the first `n` units, the spans cover, in order and once, exactly those with data that
      are not pending. */
  ghost predicate Conserves(upp: nat, ns: seq<Node<Media>>, n: nat, c: Cuts) {
    c.open <= n && n - c.open < upp && SameCodec(ns, c.open, n) && SpansOk(upp, ns, c)
  }

  lemma OneMoreSpan(upp: nat, ns: seq<Node<Media>>, c: Cuts, to: nat, noted: nat)
    requires SpansOk(upp, ns, c) && IsSpan(upp, ns, Span(c.open, to, c.noted))
    ensures SpansOk(upp, ns, Cuts(c.spans + [Span(c.open, to, c.noted)], to, noted))
  {
    var s := Span(c.open, to, c.noted);
    forall i | 0 <= i < to && ns[i].data != []
      ensures Covered(c.spans + [s], i)
    {
      if i < c.open {
        assert Covered(c.spans, i);
        var s0 :| s0 in c.spans && Within(s0, i);
        assert s0 in c.spans + [s];
      } else {
        assert s in c.spans + [s] && Within(s, i);
      }
    }
  }

  lemma SkipEmpty(upp: nat, ns: seq<Node<Media>>, c: Cuts, noted: nat)
    requires SpansOk(upp, ns, c) && c.open < |ns| && ns[c.open].data == []
    ensures SpansOk(upp, ns, Cuts(c.spans, c.open + 1, noted))
  {}

  /** The state between the two parts of a turn of the loop. */
  ghost predicate Midway(upp: nat, ns: seq<Node<Media>>, n: nat, c: Cuts) {
    && n < |ns| && c.open <= n && n - c.open < upp
    && SpansOk(upp, ns, c)
    && if ns[n].data == [] then c.open == n else SameCodec(ns, c.open, n + 1)
  }

  lemma EarlyOk(upp: nat, ns: seq<Node<Media>>, n: nat, c: Cuts)
    requires n < |ns| && Conserves(upp, ns, n, c)
    ensures Midway(upp, ns, n, CloseEarly(ns, n, c))
  {
    if c.open < n && Breaks(ns, n) {
      OneMoreSpan(upp, ns, c, n, c.noted);
    }
    NotedFree(upp, ns, c, n);
    hide SpansOk;
    assert c.open == n ==> c == Cuts(c.spans, n, c.noted);
  }

  lemma NotedFree(upp: nat, ns: seq<Node<Media>>, c: Cuts, noted: nat)
    requires SpansOk(upp, ns, c)
    ensures SpansOk(upp, ns, Cuts(c.spans, c.open, noted))
  {}

  lemma FullOk(upp: nat, ns: seq<Node<Media>>, n: nat, c: Cuts)
    requires upp > 0 && Midway(upp, ns, n, c)
    ensures Conserves(upp, ns, n + 1, CloseFull(upp, ns, n, c))
  {
    hide SpansOk, First;
    if ns[n].data == [] {
      SkipEmpty(upp, ns, c, c.noted);
    } else if n + 1 - c.open >= upp {
      OneMoreSpan(upp, ns, c, n + 1, c.noted);
    }
  }

  lemma ConservesNone(upp: nat, ns: seq<Node<Media>>)
    requires upp > 0
    ensures Conserves(upp, ns, 0, Cuts([], 0, 0))
  {}

  lemma {:induction false} CutsConserve(upp: nat, ns: seq<Node<Media>>, n: nat)
    requires upp > 0 && n <= |ns|
    ensures Conserves(upp, ns, n, CutsOf(upp, ns, n))
  {
    hide Conserves, Midway, CloseEarly, CloseFull;
    if n == 0 {
      ConservesNone(upp, ns);
    } else {
      CutsConserve(upp, ns, n - 1);
      EarlyOk(upp, ns, n - 1, CutsOf(upp, ns, n - 1));
      FullOk(upp, ns, n - 1, CloseEarly(ns, n - 1, CutsOf(upp, ns, n - 1)));
    }
  }

  /** Span `k` follows at once on a span that was sent before it was full. */
  ghost predicate Hurried(upp: nat, spans: seq<Span>, k: nat)
    requires k < |spans|
  {
    k > 0 && spans[k - 1].to == spans[k].from && spans[k - 1].to - spans[k - 1].from < upp
  }

  /** Span `k` carries the time of its own first unit, unless it follows at once on a span cut
      short by a change of codec: then it carries the time of that one. */
  ghost predicate NotedAt(upp: nat, spans: seq<Span>, k: nat)
    requires k < |spans|
  {
    && spans[k].noted <= spans[k].from
    && spans[k].noted == if Hurried(upp, spans, k) then spans[k - 1].noted else spans[k].from
  }

  ghost predicate NotedIs(upp: nat, spans: seq<Span>) {
    forall k :: 0 <= k < |spans| ==> NotedAt(upp, spans, k)
  }

  /** If the open span were closed now, its time would be right too. */
  ghost predicate OpenNoted(upp: nat, n: nat, c: Cuts) {
    && c.open <= n
    && NotedIs(upp, c.spans)
    && (c.open < n ==> NotedIs(upp, c.spans + [Span(c.open, n, c.noted)]))
    && (c.open == n && c.spans != [] ==>
          var last := c.spans[|c.spans| - 1];
          last.to < n || last.to - last.from >= upp)
  }

  lemma LongerSpan(upp: nat, spans: seq<Span>, from: nat, to: nat, to': nat, noted: nat)
    requires NotedIs(upp, spans + [Span(from, to, noted)])
    ensures NotedIs(upp, spans + [Span(from, to', noted)])
  {
    var a, b := spans + [Span(from, to, noted)], spans + [Span(from, to', noted)];
    forall k | 0 <= k < |b|
      ensures NotedAt(upp, b, k)
    {
      assert NotedAt(upp, a, k);
    }
  }

  lemma NewSpan(upp: nat, spans: seq<Span>, from: nat, to: nat, noted: nat)
    requires NotedIs(upp, spans)
    requires noted <= from
    requires noted == if spans != [] && spans[|spans| - 1].to == from && from - spans[|spans| - 1].from < upp
                      then spans[|spans| - 1].noted else from
    ensures NotedIs(upp, spans + [Span(from, to, noted)])
  {
    var b := spans + [Span(from, to, noted)];
    forall k | 0 <= k < |b|
      ensures NotedAt(upp, b, k)
    {
      if k < |spans| { assert NotedAt(upp, spans, k); }
    }
  }

  lemma {:induction false} CutsNoted(upp: nat, ns: seq<Node<Media>>, n: nat)
    requires upp > 0 && n <= |ns|
    ensures OpenNoted(upp, n, CutsOf(upp, ns, n))
  {
    if n > 0 {
      var m := n - 1;
      CutsNoted(upp, ns, m);
      CutsConserve(upp, ns, m);
      NextNoted(upp, ns, m, CutsOf(upp, ns, m));
    }
  }

  lemma NextNoted(upp: nat, ns: seq<Node<Media>>, m: nat, c: Cuts)
    requires upp > 0 && m < |ns| && m - c.open < upp && OpenNoted(upp, m, c)
    ensures OpenNoted(upp, m + 1, CloseFull(upp, ns, m, CloseEarly(ns, m, c)))
  {
    var c1 := CloseEarly(ns, m, c);
    if c.open == m {
      NewSpan(upp, c.spans, m, m + 1, m);
    } else if Breaks(ns, m) {
      var a := c.spans + [Span(c.open, m, c.noted)];
      assert NotedAt(upp, a, |a| - 1);
      NewSpan(upp, c.spans + [Span(c.open, m, c.noted)], m, m + 1, c.noted);
    } else {
      LongerSpan(upp, c.spans, c.open, m, m + 1, c.noted);
    }
  }

  // --------------------------------------------------------- the packets are the spans

  function Units(ns: seq<Node<Media>>, from: nat, to: nat): seq<Coding>
    requires from <= to <= |ns|
  {
    seq(to - from, i requires 0 <= i < to - from => First(ns[from + i]))
  }

  ghost predicate InRange(ns: seq<Node<Media>>, s: Span) {
    s.noted <= s.from < s.to <= |ns|
  }

  function Sent(cs: Codecs, ns: seq<Node<Media>>, s: Span): Node<Pdu>
    requires InRange(ns, s)
  {
    Node(ns[s.noted].playout, Grouped(cs, First(ns[s.from]).id, Units(ns, s.from, s.to)))
  }

  function SentAll(cs: Codecs, ns: seq<Node<Media>>, spans: seq<Span>): seq<Node<Pdu>>
    requires forall s <- spans :: InRange(ns, s)
  {
    seq(|spans|, k requires 0 <= k < |spans| => Sent(cs, ns, spans[k]))
  }

  /** The encoder's state and output agree with the cuts. */
  ghost predicate Agrees(cs: Codecs, ns: seq<Node<Media>>, n: nat, c: Cuts, s: Pending, sent: seq<Node<Pdu>>) {
    && c.open <= n <= |ns|
    && (forall sp <- c.spans :: InRange(ns, sp))
    && sent == SentAll(cs, ns, c.spans)
    && s.units == Units(ns, c.open, n)
    && (c.open < n ==> c.noted <= c.open && s.codec == First(ns[c.open]).id && s.playout == ns[c.noted].playout)
  }

  lemma OneMoreSent(cs: Codecs, ns: seq<Node<Media>>, spans: seq<Span>, s: Span)
    requires InRange(ns, s) && forall sp <- spans :: InRange(ns, sp)
    ensures forall sp <- spans + [s] :: InRange(ns, sp)
    ensures SentAll(cs, ns, spans + [s]) == SentAll(cs, ns, spans) + [Sent(cs, ns, s)]
  {
    hide Sent;
  }

  /** What the code does early, at a unit that ends the open span. */
  function StepEarly(cs: Codecs, s: Pending, n: Node<Media>): (Pending, seq<Node<Pdu>>) {
    if s.units == [] then (s.(playout := n.playout), [])
    else if n.data == [] || First(n).id != s.codec then
      (s.(units := []), [Node(s.playout, Grouped(cs, s.codec, s.units))])
    else (s, [])
  }

  function StepFull(cs: Codecs, upp: nat, s: Pending, n: Node<Media>): (Pending, seq<Node<Pdu>>) {
    if n.data == [] then (s, [])
    else
      var units := s.units + [First(n)];
      if |units| >= upp then (Pending(First(n).id, s.playout, []), [Node(s.playout, Grouped(cs, First(n).id, units))])
      else (Pending(First(n).id, s.playout, units), [])
  }

  lemma StepIsTwo(cs: Codecs, upp: nat, s: Pending, n: Node<Media>)
    ensures var (s1, a) := StepEarly(cs, s, n);
            var (s2, b) := StepFull(cs, upp, s1, n);
            Step(cs, upp, s, n) == (s2, a + b)
  {
    var a := StepEarly(cs, s, n).1;
    var b := StepFull(cs, upp, StepEarly(cs, s, n).0, n).1;
    assert a + [] == a && [] + b == b;
    if a != [] && n.data != [] {
      assert [] + [First(n)] == [First(n)];
    }
  }

  lemma EarlyAgrees(cs: Codecs, ns: seq<Node<Media>>, n: nat, c: Cuts, s: Pending, sent: seq<Node<Pdu>>)
    requires n < |ns| && Agrees(cs, ns, n, c, s, sent) && SameCodec(ns, c.open, n)
    ensures var (s1, more) := StepEarly(cs, s, ns[n]);
            Agrees(cs, ns, n, CloseEarly(ns, n, c), s1, sent + more)
            && s1.playout == ns[CloseEarly(ns, n, c).noted].playout
  {
    if c.open < n {
      if Breaks(ns, n) {
        OneMoreSent(cs, ns, c.spans, Span(c.open, n, c.noted));
      }
    }
  }

  lemma FullAgrees(cs: Codecs, upp: nat, ns: seq<Node<Media>>, n: nat, c: Cuts, s: Pending, sent: seq<Node<Pdu>>)
    requires n < |ns| && Agrees(cs, ns, n, c, s, sent)
    requires if ns[n].data == [] then c.open == n
             else SameCodec(ns, c.open, n + 1) && c.noted <= c.open && s.playout == ns[c.noted].playout
    ensures var (s1, more) := StepFull(cs, upp, s, ns[n]);
            Agrees(cs, ns, n + 1, CloseFull(upp, ns, n, c), s1, sent + more)
  {
    if ns[n].data == [] {
      assert sent + [] == sent;
    } else {
      assert Units(ns, c.open, n + 1) == Units(ns, c.open, n) + [First(ns[n])];
      assert First(ns[n]).id == First(ns[c.open]).id;
      if n + 1 - c.open >= upp {
        OneMoreSent(cs, ns, c.spans, Span(c.open, n + 1, c.noted));
      } else {
        assert sent + [] == sent;
      }
    }
  }

  lemma NextAgrees(cs: Codecs, upp: nat, ns: seq<Node<Media>>, n: nat, c: Cuts, s: Pending, sent: seq<Node<Pdu>>)
    requires n < |ns| && Agrees(cs, ns, n, c, s, sent) && Conserves(upp, ns, n, c)
    ensures var (s2, more) := Step(cs, upp, s, ns[n]);
            Agrees(cs, ns, n + 1, CloseFull(upp, ns, n, CloseEarly(ns, n, c)), s2, sent + more)
  {
    EarlyOk(upp, ns, n, c);
    EarlyAgrees(cs, ns, n, c, s, sent);
    EarlyNotedBound(ns, n, c);
    StepIsTwo(cs, upp, s, ns[n]);
    hide Agrees, SpansOk, SameCodec, Step, StepEarly, StepFull, CloseEarly, CloseFull, Conserves;
    var c1 := CloseEarly(ns, n, c);
    var (s1, more) := StepEarly(cs, s, ns[n]);
    FullAgrees(cs, upp, ns, n, c1, s1, sent + more);
    var more' := StepFull(cs, upp, s1, ns[n]).1;
    assert sent + more + more' == sent + (more + more');
  }

  lemma EarlyNotedBound(ns: seq<Node<Media>>, n: nat, c: Cuts)
    requires n < |ns| && c.open <= n && (c.open < n ==> c.noted <= c.open)
    ensures CloseEarly(ns, n, c).noted <= CloseEarly(ns, n, c).open
  {}

  lemma AgreesNone(cs: Codecs, ns: seq<Node<Media>>, s: Pending)
    requires s.units == []
    ensures Agrees(cs, ns, 0, Cuts([], 0, 0), s, [])
  {}

  /** The packets are the spans, and what is not sent is pending. */
  lemma {:induction false} RunIsCuts(cs: Codecs, upp: nat, ns: seq<Node<Media>>, s: Pending, n: nat)
    requires upp > 0 && s.units == [] && n <= |ns|
    ensures var (s', sent) := Run(cs, upp, s, ns, n);
            Agrees(cs, ns, n, CutsOf(upp, ns, n), s', sent)
  {
    hide Agrees, Conserves, CloseEarly, CloseFull, Step;
    if n == 0 {
      AgreesNone(cs, ns, s);
    } else {
      RunIsCuts(cs, upp, ns, s, n - 1);
      CutsConserve(upp, ns, n - 1);
      var (s0, sent0) := Run(cs, upp, s, ns, n - 1);
      NextAgrees(cs, upp, ns, n - 1, CutsOf(upp, ns, n - 1), s0, sent0);
    }
  }

  /** The units with data among the first `n`. */
  function Filled(ns: seq<Node<Media>>, n: nat): seq<Coding>
    requires n <= |ns|
  {
    if n == 0 then []
    else Filled(ns, n - 1) + if ns[n - 1].data == [] then [] else [First(ns[n - 1])]
  }

  /** The units of all packets, in the order sent. */
  function UnitsOf(ns: seq<Node<Media>>, spans: seq<Span>): seq<Coding>
    requires forall s <- spans :: InRange(ns, s)
  {
    if spans == [] then []
    else
      var s := spans[|spans| - 1];
      assert InRange(ns, s);
      UnitsOf(ns, spans[..|spans| - 1]) + Units(ns, s.from, s.to)
  }

  lemma UnitsOfMore(ns: seq<Node<Media>>, spans: seq<Span>, s: Span)
    requires InRange(ns, s) && forall sp <- spans :: InRange(ns, sp)
    ensures forall sp <- spans + [s] :: InRange(ns, sp)
    ensures UnitsOf(ns, spans + [s]) == UnitsOf(ns, spans) + Units(ns, s.from, s.to)
  {
    assert (spans + [s])[..|spans|] == spans;
  }

  /** The units of the spans and of the open one are the units with data. */
  ghost predicate Accounted(ns: seq<Node<Media>>, n: nat, c: Cuts) {
    && c.open <= n <= |ns|
    && (c.open < n ==> c.noted <= c.open)
    && (forall s <- c.spans :: InRange(ns, s))
    && UnitsOf(ns, c.spans) + Units(ns, c.open, n) == Filled(ns, n)
  }

  lemma {:induction false} CutsKeepUnits(upp: nat, ns: seq<Node<Media>>, n: nat)
    requires upp > 0 && n <= |ns|
    ensures Accounted(ns, n, CutsOf(upp, ns, n))
  {
    if n > 0 {
      var m := n - 1;
      CutsKeepUnits(upp, ns, m);
      var c := CutsOf(upp, ns, m);
      CutsConserve(upp, ns, m);
      EarlyOk(upp, ns, m, c);
      EarlyKeepsUnits(ns, m, c);
      hide Accounted, SpansOk, CloseEarly, CloseFull, SameCodec;
      FullKeepsUnits(upp, ns, m, CloseEarly(ns, m, c));
    }
  }

  lemma EarlyKeepsUnits(ns: seq<Node<Media>>, n: nat, c: Cuts)
    requires n < |ns| && Accounted(ns, n, c)
    ensures Accounted(ns, n, CloseEarly(ns, n, c))
    ensures CloseEarly(ns, n, c).noted <= CloseEarly(ns, n, c).open
  {
    if c.open < n && Breaks(ns, n) {
      UnitsOfMore(ns, c.spans, Span(c.open, n, c.noted));
      assert Units(ns, n, n) == [];
    }
  }

  lemma FullKeepsUnits(upp: nat, ns: seq<Node<Media>>, n: nat, c: Cuts)
    requires n < |ns| && Accounted(ns, n, c) && c.noted <= c.open
    requires ns[n].data == [] ==> c.open == n
    ensures Accounted(ns, n + 1, CloseFull(upp, ns, n, c))
  {
    var before := UnitsOf(ns, c.spans);
    if ns[n].data == [] {
      assert Units(ns, n, n) == [] && Units(ns, n + 1, n + 1) == [];
    } else {
      assert Units(ns, c.open, n + 1) == Units(ns, c.open, n) + [First(ns[n])];
      assert before + (Units(ns, c.open, n) + [First(ns[n])]) == before + Units(ns, c.open, n) + [First(ns[n])];
      if n + 1 - c.open >= upp {
        UnitsOfMore(ns, c.spans, Span(c.open, n + 1, c.noted));
        assert Units(ns, n + 1, n + 1) == [];
      }
    }
  }

  /** Vanilla encoding conserves the stream: the packets hold, in order, all units with data
      but those that are still pending; no packet spans a gap or a change of codec, none holds
      more than `upp` units, and none is cut short without need. */
  lemma Conservation(cs: Codecs, upp: nat, ns: seq<Node<Media>>, s: Pending)
    requires upp > 0 && s.units == []
    ensures var (s', sent) := Run(cs, upp, s, ns, |ns|);
            var c := CutsOf(upp, ns, |ns|);
            && Conserves(upp, ns, |ns|, c)
            && (forall sp <- c.spans :: InRange(ns, sp))
            && sent == SentAll(cs, ns, c.spans)
            && UnitsOf(ns, c.spans) + s'.units == Filled(ns, |ns|)
  {
    CutsConserve(upp, ns, |ns|);
    RunIsCuts(cs, upp, ns, s, |ns|);
    CutsKeepUnits(upp, ns, |ns|);
  }

  // --------------------------------------------------- what becomes of the packets' times

  /** pb_add of each packet in turn: one for a time that is taken is refused, and lost. */
  function AddAll(out: map<int, Pdu>, sent: seq<Node<Pdu>>, n: nat): map<int, Pdu>
    requires n <= |sent|
  {
    if n == 0 then out
    else
      var out1 := AddAll(out, sent, n - 1);
      if sent[n - 1].playout in out1 then out1 else out1[sent[n - 1].playout := sent[n - 1].data]
  }

  ghost predicate Timed(ns: seq<Node<Media>>) {
    forall i, j :: 0 <= i < j < |ns| ==> ns[i].playout < ns[j].playout
  }

  /** The first `n` packets in the output buffer: each is there, except those that were cut
      off a hurried one. */
  ghost predicate Kept(upp: nat, spans: seq<Span>, sent: seq<Node<Pdu>>, n: nat, out: map<int, Pdu>)
    requires n <= |spans| == |sent|
  {
    && (forall k :: 0 <= k < n ==> sent[k].playout in out)
    && (forall k :: 0 <= k < n && !Hurried(upp, spans, k) ==> out[sent[k].playout] == sent[k].data)
    && (forall u <- out :: exists k :: 0 <= k < n && sent[k].playout == u)
  }

  /** The time of a hurried packet is that of the packet before; other times are new. */
  ghost predicate TimesOk(upp: nat, spans: seq<Span>, sent: seq<Node<Pdu>>)
    requires |spans| == |sent|
  {
    && (forall j, k :: 0 <= j < k < |sent| && !Hurried(upp, spans, k) ==> sent[j].playout != sent[k].playout)
    && (forall k :: 0 <= k < |sent| && Hurried(upp, spans, k) ==> sent[k].playout == sent[k - 1].playout)
  }

  lemma {:induction false} NotedGrow(upp: nat, spans: seq<Span>, j: nat, k: nat)
    requires NotedIs(upp, spans) && j < k < |spans|
    requires forall j, k :: 0 <= j < k < |spans| ==> spans[j].to <= spans[k].from
    requires forall s <- spans :: s.from < s.to
    ensures spans[j].noted <= spans[k].noted
    ensures !Hurried(upp, spans, k) ==> spans[j].noted < spans[k].noted
  {
    assert NotedAt(upp, spans, k) && NotedAt(upp, spans, j);
    if Hurried(upp, spans, k) && j < k - 1 {
      NotedGrow(upp, spans, j, k - 1);
    }
  }

  lemma SpanTimes(upp: nat, spans: seq<Span>)
    requires NotedIs(upp, spans)
    requires forall j, k :: 0 <= j < k < |spans| ==> spans[j].to <= spans[k].from
    requires forall s <- spans :: s.from < s.to
    ensures forall j, k :: 0 <= j < k < |spans| && !Hurried(upp, spans, k) ==> spans[j].noted < spans[k].noted
    ensures forall k :: 0 <= k < |spans| && Hurried(upp, spans, k) ==> spans[k].noted == spans[k - 1].noted
  {
    forall j, k | 0 <= j < k < |spans| && !Hurried(upp, spans, k)
      ensures spans[j].noted < spans[k].noted
    {
      NotedGrow(upp, spans, j, k);
    }
    forall k | 0 <= k < |spans| && Hurried(upp, spans, k)
      ensures spans[k].noted == spans[k - 1].noted
    {
      assert NotedAt(upp, spans, k);
    }
  }

  lemma SentTimes(cs: Codecs, upp: nat, ns: seq<Node<Media>>, spans: seq<Span>)
    requires Timed(ns) && NotedIs(upp, spans)
    requires forall s <- spans :: InRange(ns, s)
    requires forall j, k :: 0 <= j < k < |spans| ==> spans[j].to <= spans[k].from
    ensures TimesOk(upp, spans, SentAll(cs, ns, spans))
  {
    hide SentAll, Hurried, NotedAt, NotedIs;
    forall sp <- spans
      ensures sp.from < sp.to
    {
      InRangeMeans(ns, sp);
    }
    SpanTimes(upp, spans);
    SentLength(cs, ns, spans);
    forall k | 0 <= k < |spans|
      ensures InRange(ns, spans[k]) && SentAll(cs, ns, spans)[k].playout == ns[spans[k].noted].playout
    {
      SentTime(cs, ns, spans, k);
    }
    forall k | 0 <= k < |spans| && Hurried(upp, spans, k)
      ensures k > 0
    {
      HurriedLater(upp, spans, k);
    }
  }

  lemma SentTime(cs: Codecs, ns: seq<Node<Media>>, spans: seq<Span>, k: nat)
    requires k < |spans| && forall s <- spans :: InRange(ns, s)
    ensures InRange(ns, spans[k]) && |SentAll(cs, ns, spans)| == |spans|
    ensures SentAll(cs, ns, spans)[k].playout == ns[spans[k].noted].playout
  {
    hide Grouped, Units, InRange;
    assert spans[k] in spans;
    InRangeMeans(ns, spans[k]);
  }

  lemma SentLength(cs: Codecs, ns: seq<Node<Media>>, spans: seq<Span>)
    requires forall s <- spans :: InRange(ns, s)
    ensures |SentAll(cs, ns, spans)| == |spans|
  {
    hide Sent;
  }

  /** Into an empty output buffer, a packet is accepted exactly when it does not follow at once
      on one that a change of codec cut short; otherwise it still carries the time of that one
      and is dropped. */
  lemma {:induction false} KeptUnlessHurried(cs: Codecs, upp: nat, ns: seq<Node<Media>>, s: Pending, n: nat)
    requires upp > 0 && s.units == [] && Timed(ns)
    requires n <= |CutsOf(upp, ns, |ns|).spans|
    ensures var spans, sent := CutsOf(upp, ns, |ns|).spans, Run(cs, upp, s, ns, |ns|).1;
            && |sent| == |spans|
            && Kept(upp, spans, sent, n, AddAll(map[], sent, n))
            && (n > 0 ==> (sent[n - 1].playout in AddAll(map[], sent, n - 1) <==> Hurried(upp, spans, n - 1)))
  {
    Conservation(cs, upp, ns, s);
    CutsNoted(upp, ns, |ns|);
    SentTimes(cs, upp, ns, CutsOf(upp, ns, |ns|).spans);
    hide CutsOf, Hurried, NotedIs, Conserves, TimesOk, Kept;
    if n > 0 {
      KeptUnlessHurried(cs, upp, ns, s, n - 1);
      var spans, sent := CutsOf(upp, ns, |ns|).spans, Run(cs, upp, s, ns, |ns|).1;
      AcceptedIff(upp, spans, sent, n - 1, AddAll(map[], sent, n - 1));
    }
  }

  lemma AcceptedIff(upp: nat, spans: seq<Span>, sent: seq<Node<Pdu>>, n: nat, out: map<int, Pdu>)
    requires n < |spans| == |sent| && TimesOk(upp, spans, sent) && Kept(upp, spans, sent, n, out)
    ensures var p := sent[n];
            && (p.playout in out <==> Hurried(upp, spans, n))
            && Kept(upp, spans, sent, n + 1, if p.playout in out then out else out[p.playout := p.data])
  {
    hide Hurried;
    var p := sent[n];
    if Hurried(upp, spans, n) {
      assert n > 0 by { HurriedLater(upp, spans, n); }
      assert sent[n - 1].playout in out;
    } else {
      assert forall k :: 0 <= k < n ==> sent[k].playout != p.playout;
    }
  }

  lemma HurriedLater(upp: nat, spans: seq<Span>, k: nat)
    requires k < |spans| && Hurried(upp, spans, k)
    ensures k > 0
  {}

  // --------------------------------------------------------------------- decoder

  function Joined(elems: seq<seq<byte>>): seq<byte> {
    if elems == [] then [] else elems[0] + Joined(elems[1..])
  }

  /** The loop of vanilla_decoder_output: the first time that is taken ends it. */
  function Emit(out: MediaBuffer, frames: seq<Coding>, t: int, step: int): MediaBuffer
    decreases |frames|
  {
    if frames == [] || t in out then out else Emit(out[t := [frames[0]]], frames[1..], t + step, step)
  }

  /** vanilla_decoder_output; `None` stands for an unknown codec, which is asserted not to
      happen, or for reading past the end of the packet. */
  function Decode(cs: Codecs, p: Node<Pdu>, out: MediaBuffer): Option<MediaBuffer> {
    var id := cs.byPayload(p.data.pt);
    if id == 0 then None
    else
      match Frames(cs, id, Joined(p.data.elems), true)
      case None => None
      case Some(frames) => Some(Emit(out, frames, p.playout, cs.samplesPerFrame(id)))
  }

  /** The first `n` packets, decoded in order. */
  function DecodeFirst(cs: Codecs, sent: seq<Node<Pdu>>, n: nat): Option<MediaBuffer>
    requires n <= |sent|
  {
    if n == 0 then Some(map[])
    else
      match DecodeFirst(cs, sent, n - 1)
      case None => None
      case Some(out) => Decode(cs, sent[n - 1], out)
  }

  /** The codec can find the end of this unit, and its state has the length the codec says. */
  ghost predicate WellCoded(cs: Codecs, cu: Coding) {
    && |cu.data| > 0
    && |cu.state| == cs.stateSize(cu.id)
    && (forall rest: seq<byte> :: cs.peek(cu.id, cu.data + rest) == |cu.data|)
  }

  ghost predicate AllWellCoded(cs: Codecs, c: CodecId, units: seq<Coding>) {
    forall cu <- units :: cu.id == c && WellCoded(cs, cu)
  }

  /** What the decoder makes of the units of a packet: only the first keeps its state. */
  function Received(units: seq<Coding>, head: bool): seq<Coding> {
    seq(|units|, i requires 0 <= i < |units| =>
      Coding(units[i].id, if head && i == 0 then units[i].state else [], units[i].data))
  }

  lemma DatasTail(units: seq<Coding>)
    requires units != []
    ensures Joined(Datas(units)) == units[0].data + Joined(Datas(units[1..]))
  {
    assert Datas(units)[1..] == Datas(units[1..]);
  }

  lemma {:induction false} FramesOfDatas(cs: Codecs, c: CodecId, units: seq<Coding>)
    requires AllWellCoded(cs, c, units)
    ensures Frames(cs, c, Joined(Datas(units)), false) == Some(Received(units, false))
  {
    hide Frames, Joined, Datas, WellCoded;
    if units != [] {
      FramesOfDatas(cs, c, units[1..]);
      FirstOfDatas(cs, c, units);
      assert Received(units, false) == [Coding(c, [], units[0].data)] + Received(units[1..], false);
    } else {
      NoDatas(cs, c);
      assert Received(units, false) == [];
    }
  }

  lemma NoDatas(cs: Codecs, c: CodecId)
    ensures Frames(cs, c, Joined(Datas([])), false) == Some([])
  {}

  lemma FirstOfDatas(cs: Codecs, c: CodecId, units: seq<Coding>)
    requires units != [] && AllWellCoded(cs, c, units)
    requires Frames(cs, c, Joined(Datas(units[1..])), false) == Some(Received(units[1..], false))
    ensures Frames(cs, c, Joined(Datas(units)), false) ==
            Some([Coding(c, [], units[0].data)] + Received(units[1..], false))
  {
    hide Frames, Joined, Datas;
    var cu, rest := units[0], Joined(Datas(units[1..]));
    assert WellCoded(cs, cu);
    DatasTail(units);
    OneFrame(cs, c, [], cu.data, rest, false, Received(units[1..], false));
    assert [] + (cu.data + rest) == Joined(Datas(units));
  }

  /** Splitting a packet gives back its units, with codec state at the head only. */
  lemma FramesOfGroup(cs: Codecs, c: CodecId, units: seq<Coding>)
    requires units != [] && AllWellCoded(cs, c, units)
    ensures Frames(cs, c, Joined(Grouped(cs, c, units).elems), true) == Some(Received(units, true))
  {
    var cu := units[0];
    assert WellCoded(cs, cu);
    JoinedGroup(cs, c, units);
    FramesOfDatas(cs, c, units[1..]);
    OneFrame(cs, c, cu.state, cu.data, Joined(Datas(units[1..])), true, Received(units[1..], false));
    assert Received(units, true) == [Coding(c, cu.state, cu.data)] + Received(units[1..], false);
  }

  lemma JoinedGroup(cs: Codecs, c: CodecId, units: seq<Coding>)
    requires units != []
    ensures Joined(Grouped(cs, c, units).elems) == units[0].state + (units[0].data + Joined(Datas(units[1..])))
  {
    DatasTail(units);
    if units[0].state != [] {
      assert ([units[0].state] + Datas(units))[1..] == Datas(units);
    } else {
      assert [] + Datas(units) == Datas(units);
    }
  }

  /** `out'` is `out` and the frames at consecutive times from `t` on. */
  ghost predicate Emitted(out: MediaBuffer, out': MediaBuffer, frames: seq<Coding>, t: int, step: int) {
    && (forall i :: 0 <= i < |frames| ==> At(t, i, step) in out' && out'[At(t, i, step)] == [frames[i]])
    && (forall u :: !Among(u, |frames|, t, step) ==> (u in out' <==> u in out) && (u in out ==> out'[u] == out[u]))
  }

  lemma {:induction false} EmitAll(out: MediaBuffer, frames: seq<Coding>, t: int, step: nat)
    requires step > 0 && forall i :: 0 <= i < |frames| ==> At(t, i, step) !in out
    ensures Emitted(out, Emit(out, frames, t, step), frames, t, step)
    decreases |frames|
  {
    if frames != [] {
      assert At(t, 0, step) == t;
      var out1, t1 := out[t := [frames[0]]], t + step;
      forall i | 0 <= i < |frames[1..]|
        ensures At(t1, i, step) !in out1
      {
        AtShift(t, i, step);
        AtInjective(t, 0, i + 1, step);
        assert At(t, i + 1, step) !in out;
      }
      EmitAll(out1, frames[1..], t1, step);
      EmittedStep(out, Emit(out1, frames[1..], t1, step), frames, t, step);
    }
  }

  lemma EmittedStep(out: MediaBuffer, out': MediaBuffer, frames: seq<Coding>, t: int, step: nat)
    requires step > 0 && frames != []
    requires Emitted(out[t := [frames[0]]], out', frames[1..], t + step, step)
    ensures Emitted(out, out', frames, t, step)
  {
    var out1, t1, n := out[t := [frames[0]]], t + step, |frames| - 1;
    NotAmongLater(n, t, step);
    forall i | 0 <= i < |frames|
      ensures At(t, i, step) in out' && out'[At(t, i, step)] == [frames[i]]
    {
      if i > 0 {
        AtShift(t, i - 1, step);
        assert frames[1..][i - 1] == frames[i];
        assert At(t1, i - 1, step) in out';
      }
    }
    forall u | !Among(u, |frames|, t, step)
      ensures (u in out' <==> u in out) && (u in out ==> out'[u] == out[u])
    {
      AmongShift(u, n, t, step);
    }
  }

  // ------------------------------------------------------------------ round trip

  /** Units one frame apart, all of which the codec table can handle. */
  ghost predicate Good(cs: Codecs, ns: seq<Node<Media>>, t0: int, d: nat) {
    && d > 0
    && (forall i :: 0 <= i < |ns| ==> ns[i].playout == At(t0, i, d))
    && (forall i :: 0 <= i < |ns| && ns[i].data != [] ==> Handled(cs, First(ns[i]), d))
  }

  ghost predicate Handled(cs: Codecs, cu: Coding, d: nat) {
    cu.id != 0 && cs.byPayload(cs.payload(cu.id)) == cu.id && cs.samplesPerFrame(cu.id) == d && WellCoded(cs, cu)
  }

  /** Unit `i` of span `s` came out at its own time, with state only at the head of the span. */
  ghost predicate Heard(ns: seq<Node<Media>>, s: Span, i: nat, out: MediaBuffer)
    requires i < |ns|
  {
    var cu := First(ns[i]);
    && ns[i].playout in out
    && out[ns[i].playout] == [Coding(cu.id, if i == s.from then cu.state else [], cu.data)]
  }

  ghost predicate AllHeard(ns: seq<Node<Media>>, s: Span, out: MediaBuffer) {
    s.to <= |ns| && forall i :: s.from <= i < s.to ==> Heard(ns, s, i, out)
  }

  ghost predicate FromSpan(ns: seq<Node<Media>>, s: Span, u: int) {
    s.to <= |ns| && exists i :: s.from <= i < s.to && ns[i].playout == u
  }

  /** The output holds the units of the first `n` spans and nothing else. */
  ghost predicate Delivered(ns: seq<Node<Media>>, spans: seq<Span>, n: nat, out: MediaBuffer)
    requires n <= |spans|
  {
    && (forall k :: 0 <= k < n ==> AllHeard(ns, spans[k], out))
    && (forall u <- out :: exists k :: 0 <= k < n && FromSpan(ns, spans[k], u))
  }

  lemma AtAdd(t: int, a: int, b: int, d: int)
    ensures At(At(t, a, d), b, d) == At(t, a + b, d)
  {}

  lemma SpanTime(cs: Codecs, ns: seq<Node<Media>>, t0: int, d: nat, from: nat, i: nat)
    requires Good(cs, ns, t0, d) && from + i < |ns|
    ensures At(ns[from].playout, i, d) == ns[from + i].playout
  {
    AtAdd(t0, from, i, d);
  }

  lemma TimesDiffer(cs: Codecs, ns: seq<Node<Media>>, t0: int, d: nat, i: nat, j: nat)
    requires Good(cs, ns, t0, d) && i < |ns| && j < |ns| && ns[i].playout == ns[j].playout
    ensures i == j
  {
    AtInjective(t0, i, j, d);
  }

  /** No unit of a later span is there yet. */
  lemma NotYet(cs: Codecs, ns: seq<Node<Media>>, t0: int, d: nat, spans: seq<Span>, n: nat, out: MediaBuffer, i: nat)
    requires Good(cs, ns, t0, d) && n < |spans| && Delivered(ns, spans, n, out)
    requires forall j, k :: 0 <= j < k < |spans| ==> spans[j].to <= spans[k].from
    requires spans[n].from <= i < |ns|
    ensures ns[i].playout !in out
  {
    if ns[i].playout in out {
      var k :| 0 <= k < n && FromSpan(ns, spans[k], ns[i].playout);
      var j :| spans[k].from <= j < spans[k].to && ns[j].playout == ns[i].playout;
      TimesDiffer(cs, ns, t0, d, j, i);
    }
  }

  lemma SpanWellCoded(cs: Codecs, ns: seq<Node<Media>>, t0: int, d: nat, s: Span)
    requires Good(cs, ns, t0, d) && s.from < s.to <= |ns| && SameCodec(ns, s.from, s.to)
    ensures AllWellCoded(cs, First(ns[s.from]).id, Units(ns, s.from, s.to))
  {}

  lemma DeliverOne(cs: Codecs, ns: seq<Node<Media>>, t0: int, d: nat, spans: seq<Span>, n: nat, out: MediaBuffer)
    requires Good(cs, ns, t0, d) && n < |spans| && Delivered(ns, spans, n, out)
    requires forall j, k :: 0 <= j < k < |spans| ==> spans[j].to <= spans[k].from
    requires InRange(ns, spans[n]) && spans[n].noted == spans[n].from && SameCodec(ns, spans[n].from, spans[n].to)
    ensures var r := Decode(cs, Sent(cs, ns, spans[n]), out);
            r.Some? && Delivered(ns, spans, n + 1, r.value)
  {
    var s := spans[n];
    var units, c, t := Units(ns, s.from, s.to), First(ns[s.from]).id, ns[s.from].playout;
    SpanWellCoded(cs, ns, t0, d, s);
    FramesOfGroup(cs, c, units);
    var frames := Received(units, true);
    forall i | 0 <= i < |frames|
      ensures At(t, i, d) !in out
    {
      SpanTime(cs, ns, t0, d, s.from, i);
      NotYet(cs, ns, t0, d, spans, n, out, s.from + i);
    }
    EmitAll(out, frames, t, d);
    var out' := Emit(out, frames, t, d);
    assert Handled(cs, First(ns[s.from]), d);
    EmittedDelivers(cs, ns, t0, d, spans, n, out, out');
  }

  lemma InRangeMeans(ns: seq<Node<Media>>, s: Span)
    requires InRange(ns, s)
    ensures s.noted <= s.from < s.to <= |ns|
  {}

  lemma NewlyHeard(cs: Codecs, ns: seq<Node<Media>>, t0: int, d: nat, s: Span, out: MediaBuffer, out': MediaBuffer)
    requires Good(cs, ns, t0, d) && InRange(ns, s)
    requires Emitted(out, out', Received(Units(ns, s.from, s.to), true), ns[s.from].playout, d)
    ensures AllHeard(ns, s, out')
  {
    hide At, Good;
    var frames, t := Received(Units(ns, s.from, s.to), true), ns[s.from].playout;
    forall i | s.from <= i < s.to
      ensures Heard(ns, s, i, out')
    {
      SpanTime(cs, ns, t0, d, s.from, i - s.from);
      assert out'[At(t, i - s.from, d)] == [frames[i - s.from]];
    }
  }

  lemma EmittedDelivers(cs: Codecs, ns: seq<Node<Media>>, t0: int, d: nat, spans: seq<Span>, n: nat,
                        out: MediaBuffer, out': MediaBuffer)
    requires Good(cs, ns, t0, d) && n < |spans| && Delivered(ns, spans, n, out)
    requires forall j, k :: 0 <= j < k < |spans| ==> spans[j].to <= spans[k].from
    requires InRange(ns, spans[n])
    requires Emitted(out, out', Received(Units(ns, spans[n].from, spans[n].to), true), ns[spans[n].from].playout, d)
    ensures Delivered(ns, spans, n + 1, out')
  {
    hide Good, At, Heard, InRange;
    var s := spans[n];
    assert s.from < s.to <= |ns| by { InRangeMeans(ns, s); }
    var frames, t := Received(Units(ns, s.from, s.to), true), ns[s.from].playout;
    NewlyHeard(cs, ns, t0, d, s, out, out');
    forall k | 0 <= k < n
      ensures AllHeard(ns, spans[k], out')
    {
      forall i | spans[k].from <= i < spans[k].to
        ensures Heard(ns, spans[k], i, out')
      {
        StillHeard(cs, ns, t0, d, s, spans[k], i, out, out');
      }
    }
    forall u | u in out'
      ensures exists k :: 0 <= k < n + 1 && FromSpan(ns, spans[k], u)
    {
      if Among(u, |frames|, t, d) {
        var i :| 0 <= i < |frames| && u == At(t, i, d);
        SpanTime(cs, ns, t0, d, s.from, i);
        assert ns[s.from + i].playout == u;
        assert FromSpan(ns, spans[n], u);
      } else {
        var k :| 0 <= k < n && FromSpan(ns, spans[k], u);
      }
    }
  }

  lemma StillHeard(cs: Codecs, ns: seq<Node<Media>>, t0: int, d: nat, s: Span, s0: Span, i: nat,
                   out: MediaBuffer, out': MediaBuffer)
    requires Good(cs, ns, t0, d) && InRange(ns, s) && AllHeard(ns, s0, out) && s0.from <= i < s0.to <= s.from
    requires Emitted(out, out', Received(Units(ns, s.from, s.to), true), ns[s.from].playout, d)
    ensures Heard(ns, s0, i, out')
  {
    assert Heard(ns, s0, i, out);
    var t, u := ns[s.from].playout, ns[i].playout;
    if Among(u, s.to - s.from, t, d) {
      var j :| 0 <= j < s.to - s.from && u == At(t, j, d);
      SpanTime(cs, ns, t0, d, s.from, j);
      TimesDiffer(cs, ns, t0, d, i, s.from + j);
    }
  }

  /** Packets that each carry the time of their own first unit. */
  ghost predicate Prompt(cs: Codecs, ns: seq<Node<Media>>, spans: seq<Span>, sent: seq<Node<Pdu>>) {
    && |spans| == |sent|
    && (forall j, k :: 0 <= j < k < |spans| ==> spans[j].to <= spans[k].from)
    && (forall k :: 0 <= k < |spans| ==>
          && InRange(ns, spans[k]) && spans[k].noted == spans[k].from
          && SameCodec(ns, spans[k].from, spans[k].to)
          && sent[k] == Sent(cs, ns, spans[k]))
  }

  ghost predicate DeliveredSome(ns: seq<Node<Media>>, spans: seq<Span>, n: nat, r: Option<MediaBuffer>)
    requires n <= |spans|
  {
    r.Some? && Delivered(ns, spans, n, r.value)
  }

  lemma PromptSizes(cs: Codecs, ns: seq<Node<Media>>, spans: seq<Span>, sent: seq<Node<Pdu>>)
    requires Prompt(cs, ns, spans, sent)
    ensures |spans| == |sent|
    ensures DeliveredSome(ns, spans, 0, DecodeFirst(cs, sent, 0))
  {}

  lemma DeliverNext(cs: Codecs, ns: seq<Node<Media>>, t0: int, d: nat, spans: seq<Span>, sent: seq<Node<Pdu>>, n: nat)
    requires Good(cs, ns, t0, d) && n < |spans| == |sent| && Prompt(cs, ns, spans, sent)
    requires DeliveredSome(ns, spans, n, DecodeFirst(cs, sent, n))
    ensures DeliveredSome(ns, spans, n + 1, DecodeFirst(cs, sent, n + 1))
  {
    hide Good, Decode, Delivered, InRange, SameCodec;
    DeliverOne(cs, ns, t0, d, spans, n, DecodeFirst(cs, sent, n).value);
  }

  lemma {:induction false} PromptDelivered(cs: Codecs, ns: seq<Node<Media>>, t0: int, d: nat, spans: seq<Span>,
                                           sent: seq<Node<Pdu>>, n: nat)
    requires Good(cs, ns, t0, d) && Prompt(cs, ns, spans, sent) && n <= |spans| == |sent|
    ensures DeliveredSome(ns, spans, n, DecodeFirst(cs, sent, n))
  {
    hide *;
    PromptSizes(cs, ns, spans, sent);
    if n > 0 {
      PromptDelivered(cs, ns, t0, d, spans, sent, n - 1);
      DeliverNext(cs, ns, t0, d, spans, sent, n - 1);
    }
  }

  /** The packets that the output buffer takes, in the order sent. */
  function Accepted(sent: seq<Node<Pdu>>, n: nat): seq<Node<Pdu>>
    requires n <= |sent|
  {
    if n == 0 then []
    else
      Accepted(sent, n - 1) + if sent[n - 1].playout in AddAll(map[], sent, n - 1) then [] else [sent[n - 1]]
  }

  /** The spans that are not hurried. */
  ghost function Unhurried(upp: nat, spans: seq<Span>, n: nat): seq<Span>
    requires n <= |spans|
  {
    if n == 0 then []
    else Unhurried(upp, spans, n - 1) + if Hurried(upp, spans, n - 1) then [] else [spans[n - 1]]
  }

  /** Into the buffer and out again: those packets are what it holds. */
  lemma {:induction false} AcceptedIsBuffer(sent: seq<Node<Pdu>>, n: nat)
    requires n <= |sent|
    ensures var kept := Accepted(sent, n); AddAll(map[], kept, |kept|) == AddAll(map[], sent, n)
  {
    if n > 0 {
      AcceptedIsBuffer(sent, n - 1);
      var before, kept := Accepted(sent, n - 1), Accepted(sent, n);
      if kept != before {
        AddPrefix(map[], kept, |before|);
        assert kept[..|before|] == before;
      }
    }
  }

  /** What is known of packet `k` and its span. */
  ghost predicate Regular(cs: Codecs, upp: nat, ns: seq<Node<Media>>, spans: seq<Span>, sent: seq<Node<Pdu>>, k: nat)
    requires k < |spans| == |sent|
  {
    var s := spans[k];
    && InRange(ns, s) && SameCodec(ns, s.from, s.to) && sent[k] == Sent(cs, ns, s)
    && (if Hurried(upp, spans, k) then k > 0 && s.noted == spans[k - 1].noted else s.noted == s.from)
    && (sent[k].playout in AddAll(map[], sent, k) <==> Hurried(upp, spans, k))
    && (k + 1 < |spans| ==> s.to <= spans[k + 1].from)
  }

  lemma AllRegular(cs: Codecs, upp: nat, ns: seq<Node<Media>>, s: Pending, k: nat)
    requires upp > 0 && s.units == [] && Timed(ns) && k < |CutsOf(upp, ns, |ns|).spans|
    ensures var spans, sent := CutsOf(upp, ns, |ns|).spans, Run(cs, upp, s, ns, |ns|).1;
            |sent| == |spans| && Regular(cs, upp, ns, spans, sent, k)
  {
    hide CutsOf, Run, Hurried, Conserves, SameCodec, AddAll, Sent, InRange;
    Conservation(cs, upp, ns, s);
    KeptUnlessHurried(cs, upp, ns, s, k + 1);
    SpanFacts(upp, ns, k);
  }

  /** They are the packets of the spans that are not hurried, each with the time of its first
      unit. */
  lemma {:induction false} AcceptedPrompt(cs: Codecs, upp: nat, ns: seq<Node<Media>>, spans: seq<Span>,
                                          sent: seq<Node<Pdu>>, n: nat)
    requires n <= |spans| == |sent| && forall k :: 0 <= k < |spans| ==> Regular(cs, upp, ns, spans, sent, k)
    ensures var kept := Unhurried(upp, spans, n);
            && Prompt(cs, ns, kept, Accepted(sent, n))
            && (n < |spans| ==> forall sp <- kept :: sp.to <= spans[n].from)
  {
    hide Prompt, Hurried, AddAll, SameCodec, Sent;
    if n == 0 {
      PromptNone(cs, ns);
    } else {
      AcceptedPrompt(cs, upp, ns, spans, sent, n - 1);
      assert Regular(cs, upp, ns, spans, sent, n - 1);
      if !Hurried(upp, spans, n - 1) {
        OneMorePrompt(cs, ns, Unhurried(upp, spans, n - 1), Accepted(sent, n - 1), spans[n - 1], sent[n - 1]);
      } else {
        assert Unhurried(upp, spans, n) == Unhurried(upp, spans, n - 1);
        assert Accepted(sent, n) == Accepted(sent, n - 1);
      }
    }
  }

  lemma PromptNone(cs: Codecs, ns: seq<Node<Media>>)
    ensures Prompt(cs, ns, [], [])
  {}

  lemma OneMorePrompt(cs: Codecs, ns: seq<Node<Media>>, spans: seq<Span>, sent: seq<Node<Pdu>>, s: Span, p: Node<Pdu>)
    requires Prompt(cs, ns, spans, sent)
    requires InRange(ns, s) && s.noted == s.from && SameCodec(ns, s.from, s.to) && p == Sent(cs, ns, s)
    requires forall sp <- spans :: sp.to <= s.from
    ensures Prompt(cs, ns, spans + [s], sent + [p])
  {
    hide InRange, SameCodec, Sent;
  }

  lemma TimedIfGood(cs: Codecs, ns: seq<Node<Media>>, t0: int, d: nat)
    requires Good(cs, ns, t0, d)
    ensures Timed(ns)
  {
    hide Handled, First, At;
    forall i, j | 0 <= i < j < |ns|
      ensures ns[i].playout < ns[j].playout
    {
      AtGrows(t0, i, j, d);
    }
  }

  lemma AtGrows(t: int, i: int, j: int, d: nat)
    requires i < j && d > 0
    ensures At(t, i, d) < At(t, j, d)
  {
    MulMonotone(i, j, d);
    MulMonotone(1, j - i, d);
  }

  /** Encoding into the output buffer and decoding what is there gives back exactly the units of
      the packets that no change of codec hurries, each at its own time and with codec state on
      packet heads only. */
  lemma RoundTrip(cs: Codecs, upp: nat, ns: seq<Node<Media>>, s: Pending, t0: int, d: nat)
    requires upp > 0 && s.units == [] && Good(cs, ns, t0, d)
    ensures var spans, sent := CutsOf(upp, ns, |ns|).spans, Run(cs, upp, s, ns, |ns|).1;
            var kept := Accepted(sent, |sent|);
            var r := DecodeFirst(cs, kept, |kept|);
            && |sent| == |spans|
            && r.Some? && var heard := Unhurried(upp, spans, |spans|); Delivered(ns, heard, |heard|, r.value)
  {
    hide CutsOf, Run, Good, Delivered, DecodeFirst, Prompt, Unhurried, Accepted, Regular, Conserves, UnitsOf,
      Filled, Sent;
    var spans, sent := CutsOf(upp, ns, |ns|).spans, Run(cs, upp, s, ns, |ns|).1;
    TimedIfGood(cs, ns, t0, d);
    Conservation(cs, upp, ns, s);
    forall k | 0 <= k < |spans|
      ensures Regular(cs, upp, ns, spans, sent, k)
    {
      AllRegular(cs, upp, ns, s, k);
    }
    AcceptedPrompt(cs, upp, ns, spans, sent, |spans|);
    var kept, heard := Accepted(sent, |sent|), Unhurried(upp, spans, |spans|);
    PromptSizes(cs, ns, heard, kept);
    PromptDelivered(cs, ns, t0, d, heard, kept, |heard|);
  }

  /** The time of a packet is that of the first unit of a span that is not hurried. */
  lemma {:induction false} LastNoted(cs: Codecs, upp: nat, ns: seq<Node<Media>>, spans: seq<Span>, sent: seq<Node<Pdu>>,
                                     n: nat)
    requires 0 < n <= |spans| == |sent| && forall k :: 0 <= k < |spans| ==> Regular(cs, upp, ns, spans, sent, k)
    ensures exists sp :: sp in Unhurried(upp, spans, n) && sp.from == spans[n - 1].noted
  {
    assert Regular(cs, upp, ns, spans, sent, n - 1);
    hide Hurried, AddAll, Sent;
    if Hurried(upp, spans, n - 1) {
      LastNoted(cs, upp, ns, spans, sent, n - 1);
      var sp :| sp in Unhurried(upp, spans, n - 1) && sp.from == spans[n - 2].noted;
      assert sp in Unhurried(upp, spans, n);
    } else {
      assert spans[n - 1] in Unhurried(upp, spans, n);
    }
  }

  /** The decoder finds the first time of a hurried packet taken, and makes nothing of it. */
  lemma HurriedIgnored(cs: Codecs, ns: seq<Node<Media>>, t0: int, d: nat, s: Span, out: MediaBuffer)
    requires Good(cs, ns, t0, d) && InRange(ns, s) && SameCodec(ns, s.from, s.to)
    requires ns[s.noted].playout in out
    ensures Decode(cs, Sent(cs, ns, s), out) == Some(out)
  {
    SpanWellCoded(cs, ns, t0, d, s);
    FramesOfGroup(cs, First(ns[s.from]).id, Units(ns, s.from, s.to));
    assert Handled(cs, First(ns[s.from]), d);
  }

  lemma HeardAtFrom(ns: seq<Node<Media>>, spans: seq<Span>, sp: Span, out: MediaBuffer)
    requires Delivered(ns, spans, |spans|, out) && sp in spans && InRange(ns, sp)
    ensures ns[sp.from].playout in out
  {
    assert AllHeard(ns, sp, out) && Heard(ns, sp, sp.from, out);
  }

  lemma MoreSpans(ns: seq<Node<Media>>, spans: seq<Span>, s: Span, out: MediaBuffer)
    requires Delivered(ns, spans, |spans|, out)
    ensures Delivered(ns, spans + [s], |spans|, out)
  {
    forall u | u in out
      ensures exists k :: 0 <= k < |spans| && FromSpan(ns, (spans + [s])[k], u)
    {
      var k :| 0 <= k < |spans| && FromSpan(ns, spans[k], u);
      assert (spans + [s])[k] == spans[k];
    }
  }

  /** The decoder after the first `n` packets, none of them refused on the way. */
  lemma {:induction false} AllSentDelivered(cs: Codecs, upp: nat, ns: seq<Node<Media>>, t0: int, d: nat,
                                            spans: seq<Span>, sent: seq<Node<Pdu>>, n: nat)
    requires Good(cs, ns, t0, d)
    requires n <= |spans| == |sent| && forall k :: 0 <= k < |spans| ==> Regular(cs, upp, ns, spans, sent, k)
    ensures var kept := Unhurried(upp, spans, n); DeliveredSome(ns, kept, |kept|, DecodeFirst(cs, sent, n))
    decreases n
  {
    hide Good, Delivered, InRange, SameCodec, Hurried, AddAll, Decode, Sent, Prompt;
    if n > 0 {
      AllSentDelivered(cs, upp, ns, t0, d, spans, sent, n - 1);
      assert Regular(cs, upp, ns, spans, sent, n - 1);
      NextSent(cs, upp, ns, t0, d, spans, sent, n - 1, DecodeFirst(cs, sent, n - 1).value);
    } else {
      PromptNone(cs, ns);
      PromptSizes(cs, ns, [], []);
    }
  }

  lemma NextSent(cs: Codecs, upp: nat, ns: seq<Node<Media>>, t0: int, d: nat, spans: seq<Span>, sent: seq<Node<Pdu>>,
                 n: nat, out: MediaBuffer)
    requires Good(cs, ns, t0, d)
    requires n < |spans| == |sent| && forall k :: 0 <= k < |spans| ==> Regular(cs, upp, ns, spans, sent, k)
    requires var kept := Unhurried(upp, spans, n); Delivered(ns, kept, |kept|, out)
    ensures var kept := Unhurried(upp, spans, n + 1); DeliveredSome(ns, kept, |kept|, Decode(cs, sent[n], out))
  {
    hide Good, Delivered, SameCodec, Hurried, AddAll, Decode, Sent, Prompt;
    var kept := Unhurried(upp, spans, n);
    assert Regular(cs, upp, ns, spans, sent, n);
    if Hurried(upp, spans, n) {
      LastNoted(cs, upp, ns, spans, sent, n);
      var sp :| sp in kept && sp.from == spans[n - 1].noted;
      AcceptedPrompt(cs, upp, ns, spans, sent, n);
      PromptSpan(cs, ns, kept, Accepted(sent, n), sp);
      HeardAtFrom(ns, kept, sp, out);
      HurriedIgnored(cs, ns, t0, d, spans[n], out);
      assert kept + [] == kept;
    } else {
      AcceptedPrompt(cs, upp, ns, spans, sent, n + 1);
      MoreSpans(ns, kept, spans[n], out);
      PromptOrder(cs, ns, kept + [spans[n]], Accepted(sent, n + 1));
      DeliverOne(cs, ns, t0, d, kept + [spans[n]], |kept|, out);
    }
  }

  lemma PromptSpan(cs: Codecs, ns: seq<Node<Media>>, spans: seq<Span>, sent: seq<Node<Pdu>>, sp: Span)
    requires Prompt(cs, ns, spans, sent) && sp in spans
    ensures InRange(ns, sp)
  {}

  lemma PromptOrder(cs: Codecs, ns: seq<Node<Media>>, spans: seq<Span>, sent: seq<Node<Pdu>>)
    requires Prompt(cs, ns, spans, sent)
    ensures forall j, k :: 0 <= j < k < |spans| ==> spans[j].to <= spans[k].from
  {}

  /** If every packet is taken from the output buffer before the next is added none is refused
      there; but then the decoder finds the first time of a hurried packet taken, and again
      exactly the units of the other packets come back. */
  lemma RoundTripDrained(cs: Codecs, upp: nat, ns: seq<Node<Media>>, s: Pending, t0: int, d: nat)
    requires upp > 0 && s.units == [] && Good(cs, ns, t0, d)
    ensures var spans, sent := CutsOf(upp, ns, |ns|).spans, Run(cs, upp, s, ns, |ns|).1;
            && |sent| == |spans|
            && var heard := Unhurried(upp, spans, |spans|);
               DeliveredSome(ns, heard, |heard|, DecodeFirst(cs, sent, |sent|))
  {
    hide CutsOf, Run, Good, Delivered, DecodeFirst, Unhurried, Regular, Conserves, UnitsOf, Filled, Sent;
    var spans, sent := CutsOf(upp, ns, |ns|).spans, Run(cs, upp, s, ns, |ns|).1;
    TimedIfGood(cs, ns, t0, d);
    Conservation(cs, upp, ns, s);
    forall k | 0 <= k < |spans|
      ensures Regular(cs, upp, ns, spans, sent, k)
    {
      AllRegular(cs, upp, ns, s, k);
    }
    AllSentDelivered(cs, upp, ns, t0, d, spans, sent, |spans|);
  }

  lemma SpanFacts(upp: nat, ns: seq<Node<Media>>, k: nat)
    requires upp > 0 && k < |CutsOf(upp, ns, |ns|).spans|
    ensures var spans := CutsOf(upp, ns, |ns|).spans;
            && InRange(ns, spans[k]) && SameCodec(ns, spans[k].from, spans[k].to)
            && (if Hurried(upp, spans, k) then k > 0 && spans[k].noted == spans[k - 1].noted
                else spans[k].noted == spans[k].from)
            && forall i, j :: 0 <= i < j < |spans| ==> spans[i].to <= spans[j].from
  {
    CutsConserve(upp, ns, |ns|);
    CutsNoted(upp, ns, |ns|);
    var spans := CutsOf(upp, ns, |ns|).spans;
    assert NotedAt(upp, spans, k);
    assert IsSpan(upp, ns, spans[k]);
  }

  /** In a talkspurt by a single codec no packet is cut short by a change of codec. */
  lemma SingleCodec(upp: nat, ns: seq<Node<Media>>, k: nat)
    requires upp > 0 && SameCodec(ns, 0, |ns|) && k < |CutsOf(upp, ns, |ns|).spans|
    ensures !Hurried(upp, CutsOf(upp, ns, |ns|).spans, k)
  {
    CutsConserve(upp, ns, |ns|);
    var spans := CutsOf(upp, ns, |ns|).spans;
    if k > 0 {
      assert IsSpan(upp, ns, spans[k - 1]) && IsSpan(upp, ns, spans[k]);
    }
  }

  lemma {:induction false} AllUnhurried(upp: nat, spans: seq<Span>, n: nat)
    requires n <= |spans| && forall k :: 0 <= k < |spans| ==> !Hurried(upp, spans, k)
    ensures Unhurried(upp, spans, n) == spans[..n]
  {
    hide Hurried;
    if n > 0 {
      AllUnhurried(upp, spans, n - 1);
      assert spans[..n] == spans[..n - 1] + [spans[n - 1]];
    }
  }

  /** Unit `i` is there at its own time. */
  ghost predicate HeardInSome(ns: seq<Node<Media>>, spans: seq<Span>, i: nat, out: MediaBuffer)
    requires i < |ns|
  {
    exists s :: s in spans && Within(s, i) && Heard(ns, s, i, out)
  }

  lemma CoveredHeard(upp: nat, ns: seq<Node<Media>>, c: Cuts, out: MediaBuffer)
    requires SpansOk(upp, ns, c) && Delivered(ns, c.spans, |c.spans|, out)
    ensures forall i :: 0 <= i < c.open && ns[i].data != [] ==> HeardInSome(ns, c.spans, i, out)
    ensures forall u <- out :: exists i :: 0 <= i < c.open && ns[i].playout == u
  {
    hide Heard, IsSpan;
    assert c.open <= |ns|;
    forall i | 0 <= i < c.open && ns[i].data != []
      ensures HeardInSome(ns, c.spans, i, out)
    {
      assert Covered(c.spans, i);
      var s :| s in c.spans && Within(s, i);
      assert AllHeard(ns, s, out);
    }
    forall u | u in out
      ensures exists i :: 0 <= i < c.open && ns[i].playout == u
    {
      var k :| 0 <= k < |c.spans| && FromSpan(ns, c.spans[k], u);
      var i :| c.spans[k].from <= i < c.spans[k].to && ns[i].playout == u;
    }
  }

  /** A talkspurt by a single codec comes back whole: every unit but the fewer than `upp` that
      are still pending, at its own time, and nothing else. */
  lemma SingleCodecRoundTrip(cs: Codecs, upp: nat, ns: seq<Node<Media>>, s: Pending, t0: int, d: nat)
    requires upp > 0 && s.units == [] && Good(cs, ns, t0, d) && SameCodec(ns, 0, |ns|)
    ensures var (s', sent) := Run(cs, upp, s, ns, |ns|); var kept := Accepted(sent, |sent|);
            var spans, r := CutsOf(upp, ns, |ns|).spans, DecodeFirst(cs, kept, |kept|);
            && |s'.units| < upp && |s'.units| <= |ns| && r.Some?
            && (forall i :: 0 <= i < |ns| - |s'.units| ==> HeardInSome(ns, spans, i, r.value))
            && forall u <- r.value :: exists i :: 0 <= i < |ns| - |s'.units| && ns[i].playout == u
  {
    hide CutsOf, Run, Good, Delivered, DecodeFirst, Unhurried, Accepted, Hurried, SpansOk, HeardInSome;
    RoundTrip(cs, upp, ns, s, t0, d);
    RunIsCuts(cs, upp, ns, s, |ns|);
    CutsConserve(upp, ns, |ns|);
    var c := CutsOf(upp, ns, |ns|);
    forall k | 0 <= k < |c.spans|
      ensures !Hurried(upp, c.spans, k)
    {
      SingleCodec(upp, ns, k);
    }
    AllUnhurried(upp, c.spans, |c.spans|);
    assert c.spans[..|c.spans|] == c.spans;
    var kept := Accepted(Run(cs, upp, s, ns, |ns|).1, |c.spans|);
    CoveredHeard(upp, ns, c, DecodeFirst(cs, kept, |kept|).value);
  }

  /** Two units by one codec, in packets of three, and then three by another: the encoder
      makes two packets for the same time, and the second does not survive. */
  lemma CodecChangeLosesPacket(cs: Codecs)
    ensures var a, b := [Coding(1, [], [])], [Coding(2, [], [])];
            var ns := [Node(0, a), Node(1, a), Node(2, b), Node(3, b), Node(4, b)];
            var sent := Run(cs, 3, Pending(0, 0, []), ns, 5).1;
            && |sent| == 2 && sent[0].playout == 0 == sent[1].playout
            && AddAll(map[], sent, 2) == map[0 := sent[0].data]
  {
    var a, b := [Coding(1, [], [])], [Coding(2, [], [])];
    var ns := [Node(0, a), Node(1, a), Node(2, b), Node(3, b), Node(4, b)];
    var s := Pending(0, 0, []);
    var aa, bb, bbb := a + a, b + b, b + b + b;
    var p, q := Node(0, Grouped(cs, 1, aa)), Node(0, Grouped(cs, 2, bbb));
    assert [] + a == a && bb + [ns[4].data[0]] == bbb;
    assert Step(cs, 3, s, ns[0]) == (Pending(1, 0, a), []);
    assert Step(cs, 3, Pending(1, 0, a), ns[1]) == (Pending(1, 0, aa), []);
    assert Step(cs, 3, Pending(1, 0, aa), ns[2]) == (Pending(2, 0, b), [p]);
    assert Step(cs, 3, Pending(2, 0, b), ns[3]) == (Pending(2, 0, bb), []);
    var s4 := Pending(2, 0, bb);
    StepIsTwo(cs, 3, s4, ns[4]);
    assert StepFull(cs, 3, StepEarly(cs, s4, ns[4]).0, ns[4]) == (Pending(2, 0, []), [q]);
    assert [] + [q] == [q];
    assert Step(cs, 3, s4, ns[4]) == (Pending(2, 0, []), [q]);
    hide Step;
    RunNext(cs, 3, s, ns, 0, s, []);
    RunNext(cs, 3, s, ns, 1, Pending(1, 0, a), []);
    RunNext(cs, 3, s, ns, 2, Pending(1, 0, aa), []);
    RunNext(cs, 3, s, ns, 3, Pending(2, 0, b), [p]);
    RunNext(cs, 3, s, ns, 4, Pending(2, 0, bb), [p]);
    assert Run(cs, 3, s, ns, 5).1 == [p, q];
    assert AddAll(map[], [p, q], 1) == map[0 := p.data];
  }

  lemma RunNext(cs: Codecs, upp: nat, s: Pending, ns: seq<Node<Media>>, n: nat, s1: Pending, sent: seq<Node<Pdu>>)
    requires n < |ns| && Run(cs, upp, s, ns, n) == (s1, sent)
    ensures Run(cs, upp, s, ns, n + 1).0 == Step(cs, upp, s1, ns[n]).0
    ensures Step(cs, upp, s1, ns[n]).1 == [] ==> Run(cs, upp, s, ns, n + 1).1 == sent
    ensures sent == [] ==> Run(cs, upp, s, ns, n + 1).1 == Step(cs, upp, s1, ns[n]).1
    ensures Run(cs, upp, s, ns, n + 1).1 == sent + Step(cs, upp, s1, ns[n]).1
  {
    hide Step;
    var more := Step(cs, upp, s1, ns[n]).1;
    assert [] + more == more && sent + [] == sent;
  }

  // ------------------------------------------------------------------ what peek says

  /** vanilla_decoder_peek's answer: `Crash` when it runs past the end of the buffer, which an
      assertion then finds. */
  datatype Peeked = Crash | Refused | Units(n: nat)

  function PeekFrom(cs: Codecs, cid: CodecId, b: seq<byte>, done: nat, unit: nat): (r: Peeked)
    decreases |b| - done
  {
    if done > |b| then Crash
    else if done == |b| then Peeked.Units(unit)
    else
      var step := cs.peek(cid, b[done..]);
      if step == 0 then Refused else PeekFrom(cs, cid, b, done + step, unit + 1)
  }

  function Peek(cs: Codecs, pt: int, b: seq<byte>): Peeked {
    var cid := cs.byPayload(pt);
    if cid == 0 then Refused else PeekFrom(cs, cid, b, cs.stateSize(cid), 0)
  }

  lemma {:induction false} PeekCounts(cs: Codecs, cid: CodecId, b: seq<byte>, done: nat, unit: nat)
    requires done <= |b|
    ensures var frames := Frames(cs, cid, b[done..], false);
            if frames.Some? then PeekFrom(cs, cid, b, done, unit) == Peeked.Units(unit + |frames.value|)
            else !PeekFrom(cs, cid, b, done, unit).Units?
    decreases |b| - done
  {
    if done < |b| {
      var rest := b[done..];
      assert rest[0..] == rest;
      var step := cs.peek(cid, rest);
      if 0 < step <= |rest| {
        assert rest[step..] == b[done + step..];
        PeekCounts(cs, cid, b, done + step, unit + 1);
      }
    }
  }

  /** vanilla_decoder_peek announces `n > 0` units exactly when the decoder emits `n`. */
  lemma PeekIsDecode(cs: Codecs, pt: int, b: seq<byte>, n: nat)
    requires cs.byPayload(pt) != 0 && n > 0
    ensures Peek(cs, pt, b) == Peeked.Units(n) <==>
              var frames := Frames(cs, cs.byPayload(pt), b, true);
              frames.Some? && |frames.value| == n
  {
    var cid := cs.byPayload(pt);
    var s := cs.stateSize(cid);
    if b != [] && s < |b| {
      var step := cs.peek(cid, b[s..]);
      if 0 < step <= |b| - s {
        PeekCounts(cs, cid, b, s + step, 1);
      } else if step > 0 {
        assert PeekFrom(cs, cid, b, s + step, 1) == Crash;
      }
    }
  }

  /** It announces none exactly when the packet is codec state alone, on which the decoder
      would run past the end unless the codec has no state. */
  lemma PeekOfBareState(cs: Codecs, pt: int, b: seq<byte>)
    requires cs.byPayload(pt) != 0
    ensures Peek(cs, pt, b) == Peeked.Units(0) <==> |b| == cs.stateSize(cs.byPayload(pt))
    ensures Peek(cs, pt, b) == Peeked.Units(0) ==>
              (Frames(cs, cs.byPayload(pt), b, true).Some? <==> cs.stateSize(cs.byPayload(pt)) == 0)
  {
    var cid := cs.byPayload(pt);
    var s := cs.stateSize(cid);
    if s < |b| {
      var step := cs.peek(cid, b[s..]);
      if 0 < step && s + step <= |b| {
        PeekCounts(cs, cid, b, s + step, 1);
      } else if step > 0 {
        assert PeekFrom(cs, cid, b, s + step, 1) == Crash;
      }
    }
  }

  // ------------------------------------------------------------------ the code's objects

  class VanillaEncoder {
    const cs: Codecs
    var codec: CodecId
    var playout: int
    var elem: seq<Coding>

    ghost function View(): Pending
      reads this
    {
      Pending(codec, playout, elem)
    }

    constructor (cs: Codecs)
      ensures this.cs == cs && View() == Pending(0, 0, [])
    {
      this.cs, codec, playout, elem := cs, 0, 0, [];
    }

    method Reset()
      modifies this
      ensures View() == old(View()).(units := [])
    {
      elem := [];
    }

    /** vanilla_encoder_output */
    method Output(out: PlayoutBuffer<Pdu>)
      requires elem != [] && out.Valid()
      modifies this, out
      ensures out.Valid() && View() == old(View()).(units := [])
      ensures out.View() == AddAll(old(out.View()), [Node(old(playout), Grouped(cs, old(codec), old(elem)))], 1)
    {
      var chunks: seq<seq<byte>> := [];
      if elem[0].state != [] { chunks := [elem[0].state]; }
      ghost var head := chunks;
      var i := 0;
      while i < |elem|
        invariant i <= |elem| && chunks == head + Datas(elem)[..i]
      {
        chunks := chunks + [elem[i].data];
        i := i + 1;
      }
      assert Datas(elem)[..i] == Datas(elem);
      elem := [];
      var _ := out.Add(Pdu(cs.payload(codec), chunks), playout);
    }

    /** One turn of the loop of vanilla_encoder_encode. */
    method Take(n: Node<Media>, out: PlayoutBuffer<Pdu>, upp: nat)
      requires out.Valid()
      modifies this, out
      ensures out.Valid() && View() == Step(cs, upp, old(View()), n).0
      ensures var sent := Step(cs, upp, old(View()), n).1;
              out.View() == AddAll(old(out.View()), sent, |sent|)
    {
      hide PlayoutBuffer.Valid, PlayoutBuffer.View, Grouped;
      ghost var s, was := View(), out.View();
      if elem == [] {
        playout := n.playout;
        if n.data == [] { return; }
      } else if n.data == [] {
        Output(out);
        return;
      } else if n.data[0].id != codec {
        Output(out);
      }
      ghost var s1, was1 := View(), out.View();
      codec := n.data[0].id;
      elem := elem + [n.data[0]];
      if |elem| >= upp { Output(out); }
      StepIsTwo(cs, upp, s, n);
      AddAppend(was, StepEarly(cs, s, n).1, StepFull(cs, upp, s1, n).1);
    }

    /** vanilla_encoder_encode: take every unit off the input buffer. */
    method Encode(input: PlayoutBuffer<Media>, out: PlayoutBuffer<Pdu>, upp: nat)
      requires input.Valid() && out.Valid() && (input as object) != out
      modifies this, input, out
      ensures out.Valid() && input.nodes == []
      ensures var ns := old(input.nodes);
              var (s, sent) := Run(cs, upp, old(View()), ns, |ns|);
              View() == s && out.View() == AddAll(old(out.View()), sent, |sent|)
    {
      hide AddAll, Step, PlayoutBuffer.View;
      ghost var ns, s0, was := input.nodes, View(), out.View();
      NothingAdded(was);
      ghost var i := 0;
      while input.nodes != []
        invariant i <= |ns| && input.nodes == ns[i..] && input.Valid() && out.Valid()
        invariant View() == Run(cs, upp, s0, ns, i).0
        invariant var sent := Run(cs, upp, s0, ns, i).1;
                  out.View() == AddAll(was, sent, |sent|)
        decreases |ns| - i
      {
        var n := input.DetachHead();
        AddAppend(was, Run(cs, upp, s0, ns, i).1, Step(cs, upp, View(), n).1);
        Take(n, out, upp);
        i := i + 1;
      }
    }
  }

  lemma NothingAdded(out: map<int, Pdu>)
    ensures AddAll(out, [], 0) == out
  {}

  /** vanilla_decoder_output on a packet whose units are whole. */
  method DecodeUnit(cs: Codecs, p: Node<Pdu>, out: PlayoutBuffer<Media>)
    requires out.Valid() && Decode(cs, p, out.View()).Some?
    modifies out
    ensures out.Valid() && Decode(cs, p, old(out.View())) == Some(out.View())
  {
    var id := cs.byPayload(p.data.pt);
    EmitFrames(cs, id, Joined(p.data.elems), p.playout, Frames(cs, id, Joined(p.data.elems), true).value, out);
  }

  method EmitFrames(cs: Codecs, id: CodecId, b: seq<byte>, playout: int, ghost frames: seq<Coding>,
                    out: PlayoutBuffer<Media>)
    requires out.Valid() && Frames(cs, id, b, true) == Some(frames)
    modifies out
    ensures out.Valid() && out.View() == Emit(old(out.View()), frames, playout, cs.samplesPerFrame(id))
  {
    var step := cs.samplesPerFrame(id);
    var rest, first, t := b, true, playout;
    ghost var left := frames;
    hide Frames, Emit;
    while rest != []
      invariant out.Valid() && Frames(cs, id, rest, first) == Some(left)
      invariant Emit(out.View(), left, t, step) == Emit(old(out.View()), frames, playout, step)
      decreases |rest|
    {
      FirstFrame(cs, id, rest, first, left);
      EmitFirst(out.View(), left, t, step);
      var s := if first then cs.stateSize(id) else 0;
      var len := cs.peek(id, rest[s..]);
      var added := out.Add([Coding(id, rest[..s], rest[s..s + len])], t);
      if !added { return; }
      rest, first, left := rest[s + len..], false, left[1..];
      t := t + step;
    }
    NoneLeft(cs, id, first, out.View(), left, t, step);
  }

  lemma EmitFirst(out: MediaBuffer, frames: seq<Coding>, t: int, step: int)
    requires frames != []
    ensures Emit(out, frames, t, step)
              == if t in out then out else Emit(out[t := [frames[0]]], frames[1..], t + step, step)
  {}

  lemma NoneLeft(cs: Codecs, cid: CodecId, first: bool, out: MediaBuffer, frames: seq<Coding>, t: int, step: int)
    requires Frames(cs, cid, [], first) == Some(frames)
    ensures Emit(out, frames, t, step) == out
  {}

  /** vanilla_decoder_peek */
  method PeekUnits(cs: Codecs, pt: int, b: seq<byte>) returns (r: Peeked)
    ensures r == Peek(cs, pt, b)
  {
    var cid := cs.byPayload(pt);
    if cid == 0 { return Refused; }
    var done, unit := cs.stateSize(cid), 0;
    while done < |b|
      invariant PeekFrom(cs, cid, b, done, unit) == Peek(cs, pt, b)
      decreases |b| - done
    {
      var step := cs.peek(cid, b[done..]);
      if step == 0 { return Refused; }
      done, unit := done + step, unit + 1;
    }
    return if done == |b| then Peeked.Units(unit) else Crash;
  }

  lemma {:induction false} AddAppend(out: map<int, Pdu>, a: seq<Node<Pdu>>, b: seq<Node<Pdu>>)
    ensures AddAll(out, a + b, |a + b|) == AddAll(AddAll(out, a, |a|), b, |b|)
    decreases |b|
  {
    AddPrefix(out, a + b, |a|);
    if b == [] {
      assert a + b == a;
    } else {
      var b1 := b[..|b| - 1];
      AddAppend(out, a, b1);
      assert (a + b)[..|a + b1|] == a + b1;
      AddPrefix(out, a + b, |a + b1|);
      AddPrefix(AddAll(out, a, |a|), b, |b1|);
    }
  }

  lemma {:induction false} AddPrefix(out: map<int, Pdu>, sent: seq<Node<Pdu>>, n: nat)
    requires n <= |sent|
    ensures AddAll(out, sent, n) == AddAll(out, sent[..n], |sent[..n]|)
    decreases n
  {
    if n > 0 {
      AddPrefix(out, sent, n - 1);
      AddPrefix(out, sent[..n], n - 1);
      assert sent[..n][..n - 1] == sent[..n - 1];
    }
  }
}
