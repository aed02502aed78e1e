/**
  The transcoder's fake audio device (rat/auddev_trans.c): a ring buffer that is written to
  by playback and read at the pace of the clock.  Integers are unbounded.
 */
module TransRing {
  import opened Arithmetic

  const CHANNEL_SIZE := 8192
  const SILENCE: bv8 := 0

  /** The place `i` bytes after place `p`. */
  function Slot(p: nat, i: nat): (q: nat)
    ensures q < CHANNEL_SIZE
  {
    (p + i) % CHANNEL_SIZE
  }

  datatype Ring = Ring(channel: seq<bv8>, head: nat, tail: nat, avail: nat)

  predicate ValidRing(r: Ring) {
    |r.channel| == CHANNEL_SIZE && r.head < CHANNEL_SIZE && r.tail < CHANNEL_SIZE && r.avail < CHANNEL_SIZE
  }

  /** Where the buffered bytes end is where the next write begins. */
  predicate Aligned(r: Ring) {
    ValidRing(r) && Slot(r.head, r.avail) == r.tail
  }

  /** The buffered bytes, oldest first. */
  function Stored(r: Ring): (s: seq<bv8>)
    requires ValidRing(r)
    ensures |s| == r.avail
  {
    seq(r.avail, i requires 0 <= i < r.avail => r.channel[Slot(r.head, i)])
  }

  /** The stores of trans_audio_write. */
  function Fill(channel: seq<bv8>, tail: nat, data: seq<bv8>): (c: seq<bv8>)
    requires |channel| == CHANNEL_SIZE
    ensures |c| == CHANNEL_SIZE
  {
    if data == [] then channel
    else
      var n := |data| - 1;
      Fill(channel, tail, data[..n])[Slot(tail, n) := data[n]]
  }

  /** trans_audio_write */
  function Write(r: Ring, data: seq<bv8>): (r': Ring)
    requires ValidRing(r)
    ensures ValidRing(r')
  {
    var tail := Slot(r.tail, |data|);
    Ring(Fill(r.channel, r.tail, data),
         if |data| > CHANNEL_SIZE - r.avail then Slot(tail, 1) else r.head,
         tail,
         (r.avail + |data|) % CHANNEL_SIZE)
  }

  lemma {:induction false} FillAt(channel: seq<bv8>, tail: nat, data: seq<bv8>, p: nat)
    requires |channel| == CHANNEL_SIZE && tail < CHANNEL_SIZE && |data| <= CHANNEL_SIZE && p < CHANNEL_SIZE
    ensures var i := if p >= tail then p - tail else p + CHANNEL_SIZE - tail;
            Fill(channel, tail, data)[p] == if i < |data| then data[i] else channel[p]
  {
    if data != [] {
      FillAt(channel, tail, data[..|data| - 1], p);
    }
  }

  /** How far place `head + i` lies behind `tail`, when `avail` bytes lie between them. */
  lemma Distance(head: nat, avail: nat, i: nat)
    requires head < CHANNEL_SIZE && avail < CHANNEL_SIZE && i < CHANNEL_SIZE
    ensures var p, tail := Slot(head, i), Slot(head, avail);
            (if p >= tail then p - tail else p + CHANNEL_SIZE - tail)
              == if i >= avail then i - avail else CHANNEL_SIZE - avail + i
  {}

  lemma StoredAfterWrite(r: Ring, data: seq<bv8>, i: nat)
    requires Aligned(r) && r.avail + |data| < CHANNEL_SIZE && i < r.avail + |data|
    ensures Fill(r.channel, r.tail, data)[Slot(r.head, i)]
              == if i < r.avail then Stored(r)[i] else data[i - r.avail]
  {
    hide Slot;
    Distance(r.head, r.avail, i);
    FillAt(r.channel, r.tail, data, Slot(r.head, i));
    hide Fill;
  }

  /** A write appends to the byte queue exactly while the buffered and the new bytes together
      stay below CHANNEL_SIZE. */
  lemma WriteAppends(r: Ring, data: seq<bv8>)
    requires Aligned(r)
    ensures Stored(Write(r, data)) == Stored(r) + data <==> r.avail + |data| < CHANNEL_SIZE
    ensures r.avail + |data| < CHANNEL_SIZE ==> Aligned(Write(r, data))
  {
    SlotSum(r.head, r.avail, |data|);
    hide Fill, Slot;
    var r' := Write(r, data);
    if r.avail + |data| < CHANNEL_SIZE {
      forall i: nat | i < r.avail + |data|
        ensures r'.channel[Slot(r'.head, i)] == (Stored(r) + data)[i]
      {
        StoredAfterWrite(r, data, i);
      }
      StoredIs(r', Stored(r) + data);
    } else {
      assert |Stored(r')| != |Stored(r) + data|;
    }
  }

  /** Too long a write: of the buffered and the new bytes together, `all`, the ring has room for
      all but one of CHANNEL_SIZE; of the newest that fit only as many as there were too many are
      left, going round, and those are the oldest of them. */
  lemma WriteOverflows(r: Ring, data: seq<bv8>)
    requires Aligned(r) && CHANNEL_SIZE <= r.avail + |data|
    ensures var all := Stored(r) + data;
            && Stored(Write(r, data)) == all[|all| - CHANNEL_SIZE + 1..][..|all| % CHANNEL_SIZE]
            && (Aligned(Write(r, data)) <==> |all| == CHANNEL_SIZE || |all| % CHANNEL_SIZE == CHANNEL_SIZE - 1)
  {
    var all, left := Stored(r) + data, (r.avail + |data|) % CHANNEL_SIZE;
    var r' := Write(r, data);
    var tail := Slot(r.tail, |data|);
    assert r'.avail == left && left < CHANNEL_SIZE;
    if r.avail + |data| > CHANNEL_SIZE {
      forall i: nat | i < left
        ensures r'.channel[Slot(r'.head, i)] == all[|all| - CHANNEL_SIZE + 1 + i]
      {
        OverflowAt(r, data, i);
      }
      hide Fill, Slot, Write;
      StoredIs(r', all[|all| - CHANNEL_SIZE + 1..][..left]);
      NextSlot(tail, left);
    } else {
      AllRound(r.head, r.avail, |data|);
    }
  }

  lemma NextSlot(tail: nat, n: nat)
    requires tail < CHANNEL_SIZE && n < CHANNEL_SIZE
    ensures Slot(Slot(tail, 1), n) == tail <==> n == CHANNEL_SIZE - 1
  {}

  lemma OverflowAt(r: Ring, data: seq<bv8>, i: nat)
    requires Aligned(r) && CHANNEL_SIZE < r.avail + |data| && i < CHANNEL_SIZE - 1
    ensures var p := Slot(Slot(Slot(r.tail, |data|), 1), i); var all := Stored(r) + data;
            Fill(r.channel, r.tail, data)[p] == all[|all| - CHANNEL_SIZE + 1 + i]
  {
    hide Slot, Fill;
    var p := Slot(Slot(Slot(r.tail, |data|), 1), i);
    SlotSum(r.tail, |data|, 1);
    SlotSum(r.tail, |data| + 1, i);
    if |data| <= CHANNEL_SIZE {
      var k := |data| + 1 + i;
      FillAt(r.channel, r.tail, data, p);
      HowFar(r.tail, k);
      if k < CHANNEL_SIZE {
        AllRound(r.head, r.avail, k);
        StoredAt(r, r.avail + k - CHANNEL_SIZE);
      }
    } else {
      LongFillAt(r.channel, r.tail, data, i);
    }
  }

  /** A write longer than the ring leaves its newest bytes. */
  lemma LongFillAt(channel: seq<bv8>, tail: nat, data: seq<bv8>, i: nat)
    requires |channel| == CHANNEL_SIZE && tail < CHANNEL_SIZE && CHANNEL_SIZE < |data| && i < CHANNEL_SIZE - 1
    ensures Fill(channel, tail, data)[Slot(tail, |data| + 1 + i)] == data[|data| - CHANNEL_SIZE + 1 + i]
  {
    hide Slot, Fill;
    var n := |data| - CHANNEL_SIZE;
    var before, tail1 := Fill(channel, tail, data[..n]), Slot(tail, n);
    FillTwice(channel, tail, data[..n], data[n..]);
    assert data[..n] + data[n..] == data;
    SlotSum(tail, n, CHANNEL_SIZE + 1 + i);
    FillAt(before, tail1, data[n..], Slot(tail, |data| + 1 + i));
    HowFar(tail1, CHANNEL_SIZE + 1 + i);
  }

  lemma {:induction false} FillTwice(channel: seq<bv8>, tail: nat, a: seq<bv8>, b: seq<bv8>)
    requires |channel| == CHANNEL_SIZE
    ensures Fill(channel, tail, a + b) == Fill(Fill(channel, tail, a), Slot(tail, |a|), b)
    decreases |b|
  {
    if b == [] {
      assert a + b == a;
    } else {
      var n := |b| - 1;
      assert (a + b)[..|a| + n] == a + b[..n] && (a + b)[|a| + n] == b[n];
      FillTwice(channel, tail, a, b[..n]);
      SlotSum(tail, |a|, n);
      hide Slot;
    }
  }

  lemma StoredAt(r: Ring, i: nat)
    requires ValidRing(r) && i < r.avail
    ensures Stored(r)[i] == r.channel[Slot(r.head, i)]
  {}

  /** How far place `tail + k` lies behind `tail`, going round at most once. */
  lemma HowFar(tail: nat, k: nat)
    requires tail < CHANNEL_SIZE && k < 2 * CHANNEL_SIZE
    ensures var p := Slot(tail, k);
            (if p >= tail then p - tail else p + CHANNEL_SIZE - tail)
              == if k < CHANNEL_SIZE then k else k - CHANNEL_SIZE
  {}

  lemma AllRound(head: nat, avail: nat, k: nat)
    requires head < CHANNEL_SIZE && avail < CHANNEL_SIZE && k <= CHANNEL_SIZE <= avail + k
    ensures Slot(Slot(head, avail), k) == Slot(head, avail + k - CHANNEL_SIZE)
  {}

  lemma SlotSum(p: nat, a: nat, b: nat)
    ensures Slot(p, a + b) == Slot(Slot(p, a), b)
  {}

  lemma StoredIs(r: Ring, s: seq<bv8>)
    requires ValidRing(r) && |s| == r.avail
    requires forall i: nat :: i < |s| ==> r.channel[Slot(r.head, i)] == s[i]
    ensures Stored(r) == s
  {}

  // ------------------------------------------------------------------------ clock

  /** struct timeval */
  datatype Time = Time(sec: int, usec: nat)

  predicate Proper(t: Time) { t.usec < 1000000 }

  predicate NotLater(a: Time, b: Time) { a.sec < b.sec || (a.sec == b.sec && a.usec <= b.usec) }

  /** Division that truncates toward zero. */
  function Quotient(a: int, b: int): int
    requires b > 0
  {
    if a >= 0 then a / b else -((-a) / b)
  }

  /** time_diff_to_bytes, for a format of `perMs` bytes a millisecond. */
  function Elapsed(start: Time, end: Time, perMs: nat): int {
    ((end.sec - start.sec) * 1000 + Quotient(end.usec - start.usec, 1000)) * perMs
  }

  /** The time from `start` to `end`, in microseconds. */
  function Micros(start: Time, end: Time): int {
    (end.sec - start.sec) * 1000000 + (end.usec - start.usec)
  }

  /** `n` is that time in milliseconds, rounded down or up as the microseconds go on or back. */
  predicate IsMillis(n: int, start: Time, end: Time) {
    if start.usec <= end.usec then 0 <= Micros(start, end) - 1000 * n < 1000
    else -1000 < Micros(start, end) - 1000 * n <= 0
  }

  /** The bytes due are those of so many whole milliseconds. */
  lemma ElapsedMeans(start: Time, end: Time, perMs: nat)
    ensures exists n :: IsMillis(n, start, end) && Elapsed(start, end, perMs) == n * perMs
  {
    assert IsMillis((end.sec - start.sec) * 1000 + Quotient(end.usec - start.usec, 1000), start, end);
  }

  /** And there is only one such number; if the time is a whole number of milliseconds it is that. */
  lemma MillisUnique(n: int, k: int, start: Time, end: Time)
    requires IsMillis(n, start, end)
    ensures IsMillis(k, start, end) ==> k == n
    ensures Micros(start, end) % 1000 == 0 ==> 1000 * n == Micros(start, end)
  {}

  lemma ElapsedGrows(start: Time, a: Time, b: Time, perMs: nat)
    requires Proper(start) && Proper(a) && Proper(b) && NotLater(a, b)
    ensures Elapsed(start, a, perMs) <= Elapsed(start, b, perMs)
  {
    MulMonotone((a.sec - start.sec) * 1000 + Quotient(a.usec - start.usec, 1000),
                (b.sec - start.sec) * 1000 + Quotient(b.usec - start.usec, 1000), perMs);
  }

  // ----------------------------------------------------------------------- device

  datatype Format = Format(perMs: nat, block: nat)

  datatype Device = Device(ring: Ring, last: int, leftover: int, virgin: bool, start: Time)

  predicate ValidDevice(d: Device) {
    ValidRing(d.ring) && d.leftover >= 0
  }

  /** What the first read after a reset does before anything else. */
  function FirstRead(d: Device, now: Time): Device {
    d.(ring := d.ring.(avail := 0), last := 0, leftover := 0, virgin := false, start := now)
  }

  /** How many bytes a read returns, and what is left of the time that has passed. */
  function Due(f: Format, d: Device, want: nat, now: Time): (nat, int)
    requires ValidDevice(d)
  {
    var size := Elapsed(d.start, now, f.perMs) - d.last;
    if size + d.leftover < f.block then (0, d.leftover)
    else if want > size + d.leftover then (size + d.leftover, 0)
    else (want, d.leftover + size - want)
  }

  function Silence(n: nat): seq<bv8> { seq(n, _ => SILENCE) }

  /** How many of `size` bytes come from the ring. */
  function Copied(r: Ring, size: nat): nat {
    if r.avail >= size then size else r.avail
  }

  function TakeOff(r: Ring, n: nat): (r': Ring)
    requires ValidRing(r) && n <= r.avail
    ensures ValidRing(r')
  {
    r.(head := Slot(r.head, n), avail := r.avail - n)
  }

  /** trans_audio_read; the clock says `t0` when a first read starts it, then `t1`. */
  function Read(f: Format, d: Device, want: nat, t0: Time, t1: Time): (r: (Device, seq<bv8>))
    requires ValidDevice(d)
    ensures ValidDevice(r.0) && |r.1| <= want
  {
    var d1 := if d.virgin then FirstRead(d, t0) else d;
    var current := Elapsed(d1.start, t1, f.perMs);
    if current - d1.last + d1.leftover < f.block then (d1, [])
    else
      var (size, left) := Due(f, d1, want, t1);
      var k := Copied(d1.ring, size);
      (d1.(ring := TakeOff(d1.ring, k), last := current, leftover := left),
       Stored(d1.ring)[..k] + Silence(size - k))
  }

  function Drain(d: Device): Device {
    d.(ring := d.ring.(head := 0, tail := 0, avail := 0), leftover := 0, virgin := true)
  }

  lemma TakesOff(r: Ring, n: nat)
    requires Aligned(r) && n <= r.avail
    ensures Aligned(TakeOff(r, n)) && Stored(TakeOff(r, n)) == Stored(r)[n..]
  {
    SlotSum(r.head, n, r.avail - n);
    hide Slot;
    forall i: nat | i < r.avail - n
      ensures r.channel[Slot(Slot(r.head, n), i)] == Stored(r)[n..][i]
    {
      SlotSum(r.head, n, i);
    }
    StoredIs(TakeOff(r, n), Stored(r)[n..]);
  }

  /** The first read after a reset forgets how much is buffered but not where: the ring stays
      in step exactly when nothing had been written yet. */
  lemma FirstReadKeeps(d: Device, now: Time)
    requires Aligned(d.ring)
    ensures Aligned(FirstRead(d, now).ring) <==> d.ring.avail == 0
    ensures Stored(FirstRead(d, now).ring) == Stored(d.ring) <==> d.ring.avail == 0
  {
    Distance(d.ring.head, d.ring.avail, 0);
    assert |Stored(d.ring)| == d.ring.avail;
  }

  // ------------------------------------------------------------------------- runs

  datatype Op = Put(data: seq<bv8>) | Get(want: nat, t0: Time, t1: Time) | Flush

  /** The device, and since the last reset: all that was written, all that was read before any
      silence, how many bytes reads have returned, when the first read began and when the last
      one ended that changed how many bytes are returned or left over. */
  datatype Log = Log(d: Device, written: seq<bv8>, heard: seq<bv8>, returned: nat, from: Time, upto: Time)

  function Apply(f: Format, l: Log, op: Op): (l': Log)
    requires ValidDevice(l.d)
    ensures ValidDevice(l'.d)
  {
    match op
    case Put(data) => l.(d := l.d.(ring := Write(l.d.ring, data)), written := l.written + data)
    case Get(want, t0, t1) =>
      var (d, bytes) := Read(f, l.d, want, t0, t1);
      var k := Copied(if l.d.virgin then l.d.ring.(avail := 0) else l.d.ring, |bytes|);
      var (returned, leftover) := if l.d.virgin then (0, 0) else (l.returned, l.d.leftover);
      var (from, upto) := if l.d.virgin then (t0, t0) else (l.from, l.upto);
      Log(d, l.written, l.heard + bytes[..k], returned + |bytes|, from,
          if bytes == [] && d.leftover == leftover then upto else t1)
    case Flush => Log(Drain(l.d), [], [], 0, l.from, l.upto)
  }

  function Run(f: Format, l: Log, ops: seq<Op>): (l': Log)
    requires ValidDevice(l.d)
    ensures ValidDevice(l'.d)
  {
    if ops == [] then l else Apply(f, Run(f, l, ops[..|ops| - 1]), ops[|ops| - 1])
  }

  /** A write leaves room for one byte; a first read finds nothing buffered. */
  predicate Harmless(d: Device, op: Op) {
    match op
    case Put(data) => d.ring.avail + |data| < CHANNEL_SIZE
    case Get(_, _, _) => d.virgin ==> d.ring.avail == 0
    case Flush => true
  }

  ghost predicate InStep(l: Log) {
    && Aligned(l.d.ring) && l.d.leftover >= 0
    && l.heard + Stored(l.d.ring) == l.written
    && (!l.d.virgin ==> l.returned + l.d.leftover == l.d.last)
  }

  lemma PutKeeps(f: Format, l: Log, data: seq<bv8>)
    requires InStep(l) && Harmless(l.d, Put(data))
    ensures InStep(Apply(f, l, Put(data)))
  {
    WriteAppends(l.d.ring, data);
    assert l.heard + (Stored(l.d.ring) + data) == l.heard + Stored(l.d.ring) + data;
    hide Stored, Write, Aligned;
  }

  /** What a read does to the ring and to the account of bytes. */
  lemma ReadIs(f: Format, d: Device, want: nat, t0: Time, t1: Time)
    requires ValidDevice(d) && Harmless(d, Get(want, t0, t1))
    ensures var (d', bytes) := Read(f, d, want, t0, t1);
            var k := Copied(d.ring, |bytes|);
            && d'.ring == TakeOff(d.ring, k) && bytes == Stored(d.ring)[..k] + Silence(|bytes| - k)
            && !d'.virgin && d'.leftover >= 0
            && |bytes| + d'.leftover - d'.last == if d.virgin then 0 else d.leftover - d.last
  {
    NothingOff(d.ring);
    hide Elapsed, Slot, TakeOff;
    var d1 := if d.virgin then FirstRead(d, t0) else d;
    assert d1.ring == d.ring;
    var (size, left) := Due(f, d1, want, t1);
    var k := Copied(d1.ring, size);
    assert |Stored(d1.ring)[..k] + Silence(size - k)| == size;
  }

  lemma GetKeeps(f: Format, l: Log, want: nat, t0: Time, t1: Time)
    requires InStep(l) && Harmless(l.d, Get(want, t0, t1))
    ensures InStep(Apply(f, l, Get(want, t0, t1)))
  {
    var r := l.d.ring;
    ReadIs(f, l.d, want, t0, t1);
    assert (if l.d.virgin then r.(avail := 0) else r) == r;
    hide Read;
    var bytes := Read(f, l.d, want, t0, t1).1;
    var k := Copied(r, |bytes|);
    TakesOff(r, k);
    hide Stored, Aligned, TakeOff, Copied;
    assert Stored(r) == Stored(r)[..k] + Stored(r)[k..];
    assert l.heard + (Stored(r)[..k] + Stored(r)[k..]) == l.heard + bytes[..k] + Stored(r)[k..];
  }

  lemma NothingOff(r: Ring)
    requires ValidRing(r)
    ensures TakeOff(r, 0) == r
  {}

  /** Over any run whose operations are harmless the ring is a queue: what was heard and what
      is buffered is what was written, in order; and the bytes returned, with those left over,
      are the bytes for which time has passed. */
  lemma {:induction false} QueueAndClock(f: Format, l: Log, ops: seq<Op>)
    requires ValidDevice(l.d) && InStep(l)
    requires forall i :: 0 <= i < |ops| ==> Harmless(Run(f, l, ops[..i]).d, ops[i])
    ensures InStep(Run(f, l, ops))
  {
    if ops != [] {
      var n := |ops| - 1;
      forall i | 0 <= i < n
        ensures Harmless(Run(f, l, ops[..n][..i]).d, ops[..n][i])
      {
        assert ops[..n][..i] == ops[..i];
      }
      QueueAndClock(f, l, ops[..n]);
      var l1, op := Run(f, l, ops[..n]), ops[n];
      assert Harmless(l1.d, op);
      hide InStep, Harmless;
      match op {
        case Put(data) => PutKeeps(f, l1, data);
        case Get(want, t0, t1) => GetKeeps(f, l1, want, t0, t1);
        case Flush => FlushKeeps(f, l1);
      }
    }
  }

  lemma FlushKeeps(f: Format, l: Log)
    requires ValidDevice(l.d)
    ensures InStep(Apply(f, l, Flush))
  {}

  /** A device just opened. */
  function Opened(): (l: Log)
    ensures ValidDevice(l.d)
  {
    Log(Device(Ring(seq(CHANNEL_SIZE, _ => SILENCE), 0, 0, 0), 0, 0, true, Time(0, 0)), [], [], 0,
        Time(0, 0), Time(0, 0))
  }

  lemma FirstReadAfter(f: Format, d: Device, want: nat, t0: Time, t1: Time)
    requires ValidDevice(d) && d.virgin
    ensures var (d', bytes) := Read(f, d, want, t0, t1);
            d'.ring == d.ring.(avail := 0) && bytes == Silence(|bytes|)
  {
    NothingOff(d.ring.(avail := 0));
    hide Elapsed, TakeOff, Slot;
  }

  // ------------------------------------------------------------------------- the clock

  ghost predicate Clocked(f: Format, l: Log) {
    && ValidDevice(l.d)
    && (!l.d.virgin ==>
          l.d.start == l.from && l.d.last == Elapsed(l.from, l.upto, f.perMs) && l.returned + l.d.leftover == l.d.last)
  }

  /** The bytes for which time has passed since the first read and that no read has returned. */
  function BytesDue(f: Format, l: Log, t0: Time, t1: Time): int {
    if l.d.virgin then Elapsed(t0, t1, f.perMs) else Elapsed(l.from, t1, f.perMs) - l.returned
  }

  /** A read returns what is due, as far as it is wanted, and leaves the rest over; but nothing
      as long as less than a block is due. */
  lemma ReadServes(f: Format, l: Log, want: nat, t0: Time, t1: Time)
    requires Clocked(f, l)
    ensures var l' := Apply(f, l, Get(want, t0, t1)); var due := BytesDue(f, l, t0, t1);
            var (returned, leftover) := if l.d.virgin then (0, 0) else (l.returned, l.d.leftover);
            if due < f.block then l'.returned == returned && l'.d.leftover == leftover
            else
              && l'.returned - returned == (if want < due then want else due)
              && l'.d.leftover == due - (l'.returned - returned)
    ensures Clocked(f, Apply(f, l, Get(want, t0, t1)))
  {
    hide Elapsed, Slot, Stored;
    NoTime(t0, f.perMs);
  }

  lemma NoTime(t: Time, perMs: nat)
    ensures Elapsed(t, t, perMs) == 0
  {}

  lemma {:induction false} RunClocked(f: Format, l: Log, ops: seq<Op>)
    requires Clocked(f, l)
    ensures Clocked(f, Run(f, l, ops))
  {
    if ops != [] {
      RunClocked(f, l, ops[..|ops| - 1]);
      var l1 := Run(f, l, ops[..|ops| - 1]);
      match ops[|ops| - 1] {
        case Put(data) => hide Write;
        case Get(want, t0, t1) => ReadServes(f, l1, want, t0, t1);
        case Flush =>
      }
    }
  }

  /** Over any run, harmless or not, the bytes returned since the reset and those left over are
      the bytes of the time from the first read to the last that was served. */
  lemma ReturnedIsTime(f: Format, l: Log, ops: seq<Op>)
    requires Clocked(f, l)
    ensures var l' := Run(f, l, ops);
            !l'.d.virgin ==>
              exists n :: IsMillis(n, l'.from, l'.upto) && l'.returned + l'.d.leftover == n * f.perMs
  {
    RunClocked(f, l, ops);
    var l' := Run(f, l, ops);
    ElapsedMeans(l'.from, l'.upto, f.perMs);
  }

  // ---------------------------------------------- playback that begins before the first read

  /** The ring as it would be had the `n` bytes behind the buffered ones not been forgotten. */
  function Whole(r: Ring, n: nat): Ring {
    r.(avail := r.avail + n)
  }

  /** The tail is `n` bytes too far ahead, and reads lag behind writes by the last `n` bytes. */
  ghost predicate Lagging(l: Log, n: nat) {
    && ValidDevice(l.d) && !l.d.virgin
    && Aligned(Whole(l.d.ring, n))
    && l.heard + Stored(Whole(l.d.ring, n)) == l.written
  }

  lemma WholeStored(r: Ring, n: nat)
    requires ValidRing(Whole(r, n))
    ensures ValidRing(r) && Stored(r) == Stored(Whole(r, n))[..r.avail]
  {}

  /** What it means: the bytes heard and buffered are those written but the last `n`, and head
      and tail do not fit unless `n` is 0. */
  lemma LagMeans(l: Log, n: nat)
    requires Lagging(l, n)
    ensures n <= |l.written| && l.heard + Stored(l.d.ring) == l.written[..|l.written| - n]
    ensures Aligned(l.d.ring) <==> n == 0
  {
    var r := l.d.ring;
    WholeStored(r, n);
    Distance(r.head, r.avail + n, r.avail);
    hide Stored, Slot;
    var whole := Stored(Whole(r, n));
    assert (l.heard + whole)[..|l.heard| + r.avail] == l.heard + whole[..r.avail];
  }

  lemma FirstReadLags(f: Format, l: Log, want: nat, t0: Time, t1: Time)
    requires InStep(l) && l.d.virgin
    ensures Lagging(Apply(f, l, Get(want, t0, t1)), l.d.ring.avail)
  {
    FirstReadAfter(f, l.d, want, t0, t1);
    hide Read, Stored, Aligned;
    var l' := Apply(f, l, Get(want, t0, t1));
    assert l'.heard == l.heard;
    assert Whole(l'.d.ring, l.d.ring.avail) == l.d.ring;
  }

  /** Writes that leave room for one byte behind the forgotten ones, and all reads. */
  predicate Fits(d: Device, n: nat, op: Op) {
    match op
    case Put(data) => d.ring.avail + n + |data| < CHANNEL_SIZE
    case Get(_, _, _) => true
    case Flush => false
  }

  lemma PutLags(f: Format, l: Log, n: nat, data: seq<bv8>)
    requires Lagging(l, n) && Fits(l.d, n, Put(data))
    ensures Lagging(Apply(f, l, Put(data)), n)
  {
    var r := l.d.ring;
    WriteAppends(Whole(r, n), data);
    assert Write(Whole(r, n), data) == Whole(Write(r, data), n);
    hide Stored, Write, Aligned, Slot;
    assert l.heard + (Stored(Whole(r, n)) + data) == l.heard + Stored(Whole(r, n)) + data;
  }

  lemma GetLags(f: Format, l: Log, n: nat, want: nat, t0: Time, t1: Time)
    requires Lagging(l, n)
    ensures Lagging(Apply(f, l, Get(want, t0, t1)), n)
  {
    var r := l.d.ring;
    ReadIs(f, l.d, want, t0, t1);
    hide Read;
    var bytes := Read(f, l.d, want, t0, t1).1;
    var k := Copied(r, |bytes|);
    TakesOff(Whole(r, n), k);
    assert TakeOff(Whole(r, n), k) == Whole(TakeOff(r, k), n);
    WholeStored(r, n);
    hide Stored, Aligned, TakeOff, Copied, Slot, Elapsed, FirstRead, Silence;
    TakenInTwo(l.heard, Stored(Whole(r, n)), r.avail, k);
  }

  lemma TakenInTwo(heard: seq<bv8>, s: seq<bv8>, n: nat, k: nat)
    requires k <= n <= |s|
    ensures s[..n][..k] == s[..k] && heard + s == heard + s[..k] + s[k..]
  {
    assert s == s[..k] + s[k..];
    assert heard + (s[..k] + s[k..]) == heard + s[..k] + s[k..];
  }

  lemma {:induction false} LagKept(f: Format, l: Log, n: nat, ops: seq<Op>)
    requires Lagging(l, n)
    requires forall i :: 0 <= i < |ops| ==> Fits(Run(f, l, ops[..i]).d, n, ops[i])
    ensures Lagging(Run(f, l, ops), n)
  {
    if ops != [] {
      var m := |ops| - 1;
      forall i | 0 <= i < m
        ensures Fits(Run(f, l, ops[..m][..i]).d, n, ops[..m][i])
      {
        assert ops[..m][..i] == ops[..i];
      }
      LagKept(f, l, n, ops[..m]);
      var l1 := Run(f, l, ops[..m]);
      assert Fits(l1.d, n, ops[m]);
      hide Lagging;
      match ops[m] {
        case Put(data) => PutLags(f, l1, n, data);
        case Get(want, t0, t1) => GetLags(f, l1, n, want, t0, t1);
      }
    }
  }

  /** What befalls playback that begins before the first read: after that read, and until the
      device is drained, whatever is written and read, what has been heard and what is buffered
      is what was written but the last `n` bytes, where `n` were written before the read; and
      head and tail do not fit. */
  lemma LateForEver(f: Format, l: Log, want: nat, t0: Time, t1: Time, ops: seq<Op>)
    requires InStep(l) && l.d.virgin
    requires var l1 := Apply(f, l, Get(want, t0, t1));
             forall i :: 0 <= i < |ops| ==> Fits(Run(f, l1, ops[..i]).d, l.d.ring.avail, ops[i])
    ensures var l' := Run(f, Apply(f, l, Get(want, t0, t1)), ops); var n := l.d.ring.avail;
            && n <= |l'.written| && l'.heard + Stored(l'.d.ring) == l'.written[..|l'.written| - n]
            && (Aligned(l'.d.ring) <==> n == 0)
  {
    hide Apply, Run, Fits, Stored, Lagging;
    FirstReadLags(f, l, want, t0, t1);
    LagKept(f, Apply(f, l, Get(want, t0, t1)), l.d.ring.avail, ops);
    LagMeans(Run(f, Apply(f, l, Get(want, t0, t1)), ops), l.d.ring.avail);
  }

  lemma OpenedInStep()
    ensures InStep(Opened()) && Opened().d.virgin
    ensures forall f :: Clocked(f, Opened())
  {}

  /** A device just opened, written to, read, and written to again. */
  lemma LateAtOnce(f: Format, a: seq<bv8>, b: seq<bv8>, want: nat, t0: Time, t1: Time)
    requires |a| + |b| < CHANNEL_SIZE
    ensures var l := Apply(f, Apply(f, Apply(f, Opened(), Put(a)), Get(want, t0, t1)), Put(b));
            && Stored(l.d.ring) == (a + b)[..|b|]
            && (Aligned(l.d.ring) <==> a == [])
  {
    hide Read, Stored, Aligned, Write, InStep, Lagging;
    OpenedInStep();
    var l := Apply(f, Opened(), Put(a));
    PutKeeps(f, Opened(), a);
    FirstReadLags(f, l, want, t0, t1);
    FirstReadAfter(f, l.d, want, t0, t1);
    var l1 := Apply(f, l, Get(want, t0, t1));
    Opens(a);
    PutLags(f, l1, |a|, b);
    var l2 := Apply(f, l1, Put(b));
    LagMeans(l2, |a|);
    assert l2.heard == [] && l2.written == a + b;
    assert [] + Stored(l2.d.ring) == Stored(l2.d.ring);
  }

  lemma Opens(a: seq<bv8>)
    requires |a| < CHANNEL_SIZE
    ensures Write(Opened().d.ring, a).avail == |a|
  {
    hide Fill;
  }

  /** Written 1, read, written 2: the next byte read is 1 again. */
  lemma OneByteLate(f: Format, t0: Time, t1: Time)
    ensures var l := Apply(f, Apply(f, Apply(f, Opened(), Put([1])), Get(1, t0, t1)), Put([2]));
            Stored(l.d.ring) == [1] && !Aligned(l.d.ring)
  {
    hide Apply, Stored, Aligned;
    LateAtOnce(f, [1], [2], 1, t0, t1);
    var a, b: seq<bv8> := [1], [2];
    assert (a + b)[..|b|] == [1];
  }
}

/** The device as the object that the code updates. */
module TransDevices {
  import opened TransRing

  class TransDevice {
    const format: Format
    const channel: array<bv8>
    var head: nat
    var tail: nat
    var avail: nat
    var last: int
    var leftover: int
    var virgin: bool
    var start: Time

    ghost function View(): Device
      reads this, channel
    {
      Device(Ring(channel[..], head, tail, avail), last, leftover, virgin, start)
    }

    /** trans_audio_open_dev */
    constructor (format: Format)
      ensures fresh(channel) && ValidDevice(View()) && InStep(Log(View(), [], [], 0, Time(0, 0), Time(0, 0)))
      ensures this.format == format && virgin
    {
      this.format := format;
      channel := new bv8[CHANNEL_SIZE](_ => SILENCE);
      head, tail, avail, last, leftover, virgin, start := 0, 0, 0, 0, 0, true, Time(0, 0);
    }

    method Drain()
      modifies this
      ensures View() == TransRing.Drain(old(View()))
    {
      virgin, leftover, head, tail, avail := true, 0, 0, 0, 0;
    }

    /** trans_audio_write */
    method Write(data: seq<bv8>)
      requires ValidDevice(View())
      modifies this, channel
      ensures View() == old(View()).(ring := TransRing.Write(old(View()).ring, data))
    {
      hide Fill;
      Store(data);
      tail := (tail + |data|) % CHANNEL_SIZE;
      if |data| > CHANNEL_SIZE - avail { head := (tail + 1) % CHANNEL_SIZE; }
      avail := (avail + |data|) % CHANNEL_SIZE;
    }

    /** The loop that stores the bytes. */
    method Store(data: seq<bv8>)
      requires channel.Length == CHANNEL_SIZE
      modifies channel
      ensures channel[..] == Fill(old(channel[..]), tail, data)
    {
      var i := 0;
      while i < |data|
        invariant i <= |data| && channel[..] == Fill(old(channel[..]), tail, data[..i])
      {
        assert data[..i + 1][..i] == data[..i];
        channel[(tail + i) % CHANNEL_SIZE] := data[i];
        i := i + 1;
      }
      assert data[..i] == data;
    }

    /** trans_audio_read */
    method Read(want: nat, t0: Time, t1: Time) returns (bytes: seq<bv8>)
      requires ValidDevice(View())
      modifies this
      ensures (View(), bytes) == TransRing.Read(format, old(View()), want, t0, t1)
    {
      if virgin {
        start, avail, last, leftover, virgin := t0, 0, 0, 0, false;
      }
      ghost var d1 := View();
      var current := Elapsed(start, t1, format.perMs);
      var size := current - last;
      if size + leftover < format.block { return []; }
      last := current;
      if want > size + leftover {
        size, leftover := size + leftover, 0;
      } else {
        size, leftover := want, leftover + size - want;
      }
      hide Elapsed, Slot, Stored;
      bytes := Copy(if avail >= size then size else avail, size);
    }

    /** The loops that fill the caller's buffer. */
    method Copy(copy: nat, size: nat) returns (bytes: seq<bv8>)
      requires ValidDevice(View()) && copy == Copied(View().ring, size)
      modifies this
      ensures bytes == Stored(old(View()).ring)[..copy] + Silence(size - copy)
      ensures View() == old(View()).(ring := TakeOff(old(View()).ring, copy))
    {
      ghost var s := Stored(View().ring);
      bytes := [];
      while |bytes| < copy
        invariant |bytes| <= copy && bytes == s[..|bytes|]
      {
        bytes := bytes + [channel[(head + |bytes|) % CHANNEL_SIZE]];
      }
      while |bytes| < size
        invariant copy <= |bytes| <= size && bytes == s[..copy] + Silence(|bytes| - copy)
      {
        assert Silence(|bytes| + 1 - copy) == Silence(|bytes| - copy) + [SILENCE];
        bytes := bytes + [SILENCE];
      }
      head := (head + copy) % CHANNEL_SIZE;
      avail := avail - copy;
    }
  }
}
