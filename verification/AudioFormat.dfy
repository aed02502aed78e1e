/**
  Conversion between audio formats (rat/audio_fmt.c).  Samples of sixteen bits are two bytes,
  low byte first; the mu-law and A-law tables are parameters.
 */
module AudioFormats {
  import opened ByteValues

  datatype Encoding = PCMU | PCMA | S8 | U8 | S16

  datatype Format = Format(encoding: Encoding, channels: nat)

  predicate ValidFormat(f: Format) { f.channels == 1 || f.channels == 2 }

  type Sample = x: int | -0x8000 <= x < 0x8000

  datatype Tables = Tables(u2s: byte -> Sample, s2u: Sample -> byte, a2s: byte -> Sample, s2a: Sample -> byte)

  /** bits_per_sample / 8 */
  function Width(e: Encoding): (w: nat)
    ensures w == 1 || w == 2
  {
    if e == S16 then 2 else 1
  }

  function FrameSize(f: Format): nat { Width(f.encoding) * f.channels }

  // --------------------------------------------------------------------- samples

  /** The value of `x` in two's complement of sixteen bits, and of eight. */
  function ToSample(x: int): Sample { (x + 0x8000) % 0x1_0000 - 0x8000 }

  function ToByte(x: int): byte { x % 0x100 }

  function Load(lo: byte, hi: byte): Sample { ToSample(lo + 0x100 * hi) }

  function Store(x: Sample): (s: seq<byte>)
    ensures |s| == 2
  {
    [ToByte(x), ToByte(x / 0x100)]
  }

  lemma LoadStore(x: Sample)
    ensures Load(Store(x)[0], Store(x)[1]) == x
  {
    var lo, hi := ToByte(x), ToByte(x / 0x100);
    assert (lo as int) + 0x100 * (hi as int) == if x >= 0 then x as int else x as int + 0x1_0000;
  }

  /** Division by two that truncates toward zero. */
  function Half(x: int): int { if x >= 0 then x / 2 else -((-x) / 2) }

  /** One sample in the encoding `e`, as a sample of sixteen bits. */
  function Wide(t: Tables, e: Encoding, s: seq<byte>): Sample
    requires |s| == Width(e)
  {
    var b: int := s[0];
    match e
    case S16 => Load(s[0], s[1])
    case PCMU => t.u2s(s[0])
    case PCMA => t.a2s(s[0])
    case S8 => ToSample(b * 0x100)
    case U8 => ToSample((b - 128) * 0x100)
  }

  /** A sample of sixteen bits in the encoding `e`. */
  function Narrow(t: Tables, e: Encoding, x: Sample): (s: seq<byte>)
    ensures |s| == Width(e)
  {
    match e
    case S16 => Store(x)
    case PCMU => [t.s2u(x)]
    case PCMA => [t.s2a(x)]
    case S8 => [ToByte(x / 0x100)]
    case U8 => [ToByte(x / 0x100 + 128)]
  }

  /** The body of each loop of convert_buffer_sample_type, for two different encodings. */
  function Recode(t: Tables, from: Encoding, to: Encoding, s: seq<byte>): (r: seq<byte>)
    requires |s| == Width(from)
    ensures |r| == Width(to)
  {
    var b: int := s[0];
    match (from, to)
    case (S8, U8) => [ToByte(b + 128)]
    case (U8, S8) => [ToByte(b - 128)]
    case _ => Narrow(t, to, Wide(t, from, s))
  }

  /** All conversions go through sixteen bits; the short cuts between the two linear
      encodings of eight bits are no exception. */
  lemma RecodeIsNarrowWide(t: Tables, from: Encoding, to: Encoding, s: seq<byte>)
    requires |s| == Width(from)
    ensures Recode(t, from, to, s) == Narrow(t, to, Wide(t, from, s))
  {
    hide Load, Store, ToSample, ToByte;
    TopByte(s[0]);
  }

  lemma TopByte(b: byte)
    ensures ToByte(ToSample(b as int * 0x100) / 0x100 + 128) == ToByte(b as int + 128)
    ensures ToByte(ToSample((b as int - 128) * 0x100) / 0x100) == ToByte(b as int - 128)
  {
    if b < 128 {
      assert ToSample(b as int * 0x100) == b as int * 0x100;
    } else {
      assert ToSample(b as int * 0x100) == (b as int - 256) * 0x100;
    }
    assert ToSample((b as int - 128) * 0x100) == (b as int - 128) * 0x100;
  }

  /** Two samples of eight or sixteen bits averaged, as the encoding has it. */
  function Mean(t: Tables, e: Encoding, l: seq<byte>, r: seq<byte>): (s: seq<byte>)
    requires |l| == |r| == Width(e)
    ensures |s| == Width(e)
  {
    match e
    case S16 => Store(Half(Load(l[0], l[1]) + Load(r[0], r[1])))
    case PCMU => [t.s2u(Half(t.u2s(l[0]) + t.u2s(r[0])))]
    case PCMA => [t.s2a(Half(t.a2s(l[0]) + t.a2s(r[0])))]
    case S8 => [ToByte(l[0] / 2 + r[0] / 2)]
    case U8 => [ToByte(l[0] / 2 + r[0] / 2)]
  }

  /** In the linear encodings of eight bits a sample becomes its high byte, with its sign or
      above 128. */
  lemma NarrowMeans(t: Tables, x: Sample)
    ensures |Narrow(t, S8, x)| == 1 && 0 <= x - 0x100 * Signed(Narrow(t, S8, x)[0]) < 0x100
    ensures |Narrow(t, U8, x)| == 1 && 0 <= x - 0x100 * (Narrow(t, U8, x)[0] as int - 128) < 0x100
  {
    var h := x / 0x100;
    assert -128 <= h < 128;
    SignedByte(h);
    assert ToByte(h + 128) == h + 128;
  }

  lemma SignedByte(h: int)
    requires -128 <= h < 128
    ensures Signed(ToByte(h)) == h
  {}

  /** A byte as a signed number. */
  function Signed(b: byte): int { if b < 128 then b as int else b as int - 256 }

  /** What the bytes of the linear encodings mean: the top byte of a sample, with its sign or
      above 128. */
  lemma WideMeans(t: Tables, b: byte)
    ensures Wide(t, S8, [b]) == 0x100 * Signed(b)
    ensures Wide(t, U8, [b]) == 0x100 * (b as int - 128)
  {}

  /** Widening a sample to sixteen bits loses nothing in the linear encodings, and in the others
      exactly if their two tables are inverse there. */
  lemma WideningIsLossless(t: Tables, e: Encoding, s: seq<byte>)
    requires |s| == Width(e)
    ensures Narrow(t, e, Wide(t, e, s)) == s <==>
              match e
              case PCMU => t.s2u(t.u2s(s[0])) == s[0]
              case PCMA => t.s2a(t.a2s(s[0])) == s[0]
              case _ => true
  {
    hide Load, Store, ToSample, ToByte;
    if e == S16 {
      assert s == [s[0], s[1]];
      StoreLoad(s[0], s[1]);
    } else {
      assert s == [s[0]];
      BytesBack(s[0]);
    }
  }

  lemma BytesBack(b: byte)
    ensures ToByte(ToSample(b as int * 0x100) / 0x100) == b
    ensures ToByte(ToSample((b as int - 128) * 0x100) / 0x100 + 128) == b
  {}

  lemma StoreLoad(lo: byte, hi: byte)
    ensures Store(Load(lo, hi)) == [lo, hi]
  {
    var x: int := lo + 0x100 * hi;
    var y := Load(lo, hi);
    assert y == x || y == x - 0x1_0000;
    assert y % 0x100 == lo && (y / 0x100) % 0x100 == hi;
  }

  /** `z` is the average of two samples, rounded toward zero. */
  predicate IsAverage(z: Sample, x: Sample, y: Sample) {
    var sum := x as int + y;
    -1 <= sum - 2 * z <= 1 && (sum >= 0 ==> 2 * z <= sum) && (sum <= 0 ==> 2 * z >= sum)
  }

  /** Samples of sixteen bits are averaged and rounded toward zero. */
  lemma MeanOfWide(t: Tables, x: Sample, y: Sample)
    ensures var m := Mean(t, S16, Store(x), Store(y)); IsAverage(Load(m[0], m[1]), x, y)
  {
    hide Load, Store;
    LoadStore(x);
    LoadStore(y);
    LoadStore(Half(x as int + y));
  }

  /** So are those in the two laws, each by its own tables. */
  lemma MeanOfLaws(t: Tables, l: byte, r: byte)
    ensures exists z: Sample :: IsAverage(z, t.u2s(l), t.u2s(r)) && Mean(t, PCMU, [l], [r]) == [t.s2u(z)]
    ensures exists z: Sample :: IsAverage(z, t.a2s(l), t.a2s(r)) && Mean(t, PCMA, [l], [r]) == [t.s2a(z)]
  {
    HalfIsAverage(t.u2s(l), t.u2s(r));
    HalfIsAverage(t.a2s(l), t.a2s(r));
  }

  lemma HalfIsAverage(x: Sample, y: Sample)
    ensures -0x8000 <= Half(x as int + y) < 0x8000 && IsAverage(Half(x as int + y), x, y)
  {}

  /** Which bytes are the average of themselves. */
  predicate Steady(t: Tables, e: Encoding, b: byte) {
    match e
    case PCMU => t.s2u(t.u2s(b)) == b
    case PCMA => t.s2a(t.a2s(b)) == b
    case S8 => b % 2 == 0
    case U8 => b % 2 == 0
    case S16 => true
  }

  lemma MeanOfSame(t: Tables, e: Encoding, b: byte)
    requires e != S16
    ensures Mean(t, e, [b], [b]) == [b] <==> Steady(t, e, b)
  {
    hide Half;
    if e == PCMU {
      HalfTwice(t.u2s(b));
    } else if e == PCMA {
      HalfTwice(t.a2s(b));
    } else {
      assert [b / 2 + b / 2][0] == b / 2 + b / 2;
    }
  }

  /** Signed samples of eight bits are averaged as if they had no sign: the result is right,
      to within one, exactly when both have the same sign. */
  lemma MeanOfSigned(t: Tables, l: byte, r: byte)
    ensures var m := Signed(Mean(t, S8, [l], [r])[0]);
            -2 <= 2 * m - (Signed(l) + Signed(r)) <= 0 <==> (l < 128 <==> r < 128)
  {
    MeanOfSigns(l, r, l / 2, r / 2);
    ToByteSmall(l / 2 + r / 2);
  }

  lemma ToByteSmall(x: int)
    requires 0 <= x < 0x100
    ensures ToByte(x) == x
  {}

  lemma MeanOfSigns(l: byte, r: byte, a: byte, b: byte)
    requires 2 * a <= l <= 2 * a + 1 && 2 * b <= r <= 2 * b + 1
    ensures a as int + b < 0x100
    ensures var m: byte := a + b;
            -2 <= 2 * Signed(m) - (Signed(l) + Signed(r)) <= 0 <==> (l < 128 <==> r < 128)
  {}

  lemma MeanOfUnsigned(t: Tables, l: byte, r: byte)
    ensures var m := Mean(t, U8, [l], [r])[0];
            -2 <= 2 * m - (l + r) <= 0
  {}

  // --------------------------------------------------------------------- buffers

  /** One frame with the other number of channels. */
  function Remix(t: Tables, src: Format, f: seq<byte>): (r: seq<byte>)
    requires ValidFormat(src) && |f| == FrameSize(src)
    ensures |r| == Width(src.encoding) * (3 - src.channels)
  {
    var w := Width(src.encoding);
    if src.channels == 1 then f + f else Mean(t, src.encoding, f[..w], f[w..])
  }

  /** convert_buffer_channels on whole frames. */
  function Channels(t: Tables, src: Format, s: seq<byte>): seq<byte>
    requires ValidFormat(src)
  {
    var k := FrameSize(src);
    if |s| < k then [] else Remix(t, src, s[..k]) + Channels(t, src, s[k..])
  }

  /** convert_buffer_sample_type on whole samples, for two different encodings. */
  function Samples(t: Tables, from: Encoding, to: Encoding, s: seq<byte>): seq<byte> {
    var w := Width(from);
    if |s| < w then [] else Recode(t, from, to, s[..w]) + Samples(t, from, to, s[w..])
  }

  predicate WholeSamples(e: Encoding, s: seq<byte>) { Width(e) == 2 ==> |s| % 2 == 0 }

  predicate WholeFrames(src: Format, s: seq<byte>)
    requires ValidFormat(src)
  {
    |s| % FrameSize(src) == 0
  }

  /** The length of `n` bytes after samples of `from` bytes have become samples of `to`. */
  function Scaled(n: nat, from: nat, to: nat): nat
    requires from == 1 || from == 2
  {
    if from == to then n else if from < to then 2 * n else n / 2
  }

  lemma {:induction false} ChannelsLength(t: Tables, src: Format, s: seq<byte>)
    requires ValidFormat(src) && WholeFrames(src, s)
    ensures |Channels(t, src, s)| == Scaled(|s|, src.channels, 3 - src.channels)
    ensures WholeSamples(src.encoding, Channels(t, src, s))
    decreases |s|
  {
    hide Remix, FrameSize, Width;
    FrameIs(src);
    var k := FrameSize(src);
    if |s| >= k {
      Multiples(0, |s|, k);
      ChannelsLength(t, src, s[k..]);
    } else if |s| > 0 {
      Multiples(0, |s|, k);
    }
  }

  lemma FrameIs(src: Format)
    requires ValidFormat(src)
    ensures var w := Width(src.encoding);
            FrameSize(src) == (if src.channels == 1 then w else 2 * w) && (w == 1 || w == 2)
    ensures Width(src.encoding) == 2 ==> FrameSize(src) % 2 == 0
  {}

  /** From one multiple to the next. */
  lemma Multiples(i: nat, n: nat, k: nat)
    requires k == 1 || k == 2 || k == 4
    requires i % k == 0 && n % k == 0 && i < n
    ensures i + k <= n && (i + k) % k == 0 && k % k == 0 && (n - i - k) % k == 0
  {
    if k == 2 {
      var a, b := i / 2, n / 2;
      assert i == 2 * a && n == 2 * b;
      Twofold(i + 2, a + 1);
      Twofold(n - i - 2, b - a - 1);
    } else if k == 4 {
      var a, b := i / 4, n / 4;
      assert i == 4 * a && n == 4 * b;
      Fourfold(i + 4, a + 1);
      Fourfold(n - i - 4, b - a - 1);
    }
  }

  lemma {:induction false} SamplesLength(t: Tables, from: Encoding, to: Encoding, s: seq<byte>)
    requires WholeSamples(from, s)
    ensures |Samples(t, from, to, s)| == Scaled(|s|, Width(from), Width(to))
    decreases |s|
  {
    hide Recode;
    if |s| >= Width(from) {
      SamplesLength(t, from, to, s[Width(from)..]);
    }
  }

  /** Frames can be converted piece by piece. */
  lemma {:induction false} ChannelsAppend(t: Tables, src: Format, a: seq<byte>, b: seq<byte>)
    requires ValidFormat(src) && WholeFrames(src, a)
    ensures Channels(t, src, a + b) == Channels(t, src, a) + Channels(t, src, b)
    decreases |a|
  {
    hide Remix;
    var k := FrameSize(src);
    if a == [] {
      assert a + b == b && Channels(t, src, a) == [];
    } else {
      assert |a| >= k && |a[k..]| % k == 0;
      assert (a + b)[..k] == a[..k] && (a + b)[k..] == a[k..] + b;
      ChannelsAppend(t, src, a[k..], b);
    }
  }

  lemma SamplesStep(t: Tables, from: Encoding, to: Encoding, s: seq<byte>)
    requires |s| >= Width(from)
    ensures Samples(t, from, to, s) == Recode(t, from, to, s[..Width(from)]) + Samples(t, from, to, s[Width(from)..])
  {
    hide Recode;
  }

  lemma {:induction false} SamplesAppend(t: Tables, from: Encoding, to: Encoding, a: seq<byte>, b: seq<byte>)
    requires WholeSamples(from, a)
    ensures Samples(t, from, to, a + b) == Samples(t, from, to, a) + Samples(t, from, to, b)
    decreases |a|
  {
    hide Samples, Recode;
    if |a| < Width(from) {
      SamplesNone(t, from, to, a);
      assert a + b == b;
    } else {
      var w := Width(from);
      SamplesStep(t, from, to, a);
      SamplesStep(t, from, to, a + b);
      SamplesAppend(t, from, to, a[w..], b);
      assert (a + b)[..w] == a[..w] && (a + b)[w..] == a[w..] + b;
    }
  }

  lemma SamplesNone(t: Tables, from: Encoding, to: Encoding, s: seq<byte>)
    requires |s| < Width(from) && WholeSamples(from, s)
    ensures s == [] && Samples(t, from, to, s) == []
  {}

  /** Doubling the channel of a buffer of sixteen-bit samples and averaging again changes
      nothing. */
  lemma {:induction false} StereoAndBack(t: Tables, s: seq<byte>)
    requires |s| % 2 == 0
    ensures Channels(t, Format(S16, 2), Channels(t, Format(S16, 1), s)) == s
    decreases |s|
  {
    if s != [] {
      var f, rest := s[..2], Channels(t, Format(S16, 1), s[2..]);
      StereoAndBack(t, s[2..]);
      assert (f + f + rest)[..4] == f + f && (f + f + rest)[4..] == rest;
      FrameAndBack(t, f);
      assert f + s[2..] == s;
      hide Remix;
    }
  }

  /** In the encodings of one byte both channels get the byte. */
  lemma {:induction false} MonoIsDoubled(t: Tables, e: Encoding, s: seq<byte>, i: nat)
    requires e != S16 && i < |s|
    ensures var d := Channels(t, Format(e, 1), s);
            |d| == 2 * |s| && d[2 * i] == s[i] && d[2 * i + 1] == s[i]
    decreases |s|
  {
    ByteDoubled(t, e, s);
    hide Channels;
    if |s| > 1 {
      MonoIsDoubled(t, e, s[1..], if i > 0 then i - 1 else 0);
    } else {
      NoChannels(t, Format(e, 1));
      assert s[1..] == [];
    }
  }

  lemma ByteDoubled(t: Tables, e: Encoding, s: seq<byte>)
    requires e != S16 && s != []
    ensures Channels(t, Format(e, 1), s) == [s[0], s[0]] + Channels(t, Format(e, 1), s[1..])
  {
    assert s[..1] == [s[0]];
  }

  lemma BytesAveraged(t: Tables, e: Encoding, a: byte, b: byte, rest: seq<byte>)
    requires e != S16
    ensures Channels(t, Format(e, 2), [a, b] + rest) == Mean(t, e, [a], [b]) + Channels(t, Format(e, 2), rest)
  {
    var s := [a, b] + rest;
    assert s[..2] == [a, b] && s[2..] == rest && [a, b][..1] == [a] && [a, b][1..] == [b];
  }

  /** To two channels and back changes nothing exactly if every byte is its own average. */
  lemma {:induction false} BytesAndBack(t: Tables, e: Encoding, s: seq<byte>)
    requires e != S16
    ensures var back := Channels(t, Format(e, 2), Channels(t, Format(e, 1), s));
            |back| == |s| && (back == s <==> forall b <- s :: Steady(t, e, b))
    decreases |s|
  {
    hide Channels, Steady, Mean;
    if s == [] {
      NoChannels(t, Format(e, 1));
      NoChannels(t, Format(e, 2));
    } else {
      BytesAndBack(t, e, s[1..]);
      ByteDoubled(t, e, s);
      var rest := Channels(t, Format(e, 1), s[1..]);
      BytesAveraged(t, e, s[0], s[0], rest);
      MeanOfSame(t, e, s[0]);
      assert s == [s[0]] + s[1..];
      BackParts(Mean(t, e, [s[0]], [s[0]]), Channels(t, Format(e, 2), rest), s);
      assert (forall b <- s :: Steady(t, e, b)) <==> Steady(t, e, s[0]) && (forall b <- s[1..] :: Steady(t, e, b)) by {
        assert forall b :: b in s <==> b == s[0] || b in s[1..];
      }
    }
  }

  lemma BackParts(m: seq<byte>, more: seq<byte>, s: seq<byte>)
    requires |m| == 1 && s != [] && |more| == |s| - 1
    ensures m + more == s <==> m == [s[0]] && more == s[1..]
  {
    if m + more == s {
      assert (m + more)[0] == s[0] && (m + more)[1..] == s[1..];
      assert m == [m[0]];
    }
  }

  lemma FrameAndBack(t: Tables, f: seq<byte>)
    requires |f| == 2
    ensures Remix(t, Format(S16, 1), f) == f + f && Remix(t, Format(S16, 2), f + f) == f
  {
    hide Load, Store, Half;
    assert (f + f)[..2] == f && (f + f)[2..] == f && f == [f[0], f[1]];
    StoreLoad(f[0], f[1]);
    HalfTwice(Load(f[0], f[1]));
  }

  lemma HalfTwice(x: int)
    ensures Half(x + x) == x
  {}

  /** Both conversions of a whole buffer, channels first. */
  function Both(t: Tables, src: Format, dst: Format, s: seq<byte>): seq<byte>
    requires ValidFormat(src)
  {
    Samples(t, src.encoding, dst.encoding, Channels(t, src, s))
  }

  /** The chunked conversion is the conversion of the whole, wherever the chunks end between
      frames. */
  lemma Chunk(t: Tables, src: Format, dst: Format, a: seq<byte>, b: seq<byte>)
    requires ValidFormat(src) && WholeFrames(src, a)
    ensures Both(t, src, dst, a + b) == Both(t, src, dst, a) + Both(t, src, dst, b)
  {
    ChannelsAppend(t, src, a, b);
    ChannelsLength(t, src, a);
    SamplesAppend(t, src.encoding, dst.encoding, Channels(t, src, a), Channels(t, src, b));
  }

  /** One frame becomes its sample recoded, twice, or the average of its two recoded. */
  lemma BothOfFrame(t: Tables, src: Format, dst: Format, f: seq<byte>)
    requires ValidFormat(src) && |f| == FrameSize(src)
    ensures var w := Width(src.encoding);
            Both(t, src, dst, f) ==
              if src.channels == 1
              then Recode(t, src.encoding, dst.encoding, f) + Recode(t, src.encoding, dst.encoding, f)
              else Recode(t, src.encoding, dst.encoding, Mean(t, src.encoding, f[..w], f[w..]))
  {
    hide Recode, Mean, Channels, Samples;
    OneFrame(t, src, f);
    if src.channels == 1 {
      SamplesAppend(t, src.encoding, dst.encoding, f, f);
      OneSample(t, src.encoding, dst.encoding, f);
    } else {
      var w := Width(src.encoding);
      OneSample(t, src.encoding, dst.encoding, Mean(t, src.encoding, f[..w], f[w..]));
    }
  }

  /** out_bytes of audio_format_buffer_convert */
  function OutBytes(src: Format, dst: Format, n: nat): nat
    requires ValidFormat(src)
  {
    n * (8 * Width(dst.encoding)) * dst.channels / ((8 * Width(src.encoding)) * src.channels)
  }

  lemma OutBytesIs(src: Format, dst: Format, n: nat)
    requires ValidFormat(src) && ValidFormat(dst) && n % FrameSize(src) == 0
    ensures OutBytes(src, dst, n)
              == Scaled(Scaled(n, src.channels, dst.channels), Width(src.encoding), Width(dst.encoding))
  {
    assert FrameSize(src) == (if src.channels == 1 then Width(src.encoding) else 2 * Width(src.encoding));
  }

  // ----------------------------------------------------------------- the code's loops

  const AF_TMP_BUF_SZ := 160
  const AF_TMP_BUF_SMPLS := 80

  /** The bytes of `a` from `at` on are `s`, and all others are as in `before`. */
  ghost predicate Holds(before: seq<byte>, after: seq<byte>, at: nat, s: seq<byte>) {
    && at + |s| <= |before| == |after|
    && after[at..at + |s|] == s
    && after[..at] == before[..at] && after[at + |s|..] == before[at + |s|..]
  }

  lemma HoldsAt(a: seq<byte>, b: seq<byte>, at: nat, s: seq<byte>, i: nat)
    requires Holds(a, b, at, s) && i < |a|
    ensures |b| == |a| && b[i] == if at <= i < at + |s| then s[i - at] else a[i]
  {
    if i < at {
      assert b[..at][i] == a[..at][i];
    } else if i < at + |s| {
      assert b[at..at + |s|][i - at] == s[i - at];
    } else {
      assert b[at + |s|..][i - (at + |s|)] == a[at + |s|..][i - (at + |s|)];
    }
  }

  lemma HoldsIf(a: seq<byte>, b: seq<byte>, at: nat, s: seq<byte>)
    requires at + |s| <= |a| == |b|
    requires forall i :: 0 <= i < |a| ==> b[i] == if at <= i < at + |s| then s[i - at] else a[i]
    ensures Holds(a, b, at, s)
  {}

  lemma HoldsSize(a: seq<byte>, b: seq<byte>, at: nat, s: seq<byte>)
    requires Holds(a, b, at, s)
    ensures at + |s| <= |a| == |b|
  {}

  lemma HoldsMore(a: seq<byte>, b: seq<byte>, c: seq<byte>, at: nat, s: seq<byte>, more: seq<byte>)
    requires Holds(a, b, at, s) && Holds(b, c, at + |s|, more)
    ensures Holds(a, c, at, s + more)
  {
    hide Holds;
    HoldsSize(a, b, at, s);
    HoldsSize(b, c, at + |s|, more);
    forall i | 0 <= i < |a|
      ensures c[i] == if at <= i < at + |s + more| then (s + more)[i - at] else a[i]
    {
      HoldsAt(a, b, at, s, i);
      HoldsAt(b, c, at + |s|, more, i);
    }
    HoldsIf(a, c, at, s + more);
  }

  lemma HoldsOne(a: seq<byte>, b: seq<byte>, at: nat, s: seq<byte>, i: nat)
    requires i < |s| && at + |s| <= |a| && Holds(a, b, at, s[..i])
    ensures Holds(a, b[at + i := s[i]], at, s[..i + 1])
  {
    HoldsMore(a, b, b[at + i := s[i]], at, s[..i], [s[i]]);
    assert s[..i + 1] == s[..i] + [s[i]];
  }

  method Put(buf: array<byte>, at: nat, s: seq<byte>)
    requires at + |s| <= buf.Length
    modifies buf
    ensures Holds(old(buf[..]), buf[..], at, s)
  {
    hide Holds;
    var i := 0;
    HoldsNone(buf[..], at);
    assert s[..0] == [];
    while i < |s|
      invariant i <= |s| && Holds(old(buf[..]), buf[..], at, s[..i])
    {
      ghost var before := buf[..];
      buf[at + i] := s[i];
      assert buf[..] == before[at + i := s[i]];
      HoldsOne(old(buf[..]), before, at, s, i);
      i := i + 1;
    }
    assert s[..i] == s;
  }

  lemma OneFrame(t: Tables, src: Format, f: seq<byte>)
    requires ValidFormat(src) && |f| == FrameSize(src)
    ensures Channels(t, src, f) == Remix(t, src, f)
  {
    hide Remix;
    assert f[..|f|] == f && f[|f|..] == [];
  }

  lemma OneSample(t: Tables, from: Encoding, to: Encoding, s: seq<byte>)
    requires |s| == Width(from)
    ensures Samples(t, from, to, s) == Recode(t, from, to, s)
  {
    hide Recode;
    assert s[..|s|] == s && s[|s|..] == [];
  }

  /** The next frame of `s` after `i` bytes, and that it still fits where all of `s` does. */
  lemma NextFrame(t: Tables, src: Format, s: seq<byte>, i: nat)
    requires ValidFormat(src) && WholeFrames(src, s) && i < |s| && i % FrameSize(src) == 0
    ensures var k := FrameSize(src);
            && i + k <= |s| && (i + k) % k == 0
            && Channels(t, src, s[..i + k]) == Channels(t, src, s[..i]) + Remix(t, src, s[i..i + k])
            && |Channels(t, src, s[..i + k])| <= |Channels(t, src, s)|
  {
    hide Channels, Remix, FrameSize, Width;
    FrameIs(src);
    var k := FrameSize(src);
    Multiples(i, |s|, k);
    assert s[..i + k] == s[..i] + s[i..i + k] && s == s[..i + k] + s[i + k..];
    ChannelsAppend(t, src, s[..i], s[i..i + k]);
    OneFrame(t, src, s[i..i + k]);
    ChannelsAppend(t, src, s[..i + k], s[i + k..]);
  }

  lemma NextSample(t: Tables, from: Encoding, to: Encoding, s: seq<byte>, i: nat)
    requires WholeSamples(from, s) && i < |s| && WholeSamples(from, s[..i])
    ensures var w := Width(from);
            && i + w <= |s| && WholeSamples(from, s[..i + w])
            && Samples(t, from, to, s[..i + w]) == Samples(t, from, to, s[..i]) + Recode(t, from, to, s[i..i + w])
            && |Samples(t, from, to, s[..i + w])| <= |Samples(t, from, to, s)|
  {
    hide Samples, Recode;
    var w := Width(from);
    assert s[..i + w] == s[..i] + s[i..i + w] && s == s[..i + w] + s[i + w..];
    SamplesAppend(t, from, to, s[..i], s[i..i + w]);
    OneSample(t, from, to, s[i..i + w]);
    SamplesAppend(t, from, to, s[..i + w], s[i + w..]);
  }

  lemma SliceOfSlice(a: seq<byte>, s: seq<byte>, sp: nat, i: nat, k: nat)
    requires sp + |s| <= |a| && s == a[sp..sp + |s|] && i + k <= |s|
    ensures a[sp + i..sp + i + k] == s[i..i + k]
  {
    var l, r := a[sp + i..sp + i + k], s[i..i + k];
    assert forall j :: 0 <= j < k ==> l[j] == r[j];
  }

  lemma NoChannels(t: Tables, src: Format)
    requires ValidFormat(src)
    ensures Channels(t, src, []) == []
  {}

  lemma HoldsNone(a: seq<byte>, at: nat)
    requires at <= |a|
    ensures Holds(a, a, at, [])
  {}

  /** convert_buffer_channels, on `n` bytes of `srcBuf` from `sp` on. */
  method ConvertChannels(t: Tables, src: Format, srcBuf: array<byte>, sp: nat, n: nat,
                         dst: Format, dstBuf: array<byte>, dp: nat, room: nat)
    returns (out: nat)
    requires ValidFormat(src) && ValidFormat(dst) && src.channels != dst.channels && srcBuf != dstBuf
    requires sp + n <= srcBuf.Length && dp + room <= dstBuf.Length
    requires WholeFrames(src, srcBuf[sp..sp + n]) && n * dst.channels / src.channels <= room
    modifies dstBuf
    ensures out == |Channels(t, src, srcBuf[sp..sp + n])| <= room
    ensures Holds(old(dstBuf[..]), dstBuf[..], dp, Channels(t, src, srcBuf[sp..sp + n]))
  {
    ChannelsLength(t, src, srcBuf[sp..sp + n]);
    out := n * dst.channels / src.channels;
    hide *;
    RemixFrames(t, src, srcBuf, sp, n, dstBuf, dp, srcBuf[sp..sp + n]);
  }

  /** Its loops, one frame at a turn. */
  method RemixFrames(t: Tables, src: Format, srcBuf: array<byte>, sp: nat, n: nat, dstBuf: array<byte>, dp: nat,
                     ghost s: seq<byte>)
    requires ValidFormat(src) && srcBuf != dstBuf
    requires sp + n <= srcBuf.Length && s == srcBuf[sp..sp + n] && WholeFrames(src, s)
    requires dp + |Channels(t, src, s)| <= dstBuf.Length
    modifies dstBuf
    ensures Holds(old(dstBuf[..]), dstBuf[..], dp, Channels(t, src, s))
  {
    hide Channels, Remix, Holds, WholeFrames;
    ghost var was := dstBuf[..];
    HoldsNone(was, dp);
    NoChannels(t, src);
    var k := FrameSize(src);
    var i, done := 0, 0;
    while i < n
      invariant i <= n && i % k == 0 && done == |Channels(t, src, s[..i])|
      invariant srcBuf[..] == old(srcBuf[..]) && Holds(was, dstBuf[..], dp, Channels(t, src, s[..i]))
    {
      NextFrame(t, src, s, i);
      SliceOfSlice(srcBuf[..], s, sp, i, k);
      var f := Remix(t, src, srcBuf[sp + i..sp + i + k]);
      ghost var before := dstBuf[..];
      Put(dstBuf, dp + done, f);
      HoldsMore(was, before, dstBuf[..], dp, Channels(t, src, s[..i]), f);
      i, done := i + k, done + |f|;
    }
    assert s[..i] == s;
  }

  /** out_bytes of convert_buffer_sample_type */
  function SampleBytes(from: Encoding, to: Encoding, n: nat): nat { n * (8 * Width(to)) / (8 * Width(from)) }

  lemma SampleBytesIs(from: Encoding, to: Encoding, n: nat)
    ensures SampleBytes(from, to, n) == Scaled(n, Width(from), Width(to))
  {
    if Width(from) == 1 {
      assert n * 8 / 8 == n && n * 16 / 8 == 2 * n;
    } else {
      assert n * 16 / 16 == n && n * 8 / 16 == n / 2;
    }
  }

  /** convert_buffer_sample_type.  Given two equal encodings it copies nothing. */
  method ConvertSamples(t: Tables, from: Encoding, srcBuf: array<byte>, sp: nat, n: nat,
                        to: Encoding, dstBuf: array<byte>, dp: nat, room: nat)
    returns (out: nat)
    requires srcBuf != dstBuf && sp + n <= srcBuf.Length && dp + room <= dstBuf.Length
    requires WholeSamples(from, srcBuf[sp..sp + n])
    modifies dstBuf
    ensures var s := srcBuf[sp..sp + n];
            var r := Samples(t, from, to, s);
            if Scaled(n, Width(from), Width(to)) > room then out == 0 && dstBuf[..] == old(dstBuf[..])
            else
              && out == |r|
              && if from == to then dstBuf[..] == old(dstBuf[..]) else Holds(old(dstBuf[..]), dstBuf[..], dp, r)
  {
    hide *;
    ghost var s := srcBuf[sp..sp + n];
    SamplesLength(t, from, to, s);
    SampleBytesIs(from, to, n);
    out := SampleBytes(from, to, n);
    if out > room { return 0; }
    if from != to {
      RecodeSamples(t, from, srcBuf, sp, n, to, dstBuf, dp, s);
    }
  }

  /** Its loops, one sample at a turn. */
  method RecodeSamples(t: Tables, from: Encoding, srcBuf: array<byte>, sp: nat, n: nat, to: Encoding,
                       dstBuf: array<byte>, dp: nat, ghost s: seq<byte>)
    requires srcBuf != dstBuf
    requires sp + n <= srcBuf.Length && s == srcBuf[sp..sp + n] && WholeSamples(from, s)
    requires dp + |Samples(t, from, to, s)| <= dstBuf.Length
    modifies dstBuf
    ensures Holds(old(dstBuf[..]), dstBuf[..], dp, Samples(t, from, to, s))
  {
    hide Samples, Recode, Holds, WholeSamples;
    ghost var was := dstBuf[..];
    HoldsNone(was, dp);
    NoSamples(t, from, to);
    var w := Width(from);
    var i, done := 0, 0;
    assert s[..i] == [];
    while i < n
      invariant i <= n && WholeSamples(from, s[..i]) && done == |Samples(t, from, to, s[..i])|
      invariant srcBuf[..] == old(srcBuf[..]) && Holds(was, dstBuf[..], dp, Samples(t, from, to, s[..i]))
    {
      NextSample(t, from, to, s, i);
      SliceOfSlice(srcBuf[..], s, sp, i, w);
      var f := Recode(t, from, to, srcBuf[sp + i..sp + i + w]);
      ghost var before := dstBuf[..];
      Put(dstBuf, dp + done, f);
      HoldsMore(was, before, dstBuf[..], dp, Samples(t, from, to, s[..i]), f);
      i, done := i + w, done + |f|;
    }
    assert s[..i] == s;
  }

  lemma NoSamples(t: Tables, from: Encoding, to: Encoding)
    ensures WholeSamples(from, []) && Samples(t, from, to, []) == []
  {}

  /** What audio_format_buffer_convert makes of a buffer. */
  function Converted(t: Tables, src: Format, dst: Format, s: seq<byte>): seq<byte>
    requires ValidFormat(src)
  {
    if src.channels == dst.channels then Samples(t, src.encoding, dst.encoding, s)
    else if src.encoding == dst.encoding then Channels(t, src, s)
    else Both(t, src, dst, s)
  }

  lemma FramesAreSamples(src: Format, s: seq<byte>)
    requires ValidFormat(src) && WholeFrames(src, s)
    ensures WholeSamples(src.encoding, s)
  {
    assert FrameSize(src) == (if src.channels == 1 then Width(src.encoding) else 2 * Width(src.encoding));
  }

  lemma SameScale(n: nat, from: nat)
    requires from == 1 || from == 2
    ensures Scaled(n, from, from) == n
  {}

  lemma ConvertedLength(t: Tables, src: Format, dst: Format, s: seq<byte>)
    requires ValidFormat(src) && ValidFormat(dst) && WholeFrames(src, s)
    ensures |Converted(t, src, dst, s)| == OutBytes(src, dst, |s|)
    ensures WholeSamples(src.encoding, s)
  {
    hide Channels, Samples, OutBytes, Scaled, WholeSamples;
    OutBytesIs(src, dst, |s|);
    FramesAreSamples(src, s);
    SameScale(|s|, src.channels);
    SameScale(Scaled(|s|, src.channels, dst.channels), Width(src.encoding));
    if src.channels != dst.channels {
      ChannelsLength(t, src, s);
      if src.encoding != dst.encoding {
        SamplesLength(t, src.encoding, dst.encoding, Channels(t, src, s));
      }
    } else {
      SamplesLength(t, src.encoding, dst.encoding, s);
    }
  }

  function Min(a: nat, b: nat): nat { if a < b then a else b }

  lemma WholePart(src: Format, s: seq<byte>, sp: nat, adv: nat)
    requires ValidFormat(src) && WholeFrames(src, s) && sp < |s|
    requires sp % AF_TMP_BUF_SMPLS == 0 && adv == Min(AF_TMP_BUF_SMPLS, |s| - sp)
    ensures WholeFrames(src, s[..sp]) && WholeFrames(src, s[sp..sp + adv]) && WholeFrames(src, s[..sp + adv])
    ensures (sp + adv) % AF_TMP_BUF_SMPLS == 0 || sp + adv == |s|
  {
    var k := FrameSize(src);
    ChunkEnds(|s|, sp, adv);
    if k == 2 {
      EvenParts(|s|, sp, adv);
    } else if k == 4 {
      FourfoldParts(|s|, sp, adv);
    } else {
      assert k == 1;
    }
  }

  lemma ChunkEnds(n: nat, sp: nat, adv: nat)
    requires sp < n && sp % AF_TMP_BUF_SMPLS == 0 && adv == Min(AF_TMP_BUF_SMPLS, n - sp)
    ensures (sp + adv) % AF_TMP_BUF_SMPLS == 0 || sp + adv == n
  {}

  lemma EvenParts(n: nat, sp: nat, adv: nat)
    requires n % 2 == 0 && sp < n && sp % AF_TMP_BUF_SMPLS == 0 && adv == Min(AF_TMP_BUF_SMPLS, n - sp)
    ensures sp % 2 == 0 && adv % 2 == 0 && (sp + adv) % 2 == 0
  {
    var q, h := sp / 80, n / 2;
    assert sp == 80 * q && n == 2 * h;
    Twofold(sp, 40 * q);
    if adv == 80 {
      Twofold(sp + adv, 40 * q + 40);
    } else {
      Twofold(adv, h - 40 * q);
    }
  }

  lemma FourfoldParts(n: nat, sp: nat, adv: nat)
    requires n % 4 == 0 && sp < n && sp % AF_TMP_BUF_SMPLS == 0 && adv == Min(AF_TMP_BUF_SMPLS, n - sp)
    ensures sp % 4 == 0 && adv % 4 == 0 && (sp + adv) % 4 == 0
  {
    var q, h := sp / 80, n / 4;
    assert sp == 80 * q && n == 4 * h;
    Fourfold(sp, 20 * q);
    if adv == 80 {
      Fourfold(sp + adv, 20 * q + 20);
    } else {
      Fourfold(adv, h - 20 * q);
    }
  }

  lemma Twofold(x: int, h: int)
    requires x == 2 * h
    ensures x % 2 == 0
  {}

  lemma Fourfold(x: int, h: int)
    requires x == 4 * h
    ensures x % 4 == 0
  {}

  /** The next chunk of `s`, and that it still fits where all of `s` does. */
  lemma NextChunk(t: Tables, src: Format, dst: Format, s: seq<byte>, sp: nat, adv: nat)
    requires ValidFormat(src) && WholeFrames(src, s) && sp < |s|
    requires sp % AF_TMP_BUF_SMPLS == 0 && adv == Min(AF_TMP_BUF_SMPLS, |s| - sp)
    ensures WholeFrames(src, s[sp..sp + adv])
    ensures (sp + adv) % AF_TMP_BUF_SMPLS == 0 || sp + adv == |s|
    ensures Both(t, src, dst, s[..sp + adv]) == Both(t, src, dst, s[..sp]) + Both(t, src, dst, s[sp..sp + adv])
    ensures |Both(t, src, dst, s[..sp + adv])| <= |Both(t, src, dst, s)|
  {
    WholePart(src, s, sp, adv);
    hide Both, WholeFrames;
    assert s[..sp + adv] == s[..sp] + s[sp..sp + adv] && s == s[..sp + adv] + s[sp + adv..];
    Chunk(t, src, dst, s[..sp], s[sp..sp + adv]);
    Chunk(t, src, dst, s[..sp + adv], s[sp + adv..]);
  }

  /** One chunk through the scratch buffer. */
  method ConvertChunk(t: Tables, src: Format, srcBuf: array<byte>, sp: nat, adv: nat, dst: Format, ibuf: array<byte>,
                      dstBuf: array<byte>, dp: nat, room: nat)
    returns (ret: nat)
    requires ValidFormat(src) && ValidFormat(dst) && src.channels != dst.channels && src.encoding != dst.encoding
    requires srcBuf != ibuf && ibuf != dstBuf && srcBuf != dstBuf && ibuf.Length == AF_TMP_BUF_SZ
    requires sp + adv <= srcBuf.Length && adv <= AF_TMP_BUF_SMPLS && WholeFrames(src, srcBuf[sp..sp + adv])
    requires dp + room <= dstBuf.Length && |Both(t, src, dst, srcBuf[sp..sp + adv])| <= room
    modifies ibuf, dstBuf
    ensures ret == |Both(t, src, dst, srcBuf[sp..sp + adv])|
    ensures Holds(old(dstBuf[..]), dstBuf[..], dp, Both(t, src, dst, srcBuf[sp..sp + adv]))
  {
    ghost var c := Channels(t, src, srcBuf[sp..sp + adv]);
    ChannelsLength(t, src, srcBuf[sp..sp + adv]);
    SamplesLength(t, src.encoding, dst.encoding, c);
    ScratchFits(src, dst, adv);
    hide Channels, Samples, WholeFrames, WholeSamples;
    ret := ConvertChannels(t, src, srcBuf, sp, adv, dst, ibuf, 0, AF_TMP_BUF_SZ);
    assert ibuf[0..0 + ret] == c;
    ret := ConvertSamples(t, src.encoding, ibuf, 0, ret, dst.encoding, dstBuf, dp, room);
  }

  lemma ScratchFits(src: Format, dst: Format, n: nat)
    requires ValidFormat(src) && ValidFormat(dst) && n <= AF_TMP_BUF_SMPLS
    ensures n * dst.channels / src.channels <= AF_TMP_BUF_SZ
  {
    assert n * 1 == n;
  }

  /** The chunked conversion. */
  method ConvertBoth(t: Tables, src: Format, srcBuf: array<byte>, n: nat, dst: Format, dstBuf: array<byte>, room: nat,
                     ghost s: seq<byte>)
    requires ValidFormat(src) && ValidFormat(dst) && src.channels != dst.channels && src.encoding != dst.encoding
    requires srcBuf != dstBuf && n <= srcBuf.Length && s == srcBuf[..n] && WholeFrames(src, s)
    requires |Both(t, src, dst, s)| <= room <= dstBuf.Length
    modifies dstBuf
    ensures Holds(old(dstBuf[..]), dstBuf[..], 0, Both(t, src, dst, s))
  {
    hide Both, WholeFrames, Holds;
    ghost var was := dstBuf[..];
    HoldsNone(was, 0);
    BothNone(t, src, dst);
    var ibuf := new byte[AF_TMP_BUF_SZ];
    var sp, dp := 0, 0;
    assert s[..sp] == [];
    while sp < n
      invariant sp <= n && (sp % AF_TMP_BUF_SMPLS == 0 || sp == n)
      invariant srcBuf[..] == old(srcBuf[..]) && dp == |Both(t, src, dst, s[..sp])| <= room
      invariant Holds(was, dstBuf[..], 0, Both(t, src, dst, s[..sp]))
    {
      var adv := Min(AF_TMP_BUF_SMPLS, n - sp);
      NextChunk(t, src, dst, s, sp, adv);
      SliceOfSlice(srcBuf[..], s, 0, sp, adv);
      ghost var before := dstBuf[..];
      var ret := ConvertChunk(t, src, srcBuf, sp, adv, dst, ibuf, dstBuf, dp, room - dp);
      HoldsMore(was, before, dstBuf[..], 0, Both(t, src, dst, s[..sp]), Both(t, src, dst, s[sp..sp + adv]));
      sp, dp := sp + adv, dp + ret;
    }
    assert s[..sp] == s;
  }

  lemma BothNone(t: Tables, src: Format, dst: Format)
    requires ValidFormat(src)
    ensures Both(t, src, dst, []) == []
  {
    hide Remix, Recode;
    assert Channels(t, src, []) == [];
  }

  /** audio_format_buffer_convert.  The result is that of converting the whole buffer, even
      when it is done eighty bytes at a time; if neither channels nor encoding change, nothing
      is copied although a length is returned. */
  method Convert(t: Tables, src: Format, srcBuf: array<byte>, n: nat, dst: Format, dstBuf: array<byte>, room: nat)
    returns (out: nat)
    requires ValidFormat(src) && ValidFormat(dst) && srcBuf != dstBuf
    requires n <= srcBuf.Length && room <= dstBuf.Length
    requires WholeFrames(src, srcBuf[..n]) && OutBytes(src, dst, n) <= room
    modifies dstBuf
    ensures out == OutBytes(src, dst, n) == |Converted(t, src, dst, srcBuf[..n])|
    ensures if src == dst then dstBuf[..] == old(dstBuf[..])
            else Holds(old(dstBuf[..]), dstBuf[..], 0, Converted(t, src, dst, srcBuf[..n]))
  {
    hide Samples, Channels, Holds, Both;
    ghost var s := srcBuf[..n];
    ConvertedLength(t, src, dst, s);
    assert srcBuf[0..0 + n] == s;
    out := OutBytes(src, dst, n);
    OutBytesIs(src, dst, n);
    if src.channels == dst.channels || src.encoding == dst.encoding {
      if src.channels != dst.channels {
        var _ := ConvertChannels(t, src, srcBuf, 0, n, dst, dstBuf, 0, room);
      } else {
        var _ := ConvertSamples(t, src.encoding, srcBuf, 0, n, dst.encoding, dstBuf, 0, room);
      }
    } else {
      ConvertBoth(t, src, srcBuf, n, dst, dstBuf, room, s);
    }
  }
}
