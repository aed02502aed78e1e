/**
  The bit packer of RAT (rat/bitstream.c): fields of one to eight bits, most significant bit
  first, packed into a buffer without gaps.
 */
module Bitstreams {

  // ----------------------------------------------------------------- eight bits

  /** Shifts of an unsigned char by zero to eight places. */
  function Shl(x: bv8, k: nat): bv8
    requires k <= 8
  {
    match k
    case 0 => x
    case 1 => x << 1
    case 2 => x << 2
    case 3 => x << 3
    case 4 => x << 4
    case 5 => x << 5
    case 6 => x << 6
    case 7 => x << 7
    case _ => 0
  }

  function Shr(x: bv8, k: nat): bv8
    requires k <= 8
  {
    match k
    case 0 => x
    case 1 => x >> 1
    case 2 => x >> 2
    case 3 => x >> 3
    case 4 => x >> 4
    case 5 => x >> 5
    case 6 => x >> 6
    case 7 => x >> 7
    case _ => 0
  }

  function Mask(i: nat): bv8
    requires i < 8
  {
    match i
    case 0 => 0x80
    case 1 => 0x40
    case 2 => 0x20
    case 3 => 0x10
    case 4 => 0x08
    case 5 => 0x04
    case 6 => 0x02
    case _ => 0x01
  }

  /** Bit `i` of a byte, counted from the most significant one. */
  predicate BitOf(x: bv8, i: nat)
    requires i < 8
  {
    x & Mask(i) != 0
  }

  /** `x` has no bit above the `n` lowest, that is, it is below 2 to the power `n`. */
  predicate Fits(x: bv8, n: nat)
    requires n <= 8
  {
    Shr(x, n) == 0
  }

  lemma BitOfShl(x: bv8, k: nat, i: nat)
    requires k <= 8 && i < 8
    ensures BitOf(Shl(x, k), i) == (i + k < 8 && BitOf(x, i + k))
  {}

  lemma BitOfShr(x: bv8, k: nat, i: nat)
    requires k <= 8 && i < 8
    ensures BitOf(Shr(x, k), i) == (i >= k && BitOf(x, i - k))
  {}

  lemma BitOfOr(x: bv8, y: bv8, i: nat)
    requires i < 8
    ensures BitOf(x | y, i) == (BitOf(x, i) || BitOf(y, i))
  {
    var m := Mask(i);
    assert (x | y) & m == (x & m) | (y & m);
  }

  lemma SameBits(x: bv8, y: bv8)
    requires forall i :: 0 <= i < 8 ==> BitOf(x, i) == BitOf(y, i)
    ensures x == y
  {
    assert BitOf(x, 0) == BitOf(y, 0) && BitOf(x, 1) == BitOf(y, 1);
    assert BitOf(x, 2) == BitOf(y, 2) && BitOf(x, 3) == BitOf(y, 3);
    assert BitOf(x, 4) == BitOf(y, 4) && BitOf(x, 5) == BitOf(y, 5);
    assert BitOf(x, 6) == BitOf(y, 6) && BitOf(x, 7) == BitOf(y, 7);
  }

  lemma FitsIff(x: bv8, n: nat)
    requires n <= 8
    ensures Fits(x, n) <==> forall i :: 0 <= i < 8 - n ==> !BitOf(x, i)
  {
    forall i: nat | i < 8
      ensures BitOf(Shr(x, n), i) == (i >= n && BitOf(x, i - n))
      ensures !BitOf(0, i)
    {
      BitOfShr(x, n, i);
      assert 0 & Mask(i) == 0;
    }
    hide BitOf, Shr;
    if Fits(x, n) {
      forall i | 0 <= i < 8 - n
        ensures !BitOf(x, i)
      {
        assert !BitOf(Shr(x, n), i + n);
      }
    } else if forall i :: 0 <= i < 8 - n ==> !BitOf(x, i) {
      SameBits(Shr(x, n), 0);
    }
  }

  /** The `n` lowest bits of a value, most significant first. */
  function Field(x: bv8, n: nat): seq<bool>
    requires n <= 8
  {
    seq(n, i requires 0 <= i < n => BitOf(x, 8 - n + i))
  }

  /** A value is determined by its field. */
  lemma FieldInjective(x: bv8, y: bv8, n: nat)
    requires n <= 8 && Fits(x, n) && Fits(y, n) && Field(x, n) == Field(y, n)
    ensures x == y
  {
    FitsIff(x, n);
    FitsIff(y, n);
    hide BitOf, Fits;
    forall i | 0 <= i < 8
      ensures BitOf(x, i) == BitOf(y, i)
    {
      if i >= 8 - n {
        assert BitOf(x, i) == Field(x, n)[i - (8 - n)];
        assert BitOf(y, i) == Field(y, n)[i - (8 - n)];
      }
    }
    SameBits(x, y);
  }

  /** All bits of a buffer in order. */
  function Bits(bytes: seq<bv8>): (bits: seq<bool>)
    ensures |bits| == 8 * |bytes|
  {
    seq(8 * |bytes|, k requires 0 <= k < 8 * |bytes| => BitOf(bytes[k / 8], k % 8))
  }

  // ------------------------------------------------------------- the bit stream

  /** What bs_put does to the byte at the write position, and to the next one. */
  function PutHigh(b: bv8, bits: bv8, n: nat, remain: nat): bv8
    requires 1 <= n <= 8 && 1 <= remain <= 8
  {
    if n > remain then b | Shr(bits, n - remain) else b | Shl(bits, remain - n)
  }

  /** The bits that bs_get takes from the byte at the read position. */
  function GetHigh(b: bv8, n: nat, remain: nat): bv8
    requires 1 <= n <= 8 && 1 <= remain <= 8
  {
    Shr(Shl(b, 8 - remain), 8 - n)
  }

  lemma PutHighBits(b: bv8, bits: bv8, n: nat, remain: nat, i: nat)
    requires 1 <= n <= 8 && 1 <= remain <= 8 && i < 8 && Fits(bits, n)
    ensures i < 8 - remain ==> BitOf(PutHigh(b, bits, n, remain), i) == BitOf(b, i)
    ensures i >= 8 - remain && !BitOf(b, i) ==>
              BitOf(PutHigh(b, bits, n, remain), i) == (i + remain < 8 + n && BitOf(bits, i + remain - n))
  {
    hide BitOf, Fits, Shl, Shr;
    FitsIff(bits, n);
    if n > remain {
      BitOfOr(b, Shr(bits, n - remain), i);
      BitOfShr(bits, n - remain, i);
    } else {
      BitOfOr(b, Shl(bits, remain - n), i);
      BitOfShl(bits, remain - n, i);
    }
  }

  /** The buffer after bs_put. */
  function PutBytes(buf: seq<bv8>, pos: nat, remain: nat, bits: bv8, n: nat): (after: seq<bv8>)
    requires 1 <= n <= 8 && 1 <= remain <= 8 && pos < |buf|
    requires n > remain ==> pos + 1 < |buf|
    ensures |after| == |buf|
  {
    var one := buf[pos := PutHigh(buf[pos], bits, n, remain)];
    if n > remain then one[pos + 1 := Shl(bits, 8 - (n - remain))] else one
  }

  /** No bit is set from `c` on. */
  ghost predicate ClearFrom(buf: seq<bv8>, c: nat) {
    forall k :: c <= k < 8 * |buf| ==> !Bits(buf)[k]
  }

  lemma PutBit(buf: seq<bv8>, pos: nat, remain: nat, bits: bv8, n: nat, at: nat, i: nat)
    requires 1 <= n <= 8 && 1 <= remain <= 8 && pos < |buf| && Fits(bits, n)
    requires n > remain ==> pos + 1 < |buf|
    requires at < |buf| && i < 8
    requires 8 * at + i >= 8 * pos + 8 - remain ==> !BitOf(buf[at], i)
    ensures var c, k := 8 * pos + 8 - remain, 8 * at + i;
            BitOf(PutBytes(buf, pos, remain, bits, n)[at], i)
              == if k < c then BitOf(buf[at], i) else k < c + n && BitOf(bits, 8 - n + (k - c))
  {
    hide BitOf, Fits, Mask, Shl, Shr, Bits, PutHigh;
    if at == pos {
      PutHighBits(buf[at], bits, n, remain, i);
    } else if at == pos + 1 && n > remain {
      BitOfShl(bits, 8 - (n - remain), i);
    }
  }

  /** bs_put appends the field and leaves the rest of the buffer clear. */
  lemma PutAppends(buf: seq<bv8>, pos: nat, remain: nat, bits: bv8, n: nat)
    requires 1 <= n <= 8 && 1 <= remain <= 8 && pos < |buf| && Fits(bits, n)
    requires n > remain ==> pos + 1 < |buf|
    requires ClearFrom(buf, 8 * pos + 8 - remain)
    ensures var c, after := 8 * pos + 8 - remain, PutBytes(buf, pos, remain, bits, n);
            && c + n <= 8 * |buf|
            && Bits(after)[..c + n] == Bits(buf)[..c] + Field(bits, n)
            && ClearFrom(after, c + n)
  {
    hide BitOf, Fits, PutBytes;
    var c, after := 8 * pos + 8 - remain, PutBytes(buf, pos, remain, bits, n);
    forall k: nat | k < 8 * |buf|
      ensures Bits(after)[k] == if k < c then Bits(buf)[k] else k < c + n && Field(bits, n)[k - c]
    {
      assert k >= c ==> !Bits(buf)[k];
      PutBit(buf, pos, remain, bits, n, k / 8, k % 8);
    }
    hide *;
    Appended(Bits(buf), Bits(after), c, Field(bits, n));
    ClearAfter(after, c + n);
  }

  lemma Appended(a: seq<bool>, b: seq<bool>, c: nat, f: seq<bool>)
    requires |a| == |b| && c + |f| <= |a|
    requires forall k: nat :: k < |a| ==> b[k] == if k < c then a[k] else k < c + |f| && f[k - c]
    ensures b[..c + |f|] == a[..c] + f
  {}

  lemma ClearAfter(buf: seq<bv8>, c: nat)
    requires forall k: nat :: c <= k < 8 * |buf| ==> !Bits(buf)[k]
    ensures ClearFrom(buf, c)
  {}

  /** What bs_get returns. */
  function GetBits(buf: seq<bv8>, pos: nat, remain: nat, n: nat): bv8
    requires 1 <= n <= 8 && 1 <= remain <= 8 && pos < |buf|
    requires n > remain ==> pos + 1 < |buf|
  {
    var out := GetHigh(buf[pos], n, remain);
    if n > remain then out | Shr(buf[pos + 1], remain + 8 - n) else out
  }

  lemma GetBit(buf: seq<bv8>, pos: nat, remain: nat, n: nat, i: nat)
    requires 1 <= n <= 8 && 1 <= remain <= 8 && pos < |buf| && i < 8
    requires n > remain ==> pos + 1 < |buf|
    ensures BitOf(GetBits(buf, pos, remain, n), i)
              == (i >= 8 - n && Bits(buf)[8 * pos + 8 - remain + (i - (8 - n))])
  {
    hide BitOf, Mask, Shl, Shr;
    var b := buf[pos];
    BitOfShr(Shl(b, 8 - remain), 8 - n, i);
    if i >= 8 - n {
      BitOfShl(b, 8 - remain, i - (8 - n));
    }
    if n > remain {
      BitOfOr(GetHigh(b, n, remain), Shr(buf[pos + 1], remain + 8 - n), i);
      BitOfShr(buf[pos + 1], remain + 8 - n, i);
    }
  }

  /** bs_get returns the value of the next field. */
  lemma GetIsField(buf: seq<bv8>, pos: nat, remain: nat, n: nat)
    requires 1 <= n <= 8 && 1 <= remain <= 8 && pos < |buf|
    requires n > remain ==> pos + 1 < |buf|
    ensures var c, out := 8 * pos + 8 - remain, GetBits(buf, pos, remain, n);
            Fits(out, n) && c + n <= 8 * |buf| && Field(out, n) == Bits(buf)[c..c + n]
  {
    hide BitOf, Fits, GetBits, Bits, Field;
    var c, out := 8 * pos + 8 - remain, GetBits(buf, pos, remain, n);
    forall i: nat | i < 8
      ensures BitOf(out, i) == (i >= 8 - n && Bits(buf)[c + (i - (8 - n))])
    {
      GetBit(buf, pos, remain, n, i);
    }
    FitsIff(out, n);
    FieldBits(out, n);
    hide *;
    SliceIs(Bits(buf), c, Field(out, n));
  }

  lemma FieldBits(x: bv8, n: nat)
    requires n <= 8
    ensures |Field(x, n)| == n && forall j :: 0 <= j < n ==> Field(x, n)[j] == BitOf(x, 8 - n + j)
  {}

  lemma SliceIs(all: seq<bool>, c: nat, f: seq<bool>)
    requires c + |f| <= |all| && forall j :: 0 <= j < |f| ==> f[j] == all[c + j]
    ensures all[c..c + |f|] == f
  {}

  class Bitstream {
    var buf: array<bv8>
    var pos: nat
    var remain: nat

    ghost predicate Valid()
      reads this
    {
      remain <= 8 && (remain == 8 ==> pos == 0) && Cursor() <= 8 * buf.Length
    }

    /** How many bits have been written, or read. */
    ghost function Cursor(): nat
      requires remain <= 8
      reads this
    {
      8 * pos + 8 - remain
    }

    ghost function Done(): seq<bool>
      requires Valid()
      reads this, buf
    {
      Bits(buf[..])[..Cursor()]
    }

    /** bs_create, then bs_attach. */
    constructor (buf: array<bv8>)
      ensures Valid() && this.buf == buf && Cursor() == 0
    {
      this.buf, pos, remain := buf, 0, 8;
    }

    method Attach(buf: array<bv8>)
      modifies this
      ensures Valid() && this.buf == buf && Cursor() == 0
    {
      this.buf, pos, remain := buf, 0, 8;
    }

    method Put(bits: bv8, n: nat)
      requires Valid() && 1 <= n <= 8 && Fits(bits, n)
      requires Cursor() + n <= 8 * buf.Length && ClearFrom(buf[..], Cursor())
      modifies this, buf
      ensures buf == old(buf) && Valid() && Cursor() == old(Cursor()) + n
      ensures Done() == old(Done()) + Field(bits, n) && ClearFrom(buf[..], Cursor())
    {
      hide Bits, Field, Fits, BitOf, PutBytes, ClearFrom;
      ghost var was := buf[..];
      if remain == 0 { pos, remain := pos + 1, 8; }
      PutAppends(was, pos, remain, bits, n);
      Store(bits, n);
    }

    /** The stores of bs_put. */
    method Store(bits: bv8, n: nat)
      requires 1 <= n <= 8 && 1 <= remain <= 8 && pos < buf.Length
      requires n > remain ==> pos + 1 < buf.Length
      modifies this, buf
      ensures buf == old(buf) && remain < 8 && Cursor() == old(Cursor()) + n
      ensures buf[..] == PutBytes(old(buf[..]), old(pos), old(remain), bits, n)
    {
      if n > remain {
        var over := n - remain;
        buf[pos] := buf[pos] | Shr(bits, over);
        pos := pos + 1;
        remain := 8 - over;
        buf[pos] := Shl(bits, remain);
      } else {
        buf[pos] := buf[pos] | Shl(bits, remain - n);
        remain := remain - n;
      }
    }

    method Get(n: nat) returns (out: bv8)
      requires Valid() && 1 <= n <= 8 && Cursor() + n <= 8 * buf.Length
      modifies this
      ensures buf == old(buf) && Valid() && Cursor() == old(Cursor()) + n
      ensures Fits(out, n) && Field(out, n) == Bits(buf[..])[old(Cursor())..Cursor()]
    {
      hide Bits, Fits, Field, GetBits;
      if remain == 0 { pos, remain := pos + 1, 8; }
      GetIsField(buf[..], pos, remain, n);
      out := Load(n);
    }

    /** The loads of bs_get. */
    method Load(n: nat) returns (out: bv8)
      requires 1 <= n <= 8 && 1 <= remain <= 8 && pos < buf.Length
      requires n > remain ==> pos + 1 < buf.Length
      modifies this
      ensures buf == old(buf) && remain < 8 && Cursor() == old(Cursor()) + n
      ensures out == GetBits(buf[..], old(pos), old(remain), n)
    {
      hide Shl, Shr;
      out := Shr(Shl(buf[pos], 8 - remain), 8 - n);
      if n > remain {
        pos := pos + 1;
        remain := remain + 8 - n;
        out := out | Shr(buf[pos], remain);
      } else {
        remain := remain - n;
      }
    }

    method BytesUsed() returns (used: nat)
      requires Valid()
      ensures used == (Cursor() + 7) / 8
    {
      used := pos;
      if remain != 8 { used := used + 1; }
    }
  }

  // ------------------------------------------------------------------ round trip

  datatype Item = Item(bits: bv8, width: nat)

  ghost predicate ValidItem(it: Item) {
    1 <= it.width <= 8 && Fits(it.bits, it.width)
  }

  /** The fields of the items, one after the other. */
  ghost function Packed(items: seq<Item>): seq<bool>
    requires forall it <- items :: ValidItem(it)
  {
    if items == [] then []
    else
      var last := items[|items| - 1];
      assert ValidItem(last);
      Packed(items[..|items| - 1]) + Field(last.bits, last.width)
  }

  lemma PackedNext(items: seq<Item>, i: nat)
    requires i < |items| && forall it <- items :: ValidItem(it)
    ensures ValidItem(items[i])
    ensures Packed(items[..i + 1]) == Packed(items[..i]) + Field(items[i].bits, items[i].width)
  {
    assert items[..i + 1][..i] == items[..i];
  }

  lemma NothingPacked(items: seq<Item>)
    requires forall it <- items :: ValidItem(it)
    ensures Packed(items[..0]) == []
  {}

  /** What is packed first is a prefix of all that is packed. */
  lemma {:induction false} PackedPrefix(items: seq<Item>, i: nat)
    requires i <= |items| && forall it <- items :: ValidItem(it)
    ensures Packed(items[..i]) <= Packed(items)
    decreases |items| - i
  {
    if i == |items| {
      assert items[..i] == items;
    } else {
      PackedPrefix(items, i + 1);
      PackedNext(items, i);
    }
  }

  /** Pack all items into a clear buffer. */
  method PackAll(items: seq<Item>, buf: array<bv8>, b: Bitstream)
    requires forall it <- items :: ValidItem(it)
    requires |Packed(items)| <= 8 * buf.Length && ClearFrom(buf[..], 0)
    requires b.Valid() && b.buf == buf && b.Cursor() == 0
    modifies b, buf
    ensures b.buf == buf && b.Valid() && b.Cursor() == |Packed(items)|
    ensures Packed(items) <= Bits(buf[..])
  {
    hide ClearFrom, Bits, Field, Packed, ValidItem;
    NothingPacked(items);
    var i := 0;
    while i < |items|
      invariant i <= |items| && b.buf == buf && b.Valid()
      invariant b.Done() == Packed(items[..i]) && ClearFrom(buf[..], b.Cursor())
    {
      PackedPrefix(items, i + 1);
      PackedNext(items, i);
      ItemIs(items[i]);
      b.Put(items[i].bits, items[i].width);
      i := i + 1;
    }
    assert items[..i] == items;
  }

  /** Read items of the same widths. */
  method UnpackAll(items: seq<Item>, buf: array<bv8>, b: Bitstream) returns (values: seq<bv8>)
    requires forall it <- items :: ValidItem(it)
    requires Packed(items) <= Bits(buf[..])
    requires b.Valid() && b.buf == buf && b.Cursor() == 0
    modifies b
    ensures |values| == |items| && forall i :: 0 <= i < |items| ==> values[i] == items[i].bits
  {
    hide Bits, Field, Packed, ValidItem, Fits;
    NothingPacked(items);
    values := [];
    while |values| < |items|
      invariant |values| <= |items| && b.buf == buf && b.Valid()
      invariant b.Cursor() == |Packed(items[..|values|])|
      invariant forall i :: 0 <= i < |values| ==> values[i] == items[i].bits
    {
      var i := |values|;
      PackedPrefix(items, i + 1);
      PackedNext(items, i);
      ItemIs(items[i]);
      var v := b.Get(items[i].width);
      assert Packed(items[..i + 1]) <= Bits(buf[..]);
      FieldAt(Bits(buf[..]), Packed(items[..i]), Field(items[i].bits, items[i].width));
      FieldInjective(v, items[i].bits, items[i].width);
      values := values + [v];
    }
  }

  lemma ItemIs(it: Item)
    requires ValidItem(it)
    ensures 1 <= it.width <= 8 && Fits(it.bits, it.width) && |Field(it.bits, it.width)| == it.width
  {}

  lemma FieldAt(all: seq<bool>, before: seq<bool>, f: seq<bool>)
    requires before + f <= all
    ensures all[|before|..|before| + |f|] == f
  {}

  /** Write items into a zeroed buffer of enough bytes, attach again, read them back. */
  method RoundTrip(items: seq<Item>, size: nat) returns (values: seq<bv8>, used: nat)
    requires forall it <- items :: ValidItem(it)
    requires |Packed(items)| <= 8 * size
    ensures |values| == |items| && forall i :: 0 <= i < |items| ==> values[i] == items[i].bits
    ensures used == (|Packed(items)| + 7) / 8 <= size
  {
    hide Packed, Field, Fits, ValidItem;
    var buf := new bv8[size](_ => 0);
    ZeroIsClear(buf[..]);
    var b := new Bitstream(buf);
    PackAll(items, buf, b);
    used := b.BytesUsed();
    b.Attach(buf);
    values := UnpackAll(items, buf, b);
  }

  lemma ZeroIsClear(bytes: seq<bv8>)
    requires forall i :: 0 <= i < |bytes| ==> bytes[i] == 0
    ensures ClearFrom(bytes, 0)
  {
    forall k: nat | k < 8 * |bytes|
      ensures !Bits(bytes)[k]
    {
      assert 0 & Mask(k % 8) == 0;
    }
  }
}
