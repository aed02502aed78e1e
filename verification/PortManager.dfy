/**
  Allocation of RTP/RTCP port pairs (bonephone/PortManager.java).

  `Ports` is the value of the manager's fields.  A pair is named by its even index in
  `busy`; the port it stands for is that index plus `first`.
 */
module PortManagers {
  import opened Options

  type Port = n: nat | n % 2 == 0

  datatype Ports = Ports(busy: seq<bool>, first: nat, next: nat)

  /** Both flags of a pair are the same. */
  predicate PairEqual(busy: seq<bool>, i: nat) {
    i + 1 < |busy| ==> busy[i] == busy[i + 1]
  }

  predicate ValidPorts(p: Ports) {
    && |p.busy| % 2 == 0 && p.first % 2 == 0
    && p.next % 2 == 0 && p.next <= |p.busy|
    && forall i :: 0 <= i < |p.busy| && i % 2 == 0 ==> PairEqual(p.busy, i)
  }

  predicate IsPair(p: Ports, q: int) {
    0 <= q < |p.busy| && q % 2 == 0
  }

  predicate IsFree(p: Ports, q: int) {
    IsPair(p, q) && !p.busy[q]
  }

  /** The first free even index from `from` on and below `to`, else `to` or beyond. */
  function Search(busy: seq<bool>, from: nat, to: nat): (q: nat)
    requires from % 2 == 0 && to <= |busy|
    ensures q % 2 == 0 && from <= q
    ensures q < to ==> !busy[q]
    ensures forall i :: (from <= i < q && i < to && i % 2 == 0) ==> busy[i]
    decreases |busy| + 2 - from
  {
    if from >= to || !busy[from] then from else Search(busy, from + 2, to)
  }

  function Take(p: Ports, q: nat): (p': Ports)
    requires ValidPorts(p) && IsPair(p, q)
    ensures ValidPorts(p')
  {
    var busy := p.busy[q := true][q + 1 := true];
    assert forall i :: 0 <= i < |busy| && i % 2 == 0 && PairEqual(p.busy, i) ==> PairEqual(busy, i);
    p.(busy := busy, next := q + 2)
  }

  /** The manager after getPort and the port it gave out, `None` standing for the exception. */
  function Allot(p: Ports): (r: (Ports, Option<Port>))
    requires ValidPorts(p)
    ensures ValidPorts(r.0)
  {
    var up := Search(p.busy, p.next, |p.busy|);
    if up < |p.busy| then (Take(p, up), Some(up + p.first))
    else
      var low := Search(p.busy, 0, p.next);
      if low < p.next then (Take(p, low), Some(low + p.first)) else (p, None)
  }

  /** Only ports strictly above the first one are ever released. */
  function Release(p: Ports, port: Port): (p': Ports)
    requires ValidPorts(p)
    ensures ValidPorts(p')
  {
    if p.first < port < p.first + |p.busy|
    then
      var busy := p.busy[port - p.first := false][port - p.first + 1 := false];
      assert forall i :: 0 <= i < |busy| && i % 2 == 0 && PairEqual(p.busy, i) ==> PairEqual(busy, i);
      p.(busy := busy)
    else p
  }

  /** What a caller gets: an even port of a free pair, which is marked busy and no other
      changes; and an exception exactly when every pair is busy. */
  lemma GetPortGives(p: Ports)
    requires ValidPorts(p)
    ensures var (p', port) := Allot(p);
            match port
            case Some(n) =>
              && n % 2 == 0 && IsFree(p, n - p.first)
              && p'.first == p.first && |p'.busy| == |p.busy|
              && p'.busy[n - p.first] && p'.busy[n - p.first + 1]
              && forall i :: 0 <= i < |p.busy| && i != n - p.first && i != n - p.first + 1 ==> p'.busy[i] == p.busy[i]
            case None => p' == p
    ensures Allot(p).1 == None <==> forall q :: IsPair(p, q) ==> p.busy[q]
  {}

  /** Steps from the search position to pair `q`, going round at the end. */
  function Distance(p: Ports, q: nat): (d: int)
    requires ValidPorts(p) && IsPair(p, q)
    ensures 0 <= d < |p.busy| && d % 2 == 0
  {
    if q >= p.next then q - p.next else q - p.next + |p.busy|
  }

  lemma GetPortCloses(p: Ports, q: nat)
    requires ValidPorts(p) && IsFree(p, q)
    ensures var (p', port) := Allot(p);
            && port.Some?
            && (port.value != q + p.first ==>
                  p'.first == p.first && IsFree(p', q) && Distance(p', q) + 2 <= Distance(p, q))
  {
    GetPortGives(p);
  }

  datatype Op = Get | Free(port: Port)

  function Do(p: Ports, op: Op): (p': Ports)
    requires ValidPorts(p)
    ensures ValidPorts(p')
  {
    match op
    case Get => Allot(p).0
    case Free(port) => Release(p, port)
  }

  function Gets(ops: seq<Op>): nat {
    if ops == [] then 0 else (if ops[0] == Get then 1 else 0) + Gets(ops[1..])
  }

  /** Some getPort among `ops` gives out pair `q`. */
  predicate HandedOut(p: Ports, ops: seq<Op>, q: nat)
    requires ValidPorts(p)
    decreases |ops|
  {
    ops != [] &&
    (|| (ops[0] == Get && Allot(p).1 == Some(q + p.first))
     || HandedOut(Do(p, ops[0]), ops[1..], q))
  }

  lemma ReleaseKeeps(p: Ports, port: Port, q: nat)
    requires ValidPorts(p) && IsFree(p, q)
    ensures var p' := Release(p, port);
            p'.first == p.first && IsFree(p', q) && Distance(p', q) == Distance(p, q)
  {}

  lemma {:induction false} CloserUntilHandedOut(p: Ports, ops: seq<Op>, q: nat)
    requires ValidPorts(p) && IsFree(p, q)
    requires 2 * Gets(ops) > Distance(p, q)
    ensures HandedOut(p, ops, q)
    decreases |ops|
  {
    if ops != [] {
      if ops[0].Free? {
        ReleaseKeeps(p, ops[0].port, q);
        CloserUntilHandedOut(Release(p, ops[0].port), ops[1..], q);
      } else if Allot(p).1 != Some(q + p.first) {
        GetPortCloses(p, q);
        CloserUntilHandedOut(Allot(p).0, ops[1..], q);
      }
    }
  }

  /** Bounded waiting: however gets and releases are mixed, a free pair is given out within
      as many getPort calls as there are pairs. */
  lemma BoundedWaiting(p: Ports, ops: seq<Op>, q: nat)
    requires ValidPorts(p) && IsFree(p, q)
    requires Gets(ops) >= |p.busy| / 2
    ensures HandedOut(p, ops, q)
  {
    CloserUntilHandedOut(p, ops, q);
  }

  /** Releasing a pair that was handed out frees it and touches no other; except that the first
      pair stays busy. */
  lemma ReleaseFrees(p: Ports, port: Port)
    requires ValidPorts(p) && IsPair(p, port - p.first) && p.busy[port - p.first]
    ensures var p' := Release(p, port); var q := port - p.first;
            && (IsFree(p', q) <==> port != p.first)
            && p'.first == p.first && p'.next == p.next && |p'.busy| == |p.busy|
            && forall i :: 0 <= i < |p.busy| && i != q && i != q + 1 ==> p'.busy[i] == p.busy[i]
  {}

  /** So once the first pair is busy it is never given out again, whoever releases it. */
  lemma {:induction false} FirstPairGone(p: Ports, ops: seq<Op>)
    requires ValidPorts(p) && p.busy != [] && p.busy[0]
    ensures !HandedOut(p, ops, 0)
    decreases |ops|
  {
    GetPortGives(p);
    if ops != [] {
      FirstPairGone(Do(p, ops[0]), ops[1..]);
    }
  }

  /** And that befalls every manager: its first port is the first it gives out. */
  lemma FirstPortOnce(n: nat, first: nat, ops: seq<Op>)
    requires n > 0 && n % 2 == 0 && first % 2 == 0
    ensures var p := Ports(seq(n, _ => false), first, 0);
            && ValidPorts(p) && Allot(p).1 == Some(first)
            && !HandedOut(Allot(p).0, ops, 0)
  {
    var p := Ports(seq(n, _ => false), first, 0);
    GetPortGives(p);
    FirstPairGone(Allot(p).0, ops);
  }

  lemma SearchTurns(busy: seq<bool>, p: nat, to: nat)
    requires p % 2 == 0 && p < to <= |busy|
    ensures Search(busy, p, to) == if busy[p] then Search(busy, p + 2, to) else p
  {}

  lemma SearchEnds(busy: seq<bool>, p: nat, to: nat)
    requires p % 2 == 0 && to <= p && to <= |busy|
    ensures Search(busy, p, to) == p
  {}

  lemma SameParity(x: int, q: int, m: nat)
    requires x == 65536 * q + m
    ensures m % 2 == x % 2
  {
    var k := m / 2;
    assert x == 2 * (32768 * q + k) + m % 2;
  }

  /** `x & 65534` on 32-bit two's complement. */
  function Even16(x: int): (r: nat)
    ensures r % 2 == 0 && r < 65536
    ensures x - r - x % 2 == x / 65536 * 65536
  {
    SameParity(x, x / 65536, x % 65536);
    x % 65536 / 2 * 2
  }

  class PortManager {
    const first: nat
    const portbusy: array<bool>
    var next: nat

    ghost function View(): Ports
      reads this, portbusy
    {
      Ports(portbusy[..], first, next)
    }

    constructor (first: int, count: int)
      ensures ValidPorts(View()) && fresh(portbusy)
      ensures View() == Ports(seq(Even16(if count < 2 then 2 else count), _ => false), Even16(first), 0)
      ensures 0 <= first < 65536 ==> this.first == first - first % 2
      ensures count < 2 ==> portbusy.Length == 2
      ensures 2 <= count < 65536 ==> portbusy.Length == count - count % 2
    {
      var n := Even16(if count < 2 then 2 else count);
      var a := new bool[n];
      for i := 0 to n
        invariant forall k :: 0 <= k < i ==> !a[k]
      {
        a[i] := false;
      }
      next, portbusy, this.first := 0, a, Even16(first);
      new;
      assert portbusy[..] == seq(n, _ => false);
    }

    method GetPort() returns (port: Option<Port>)
      requires ValidPorts(View())
      modifies this`next, portbusy
      ensures (View(), port) == Allot(old(View()))
    {
      port := Scan(next, portbusy.Length);
      if port == None {
        port := Scan(0, next);
      }
    }

    /** One of getPort's two loops. */
    method Scan(from: nat, to: nat) returns (port: Option<Port>)
      requires ValidPorts(View()) && from % 2 == 0 && to <= portbusy.Length
      modifies this`next, portbusy
      ensures var q := Search(old(View()).busy, from, to);
              if q < to then View() == Take(old(View()), q) && port == Some(q + first)
              else View() == old(View()) && port == None
    {
      hide Search, PairEqual;
      ghost var busy := portbusy[..];
      var p := from;
      while p < to
        invariant p % 2 == 0
        invariant portbusy[..] == busy && next == old(next)
        invariant Search(busy, from, to) == Search(busy, p, to)
      {
        SearchTurns(busy, p, to);
        if !portbusy[p] {
          portbusy[p] := true;
          portbusy[p + 1] := true;
          next := p + 2;
          assert portbusy[..] == busy[p := true][p + 1 := true];
          return Some(p + first);
        }
        p := p + 2;
      }
      SearchEnds(busy, p, to);
      return None;
    }

    method FreePort(port: Port)
      requires ValidPorts(View())
      modifies portbusy
      ensures View() == Release(old(View()), port)
    {
      if port > first && port < portbusy.Length + first {
        var p := port - first;
        portbusy[p] := false;
        portbusy[p + 1] := false;
        assert portbusy[..] == old(portbusy[..])[p := false][p + 1 := false];
      }
    }
  }
}
