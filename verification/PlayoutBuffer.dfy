/**
  The playout buffer of RAT (rat/playout.c): units ordered by strictly increasing playout
  time.  The doubly linked list is a sequence here, an iterator an index into it; times are
  unbounded integers.
 */
module PlayoutBuffers {

  datatype Node<D> = Node(playout: int, data: D)

  ghost predicate Sorted<D>(s: seq<Node<D>>) {
    forall i, j :: 0 <= i < j < |s| ==> s[i].playout < s[j].playout
  }

  /** Position of the unit for time `t`, or -1. */
  ghost function Position<D>(s: seq<Node<D>>, t: int): (at: int)
    ensures at == -1 ==> forall i :: 0 <= i < |s| ==> s[i].playout != t
    ensures at != -1 ==> 0 <= at < |s| && s[at].playout == t
  {
    if s == [] then -1
    else if s[|s| - 1].playout == t then |s| - 1
    else Position(s[..|s| - 1], t)
  }

  /** The buffer as the finite map that its users see. */
  ghost function Contents<D>(s: seq<Node<D>>): (m: map<int, D>) {
    map t | t in (set n <- s :: n.playout) :: s[Position(s, t)].data
  }

  lemma InContents<D>(s: seq<Node<D>>, t: int)
    ensures t in Contents(s) <==> Position(s, t) != -1
    ensures t in Contents(s) ==> Contents(s)[t] == s[Position(s, t)].data
  {
    if Position(s, t) != -1 {
      assert s[Position(s, t)] in s;
    }
  }

  lemma PositionIs<D>(s: seq<Node<D>>, i: nat)
    requires Sorted(s) && i < |s|
    ensures Position(s, s[i].playout) == i
  {}

  lemma PositionAfterInsert<D>(s: seq<Node<D>>, at: nat, n: Node<D>, t: int)
    requires at <= |s| && Sorted(s)
    requires forall i :: 0 <= i < at ==> s[i].playout < n.playout
    requires forall i :: at <= i < |s| ==> n.playout < s[i].playout
    ensures var s' := s[..at] + [n] + s[at..];
            && Sorted(s')
            && Position(s, n.playout) == -1
            && Position(s', t) ==
                 if t == n.playout then at
                 else if Position(s, t) < at then Position(s, t) else Position(s, t) + 1
  {
    var s' := s[..at] + [n] + s[at..];
    InsertSorted(s, at, n);
    hide Position;
    var p := Position(s, t);
    if t == n.playout {
      assert s'[at].playout == t;
      PositionIs(s', at);
    } else if p != -1 {
      var p' := if p < at then p else p + 1;
      assert s'[p'] == s[p];
      PositionIs(s', p');
    } else {
      forall i | 0 <= i < |s'|
        ensures s'[i].playout != t
      {
        if i < at { assert s'[i] == s[i]; } else if i > at { assert s'[i] == s[i - 1]; }
      }
    }
  }

  lemma InsertSorted<D>(s: seq<Node<D>>, at: nat, n: Node<D>)
    requires at <= |s| && Sorted(s)
    requires forall i :: 0 <= i < at ==> s[i].playout < n.playout
    requires forall i :: at <= i < |s| ==> n.playout < s[i].playout
    ensures Sorted(s[..at] + [n] + s[at..])
  {
    var s' := s[..at] + [n] + s[at..];
    assert forall i :: 0 <= i < at ==> s'[i] == s[i];
    forall i | at < i < |s'|
      ensures s'[i] == s[i - 1]
    {}
  }

  lemma ContentsOfInsert<D>(s: seq<Node<D>>, at: nat, n: Node<D>)
    requires at <= |s| && Sorted(s)
    requires forall i :: 0 <= i < at ==> s[i].playout < n.playout
    requires forall i :: at <= i < |s| ==> n.playout < s[i].playout
    ensures var s' := s[..at] + [n] + s[at..];
            Sorted(s') && n.playout !in Contents(s) && Contents(s') == Contents(s)[n.playout := n.data]
  {
    var s' := s[..at] + [n] + s[at..];
    PositionAfterInsert(s, at, n, n.playout);
    InContents(s, n.playout);
    forall t
      ensures t in Contents(s') <==> t in Contents(s) || t == n.playout
      ensures t in Contents(s') ==> Contents(s')[t] == if t == n.playout then n.data else Contents(s)[t]
    {
      InsertedAt(s, at, n, t);
    }
    assert Contents(s').Keys == Contents(s).Keys + {n.playout};
  }

  lemma InsertedAt<D>(s: seq<Node<D>>, at: nat, n: Node<D>, t: int)
    requires at <= |s| && Sorted(s)
    requires forall i :: 0 <= i < at ==> s[i].playout < n.playout
    requires forall i :: at <= i < |s| ==> n.playout < s[i].playout
    ensures var s' := s[..at] + [n] + s[at..];
            && (t in Contents(s') <==> t in Contents(s) || t == n.playout)
            && (t in Contents(s') ==> Contents(s')[t] == if t == n.playout then n.data else Contents(s)[t])
  {
    hide Contents, Position;
    var s' := s[..at] + [n] + s[at..];
    PositionAfterInsert(s, at, n, t);
    InContents(s, t);
    InContents(s', t);
    var p := Position(s, t);
    if t != n.playout && p != -1 {
      assert s'[if p < at then p else p + 1] == s[p];
    }
  }

  lemma ContentsOfUpdate<D>(s: seq<Node<D>>, at: nat, data: D)
    requires at < |s| && Sorted(s)
    ensures var s' := s[at := Node(s[at].playout, data)];
            Sorted(s') && Contents(s') == Contents(s)[s[at].playout := data]
  {
    hide Contents;
    var s' := s[at := Node(s[at].playout, data)];
    forall t
      ensures t in Contents(s') <==> t in Contents(s)
      ensures t in Contents(s') ==> Contents(s')[t] == if t == s[at].playout then data else Contents(s)[t]
      ensures s[at].playout in Contents(s)
    {
      UpdatedAt(s, at, data, t);
    }
  }

  lemma UpdatedAt<D>(s: seq<Node<D>>, at: nat, data: D, t: int)
    requires at < |s| && Sorted(s)
    ensures var s' := s[at := Node(s[at].playout, data)];
            && (t in Contents(s') <==> t in Contents(s))
            && (t in Contents(s') ==> Contents(s')[t] == if t == s[at].playout then data else Contents(s)[t])
            && s[at].playout in Contents(s)
  {
    hide Contents, Position;
    var s' := s[at := Node(s[at].playout, data)];
    InContents(s, t);
    InContents(s', t);
    InContents(s, s[at].playout);
    PositionIs(s, at);
    SamePosition(s, s', t);
  }

  lemma SamePosition<D>(s: seq<Node<D>>, s': seq<Node<D>>, t: int)
    requires |s| == |s'| && forall i :: 0 <= i < |s| ==> s[i].playout == s'[i].playout
    ensures Position(s, t) == Position(s', t)
  {}

  class PlayoutBuffer<D> {
    var nodes: seq<Node<D>>

    ghost predicate Valid()
      reads this
    {
      Sorted(nodes)
    }

    ghost function View(): map<int, D>
      reads this
    {
      Contents(nodes)
    }

    constructor ()
      ensures Valid() && View() == map[] && nodes == []
    {
      nodes := [];
    }

    /** pb_add: search back from the tail; a second unit for the same time is refused. */
    method Add(data: D, playout: int) returns (added: bool)
      requires Valid()
      modifies this
      ensures Valid()
      ensures added <==> playout !in old(View())
      ensures View() == if added then old(View())[playout := data] else old(View())
      ensures old(nodes) == [] || old(nodes)[|old(nodes)| - 1].playout < playout ==>
                added && nodes == old(nodes) + [Node(playout, data)]
    {
      hide Contents, Position;
      var at := |nodes|;
      while at > 0 && nodes[at - 1].playout > playout
        invariant 0 <= at <= |nodes|
        invariant forall i :: at <= i < |nodes| ==> playout < nodes[i].playout
      {
        at := at - 1;
      }
      if at > 0 && nodes[at - 1].playout == playout {
        PositionIs(nodes, at - 1);
        InContents(nodes, playout);
        return false;
      }
      ContentsOfInsert(nodes, at, Node(playout, data));
      nodes := nodes[..at] + [Node(playout, data)] + nodes[at..];
      return true;
    }

    /** The retreating loop of red_media_data_create_or_get. */
    method Find(playout: int) returns (at: int)
      requires Valid()
      ensures at == -1 <==> playout !in View()
      ensures at != -1 ==> 0 <= at < |nodes| && nodes[at].playout == playout && View()[playout] == nodes[at].data
    {
      at := |nodes| - 1;
      while at >= 0 && nodes[at].playout >= playout
        invariant -1 <= at < |nodes|
        invariant forall i :: at < i < |nodes| ==> playout < nodes[i].playout
      {
        if nodes[at].playout == playout {
          PositionIs(nodes, at);
          InContents(nodes, playout);
          return;
        }
        at := at - 1;
      }
      InContents(nodes, playout);
      at := -1;
    }

    method Replace(at: nat, data: D)
      requires Valid() && at < |nodes|
      modifies this
      ensures Valid() && View() == old(View())[old(nodes)[at].playout := data]
    {
      ContentsOfUpdate(nodes, at, data);
      nodes := nodes[at := Node(nodes[at].playout, data)];
    }

    /** pb_iterator_detach_at on the oldest unit. */
    method DetachHead() returns (n: Node<D>)
      requires Valid() && nodes != []
      modifies this
      ensures Valid() && n == old(nodes)[0] && nodes == old(nodes)[1..]
    {
      n := nodes[0];
      nodes := nodes[1..];
    }

    /** pb_iterator_audit: drop everything more than `history` older than the unit at `at`. */
    method Audit(at: nat, history: nat) returns (removed: nat)
      requires Valid() && at < |nodes|
      modifies this
      ensures Valid() && removed <= at && nodes == old(nodes)[removed..]
      ensures forall i :: 0 <= i < removed ==> old(nodes)[i].playout < old(nodes)[at].playout - history
      ensures forall i :: removed <= i < |old(nodes)| ==> old(nodes)[i].playout >= old(nodes)[at].playout - history
    {
      var cutoff := nodes[at].playout - history;
      removed := 0;
      while cutoff > nodes[0].playout
        invariant removed <= at && nodes == old(nodes)[removed..]
        invariant forall i :: 0 <= i < removed ==> old(nodes)[i].playout < cutoff
        decreases |nodes|
      {
        assert nodes[0] == old(nodes)[removed];
        nodes := nodes[1..];
        removed := removed + 1;
      }
      assert nodes[0] == old(nodes)[removed];
    }
  }
}
