/**
 The doubly linked list with three sentinels of
 header/actors-framework/detail/intrusive_partitioned_list.hpp: it represents two sequences, the part
 between head and separator and the part between separator and tail.
 */
module PartitionedList {
  import opened Common

  /** An element: the list and the mailbox queue both link it through these fields. */
  class Node {
    var next: Node?
    var prev: Node?
    constructor ()
      ensures next == null && prev == null
    {
      next, prev := null, null;
    }
  }

  /** What happens to an element that is given up: f is applied to it, or it is deleted. */
  datatype Event = Apply(n: Node) | Delete(n: Node)

  /** f applied to each element of s exactly once, each element deleted right afterwards, in order. */
  ghost function Cleared(s: seq<Node>): seq<Event> {
    if s == [] then [] else Cleared(s[..|s| - 1]) + [Apply(s[|s| - 1]), Delete(s[|s| - 1])]
  }

  lemma {:induction false} ClearedAppend(s: seq<Node>, t: seq<Node>)
    ensures Cleared(s + t) == Cleared(s) + Cleared(t)
    decreases |t|
  {
    if t == [] {
      assert s + t == s;
    } else {
      var t0 := t[..|t| - 1];
      assert (s + t)[..|s + t| - 1] == s + t0;
      ClearedAppend(s, t0);
    }
  }

  /** So f sees every element exactly once, before it is deleted, and the elements come in order. */
  lemma {:induction false} ClearedAt(s: seq<Node>, i: nat)
    requires i < |s|
    ensures |Cleared(s)| == 2 * |s|
    ensures Cleared(s)[2 * i] == Apply(s[i]) && Cleared(s)[2 * i + 1] == Delete(s[i])
    decreases |s|
  {
    var s0 := s[..|s| - 1];
    if s0 != [] {
      ClearedAt(s0, if i < |s0| then i else 0);
    }
  }

  /** prev is the inverse of next along the ring. */
  ghost predicate Linked(ring: seq<Node>)
    reads ring
  {
    && (forall i {:trigger ring[i].next} | 0 <= i < |ring| - 1 :: ring[i].next == ring[i + 1])
    && (forall i {:trigger ring[i].prev} | 0 < i < |ring| :: ring[i].prev == ring[i - 1])
  }

  function Inserted<X>(s: seq<X>, p: nat, x: X): (r: seq<X>)
    requires p <= |s|
    ensures |r| == |s| + 1 && forall i | 0 <= i < |r| :: r[i] == if i < p then s[i] else if i == p then x else s[i - 1]
  {
    s[..p] + [x] + s[p..]
  }

  function Removed<X>(s: seq<X>, p: nat): (r: seq<X>)
    requires p < |s|
    ensures |r| == |s| - 1 && forall i | 0 <= i < |r| :: r[i] == if i < p then s[i] else s[i + 1]
  {
    s[..p] + s[p + 1..]
  }

  /** The part in front of and the part behind the separator at position sep. */
  function FirstPart<X>(ring: seq<X>, sep: nat): seq<X>
    requires 0 < sep < |ring| - 1
  {
    ring[1..sep]
  }

  function SecondPart<X>(ring: seq<X>, sep: nat): seq<X>
    requires 0 < sep < |ring| - 1
  {
    ring[sep + 1..|ring| - 1]
  }

  class List {
    const head: Node
    const separator: Node
    const tail: Node
    /** All linked nodes, sentinels included, and the position of the separator among them. */
    ghost var ring: seq<Node>
    ghost var sep: nat

    ghost predicate Valid()
      reads this, ring
    {
      && 0 < sep < |ring| - 1
      && ring[0] == head && ring[sep] == separator && ring[|ring| - 1] == tail
      && Distinct(ring)
      && Linked(ring)
    }

    /** The two sequences the list stands for. */
    ghost function First(): seq<Node>
      requires 0 < sep < |ring| - 1
      reads this
    {
      FirstPart(ring, sep)
    }

    ghost function Second(): seq<Node>
      requires 0 < sep < |ring| - 1
      reads this
    {
      SecondPart(ring, sep)
    }

    constructor ()
      ensures Valid() && First() == [] && Second() == []
      ensures fresh(head) && fresh(separator) && fresh(tail) && ring == [head, separator, tail]
    {
      head := new Node();
      separator := new Node();
      tail := new Node();
      new;
      ring, sep := [head, separator, tail], 1;
      head.next := separator;
      separator.prev := head;
      separator.next := tail;
      tail.prev := separator;
    }

    /** Link val in front of `next`, the node at position p of the ring. */
    method Insert(next: Node, val: Node, ghost p: nat) returns (it: Node)
      requires Valid() && 0 < p < |ring| && ring[p] == next && val !in ring
      modifies this, ring, val
      ensures Valid() && it == val && ring == Inserted(old(ring), p, val)
      ensures if p <= old(sep)
        then First() == Inserted(old(First()), p - 1, val) && Second() == old(Second())
        else First() == old(First()) && Second() == Inserted(old(Second()), p - old(sep) - 1, val)
    {
      LinkBefore(next, val, ring, p);
      InsertedParts(ring, sep, p, val);
      InsertedDistinct(ring, p, val);
      sep := if p <= sep then sep + 1 else sep;
      ring := Inserted(ring, p, val);
      return val;
    }

    /** Unlink the element at position p. */
    method Take(pos: Node, ghost p: nat) returns (res: Node)
      requires Valid() && 0 < p < |ring| - 1 && p != sep && ring[p] == pos
      modifies this, ring
      ensures Valid() && res == pos && ring == Removed(old(ring), p) && pos !in ring
      ensures if p < old(sep)
        then First() == Removed(old(First()), p - 1) && Second() == old(Second())
        else First() == old(First()) && Second() == Removed(old(Second()), p - old(sep) - 1)
    {
      Unlink(pos, ring, p);
      RemovedParts(ring, sep, p);
      RemovedDistinct(ring, p);
      sep := if p < sep then sep - 1 else sep;
      ring := Removed(ring, p);
      return pos;
    }

    /** Take and delete, as the log says; the successor is returned. */
    method Erase(pos: Node, ghost p: nat) returns (next: Node, log: seq<Event>)
      requires Valid() && 0 < p < |ring| - 1 && p != sep && ring[p] == pos
      modifies this, ring
      ensures Valid() && next == old(ring[p + 1]) && ring == Removed(old(ring), p)
      ensures log == [Delete(pos)] && pos !in ring
      ensures if p < old(sep)
        then First() == Removed(old(First()), p - 1) && Second() == old(Second())
        else First() == old(First()) && Second() == Removed(old(Second()), p - old(sep) - 1)
    {
      next := pos.next;
      var taken := Take(pos, p);
      log := [Delete(taken)];
    }

    method Empty() returns (b: bool)
      requires Valid()
      ensures b <==> First() == [] && Second() == []
    {
      assert head.next == ring[1] && separator.next == ring[sep + 1];
      b := head.next == separator && separator.next == tail;
    }

    /** The elements from `from` (position lo) up to `to` (position hi), in order. */
    method Visit(from: Node, to: Node, ghost lo: nat, ghost hi: nat) returns (visited: seq<Node>)
      requires Valid() && lo <= hi < |ring| && from == ring[lo] && to == ring[hi]
      ensures visited == ring[lo..hi]
    {
      visited := [];
      var i: Node := from;
      ghost var k := lo;
      while i != to
        invariant lo <= k <= hi && i == ring[k] && visited == ring[lo..k]
        decreases hi - k
      {
        visited := visited + [i];
        assert i.next == ring[k + 1];
        i := i.next;
        k := k + 1;
      }
    }

    /** Counting stops when max is reached.  The test follows the increment, so max == 0 never stops it. */
    method Count(max: nat) returns (n: nat)
      requires Valid()
      ensures n == if 0 < max < |First()| + |Second()| then max else |First()| + |Second()|
    {
      var done: bool;
      assert head.next == ring[1] && separator.next == ring[sep + 1];
      n, done := CountRange(head.next, separator, 1, sep, 0, max);
      if !done {
        n, done := CountRange(separator.next, tail, sep + 1, |ring| - 1, n, max);
      }
    }

    method CountRange(from: Node, to: Node, ghost lo: nat, ghost hi: nat, before: nat, max: nat) returns (n: nat, done: bool)
      requires Valid() && lo <= hi < |ring| && from == ring[lo] && to == ring[hi]
      requires max == 0 || before < max
      ensures done <==> 0 < max <= before + (hi - lo)
      ensures n == if done then max else before + (hi - lo)
    {
      n, done := before, false;
      var i: Node := from;
      ghost var k := lo;
      while i != to
        invariant lo <= k <= hi && i == ring[k] && n == before + (k - lo) && (max == 0 || n < max)
        decreases hi - k
      {
        n := n + 1;
        if n == max {
          return n, true;
        }
        assert i.next == ring[k + 1];
        i := i.next;
        k := k + 1;
      }
    }

    /** clear(f): the log is what f and the deleter did, in order. */
    method Clear() returns (log: seq<Event>)
      requires Valid()
      modifies this, ring
      ensures Valid() && First() == [] && Second() == []
      ensures log == Cleared(old(First() + Second()))
      ensures ring == [head, separator, tail]
    {
      assert head.next == ring[1] && separator.next == ring[sep + 1];
      var b0, e0, b1, e1 := head.next, separator, separator.next, tail;
      var log0 := ClearRange(b0, e0, 1, sep);
      var log1 := ClearRange(b1, e1, sep + 1, |ring| - 1);
      ClearedAppend(First(), Second());
      log := log0 + log1;
      Reset();
    }

    /** Tie the sentinels together again. */
    method Reset()
      requires Valid()
      modifies this, ring
      ensures Valid() && First() == [] && Second() == [] && ring == [head, separator, tail]
    {
      assert head.next == ring[1] && separator.next == ring[sep + 1];
      assert separator.prev == ring[sep - 1] && tail.prev == ring[|ring| - 2];
      assert head != separator && separator != tail && head != tail;
      if head.next != separator {
        head.next := separator;
        separator.prev := head;
      }
      if separator.next != tail {
        separator.next := tail;
        tail.prev := separator;
      }
      assert head.next == separator && separator.prev == head && separator.next == tail && tail.prev == separator;
      ring, sep := [head, separator, tail], 1;
    }

    method ClearRange(from: Node, to: Node, ghost lo: nat, ghost hi: nat) returns (log: seq<Event>)
      requires Valid() && lo <= hi < |ring| && from == ring[lo] && to == ring[hi]
      ensures log == Cleared(ring[lo..hi])
    {
      log := [];
      var i: Node := from;
      ghost var k := lo;
      while i != to
        invariant lo <= k <= hi && i == ring[k] && log == Cleared(ring[lo..k])
        decreases hi - k
      {
        var ptr := i;
        assert i.next == ring[k + 1];
        i := i.next;
        log := log + [Apply(ptr), Delete(ptr)];
        assert ring[lo..k + 1][..k - lo] == ring[lo..k];
        k := k + 1;
      }
    }
  }

  /** insert's four assignments. */
  method LinkBefore(next: Node, val: Node, ghost ring: seq<Node>, ghost p: nat)
    requires Linked(ring) && Distinct(ring) && 0 < p < |ring| && ring[p] == next && val !in ring
    modifies val, ring
    ensures Linked(Inserted(ring, p, val))
  {
    var prev := next.prev;
    assert prev == ring[p - 1];
    val.prev := prev;
    val.next := next;
    prev.next := val;
    next.prev := val;
    ghost var r := Inserted(ring, p, val);
    forall i | 0 <= i < |r| - 1
      ensures r[i].next == r[i + 1]
    {
      if i < p { assert r[i] == ring[i]; } else if i > p { assert r[i] == ring[i - 1]; }
    }
    forall i | 0 < i < |r|
      ensures r[i].prev == r[i - 1]
    {
      if i < p { assert r[i] == ring[i]; } else if i > p { assert r[i] == ring[i - 1]; }
    }
  }

  /** take's two assignments. */
  method Unlink(pos: Node, ghost ring: seq<Node>, ghost p: nat)
    requires Linked(ring) && Distinct(ring) && 0 < p < |ring| - 1 && ring[p] == pos
    modifies ring
    ensures Linked(Removed(ring, p))
    ensures pos.next == old(pos.next) && pos.prev == old(pos.prev)
  {
    var next := pos.next;
    var prev := pos.prev;
    assert next == ring[p + 1] && prev == ring[p - 1];
    prev.next := next;
    next.prev := prev;
    ghost var r := Removed(ring, p);
    forall i | 0 <= i < |r| - 1
      ensures r[i].next == r[i + 1]
    {
      if i < p { assert r[i] == ring[i]; } else { assert r[i] == ring[i + 1]; }
    }
    forall i | 0 < i < |r|
      ensures r[i].prev == r[i - 1]
    {
      if i < p { assert r[i] == ring[i]; } else { assert r[i] == ring[i + 1]; }
    }
  }

  lemma InsertedDistinct(ring: seq<Node>, p: nat, val: Node)
    requires Distinct(ring) && p <= |ring| && val !in ring
    ensures Distinct(Inserted(ring, p, val))
  {}

  lemma RemovedDistinct(ring: seq<Node>, p: nat)
    requires Distinct(ring) && p < |ring|
    ensures Distinct(Removed(ring, p))
  {}

  lemma InsertedParts(ring: seq<Node>, sep: nat, p: nat, val: Node)
    requires 0 < sep < |ring| - 1 && 0 < p < |ring|
    ensures var r := Inserted(ring, p, val);
      if p <= sep
      then FirstPart(r, sep + 1) == Inserted(FirstPart(ring, sep), p - 1, val) && SecondPart(r, sep + 1) == SecondPart(ring, sep)
      else FirstPart(r, sep) == FirstPart(ring, sep) && SecondPart(r, sep) == Inserted(SecondPart(ring, sep), p - sep - 1, val)
  {
    if p <= sep {
      InsertedInside(ring, p, val, 1, sep);
      InsertedBefore(ring, p, val, sep + 1, |ring| - 1);
    } else {
      InsertedBehind(ring, p, val, 1, sep);
      InsertedInside(ring, p, val, sep + 1, |ring| - 1);
    }
  }

  /** What inserting does to a slice around, behind and in front of the position. */
  lemma InsertedInside(s: seq<Node>, p: nat, x: Node, lo: nat, hi: nat)
    requires lo <= p <= hi <= |s|
    ensures Inserted(s, p, x)[lo..hi + 1] == Inserted(s[lo..hi], p - lo, x)
  {}

  lemma InsertedBefore(s: seq<Node>, p: nat, x: Node, lo: nat, hi: nat)
    requires p <= lo <= hi <= |s|
    ensures Inserted(s, p, x)[lo + 1..hi + 1] == s[lo..hi]
  {}

  lemma InsertedBehind(s: seq<Node>, p: nat, x: Node, lo: nat, hi: nat)
    requires lo <= hi <= p <= |s|
    ensures Inserted(s, p, x)[lo..hi] == s[lo..hi]
  {}

  lemma RemovedParts(ring: seq<Node>, sep: nat, p: nat)
    requires 0 < sep < |ring| - 1 && 0 < p < |ring| - 1 && p != sep
    ensures var r := Removed(ring, p);
      if p < sep
      then FirstPart(r, sep - 1) == Removed(FirstPart(ring, sep), p - 1) && SecondPart(r, sep - 1) == SecondPart(ring, sep)
      else FirstPart(r, sep) == FirstPart(ring, sep) && SecondPart(r, sep) == Removed(SecondPart(ring, sep), p - sep - 1)
  {
    if p < sep {
      RemovedInside(ring, p, 1, sep);
      RemovedBefore(ring, p, sep + 1, |ring| - 1);
    } else {
      RemovedBehind(ring, p, 1, sep);
      RemovedInside(ring, p, sep + 1, |ring| - 1);
    }
  }

  /** What removing does to a slice around, behind and in front of the position. */
  lemma RemovedInside(s: seq<Node>, p: nat, lo: nat, hi: nat)
    requires lo <= p < hi <= |s|
    ensures Removed(s, p)[lo..hi - 1] == Removed(s[lo..hi], p - lo)
  {}

  lemma RemovedBefore(s: seq<Node>, p: nat, lo: nat, hi: nat)
    requires p < lo <= hi <= |s|
    ensures Removed(s, p)[lo - 1..hi - 1] == s[lo..hi]
  {}

  lemma RemovedBehind(s: seq<Node>, p: nat, lo: nat, hi: nat)
    requires lo <= hi <= p < |s|
    ensures Removed(s, p)[lo..hi] == s[lo..hi]
  {}
}
