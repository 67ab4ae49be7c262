/**
 next_message on the linked structures themselves: nodes move from the mailbox queue into the partitioned list,
 and hp_pos is a node (header/actors-framework/impl/actor/cooperative_actor.ipp:137-156).  Nobody enqueues
 meanwhile; arrivals are the subject of module CooperativeActor, whose sequences these methods refine.
 */
module LinkedMailbox {
  import opened Common
  import opened Priorities
  import opened PartitionedList
  import opened SingleReaderQueue

  /** hp_pos, a node, is at position 1 + |Highs(d)| of the ring: behind the high-priority messages merged so far. */
  ghost predicate AtHighs(list: List, isHigh: Node -> bool, hpPos: Node, d: seq<Node>)
    reads list
  {
    var p := 1 + |Highs(isHigh, d)|;
    p <= list.sep < |list.ring| && list.ring[p] == hpPos
  }

  /** A round of the loop: insert m and adjust hp_pos. */
  method MergeOne(list: List, isHigh: Node -> bool, hpPos: Node, m: Node, ghost base: seq<Node>, ghost d: seq<Node>)
    returns (hpPos': Node)
    requires list.Valid() && m !in list.ring && AtHighs(list, isHigh, hpPos, d)
    requires list.First() == Merged(isHigh, base, d)
    modifies list, list.ring, m
    ensures list.Valid() && AtHighs(list, isHigh, hpPos', d + [m])
    ensures list.First() == Merged(isHigh, base, d + [m]) && list.Second() == old(list.Second())
    ensures forall n <- list.ring :: n == m || n in old(list.ring)
  {
    MergedGrows(isHigh, base, d, m);
    if isHigh(m) {
      InsertAt(list, hpPos, m, 1 + |Highs(isHigh, d)|);
      hpPos' := hpPos;
    } else {
      hpPos' := InsertAtSeparator(list, hpPos, m, 1 + |Highs(isHigh, d)|);
    }
  }

  /** A high-priority message goes in front of hp_pos, which stays the same node and so moves up by one position. */
  method InsertAt(list: List, hpPos: Node, m: Node, ghost p: nat)
    requires list.Valid() && m !in list.ring && 0 < p <= list.sep && list.ring[p] == hpPos
    modifies list, list.ring, m
    ensures list.Valid() && list.First() == old(list.First()[..p - 1] + [m] + list.First()[p - 1..])
    ensures list.Second() == old(list.Second()) && p + 1 <= list.sep && list.ring[p + 1] == hpPos
    ensures forall n <- list.ring :: n == m || n in old(list.ring)
  {
    var it := list.Insert(hpPos, m, p);
  }

  /** A normal message goes in front of the separator; an hp_pos that was the separator steps back onto it. */
  method InsertAtSeparator(list: List, hpPos: Node, m: Node, ghost p: nat) returns (hpPos': Node)
    requires list.Valid() && m !in list.ring && 0 < p <= list.sep && list.ring[p] == hpPos
    modifies list, list.ring, m
    ensures list.Valid() && list.First() == old(list.First()) + [m]
    ensures list.Second() == old(list.Second()) && p <= list.sep && list.ring[p] == hpPos'
    ensures forall n <- list.ring :: n == m || n in old(list.ring)
  {
    var e := list.separator;
    ghost var s := list.sep;
    assert hpPos == e <==> p == s;
    var it := list.Insert(e, m, s);
    hpPos' := hpPos;
    if hpPos == e {
      assert e.prev == list.ring[s];
      hpPos' := hpPos.prev;
    }
  }

  /** All nodes the loop may touch: those linked when it starts. */
  ghost predicate Within(q: Queue, all: seq<Node>)
    reads q, q.cache
  {
    && (forall i | 0 <= i < |q.inStack| :: q.inStack[i] in all)
    && (forall i | 0 <= i < |q.inHead| :: q.inHead[i] in all)
    && (forall i | 0 <= i < |q.cache.ring| :: q.cache.ring[i] in all)
  }

  /** The node that try_pop has just answered with is linked nowhere. */
  ghost predicate Loose(q: Queue, m: Node)
    reads q, q.cache
  {
    m !in q.inStack && m !in q.inHead && m !in q.cache.ring
  }

  /** A round of the loop leaves the mailbox alone. */
  method MergeRound(q: Queue, isHigh: Node -> bool, hpPos: Node, m: Node,
                    ghost base: seq<Node>, ghost d: seq<Node>, ghost all: seq<Node>)
    returns (hpPos': Node)
    requires q.Valid() && Loose(q, m) && AtHighs(q.cache, isHigh, hpPos, d) && q.cache.First() == Merged(isHigh, base, d)
    requires Within(q, all) && m in all
    modifies q.cache, all
    ensures q.Valid() && AtHighs(q.cache, isHigh, hpPos', d + [m]) && q.cache.First() == Merged(isHigh, base, d + [m])
    ensures q.cache.Second() == old(q.cache.Second()) && Within(q, all)
  {
    ghost var was := q.cache.ring;
    hpPos' := MergeOne(q.cache, isHigh, hpPos, m, base, d);
    forall i | 0 <= i < |q.cache.ring|
      ensures q.cache.ring[i] in all
    {
      assert q.cache.ring[i] in q.cache.ring;
      assert q.cache.ring[i] == m || q.cache.ring[i] in was;
    }
  }

  function Popped(n: Node?): seq<Node> { if n == null then [] else [n] }

  /** try_pop, with what it leaves alone. */
  method PopOne(q: Queue, ghost all: seq<Node>) returns (m: Node?)
    requires q.Valid() && q.stack != Closed && q.stack != Blocked && Within(q, all)
    modifies q`stack, q`head, q`inStack, q`inHead, all
    ensures q.Valid() && q.stack != Closed && q.stack != Blocked && Within(q, all)
    ensures Popped(m) + q.Waiting() == old(q.Waiting())
    ensures m == null ==> q.Waiting() == [] && q.stack == Empty
    ensures m != null ==> Loose(q, m) && m in all
  {
    ghost var w := q.Waiting();
    assert forall n <- w :: n in all by {
      forall n <- w
        ensures n in all
      {
        RevMember(q.inStack, n);
      }
    }
    assert w == [] ==> q.inHead == [];
    m := q.TryPop();
    assert forall n <- q.Waiting() :: n in Popped(m) + q.Waiting();
    assert forall n <- q.inHead :: n in q.Waiting();
    assert m != null ==> m in Popped(m) + q.Waiting();
  }

  /** In the middle of the loop: d has been merged, tmp is the node in hand, the rest still waits. */
  ghost predicate Midway(q: Queue, isHigh: Node -> bool, hpPos: Node, tmp: Node?,
                         base: seq<Node>, d: seq<Node>, start: seq<Node>, all: seq<Node>)
    reads q, q.inStack, q.inHead, q.cache, q.cache.ring
  {
    && q.Valid() && Within(q, all) && q.stack != Closed && q.stack != Blocked
    && d + (Popped(tmp) + q.Waiting()) == start
    && AtHighs(q.cache, isHigh, hpPos, d) && q.cache.First() == Merged(isHigh, base, d)
    && if tmp == null then q.Waiting() == [] && q.stack == Empty else Loose(q, tmp) && tmp in all
  }

  /** A round of the loop, up to the next try_pop. */
  method DrainRound(q: Queue, isHigh: Node -> bool, hpPos: Node, m: Node,
                    ghost base: seq<Node>, ghost d: seq<Node>, ghost start: seq<Node>, ghost all: seq<Node>)
    returns (hpPos': Node, tmp: Node?)
    requires Midway(q, isHigh, hpPos, m, base, d, start, all)
    modifies q`stack, q`head, q`inStack, q`inHead, q.cache, all
    ensures Midway(q, isHigh, hpPos', tmp, base, d + [m], start, all)
    ensures q.cache.Second() == old(q.cache.Second())
    ensures |Popped(tmp)| + |q.Waiting()| == |old(q.Waiting())|
  {
    ghost var w := q.Waiting();
    hpPos' := MergeRound(q, isHigh, hpPos, m, base, d, all);
    Shift(d, m, w);
    tmp := PopOne(q, all);
  }

  /** next_message's loop: the first partition becomes the merge of what it held and what waited, the mailbox is empty. */
  method DrainMailbox(q: Queue, isHigh: Node -> bool, ghost all: seq<Node>)
    requires q.Valid() && Within(q, all) && q.stack != Closed && q.stack != Blocked
    modifies q`stack, q`head, q`inStack, q`inHead, q.cache, all
    ensures q.Valid() && q.Waiting() == [] && q.stack == Empty
    ensures q.cache.First() == Merged(isHigh, old(q.cache.First()), old(q.Waiting()))
    ensures q.cache.Second() == old(q.cache.Second())
    ensures Within(q, all)
  {
    ghost var base, start := q.cache.First(), q.Waiting();
    ghost var d: seq<Node> := [];
    var hpPos, tmp := DrainStart(q, isHigh, all);
    while tmp != null
      invariant Midway(q, isHigh, hpPos, tmp, base, d, start, all)
      invariant q.cache.Second() == old(q.cache.Second())
      decreases |q.Waiting()|, tmp != null
    {
      ghost var d' := d + [tmp];
      hpPos, tmp := DrainRound(q, isHigh, hpPos, tmp, base, d, start, all);
      d := d';
    }
    NothingLeft(d, start);
  }

  /** The loop's first try_pop. */
  method DrainStart(q: Queue, isHigh: Node -> bool, ghost all: seq<Node>) returns (hpPos: Node, tmp: Node?)
    requires q.Valid() && Within(q, all) && q.stack != Closed && q.stack != Blocked
    modifies q`stack, q`head, q`inStack, q`inHead, q.cache, all
    ensures Midway(q, isHigh, hpPos, tmp, old(q.cache.First()), [], old(q.Waiting()), all)
    ensures q.cache.Second() == old(q.cache.Second())
  {
    MergedNothing(isHigh, q.cache.First());
    hpPos := Begin(q.cache);
    assert AtHighs(q.cache, isHigh, hpPos, []);
    tmp := PopOne(q, all);
    assert AtHighs(q.cache, isHigh, hpPos, []);
    NothingBefore(Popped(tmp) + q.Waiting());
  }

  lemma MergedNothing(isHigh: Node -> bool, base: seq<Node>)
    ensures Merged(isHigh, base, []) == base && Highs(isHigh, []) == []
  {}

  lemma NothingBefore(s: seq<Node>)
    ensures [] + s == s
  {}

  lemma NothingLeft(d: seq<Node>, start: seq<Node>)
    requires d + ([] + []) == start
    ensures d == start
  {}

  lemma Shift(d: seq<Node>, m: Node, w: seq<Node>)
    ensures d + ([m] + w) == (d + [m]) + w
  {}

  /** next_message: merge unless the cache starts with a high-priority message, then take the front. */
  method NextMessage(q: Queue, isHigh: Node -> bool, ghost all: seq<Node>) returns (result: Node?)
    requires q.Valid() && Within(q, all)
    requires Drains(isHigh, q.cache.First()) ==> q.stack != Closed && q.stack != Blocked
    modifies q`stack, q`head, q`inStack, q`inHead, q.cache, all
    ensures q.Valid() && q.cache.Second() == old(q.cache.Second())
    ensures Popped(result) + q.cache.First() ==
      old(if Drains(isHigh, q.cache.First()) then Merged(isHigh, q.cache.First(), q.Waiting()) else q.cache.First())
    ensures q.Waiting() == if Drains(isHigh, old(q.cache.First())) then [] else old(q.Waiting())
    ensures result == null ==> q.cache.First() == []
  {
    DrainIfNeeded(q, isHigh, all);
    result := TakeFront(q, all);
  }

  /** Only if the cache does not start with a high-priority message. */
  method DrainIfNeeded(q: Queue, isHigh: Node -> bool, ghost all: seq<Node>)
    requires q.Valid() && Within(q, all)
    requires Drains(isHigh, q.cache.First()) ==> q.stack != Closed && q.stack != Blocked
    modifies q`stack, q`head, q`inStack, q`inHead, q.cache, all
    ensures q.Valid() && Within(q, all) && q.cache.Second() == old(q.cache.Second())
    ensures if Drains(isHigh, old(q.cache.First()))
      then q.cache.First() == Merged(isHigh, old(q.cache.First()), old(q.Waiting())) && q.Waiting() == []
      else q.cache.First() == old(q.cache.First()) && q.Waiting() == old(q.Waiting())
  {
    var i := Begin(q.cache);
    if i == q.cache.separator || !isHigh(i) {
      DrainMailbox(q, isHigh, all);
    }
  }

  method Begin(list: List) returns (i: Node)
    requires list.Valid()
    ensures i == list.ring[1] && (i == list.separator <==> list.First() == [])
    ensures list.First() != [] ==> i == list.First()[0]
  {
    assert list.head.next == list.ring[1];
    i := list.head.next;
  }

  /** next_message's last lines. */
  method TakeFront(q: Queue, ghost all: seq<Node>) returns (result: Node?)
    requires q.Valid() && Within(q, all)
    modifies q.cache, all
    ensures q.Valid() && q.cache.Second() == old(q.cache.Second())
    ensures Popped(result) + q.cache.First() == old(q.cache.First()) && (result == null ==> q.cache.First() == [])
  {
    var i := Begin(q.cache);
    if i == q.cache.separator {
      return null;
    }
    ghost var was := q.cache.ring;
    result := q.cache.Take(i, 1);
    assert forall n <- q.cache.ring :: n in was;
  }
}
