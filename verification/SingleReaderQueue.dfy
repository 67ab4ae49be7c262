/**
 The mailbox queue of header/actors-framework/detail/single_reader_queue.hpp as an object whose methods
 rewrite linked nodes in place: the reader's operations with their pointer loops, and enqueue when nobody
 interferes.  Interleaving with other threads is the subject of module QueueMachine.
 */
module SingleReaderQueue {
  import opened PartitionedList
  import opened Common

  /** stack_: null (closed), one of the dummies, or the newest node. */
  datatype Top = Closed | Empty | Blocked | At(node: Node)

  /** The nodes reached from p through `next`, ending in null, are exactly c. */
  ghost predicate Chain(p: Node?, c: seq<Node>)
    reads c
  {
    && p == (if c == [] then null else c[0])
    && (forall i {:trigger c[i].next} | 0 <= i < |c| :: c[i].next == if i + 1 < |c| then c[i + 1] else null)
  }

  ghost predicate Disjoint(s: seq<Node>, t: seq<Node>) { forall i | 0 <= i < |s| :: s[i] !in t }

  class Queue {
    var stack: Top
    var head: Node?
    const cache: List
    /** The nodes behind stack_, newest first, and behind head_, oldest first. */
    ghost var inStack: seq<Node>
    ghost var inHead: seq<Node>

    ghost predicate Valid()
      reads this, inStack, inHead, cache, cache.ring
    {
      && cache.Valid()
      && Distinct(inStack) && Distinct(inHead)
      && Disjoint(inStack, inHead) && Disjoint(inStack, cache.ring) && Disjoint(inHead, cache.ring)
      && (stack.At? <==> inStack != [])
      && Chain(if stack.At? then stack.node else null, inStack)
      && Chain(head, inHead)
    }

    /** The mailbox outside the cache, oldest first. */
    ghost function Waiting(): seq<Node>
      reads this
    {
      inHead + Rev(inStack)
    }

    constructor ()
      ensures Valid() && stack == Empty && Waiting() == []
      ensures cache.First() == [] && cache.Second() == [] && fresh(cache) && fresh(cache.ring)
    {
      stack, head := Empty, null;
      cache := new List();
      inStack, inHead := [], [];
    }

    /** The log says whether the element was deleted. */
    method Enqueue(n: Node) returns (r: EnqueueResult, log: seq<Event>)
      requires Valid() && n !in inStack && n !in inHead && n !in cache.ring
      modifies this`stack, this`inStack, n
      ensures Valid() && inHead == old(inHead) && cache.ring == old(cache.ring)
      ensures r == match old(stack) { case Closed => QueueClosed case Blocked => UnblockedReader case _ => Success }
      ensures log == if r == QueueClosed then [Delete(n)] else []
      ensures if r == QueueClosed then stack == Closed && inStack == old(inStack)
              else stack == At(n) && inStack == [n] + old(inStack) && Waiting() == old(Waiting()) + [n]
    {
      var e := stack;
      if e == Closed {
        return QueueClosed, [Delete(n)];
      }
      n.next := if e.At? then e.node else null;
      stack := At(n);
      inStack := [n] + inStack;
      assert inStack[1..] == old(inStack);
      r, log := if e == Blocked then UnblockedReader else Success, [];
    }

    /** fetch_new_data: end_ptr is null when closing, the empty dummy otherwise. */
    method FetchNewData(closing: bool) returns (ok: bool)
      requires Valid() && stack != Closed && stack != Blocked
      modifies this`stack, this`head, this`inStack, this`inHead, inStack
      ensures Valid()
      ensures stack == if closing then Closed else Empty
      ensures inStack == [] && inHead == Rev(old(inStack)) + old(inHead)
      ensures ok <==> old(inStack) != []
    {
      var endPtr := if closing then Closed else Empty;
      if !stack.At? {
        stack := endPtr;
        return false;
      }
      Grab(endPtr);
      return true;
    }

    /** The successful exchange of a non-empty stack_ for end_ptr, and the reversal that follows. */
    method Grab(endPtr: Top)
      requires Valid() && stack.At? && !endPtr.At?
      modifies this`stack, this`head, this`inStack, this`inHead, inStack
      ensures Valid() && stack == endPtr
      ensures inStack == [] && inHead == Rev(old(inStack)) + old(inHead)
    {
      ghost var c, h := inStack, inHead;
      RevDistinct(c);
      RevDisjoint(c, h);
      RevDisjoint(c, cache.ring);
      DistinctAppend(Rev(c), h);
      head := ReverseOnto(stack.node, head, c, h);
      stack := endPtr;
      inHead, inStack := Rev(c) + h, [];
    }

    /** try_pop, that is take_head. */
    method TryPop() returns (r: Node?)
      requires Valid() && (head == null ==> stack != Closed && stack != Blocked)
      modifies this`stack, this`head, this`inStack, this`inHead, inStack
      ensures Valid() && (stack == Closed <==> old(stack) == Closed)
      ensures if r == null then Waiting() == old(Waiting()) == [] else old(Waiting()) == [r] + Waiting()
      ensures r != null ==> r !in inStack && r !in inHead && r !in cache.ring
      ensures if old(head) == null then inStack == [] && stack == Empty else inStack == old(inStack) && stack == old(stack)
    {
      ghost var w := Waiting();
      var ok := true;
      if head == null {
        ok := FetchNewData(false);
      }
      assert Waiting() == w;
      if !ok {
        return null;
      }
      r := head;
      assert inHead[0] == r && r.next == (if |inHead| > 1 then inHead[1] else null);
      head := head.next;
      inHead := inHead[1..];
    }

    method TryBlock() returns (ok: bool)
      requires Valid()
      modifies this`stack
      ensures Valid() && ok == (old(stack) == Empty) && stack == if ok then Blocked else old(stack)
    {
      ok := stack == Empty;
      if ok { stack := Blocked; }
    }

    method TryUnblock() returns (ok: bool)
      requires Valid()
      modifies this`stack
      ensures Valid() && ok == (old(stack) == Blocked) && stack == if ok then Empty else old(stack)
    {
      ok := stack == Blocked;
      if ok { stack := Empty; }
    }

    /** clear_cached_elements: apply f to each node of head_ and delete it. */
    method ClearHead() returns (log: seq<Event>)
      requires Valid()
      modifies this`head, this`inHead
      ensures Valid() && head == null && inHead == [] && log == Cleared(old(inHead))
    {
      log := [];
      ghost var k, h := 0, inHead;
      while head != null
        invariant Valid() && k <= |h| && inHead == h[k..] && log == Cleared(h[..k])
        decreases |inHead|
      {
        assert inHead[0] == head && head.next == (if |inHead| > 1 then inHead[1] else null);
        var next := head.next;
        log := log + [Apply(head), Delete(head)];
        assert h[..k + 1][..k] == h[..k];
        head := next;
        inHead := inHead[1..];
        k := k + 1;
      }
      assert h[..k] == h;
    }

    /** close(f): the log is what f and the deleter did.  A blocked queue is emptied but stays open. */
    method Close() returns (log: seq<Event>)
      requires Valid() && stack != Closed
      modifies this, inStack, cache, cache.ring
      ensures Valid() && Waiting() == [] && cache.First() == [] && cache.Second() == []
      ensures stack == if old(stack) == Blocked then Blocked else Closed
      ensures log == Cleared(old(Waiting() + cache.First() + cache.Second()))
    {
      ghost var w, f, s := Waiting(), cache.First(), cache.Second();
      var log0 := CloseMailbox();
      var log1 := cache.Clear();
      ClearedAppend(w, f + s);
      assert w + (f + s) == w + f + s;
      log := log0 + log1;
    }

    /** close up to the clearing of the cache. */
    method CloseMailbox() returns (log: seq<Event>)
      requires Valid() && stack != Closed
      modifies this`stack, this`head, this`inStack, this`inHead, inStack
      ensures Valid() && inHead == [] && inStack == []
      ensures stack == if old(stack) == Blocked then Blocked else Closed
      ensures log == Cleared(old(Waiting()))
    {
      ghost var h, r := inHead, Rev(inStack);
      log := ClearHead();
      var more := false;
      if stack != Blocked {
        more := FetchNewData(true);
      }
      if more {
        assert inHead == r + [] == r;
        ClearedAppend(h, r);
        var log1 := ClearHead();
        log := log + log1;
      } else {
        assert h + r == h;
      }
    }

    /** count: fetching while head_ still holds nodes puts the newer ones in front of them. */
    method Count(max: nat) returns (n: nat)
      requires Valid()
      requires |cache.First()| + |cache.Second()| < max ==> stack != Closed && stack != Blocked
      modifies this`stack, this`head, this`inStack, this`inHead, inStack
      ensures Valid() && cache.First() == old(cache.First()) && cache.Second() == old(cache.Second())
      ensures n == if max == 0 then |cache.First()| + |cache.Second()|
                   else Min(max, |cache.First()| + |cache.Second()| + |old(Waiting())|)
      ensures Waiting() == if |cache.First()| + |cache.Second()| < max then Rev(old(inStack)) + old(inHead) else old(Waiting())
      ensures stack == if |cache.First()| + |cache.Second()| < max then Empty else old(stack)
    {
      n := cache.Count(max);
      if n >= max {
        return;
      }
      var ok := FetchNewData(false);
      var ptr := head;
      ghost var k := 0;
      while ptr != null && n < max
        invariant k <= |inHead| && ptr == (if k < |inHead| then inHead[k] else null)
        invariant n == |cache.First()| + |cache.Second()| + k <= max
        decreases |inHead| - k
      {
        ptr := ptr.next;
        n := n + 1;
        k := k + 1;
      }
    }

    /** peek_all: visits cache and mailbox without changing the queue, although it cuts and re-joins head_. */
    method PeekAll() returns (visited: seq<Node>)
      requires Valid() && stack != Closed && (head == null ==> stack != Blocked)
      modifies this`stack, this`head, this`inStack, this`inHead, inStack, inHead
      ensures Valid() && cache.First() == old(cache.First()) && cache.Second() == old(cache.Second())
      ensures Waiting() == old(Waiting()) && inStack == []
      ensures visited == cache.First() + cache.Second() + Waiting()
    {
      assert cache.head.next == cache.ring[1] && cache.separator.next == cache.ring[cache.sep + 1];
      var part1 := cache.Visit(cache.head.next, cache.separator, 1, cache.sep);
      var part2 := cache.Visit(cache.separator.next, cache.tail, cache.sep + 1, |cache.ring| - 1);
      if head == null {
        var ok := FetchNewData(false);
      } else if stack.At? {
        FetchBehindHead();
      }
      var part3 := VisitHead();
      visited := part1 + part2 + part3;
    }

    /** Cut off head_, fetch, and put the old chain back in front. */
    method FetchBehindHead()
      requires Valid() && head != null && stack.At?
      modifies this`stack, this`head, this`inStack, this`inHead, inStack, inHead
      ensures Valid() && inStack == [] && inHead == old(Waiting()) && stack == Empty
    {
      ghost var h, s := inHead, inStack;
      var oldHead := head;
      head, inHead := null, [];
      var tail := LastOf(oldHead, h);
      var ok := FetchNewData(false);
      ghost var fetched := inHead;
      assert fetched == Rev(s) + [] == Rev(s);
      RevDisjoint(s, h);
      DistinctAppend(h, fetched);
      Join(oldHead, tail, head, h, fetched);
      head, inHead := oldHead, h + fetched;
    }

    method VisitHead() returns (visited: seq<Node>)
      requires Valid()
      ensures visited == inHead
    {
      visited := [];
      var ptr := head;
      ghost var k := 0;
      while ptr != null
        invariant k <= |inHead| && ptr == (if k < |inHead| then inHead[k] else null) && visited == inHead[..k]
        decreases |inHead| - k
      {
        visited := visited + [ptr];
        assert ptr == inHead[k];
        ptr := ptr.next;
        k := k + 1;
      }
    }
  }

  method LastOf(p: Node, ghost c: seq<Node>) returns (tail: Node)
    requires Chain(p, c)
    ensures c != [] && tail == c[|c| - 1]
  {
    tail := p;
    ghost var k := 0;
    assert p == c[0];
    while tail.next != null
      invariant k < |c| && tail == c[k]
      invariant tail.next == if k + 1 < |c| then c[k + 1] else null
      decreases |c| - k
    {
      tail := tail.next;
      k := k + 1;
    }
  }

  /** Two chains become one. */
  method Join(p: Node, tail: Node, q: Node?, ghost c: seq<Node>, ghost d: seq<Node>)
    requires Chain(p, c) && Chain(q, d) && Distinct(c + d) && c != [] && tail == c[|c| - 1]
    modifies tail
    ensures Chain(p, c + d)
  {
    tail.next := q;
    ghost var r := c + d;
    forall i | 0 <= i < |r|
      ensures r[i].next == if i + 1 < |r| then r[i + 1] else null
    {
      assert i != |c| - 1 ==> r[i] != r[|c| - 1];
      if i < |c| { assert r[i] == c[i]; } else { assert r[i] == d[i - |c|]; }
    }
    assert p == r[0] && Chain(p, r);
  }

  /** When does count leave the queue in order?  Exactly when there was nothing to fetch or nothing to fetch
      it in front of. */
  lemma CountKeepsOrderIff(inStack: seq<Node>, inHead: seq<Node>)
    requires Disjoint(inStack, inHead)
    ensures Rev(inStack) + inHead == inHead + Rev(inStack) <==> inStack == [] || inHead == []
  {
    RevDisjoint(inStack, inHead);
    if inStack != [] && inHead != [] {
      assert (Rev(inStack) + inHead)[0] == Rev(inStack)[0];
      assert (inHead + Rev(inStack))[0] == inHead[0];
    } else {
      assert Rev(inStack) + inHead == inHead + Rev(inStack);
    }
  }

  /** Three elements, one of them popped before the third arrives: count fetches the third in front of the second, and
      they come out in the wrong order. */
  method CountReorders() returns (enqueued: seq<Node>, popped: seq<Node?>)
    ensures |enqueued| == 3 && Distinct(enqueued)
    ensures popped == [enqueued[0], enqueued[2], enqueued[1]]
  {
    var q, n0, n1 := TwoEnqueued();
    var n2 := new Node();
    var p0 := PopThenEnqueue(q, n0, n1, n2);
    var p1, p2 := CountThenPopTwo(q, n1, n2);
    enqueued, popped := [n0, n1, n2], [p0, p1, p2];
  }

  method TwoEnqueued() returns (q: Queue, n0: Node, n1: Node)
    ensures fresh(q) && fresh(q.cache) && fresh(q.cache.ring) && fresh(n0) && fresh(n1) && n0 != n1
    ensures q.Valid() && q.head == null && q.inStack == [n1, n0] && q.stack == At(n1)
    ensures n0 !in q.cache.ring && n1 !in q.cache.ring && q.cache.First() == [] && q.cache.Second() == []
  {
    q := new Queue();
    assert q.inStack == [] && q.inHead == [];
    n0 := EnqueueNew(q);
    n1 := EnqueueNew(q);
  }

  method EnqueueNew(q: Queue) returns (n: Node)
    requires q.Valid() && q.stack != Closed
    modifies q`stack, q`inStack
    ensures fresh(n) && n !in q.cache.ring && q.Valid()
    ensures q.stack == At(n) && q.inStack == [n] + old(q.inStack)
  {
    n := new Node();
    var r, log := q.Enqueue(n);
  }

  method PopThenEnqueue(q: Queue, n0: Node, n1: Node, n2: Node) returns (p0: Node?)
    requires q.Valid() && q.head == null && q.inStack == [n1, n0] && q.stack == At(n1) && n0 != n1
    requires n2 != n0 && n2 != n1 && n2 !in q.cache.ring
    modifies q`stack, q`head, q`inStack, q`inHead, n0, n1, n2
    ensures q.Valid() && q.inStack == [n2] && q.inHead == [n1] && q.stack == At(n2) && p0 == n0
  {
    RevTwo(n1, n0);
    assert q.Waiting() == [n0] + [n1];
    p0 := q.TryPop();
    Front(p0, q.Waiting(), n0, [n1]);
    assert q.inHead == q.Waiting();
    var r, log := q.Enqueue(n2);
  }

  method CountThenPopTwo(q: Queue, n1: Node, n2: Node) returns (p1: Node?, p2: Node?)
    requires q.Valid() && q.inStack == [n2] && q.inHead == [n1] && q.stack == At(n2)
    requires q.cache.First() == [] && q.cache.Second() == []
    modifies q`stack, q`head, q`inStack, q`inHead, n1, n2
    ensures p1 == n2 && p2 == n1
  {
    RevOne(n2);
    var n := q.Count(0x1_0000_0000);
    assert q.Waiting() == [n2] + [n1];
    p1, p2 := PopTwo(q, n2, n1);
  }

  method PopTwo(q: Queue, a: Node, b: Node) returns (p1: Node?, p2: Node?)
    requires q.Valid() && q.stack == Empty && q.Waiting() == [a] + [b]
    modifies q`stack, q`head, q`inStack, q`inHead
    ensures p1 == a && p2 == b
  {
    assert q.inStack == [];
    p1 := q.TryPop();
    Front(p1, q.Waiting(), a, [b]);
    assert q.inStack == [];
    p2 := q.TryPop();
    Front(p2, q.Waiting(), b, []);
  }

  lemma Front(r: Node?, w: seq<Node>, a: Node, rest: seq<Node>)
    requires r != null && [r] + w == [a] + rest
    ensures r == a && w == rest
  {
    var s := [r] + w;
    assert s[0] == r && s[1..] == w;
    assert s[0] == a && s[1..] == rest;
  }

  lemma RevTwo(m: Node, n: Node)
    ensures Rev([m, n]) == [n, m]
  {}

  lemma RevOne(n: Node)
    ensures Rev([n]) == [n]
  {}

  /** fetch_new_data's inner loop: move the chain at `grabbed` onto the chain at `head`, one node at a time. */
  method ReverseOnto(grabbed: Node?, head: Node?, ghost c: seq<Node>, ghost h: seq<Node>) returns (head': Node?)
    requires Chain(grabbed, c) && Chain(head, h) && Distinct(c) && Disjoint(c, h)
    modifies c
    ensures Chain(head', Rev(c) + h)
  {
    var e := grabbed;
    head' := head;
    ghost var rest, done := c, h;
    while e != null
      invariant Chain(e, rest) && Chain(head', done)
      invariant Distinct(rest) && Disjoint(rest, done)
      invariant Rev(rest) + done == Rev(c) + h
      invariant forall n <- rest :: n in c
      decreases |rest|
    {
      assert e == rest[0] && e in rest;
      ghost var rest', done' := rest[1..], [rest[0]] + done;
      assert forall i | 0 <= i < |rest'| :: rest'[i] == rest[i + 1];
      assert forall i | 0 < i < |done'| :: done'[i] == done[i - 1];
      assert (Rev(rest') + [rest[0]]) + done == Rev(rest') + done';
      var next := e.next;
      e.next := head';
      head' := e;
      e := next;
      assert Chain(head', done');
      rest, done := rest', done';
    }
  }

  lemma RevDisjoint(s: seq<Node>, t: seq<Node>)
    requires Disjoint(s, t)
    ensures Disjoint(Rev(s), t)
  {}

  lemma DistinctAppend(s: seq<Node>, t: seq<Node>)
    requires Distinct(s) && Distinct(t) && Disjoint(s, t)
    ensures Distinct(s + t)
  {}

  lemma RevDistinct(s: seq<Node>)
    requires Distinct(s)
    ensures Distinct(Rev(s))
  {}
}
