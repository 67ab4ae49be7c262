/**
 Every interleaving of the queue's atomic steps refines a plain FIFO sequence, every node has exactly
 one owner, and every dereference and every assertion inside the queue is safe.

 The proof follows a shape: the address sequences of the three chains.  The final statements do not
 mention it: `Contents` walks the chains.
 */
module QueueFifo {
  import opened QueueMachine
  import opened Common

  // ---------- chains ----------

  function LinkAt(c: seq<Addr>, i: nat): Ptr { if i < |c| then Node(c[i]) else Null }

  /** The chain starting at p is exactly the addresses c, and ends in null. */
  ghost predicate IsChain(h: Heap, p: Ptr, c: seq<Addr>) {
    p == LinkAt(c, 0) &&
    forall i {:trigger h[c[i]]} {:trigger c[i] in h} | 0 <= i < |c| :: c[i] in h && h[c[i]].next == LinkAt(c, i + 1)
  }

  /** The addresses met by following `next` from p. */
  function Walk(h: Heap, p: Ptr): seq<Addr>
    decreases h.Keys
  {
    if p.Node? && p.addr in h then [p.addr] + Walk(h - {p.addr}, h[p.addr].next) else []
  }

  lemma {:induction false} WalkFindsChain(h: Heap, p: Ptr, c: seq<Addr>)
    requires IsChain(h, p, c) && Distinct(c)
    ensures Walk(h, p) == c
    decreases |c|
  {
    if c != [] {
      var h' := h - {c[0]};
      var d := c[1..];
      assert c[0] in h && h[c[0]].next == LinkAt(c, 1) == LinkAt(d, 0);
      forall i | 0 <= i < |d|
        ensures d[i] in h' && h'[d[i]].next == LinkAt(d, i + 1)
      {
        assert d[i] == c[i + 1];
      }
      WalkFindsChain(h', LinkAt(d, 0), d);
    }
  }

  // ---------- the shape ----------

  /** Address sequences: stack_ newest first, head_ oldest first, and the part of a grabbed stack that
      fetch_new_data has not yet moved. */
  datatype Shape = Shape(stack: seq<Addr>, head: seq<Addr>, rest: seq<Addr>)

  /** The chain part of a value of stack_: a dummy is never part of a non-empty list. */
  function Top(p: Ptr): Ptr { if p.Node? then p else Null }

  function RestPtr(r: Reader): Ptr { if r.RReversing? then r.e else Null }

  /** All queued addresses, oldest first. */
  function Queued(w: Shape): (q: seq<Addr>)
    ensures forall a :: a in q <==> a in w.rest || a in w.head || a in w.stack
  {
    RevMembers(w.rest);
    RevMembers(w.stack);
    Rev(w.rest) + w.head + Rev(w.stack)
  }

  ghost predicate InFlight(s: State, t: Tid, n: Addr) {
    t in s.prods && s.prods[t].HasNode() && s.prods[t].n == n
  }

  /** Every allocated node is queued, popped and held, or in the hands of one producer - never two of
      these; nothing allocated is unowned. */
  ghost predicate OneOwner(s: State, q: seq<Addr>) {
    && Distinct(q)
    && (forall a <- q :: a in s.heap && a !in s.held)
    && (forall a <- s.held :: a in s.heap)
    && (forall t, a | InFlight(s, t, a) :: a in s.heap && a !in q && a !in s.held)
    && (forall t, u, a | InFlight(s, t, a) && InFlight(s, u, a) :: t == u)
    && (forall a <- s.heap :: a in q || a in s.held || exists t :: InFlight(s, t, a))
  }

  ghost predicate ProducersLinked(s: State) {
    forall t <- s.prods | s.prods[t].PLinked? ::
      s.prods[t].e != Null && s.prods[t].n in s.heap &&
      s.heap[s.prods[t].n].next == if s.prods[t].e.IsDummy() then Null else s.prods[t].e
  }

  ghost predicate ReaderSound(s: State) {
    match s.reader
    case RFetching(e, g) => s.head == Null && e != Null && e != BlockedDummy && s.stack != Null && s.stack != BlockedDummy
    case RReversing(e, g) =>
      (g == ToPop ==> e.Node? || s.head.Node?) && (g == ToPop <==> s.stack != Null) && s.stack != BlockedDummy
    case RTaking => s.head.Node? && s.stack != Null
    case RClearing(last) => last <==> s.stack == Null
    case RChecking => s.head == Null && s.stack != Null
    case RCloseLoading => s.head == Null && s.stack != Null && s.stack != BlockedDummy
    case RIdle => s.stack == Null ==> s.head == Null
    case RBlocking(_) => s.head == Null && s.stack != Null
    case _ => s.stack != Null
  }

  ghost predicate Shaped(s: State, w: Shape) {
    && IsChain(s.heap, Top(s.stack), w.stack)
    && IsChain(s.heap, s.head, w.head)
    && IsChain(s.heap, RestPtr(s.reader), w.rest)
    && OneOwner(s, Queued(w))
    && ProducersLinked(s)
    && ReaderSound(s)
  }

  function ShapeOf(s: State): Shape {
    Shape(Walk(s.heap, Top(s.stack)), Walk(s.heap, s.head), Walk(s.heap, RestPtr(s.reader)))
  }

  /** The invariant of the queue's memory. */
  ghost predicate HeapInv(s: State) { Shaped(s, ShapeOf(s)) }

  function Vals(h: Heap, q: seq<Addr>): seq<Elem> {
    seq(|q|, i requires 0 <= i < |q| => if q[i] in h then h[q[i]].val else 0)
  }

  /** The queue as the plain sequence it stands for, oldest element first. */
  function Contents(s: State): seq<Elem> { Vals(s.heap, Queued(ShapeOf(s))) }

  lemma DistinctParts(w: Shape)
    requires Distinct(Queued(w))
    ensures Distinct(w.head) && Distinct(w.rest) && Distinct(w.stack)
  {
    var q := Queued(w);
    forall i, j | 0 <= i < j < |w.head|
      ensures w.head[i] != w.head[j]
    {
      assert w.head[i] == q[|w.rest| + i] && w.head[j] == q[|w.rest| + j];
    }
    forall i, j | 0 <= i < j < |w.rest|
      ensures w.rest[i] != w.rest[j]
    {
      assert w.rest[i] == q[|w.rest| - 1 - i] && w.rest[j] == q[|w.rest| - 1 - j];
    }
    var n := |w.rest| + |w.head| + |w.stack|;
    forall i, j | 0 <= i < j < |w.stack|
      ensures w.stack[i] != w.stack[j]
    {
      assert w.stack[i] == q[n - 1 - i] && w.stack[j] == q[n - 1 - j];
    }
  }

  lemma ShapedIsWalked(s: State, w: Shape)
    requires Shaped(s, w)
    ensures w == ShapeOf(s)
  {
    DistinctParts(w);
    WalkFindsChain(s.heap, Top(s.stack), w.stack);
    WalkFindsChain(s.heap, s.head, w.head);
    WalkFindsChain(s.heap, RestPtr(s.reader), w.rest);
  }

  // ---------- what a step adds and removes ----------

  function ValOf(h: Heap, p: Ptr): Elem { if p.Node? && p.addr in h then h[p.addr].val else 0 }

  /** The element a step appends to the queue: the successful CAS of an enqueue. */
  function Pushes(s: State, a: Action): seq<Elem> {
    if EnqueueCas(s, a) then [ValOf(s.heap, Node(s.prods[a.t].n))] else []
  }

  /** The element a step hands to the caller of try_pop. */
  function Pops(s: State, a: Action): seq<Elem> {
    if a.Reading? && (a.r.PopHead? || a.r.TakeHead?) && s.head.Node? then [ValOf(s.heap, s.head)] else []
  }

  /** The element close applies f to and then deletes. */
  function Disposes(s: State, a: Action): seq<Elem> {
    if a.Reading? && a.r.ClearStep? && s.head.Node? then [ValOf(s.heap, s.head)] else []
  }

  /** Nodes whose memory a step reads or writes. */
  function Touches(s: State, a: Action): set<Addr>
    requires Enabled(s, a)
  {
    match a
    case Producing(t, Link) => {s.prods[t].n}
    case Reading(ReverseStep) => if s.reader.e.Node? then {s.reader.e.addr} else {}
    case Reading(PopHead) => {s.head.addr}
    case Reading(TakeHead) => if s.head.Node? then {s.head.addr} else {}
    case Reading(ClearStep) => if s.head.Node? then {s.head.addr} else {}
    case Free(n) => {n}
    case _ => {}
  }

  /** The assertions inside fetch_new_data and take_head, at the step that evaluates them. */
  predicate Asserted(s: State, a: Action)
    requires Enabled(s, a)
  {
    match a
    case Reading(CloseLoad) => s.stack != Null && s.stack != BlockedDummy
    case Reading(FetchCas(spurious)) =>
      var RFetching(e, g) := s.reader;
      e != EndPtr(g) && s.stack == e && !spurious ==> e != BlockedDummy && (e.IsDummy() ==> g == ToClose)
    case Reading(ReverseStep) => !s.reader.e.IsDummy()
    case Reading(TakeHead) => s.head != Null
    case _ => true
  }

  // ---------- frames ----------

  /** A chain none of whose links changed is still a chain. */
  lemma ChainFrame(h: Heap, h': Heap, p: Ptr, c: seq<Addr>)
    requires IsChain(h, p, c)
    requires forall a <- c :: a in h' && (a in h ==> h'[a].next == h[a].next)
    ensures IsChain(h', p, c)
  {}

  lemma ChainTail(h: Heap, p: Ptr, c: seq<Addr>)
    requires IsChain(h, p, c) && c != []
    ensures IsChain(h, NextOf(h, c[0]), c[1..])
  {
    var d := c[1..];
    assert c[0] in h;
    forall i | 0 <= i < |d|
      ensures d[i] in h && h[d[i]].next == LinkAt(d, i + 1)
    {
      assert d[i] == c[i + 1];
    }
  }

  lemma ChainCons(h: Heap, n: Addr, p: Ptr, c: seq<Addr>)
    requires IsChain(h, p, c) && n in h && h[n].next == p
    ensures IsChain(h, Node(n), [n] + c)
  {
    var d := [n] + c;
    forall i | 0 <= i < |d|
      ensures d[i] in h && h[d[i]].next == LinkAt(d, i + 1)
    {
      if i > 0 { assert d[i] == c[i - 1]; }
    }
  }

  /** The three chains share no node. */
  lemma DistinctAcross(w: Shape)
    requires Distinct(Queued(w))
    ensures w.rest != [] ==> w.rest[0] !in w.rest[1..] && w.rest[0] !in w.head && w.rest[0] !in w.stack
    ensures w.head != [] ==> w.head[0] !in w.rest && w.head[0] !in w.head[1..] && w.head[0] !in w.stack
  {
    var q := Queued(w);
    var k := |w.rest|;
    forall i | 0 <= i < |w.head|
      ensures w.head[i] == q[k + i]
    {}
    forall i | 0 <= i < |w.stack|
      ensures w.stack[i] == q[k + |w.head| + |w.stack| - 1 - i]
    {}
    forall i | 0 <= i < k
      ensures w.rest[i] == q[k - 1 - i]
    {}
  }

  /** Steps that leave the heap's keys, the popped nodes and every producer's node alone keep ownership. */
  lemma OwnerFrame(s: State, s': State, q: seq<Addr>)
    requires OneOwner(s, q)
    requires s'.heap.Keys == s.heap.Keys && s'.held == s.held
    requires forall t, a :: InFlight(s', t, a) <==> InFlight(s, t, a)
    ensures OneOwner(s', q)
  {
    forall a <- s'.heap | a !in q && a !in s'.held
      ensures exists t :: InFlight(s', t, a)
    {
      var t :| InFlight(s, t, a);
      assert InFlight(s', t, a);
    }
  }

  // ---------- one step keeps the shape ----------

  /** A step that changes no node, no owner and no chain start. */
  lemma SameShape(s: State, s': State, w: Shape)
    requires Shaped(s, w)
    requires s'.heap == s.heap && s'.held == s.held
    requires forall t, a :: InFlight(s', t, a) <==> InFlight(s, t, a)
    requires s'.head == s.head && Top(s'.stack) == Top(s.stack) && RestPtr(s'.reader) == RestPtr(s.reader)
    requires ReaderSound(s') && ProducersLinked(s')
    ensures Shaped(s', w)
  {
    OwnerFrame(s, s', Queued(w));
  }

  /** Waiting touches only the dummies, the mutex and the reader's own position. */
  lemma AwaitTouchesNoNode(s: State, p: AwaitStep)
    requires ReaderSound(s) && AwaitEnabled(s, p)
    ensures var s' := ApplyAwait(s, p);
      s' == s.(stack := s'.stack, reader := s'.reader, mutex := s'.mutex) &&
      Top(s'.stack) == Top(s.stack) && RestPtr(s'.reader) == RestPtr(s.reader) == Null && ReaderSound(s')
  {}

  lemma AwaitKeeps(s: State, w: Shape, p: AwaitStep)
    requires Shaped(s, w) && AwaitEnabled(s, p)
    ensures Shaped(ApplyAwait(s, p), w)
  {
    AwaitTouchesNoNode(s, p);
    SameShape(s, ApplyAwait(s, p), w);
  }

  /** Reader steps that move no node. */
  predicate MovesNothing(s: State, r: ReaderStep)
    requires ReaderEnabled(s, r)
  {
    match r
    case PopHead => false
    case FetchCas(spurious) =>
      s.reader.e == EndPtr(s.reader.goal) || s.stack != s.reader.e || spurious || !s.stack.Node?
    case ReverseStep => !s.reader.e.Node?
    case TakeHead => false
    case ClearStep => !s.head.Node?
    case _ => true
  }

  lemma StillKeeps(s: State, w: Shape, r: ReaderStep)
    requires Shaped(s, w) && ReaderEnabled(s, r) && MovesNothing(s, r)
    ensures Shaped(ApplyReader(s, r), w)
  {
    var s' := ApplyReader(s, r);
    assert s'.prods == s.prods && s'.heap == s.heap;
    assert ReaderSound(s');
    SameShape(s, s', w);
  }

  /** fetch_new_data's successful CAS: the stack becomes the part still to be moved. */
  lemma GrabKeeps(s: State, w: Shape, spurious: bool)
    requires Shaped(s, w) && s.reader.RFetching? && !MovesNothing(s, FetchCas(spurious))
    ensures Queued(w.(stack := [], rest := w.stack)) == Queued(w)
    ensures Shaped(ApplyReader(s, FetchCas(spurious)), w.(stack := [], rest := w.stack))
  {
    var s' := ApplyReader(s, FetchCas(spurious));
    assert w.rest == [] && w.head == [];
    assert Queued(w.(stack := [], rest := w.stack)) == Queued(w);
    assert s'.prods == s.prods;
    OwnerFrame(s, s', Queued(w));
  }

  /** One round of the reversing loop moves the newest remaining node to the front of head_. */
  function Reversed1(w: Shape): Shape
    requires w.rest != []
  {
    w.(head := [w.rest[0]] + w.head, rest := w.rest[1..])
  }

  /** ... which changes neither the queue ... */
  lemma ReverseQueued(w: Shape)
    requires w.rest != []
    ensures Queued(Reversed1(w)) == Queued(w)
  {
    assert Rev(w.rest) == Rev(w.rest[1..]) + [w.rest[0]];
  }

  /** ... nor breaks a chain. */
  lemma ReverseChains(h: Heap, stack: Ptr, head: Ptr, w: Shape)
    requires w.rest != [] && Distinct(Queued(w))
    requires IsChain(h, stack, w.stack) && IsChain(h, head, w.head) && IsChain(h, Node(w.rest[0]), w.rest)
    ensures var n, w' := w.rest[0], Reversed1(w);
      var h' := SetNext(h, n, head);
      IsChain(h', stack, w'.stack) && IsChain(h', Node(n), w'.head) && IsChain(h', NextOf(h, n), w'.rest)
  {
    var n := w.rest[0];
    var h' := SetNext(h, n, head);
    DistinctAcross(w);
    ChainTail(h, Node(n), w.rest);
    ChainFrame(h, h', NextOf(h, n), w.rest[1..]);
    ChainFrame(h, h', stack, w.stack);
    ChainFrame(h, h', head, w.head);
    ChainCons(h', n, head, w.head);
  }

  lemma ReverseKeeps(s: State, w: Shape)
    requires Shaped(s, w) && s.reader.RReversing? && s.reader.e.Node?
    ensures w.rest != [] && Shaped(ApplyReader(s, ReverseStep), Reversed1(w))
  {
    var s' := ApplyReader(s, ReverseStep);
    ReverseChains(s.heap, Top(s.stack), s.head, w);
    ReverseQueued(w);
    OwnerFrame(s, s', Queued(w));
    OthersUntouched(s, s', w.rest[0], w);
  }

  /** Writing a queued node leaves every producer's link as it was. */
  lemma OthersUntouched(s: State, s': State, n: Addr, w: Shape)
    requires OneOwner(s, Queued(w)) && ProducersLinked(s) && n in Queued(w)
    requires s'.prods == s.prods && forall a <- s.heap | a != n :: a in s'.heap && s'.heap[a] == s.heap[a]
    ensures ProducersLinked(s')
  {
    forall t <- s.prods | s.prods[t].PLinked?
      ensures s.prods[t].n in s.heap && s.prods[t].n != n
    {
      assert InFlight(s, t, s.prods[t].n);
    }
  }

  /** The front node leaves head_, either to the caller or deleted. */
  function Unlinked1(w: Shape): Shape
    requires w.head != []
  {
    w.(head := w.head[1..])
  }

  lemma UnlinkQueued(w: Shape)
    requires w.head != [] && w.rest == []
    ensures Queued(w) == [w.head[0]] + Queued(Unlinked1(w))
  {
    assert Rev(w.rest) == [];
  }

  lemma UnlinkChains(h: Heap, h': Heap, stack: Ptr, w: Shape)
    requires w.head != [] && Distinct(Queued(w))
    requires IsChain(h, stack, w.stack) && IsChain(h, Node(w.head[0]), w.head)
    requires h' == h || h' == h - {w.head[0]}
    ensures IsChain(h', stack, w.stack) && IsChain(h', NextOf(h, w.head[0]), w.head[1..])
  {
    var n := w.head[0];
    DistinctAcross(w);
    ChainTail(h, Node(n), w.head);
    ChainFrame(h, h', NextOf(h, n), w.head[1..]);
    ChainFrame(h, h', stack, w.stack);
  }

  lemma UnlinkKeeps(s: State, s': State, w: Shape, deleted: bool)
    requires Shaped(s, w) && s.head.Node? && w.rest == []
    requires s'.stack == s.stack && s'.head == NextOf(s.heap, s.head.addr) && s'.prods == s.prods
    requires s'.heap == if deleted then s.heap - {s.head.addr} else s.heap
    requires s'.held == if deleted then s.held else s.held + {s.head.addr}
    requires RestPtr(s'.reader) == Null && ReaderSound(s')
    ensures w.head != [] && w.head[0] == s.head.addr
    ensures Shaped(s', Unlinked1(w))
  {
    UnlinkChains(s.heap, s'.heap, Top(s.stack), w);
    UnlinkQueued(w);
    UnlinkOwner(s, s', Queued(w), deleted);
    OthersUntouched(s, s', w.head[0], w);
  }

  lemma UnlinkOwner(s: State, s': State, q: seq<Addr>, deleted: bool)
    requires OneOwner(s, q) && q != []
    requires s'.heap == if deleted then s.heap - {q[0]} else s.heap
    requires s'.held == if deleted then s.held else s.held + {q[0]}
    requires forall t, a :: InFlight(s', t, a) <==> InFlight(s, t, a)
    ensures OneOwner(s', q[1..])
  {
    forall a <- s'.heap | a !in q[1..] && a !in s'.held
      ensures exists t :: InFlight(s', t, a)
    {
      assert a !in q;
      var t :| InFlight(s, t, a);
      assert InFlight(s', t, a);
    }
  }

  ghost predicate Chains(s: State, h: Heap, w: Shape) {
    IsChain(h, Top(s.stack), w.stack) && IsChain(h, s.head, w.head) && IsChain(h, RestPtr(s.reader), w.rest)
  }

  lemma ChainsFrame(s: State, w: Shape, h': Heap)
    requires Chains(s, s.heap, w)
    requires forall a <- Queued(w) :: a in h' && (a in s.heap ==> h'[a].next == s.heap[a].next)
    ensures Chains(s, h', w)
  {
    ChainFrame(s.heap, h', Top(s.stack), w.stack);
    ChainFrame(s.heap, h', s.head, w.head);
    ChainFrame(s.heap, h', RestPtr(s.reader), w.rest);
  }

  lemma BeginOwner(s: State, s': State, q: seq<Addr>, t: Tid, n: Addr)
    requires OneOwner(s, q) && n !in s.heap && s'.held == s.held && s'.heap.Keys == s.heap.Keys + {n}
    requires forall u, a :: InFlight(s', u, a) <==> InFlight(s, u, a) || (u == t && a == n)
    requires forall a :: !InFlight(s, t, a)
    ensures OneOwner(s', q)
  {
    forall x <- s'.heap | x !in q && x !in s'.held
      ensures exists u :: InFlight(s', u, x)
    {
      if x == n {
        assert InFlight(s', t, x);
      } else {
        var u :| InFlight(s, u, x);
        assert InFlight(s', u, x);
      }
    }
  }

  lemma BeginKeeps(s: State, w: Shape, t: Tid, p: ProducerStep)
    requires Shaped(s, w) && ProducerEnabled(s, t, p) && p.Begin?
    ensures Shaped(ApplyProducer(s, t, p), w)
  {
    var s' := ApplyProducer(s, t, p);
    ChainsFrame(s, w, s'.heap);
    BeginOwner(s, s', Queued(w), t, p.n);
    forall u <- s'.prods | s'.prods[u].PLinked?
      ensures u in s.prods && s.prods[u].n in s.heap && s'.heap[s.prods[u].n] == s.heap[s.prods[u].n]
    {
      assert InFlight(s, u, s.prods[u].n);
    }
  }

  /** Load, and the failing CAS: only the producer's idea of stack_ changes. */
  lemma LookKeeps(s: State, w: Shape, t: Tid, p: ProducerStep)
    requires Shaped(s, w) && ProducerEnabled(s, t, p)
    requires p.Load? || p.Lock? || p.Notify? || p.Unlock? || (p.Cas? && s.stack != s.prods[t].e)
    ensures Shaped(ApplyProducer(s, t, p), w)
  {
    var s' := ApplyProducer(s, t, p);
    assert ReaderSound(s') && RestPtr(s'.reader) == RestPtr(s.reader);
    SameShape(s, s', w);
  }

  lemma LinkKeeps(s: State, w: Shape, t: Tid)
    requires Shaped(s, w) && ProducerEnabled(s, t, Link)
    ensures Shaped(ApplyProducer(s, t, Link), w)
  {
    var s' := ApplyProducer(s, t, Link);
    var n := s.prods[t].n;
    assert InFlight(s, t, n);
    ChainsFrame(s, w, s'.heap);
    if s.prods[t].e == Null {
      LostOwner(s, s', Queued(w), t, Queued(w));
    } else {
      OwnerFrame(s, s', Queued(w));
    }
    forall u <- s'.prods | s'.prods[u].PLinked? && u != t
      ensures s.prods[u].n in s.heap && s.prods[u].n != n
    {
      assert InFlight(s, u, s.prods[u].n);
    }
  }

  /** Producer t gives up its node, to the queue or by deleting it. */
  lemma LostOwner(s: State, s': State, q: seq<Addr>, t: Tid, q': seq<Addr>)
    requires OneOwner(s, q) && t in s.prods && s.prods[t].HasNode() && s'.held == s.held
    requires forall u, a :: InFlight(s', u, a) <==> InFlight(s, u, a) && u != t
    requires (q' == q && s'.heap == s.heap - {s.prods[t].n}) || (q' == q + [s.prods[t].n] && s'.heap == s.heap)
    ensures OneOwner(s', q')
  {
    var n := s.prods[t].n;
    assert InFlight(s, t, n);
    forall a <- s'.heap | a !in q' && a !in s'.held
      ensures exists u :: InFlight(s', u, a)
    {
      if q' != q { assert q'[|q|] == n; }
      assert a !in q && a != n;
      var u :| InFlight(s, u, a);
      assert InFlight(s', u, a);
    }
  }

  /** A successful enqueue CAS: the stack becomes exactly the new node followed by its current contents,
      however old the value the producer compared with. */
  lemma EnqueueKeeps(s: State, w: Shape, t: Tid)
    requires Shaped(s, w) && ProducerEnabled(s, t, Cas) && s.stack == s.prods[t].e
    ensures Shaped(ApplyProducer(s, t, Cas), Stacked1(w, s.prods[t].n))
  {
    var s' := ApplyProducer(s, t, Cas);
    var n := s.prods[t].n;
    StackQueued(w, n);
    ChainCons(s.heap, n, Top(s.stack), w.stack);
    LostOwner(s, s', Queued(w), t, Queued(Stacked1(w, n)));
  }

  /** The stack with one more node on top. */
  function Stacked1(w: Shape, n: Addr): Shape { w.(stack := [n] + w.stack) }

  lemma StackQueued(w: Shape, n: Addr)
    ensures Queued(Stacked1(w, n)) == Queued(w) + [n]
  {
    assert Rev([n] + w.stack) == Rev(w.stack) + [n];
  }

  lemma FreeOwner(s: State, s': State, q: seq<Addr>, n: Addr)
    requires OneOwner(s, q) && n in s.held && s'.held == s.held - {n} && s'.heap == s.heap - {n}
    requires forall u, a :: InFlight(s', u, a) <==> InFlight(s, u, a)
    ensures OneOwner(s', q)
  {
    forall a <- s'.heap | a !in q && a !in s'.held
      ensures exists u :: InFlight(s', u, a)
    {
      var u :| InFlight(s, u, a);
      assert InFlight(s', u, a);
    }
  }

  lemma FreeKeeps(s: State, w: Shape, n: Addr)
    requires Shaped(s, w) && n in s.held
    ensures Shaped(Apply(s, Free(n)), w)
  {
    var s' := Apply(s, Free(n));
    ChainsFrame(s, w, s'.heap);
    FreeOwner(s, s', Queued(w), n);
    forall u <- s.prods | s.prods[u].PLinked?
      ensures s.prods[u].n != n
    {
      assert InFlight(s, u, s.prods[u].n);
    }
  }

  // ---------- refinement of a plain sequence ----------

  lemma ValsFrame(h: Heap, h': Heap, q: seq<Addr>)
    requires forall a <- q :: a in h && a in h' && h'[a].val == h[a].val
    ensures Vals(h', q) == Vals(h, q)
  {}

  /** The shape after a step; what leaves comes off the front of the queue, what a producer publishes goes
      to its back, and nothing else changes. */
  lemma StepShape(s: State, w: Shape, a: Action) returns (w': Shape)
    requires Shaped(s, w) && Enabled(s, a)
    ensures Shaped(Apply(s, a), w')
    ensures Pops(s, a) + Disposes(s, a) + Vals(Apply(s, a).heap, Queued(w')) == Vals(s.heap, Queued(w)) + Pushes(s, a)
  {
    var s' := Apply(s, a);
    w' := w;
    match a {
      case Producing(t, p) => w' := ProducerShape(s, w, t, p);
      case Reading(r) => w' := ReaderShape(s, w, r);
      case Awaiting(p) => AwaitKeeps(s, w, p); AwaitTouchesNoNode(s, p);
      case Free(n) =>
        FreeKeeps(s, w, n);
        ValsFrame(s.heap, s'.heap, Queued(w));
    }
  }

  lemma ProducerShape(s: State, w: Shape, t: Tid, p: ProducerStep) returns (w': Shape)
    requires Shaped(s, w) && ProducerEnabled(s, t, p)
    ensures Shaped(ApplyProducer(s, t, p), w')
    ensures Vals(ApplyProducer(s, t, p).heap, Queued(w')) == Vals(s.heap, Queued(w)) + Pushes(s, Producing(t, p))
  {
    w' := w;
    if p.Begin? {
      BeginKeeps(s, w, t, p);
      ValsFrame(s.heap, ApplyProducer(s, t, p).heap, Queued(w));
    } else if p.Link? {
      LinkKeeps(s, w, t);
      LinkVals(s, w, t);
    } else if p.Cas? && s.stack == s.prods[t].e {
      EnqueueKeeps(s, w, t);
      StackQueued(w, s.prods[t].n);
      w' := Stacked1(w, s.prods[t].n);
      assert InFlight(s, t, s.prods[t].n);
    } else {
      LookKeeps(s, w, t, p);
    }
  }

  lemma LinkVals(s: State, w: Shape, t: Tid)
    requires Shaped(s, w) && ProducerEnabled(s, t, Link)
    ensures Vals(ApplyProducer(s, t, Link).heap, Queued(w)) == Vals(s.heap, Queued(w))
  {
    assert InFlight(s, t, s.prods[t].n);
    ValsFrame(s.heap, ApplyProducer(s, t, Link).heap, Queued(w));
  }

  lemma ReaderShape(s: State, w: Shape, r: ReaderStep) returns (w': Shape)
    requires Shaped(s, w) && ReaderEnabled(s, r)
    ensures Shaped(ApplyReader(s, r), w')
    ensures Pops(s, Reading(r)) + Disposes(s, Reading(r)) + Vals(ApplyReader(s, r).heap, Queued(w')) == Vals(s.heap, Queued(w))
  {
    w' := w;
    if r.PopHead? || r.TakeHead? || r.ClearStep? {
      if s.head.Node? {
        w' := UnlinkShape(s, w, r);
      } else {
        StillKeeps(s, w, r);
      }
    } else {
      w' := FetchShape(s, w, r);
    }
  }

  lemma FetchShape(s: State, w: Shape, r: ReaderStep) returns (w': Shape)
    requires Shaped(s, w) && ReaderEnabled(s, r)
    requires !r.PopHead? && !r.TakeHead? && !r.ClearStep?
    ensures Shaped(ApplyReader(s, r), w')
    ensures Vals(ApplyReader(s, r).heap, Queued(w')) == Vals(s.heap, Queued(w))
  {
    if MovesNothing(s, r) {
      StillKeeps(s, w, r);
      w' := w;
    } else if r.FetchCas? {
      GrabKeeps(s, w, r.spurious);
      w' := w.(stack := [], rest := w.stack);
    } else {
      ReverseKeeps(s, w);
      ReverseQueued(w);
      w' := Reversed1(w);
      ValsFrame(s.heap, ApplyReader(s, r).heap, Queued(w));
    }
  }

  lemma UnlinkShape(s: State, w: Shape, r: ReaderStep) returns (w': Shape)
    requires Shaped(s, w) && ReaderEnabled(s, r) && s.head.Node?
    requires r.PopHead? || r.TakeHead? || r.ClearStep?
    ensures Shaped(ApplyReader(s, r), w')
    ensures [ValOf(s.heap, s.head)] + Vals(ApplyReader(s, r).heap, Queued(w')) == Vals(s.heap, Queued(w))
  {
    UnlinkKeeps(s, ApplyReader(s, r), w, r.ClearStep?);
    w' := Unlinked1(w);
    UnlinkVals(s.heap, ApplyReader(s, r).heap, w);
  }

  lemma UnlinkVals(h: Heap, h': Heap, w: Shape)
    requires w.head != [] && w.rest == [] && w.head[0] in h && Distinct(Queued(w))
    requires forall a <- Queued(w) :: a in h
    requires h' == h || h' == h - {w.head[0]}
    ensures [h[w.head[0]].val] + Vals(h', Queued(Unlinked1(w))) == Vals(h, Queued(w))
  {
    UnlinkQueued(w);
    var q := Queued(Unlinked1(w));
    ValsCons(h, w.head[0], q);
    FrontIsOnce(w.head[0], q);
    ValsFrame(h, h', q);
  }

  lemma ValsCons(h: Heap, n: Addr, q: seq<Addr>)
    ensures Vals(h, [n] + q) == [if n in h then h[n].val else 0] + Vals(h, q)
  {}

  lemma FrontIsOnce(n: Addr, q: seq<Addr>)
    requires Distinct([n] + q)
    ensures n !in q
  {
    var s := [n] + q;
    assert forall i | 0 <= i < |q| :: q[i] == s[i + 1] && s[0] != s[i + 1];
  }
}
