/**
 The main results about the queue, over single steps and over whole runs.
 */
module QueueRefinement {
  import opened QueueMachine
  import opened QueueFifo
  import opened Common

  lemma InitShaped(s: State)
    requires Init(s)
    ensures HeapInv(s) && Contents(s) == []
  {
    ShapedIsWalked(s, Shape([], [], []));
  }

  /** Refinement: each step of the pointer machine is a step of a plain sequence - a successful CAS appends
      its element, a pop or a disposal takes the first one, every other step leaves the sequence alone. */
  lemma StepRefinesFifo(s: State, a: Action)
    requires HeapInv(s) && Enabled(s, a)
    ensures HeapInv(Apply(s, a))
    ensures Pops(s, a) + Disposes(s, a) + Contents(Apply(s, a)) == Contents(s) + Pushes(s, a)
  {
    var w' := StepShape(s, ShapeOf(s), a);
    ShapedIsWalked(Apply(s, a), w');
  }

  /** No step touches a node that is not allocated, and no assertion inside the queue fails. */
  lemma StepIsSafe(s: State, a: Action)
    requires HeapInv(s) && Enabled(s, a)
    ensures Touches(s, a) <= s.heap.Keys
    ensures Asserted(s, a)
  {
    TouchesAllocated(s, ShapeOf(s), a);
    AssertionsHold(s, a);
  }

  lemma TouchesAllocated(s: State, w: Shape, a: Action)
    requires Shaped(s, w) && Enabled(s, a)
    ensures Touches(s, a) <= s.heap.Keys
  {
    ChainStart(s.heap, s.head, w.head);
    ChainStart(s.heap, RestPtr(s.reader), w.rest);
    if a.Producing? && a.p.Link? {
      assert InFlight(s, a.t, s.prods[a.t].n);
    }
  }

  lemma ChainStart(h: Heap, p: Ptr, c: seq<Addr>)
    requires IsChain(h, p, c)
    ensures p.Node? ==> p.addr in h
  {
    assert p.Node? ==> c[0] in h;
  }

  lemma AssertionsHold(s: State, a: Action)
    requires HeapInv(s) && Enabled(s, a)
    ensures Asserted(s, a)
  {
    assert RestPtr(s.reader) == LinkAt(ShapeOf(s).rest, 0);
  }

  lemma NothingQueued(s: State)
    requires !s.stack.Node? && !s.head.Node? && !RestPtr(s.reader).Node?
    ensures Contents(s) == []
  {
    assert ShapeOf(s) == Shape([], [], []);
  }

  /** try_pop answers "nothing" only when, at the moment it looked at stack_, the queue was empty. */
  lemma EmptyAnswerIsTrue(s: State, r: ReaderStep)
    requires HeapInv(s) && ReaderEnabled(s, r)
    requires ApplyReader(s, r).reader == RFetching(EmptyDummy, ToPop) && s.reader != RFetching(EmptyDummy, ToPop)
    ensures Contents(s) == []
  {
    assert s.stack == EmptyDummy && (r.FetchLoad? || r.FetchCas?);
    NothingQueued(s);
  }

  // ---------- whole runs ----------

  function Pushed(run: seq<State>, acts: seq<Action>, n: nat): seq<Elem>
    requires n <= |acts| && |run| == |acts| + 1
  {
    if n == 0 then [] else Pushed(run, acts, n - 1) + Pushes(run[n - 1], acts[n - 1])
  }

  function Popped(run: seq<State>, acts: seq<Action>, n: nat): seq<Elem>
    requires n <= |acts| && |run| == |acts| + 1
  {
    if n == 0 then [] else Popped(run, acts, n - 1) + Pops(run[n - 1], acts[n - 1])
  }

  function Disposed(run: seq<State>, acts: seq<Action>, n: nat): seq<Elem>
    requires n <= |acts| && |run| == |acts| + 1
  {
    if n == 0 then [] else Disposed(run, acts, n - 1) + Disposes(run[n - 1], acts[n - 1])
  }

  /** Popped and disposed elements together, in the order they left. */
  function Left(run: seq<State>, acts: seq<Action>, n: nat): seq<Elem>
    requires n <= |acts| && |run| == |acts| + 1
  {
    if n == 0 then [] else Left(run, acts, n - 1) + (Pops(run[n - 1], acts[n - 1]) + Disposes(run[n - 1], acts[n - 1]))
  }

  /** The n-th step, in terms of the histories. */
  lemma RunStep(run: seq<State>, acts: seq<Action>, n: nat) returns (left: seq<Elem>, pushed: seq<Elem>)
    requires IsRun(run, acts) && 0 < n <= |acts| && HeapInv(run[n - 1])
    ensures Left(run, acts, n) == Left(run, acts, n - 1) + left
    ensures Pushed(run, acts, n) == Pushed(run, acts, n - 1) + pushed
    ensures left + Contents(run[n]) == Contents(run[n - 1]) + pushed
  {
    assert Follows(run, acts, n - 1);
    StepRefinesFifo(run[n - 1], acts[n - 1]);
    left, pushed := Pops(run[n - 1], acts[n - 1]) + Disposes(run[n - 1], acts[n - 1]), Pushes(run[n - 1], acts[n - 1]);
  }

  lemma {:induction false} HeapInvAlways(run: seq<State>, acts: seq<Action>, n: nat)
    requires IsRun(run, acts) && n <= |acts|
    ensures HeapInv(run[n])
  {
    if n == 0 {
      InitShaped(run[0]);
    } else {
      HeapInvAlways(run, acts, n - 1);
      HeapInvNext(run, acts, n);
    }
  }

  lemma HeapInvNext(run: seq<State>, acts: seq<Action>, n: nat)
    requires IsRun(run, acts) && 0 < n <= |acts| && HeapInv(run[n - 1])
    ensures HeapInv(run[n])
  {
    assert Follows(run, acts, n - 1);
    StepRefinesFifo(run[n - 1], acts[n - 1]);
  }

  /** Conservation and order: at every moment of every run, what has left followed by what is queued is
      exactly what the enqueue CASes published, in CAS order. */
  lemma {:induction false} QueueIsFifo(run: seq<State>, acts: seq<Action>, n: nat)
    requires IsRun(run, acts) && n <= |acts|
    ensures Left(run, acts, n) + Contents(run[n]) == Pushed(run, acts, n)
  {
    if n == 0 {
      InitShaped(run[0]);
    } else {
      QueueIsFifo(run, acts, n - 1);
      FifoNext(run, acts, n);
    }
  }

  lemma FifoNext(run: seq<State>, acts: seq<Action>, n: nat)
    requires IsRun(run, acts) && 0 < n <= |acts|
    requires Left(run, acts, n - 1) + Contents(run[n - 1]) == Pushed(run, acts, n - 1)
    ensures Left(run, acts, n) + Contents(run[n]) == Pushed(run, acts, n)
  {
    HeapInvAlways(run, acts, n - 1);
    var left, pushed := RunStep(run, acts, n);
    FifoExtends(Left(run, acts, n - 1), left, Contents(run[n]), Contents(run[n - 1]), pushed);
  }

  /** With no close in the run, the popped elements are a prefix of the published ones. */
  lemma {:induction false} PoppedIsPrefix(run: seq<State>, acts: seq<Action>, n: nat)
    requires IsRun(run, acts) && n <= |acts|
    requires Disposed(run, acts, n) == []
    ensures Popped(run, acts, n) <= Pushed(run, acts, n)
  {
    QueueIsFifo(run, acts, n);
    NothingDisposed(run, acts, n);
  }

  lemma {:induction false} NothingDisposed(run: seq<State>, acts: seq<Action>, n: nat)
    requires n <= |acts| && |run| == |acts| + 1 && Disposed(run, acts, n) == []
    ensures Left(run, acts, n) == Popped(run, acts, n)
  {
    if n > 0 {
      var d := Disposes(run[n - 1], acts[n - 1]);
      assert Disposed(run, acts, n) == Disposed(run, acts, n - 1) + d;
      assert |Disposed(run, acts, n - 1)| + |d| == 0;
      NothingDisposed(run, acts, n - 1);
      assert Pops(run[n - 1], acts[n - 1]) + d == Pops(run[n - 1], acts[n - 1]);
    }
  }

  /** At every moment of every run each allocated node has exactly one owner: the queue, the receiver of a
      pop, or one producer; and a node is allocated as long as anyone owns it. */
  lemma OneOwnerAlways(run: seq<State>, acts: seq<Action>, n: nat, a: Addr)
    requires IsRun(run, acts) && n <= |acts|
    ensures var s := run[n];
      var queued := a in Queued(ShapeOf(s));
      var held := a in s.held;
      var flying := exists t :: InFlight(s, t, a);
      (a in s.heap <==> queued || held || flying) && !(queued && held) && !(queued && flying) && !(held && flying)
    ensures forall t, u | InFlight(run[n], t, a) && InFlight(run[n], u, a) :: t == u
  {
    HeapInvAlways(run, acts, n);
  }

  // ---------- close ----------

  predicate InClose(r: Reader) {
    r.RClearing? || r.RChecking? || r.RCloseLoading? || (r.RFetching? && r.goal.ToClose?) || (r.RReversing? && r.goal.ToClose?)
  }

  /** When close returns nothing is left in the queue, and the queue is closed exactly when it was not blocked. */
  lemma CloseEmptiesQueue(s: State, r: ReaderStep)
    requires HeapInv(s) && ReaderEnabled(s, r)
    requires InClose(s.reader) && ApplyReader(s, r).reader == RIdle
    ensures Contents(ApplyReader(s, r)) == []
    ensures ApplyReader(s, r).stack == Null <==> s.stack != BlockedDummy
  {
    assert r.FetchCas? || r.ClearStep? || r.CheckBlocked?;
    NothingQueued(ApplyReader(s, r));
  }

  /** A closed queue stays closed; whatever a producer does with it afterwards, the element it brought is
      deleted and the answer is queue_closed. */
  lemma ClosedIsFinal(s: State, a: Action)
    requires HeapInv(s) && Enabled(s, a) && s.stack == Null
    ensures Apply(s, a).stack == Null && Pushes(s, a) == []
    ensures EnqueueReturns(s, a) == None || EnqueueReturns(s, a) == Some(QueueClosed)
  {
    match a {
      case Producing(t, p) =>
        assert p.Cas? ==> s.prods[t].e != Null;
      case Reading(r) => ClosedReader(s, r);
      case Awaiting(p) =>
      case Free(_) =>
    }
  }

  lemma ClosedReader(s: State, r: ReaderStep)
    requires ReaderSound(s) && ReaderEnabled(s, r) && s.stack == Null
    ensures ApplyReader(s, r).stack == Null
  {}

  // ---------- one close, from its call to its return ----------

  /** The reader is inside one close after steps i+1 .. k. */
  ghost predicate Closing(run: seq<State>, acts: seq<Action>, i: nat, k: nat) {
    && IsRun(run, acts) && i < k <= |acts| && acts[i] == Reading(CloseStart)
    && forall m | i < m < k :: InCloseAt(run, m)
  }

  ghost predicate InCloseAt(run: seq<State>, m: nat) { m < |run| && InClose(run[m].reader) }

  lemma {:induction false} PushedGrows(run: seq<State>, acts: seq<Action>, i: nat, n: nat)
    requires IsRun(run, acts) && i <= n <= |acts|
    ensures Pushed(run, acts, i) <= Pushed(run, acts, n)
    decreases n
  {
    if i < n {
      PushedGrows(run, acts, i, n - 1);
    }
  }

  lemma CloseStepPopsNothing(s: State, a: Action)
    requires Enabled(s, a) && (a == Reading(CloseStart) || InClose(s.reader))
    ensures Pops(s, a) == []
  {}

  /** From step m to step k nothing is popped, and d is disposed of. */
  ghost predicate OnlyDisposes(run: seq<State>, acts: seq<Action>, m: nat, k: nat, d: seq<Elem>)
    requires IsRun(run, acts) && m <= k <= |acts|
  {
    && Left(run, acts, k) == Left(run, acts, m) + d
    && Disposed(run, acts, k) == Disposed(run, acts, m) + d
    && Popped(run, acts, k) == Popped(run, acts, m)
  }

  lemma OneStepOnlyDisposes(run: seq<State>, acts: seq<Action>, m: nat)
    requires IsRun(run, acts) && m < |acts| && (acts[m] == Reading(CloseStart) || InClose(run[m].reader))
    ensures OnlyDisposes(run, acts, m, m + 1, Disposes(run[m], acts[m]))
  {
    assert Follows(run, acts, m);
    CloseStepPopsNothing(run[m], acts[m]);
    var now := Disposes(run[m], acts[m]);
    assert [] + now == now;
  }

  lemma DisposesCompose(run: seq<State>, acts: seq<Action>, i: nat, m: nat, k: nat, d: seq<Elem>, d': seq<Elem>)
    requires IsRun(run, acts) && i <= m <= k <= |acts|
    requires OnlyDisposes(run, acts, i, m, d) && OnlyDisposes(run, acts, m, k, d')
    ensures OnlyDisposes(run, acts, i, k, d + d')
  {
    Assoc(Left(run, acts, i), d, d');
    Assoc(Disposed(run, acts, i), d, d');
  }

  lemma Assoc<X>(a: seq<X>, b: seq<X>, c: seq<X>)
    ensures a + b + c == a + (b + c)
  {}

  /** Inside close nothing is popped: all that leaves is disposed of. */
  lemma {:induction false} CloseOnlyDisposes(run: seq<State>, acts: seq<Action>, i: nat, k: nat) returns (d: seq<Elem>)
    requires Closing(run, acts, i, k)
    ensures OnlyDisposes(run, acts, i, k, d)
    decreases k
  {
    assert i < k - 1 ==> InCloseAt(run, k - 1);
    OneStepOnlyDisposes(run, acts, k - 1);
    d := Disposes(run[k - 1], acts[k - 1]);
    if i < k - 1 {
      var before := CloseOnlyDisposes(run, acts, i, k - 1);
      DisposesCompose(run, acts, i, k - 1, k, before, d);
      d := before + d;
    }
  }

  /** Only a queue that was blocked when close began can be blocked while it runs; a push would have unblocked it. */
  lemma {:induction false} BlockedThroughoutClose(run: seq<State>, acts: seq<Action>, i: nat, k: nat)
    requires Closing(run, acts, i, k) && run[k].stack == BlockedDummy
    ensures Pushed(run, acts, k) == Pushed(run, acts, i)
    decreases k
  {
    assert i < k - 1 ==> InCloseAt(run, k - 1);
    assert Follows(run, acts, k - 1);
    StaysBlocked(run[k - 1], acts[k - 1]);
    PushLeavesNode(run, acts, k - 1);
    if i < k - 1 {
      BlockedThroughoutClose(run, acts, i, k - 1);
    }
  }

  lemma StaysBlocked(s: State, a: Action)
    requires Enabled(s, a) && (a == Reading(CloseStart) || InClose(s.reader)) && Apply(s, a).stack == BlockedDummy
    ensures s.stack == BlockedDummy
  {
    match a {
      case Producing(t, p) =>
      case Reading(r) =>
      case Awaiting(w) =>
      case Free(_) =>
    }
  }

  /** The CAS that closed the queue, the last one before which anything could be published. */
  lemma {:induction false} ClosingCas(run: seq<State>, acts: seq<Action>, i: nat, k: nat) returns (c: nat)
    requires IsRun(run, acts) && i <= k <= |acts| && run[i].stack != Null && run[k].stack == Null
    ensures i <= c < k && run[c].stack != Null && run[c + 1].stack == Null
    ensures Pushed(run, acts, k) == Pushed(run, acts, c)
    decreases k
  {
    PushLeavesNode(run, acts, k - 1);
    c := k - 1;
    if run[k - 1].stack == Null {
      c := ClosingCas(run, acts, i, k - 1);
    }
  }

  lemma PushLeavesNode(run: seq<State>, acts: seq<Action>, m: nat)
    requires IsRun(run, acts) && m < |acts| && !run[m + 1].stack.Node?
    ensures Pushed(run, acts, m + 1) == Pushed(run, acts, m)
  {
    assert Follows(run, acts, m);
    assert !EnqueueCas(run[m], acts[m]);
  }

  /** One whole close, over any run: called at step i, returned after step k.  What it disposes of is exactly what the
      queue held when it was called, then what was published up to its closing CAS c, in order; nothing more is
      ever published.  On a blocked queue there is no such CAS, and c is the call itself. */
  lemma CloseDisposesOfAll(run: seq<State>, acts: seq<Action>, i: nat, k: nat)
    returns (c: nat, disposed: seq<Elem>, news: seq<Elem>)
    requires Closing(run, acts, i, k) && i + 1 < k && run[k].reader == RIdle
    ensures OnlyDisposes(run, acts, i, k, disposed) && disposed == Contents(run[i]) + news
    ensures i <= c < k && Pushed(run, acts, c) == Pushed(run, acts, i) + news
    ensures if run[k - 1].stack == BlockedDummy then run[k].stack == BlockedDummy && c == i
            else run[c].stack != Null && run[c + 1].stack == Null && run[k].stack == Null
  {
    CloseReturns(run, acts, i, k);
    c := ClosePoint(run, acts, i, k);
    news := Published(run, acts, i, c);
    disposed := CloseOnlyDisposes(run, acts, i, k);
    FifoBetween(run, acts, i, c, k, disposed, news);
  }

  lemma Published(run: seq<State>, acts: seq<Action>, i: nat, c: nat) returns (news: seq<Elem>)
    requires IsRun(run, acts) && i <= c <= |acts|
    ensures Pushed(run, acts, c) == Pushed(run, acts, i) + news
  {
    PushedGrows(run, acts, i, c);
    news := Pushed(run, acts, c)[|Pushed(run, acts, i)|..];
  }

  /** The moment of a close after which nothing is published any more. */
  lemma ClosePoint(run: seq<State>, acts: seq<Action>, i: nat, k: nat) returns (c: nat)
    requires Closing(run, acts, i, k) && i + 1 < k && run[k].reader == RIdle
    ensures i <= c < k && Pushed(run, acts, k) == Pushed(run, acts, c)
    ensures if run[k - 1].stack == BlockedDummy then run[k].stack == BlockedDummy && c == i
            else run[c].stack != Null && run[c + 1].stack == Null && run[k].stack == Null
  {
    CloseReturns(run, acts, i, k);
    if run[k - 1].stack == BlockedDummy {
      c := i;
      BlockedThroughoutClose(run, acts, i, k);
    } else {
      c := ClosingCas(run, acts, i, k);
    }
  }

  /** What has been disposed of by the time the queue is empty, in terms of what was published. */
  lemma FifoBetween(run: seq<State>, acts: seq<Action>, i: nat, c: nat, k: nat, d: seq<Elem>, news: seq<Elem>)
    requires IsRun(run, acts) && i <= c <= k <= |acts| && OnlyDisposes(run, acts, i, k, d)
    requires Contents(run[k]) == [] && Pushed(run, acts, k) == Pushed(run, acts, c) == Pushed(run, acts, i) + news
    ensures d == Contents(run[i]) + news
  {
    QueueIsFifo(run, acts, i);
    QueueIsFifo(run, acts, k);
    Remains(Left(run, acts, i), d, Contents(run[i]), news);
  }

  lemma CloseReturns(run: seq<State>, acts: seq<Action>, i: nat, k: nat)
    requires Closing(run, acts, i, k) && i + 1 < k && run[k].reader == RIdle
    ensures run[i].stack != Null && Contents(run[k]) == []
    ensures run[k].stack == if run[k - 1].stack == BlockedDummy then BlockedDummy else Null
  {
    assert Follows(run, acts, i) && Follows(run, acts, k - 1) && InCloseAt(run, k - 1);
    HeapInvAlways(run, acts, k - 1);
    ReaderReturns(run[k - 1], acts[k - 1]);
    CloseEmptiesQueue(run[k - 1], acts[k - 1].r);
  }

  lemma Remains<X>(left: seq<X>, d: seq<X>, held: seq<X>, news: seq<X>)
    requires left + d + [] == left + held + news
    ensures d == held + news
  {
    var all := left + d + [];
    assert all == left + (held + news);
    assert d == all[|left|..] && held + news == all[|left|..];
  }

  lemma ReaderReturns(s: State, a: Action)
    requires Enabled(s, a) && InClose(s.reader) && Apply(s, a).reader == RIdle
    ensures a.Reading? && (s.stack == BlockedDummy ==> Apply(s, a).stack == BlockedDummy || s.reader.RFetching?)
  {}

  /** queue_closed means the producer's own node, and no other, was deleted. */
  lemma RefusedElementIsDeleted(s: State, a: Action)
    requires HeapInv(s) && Enabled(s, a) && EnqueueReturns(s, a) == Some(QueueClosed)
    ensures a.Producing? && InFlight(s, a.t, s.prods[a.t].n) && s.prods[a.t].n in s.heap
    ensures Apply(s, a).heap == s.heap - {s.prods[a.t].n} && a.t !in Apply(s, a).prods
  {
    assert InFlight(s, a.t, s.prods[a.t].n);
  }

  /** Address reuse is harmless: a producer's successful CAS puts exactly its own node in front of the
      current stack, even if the value it compared with was loaded before that address was freed and
      given to another element. */
  lemma CasPutsNodeOnCurrentStack(s: State, a: Action)
    requires HeapInv(s) && Enabled(s, a) && EnqueueCas(s, a)
    ensures ShapeOf(Apply(s, a)).stack == [s.prods[a.t].n] + ShapeOf(s).stack
    ensures s.prods[a.t].n !in Queued(ShapeOf(s))
    ensures Distinct(Queued(ShapeOf(Apply(s, a))))
  {
    var w := ShapeOf(s);
    assert InFlight(s, a.t, s.prods[a.t].n);
    EnqueueKeeps(s, w, a.t);
    StackQueued(w, s.prods[a.t].n);
    ShapedIsWalked(Apply(s, a), Stacked1(w, s.prods[a.t].n));
  }
}
