/**
 What the queue's operations answer: every enqueue ends exactly once and accounts for its element, try_pop says
 "nothing" only of an empty queue, and the timed await says false only of its own timeout.
 */
module QueueAnswers {
  import opened Common
  import opened QueueMachine
  import opened QueueFifo
  import opened QueueRefinement

  // ---------- how an enqueue ends ----------

  /** A producer that has read null has read it from a queue that is still closed. */
  ghost predicate ClosedSeen(s: State) {
    forall t <- s.prods | s.prods[t].PLoaded? && s.prods[t].e == Null :: s.stack == Null
  }

  /** A step of another thread leaves producer t where it is. */
  lemma OthersStay(s: State, a: Action, t: Tid)
    requires Enabled(s, a) && !(a.Producing? && a.t == t)
    ensures t in Apply(s, a).prods <==> t in s.prods
    ensures t in s.prods ==> Apply(s, a).prods[t] == s.prods[t]
  {
    match a {
      case Producing(u, p) =>
      case Reading(r) => assert Apply(s, a).prods == s.prods;
      case Awaiting(w) => assert Apply(s, a).prods == s.prods;
      case Free(_) =>
    }
  }

  lemma OwnLookIsFresh(s: State, t: Tid, p: ProducerStep)
    requires ProducerEnabled(s, t, p)
    ensures var s' := ApplyProducer(s, t, p);
      t in s'.prods && s'.prods[t].PLoaded? ==> s'.prods[t].e == s.stack == s'.stack
  {}

  lemma ClosedSeenStep(s: State, a: Action)
    requires HeapInv(s) && ClosedSeen(s) && Enabled(s, a)
    ensures ClosedSeen(Apply(s, a))
  {
    var s' := Apply(s, a);
    forall t <- s'.prods | s'.prods[t].PLoaded? && s'.prods[t].e == Null
      ensures s'.stack == Null
    {
      if a.Producing? && a.t == t {
        OwnLookIsFresh(s, t, a.p);
      } else {
        OthersStay(s, a, t);
        ClosedIsFinal(s, a);
      }
    }
  }

  lemma {:induction false} ClosedSeenAlways(run: seq<State>, acts: seq<Action>, n: nat)
    requires IsRun(run, acts) && n <= |acts|
    ensures ClosedSeen(run[n])
  {
    if n > 0 {
      ClosedSeenAlways(run, acts, n - 1);
      ClosedSeenNext(run, acts, n);
    }
  }

  lemma ClosedSeenNext(run: seq<State>, acts: seq<Action>, n: nat)
    requires IsRun(run, acts) && 0 < n <= |acts| && ClosedSeen(run[n - 1])
    ensures ClosedSeen(run[n])
  {
    HeapInvAlways(run, acts, n - 1);
    assert Follows(run, acts, n - 1);
    ClosedSeenStep(run[n - 1], acts[n - 1]);
  }

  /** The answer of an enqueue that publishes: unblocked_reader exactly when its CAS found the queue blocked. */
  function Published(s: State): EnqueueResult { if s.stack == BlockedDummy then UnblockedReader else Success }

  /** A producer parts with its node only by a step of its own, in one of two ways.  Either its CAS publishes the element,
      the node becomes the top of the stack and the answer is success or unblocked_reader; or the queue is closed, the
      node is deleted and the answer is queue_closed.  In particular a failed CAS loses nothing. */
  lemma EnqueueEnds(s: State, a: Action, t: Tid, n: Addr)
    requires HeapInv(s) && ClosedSeen(s) && Enabled(s, a)
    ensures PartsWith(s, a, t, n) ==>
      && a.Producing? && a.t == t && n in s.heap
      && if s.stack == Null
         then EnqueueReturns(s, a) == Some(QueueClosed) && Pushes(s, a) == [] && Apply(s, a).heap == s.heap - {n}
         else EnqueueReturns(s, a) == Some(Published(s)) && Pushes(s, a) == [s.heap[n].val]
              && ShapeOf(Apply(s, a)).stack == [n] + ShapeOf(s).stack
  {
    if PartsWith(s, a, t, n) {
      OnlyOwnSteps(s, a, t, n);
      if EnqueueCas(s, a) {
        CasPutsNodeOnCurrentStack(s, a);
      }
    }
  }

  /** Producer t no longer holds node n after the step. */
  ghost predicate PartsWith(s: State, a: Action, t: Tid, n: Addr)
    requires Enabled(s, a)
  {
    InFlight(s, t, n) && !InFlight(Apply(s, a), t, n)
  }

  lemma OnlyOwnSteps(s: State, a: Action, t: Tid, n: Addr)
    requires Enabled(s, a) && InFlight(s, t, n) && !InFlight(Apply(s, a), t, n)
    ensures a.Producing? && a.t == t && (EnqueueCas(s, a) || (a.p.Link? && s.prods[t].e == Null))
  {
    if !(a.Producing? && a.t == t) {
      OthersStay(s, a, t);
    }
  }

  /** And an answer is given only then. */
  lemma AnswerEndsEnqueue(s: State, a: Action)
    requires Enabled(s, a) && EnqueueReturns(s, a) != None
    ensures a.Producing? && a.t in s.prods && s.prods[a.t].HasNode() && !HoldsNode(Apply(s, a), a.t)
  {}

  predicate HoldsNode(s: State, t: Tid) { t in s.prods && s.prods[t].HasNode() }

  // ---------- one answer per enqueue ----------

  predicate Begins(a: Action, t: Tid) { a.Producing? && a.t == t && a.p.Begin? }

  predicate Answers(s: State, a: Action, t: Tid)
    requires Enabled(s, a)
  {
    a.Producing? && a.t == t && EnqueueReturns(s, a) != None
  }

  function One(b: bool): nat { if b then 1 else 0 }

  /** The enqueues thread t has begun, and those that have answered, in the first n steps. */
  function BeginsOf(acts: seq<Action>, t: Tid, n: nat): nat
    requires n <= |acts|
  {
    if n == 0 then 0 else BeginsOf(acts, t, n - 1) + One(Begins(acts[n - 1], t))
  }

  ghost function AnswersOf(run: seq<State>, acts: seq<Action>, t: Tid, n: nat): nat
    requires IsRun(run, acts) && n <= |acts|
  {
    if n == 0 then 0 else
      assert Follows(run, acts, n - 1);
      AnswersOf(run, acts, t, n - 1) + One(Answers(run[n - 1], acts[n - 1], t))
  }

  lemma AnswerStep(s: State, a: Action, t: Tid)
    requires Enabled(s, a)
    ensures One(HoldsNode(Apply(s, a), t)) + One(Answers(s, a, t)) == One(HoldsNode(s, t)) + One(Begins(a, t))
  {
    if !(a.Producing? && a.t == t) {
      OthersStay(s, a, t);
    }
  }

  /** Over every run: of the enqueues a thread has begun all have answered exactly once, but for the one it is in. */
  lemma {:induction false} EachEnqueueAnswersOnce(run: seq<State>, acts: seq<Action>, t: Tid, n: nat)
    requires IsRun(run, acts) && n <= |acts|
    ensures BeginsOf(acts, t, n) == AnswersOf(run, acts, t, n) + One(HoldsNode(run[n], t))
  {
    if n > 0 {
      EachEnqueueAnswersOnce(run, acts, t, n - 1);
      assert Follows(run, acts, n - 1);
      AnswerStep(run[n - 1], acts[n - 1], t);
    }
  }

  // ---------- no element is lost ----------

  /** What a step hands to enqueue, and what an enqueue deletes because the queue is closed. */
  function Brings(a: Action): seq<Elem> { if a.Producing? && a.p.Begin? then [a.p.v] else [] }

  function Refuses(s: State, a: Action): seq<Elem>
    requires Enabled(s, a)
  {
    if EnqueueReturns(s, a) == Some(QueueClosed) then [ValOf(s.heap, Node(s.prods[a.t].n))] else []
  }

  /** How often, in the first n steps, v was handed to enqueue, was published, and was refused. */
  function TimesBrought(acts: seq<Action>, v: Elem, n: nat): nat
    requires n <= |acts|
  {
    if n == 0 then 0 else TimesBrought(acts, v, n - 1) + Occurs(Brings(acts[n - 1]), v)
  }

  function TimesPublished(run: seq<State>, acts: seq<Action>, v: Elem, n: nat): nat
    requires n <= |acts| && |run| == |acts| + 1
  {
    if n == 0 then 0 else TimesPublished(run, acts, v, n - 1) + Occurs(Pushes(run[n - 1], acts[n - 1]), v)
  }

  ghost function TimesRefused(run: seq<State>, acts: seq<Action>, v: Elem, n: nat): nat
    requires IsRun(run, acts) && n <= |acts|
  {
    if n == 0 then 0 else
      assert Follows(run, acts, n - 1);
      TimesRefused(run, acts, v, n - 1) + Occurs(Refuses(run[n - 1], acts[n - 1]), v)
  }

  /** What was published is what Pushed lists, so that QueueIsFifo tells where it is now. */
  lemma {:induction false} PublishedIsPushed(run: seq<State>, acts: seq<Action>, v: Elem, n: nat)
    requires n <= |acts| && |run| == |acts| + 1
    ensures TimesPublished(run, acts, v, n) == Occurs(Pushed(run, acts, n), v)
  {
    if n > 0 {
      PublishedIsPushed(run, acts, v, n - 1);
      OccursAppend(Pushed(run, acts, n - 1), Pushes(run[n - 1], acts[n - 1]), v);
    }
  }

  predicate Carries(s: State, t: Tid, v: Elem) { HoldsNode(s, t) && ValOf(s.heap, Node(s.prods[t].n)) == v }

  /** The producers that hold a node with value v. */
  function Carriers(s: State, v: Elem): set<Tid> { set t | t in s.prods && Carries(s, t, v) }

  /** Nobody writes the value of another's node. */
  lemma OthersKeepValue(s: State, a: Action, t: Tid, v: Elem)
    requires HeapInv(s) && Enabled(s, a) && !(a.Producing? && a.t == t)
    ensures Carries(Apply(s, a), t, v) <==> Carries(s, t, v)
  {
    OthersStay(s, a, t);
    if HoldsNode(s, t) {
      var n := s.prods[t].n;
      assert InFlight(s, t, n);
      match a {
        case Producing(u, p) =>
          assert HoldsNode(s, u) ==> InFlight(s, u, s.prods[u].n);
          ProducerKeepsOthers(s, u, p, n);
        case Reading(r) => ReaderKeepsFlying(s, r, t);
        case Awaiting(p) => AwaitTouchesNoNode(s, p);
        case Free(_) =>
      }
    }
  }

  lemma ProducerKeepsOthers(s: State, u: Tid, p: ProducerStep, n: Addr)
    requires ProducerEnabled(s, u, p) && n in s.heap && (HoldsNode(s, u) ==> s.prods[u].n != n)
    ensures n in ApplyProducer(s, u, p).heap && ApplyProducer(s, u, p).heap[n].val == s.heap[n].val
  {}

  lemma ReaderKeepsFlying(s: State, r: ReaderStep, t: Tid)
    requires HeapInv(s) && ReaderEnabled(s, r)
    ensures HoldsNode(s, t) ==>
      var n := s.prods[t].n; n in s.heap && n in ApplyReader(s, r).heap && ApplyReader(s, r).heap[n].val == s.heap[n].val
  {
    if HoldsNode(s, t) {
      var n := s.prods[t].n;
      assert InFlight(s, t, n);
      HeadIsQueued(s, ShapeOf(s));
      ReaderKeepsOthers(s, r, n);
    }
  }

  lemma HeadIsQueued(s: State, w: Shape)
    requires IsChain(s.heap, s.head, w.head)
    ensures s.head.Node? ==> s.head.addr in Queued(w)
  {
    assert s.head.Node? ==> w.head[0] in w.head;
  }

  lemma ReaderKeepsOthers(s: State, r: ReaderStep, n: Addr)
    requires ReaderEnabled(s, r) && n in s.heap && s.head != Node(n)
    ensures n in ApplyReader(s, r).heap && ApplyReader(s, r).heap[n].val == s.heap[n].val
  {}

  lemma OccursOne(x: Elem, v: Elem)
    ensures Occurs([x], v) == One(x == v) && Occurs<Elem>([], v) == 0
  {}

  /** What a producer's own step does to the number of carriers of v. */
  lemma OwnStepCarries(s: State, t: Tid, p: ProducerStep, v: Elem)
    requires HeapInv(s) && ProducerEnabled(s, t, p)
    ensures var a := Producing(t, p);
      One(Carries(ApplyProducer(s, t, p), t, v)) + Occurs(Pushes(s, a), v) + Occurs(Refuses(s, a), v)
        == One(Carries(s, t, v)) + Occurs(Brings(a), v)
  {
    var a := Producing(t, p);
    OccursOne(0, v);
    if p.Begin? {
      OccursOne(p.v, v);
      assert Pushes(s, a) == Refuses(s, a) == [];
    } else if HoldsNode(s, t) {
      var n := s.prods[t].n;
      assert InFlight(s, t, n);
      OccursOne(s.heap[n].val, v);
      OwnValue(s, t, p);
    }
  }

  /** A producer keeps its node and its value until it publishes or refuses that value. */
  lemma OwnValue(s: State, t: Tid, p: ProducerStep)
    requires ProducerEnabled(s, t, p) && !p.Begin? && HoldsNode(s, t) && s.prods[t].n in s.heap
    ensures var a, s', x := Producing(t, p), ApplyProducer(s, t, p), s.heap[s.prods[t].n].val;
      if HoldsNode(s', t) then ValOf(s'.heap, Node(s'.prods[t].n)) == x && Pushes(s, a) == Refuses(s, a) == []
      else Pushes(s, a) + Refuses(s, a) == [x] && (Pushes(s, a) == [] || Refuses(s, a) == [])
  {}

  lemma OtherCarriers(s: State, a: Action, v: Elem, t: Tid)
    requires HeapInv(s) && Enabled(s, a) && (a.Producing? ==> a.t == t)
    ensures Carriers(Apply(s, a), v) - {t} == Carriers(s, v) - {t}
    ensures !a.Producing? ==> Carriers(Apply(s, a), v) == Carriers(s, v)
  {
    forall u | !(a.Producing? && a.t == u)
      ensures u in Carriers(Apply(s, a), v) <==> u in Carriers(s, v)
    {
      OthersKeepValue(s, a, u, v);
    }
  }

  lemma OnlyProducersBring(s: State, a: Action, v: Elem)
    requires Enabled(s, a) && !a.Producing?
    ensures Occurs(Pushes(s, a), v) == Occurs(Refuses(s, a), v) == Occurs(Brings(a), v) == 0
  {
    OccursOne(0, v);
  }

  lemma CarriersStep(s: State, a: Action, v: Elem)
    requires HeapInv(s) && Enabled(s, a)
    ensures |Carriers(Apply(s, a), v)| + Occurs(Pushes(s, a), v) + Occurs(Refuses(s, a), v)
         == |Carriers(s, v)| + Occurs(Brings(a), v)
  {
    if a.Producing? {
      OtherCarriers(s, a, v, a.t);
      OwnStepCarries(s, a.t, a.p, v);
      SizeWithout(Carriers(s, v), a.t);
      SizeWithout(Carriers(Apply(s, a), v), a.t);
    } else {
      OtherCarriers(s, a, v, 0);
      OnlyProducersBring(s, a, v);
    }
  }

  lemma SizeWithout(ts: set<Tid>, t: Tid)
    ensures |ts| == |ts - {t}| + One(t in ts)
  {
    if t in ts {
      assert ts == (ts - {t}) + {t};
    } else {
      assert ts - {t} == ts;
    }
  }

  /** No element is lost or doubled, at any moment of any run: as often as v was handed to enqueue it was published,
      refused by a closed queue, or is carried by a producer. */
  lemma {:induction false} ElementsAccountedFor(run: seq<State>, acts: seq<Action>, v: Elem, n: nat)
    requires IsRun(run, acts) && n <= |acts|
    ensures TimesBrought(acts, v, n)
         == TimesPublished(run, acts, v, n) + TimesRefused(run, acts, v, n) + |Carriers(run[n], v)|
  {
    if n == 0 {
      assert Carriers(run[0], v) == {};
    } else {
      ElementsAccountedFor(run, acts, v, n - 1);
      CarriersNext(run, acts, v, n);
    }
  }

  lemma CarriersNext(run: seq<State>, acts: seq<Action>, v: Elem, n: nat)
    requires IsRun(run, acts) && 0 < n <= |acts|
    ensures Enabled(run[n - 1], acts[n - 1])
    ensures |Carriers(run[n], v)| + Occurs(Pushes(run[n - 1], acts[n - 1]), v) + Occurs(Refuses(run[n - 1], acts[n - 1]), v)
         == |Carriers(run[n - 1], v)| + Occurs(Brings(acts[n - 1]), v)
  {
    HeapInvAlways(run, acts, n - 1);
    assert Follows(run, acts, n - 1);
    CarriersStep(run[n - 1], acts[n - 1], v);
  }

  // ---------- what try_pop answers ----------

  /** The reader is inside a try_pop that found head_ null. */
  predicate Popping(r: Reader) {
    r.RTaking? || (r.RFetching? && r.goal.ToPop?) || (r.RReversing? && r.goal.ToPop?)
  }

  ghost predicate PoppingAt(run: seq<State>, m: nat) { m < |run| && Popping(run[m].reader) }

  /** From the load of stack_ in step i until after step k. */
  ghost predicate PopRuns(run: seq<State>, acts: seq<Action>, i: nat, k: nat) {
    && IsRun(run, acts) && i < k <= |acts| && acts[i] == Reading(FetchLoad)
    && forall m | i < m < k :: PoppingAt(run, m)
  }

  /** Whatever a step pops is the front of the queue. */
  lemma PopTakesFront(s: State, a: Action)
    requires HeapInv(s) && Enabled(s, a) && Pops(s, a) != []
    ensures Contents(s) == Pops(s, a) + Contents(Apply(s, a))
  {
    StepRefinesFifo(s, a);
    assert Disposes(s, a) == [] && Pushes(s, a) == [];
    Simplify(Pops(s, a), Contents(Apply(s, a)), Contents(s));
  }

  lemma Simplify<X>(p: seq<X>, c': seq<X>, c: seq<X>)
    requires p + [] + c' == c + []
    ensures c == p + c'
  {
    assert p + [] == p && c + [] == c;
  }

  /** Neither list holds a node. */
  predicate NothingThere(s: State) { !s.stack.Node? && !s.head.Node? && !RestPtr(s.reader).Node? }

  /** A fetch that has come to its "nothing" answer has looked at an empty queue. */
  lemma {:induction false} SawEmpty(run: seq<State>, acts: seq<Action>, i: nat, k: nat) returns (m: nat)
    requires PopRuns(run, acts, i, k) && run[k].reader == RFetching(EmptyDummy, ToPop)
    ensures i <= m < k && NothingThere(run[m])
    decreases k
  {
    if i < k - 1 && run[k - 1].reader == RFetching(EmptyDummy, ToPop) {
      m := SawEmpty(run, acts, i, k - 1);
    } else {
      m := k - 1;
      assert Follows(run, acts, i);
      SawEmptyNow(run, acts, k);
    }
  }

  lemma SawEmptyNow(run: seq<State>, acts: seq<Action>, k: nat)
    requires IsRun(run, acts) && 0 < k <= |acts|
    requires run[k].reader == RFetching(EmptyDummy, ToPop) && run[k - 1].reader != RFetching(EmptyDummy, ToPop)
    ensures NothingThere(run[k - 1])
  {
    assert Follows(run, acts, k - 1);
    ReaderSoundAlways(run, acts, k - 1);
    LooksAtEmpty(run[k - 1], acts[k - 1]);
  }

  lemma ReaderSoundAlways(run: seq<State>, acts: seq<Action>, n: nat)
    requires IsRun(run, acts) && n <= |acts|
    ensures ReaderSound(run[n])
  {
    HeapInvAlways(run, acts, n);
  }

  lemma LooksAtEmpty(s: State, a: Action)
    requires ReaderSound(s) && Enabled(s, a) && Apply(s, a).reader == RFetching(EmptyDummy, ToPop)
    requires s.reader != RFetching(EmptyDummy, ToPop)
    ensures NothingThere(s)
  {
    if a.Awaiting? {
      AwaitLeavesFetchAlone(s, a.w);
    }
  }

  lemma AwaitLeavesFetchAlone(s: State, w: AwaitStep)
    requires AwaitEnabled(s, w)
    ensures !ApplyAwait(s, w).reader.RFetching?
  {}

  /** The step that ends a try_pop without an element: only that of a fetch which has come to its "nothing" answer. */
  lemma EmptyHanded(s: State, a: Action)
    requires ReaderSound(s) && Enabled(s, a) && Popping(s.reader) && Apply(s, a).reader == RIdle && Pops(s, a) == []
    ensures s.reader == RFetching(EmptyDummy, ToPop)
  {
    match a {
      case Producing(t, p) =>
      case Reading(r) =>
      case Awaiting(w) =>
      case Free(_) =>
    }
  }

  /** What try_pop answers, over every run and every interleaving, from its load of stack_ to its return in step k: either
      the element at the front of the queue at that step, or nothing - and then the queue was empty at some moment m
      in between. */
  lemma TryPopAnswers(run: seq<State>, acts: seq<Action>, i: nat, k: nat) returns (m: nat)
    requires PopRuns(run, acts, i, k) && i + 1 < k && run[k].reader == RIdle
    ensures var popped := Pops(run[k - 1], acts[k - 1]);
      if popped == [] then i <= m < k && Contents(run[m]) == [] else Contents(run[k - 1]) == popped + Contents(run[k])
  {
    assert PoppingAt(run, k - 1);
    m := i;
    PopReturns(run, acts, k);
    if Pops(run[k - 1], acts[k - 1]) == [] {
      m := SawEmpty(run, acts, i, k - 1);
      NothingQueued(run[m]);
    }
  }

  lemma PopReturns(run: seq<State>, acts: seq<Action>, k: nat)
    requires IsRun(run, acts) && 0 < k <= |acts| && Popping(run[k - 1].reader) && run[k].reader == RIdle
    ensures var popped := Pops(run[k - 1], acts[k - 1]);
      if popped == [] then run[k - 1].reader == RFetching(EmptyDummy, ToPop)
      else Contents(run[k - 1]) == popped + Contents(run[k])
  {
    assert Follows(run, acts, k - 1);
    HeapInvAlways(run, acts, k - 1);
    if Pops(run[k - 1], acts[k - 1]) == [] {
      EmptyHanded(run[k - 1], acts[k - 1]);
    } else {
      PopTakesFront(run[k - 1], acts[k - 1]);
    }
  }

  // ---------- when await answers false ----------

  /** The timeout of step i found the queue blocked and made it empty, and the await has been returning ever since. */
  ghost predicate TimedOut(run: seq<State>, acts: seq<Action>, i: nat, j: nat)
    requires i < j < |run| == |acts| + 1
  {
    && acts[i] == Awaiting(AwaitExpire) && run[i].stack == BlockedDummy && run[i + 1].stack == EmptyDummy
    && forall k | i < k <= j :: ReturningAt(run, k)
  }

  ghost predicate ReturningAt(run: seq<State>, k: nat) { k < |run| && run[k].reader.RReturning? }

  lemma ReturningStep(s: State, a: Action)
    requires Enabled(s, a) && Apply(s, a).reader.RReturning?
    ensures if s.reader.RReturning? then Apply(s, a).reader == s.reader
            else a.Awaiting? && (a.w.AwaitTest? || a.w.AwaitExpire?)
                 && (Apply(s, a).reader == RReturning(false) <==> a.w.AwaitExpire? && s.stack == BlockedDummy)
                 && (Apply(s, a).reader == RReturning(false) ==> Apply(s, a).stack == EmptyDummy)
  {
    match a {
      case Producing(t, p) =>
      case Reading(r) =>
      case Awaiting(w) =>
      case Free(_) =>
    }
  }

  /** The step from which the await has been returning. */
  lemma {:induction false} ReturningSince(run: seq<State>, acts: seq<Action>, j: nat) returns (i: nat)
    requires IsRun(run, acts) && j <= |acts| && run[j].reader.RReturning?
    ensures i < j && !run[i].reader.RReturning? && forall k | i < k <= j :: ReturningAt(run, k)
    ensures run[j].reader == RReturning(false) <==> acts[i] == Awaiting(AwaitExpire) && run[i].stack == BlockedDummy
    ensures run[j].reader == RReturning(false) ==> run[i + 1].stack == EmptyDummy
    decreases j
  {
    assert j > 0;
    assert Follows(run, acts, j - 1);
    ReturningStep(run[j - 1], acts[j - 1]);
    if run[j - 1].reader.RReturning? {
      i := ReturningSince(run, acts, j - 1);
    } else {
      i := j - 1;
    }
  }

  /** Over every run: an await answers false if and only if its own timeout has turned blocked back into empty. */
  lemma FalseAnswerIff(run: seq<State>, acts: seq<Action>, j: nat)
    requires IsRun(run, acts) && j < |acts| && acts[j] == Awaiting(AwaitReturn)
    ensures Enabled(run[j], acts[j])
    ensures AwaitReturns(run[j], acts[j]) == Some(false) <==> exists i | 0 <= i < j :: TimedOut(run, acts, i, j)
  {
    assert Follows(run, acts, j);
    var i := ReturningSince(run, acts, j);
    if run[j].reader == RReturning(false) {
      assert TimedOut(run, acts, i, j);
    }
    if i' :| 0 <= i' < j && TimedOut(run, acts, i', j) {
      assert Follows(run, acts, i');
      assert run[i'].reader.RExpired?;
      assert i' > i ==> ReturningAt(run, i');
      assert i > i' ==> ReturningAt(run, i);
    }
  }
}
