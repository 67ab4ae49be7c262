/**
 What the queue's operations achieve once the others pause: an enqueue publishes or refuses its element within four
 steps, try_pop answers with the front, close empties and closes, and an awaiting reader returns with data.  These
 hold from every state the interleavings can lead to, in the middle of any operation.
 */
module QueueProgress {
  import opened Common
  import opened QueueMachine
  import opened QueueFifo
  import opened QueueRefinement
  import opened QueueWake
  import opened QueueAnswers

  lemma TakeOne(s: State, a: Action, rest: seq<Action>)
    requires Enabled(s, a) && CanTake(Apply(s, a), rest)
    ensures CanTake(s, [a] + rest) && After(s, [a] + rest) == After(Apply(s, a), rest)
  {
    assert ([a] + rest)[1..] == rest;
  }

  // ---------- a producer alone ----------

  function NextOfProducer(p: Producer): ProducerStep
    requires p.HasNode()
  {
    if p.PLoading? then Load else if p.PLoaded? then Link else Cas
  }

  /** Steps left to a producer nobody interferes with. */
  function EnqueueSteps(s: State, t: Tid): nat
    requires HoldsNode(s, t)
  {
    var known := if s.stack == Null then 1 else 2;
    match s.prods[t]
    case PLoading(_, _) => 1 + known
    case PLoaded(_, e, _) => if e == s.stack then known else known + 2
    case PLinked(_, e, _) => if e == s.stack then 1 else 1 + known
  }

  lemma OneEnqueueStep(s: State, t: Tid)
    requires HoldsNode(s, t) && (s.prods[t].PLinked? ==> s.prods[t].e != Null)
    requires s.prods[t].PLoaded? && s.prods[t].e == Null ==> s.stack == Null
    ensures Enabled(s, Producing(t, NextOfProducer(s.prods[t])))
    ensures var s' := ApplyProducer(s, t, NextOfProducer(s.prods[t]));
      && (HoldsNode(s', t) <==> EnqueueSteps(s, t) > 1)
      && (HoldsNode(s', t) ==>
            EnqueueSteps(s', t) == EnqueueSteps(s, t) - 1 && s'.prods[t].n == s.prods[t].n && s'.stack == s.stack)
  {}

  /** An enqueue that the others leave alone ends within four steps, from wherever it stands and however stale its idea
      of the stack: it appends its element, or deletes its node if the queue is closed. */
  lemma {:induction false} EnqueueAlone(s: State, t: Tid) returns (acts: seq<Action>)
    requires HeapInv(s) && ClosedSeen(s) && HoldsNode(s, t)
    ensures |acts| == EnqueueSteps(s, t) <= 4 && (forall a <- acts :: a.Producing? && a.t == t) && CanTake(s, acts)
    ensures var s' := After(s, acts);
      && !HoldsNode(s', t) && HeapInv(s')
      && (if s.stack == Null then s'.stack == Null && Contents(s') == Contents(s) && s.prods[t].n !in s'.heap
          else s'.stack == Node(s.prods[t].n) && Contents(s') == Contents(s) + [ValOf(s.heap, Node(s.prods[t].n))])
    decreases EnqueueSteps(s, t)
  {
    var n := s.prods[t].n;
    var a := Producing(t, NextOfProducer(s.prods[t]));
    assert InFlight(s, t, n);
    OneEnqueueStep(s, t);
    var s1 := Apply(s, a);
    StepRefinesFifo(s, a);
    ClosedSeenStep(s, a);
    if HoldsNode(s1, t) {
      assert InFlight(s1, t, n);
      QuietStep(s, t, a.p);
      var rest := EnqueueAlone(s1, t);
      TakeOne(s, a, rest);
      acts := [a] + rest;
    } else {
      EnqueueEnds(s, a, t, n);
      LastStep(s, a, t, n);
      acts := [a] + [];
      TakeOne(s, a, []);
    }
  }

  /** A step after which the producer still holds its node publishes nothing and keeps its value. */
  lemma QuietStep(s: State, t: Tid, p: ProducerStep)
    requires HeapInv(s) && ProducerEnabled(s, t, p) && HoldsNode(s, t) && HoldsNode(ApplyProducer(s, t, p), t)
    ensures Contents(ApplyProducer(s, t, p)) == Contents(s)
    ensures var n := s.prods[t].n;
      ApplyProducer(s, t, p).prods[t].n == n && ValOf(ApplyProducer(s, t, p).heap, Node(n)) == ValOf(s.heap, Node(n))
  {
    assert InFlight(s, t, s.prods[t].n);
    OwnValue(s, t, p);
    QuietContents(s, Producing(t, p));
  }

  lemma QuietContents(s: State, a: Action)
    requires HeapInv(s) && Enabled(s, a) && a.Producing? && Pushes(s, a) == []
    ensures Contents(Apply(s, a)) == Contents(s)
  {
    StepRefinesFifo(s, a);
    Same(Contents(s), Contents(Apply(s, a)));
  }

  lemma Same<X>(c: seq<X>, c': seq<X>)
    ensures [] + [] + c' == c + [] ==> c' == c
  {
    assert [] + [] + c' == c' && c + [] == c;
  }

  lemma LastStep(s: State, a: Action, t: Tid, n: Addr)
    requires HeapInv(s) && Enabled(s, a) && a.Producing? && a.t == t && InFlight(s, t, n) && n in s.heap
    requires
      || (Pushes(s, a) == [s.heap[n].val] && s.stack != Null && EnqueueCas(s, a))
      || (EnqueueReturns(s, a) == Some(QueueClosed) && Pushes(s, a) == [] && s.stack == Null && Apply(s, a).heap == s.heap - {n})
    ensures var s' := Apply(s, a);
      if s.stack == Null then s'.stack == Null && Contents(s') == Contents(s) && n !in s'.heap
      else s'.stack == Node(n) && Contents(s') == Contents(s) + [s.heap[n].val]
  {
    StepRefinesFifo(s, a);
    Same(Contents(s), Contents(Apply(s, a)));
    Appended(Contents(s), Contents(Apply(s, a)), s.heap[n].val);
  }

  lemma Appended<X>(c: seq<X>, c': seq<X>, x: X)
    ensures [] + [] + c' == c + [x] ==> c' == c + [x]
  {
    assert [] + [] + c' == c';
  }

  // ---------- the reader alone ----------

  /** The reader is inside try_pop or close. */
  predicate Inside(r: Reader) { Popping(r) || InClose(r) }

  function NextOfReader(r: Reader): ReaderStep
    requires Inside(r)
  {
    match r
    case RTaking => TakeHead
    case RReversing(_, _) => ReverseStep
    case RFetching(_, _) => FetchCas(false)
    case RClearing(_) => ClearStep
    case RChecking => CheckBlocked
    case RCloseLoading => CloseLoad
  }

  /** Steps left while the grabbed nodes are moved, and then taken from or cleared. */
  function MoveSteps(rest: nat, head: nat, g: Goal): nat { rest + 1 + if g == ToPop then 1 else rest + head + 1 }

  function GrabSteps(s: State, w: Shape, g: Goal): nat {
    if s.stack.Node? then 1 + MoveSteps(|w.stack|, 0, g) else 1
  }

  function CheckSteps(s: State, w: Shape): nat {
    if s.stack == BlockedDummy then 1 else 2 + GrabSteps(s, w, ToClose)
  }

  /** Steps left to a reader nobody interferes with. */
  function ReaderSteps(s: State, w: Shape): nat {
    match s.reader
    case RTaking => 1
    case RReversing(_, g) => MoveSteps(|w.rest|, |w.head|, g)
    case RFetching(e, g) =>
      if e == EndPtr(g) then 1 else if e == s.stack then GrabSteps(s, w, g) else 1 + GrabSteps(s, w, g)
    case RClearing(last) => |w.head| + 1 + if last then 0 else CheckSteps(s, w)
    case RChecking => CheckSteps(s, w)
    case RCloseLoading => 1 + GrabSteps(s, w, ToClose)
    case _ => 0
  }

  function NextShape(s: State, w: Shape): Shape
    requires Inside(s.reader)
  {
    var r := s.reader;
    if r.RFetching? then
      if r.e != EndPtr(r.goal) && r.e == s.stack && r.e.Node? then w.(stack := [], rest := w.stack) else w
    else if r.RReversing? then
      if r.e.Node? && w.rest != [] then Reversed1(w) else w
    else
      if (r.RTaking? || r.RClearing?) && s.head.Node? && w.head != [] then Unlinked1(w) else w
  }

  lemma NextShaped(s: State, w: Shape)
    requires Shaped(s, w) && Inside(s.reader)
    ensures ReaderEnabled(s, NextOfReader(s.reader))
    ensures Shaped(ApplyReader(s, NextOfReader(s.reader)), NextShape(s, w))
  {
    var r := NextOfReader(s.reader);
    if (r.TakeHead? || r.ClearStep?) && s.head.Node? {
      UnlinkKeeps(s, ApplyReader(s, r), w, r.ClearStep?);
    } else if r.ReverseStep? && s.reader.e.Node? {
      ReverseKeeps(s, w);
    } else if r.FetchCas? && s.reader.e != EndPtr(s.reader.goal) && s.stack == s.reader.e && s.stack.Node? {
      GrabKeeps(s, w, false);
    } else {
      StillKeeps(s, w, r);
    }
  }

  /** The reader's own step brings the end of its operation one step nearer. */
  ghost predicate Nearer(s: State, w: Shape)
    requires Inside(s.reader) && ReaderEnabled(s, NextOfReader(s.reader))
  {
    var s' := ApplyReader(s, NextOfReader(s.reader));
    && (s'.reader == RIdle <==> ReaderSteps(s, w) == 1)
    && (s'.reader != RIdle ==>
          && Inside(s'.reader) && (Popping(s'.reader) <==> Popping(s.reader))
          && ReaderSteps(s', NextShape(s, w)) == ReaderSteps(s, w) - 1)
  }

  lemma OneReaderStep(s: State, w: Shape)
    requires Shaped(s, w) && Inside(s.reader) && ReaderEnabled(s, NextOfReader(s.reader))
    ensures ReaderSteps(s, w) >= 1 && Nearer(s, w)
  {
    assert s.head.Node? <==> w.head != [];
    assert s.stack.Node? <==> w.stack != [];
    if s.reader.RFetching? {
      FetchNearer(s, w);
    } else if s.reader.RReversing? {
      assert s.reader.e.Node? <==> w.rest != [];
      MoveNearer(s, w);
    } else {
      OtherNearer(s, w);
    }
  }

  lemma FetchNearer(s: State, w: Shape)
    requires s.reader.RFetching? && ReaderSound(s) && (s.stack.Node? <==> w.stack != []) && (s.head.Node? <==> w.head != [])
    ensures Nearer(s, w)
  {}

  lemma MoveNearer(s: State, w: Shape)
    requires s.reader.RReversing? && ReaderSound(s) && (s.reader.e.Node? <==> w.rest != [])
    ensures Nearer(s, w)
  {}

  lemma OtherNearer(s: State, w: Shape)
    requires Inside(s.reader) && !s.reader.RFetching? && !s.reader.RReversing? && ReaderSound(s)
    requires (s.stack.Node? <==> w.stack != []) && (s.head.Node? <==> w.head != [])
    ensures ReaderEnabled(s, NextOfReader(s.reader)) && Nearer(s, w)
  {}

  /** What the steps hand to the caller of try_pop, and what they dispose of. */
  ghost function Popped(s: State, acts: seq<Action>): seq<Elem>
    requires CanTake(s, acts)
    decreases |acts|
  {
    if acts == [] then [] else Pops(s, acts[0]) + Popped(Apply(s, acts[0]), acts[1..])
  }

  ghost function Disposed(s: State, acts: seq<Action>): seq<Elem>
    requires CanTake(s, acts)
    decreases |acts|
  {
    if acts == [] then [] else Disposes(s, acts[0]) + Disposed(Apply(s, acts[0]), acts[1..])
  }

  lemma TakeOneHistory(s: State, a: Action, rest: seq<Action>)
    requires Enabled(s, a) && CanTake(Apply(s, a), rest)
    ensures CanTake(s, [a] + rest) && After(s, [a] + rest) == After(Apply(s, a), rest)
    ensures Popped(s, [a] + rest) == Pops(s, a) + Popped(Apply(s, a), rest)
    ensures Disposed(s, [a] + rest) == Disposes(s, a) + Disposed(Apply(s, a), rest)
  {
    assert ([a] + rest)[1..] == rest;
  }

  predicate OnlyReads(acts: seq<Action>) { forall a <- acts :: a.Reading? }

  /** A try_pop that will answer with an element. */
  predicate WillPop(s: State) {
    s.reader.RTaking? || (s.reader.RReversing? && s.reader.goal == ToPop)
    || (s.reader.RFetching? && s.reader.goal == ToPop && s.reader.e != EmptyDummy && s.stack.Node?)
  }

  function WillPops(s: State): nat { if WillPop(s) then 1 else 0 }

  /** One step inside try_pop, in terms of what it pops and disposes of, and one inside close. */
  lemma PoppingStep(s: State)
    requires ReaderSound(s) && Popping(s.reader) && ReaderEnabled(s, NextOfReader(s.reader))
    ensures var a, s' := Reading(NextOfReader(s.reader)), ApplyReader(s, NextOfReader(s.reader));
      Disposes(s, a) == [] && |Pops(s, a)| + WillPops(s') == WillPops(s)
  {}

  lemma ClosingStep(s: State)
    requires ReaderSound(s) && InClose(s.reader) && ReaderEnabled(s, NextOfReader(s.reader))
    ensures var a, s' := Reading(NextOfReader(s.reader)), ApplyReader(s, NextOfReader(s.reader));
      Pops(s, a) == [] && (s'.stack == BlockedDummy <==> s.stack == BlockedDummy)
  {}

  lemma InsideContents(s: State)
    requires HeapInv(s) && Inside(s.reader) && ReaderEnabled(s, NextOfReader(s.reader))
    ensures var a, s' := Reading(NextOfReader(s.reader)), ApplyReader(s, NextOfReader(s.reader));
      HeapInv(s') && Contents(s) == Pops(s, a) + Disposes(s, a) + Contents(s')
  {
    var a := Reading(NextOfReader(s.reader));
    StepRefinesFifo(s, a);
    assert Contents(s) + Pushes(s, a) == Contents(s);
  }

  /** acts, by the reader alone, end its operation; what they hand out comes off the front of the queue, in order, and
      nothing else changes it.  try_pop takes one element or none, close takes them all. */
  ghost predicate Ends(s: State, acts: seq<Action>) {
    && OnlyReads(acts) && CanTake(s, acts)
    && After(s, acts).reader == RIdle && HeapInv(After(s, acts))
    && Contents(s) == Popped(s, acts) + Disposed(s, acts) + Contents(After(s, acts))
    && (Popping(s.reader) ==> EndsPop(s, acts))
    && (InClose(s.reader) ==> EndsClose(s, acts))
  }

  ghost predicate EndsPop(s: State, acts: seq<Action>)
    requires CanTake(s, acts)
  {
    Disposed(s, acts) == [] && |Popped(s, acts)| == WillPops(s)
  }

  ghost predicate EndsClose(s: State, acts: seq<Action>)
    requires CanTake(s, acts)
  {
    && Popped(s, acts) == [] && Contents(After(s, acts)) == []
    && After(s, acts).stack == if s.stack == BlockedDummy then BlockedDummy else Null
  }

  lemma EndsNow(s: State)
    requires HeapInv(s) && Inside(s.reader) && ReaderEnabled(s, NextOfReader(s.reader))
    requires ApplyReader(s, NextOfReader(s.reader)).reader == RIdle
    ensures Ends(s, [Reading(NextOfReader(s.reader))] + [])
  {
    var r := NextOfReader(s.reader);
    var a := Reading(r);
    InsideContents(s);
    TakeOneHistory(s, a, []);
    if InClose(s.reader) {
      ClosingStep(s);
      CloseEmptiesQueue(s, r);
    } else {
      PoppingStep(s);
    }
    assert Pops(s, a) + [] == Pops(s, a) && Disposes(s, a) + [] == Disposes(s, a);
  }

  /** s1 follows from s by the reader's next step a, inside one operation. */
  ghost predicate NextInside(s: State, a: Action, s1: State) {
    && HeapInv(s) && Inside(s.reader) && ReaderEnabled(s, NextOfReader(s.reader))
    && a == Reading(NextOfReader(s.reader)) && s1 == Apply(s, a)
    && Inside(s1.reader) && (Popping(s1.reader) <==> Popping(s.reader))
  }

  lemma EndsLater(s: State, a: Action, s1: State, rest: seq<Action>)
    requires NextInside(s, a, s1) && Ends(s1, rest)
    ensures Ends(s, [a] + rest)
  {
    ContentsLater(s, a, s1, rest);
    if Popping(s.reader) {
      PopsLater(s, a, s1, rest);
    } else {
      ClosesLater(s, a, s1, rest);
    }
  }

  lemma PopsLater(s: State, a: Action, s1: State, rest: seq<Action>)
    requires NextInside(s, a, s1) && Popping(s.reader) && CanTake(s1, rest) && EndsPop(s1, rest)
    ensures CanTake(s, [a] + rest) && EndsPop(s, [a] + rest)
  {
    PoppingStep(s);
    TakeOneHistory(s, a, rest);
  }

  lemma ClosesLater(s: State, a: Action, s1: State, rest: seq<Action>)
    requires NextInside(s, a, s1) && InClose(s.reader) && CanTake(s1, rest) && EndsClose(s1, rest)
    ensures CanTake(s, [a] + rest) && EndsClose(s, [a] + rest)
  {
    ClosingStep(s);
    TakeOneHistory(s, a, rest);
  }

  lemma ContentsLater(s: State, a: Action, s1: State, rest: seq<Action>)
    requires NextInside(s, a, s1) && Ends(s1, rest)
    ensures CanTake(s, [a] + rest) && After(s, [a] + rest) == After(s1, rest)
    ensures Contents(s) == Popped(s, [a] + rest) + Disposed(s, [a] + rest) + Contents(After(s, [a] + rest))
  {
    InsideContents(s);
    TakeOneHistory(s, a, rest);
    if Popping(s.reader) {
      PoppingStep(s);
    } else {
      ClosingStep(s);
    }
    OneByOne(Pops(s, a), Disposes(s, a), Popped(s1, rest), Disposed(s1, rest), Contents(After(s1, rest)));
  }

  lemma OneByOne<X>(p: seq<X>, d: seq<X>, ps: seq<X>, ds: seq<X>, c: seq<X>)
    requires d == ds == [] || p == ps == []
    ensures p + d + (ps + ds + c) == (p + ps) + (d + ds) + c
  {}

  /** try_pop and close end after a known number of steps if the others pause, from wherever they stand. */
  lemma {:induction false} ReaderAlone(s: State) returns (acts: seq<Action>)
    requires HeapInv(s) && Inside(s.reader)
    ensures |acts| == ReaderSteps(s, ShapeOf(s)) && Ends(s, acts)
    decreases ReaderSteps(s, ShapeOf(s))
  {
    var r := NextOfReader(s.reader);
    StepInside(s);
    var s1 := ApplyReader(s, r);
    if s1.reader == RIdle {
      EndsNow(s);
      acts := [Reading(r)] + [];
    } else {
      var rest := ReaderAlone(s1);
      EndsLater(s, Reading(r), s1, rest);
      acts := [Reading(r)] + rest;
    }
  }

  lemma StepInside(s: State)
    requires HeapInv(s) && Inside(s.reader)
    ensures ReaderEnabled(s, NextOfReader(s.reader))
    ensures var s1 := ApplyReader(s, NextOfReader(s.reader));
      if s1.reader == RIdle then ReaderSteps(s, ShapeOf(s)) == 1
      else HeapInv(s1) && NextInside(s, Reading(NextOfReader(s.reader)), s1)
           && ReaderSteps(s1, ShapeOf(s1)) == ReaderSteps(s, ShapeOf(s)) - 1
  {
    var w := ShapeOf(s);
    NextShaped(s, w);
    OneReaderStep(s, w);
    ShapedIsWalked(ApplyReader(s, NextOfReader(s.reader)), NextShape(s, w));
  }

  lemma IdleLengths(s: State)
    requires HeapInv(s) && !s.reader.RReversing?
    ensures |Contents(s)| == |ShapeOf(s).head| + |ShapeOf(s).stack|
    ensures s.stack.Node? <==> ShapeOf(s).stack != []
    ensures s.head.Node? <==> ShapeOf(s).head != []
  {
    assert ShapeOf(s).rest == [];
  }

  /** A step of the reader that begins an operation leaves the queue as it is. */
  lemma BeginsReading(s: State, r: ReaderStep)
    requires HeapInv(s) && ReaderEnabled(s, r) && (r.FetchLoad? || r.CloseStart?)
    ensures var s1 := ApplyReader(s, r);
      && HeapInv(s1) && Contents(s1) == Contents(s) && ShapeOf(s1) == ShapeOf(s) && s1.stack == s.stack
      && Pops(s, Reading(r)) == [] && Disposes(s, Reading(r)) == []
  {
    StillKeeps(s, ShapeOf(s), r);
    ShapedIsWalked(ApplyReader(s, r), ShapeOf(s));
  }

  lemma PopSteps(s: State)
    requires HeapInv(s) && s.reader == RFetching(s.stack, ToPop)
    ensures ReaderSteps(s, ShapeOf(s)) <= |Contents(s)| + 3 && WillPops(s) == Min(1, |Contents(s)|)
  {
    IdleLengths(s);
  }

  lemma StepsOfClose(s: State)
    requires HeapInv(s) && s.reader == RClearing(false)
    ensures ReaderSteps(s, ShapeOf(s)) <= 2 * |Contents(s)| + 6
  {
    IdleLengths(s);
  }

  /** An undisturbed try_pop, from its call: it ends after at most four steps and one for each queued element, and answers
      with the front of the queue, or with nothing exactly if the queue is empty. */
  lemma TryPopAlone(s: State) returns (acts: seq<Action>)
    requires HeapInv(s) && s.reader == RIdle && (s.head != Null || (s.stack != Null && s.stack != BlockedDummy))
    ensures |acts| <= |Contents(s)| + 4 && OnlyReads(acts) && CanTake(s, acts)
    ensures After(s, acts).reader == RIdle
    ensures Contents(s) == Popped(s, acts) + Contents(After(s, acts)) && |Popped(s, acts)| == Min(1, |Contents(s)|)
  {
    IdleLengths(s);
    if s.head.Node? {
      acts := [Reading(PopHead)] + [];
      TakeOneHistory(s, Reading(PopHead), []);
      PopTakesFront(s, Reading(PopHead));
      assert Popped(s, acts) == Pops(s, Reading(PopHead));
    } else {
      var s1 := ApplyReader(s, FetchLoad);
      BeginsReading(s, FetchLoad);
      PopSteps(s1);
      var rest := ReaderAlone(s1);
      TakeOneHistory(s, Reading(FetchLoad), rest);
      acts := [Reading(FetchLoad)] + rest;
      NothingElse(Popped(s1, rest), Contents(After(s1, rest)), Contents(s1), Disposed(s1, rest));
    }
  }

  lemma NothingElse<X>(p: seq<X>, c': seq<X>, c: seq<X>, d: seq<X>)
    requires c == p + d + c' && d == []
    ensures c == p + c' && [] + p == p
  {}

  /** An undisturbed close, from its call: it ends after a bounded number of steps, disposes of exactly what the queue held,
      in order, and leaves the queue closed, or blocked if it was blocked. */
  lemma CloseAlone(s: State) returns (acts: seq<Action>)
    requires HeapInv(s) && s.reader == RIdle && s.stack != Null
    ensures |acts| <= 2 * |Contents(s)| + 7 && OnlyReads(acts) && CanTake(s, acts)
    ensures Disposed(s, acts) == Contents(s) && Popped(s, acts) == []
    ensures var s' := After(s, acts);
      s'.reader == RIdle && Contents(s') == [] && s'.stack == if s.stack == BlockedDummy then BlockedDummy else Null
  {
    var s1 := ApplyReader(s, CloseStart);
    BeginsReading(s, CloseStart);
    StepsOfClose(s1);
    var rest := ReaderAlone(s1);
    TakeOneHistory(s, Reading(CloseStart), rest);
    acts := [Reading(CloseStart)] + rest;
    AllDisposed(Disposed(s1, rest), Contents(After(s1, rest)), Contents(s1), Popped(s1, rest));
  }

  lemma AllDisposed<X>(d: seq<X>, c': seq<X>, c: seq<X>, p: seq<X>)
    requires c == p + d + c' && p == c' == []
    ensures c == d && [] + d == d && [] + p == []
  {}

  // ---------- an await whose data has come ----------

  predicate OnlyAwaits(acts: seq<Action>) { forall a <- acts :: a.Awaiting? || a.Producing? }

  /** The reader is in the wait loop, or on its way out with the answer true. */
  predicate InAwait(r: Reader) { r.InWaitLoop() || r == RReturning(true) }

  /** acts end the await with the answer true and something to fetch. */
  ghost predicate EndsAwait(s: State, acts: seq<Action>) {
    && acts != [] && OnlyAwaits(acts) && CanTake(s, acts)
    && After(s, acts).reader == RIdle && CanFetchMore(After(s, acts))
  }

  lemma EndsAwaitLater(s: State, a: Action, rest: seq<Action>)
    requires Enabled(s, a) && (a.Awaiting? || a.Producing?) && EndsAwait(Apply(s, a), rest)
    ensures EndsAwait(s, [a] + rest)
  {
    TakeOne(s, a, rest);
  }

  /** The answer's last step. */
  lemma Return(s: State) returns (acts: seq<Action>)
    requires WakeInv(s) && s.reader == RReturning(true)
    ensures EndsAwait(s, acts) && |acts| == 1
  {
    acts := [Awaiting(AwaitReturn)] + [];
    TakeOne(s, Awaiting(AwaitReturn), []);
  }

  /** With the mutex in hand. */
  lemma TestAndReturn(s: State) returns (acts: seq<Action>)
    requires WakeInv(s) && s.stack != BlockedDummy && (s.reader.RTesting? || s.reader.RExpired?)
    ensures EndsAwait(s, acts) && |acts| == 2
  {
    var a := Awaiting(if s.reader.RTesting? then AwaitTest else AwaitExpire);
    MutexAwait(s, a.w);
    WaitAwait(s, a.w);
    AwaitTouchesNoNode(s, a.w);
    var rest := Return(Apply(s, a));
    EndsAwaitLater(s, a, rest);
    acts := [a] + rest;
  }

  /** Still to lock the mutex, which is free. */
  lemma LockAndReturn(s: State) returns (acts: seq<Action>)
    requires WakeInv(s) && s.stack != BlockedDummy && s.mutex == Unlocked && (s.reader.RLocking? || s.reader.RWaking?)
    ensures EndsAwait(s, acts) && |acts| == 3
  {
    var a := Awaiting(if s.reader.RLocking? then AwaitLock else AwaitRelock);
    MutexAwait(s, a.w);
    WaitAwait(s, a.w);
    AwaitTouchesNoNode(s, a.w);
    var rest := TestAndReturn(Apply(s, a));
    EndsAwaitLater(s, a, rest);
    acts := [a] + rest;
  }

  lemma ProducerKeepsWake(s: State, t: Tid, p: ProducerStep)
    requires WakeInv(s) && ProducerEnabled(s, t, p) && (p.Lock? || p.Notify? || p.Unlock?)
    ensures WakeInv(ApplyProducer(s, t, p)) && ApplyProducer(s, t, p).stack == s.stack
  {
    MutexProducer(s, t, p);
    WaitProducer(s, t, p);
  }

  /** Steps until a producer lets go of the mutex. */
  function MutexSteps(s: State): nat {
    if s.mutex.ByProducer? && s.mutex.t in s.prods then
      if s.prods[s.mutex.t].PNotifying? then 2 else 1
    else 0
  }

  /** Still to lock the mutex, which a producer may hold: it lets go within two steps. */
  lemma AwakeReturns(s: State) returns (acts: seq<Action>)
    requires WakeInv(s) && s.stack != BlockedDummy && (s.reader.RLocking? || s.reader.RWaking?)
    ensures EndsAwait(s, acts) && |acts| == 3 + MutexSteps(s)
    decreases MutexSteps(s)
  {
    if s.mutex == Unlocked {
      acts := LockAndReturn(s);
    } else {
      var u := s.mutex.t;
      var p := if s.prods[u].PNotifying? then Notify else Unlock;
      ProducerKeepsWake(s, u, p);
      var rest := AwakeReturns(Apply(s, Producing(u, p)));
      EndsAwaitLater(s, Producing(u, p), rest);
      acts := [Producing(u, p)] + rest;
    }
  }

  /** Steps until producer t holds the mutex. */
  function NotifySteps(s: State, t: Tid): nat {
    if t in s.prods && s.prods[t].PNotifying? then 0 else if s.mutex == Unlocked then 1 else 2
  }

  /** In cv.wait, with producer t about to notify. */
  lemma WaitingReturns(s: State, t: Tid) returns (acts: seq<Action>)
    requires WakeInv(s) && s.stack != BlockedDummy && s.reader.RWaiting? && WillNotify(s, t)
    ensures EndsAwait(s, acts) && |acts| <= 5 + NotifySteps(s, t)
    decreases NotifySteps(s, t)
  {
    var u := if s.mutex.ByProducer? then s.mutex.t else t;
    var p := if s.mutex == Unlocked then Lock else if s.prods[u].PNotifying? then Notify else Unlock;
    ProducerKeepsWake(s, u, p);
    var s1 := Apply(s, Producing(u, p));
    var rest;
    if p.Notify? {
      assert s1.mutex == ByProducer(u);
      rest := AwakeReturns(s1);
    } else {
      rest := WaitingReturns(s1, t);
    }
    EndsAwaitLater(s, Producing(u, p), rest);
    acts := [Producing(u, p)] + rest;
  }

  /** Once the queue is not blocked any more, an await ends within eight steps of its own and of the producers holding the
      mutex, from wherever it stands: it answers true, and there is something to fetch.  Asleep, it needs somebody who
      has yet to notify - which is the exact condition for being woken at all. */
  lemma AwaitEnds(s: State) returns (acts: seq<Action>)
    requires WakeInv(s) && s.stack != BlockedDummy && InAwait(s.reader)
    requires Asleep(s.reader) ==> exists t :: WillNotify(s, t)
    ensures EndsAwait(s, acts) && |acts| <= 8
  {
    match s.reader {
      case RReturning(_) => acts := Return(s);
      case RTesting(_) => acts := TestAndReturn(s);
      case RExpired => acts := TestAndReturn(s);
      case RLocking(_) => acts := AwakeReturns(s);
      case RWaking(_, _) => acts := AwakeReturns(s);
      case RWaiting(_) =>
        var t :| WillNotify(s, t);
        acts := WaitingReturns(s, t);
      case RParking(_) =>
        var t :| WillNotify(s, t);
        var a := Awaiting(AwaitPark);
        MutexAwait(s, a.w);
        WaitAwait(s, a.w);
        AwaitTouchesNoNode(s, a.w);
        assert WillNotify(Apply(s, a), t);
        var rest := WaitingReturns(Apply(s, a), t);
        EndsAwaitLater(s, a, rest);
        acts := [a] + rest;
    }
  }

  // ---------- an await whose time is up ----------

  /** What the reader does when its timeout strikes. */
  function Expiry(): seq<Action> {
    [Awaiting(AwaitWake(true))] + ([Awaiting(AwaitRelock)] + ([Awaiting(AwaitExpire)] + ([Awaiting(AwaitReturn)] + [])))
  }

  /** A timed await whose timeout strikes while the queue is still blocked makes the queue empty again and answers false,
      in four steps of its own, once the mutex is free. */
  lemma TimeoutAnswersFalse(s: State)
    requires s.reader == RWaiting(true) && s.stack == BlockedDummy && s.mutex == Unlocked
    ensures CanTake(s, Expiry()[..3]) && CanTake(s, Expiry())
    ensures var before := After(s, Expiry()[..3]);
      Enabled(before, Awaiting(AwaitReturn)) && AwaitReturns(before, Awaiting(AwaitReturn)) == Some(false)
    ensures After(s, Expiry()) == s.(stack := EmptyDummy, reader := RIdle)
  {
    var s1 := Apply(s, Awaiting(AwaitWake(true)));
    var s2 := Apply(s1, Awaiting(AwaitRelock));
    var s3 := Apply(s2, Awaiting(AwaitExpire));
    TakeOne(s3, Awaiting(AwaitReturn), []);
    TakeOne(s2, Awaiting(AwaitExpire), [Awaiting(AwaitReturn)] + []);
    TakeOne(s1, Awaiting(AwaitRelock), [Awaiting(AwaitExpire)] + ([Awaiting(AwaitReturn)] + []));
    TakeOne(s, Awaiting(AwaitWake(true)), Expiry()[1..]);
    assert Expiry()[1..] == [Awaiting(AwaitRelock)] + ([Awaiting(AwaitExpire)] + ([Awaiting(AwaitReturn)] + []));
    assert Expiry()[..3] == [Awaiting(AwaitWake(true))] + ([Awaiting(AwaitRelock)] + ([Awaiting(AwaitExpire)] + []));
    TakeOne(s2, Awaiting(AwaitExpire), []);
    TakeOne(s1, Awaiting(AwaitRelock), [Awaiting(AwaitExpire)] + []);
    TakeOne(s, Awaiting(AwaitWake(true)), [Awaiting(AwaitRelock)] + ([Awaiting(AwaitExpire)] + []));
  }

  /** A spurious wake-up, or a timed one before its time, leads back into the wait while the queue is blocked. */
  lemma SpuriousWakeUpWaitsOn(s: State)
    requires s.reader.RWaiting? && s.stack == BlockedDummy && s.mutex == Unlocked
    ensures var s1 := ApplyAwait(s, AwaitWake(false));
      var s2 := ApplyAwait(s1, AwaitRelock);
      AwaitEnabled(s2, AwaitTest) && AwaitEnabled(ApplyAwait(s2, AwaitTest), AwaitPark) &&
      ApplyAwait(ApplyAwait(s2, AwaitTest), AwaitPark) == s
  {}

  // ---------- an await with nothing to fetch ----------

  /** How an await goes to sleep. */
  function FallAsleep(timed: bool): seq<Action> {
    [Awaiting(AwaitStart(timed))] +
      ([Awaiting(AwaitBlock)] + ([Awaiting(AwaitLock)] + ([Awaiting(AwaitTest)] + ([Awaiting(AwaitPark)] + []))))
  }

  /** An undisturbed await on an empty queue blocks the queue and waits, without the mutex; if there is something to fetch
      it returns at once. */
  lemma AwaitAlone(s: State, timed: bool)
    requires s.reader == RIdle && s.mutex == Unlocked && s.stack != Null
    ensures CanFetchMore(s) ==>
      AwaitReturns(s, Awaiting(AwaitStart(timed))) == Some(true) && Apply(s, Awaiting(AwaitStart(timed))) == s
    ensures !CanFetchMore(s) && s.stack == EmptyDummy ==>
      CanTake(s, FallAsleep(timed)) && After(s, FallAsleep(timed)) == s.(stack := BlockedDummy, reader := RWaiting(timed))
  {
    if !CanFetchMore(s) && s.stack == EmptyDummy {
      var s1 := Apply(s, Awaiting(AwaitStart(timed)));
      var s2 := Apply(s1, Awaiting(AwaitBlock));
      var s3 := Apply(s2, Awaiting(AwaitLock));
      var s4 := Apply(s3, Awaiting(AwaitTest));
      TakeOne(s4, Awaiting(AwaitPark), []);
      TakeOne(s3, Awaiting(AwaitTest), [Awaiting(AwaitPark)] + []);
      TakeOne(s2, Awaiting(AwaitLock), [Awaiting(AwaitTest)] + ([Awaiting(AwaitPark)] + []));
      TakeOne(s1, Awaiting(AwaitBlock), [Awaiting(AwaitLock)] + ([Awaiting(AwaitTest)] + ([Awaiting(AwaitPark)] + [])));
      TakeOne(s, Awaiting(AwaitStart(timed)),
              [Awaiting(AwaitBlock)] + ([Awaiting(AwaitLock)] + ([Awaiting(AwaitTest)] + ([Awaiting(AwaitPark)] + []))));
    }
  }
}
