/**
 The wake-up protocol of synchronized_enqueue and synchronized_await: no lost wake-up, answers backed by
 data, every block answered at most once, and a bound on retries.
 */
module QueueWake {
  import opened QueueMachine
  import opened QueueFifo
  import opened Common
  import opened QueueRefinement

  /** A producer that has turned blocked into non-empty and has not yet notified. */
  ghost predicate WillNotify(s: State, t: Tid) {
    t in s.prods && (s.prods[t].PLocking? || s.prods[t].PNotifying?)
  }

  ghost predicate MutexInv(s: State) {
    && (s.mutex == ByReader <==> s.reader.HoldsMutex())
    && (forall t :: s.mutex == ByProducer(t) <==> t in s.prods && (s.prods[t].PNotifying? || s.prods[t].PUnlocking?))
  }

  /** In the wait loop the stack is blocked or has data. */
  ghost predicate WaitInv(s: State) {
    && (s.reader.InWaitLoop() ==> s.stack == BlockedDummy || s.stack.Node?)
    && (s.reader == RReturning(true) ==> s.stack.Node?)
  }

  ghost predicate WakeInv(s: State) { MutexInv(s) && WaitInv(s) && ProducersLinked(s) && ReaderSound(s) }

  lemma MutexProducer(s: State, t: Tid, p: ProducerStep)
    requires MutexInv(s) && ProducerEnabled(s, t, p)
    ensures MutexInv(ApplyProducer(s, t, p))
  {}

  lemma MutexReader(s: State, r: ReaderStep)
    requires MutexInv(s) && ReaderEnabled(s, r)
    ensures MutexInv(ApplyReader(s, r))
  {
    var s' := ApplyReader(s, r);
    assert s'.mutex == s.mutex && s'.prods == s.prods && !s.reader.HoldsMutex();
  }

  lemma MutexAwait(s: State, w: AwaitStep)
    requires MutexInv(s) && AwaitEnabled(s, w)
    ensures MutexInv(ApplyAwait(s, w))
  {}

  lemma WaitProducer(s: State, t: Tid, p: ProducerStep)
    requires WakeInv(s) && ProducerEnabled(s, t, p)
    ensures WaitInv(ApplyProducer(s, t, p))
  {}

  lemma WaitReader(s: State, r: ReaderStep)
    requires WakeInv(s) && ReaderEnabled(s, r)
    ensures WaitInv(ApplyReader(s, r))
  {}

  lemma WaitAwait(s: State, w: AwaitStep)
    requires WakeInv(s) && AwaitEnabled(s, w)
    ensures WaitInv(ApplyAwait(s, w))
  {}

  lemma {:induction false} WakeInvAlways(run: seq<State>, acts: seq<Action>, n: nat)
    requires IsRun(run, acts) && n <= |acts|
    ensures WakeInv(run[n])
  {
    HeapInvAlways(run, acts, n);
    if n > 0 {
      var s, a := run[n - 1], acts[n - 1];
      WakeInvAlways(run, acts, n - 1);
      assert Follows(run, acts, n - 1);
      match a {
        case Producing(t, p) => MutexProducer(s, t, p); WaitProducer(s, t, p);
        case Reading(r) => MutexReader(s, r); WaitReader(s, r);
        case Awaiting(w) => MutexAwait(s, w); WaitAwait(s, w);
        case Free(_) =>
      }
    }
  }

  // ---------- no lost wake-up ----------

  /** The step is an enqueue's CAS that turns blocked into non-empty. */
  predicate Unblocks(s: State, a: Action) { EnqueueCas(s, a) && s.stack == BlockedDummy }

  predicate Asleep(r: Reader) { r.RParking? || r.RWaiting? }

  /** While the reader sleeps on a queue that is not blocked, nobody starts or finishes being a notifier. */
  lemma NotifierStep(s: State, a: Action, t: Tid)
    requires WakeInv(s) && Enabled(s, a) && s.stack != BlockedDummy
    requires Asleep(Apply(s, a).reader)
    ensures Asleep(s.reader)
    ensures WillNotify(Apply(s, a), t) <==> WillNotify(s, t)
  {
    match a {
      case Producing(u, p) => assert p.Notify? ==> s.mutex == ByProducer(u);
      case Reading(_) =>
      case Awaiting(_) =>
      case Free(_) =>
    }
  }

  lemma {:induction false} NotifiersStay(run: seq<State>, acts: seq<Action>, i: nat, n: nat, t: Tid)
    requires IsRun(run, acts) && i <= n <= |acts|
    requires forall k | i <= k <= n :: run[k].stack != BlockedDummy
    requires Asleep(run[n].reader)
    ensures WillNotify(run[n], t) <==> WillNotify(run[i], t)
    decreases n
  {
    if i < n {
      assert run[n - 1].stack != BlockedDummy;
      assert Follows(run, acts, n - 1);
      WakeInvAlways(run, acts, n - 1);
      NotifierStep(run[n - 1], acts[n - 1], t);
      NotifiersStay(run, acts, i, n - 1, t);
    }
  }

  lemma WaitLoopStep(s: State, a: Action)
    requires Enabled(s, a) && Apply(s, a).reader.InWaitLoop() && Apply(s, a).stack != BlockedDummy
    ensures if s.stack == BlockedDummy then Unblocks(s, a) else s.reader.InWaitLoop()
  {
    match a {
      case Producing(t, p) => assert s.stack == BlockedDummy ==> p.Cas? && s.prods[t].e == s.stack;
      case Reading(r) => WaitLoopReader(s, r);
      case Awaiting(w) => WaitLoopAwait(s, w);
      case Free(_) =>
    }
  }

  lemma WaitLoopReader(s: State, r: ReaderStep)
    requires ReaderEnabled(s, r)
    ensures !ApplyReader(s, r).reader.InWaitLoop()
  {}

  lemma WaitLoopAwait(s: State, w: AwaitStep)
    requires AwaitEnabled(s, w) && ApplyAwait(s, w).reader.InWaitLoop() && ApplyAwait(s, w).stack != BlockedDummy
    ensures s.stack != BlockedDummy && s.reader.InWaitLoop()
  {}

  /** The step that unblocked the queue under a reader in the wait loop. */
  lemma {:induction false} LastUnblocking(run: seq<State>, acts: seq<Action>, n: nat) returns (i: nat)
    requires IsRun(run, acts) && n <= |acts|
    requires run[n].reader.InWaitLoop() && run[n].stack != BlockedDummy
    ensures i < n && Unblocks(run[i], acts[i]) && forall k | i < k <= n :: run[k].stack != BlockedDummy
    decreases n
  {
    assert n > 0;
    assert Follows(run, acts, n - 1);
    WaitLoopStep(run[n - 1], acts[n - 1]);
    if run[n - 1].stack == BlockedDummy {
      i := n - 1;
    } else {
      i := LastUnblocking(run, acts, n - 1);
    }
  }

  /** No wake-up is lost unless a plain enqueue loses it.  Over every run, with any mixture of producers: whenever the
      reader sits in cv.wait and the queue is not blocked any more, one CAS i has unblocked it; the producers that
      have yet to notify are that CAS's own, if it is a synchronized_enqueue, and those that were about to notify
      already.  So somebody will notify if and only if one of these existed at that CAS. */
  lemma NoLostWakeUp(run: seq<State>, acts: seq<Action>, n: nat) returns (i: nat)
    requires IsRun(run, acts) && n <= |acts|
    requires run[n].reader.RWaiting? && run[n].stack != BlockedDummy
    ensures i < n && Unblocks(run[i], acts[i]) && forall k | i < k <= n :: run[k].stack != BlockedDummy
    ensures forall t :: WillNotify(run[n], t) <==> WillNotify(run[i], t) || (t == acts[i].t && run[i].prods[t].sync)
    ensures (exists t :: WillNotify(run[n], t)) <==> run[i].prods[acts[i].t].sync || exists t :: WillNotify(run[i], t)
  {
    i := LastUnblocking(run, acts, n);
    var u := acts[i].t;
    forall t
      ensures WillNotify(run[n], t) <==> WillNotify(run[i], t) || (t == u && run[i].prods[u].sync)
    {
      assert Follows(run, acts, i);
      NotifiersStay(run, acts, i + 1, n, t);
    }
    assert WillNotify(run[n], u) <==> WillNotify(run[i], u) || run[i].prods[u].sync;
  }

  /** All producers use synchronized_enqueue, or none does. */
  ghost predicate Uniform(acts: seq<Action>, sync: bool) { forall a <- acts :: BeginsWith(a, sync) }

  ghost predicate UniformState(s: State, sync: bool) {
    forall t <- s.prods :: if s.prods[t].HasNode() then s.prods[t].sync == sync else sync
  }

  lemma {:induction false} UniformAlways(run: seq<State>, acts: seq<Action>, n: nat, sync: bool)
    requires IsRun(run, acts) && n <= |acts| && Uniform(acts, sync)
    ensures UniformState(run[n], sync)
  {
    if n > 0 {
      UniformAlways(run, acts, n - 1, sync);
      assert Follows(run, acts, n - 1);
      UniformStep(run[n - 1], acts[n - 1], sync);
    }
  }

  lemma UniformStep(s: State, a: Action, sync: bool)
    requires UniformState(s, sync) && Enabled(s, a) && BeginsWith(a, sync)
    ensures UniformState(Apply(s, a), sync)
  {
    match a {
      case Producing(t, p) =>
      case Reading(r) => assert Apply(s, a).prods == s.prods;
      case Awaiting(w) => assert Apply(s, a).prods == s.prods;
      case Free(_) =>
    }
  }

  /** With one kind of producer: somebody will notify the waiting reader if and only if that kind is
      synchronized_enqueue. */
  lemma WakeUpIsKeptIffSynchronized(run: seq<State>, acts: seq<Action>, n: nat, sync: bool)
    requires IsRun(run, acts) && n <= |acts| && Uniform(acts, sync)
    requires run[n].reader.RWaiting? && run[n].stack != BlockedDummy
    ensures (exists t :: WillNotify(run[n], t)) <==> sync
  {
    var i := NoLostWakeUp(run, acts, n);
    UniformAlways(run, acts, i, sync);
    UniformAlways(run, acts, n, sync);
  }

  /** All of acts can be taken one after the other from s. */
  ghost predicate CanTake(s: State, acts: seq<Action>)
    decreases |acts|
  {
    acts == [] || (Enabled(s, acts[0]) && CanTake(Apply(s, acts[0]), acts[1..]))
  }

  ghost function After(s: State, acts: seq<Action>): State
    requires CanTake(s, acts)
    decreases |acts|
  {
    if acts == [] then s else After(Apply(s, acts[0]), acts[1..])
  }

  predicate OnlyProducers(acts: seq<Action>) { forall a <- acts :: a.Producing? }

  /** A reader somebody will notify is never stuck: producers alone can wake it, in at most three steps. */
  lemma WaitingReaderCanBeWoken(s: State, t: Tid) returns (acts: seq<Action>)
    requires WakeInv(s) && s.reader.RWaiting? && WillNotify(s, t)
    ensures |acts| <= 3 && OnlyProducers(acts) && CanTake(s, acts)
    ensures After(s, acts).reader.RWaking?
  {
    if s.prods[t].PNotifying? {
      acts := [Producing(t, Notify)];
    } else if s.mutex == Unlocked {
      acts := [Producing(t, Lock), Producing(t, Notify)];
      WakeAfterLock(s, t);
    } else {
      assert s.mutex.ByProducer?;
      var u := s.mutex.t;
      if s.prods[u].PNotifying? {
        acts := [Producing(u, Notify)];
      } else {
        acts := [Producing(u, Unlock), Producing(t, Lock), Producing(t, Notify)];
        var s1 := Apply(s, acts[0]);
        WakeAfterLock(s1, t);
        assert acts[1..] == [Producing(t, Lock), Producing(t, Notify)];
      }
    }
  }

  ghost predicate LeftAsleep(s: State) {
    s.reader.RWaiting? && s.stack != BlockedDummy && forall t :: !WillNotify(s, t)
  }

  lemma SleepStep(s: State, t: Tid, p: ProducerStep)
    requires LeftAsleep(s) && ProducerEnabled(s, t, p)
    ensures LeftAsleep(ApplyProducer(s, t, p)) && ApplyProducer(s, t, p).reader == s.reader
  {
    assert !WillNotify(s, t);
    assert forall u | u != t && WillNotify(ApplyProducer(s, t, p), u) :: WillNotify(s, u);
  }

  /** And one nobody will notify sleeps on, whatever producers do. */
  lemma {:induction false} SleepsOn(s: State, acts: seq<Action>)
    requires LeftAsleep(s) && OnlyProducers(acts) && CanTake(s, acts)
    ensures After(s, acts).reader == s.reader
    decreases |acts|
  {
    if acts != [] {
      var s' := Apply(s, acts[0]);
      assert acts[0].Producing?;
      SleepStep(s, acts[0].t, acts[0].p);
      assert forall a <- acts[1..] :: a in acts;
      SleepsOn(s', acts[1..]);
    }
  }

  /** Producers can wake a reader waiting on an unblocked queue if and only if somebody is about to notify. */
  lemma ProducersCanWakeIff(s: State)
    requires WakeInv(s) && s.reader.RWaiting? && s.stack != BlockedDummy
    ensures (exists acts :: OnlyProducers(acts) && CanTake(s, acts) && After(s, acts).reader.RWaking?)
       <==> exists t :: WillNotify(s, t)
  {
    if t :| WillNotify(s, t) {
      var acts := WaitingReaderCanBeWoken(s, t);
    } else {
      forall acts | OnlyProducers(acts) && CanTake(s, acts)
        ensures !After(s, acts).reader.RWaking?
      {
        SleepsOn(s, acts);
      }
    }
  }

  lemma WakeAfterLock(s: State, t: Tid)
    requires s.mutex == Unlocked && t in s.prods && s.prods[t].PLocking? && s.reader.RWaiting?
    ensures CanTake(s, [Producing(t, Lock), Producing(t, Notify)])
    ensures After(s, [Producing(t, Lock), Producing(t, Notify)]).reader.RWaking?
  {
    var acts := [Producing(t, Lock), Producing(t, Notify)];
    var s1 := Apply(s, acts[0]);
    assert acts[1..] == [Producing(t, Notify)];
    assert acts[1..][1..] == [];
    assert CanTake(s1, acts[1..]);
    assert After(s1, acts[1..]) == After(Apply(s1, acts[1]), []);
  }

  // ---------- what await's answer means ----------

  /** synchronized_await returns true exactly with data to fetch, except when its own try_block found the
      queue already blocked. */
  lemma AwaitReturnsWithData(s: State, w: AwaitStep)
    requires WakeInv(s) && AwaitEnabled(s, w) && AwaitReturns(s, Awaiting(w)) == Some(true)
    ensures CanFetchMore(ApplyAwait(s, w)) <==> !(w.AwaitBlock? && s.stack == BlockedDummy)
  {}

  /** That exception needs a queue that was blocked when await was called: nobody blocks it in between. */
  lemma {:induction false} BlockedBeforeAwait(run: seq<State>, acts: seq<Action>, i: nat, j: nat)
    requires IsRun(run, acts) && i < j <= |acts| && acts[i].Awaiting? && acts[i].w.AwaitStart?
    requires forall k | i < k <= j :: run[k].reader.RBlocking?
    requires run[j].stack == BlockedDummy
    ensures run[i].stack == BlockedDummy
    decreases j
  {
    var s, a := run[j - 1], acts[j - 1];
    assert Follows(run, acts, j - 1);
    if j > i + 1 {
      assert run[j].reader.RBlocking?;
      assert s.reader.RBlocking?;
      BlockingUntouched(s, a);
      BlockedBeforeAwait(run, acts, i, j - 1);
    }
  }

  lemma BlockingUntouched(s: State, a: Action)
    requires Enabled(s, a) && s.reader.RBlocking? && Apply(s, a).reader.RBlocking? && Apply(s, a).stack == BlockedDummy
    ensures s.stack == BlockedDummy
  {}

  /** The timed form answers false only after turning the blocked queue back into an empty one itself. */
  lemma TimeoutUnblocks(s: State, a: Action)
    requires Enabled(s, a) && Apply(s, a).reader == RReturning(false) && s.reader != RReturning(false)
    ensures s.stack == BlockedDummy && Apply(s, a) == s.(stack := EmptyDummy, reader := RReturning(false))
  {
    match a {
      case Producing(_, _) =>
      case Reading(r) =>
      case Awaiting(w) =>
      case Free(_) =>
    }
  }

  // ---------- each block is answered at most once ----------

  datatype Event = Block | Unblock | AnswerByEnqueue

  predicate Happens(e: Event, s: State, a: Action)
    requires Enabled(s, a)
  {
    match e
    case Block => (a == Reading(TryBlock) || a == Awaiting(AwaitBlock)) && s.stack == EmptyDummy
    case Unblock => (a == Reading(TryUnblock) || a == Awaiting(AwaitExpire)) && s.stack == BlockedDummy
    case AnswerByEnqueue => EnqueueReturns(s, a) == Some(UnblockedReader)
  }

  ghost function Count(e: Event, run: seq<State>, acts: seq<Action>, n: nat): nat
    requires IsRun(run, acts) && n <= |acts|
  {
    if n == 0 then 0
    else
      assert Follows(run, acts, n - 1);
      Count(e, run, acts, n - 1) + if Happens(e, run[n - 1], acts[n - 1]) then 1 else 0
  }

  function Tokens(s: State): nat { if s.stack == BlockedDummy then 1 else 0 }

  function One(b: bool): nat { if b then 1 else 0 }

  lemma TokenStep(s: State, a: Action)
    requires ReaderSound(s) && Enabled(s, a)
    ensures Tokens(s) + One(Happens(Block, s, a))
         == Tokens(Apply(s, a)) + One(Happens(Unblock, s, a)) + One(Happens(AnswerByEnqueue, s, a))
  {
    match a {
      case Producing(t, p) => assert a.t == t;
      case Reading(r) => assert r.FetchCas? ==> s.stack != BlockedDummy;
      case Awaiting(w) =>
      case Free(_) =>
    }
  }

  /** Successful blocks = enqueues that answered unblocked_reader + successful unblocks + (1 if blocked now). */
  lemma {:induction false} EachBlockAnsweredOnce(run: seq<State>, acts: seq<Action>, n: nat)
    requires IsRun(run, acts) && n <= |acts|
    ensures Count(Block, run, acts, n)
         == Count(AnswerByEnqueue, run, acts, n) + Count(Unblock, run, acts, n) + Tokens(run[n])
  {
    if n > 0 {
      EachBlockAnsweredOnce(run, acts, n - 1);
      HeapInvAlways(run, acts, n - 1);
      assert Follows(run, acts, n - 1);
      TokenStep(run[n - 1], acts[n - 1]);
    }
  }

  // ---------- lock-freedom ----------

  predicate FailedCas(s: State, a: Action, t: Tid) { a == Producing(t, Cas) && Enabled(s, a) && !EnqueueCas(s, a) }

  /** Failed CAS attempts of thread t among steps i..j. */
  function Retries(run: seq<State>, acts: seq<Action>, t: Tid, i: nat, j: nat): nat
    requires i <= j <= |acts| && |run| == |acts| + 1
    decreases j
  {
    if i == j then 0
    else Retries(run, acts, t, i, j - 1) + One(FailedCas(run[j - 1], acts[j - 1], t))
  }

  /** Steps among i..j that changed stack_. */
  function Changes(run: seq<State>, acts: seq<Action>, i: nat, j: nat): nat
    requires i <= j <= |acts| && |run| == |acts| + 1
    decreases j
  {
    if i == j then 0
    else Changes(run, acts, i, j - 1) + One(run[j].stack != run[j - 1].stack)
  }

  ghost predicate InLoop(s: State, t: Tid) { t in s.prods && (s.prods[t].PLoaded? || s.prods[t].PLinked?) }

  /** While one enqueue is in its loop, it has failed at most as often as others changed stack_ since its load;
      a change it has not noticed yet is still to its credit. */
  lemma {:induction false} RetriesBoundedByChanges(run: seq<State>, acts: seq<Action>, t: Tid, i: nat, j: nat)
    requires IsRun(run, acts) && i < j <= |acts| && acts[i] == Producing(t, Load)
    requires forall k | i < k <= j :: InLoop(run[k], t)
    ensures InLoop(run[j], t)
    ensures Retries(run, acts, t, i + 1, j) + One(run[j].prods[t].e != run[j].stack) <= Changes(run, acts, i + 1, j)
    decreases j
  {
    var s, a := run[j - 1], acts[j - 1];
    assert Follows(run, acts, j - 1);
    assert InLoop(run[j], t);
    if j > i + 1 {
      RetriesBoundedByChanges(run, acts, t, i, j - 1);
      assert InLoop(s, t);
      LoopStep(s, a, t);
    }
  }

  lemma LoopStep(s: State, a: Action, t: Tid)
    requires Enabled(s, a) && InLoop(s, t) && InLoop(Apply(s, a), t)
    ensures var s' := Apply(s, a);
      One(FailedCas(s, a, t)) + One(s'.prods[t].e != s'.stack)
        <= One(s.prods[t].e != s.stack) + One(s'.stack != s.stack)
  {
    match a {
      case Producing(u, p) =>
        if u == t { assert p.Link? || p.Cas?; } else { assert Apply(s, a).prods[t] == s.prods[t]; }
      case Reading(r) => assert Apply(s, a).prods == s.prods;
      case Awaiting(w) => assert Apply(s, a).prods == s.prods;
      case Free(_) =>
    }
  }
}
