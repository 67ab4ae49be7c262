/**
 The lock-free mailbox queue of header/actors-framework/detail/single_reader_queue.hpp as a
 machine of interleaved atomic steps.

 Any number of producers run `enqueue` (or `synchronized_enqueue`) while one reader runs `try_pop`,
 `close`, `try_block`, `try_unblock` and both forms of `synchronized_await`.  Every load of
 `stack_`, every compare-and-swap on it, every write of a node's `next` field, every mutex
 operation and every operation on the condition variable is one step.  Nodes live in a heap keyed
 by address; a freed address may be handed out again.
 */
module QueueMachine {
  import opened Common

  type Addr = nat
  type Tid = nat
  type Elem = int

  /** The values a `pointer` takes: null, one of the two dummies, or a real node.
      As the value of `stack_`, null means closed. */
  datatype Ptr = Null | EmptyDummy | BlockedDummy | Node(addr: Addr) {
    predicate IsDummy() { EmptyDummy? || BlockedDummy? }
  }

  datatype Cell = Cell(next: Ptr, val: Elem)
  type Heap = map<Addr, Cell>

  /** Where a producer stands inside `enqueue` or, with sync, `synchronized_enqueue`. */
  datatype Producer =
    | PLoading(n: Addr, sync: bool)            // about to load stack_
    | PLoaded(n: Addr, e: Ptr, sync: bool)     // at the head of the loop with e
    | PLinked(n: Addr, e: Ptr, sync: bool)     // n.next written, about to CAS
    | PLocking                     // result unblocked_reader, about to lock the mutex
    | PNotifying                   // holds the mutex, about to notify_one
    | PUnlocking                   // notified, about to release the mutex
  {
    predicate HasNode() { PLoading? || PLoaded? || PLinked? }
  }

  /** Why `fetch_new_data` runs: with end_ptr the empty dummy (pop) or null (close). */
  datatype Goal = ToPop | ToClose

  datatype Reader =
    | RIdle
    | RFetching(e: Ptr, goal: Goal)    // at the head of the CAS loop with e
    | RReversing(e: Ptr, goal: Goal)   // CAS done, moving the grabbed chain onto head_
    | RTaking                          // fetch returned true, about to unlink head_
    | RClearing(last: bool)            // in clear_cached_elements; last: after the fetch
    | RChecking                        // in close, about to evaluate blocked()
    | RCloseLoading                    // in close, about to load stack_ in fetch_new_data
    | RBlocking(timed: bool)           // in await, can_fetch_more() was false
    | RLocking(timed: bool)            // blocked the queue, about to lock the mutex
    | RTesting(timed: bool)            // holds the mutex, about to evaluate blocked()
    | RParking(timed: bool)            // saw blocked, about to wait
    | RWaiting(timed: bool)            // inside cv.wait, mutex released
    | RWaking(timed: bool, expired: bool) // out of the wait set, about to relock
    | RExpired                         // timed out with the mutex held, about to try_unblock
    | RReturning(result: bool)         // about to release the mutex and return result
  {
    predicate HoldsMutex() { RTesting? || RParking? || RExpired? || RReturning? }
    predicate InWaitLoop() { RLocking? || RTesting? || RParking? || RWaiting? || RWaking? || RExpired? }
  }

  datatype Mutex = Unlocked | ByReader | ByProducer(t: Tid)

  /** `held`: popped nodes the reader's caller still owns. */
  datatype State = State(
    stack: Ptr, head: Ptr, heap: Heap,
    prods: map<Tid, Producer>, reader: Reader,
    held: set<Addr>, mutex: Mutex)

  datatype ProducerStep = Begin(n: Addr, v: Elem, junk: Ptr, sync: bool) | Load | Link | Cas | Lock | Notify | Unlock

  /** try_pop, close, and the two state changes try_block and try_unblock. */
  datatype ReaderStep =
    | PopHead | FetchLoad | FetchCas(spurious: bool) | ReverseStep | TakeHead
    | CloseStart | ClearStep | CheckBlocked | CloseLoad
    | TryBlock | TryUnblock

  datatype AwaitStep =
    | AwaitStart(timed: bool) | AwaitBlock | AwaitLock | AwaitTest | AwaitPark
    | AwaitWake(expired: bool) | AwaitRelock | AwaitExpire | AwaitReturn

  /** Free: whoever received a popped node deletes it. */
  datatype Action =
    | Producing(t: Tid, p: ProducerStep)
    | Reading(r: ReaderStep)
    | Awaiting(w: AwaitStep)
    | Free(n: Addr)

  function NextOf(h: Heap, a: Addr): Ptr { if a in h then h[a].next else Null }

  function SetNext(h: Heap, a: Addr, p: Ptr): Heap { if a in h then h[a := Cell(p, h[a].val)] else h }

  function EndPtr(g: Goal): Ptr { if g == ToPop then EmptyDummy else Null }

  ghost predicate Init(s: State) {
    s.stack == EmptyDummy && s.head == Null && s.heap == map[] && s.prods == map[] &&
    s.reader == RIdle && s.held == {} && s.mutex == Unlocked
  }

  predicate ProducerEnabled(s: State, t: Tid, p: ProducerStep) {
    match p
    case Begin(n, _, _, _) => t !in s.prods && n !in s.heap
    case Load => t in s.prods && s.prods[t].PLoading?
    case Link => t in s.prods && s.prods[t].PLoaded?
    case Cas => t in s.prods && s.prods[t].PLinked?
    case Lock => t in s.prods && s.prods[t].PLocking? && s.mutex == Unlocked
    case Notify => t in s.prods && s.prods[t].PNotifying?
    case Unlock => t in s.prods && s.prods[t].PUnlocking?
  }

  /** enqueue (lines 49-66) and synchronized_enqueue (lines 204-219). */
  function ApplyProducer(s: State, t: Tid, p: ProducerStep): State
    requires ProducerEnabled(s, t, p)
  {
    match p
    case Begin(n, v, junk, sync) =>
      s.(heap := s.heap[n := Cell(junk, v)], prods := s.prods[t := PLoading(n, sync)])
    case Load =>
      s.(prods := s.prods[t := PLoaded(s.prods[t].n, s.stack, s.prods[t].sync)])
    case Link =>
      var PLoaded(n, e, sync) := s.prods[t];
      if e == Null then s.(heap := s.heap - {n}, prods := s.prods - {t})
      else s.(heap := SetNext(s.heap, n, if e.IsDummy() then Null else e), prods := s.prods[t := PLinked(n, e, sync)])
    case Cas =>
      var PLinked(n, e, sync) := s.prods[t];
      if s.stack != e then s.(prods := s.prods[t := PLoaded(n, s.stack, sync)])
      else if e == BlockedDummy && sync then s.(stack := Node(n), prods := s.prods[t := PLocking])
      else s.(stack := Node(n), prods := s.prods - {t})
    case Lock =>
      s.(mutex := ByProducer(t), prods := s.prods[t := PNotifying])
    case Notify =>
      s.(prods := s.prods[t := PUnlocking],
         reader := if s.reader.RWaiting? then RWaking(s.reader.timed, false) else s.reader)
    case Unlock =>
      s.(mutex := Unlocked, prods := s.prods - {t})
  }

  /** The guards on FetchLoad and CloseStart are the assertions the source makes about its caller: no
      fetch on a blocked or closed queue, no close on a closed one. */
  predicate ReaderEnabled(s: State, r: ReaderStep) {
    match r
    case PopHead => s.reader.RIdle? && s.head.Node?
    case FetchLoad => s.reader.RIdle? && s.head == Null && s.stack != Null && s.stack != BlockedDummy
    case FetchCas(_) => s.reader.RFetching?
    case ReverseStep => s.reader.RReversing?
    case TakeHead => s.reader.RTaking?
    case CloseStart => s.reader.RIdle? && s.stack != Null
    case ClearStep => s.reader.RClearing?
    case CheckBlocked => s.reader.RChecking?
    case CloseLoad => s.reader.RCloseLoading?
    case TryBlock => s.reader.RIdle?
    case TryUnblock => s.reader.RIdle?
  }

  /** take_head and fetch_new_data (lines 257-301), close (lines 120-126, 303-311), try_block and
      try_unblock (lines 98-108). */
  function ApplyReader(s: State, r: ReaderStep): State
    requires ReaderEnabled(s, r)
  {
    match r
    case PopHead => Unlinked(s)
    case FetchLoad => s.(reader := RFetching(s.stack, ToPop))
    case FetchCas(spurious) =>
      var RFetching(e, g) := s.reader;
      if e == EndPtr(g) then s.(reader := RIdle)
      else if s.stack != e || spurious then s.(reader := RFetching(s.stack, g))
      else s.(stack := EndPtr(g), reader := if e.IsDummy() then RIdle else RReversing(e, g))
    case ReverseStep =>
      var RReversing(e, g) := s.reader;
      if !e.Node? then s.(reader := if g == ToPop then RTaking else RClearing(true))
      else s.(heap := SetNext(s.heap, e.addr, s.head), head := e, reader := RReversing(NextOf(s.heap, e.addr), g))
    case TakeHead =>
      if s.head.Node? then Unlinked(s).(reader := RIdle) else s.(reader := RIdle)
    case CloseStart => s.(reader := RClearing(false))
    case ClearStep =>
      if s.head.Node? then s.(head := NextOf(s.heap, s.head.addr), heap := s.heap - {s.head.addr})
      else s.(reader := if s.reader.last then RIdle else RChecking)
    case CheckBlocked => s.(reader := if s.stack == BlockedDummy then RIdle else RCloseLoading)
    case CloseLoad => s.(reader := RFetching(s.stack, ToClose))
    case TryBlock => if s.stack == EmptyDummy then s.(stack := BlockedDummy) else s
    case TryUnblock => if s.stack == BlockedDummy then s.(stack := EmptyDummy) else s
  }

  /** AwaitStart's guard on the stack is the source's assertion that the queue is not closed. */
  predicate AwaitEnabled(s: State, w: AwaitStep) {
    match w
    case AwaitStart(_) => s.reader.RIdle? && s.stack != Null
    case AwaitBlock => s.reader.RBlocking?
    case AwaitLock => s.reader.RLocking? && s.mutex == Unlocked
    case AwaitTest => s.reader.RTesting?
    case AwaitPark => s.reader.RParking?
    case AwaitWake(expired) => s.reader.RWaiting? && (expired ==> s.reader.timed)
    case AwaitRelock => s.reader.RWaking? && s.mutex == Unlocked
    case AwaitExpire => s.reader.RExpired?
    case AwaitReturn => s.reader.RReturning?
  }

  /** Both forms of synchronized_await (lines 222-245).  AwaitWake is a spurious wake-up or a timeout;
      Notify is the other way out of the wait. */
  function ApplyAwait(s: State, w: AwaitStep): State
    requires AwaitEnabled(s, w)
  {
    match w
    case AwaitStart(timed) => if CanFetchMore(s) then s else s.(reader := RBlocking(timed))
    case AwaitBlock =>
      if s.stack == EmptyDummy then s.(stack := BlockedDummy, reader := RLocking(s.reader.timed))
      else s.(reader := RIdle)
    case AwaitLock => s.(mutex := ByReader, reader := RTesting(s.reader.timed))
    case AwaitTest =>
      s.(reader := if s.stack == BlockedDummy then RParking(s.reader.timed) else RReturning(true))
    case AwaitPark => s.(mutex := Unlocked, reader := RWaiting(s.reader.timed))
    case AwaitWake(expired) => s.(reader := RWaking(s.reader.timed, expired))
    case AwaitRelock =>
      s.(mutex := ByReader, reader := if s.reader.expired then RExpired else RTesting(s.reader.timed))
    case AwaitExpire =>
      if s.stack == BlockedDummy then s.(stack := EmptyDummy, reader := RReturning(false))
      else s.(reader := RReturning(true))
    case AwaitReturn => s.(mutex := Unlocked, reader := RIdle)
  }

  predicate Enabled(s: State, a: Action) {
    match a
    case Producing(t, p) => ProducerEnabled(s, t, p)
    case Reading(r) => ReaderEnabled(s, r)
    case Awaiting(w) => AwaitEnabled(s, w)
    case Free(n) => n in s.held
  }

  /** The state after a step. */
  function Apply(s: State, a: Action): State
    requires Enabled(s, a)
  {
    match a
    case Producing(t, p) => ApplyProducer(s, t, p)
    case Reading(r) => ApplyReader(s, r)
    case Awaiting(w) => ApplyAwait(s, w)
    case Free(n) => s.(heap := s.heap - {n}, held := s.held - {n})
  }

  /** take_head's last three lines: the front node leaves head_ and belongs to the caller. */
  function Unlinked(s: State): State
    requires s.head.Node?
  {
    s.(head := NextOf(s.heap, s.head.addr), held := s.held + {s.head.addr})
  }

  predicate CanFetchMore(s: State) { s.head != Null || s.stack.Node? }

  /** The step is a CAS of thread t's enqueue, and it succeeds. */
  predicate EnqueueCas(s: State, a: Action) {
    a.Producing? && a.p.Cas? && Enabled(s, a) && s.stack == s.prods[a.t].e
  }

  /** If the step begins an enqueue, it is a synchronized_enqueue exactly when sync. */
  predicate BeginsWith(a: Action, sync: bool) { a.Producing? && a.p.Begin? ==> a.p.sync == sync }

  /** What `enqueue` returns, at the step that ends it. */
  function EnqueueReturns(s: State, a: Action): Option<EnqueueResult>
    requires Enabled(s, a)
  {
    if EnqueueCas(s, a) then Some(if s.stack == BlockedDummy then UnblockedReader else Success)
    else if a.Producing? && a.p.Link? && s.prods[a.t].e == Null then Some(QueueClosed)
    else None
  }

  /** What `synchronized_await` returns, at the step that ends it (the untimed form returns void,
      here true). */
  function AwaitReturns(s: State, a: Action): Option<bool>
    requires Enabled(s, a)
  {
    match a
    case Awaiting(AwaitStart(_)) => if CanFetchMore(s) then Some(true) else None
    case Awaiting(AwaitBlock) => if s.stack == EmptyDummy then None else Some(true)
    case Awaiting(AwaitReturn) => Some(s.reader.result)
    case _ => None
  }

  /** A run: a chain of states from an initial one, each following by one enabled action. */
  ghost predicate IsRun(run: seq<State>, acts: seq<Action>) {
    |run| == |acts| + 1 && Init(run[0]) &&
    forall i | 0 <= i < |acts| :: Follows(run, acts, i)
  }

  ghost predicate Follows(run: seq<State>, acts: seq<Action>, i: nat)
    requires |run| == |acts| + 1 && i < |acts|
  {
    Enabled(run[i], acts[i]) && run[i + 1] == Apply(run[i], acts[i])
  }
}
