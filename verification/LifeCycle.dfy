/**
 The busy / empty / blocked life cycle of an actor over whole runs: any number of senders in
 `enqueue_base`, any number of workers running and releasing the actor
 (header/actors-framework/impl/actor/cooperative_actor.ipp:67-79, 102-121).

 Every access to the flag, to the mailbox's `stack_` and to `rc_` is one step, and every interleaving is
 allowed.  The source protects none of its sections, and only one of its steps needs protection: marking the
 actor busy, which must still find the flag empty and a message in the mailbox.
 */
module LifeCycle {

  type Tid = nat
  type Wid = nat

  datatype Flag = Empty | Busy
  datatype Box = EmptyBox | BlockedBox | Messages(n: nat)

  /** A sender inside enqueue_base, after its push. */
  datatype Sender =
    | STesting      // about to test the flag
    | SMarking      // flag was empty, about to store busy
    | SBlocking     // about to try_block
    | SReferring    // about to increment rc_
    | SHanding      // about to hand the actor to execute

  /** A worker with the actor as its job. */
  datatype Worker =
    | WRunning
    | WReturned     // run has returned, about to store empty
    | WUnblocking   // about to try_unblock
    | WDropping     // about to decrement rc_

  /** cached: messages in head_ and the cache; jobs: occurrences of the actor in the shared job list;
      refs: references other than those of jobs. */
  datatype State = State(
    flag: Flag, box: Box, cached: nat,
    senders: map<Tid, Sender>, workers: map<Wid, Worker>,
    jobs: nat, rc: int, refs: nat)

  datatype Action =
    // enqueue_base
    | Push(t: Tid) | Test(t: Tid) | Mark(t: Tid) | BlockBox(t: Tid) | Refer(t: Tid) | HandOver(t: Tid)
    // a worker and run
    | Dequeue(w: Wid) | Fetch(w: Wid) | Handle(w: Wid) | BlockAndReturn(w: Wid) | Return(w: Wid)
    // release
    | ClearFlag(w: Wid) | UnblockBox(w: Wid) | Drop(w: Wid)
    // handles of other owners
    | AddRef | DropRef

  /** rc_ starts at one, which nothing drops. */
  ghost predicate Init(s: State) {
    s.flag == Empty && s.box == EmptyBox && s.cached == 0 && s.senders == map[] && s.workers == map[] &&
    s.jobs == 0 && s.rc == s.refs && s.refs >= 1
  }

  predicate SenderAt(s: State, t: Tid, p: Sender) { t in s.senders && s.senders[t] == p }
  predicate WorkerAt(s: State, w: Wid, p: Worker) { w in s.workers && s.workers[w] == p }

  predicate Enabled(s: State, a: Action) {
    match a
    case Push(t) => t !in s.senders
    case Test(t) => SenderAt(s, t, STesting)
    case Mark(t) => SenderAt(s, t, SMarking)
    case BlockBox(t) => SenderAt(s, t, SBlocking)
    case Refer(t) => SenderAt(s, t, SReferring)
    case HandOver(t) => SenderAt(s, t, SHanding)
    case Dequeue(w) => w !in s.workers && s.jobs > 0
    case Fetch(w) => WorkerAt(s, w, WRunning)
    case Handle(w) => WorkerAt(s, w, WRunning) && s.cached > 0
    case BlockAndReturn(w) => WorkerAt(s, w, WRunning) && s.cached == 0 && s.box == EmptyBox
    case Return(w) => WorkerAt(s, w, WRunning)
    case ClearFlag(w) => WorkerAt(s, w, WReturned)
    case UnblockBox(w) => WorkerAt(s, w, WUnblocking)
    case Drop(w) => WorkerAt(s, w, WDropping)
    case AddRef => true
    case DropRef => s.refs > 1
  }

  function Pushed(b: Box): Box { if b.Messages? then Messages(b.n + 1) else Messages(1) }

  function Apply(s: State, a: Action): State
    requires Enabled(s, a)
  {
    match a
    case Push(t) => s.(box := Pushed(s.box), senders := s.senders[t := STesting])
    case Test(t) =>
      if s.flag == Empty then s.(senders := s.senders[t := SMarking]) else s.(senders := s.senders - {t})
    case Mark(t) => s.(flag := Busy, senders := s.senders[t := SBlocking])
    case BlockBox(t) =>
      s.(box := if s.box == EmptyBox then BlockedBox else s.box, senders := s.senders[t := SReferring])
    case Refer(t) => s.(rc := s.rc + 1, senders := s.senders[t := SHanding])
    case HandOver(t) => s.(jobs := s.jobs + 1, senders := s.senders - {t})
    case Dequeue(w) => s.(jobs := s.jobs - 1, workers := s.workers[w := WRunning])
    case Fetch(w) =>
      if s.box.Messages? then s.(box := EmptyBox, cached := s.cached + s.box.n) else s
    case Handle(w) => s.(cached := s.cached - 1)
    case BlockAndReturn(w) => s.(box := BlockedBox, workers := s.workers[w := WReturned])
    case Return(w) => s.(workers := s.workers[w := WReturned])
    case ClearFlag(w) => s.(flag := Empty, workers := s.workers[w := WUnblocking])
    case UnblockBox(w) =>
      s.(box := if s.box == BlockedBox then EmptyBox else s.box, workers := s.workers[w := WDropping])
    case Drop(w) => s.(rc := s.rc - 1, workers := s.workers - {w})
    case AddRef => s.(rc := s.rc + 1, refs := s.refs + 1)
    case DropRef => s.(rc := s.rc - 1, refs := s.refs - 1)
  }

  /** fetch_new_data's assertion: the queue is not blocked when a run fetches. */
  predicate Asserted(s: State, a: Action) { a.Fetch? ==> s.box != BlockedBox }

  // ---------- the invariant ----------

  /** Who is responsible for the actor: nobody, a sender scheduling it, or the holder of its one job reference -
      the sender handing it over, the job list, or the worker that runs it or has returned from running it. */
  datatype Place = Nowhere | Scheduling(t: Tid) | WithSender(t: Tid) | InList | WithWorker(w: Wid)

  predicate Schedules(s: State, t: Tid) { SenderAt(s, t, SBlocking) || SenderAt(s, t, SReferring) }

  predicate Runs(s: State, w: Wid) { WorkerAt(s, w, WRunning) || WorkerAt(s, w, WReturned) }

  /** Everyone who schedules the actor or holds a job reference is the one at p. */
  ghost predicate OnlyAt(s: State, p: Place) {
    && (forall t :: Schedules(s, t) <==> p == Scheduling(t))
    && (forall t :: SenderAt(s, t, SHanding) <==> p == WithSender(t))
    && s.jobs == (if p == InList then 1 else 0)
    && (forall w :: Runs(s, w) <==> p == WithWorker(w))
  }

  function JobRefs(p: Place): int { if p.Nowhere? || p.Scheduling? then 0 else 1 }

  /** Workers inside a release that have not dropped their reference yet. */
  function Releasing(s: State): set<Wid> {
    set w | w in s.workers && (s.workers[w] == WUnblocking || s.workers[w] == WDropping)
  }

  /** Who answers for a blocked mailbox: a run that has returned, or a release that will unblock it. */
  ghost predicate BlockedFor(s: State, p: Place) {
    (p.WithWorker? && WorkerAt(s, p.w, WReturned)) || (p == Nowhere && exists w :: WorkerAt(s, w, WUnblocking))
  }

  /** Busy exactly when somebody is responsible; the message that made a sender schedule is still there; a blocked
      mailbox is about to be unblocked; and rc_ counts the job reference and the releases under way. */
  ghost predicate Inv(s: State, p: Place) {
    && OnlyAt(s, p)
    && (s.flag == Busy <==> p != Nowhere)
    && (p.Scheduling? ==> s.box.Messages?)
    && (s.box == BlockedBox ==> BlockedFor(s, p))
    && s.rc == s.refs + JobRefs(p) + |Releasing(s)|
  }

  function NextPlace(s: State, p: Place, a: Action): Place
    requires Enabled(s, a)
  {
    match a
    case Mark(t) => Scheduling(t)
    case Refer(t) => WithSender(t)
    case HandOver(t) => InList
    case Dequeue(w) => WithWorker(w)
    case ClearFlag(w) => Nowhere
    case _ => p
  }

  /** A sender marks the actor busy while what it has seen still holds: the flag is empty and a message waits. */
  predicate Fresh(s: State, a: Action) { a.Mark? ==> s.flag == Empty && s.box.Messages? }

  // ---------- every step but a stale mark keeps it ----------

  /** Who schedules, hands over and runs changes only by the acting thread's own steps. */
  lemma Roles(s: State, a: Action)
    requires Enabled(s, a)
    ensures var s' := Apply(s, a);
      && (forall t :: Schedules(s', t) <==> a == Mark(t) || (a != Refer(t) && Schedules(s, t)))
      && (forall t :: SenderAt(s', t, SHanding) <==> a == Refer(t) || (a != HandOver(t) && SenderAt(s, t, SHanding)))
      && (forall w :: Runs(s', w) <==> a == Dequeue(w) || (a != ClearFlag(w) && Runs(s, w)))
    ensures a.Refer? || a.BlockBox? ==> Schedules(s, a.t)
    ensures a.HandOver? ==> SenderAt(s, a.t, SHanding)
    ensures a.Fetch? || a.Handle? || a.BlockAndReturn? || a.Return? || a.ClearFlag? ==> Runs(s, a.w)
  {}

  lemma PlaceStep(s: State, p: Place, a: Action)
    requires Inv(s, p) && Enabled(s, a) && Fresh(s, a)
    ensures OnlyAt(Apply(s, a), NextPlace(s, p, a))
  {
    Roles(s, a);
  }

  lemma ReleasingMembers(s: State, a: Action, w: Wid)
    requires Enabled(s, a)
    ensures w in Releasing(Apply(s, a)) <==> a == ClearFlag(w) || (a != Drop(w) && w in Releasing(s))
  {}

  /** Entering and leaving a release moves the number of those under way by one. */
  lemma ReleasingStep(s: State, a: Action)
    requires Enabled(s, a)
    ensures |Releasing(Apply(s, a))| == |Releasing(s)| + if a.ClearFlag? then 1 else if a.Drop? then -1 else 0
  {
    var now, next := Releasing(s), Releasing(Apply(s, a));
    forall w
      ensures w in next <==> a == ClearFlag(w) || (a != Drop(w) && w in now)
    {
      ReleasingMembers(s, a, w);
    }
    if a.ClearFlag? {
      assert next == now + {a.w};
    } else if a.Drop? {
      assert next == now - {a.w};
    } else {
      assert next == now;
    }
  }

  lemma BlockedStep(s: State, p: Place, a: Action)
    requires Inv(s, p) && Enabled(s, a) && Fresh(s, a) && Apply(s, a).box == BlockedBox
    ensures BlockedFor(Apply(s, a), NextPlace(s, p, a))
  {
    var s' := Apply(s, a);
    Roles(s, a);
    assert a.ClearFlag? ==> WorkerAt(s', a.w, WUnblocking);
    assert forall w | WorkerAt(s, w, WUnblocking) && a != UnblockBox(w) :: WorkerAt(s', w, WUnblocking);
  }

  /** Every step of every thread keeps the invariant if no mark is stale, and then fetching does not meet a
      blocked queue. */
  lemma StepKeepsInv(s: State, p: Place, a: Action)
    requires Inv(s, p) && Enabled(s, a) && Fresh(s, a)
    ensures Inv(Apply(s, a), NextPlace(s, p, a)) && Asserted(s, a)
  {
    PlaceStep(s, p, a);
    ReleasingStep(s, a);
    Roles(s, a);
    if Apply(s, a).box == BlockedBox {
      BlockedStep(s, p, a);
    }
  }

  /** The condition is exact: a step keeps the invariant if and only if it is not a stale mark. */
  lemma StepKeepsInvIff(s: State, p: Place, a: Action)
    requires Inv(s, p) && Enabled(s, a)
    ensures (exists p' :: Inv(Apply(s, a), p')) <==> Fresh(s, a)
  {
    if Fresh(s, a) {
      StepKeepsInv(s, p, a);
    } else {
      forall p'
        ensures !Inv(Apply(s, a), p')
      {
        StaleMarkBreaks(s, p, a.t, p');
      }
    }
  }

  lemma StaleMarkBreaks(s: State, p: Place, t: Tid, p': Place)
    requires Inv(s, p) && Enabled(s, Mark(t)) && !Fresh(s, Mark(t))
    ensures !Inv(Apply(s, Mark(t)), p')
  {
    var s' := Apply(s, Mark(t));
    Roles(s, Mark(t));
    assert Schedules(s', t);
    match p {
      case Nowhere =>
      case Scheduling(u) => assert Schedules(s, u) && Schedules(s', u);
      case WithSender(u) => assert SenderAt(s, u, SHanding);
      case InList =>
      case WithWorker(w) => assert Runs(s, w);
    }
  }

  // ---------- whole runs ----------

  ghost predicate IsRun(run: seq<State>, acts: seq<Action>) {
    |run| == |acts| + 1 && Init(run[0]) &&
    forall i | 0 <= i < |acts| :: Enabled(run[i], acts[i]) && run[i + 1] == Apply(run[i], acts[i])
  }

  /** No mark among the first n steps is stale. */
  ghost predicate FreshUpTo(run: seq<State>, acts: seq<Action>, n: nat)
    requires n <= |acts| < |run|
  {
    forall i | 0 <= i < n :: Fresh(run[i], acts[i])
  }

  lemma {:induction false} LifeCycleInv(run: seq<State>, acts: seq<Action>, n: nat) returns (p: Place)
    requires IsRun(run, acts) && n <= |acts| && FreshUpTo(run, acts, n)
    ensures Inv(run[n], p)
  {
    if n == 0 {
      p := Nowhere;
      assert Releasing(run[0]) == {};
    } else {
      p := LifeCycleInv(run, acts, n - 1);
      assert Fresh(run[n - 1], acts[n - 1]);
      assert Enabled(run[n - 1], acts[n - 1]);
      StepKeepsInv(run[n - 1], p, acts[n - 1]);
      p := NextPlace(run[n - 1], p, acts[n - 1]);
    }
  }

  ghost predicate HoldsAt(run: seq<State>, i: nat)
    requires i < |run|
  {
    exists p :: Inv(run[i], p)
  }

  /** Over whole runs, with every interleaving: the life cycle holds at every moment if and only if no mark is stale. */
  lemma LifeCycleHoldsIff(run: seq<State>, acts: seq<Action>)
    requires IsRun(run, acts)
    ensures (forall n | 0 <= n <= |acts| :: HoldsAt(run, n)) <==> FreshUpTo(run, acts, |acts|)
  {
    if FreshUpTo(run, acts, |acts|) {
      forall n | 0 <= n <= |acts|
        ensures HoldsAt(run, n)
      {
        var p := LifeCycleInv(run, acts, n);
      }
    } else {
      var i :| 0 <= i < |acts| && !Fresh(run[i], acts[i]);
      if HoldsAt(run, i) {
        var p :| Inv(run[i], p);
        assert Enabled(run[i], acts[i]);
        StepKeepsInvIff(run[i], p, acts[i]);
        assert !HoldsAt(run, i + 1);
      }
    }
  }

  ghost predicate HasJob(s: State) {
    s.jobs > 0 || (exists t :: SenderAt(s, t, SHanding)) || exists w :: Runs(s, w)
  }

  ghost predicate Scheduled(s: State) { exists t :: Schedules(s, t) }

  /** At every moment of every run without a stale mark: busy exactly when a sender is scheduling the actor or a job
      reference exists, and never both; there is at most one such reference, so no two workers ever run the actor;
      it is counted in rc_; and a blocked mailbox belongs to a run that has returned or to a release about to
      unblock it. */
  lemma BusyIffOneJob(run: seq<State>, acts: seq<Action>, n: nat)
    requires IsRun(run, acts) && n <= |acts| && FreshUpTo(run, acts, n)
    ensures var s := run[n];
      && (s.flag == Busy <==> HasJob(s) || Scheduled(s))
      && !(HasJob(s) && Scheduled(s))
      && s.jobs <= 1
      && (forall v, w | Runs(s, v) && Runs(s, w) :: v == w && s.jobs == 0)
      && s.rc == s.refs + (if HasJob(s) then 1 else 0) + |Releasing(s)|
      && (s.box == BlockedBox ==> exists w :: WorkerAt(s, w, WReturned) || WorkerAt(s, w, WUnblocking))
  {
    var s := run[n];
    var p := LifeCycleInv(run, acts, n);
    match p {
      case Scheduling(t) => assert Schedules(s, t);
      case WithSender(t) => assert SenderAt(s, t, SHanding);
      case WithWorker(w) => assert Runs(s, w);
      case _ =>
    }
  }

  /** And fetching never meets a blocked queue: the assertions in fetch_new_data hold. */
  lemma FetchNeverMeetsBlocked(run: seq<State>, acts: seq<Action>, n: nat)
    requires IsRun(run, acts) && n < |acts| && FreshUpTo(run, acts, n) && acts[n].Fetch?
    ensures run[n].box != BlockedBox
  {
    var p := LifeCycleInv(run, acts, n);
    assert Enabled(run[n], acts[n]);
    StepKeepsInv(run[n], p, acts[n]);
  }

  // ---------- no message is lost ----------

  function One(b: bool): nat { if b then 1 else 0 }

  function InBox(b: Box): nat { if b.Messages? then b.n else 0 }

  /** Messages pushed and messages handled in the first n steps. */
  function PushesBy(acts: seq<Action>, n: nat): nat
    requires n <= |acts|
  {
    if n == 0 then 0 else PushesBy(acts, n - 1) + One(acts[n - 1].Push?)
  }

  function HandlesBy(acts: seq<Action>, n: nat): nat
    requires n <= |acts|
  {
    if n == 0 then 0 else HandlesBy(acts, n - 1) + One(acts[n - 1].Handle?)
  }

  lemma MessageStep(s: State, a: Action)
    requires Enabled(s, a)
    ensures One(a.Handle?) + Apply(s, a).cached + InBox(Apply(s, a).box) == One(a.Push?) + s.cached + InBox(s.box)
  {}

  /** Over every run, with every interleaving and any number of stale marks: a message that has been pushed has been
      handled, is cached or is in the mailbox. */
  lemma {:induction false} MessagesAccountedFor(run: seq<State>, acts: seq<Action>, n: nat)
    requires IsRun(run, acts) && n <= |acts|
    ensures PushesBy(acts, n) == HandlesBy(acts, n) + run[n].cached + InBox(run[n].box)
  {
    if n > 0 {
      MessagesAccountedFor(run, acts, n - 1);
      assert Enabled(run[n - 1], acts[n - 1]);
      MessageStep(run[n - 1], acts[n - 1]);
    }
  }

  // ---------- every block is answered once ----------

  /** The step blocks the mailbox: try_block in run or in the scheduling of the actor. */
  predicate Blocks(s: State, a: Action) { a.BlockAndReturn? || (a.BlockBox? && s.box == EmptyBox) }

  /** The step ends a block: a push, or the release's try_unblock. */
  predicate Unblocks(s: State, a: Action) { (a.Push? || a.UnblockBox?) && s.box == BlockedBox }

  function BlocksBy(run: seq<State>, acts: seq<Action>, n: nat): nat
    requires n <= |acts| < |run|
  {
    if n == 0 then 0 else BlocksBy(run, acts, n - 1) + One(Blocks(run[n - 1], acts[n - 1]))
  }

  function UnblocksBy(run: seq<State>, acts: seq<Action>, n: nat): nat
    requires n <= |acts| < |run|
  {
    if n == 0 then 0 else UnblocksBy(run, acts, n - 1) + One(Unblocks(run[n - 1], acts[n - 1]))
  }

  lemma BlockStep(s: State, a: Action)
    requires Enabled(s, a)
    ensures One(s.box == BlockedBox) + One(Blocks(s, a)) == One(Apply(s, a).box == BlockedBox) + One(Unblocks(s, a))
  {}

  /** Over every run: the mailbox has been blocked as often as a push or a release has unblocked it, and once more if it is
      blocked now. */
  lemma {:induction false} EachBlockAnsweredOnce(run: seq<State>, acts: seq<Action>, n: nat)
    requires IsRun(run, acts) && n <= |acts|
    ensures BlocksBy(run, acts, n) == UnblocksBy(run, acts, n) + One(run[n].box == BlockedBox)
  {
    if n > 0 {
      EachBlockAnsweredOnce(run, acts, n - 1);
      assert Enabled(run[n - 1], acts[n - 1]);
      BlockStep(run[n - 1], acts[n - 1]);
    }
  }

  // ---------- when no mark is stale ----------

  predicate InEnqueue(s: State, t: Tid) { t in s.senders && s.senders[t] != SHanding }

  /** The step interrupts nobody's enqueue_base up to its hand-over; releases may overlap with anything. */
  ghost predicate Undisturbed(s: State, a: Action) {
    forall t | InEnqueue(s, t) :: a == Test(t) || a == Mark(t) || a == BlockBox(t) || a == Refer(t)
  }

  /** t has pushed its message and not yet decided whether to schedule the actor. */
  predicate Attends(s: State, t: Tid) { SenderAt(s, t, STesting) || SenderAt(s, t, SMarking) }

  /** What a sender has seen still holds. */
  ghost predicate SendersFresh(s: State) {
    && (forall t | Attends(s, t) :: s.box.Messages?)
    && (forall t | SenderAt(s, t, SMarking) :: s.flag == Empty)
  }

  lemma SendersFreshStep(s: State, a: Action)
    requires SendersFresh(s) && Enabled(s, a) && Undisturbed(s, a)
    ensures SendersFresh(Apply(s, a)) && Fresh(s, a)
  {
    var s' := Apply(s, a);
    assert forall t | Attends(s', t) :: a == Push(t) || (Attends(s, t) && InEnqueue(s, t));
    assert forall t | SenderAt(s', t, SMarking) :: Attends(s', t);
    assert a.Mark? ==> Attends(s, a.t);
  }

  /** In particular: in a run that interrupts nobody's enqueue_base no mark is stale. */
  lemma {:induction false} UndisturbedIsFresh(run: seq<State>, acts: seq<Action>, n: nat)
    requires IsRun(run, acts) && n <= |acts| && forall i | 0 <= i < n :: Undisturbed(run[i], acts[i])
    ensures FreshUpTo(run, acts, n) && SendersFresh(run[n])
  {
    if n > 0 {
      UndisturbedIsFresh(run, acts, n - 1);
      assert Undisturbed(run[n - 1], acts[n - 1]) && Enabled(run[n - 1], acts[n - 1]);
      SendersFreshStep(run[n - 1], acts[n - 1]);
    }
  }

  // ---------- where the life cycle stops helping ----------

  ghost predicate HasMessages(s: State) { s.cached > 0 || s.box.Messages? }

  /** Somebody will still look at the flag on account of a message, or is about to schedule the actor. */
  ghost predicate Attended(s: State) { exists t :: Attends(s, t) }

  /** Messages are waiting, but the actor is idle, nothing refers to it as a job, and no sender will change that. */
  ghost predicate Stranded(s: State) { s.flag == Empty && !HasJob(s) && !Attended(s) && HasMessages(s) }

  /** The step that strands messages: a release clears the flag while messages wait and no sender is in between its
      push and its mark. */
  ghost predicate Strands(s: State, a: Action) { a.ClearFlag? && HasMessages(s) && !Attended(s) }

  lemma AttendedStep(s: State, a: Action)
    requires Enabled(s, a) && s.flag == Empty && !a.Push? && !a.Mark?
    ensures Attended(Apply(s, a)) <==> Attended(s)
  {
    var s' := Apply(s, a);
    assert forall t :: Attends(s', t) <==> Attends(s, t);
  }

  /** A step leaves messages stranded if and only if it is such a release, or they were stranded before and it is no
      push. */
  lemma ReleaseStrandsIff(s: State, p: Place, a: Action)
    requires Inv(s, p) && Enabled(s, a) && Fresh(s, a)
    ensures Stranded(Apply(s, a)) <==> Strands(s, a) || (Stranded(s) && !a.Push?)
  {
    var s' := Apply(s, a);
    StepKeepsInv(s, p, a);
    JobPlace(s, p);
    JobPlace(s', NextPlace(s, p, a));
    match a {
      case Push(t) => assert Attends(s', t);
      case Mark(t) => assert Attends(s, t);
      case ClearFlag(w) =>
        assert Runs(s, w);
        assert forall t :: Attends(s', t) <==> Attends(s, t);
      case _ =>
        if s.flag == Empty {
          AttendedStep(s, a);
          IdleKeepsMessages(s, p, a);
        }
    }
  }

  lemma JobPlace(s: State, p: Place)
    requires Inv(s, p)
    ensures HasJob(s) <==> !p.Nowhere? && !p.Scheduling?
  {
    match p {
      case WithSender(t) => assert SenderAt(s, t, SHanding);
      case WithWorker(w) => assert Runs(s, w);
      case _ =>
    }
  }

  lemma IdleKeepsMessages(s: State, p: Place, a: Action)
    requires Inv(s, p) && s.flag == Empty && Enabled(s, a) && !a.Push? && !a.Mark? && !a.ClearFlag?
    ensures Apply(s, a).flag == Empty && (HasMessages(Apply(s, a)) <==> HasMessages(s))
  {
    Roles(s, a);
  }

  /** Over whole runs: messages are stranded at a moment if and only if a release has stranded them and no message
      has been pushed since. */
  lemma {:induction false} StrandedIff(run: seq<State>, acts: seq<Action>, n: nat)
    requires IsRun(run, acts) && n <= |acts| && FreshUpTo(run, acts, n)
    ensures Stranded(run[n]) <==> StrandedSince(run, acts, n)
  {
    if n > 0 {
      StrandedIff(run, acts, n - 1);
      var p := LifeCycleInv(run, acts, n - 1);
      assert Fresh(run[n - 1], acts[n - 1]) && Enabled(run[n - 1], acts[n - 1]);
      ReleaseStrandsIff(run[n - 1], p, acts[n - 1]);
      StrandedSinceStep(run, acts, n);
    }
  }

  ghost predicate StrandedSince(run: seq<State>, acts: seq<Action>, n: nat)
    requires n <= |acts| < |run|
  {
    exists i | 0 <= i < n :: Strands(run[i], acts[i]) && NoPush(acts, i + 1, n)
  }

  ghost predicate NoPush(acts: seq<Action>, i: nat, n: nat)
    requires n <= |acts|
  {
    forall j | i <= j < n :: !acts[j].Push?
  }

  lemma StrandedSinceStep(run: seq<State>, acts: seq<Action>, n: nat)
    requires 0 < n <= |acts| < |run|
    ensures StrandedSince(run, acts, n)
       <==> Strands(run[n - 1], acts[n - 1]) || (StrandedSince(run, acts, n - 1) && !acts[n - 1].Push?)
  {
    if i :| 0 <= i < n && Strands(run[i], acts[i]) && NoPush(acts, i + 1, n) {
      assert i < n - 1 ==> NoPush(acts, i + 1, n - 1);
    }
    if Strands(run[n - 1], acts[n - 1]) {
      assert NoPush(acts, n, n);
    }
    if StrandedSince(run, acts, n - 1) && !acts[n - 1].Push? {
      var i :| 0 <= i < n - 1 && Strands(run[i], acts[i]) && NoPush(acts, i + 1, n - 1);
      assert NoPush(acts, i + 1, n);
    }
  }

  // ---------- what a stale mark leads to ----------

  /** All of todo can be taken from s, one after the other. */
  ghost predicate CanTake(s: State, todo: seq<Action>)
    decreases |todo|
  {
    todo == [] || (Enabled(s, todo[0]) && CanTake(Apply(s, todo[0]), todo[1..]))
  }

  ghost function After(s: State, todo: seq<Action>): State
    requires CanTake(s, todo)
    decreases |todo|
  {
    if todo == [] then s else After(Apply(s, todo[0]), todo[1..])
  }

  lemma TakeOne(s: State, a: Action, rest: seq<Action>)
    requires Enabled(s, a) && CanTake(Apply(s, a), rest)
    ensures CanTake(s, [a] + rest) && After(s, [a] + rest) == After(Apply(s, a), rest)
  {
    assert ([a] + rest)[1..] == rest;
  }

  lemma {:induction false} TakeBoth(s: State, a: seq<Action>, b: seq<Action>)
    requires CanTake(s, a) && CanTake(After(s, a), b)
    ensures CanTake(s, a + b) && After(s, a + b) == After(After(s, a), b)
    decreases |a|
  {
    if a == [] {
      assert a + b == b;
    } else {
      TakeBoth(Apply(s, a[0]), a[1..], b);
      assert [a[0]] + (a[1..] + b) == a + b;
      TakeOne(s, a[0], a[1..] + b);
    }
  }

  function Schedule(t: Tid): seq<Action> { [Mark(t)] + ([BlockBox(t)] + ([Refer(t)] + ([HandOver(t)] + []))) }

  function Blocked(b: Box): Box { if b == EmptyBox then BlockedBox else b }

  /** What a sender does from its mark to its hand-over. */
  lemma ScheduleEffect(s: State, t: Tid)
    requires SenderAt(s, t, SMarking)
    ensures CanTake(s, Schedule(t))
    ensures After(s, Schedule(t)) ==
      s.(flag := Busy, box := Blocked(s.box), rc := s.rc + 1, jobs := s.jobs + 1, senders := s.senders - {t})
  {
    var s1 := Apply(s, Mark(t));
    var s2 := Apply(s1, BlockBox(t));
    var s3 := Apply(s2, Refer(t));
    TakeOne(s3, HandOver(t), []);
    TakeOne(s2, Refer(t), [HandOver(t)] + []);
    TakeOne(s1, BlockBox(t), [Refer(t)] + ([HandOver(t)] + []));
    TakeOne(s, Mark(t), [BlockBox(t)] + ([Refer(t)] + ([HandOver(t)] + [])));
    assert Apply(s3, HandOver(t)).senders == s.senders - {t};
  }

  /** A sender that has found the flag empty and is then held up: what it does next keeps the invariant exactly
      when the flag is still empty and some message is still in the mailbox. */
  lemma LateHandOverIsGoodIff(s: State, t: Tid, p: Place)
    requires Inv(s, p) && SenderAt(s, t, SMarking)
    ensures CanTake(s, Schedule(t))
    ensures (exists p' :: Inv(After(s, Schedule(t)), p')) <==> s.flag == Empty && s.box.Messages?
  {
    ScheduleEffect(s, t);
    var s' := After(s, Schedule(t));
    assert Releasing(s') == Releasing(s);
    if s.flag == Empty && s.box.Messages? {
      assert forall u :: Schedules(s', u) ==> Schedules(s, u);
      assert forall u :: SenderAt(s', u, SHanding) ==> SenderAt(s, u, SHanding);
      assert forall w :: Runs(s', w) ==> Runs(s, w);
      assert Inv(s', InList);
    } else {
      forall p'
        ensures !Inv(s', p')
      {
        HandedOverTwice(s, t, p, s', p');
      }
    }
  }

  lemma HandedOverTwice(s: State, t: Tid, p: Place, s': State, p': Place)
    requires Inv(s, p) && SenderAt(s, t, SMarking) && !(s.flag == Empty && s.box.Messages?)
    requires s' == s.(flag := Busy, box := Blocked(s.box), rc := s.rc + 1, jobs := s.jobs + 1, senders := s.senders - {t})
    ensures !Inv(s', p')
  {
    match p {
      case Nowhere =>
      case Scheduling(u) => assert Schedules(s, u) && Schedules(s', u);
      case WithSender(u) => assert SenderAt(s, u, SHanding) && SenderAt(s', u, SHanding);
      case InList =>
      case WithWorker(w) => assert Runs(s, w) && Runs(s', w);
    }
  }

  /** Two references to the actor as a job: two workers can run it at once. */
  ghost predicate TwoJobs(s: State) { s.jobs >= 2 || (s.jobs >= 1 && exists w :: Runs(s, w)) }

  /** A worker may fetch, and fetch_new_data's assertion would fail. */
  ghost predicate FetchFails(s: State) { exists w :: Enabled(s, Fetch(w)) && !Asserted(s, Fetch(w)) }

  /** A scheduling sender, or one about to hand over, gets its reference into the job list. */
  lemma FinishHandOver(s: State, u: Tid) returns (todo: seq<Action>)
    requires Schedules(s, u) || SenderAt(s, u, SHanding)
    ensures CanTake(s, todo) && After(s, todo).jobs == s.jobs + 1
    decreases if SenderAt(s, u, SHanding) then 0 else if SenderAt(s, u, SReferring) then 1 else 2
  {
    if SenderAt(s, u, SHanding) {
      todo := [HandOver(u)] + [];
      TakeOne(s, HandOver(u), []);
    } else if SenderAt(s, u, SReferring) {
      var rest := FinishHandOver(Apply(s, Refer(u)), u);
      TakeOne(s, Refer(u), rest);
      todo := [Refer(u)] + rest;
    } else {
      var rest := FinishHandOver(Apply(s, BlockBox(u)), u);
      TakeOne(s, BlockBox(u), rest);
      todo := [BlockBox(u)] + rest;
    }
  }

  lemma IdleWorker(used: set<Wid>) returns (v: Wid)
    ensures v !in used
  {
    v := 0;
    var below: set<Wid> := {};
    while v in used
      invariant below <= used && |below| == v && forall w <- below :: w < v
      decreases |used - below|
    {
      assert used - (below + {v}) < used - below;
      below, v := below + {v}, v + 1;
    }
  }

  /** A stale mark is never merely a blemish: from it the senders and one worker alone reach a state with two job
      references, or one in which a fetch fails its assertion. */
  lemma StaleMarkCanBreak(s: State, p: Place, t: Tid) returns (todo: seq<Action>)
    requires Inv(s, p) && SenderAt(s, t, SMarking) && !Fresh(s, Mark(t))
    ensures CanTake(s, Schedule(t) + todo)
    ensures TwoJobs(After(s, Schedule(t) + todo)) || FetchFails(After(s, Schedule(t) + todo))
  {
    ScheduleEffect(s, t);
    var s' := After(s, Schedule(t));
    todo := [];
    match p {
      case Nowhere =>
        var v := IdleWorker(s'.workers.Keys);
        todo := [Dequeue(v)] + [];
        TakeOne(s', Dequeue(v), []);
        assert Enabled(After(s', todo), Fetch(v));
      case Scheduling(u) =>
        assert Schedules(s, u) && Schedules(s', u);
        todo := FinishHandOver(s', u);
      case WithSender(u) =>
        assert SenderAt(s, u, SHanding) && SenderAt(s', u, SHanding);
        todo := FinishHandOver(s', u);
      case InList =>
      case WithWorker(w) => assert Runs(s, w) && Runs(s', w);
    }
    TakeBoth(s, Schedule(t), todo);
  }

  // ---------- a scheduled actor comes to rest ----------

  /** Steps until the actor is idle, taken by whoever is responsible for it. */
  function StepsToRest(s: State, p: Place): nat {
    match p
    case Nowhere => 0
    case Scheduling(t) => if SenderAt(s, t, SBlocking) then 6 else 5
    case WithSender(_) => 4
    case InList => 3
    case WithWorker(w) => if WorkerAt(s, w, WRunning) then 2 else 1
  }

  /** From every state that satisfies the invariant the one responsible - sender, job list, worker - brings the actor to
      rest within six steps: it runs, returns, and the release clears the flag. */
  lemma {:induction false} ComesToRest(s: State, p: Place) returns (todo: seq<Action>)
    requires Inv(s, p)
    ensures |todo| == StepsToRest(s, p) <= 6 && CanTake(s, todo)
    ensures Inv(After(s, todo), Nowhere) && After(s, todo).flag == Empty
    decreases StepsToRest(s, p)
  {
    var a: Action;
    match p {
      case Nowhere => return [];
      case Scheduling(t) =>
        assert Schedules(s, t);
        a := if SenderAt(s, t, SBlocking) then BlockBox(t) else Refer(t);
      case WithSender(t) =>
        assert SenderAt(s, t, SHanding);
        a := HandOver(t);
      case InList =>
        var v := IdleWorker(s.workers.Keys);
        a := Dequeue(v);
      case WithWorker(w) =>
        assert Runs(s, w);
        a := if WorkerAt(s, w, WRunning) then Return(w) else ClearFlag(w);
    }
    StepKeepsInv(s, p, a);
    var rest := ComesToRest(Apply(s, a), NextPlace(s, p, a));
    TakeOne(s, a, rest);
    todo := [a] + rest;
  }

  /** A release, once it has cleared the flag, unblocks the mailbox, gives its reference up and is over. */
  lemma ReleaseEnds(s: State, w: Wid)
    requires WorkerAt(s, w, WUnblocking)
    ensures CanTake(s, [UnblockBox(w)] + ([Drop(w)] + []))
    ensures var s' := After(s, [UnblockBox(w)] + ([Drop(w)] + []));
      s' == s.(box := if s.box == BlockedBox then EmptyBox else s.box, rc := s.rc - 1, workers := s.workers - {w})
  {
    var s1 := Apply(s, UnblockBox(w));
    TakeOne(s1, Drop(w), []);
    TakeOne(s, UnblockBox(w), [Drop(w)] + []);
    assert Apply(s1, Drop(w)).workers == s.workers - {w};
  }
}
