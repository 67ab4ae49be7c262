/**
 What holds over every run of the executor: each job occurrence is in exactly one place and released once,
 dispatch follows the enqueue order, and stop shuts every worker down exactly once, one at a time.
 */
module ExecutorRuns {
  import opened Executor
  import opened Common

  // ---------- histories ----------

  ghost function Posted(run: seq<State>, acts: seq<Action>, n: nat): seq<Job>
    requires IsRun(run, acts) && n <= |acts|
  {
    if n == 0 then [] else
      assert Follows(run, acts, n - 1);
      Posted(run, acts, n - 1) + Posts(run[n - 1], acts[n - 1])
  }

  ghost function Dispatched(run: seq<State>, acts: seq<Action>, n: nat): seq<Job>
    requires IsRun(run, acts) && n <= |acts|
  {
    if n == 0 then [] else
      assert Follows(run, acts, n - 1);
      Dispatched(run, acts, n - 1) + Dispatches(run[n - 1], acts[n - 1])
  }

  ghost function Released(run: seq<State>, acts: seq<Action>, n: nat): seq<Job>
    requires IsRun(run, acts) && n <= |acts|
  {
    if n == 0 then [] else
      assert Follows(run, acts, n - 1);
      Released(run, acts, n - 1) + Releases(run[n - 1], acts[n - 1])
  }

  // ---------- each occurrence in exactly one place ----------

  lemma OccursNever(js: seq<Job>, j: Job)
    requires forall i | 0 <= i < |js| :: js[i] != j
    ensures Occurs(js, j) == 0
  {}

  lemma OccursOnce(js: seq<Job>, j: Job, k: nat)
    requires k < |js| && forall i | 0 <= i < |js| :: js[i] == j <==> i == k
    ensures Occurs(js, j) == 1
  {
    assert js == js[..k] + [js[k]] + js[k + 1..];
    OccursNever(js[..k], j);
    OccursNever(js[k + 1..], j);
  }

  datatype Place = Listed(i: nat) | HeldBy(w: Wid) | Gone

  ghost predicate ListedAt(s: State, j: Job, p: Place) {
    (forall i | 0 <= i < |s.list| :: s.list[i] == j <==> p == Listed(i)) && (p.Listed? ==> p.i < |s.list|)
  }

  ghost predicate HeldAt(s: State, j: Job, p: Place) {
    forall w :: WorkerIs(s, w, Running(j)) <==> p == HeldBy(w)
  }

  /** All occurrences of job j are the one at p. */
  ghost predicate OnlyAt(s: State, j: Job, p: Place) { ListedAt(s, j, p) && HeldAt(s, j, p) }

  function NextPlace(s: State, j: Job, p: Place, a: Action): Place
    requires Enabled(s, a)
  {
    match a
    case Execute => if j == User(s.next) then Listed(|s.list|) else p
    case Dequeue(w) => if p == Listed(0) then HeldBy(w) else if p.Listed? && p.i > 0 then Listed(p.i - 1) else p
    case Finish(w, r) => if p == HeldBy(w) then (if r == Resume then Listed(|s.list|) else Gone) else p
    case RunShutdown(w) => if p == HeldBy(w) then Gone else p
    case Post => if j == Shutdown then Listed(|s.list|) else p
    case Join => if p.Listed? then Gone else p
    case _ => p
  }

  lemma PlaceStep(s: State, j: Job, p: Place, a: Action)
    requires Enabled(s, a) && OnlyAt(s, j, p)
    requires a == Execute && j == User(s.next) ==> p == Gone
    requires a == Post && j == Shutdown ==> p == Gone
    ensures OnlyAt(Apply(s, a), j, NextPlace(s, j, p, a))
  {
    PlaceListed(s, j, p, a);
    PlaceHeld(s, j, p, a);
  }

  lemma PlaceListed(s: State, j: Job, p: Place, a: Action)
    requires Enabled(s, a) && OnlyAt(s, j, p)
    requires a == Execute && j == User(s.next) ==> p == Gone
    requires a == Post && j == Shutdown ==> p == Gone
    ensures ListedAt(Apply(s, a), j, NextPlace(s, j, p, a))
  {}

  lemma PlaceHeld(s: State, j: Job, p: Place, a: Action)
    requires Enabled(s, a) && OnlyAt(s, j, p)
    requires a == Execute && j == User(s.next) ==> p == Gone
    requires a == Post && j == Shutdown ==> p == Gone
    ensures HeldAt(Apply(s, a), j, NextPlace(s, j, p, a))
  {}

  lemma ReleaseStep(s: State, k: Token, p: Place, a: Action)
    requires Enabled(s, a) && OnlyAt(s, User(k), p)
    ensures Occurs(Releases(s, a), User(k)) ==
      if p != Gone && NextPlace(s, User(k), p, a) == Gone then 1 else 0
  {
    var j := User(k);
    if a.Finish? && a.r != Resume {
      assert Releases(s, a) == [s.workers[a.w].job];
      assert WorkerIs(s, a.w, Running(j)) <==> s.workers[a.w].job == j;
      assert [s.workers[a.w].job][..0] == [];
    } else if a.Join? {
      if p.Listed? { OccursOnce(s.list, j, p.i); } else { OccursNever(s.list, j); }
    } else {
      assert Releases(s, a) == [];
    }
  }

  /** Job conservation: at every moment of every run each occurrence handed to execute is at exactly one position
      of the shared list, or held by exactly one worker, or its reference has been released - exactly once. */
  lemma {:induction false} EveryOccurrenceInOnePlace(run: seq<State>, acts: seq<Action>, n: nat, k: Token) returns (p: Place)
    requires IsRun(run, acts) && n <= |acts|
    ensures OnlyAt(run[n], User(k), p)
    ensures k >= run[n].next ==> p == Gone
    ensures Occurs(Released(run, acts, n), User(k)) == if k < run[n].next && p == Gone then 1 else 0
  {
    if n == 0 {
      p := Gone;
    } else {
      var s, a := run[n - 1], acts[n - 1];
      p := EveryOccurrenceInOnePlace(run, acts, n - 1, k);
      assert Follows(run, acts, n - 1);
      PlaceStep(s, User(k), p, a);
      ReleaseStep(s, k, p, a);
      OccursAppend(Released(run, acts, n - 1), Releases(s, a), User(k));
      p := NextPlace(s, User(k), p, a);
    }
  }

  // ---------- dispatch order ----------

  /** One step of the list as a queue. */
  lemma ListStep(s: State, a: Action)
    requires Enabled(s, a) && a != Join
    ensures Dispatches(s, a) + Apply(s, a).list == s.list + Posts(s, a)
  {
    if a.Dequeue? {
      assert s.list == [s.list[0]] + s.list[1..];
    }
  }

  /** Until the workers are joined, what has been dispatched followed by the list is what has been enqueued, in
      that order: jobs are dispatched first in, first out. */
  lemma {:induction false} DispatchIsFifo(run: seq<State>, acts: seq<Action>, n: nat)
    requires IsRun(run, acts) && n <= |acts| && run[n].coordinator != Finished
    ensures Dispatched(run, acts, n) + run[n].list == Posted(run, acts, n)
  {
    if n > 0 {
      var s, a := run[n - 1], acts[n - 1];
      assert Follows(run, acts, n - 1);
      DispatchIsFifo(run, acts, n - 1);
      ListStep(s, a);
      FifoExtends(Dispatched(run, acts, n - 1), Dispatches(s, a), run[n].list, s.list, Posts(s, a));
    }
  }

  lemma {:induction false} PostedGrows(run: seq<State>, acts: seq<Action>, m: nat, n: nat)
    requires IsRun(run, acts) && m <= n <= |acts|
    ensures Posted(run, acts, m) <= Posted(run, acts, n)
    decreases n
  {
    if m < n {
      PostedGrows(run, acts, m, n - 1);
    }
  }

  lemma {:induction false} OnlyUserJobsBeforeStop(run: seq<State>, acts: seq<Action>, m: nat)
    requires IsRun(run, acts) && m <= |acts| && run[m].coordinator == Started
    ensures Shutdown !in Posted(run, acts, m) && forall w <- run[m].workers :: run[m].workers[w] != Running(Shutdown)
  {
    if m > 0 {
      assert Follows(run, acts, m - 1);
      OnlyUserJobsBeforeStop(run, acts, m - 1);
      DispatchIsFifo(run, acts, m - 1);
      var s, a := run[m - 1], acts[m - 1];
      if a.Dequeue? {
        assert s.list[0] in Posted(run, acts, m - 1);
      } else if a == Post {
        assert false;
      } else if a.Finish? {
        assert Posts(s, a) == [] || Posts(s, a)[0].User?;
      }
    }
  }

  /** Every job enqueued before stop is dispatched before the first shutdown: when a worker is handed the
      shutdown job, all of what had been enqueued when stop began has been handed out. */
  lemma QueuedBeforeStopGoesFirst(run: seq<State>, acts: seq<Action>, m: nat, n: nat)
    requires IsRun(run, acts) && m <= n < |acts| && acts[m] == StopBegin
    requires acts[n].Dequeue? && run[n].list != [] && run[n].list[0] == Shutdown && run[n].coordinator != Finished
    ensures Posted(run, acts, m) <= Dispatched(run, acts, n)
  {
    assert Follows(run, acts, m);
    OnlyUserJobsBeforeStop(run, acts, m);
    DispatchIsFifo(run, acts, n);
    PostedGrows(run, acts, m, n);
    var before, d, all := Posted(run, acts, m), Dispatched(run, acts, n), Posted(run, acts, n);
    assert all[|d|] == Shutdown;
    assert forall i | 0 <= i < |before| :: before[i] == all[i] && before[i] != Shutdown;
    assert d == all[..|d|];
  }

  // ---------- the shutdown handshake ----------

  /** Where the shutdown in flight is: not posted, in the list, with a worker, or answered through last_worker. */
  datatype Signal = NoSignal | InList(i: nat) | WithWorker(w: Wid) | Answered(w: Wid)

  predicate Ended(s: State, w: Wid) { WorkerIs(s, w, Leaving) || WorkerIs(s, w, Stopped) }

  ghost predicate OnlySignal(s: State, g: Signal) {
    && (forall i | 0 <= i < |s.list| :: s.list[i] == Shutdown <==> g == InList(i))
    && (g.InList? ==> g.i < |s.list|)
    && (forall w :: WorkerIs(s, w, Running(Shutdown)) <==> g == WithWorker(w))
    && s.lastWorker == (if g.Answered? then Some(g.w) else None)
  }

  /** At most one shutdown is in flight, and only while stop waits for it; alive_workers are the workers that have
      not been acknowledged as stopped. */
  ghost predicate Handshake(s: State, g: Signal) {
    && OnlySignal(s, g)
    && (g.Answered? ==> Ended(s, g.w))
    && (match s.coordinator
        case Expecting => g != NoSignal
        case Erasing(w) => g == Answered(w)
        case _ => g == NoSignal)
    && (if s.coordinator == Started then forall w :: !Ended(s, w)
        else forall w :: w in s.alive <==> w in s.workers && (!Ended(s, w) || g == Answered(w)))
    && (s.coordinator == Expecting ==> s.alive != {})
    && (s.coordinator == Joining || s.coordinator == Finished ==> s.alive == {})
    && (s.coordinator == Finished ==> forall w <- s.workers :: s.workers[w] == Stopped)
  }

  function NextSignal(s: State, g: Signal, a: Action): Signal
    requires Enabled(s, a)
  {
    match a
    case Post => InList(|s.list|)
    case Dequeue(w) => if g == InList(0) then WithWorker(w) else if g.InList? && g.i > 0 then InList(g.i - 1) else g
    case RunShutdown(w) => Answered(w)
    case Erase => NoSignal
    case _ => g
  }

  lemma SignalStep(s: State, g: Signal, a: Action)
    requires Handshake(s, g) && Enabled(s, a)
    ensures OnlySignal(Apply(s, a), NextSignal(s, g, a))
  {}

  lemma HandshakeStep(s: State, g: Signal, a: Action)
    requires Handshake(s, g) && Enabled(s, a)
    ensures Handshake(Apply(s, a), NextSignal(s, g, a))
  {
    SignalStep(s, g, a);
    var s' := Apply(s, a);
    forall w
      ensures Ended(s', w) <==> Ended(s, w) || a == RunShutdown(w)
    {}
  }

  /** The handshake invariant, over every run. */
  lemma {:induction false} HandshakeAlways(run: seq<State>, acts: seq<Action>, n: nat) returns (g: Signal)
    requires IsRun(run, acts) && n <= |acts|
    ensures Handshake(run[n], g)
  {
    if n == 0 {
      g := NoSignal;
    } else {
      g := HandshakeAlways(run, acts, n - 1);
      assert Follows(run, acts, n - 1);
      HandshakeStep(run[n - 1], g, acts[n - 1]);
      g := NextSignal(run[n - 1], g, acts[n - 1]);
    }
  }

  /** A run grown by one step. */
  lemma Extend(run: seq<State>, acts: seq<Action>, a: Action) returns (run': seq<State>)
    requires IsRun(run, acts) && Enabled(run[|acts|], a)
    ensures IsRun(run', acts + [a]) && run' == run + [Apply(run[|acts|], a)]
  {
    run' := run + [Apply(run[|acts|], a)];
    forall i | 0 <= i < |acts + [a]|
      ensures Follows(run', acts + [a], i)
    {
      if i < |acts| {
        assert Follows(run, acts, i);
      }
    }
  }

  /** A step of a worker; what a user job's run returns is not the worker's choice. */
  predicate ByWorker(s: State, a: Action, answers: State -> Result) {
    a.Dequeue? || a.RunShutdown? || (a.Finish? && a.r == answers(s))
  }

  /** A step of stop, or of a worker whose loop is over. */
  predicate ByStop(a: Action) { a.Post? || a.Notice? || a.Erase? || a.LeaveLoop? || a.Join? || a.Leave? }

  /** run' is the run of acts, continued through the actions more by workers alone, or by stop as well. */
  ghost predicate Continues(run: seq<State>, acts: seq<Action>, run': seq<State>, more: seq<Action>,
                            answers: State -> Result, stopToo: bool)
    requires |run| == |acts| + 1
  {
    && IsRun(run', acts + more) && run <= run'
    && forall i | 0 <= i < |more| :: ByWorker(run'[|acts| + i], more[i], answers) || (stopToo && ByStop(more[i]))
  }

  /** Steps that worker w needs to bring about the answer. */
  function StepsToAnswer(s: State, g: Signal, w: Wid): nat {
    match g
    case InList(i) => 2 * i + if WorkerIs(s, w, Waiting) then 2 else 3
    case WithWorker(_) => 1
    case _ => 0
  }

  function NextTowardsAnswer(s: State, g: Signal, w: Wid, answers: State -> Result): Action {
    match g
    case WithWorker(v) => RunShutdown(v)
    case _ => if WorkerIs(s, w, Waiting) then Dequeue(w) else Finish(w, answers(s))
  }

  /** Any worker that has not ended can take the next step, and is one step nearer afterwards. */
  lemma OneStepNearer(s: State, g: Signal, w: Wid, answers: State -> Result)
    requires Handshake(s, g) && s.coordinator == Expecting && (g.InList? || g.WithWorker?)
    requires w in s.workers && !Ended(s, w)
    ensures var a := NextTowardsAnswer(s, g, w, answers);
      && Enabled(s, a) && ByWorker(s, a, answers)
      && Apply(s, a).coordinator == Expecting && w in Apply(s, a).workers
      && (NextSignal(s, g, a).InList? ==> !Ended(Apply(s, a), w))
      && StepsToAnswer(Apply(s, a), NextSignal(s, g, a), w) == StepsToAnswer(s, g, w) - 1
  {
    match g {
      case WithWorker(v) => assert WorkerIs(s, v, Running(Shutdown));
      case InList(i) => assert !WorkerIs(s, w, Running(Shutdown));
    }
  }

  lemma {:induction false} WorkersReachAnswer(run: seq<State>, acts: seq<Action>, g: Signal, w: Wid, answers: State -> Result)
    returns (run': seq<State>, more: seq<Action>)
    requires IsRun(run, acts) && run[|acts|].coordinator == Expecting && Handshake(run[|acts|], g)
    requires w in run[|acts|].workers && (g.InList? ==> !Ended(run[|acts|], w))
    ensures Continues(run, acts, run', more, answers, false)
    ensures |more| == StepsToAnswer(run[|acts|], g, w)
    ensures run'[|acts + more|].lastWorker != None
    decreases StepsToAnswer(run[|acts|], g, w)
  {
    var s := run[|acts|];
    if g.Answered? {
      run', more := run, [];
      assert acts + more == acts;
    } else {
      var v := if g.WithWorker? then g.w else w;
      assert g.WithWorker? ==> WorkerIs(s, v, Running(Shutdown));
      var a := NextTowardsAnswer(s, g, v, answers);
      OneStepNearer(s, g, v, answers);
      HandshakeStep(s, g, a);
      var run1 := Extend(run, acts, a);
      var rest;
      run', rest := WorkersReachAnswer(run1, acts + [a], NextSignal(s, g, a), v, answers);
      more := [a] + rest;
      Prepend(run, acts, run1, a, run', rest, answers, false);
    }
  }

  lemma Prepend(run: seq<State>, acts: seq<Action>, run1: seq<State>, a: Action, run': seq<State>, rest: seq<Action>,
                answers: State -> Result, stopToo: bool)
    requires IsRun(run, acts) && |run1| == |acts + [a]| + 1 && run <= run1
    requires ByWorker(run[|acts|], a, answers) || (stopToo && ByStop(a))
    requires Continues(run1, acts + [a], run', rest, answers, stopToo)
    ensures (acts + [a]) + rest == acts + ([a] + rest)
    ensures Continues(run, acts, run', [a] + rest, answers, stopToo)
  {
    assert (acts + [a]) + rest == acts + ([a] + rest);
    var more := [a] + rest;
    forall i | 0 <= i < |more|
      ensures ByWorker(run'[|acts| + i], more[i], answers) || (stopToo && ByStop(more[i]))
    {
      if i > 0 {
        assert ByWorker(run'[|acts + [a]| + (i - 1)], rest[i - 1], answers) || (stopToo && ByStop(rest[i - 1]));
      } else {
        assert run'[|acts|] == run1[|acts|] == run[|acts|];
      }
    }
  }

  /** stop never waits for something that does not come.  From every moment at which it expects the answer, whatever
      results user jobs return - as long as they return - workers alone bring last_worker about within a number of steps
      bounded by the shutdown's position in the list. */
  lemma StopIsNeverStuck(run: seq<State>, acts: seq<Action>, answers: State -> Result)
    returns (g: Signal, run': seq<State>, more: seq<Action>)
    requires IsRun(run, acts) && run[|acts|].coordinator == Expecting
    ensures OnlySignal(run[|acts|], g)
    ensures Continues(run, acts, run', more, answers, false) && run'[|acts + more|].lastWorker != None
    ensures |more| <= match g { case InList(i) => 2 * i + 3 case WithWorker(_) => 1 case _ => 0 }
  {
    g := HandshakeAlways(run, acts, |acts|);
    var s := run[|acts|];
    var w :| w in s.alive;
    run', more := WorkersReachAnswer(run, acts, g, w, answers);
  }

  // ---------- and stop comes to its end ----------

  function Busy(s: State): set<Wid> { set w | w in s.workers && s.workers[w].Running? }

  function Present(s: State): set<Wid> { set w | w in s.workers && s.workers[w] != Stopped }

  /** User jobs that are in the list or running. */
  function UserJobs(s: State, g: Signal): int {
    |s.list| + |Busy(s)| - if g.InList? || g.WithWorker? then 1 else 0
  }

  lemma BusyStep(s: State, a: Action)
    requires Enabled(s, a)
    ensures |Busy(Apply(s, a))| == |Busy(s)| + if a.Dequeue? then 1 else if a.Finish? || a.RunShutdown? then -1 else 0
  {
    var now, next := Busy(s), Busy(Apply(s, a));
    if a.Dequeue? {
      assert next == now + {a.w};
    } else if a.Finish? || a.RunShutdown? {
      assert next == now - {a.w};
    } else {
      assert next == now;
    }
  }

  lemma PresentStep(s: State, a: Action)
    requires Enabled(s, a)
    ensures |Present(Apply(s, a))| == |Present(s)| - if a.Leave? then 1 else 0
  {
    var now, next := Present(s), Present(Apply(s, a));
    if a.Leave? {
      assert next == now - {a.w};
    } else {
      assert next == now;
    }
  }

  /** Only execute adds a user job. */
  lemma UserJobsStep(s: State, g: Signal, a: Action)
    requires Handshake(s, g) && Enabled(s, a) && a != Execute
    ensures 0 <= UserJobs(s, g)
    ensures UserJobs(Apply(s, a), NextSignal(s, g, a)) <= UserJobs(s, g)
  {
    BusyStep(s, a);
    if g.WithWorker? {
      assert WorkerIs(s, g.w, Running(Shutdown));
      assert g.w in Busy(s);
    }
  }

  /** A bound on the steps one round of stop's loop takes. */
  function RoundSteps(s: State, g: Signal): int { 2 * UserJobs(s, g) + 6 }

  /** A bound on the steps until stop has finished; w is the worker that works towards the answer. */
  function StepsToEnd(s: State, g: Signal, w: Wid): int {
    var last := |Present(s)| + 2;
    match s.coordinator
    case Looping => |s.alive| * RoundSteps(s, g) + last
    case Expecting => (|s.alive| - 1) * RoundSteps(s, g) + StepsToAnswer(s, g, w) + 2 + last
    case Erasing(_) => (|s.alive| - 1) * RoundSteps(s, g) + 1 + last
    case Joining => |Present(s)| + 1
    case _ => 0
  }

  lemma FewerRounds(n: int, k': int, k: int)
    requires n >= 0 && k' <= k
    ensures n * k' <= n * k
  {}

  lemma OneRoundLess(n: int, k: int)
    ensures n * k == (n - 1) * k + k
  {}

  lemma StepsAreLeft(s: State, g: Signal, w: Wid)
    requires Handshake(s, g)
    ensures StepsToEnd(s, g, w) >= 0
  {
    if g.WithWorker? {
      assert WorkerIs(s, g.w, Running(Shutdown));
      assert g.w in Busy(s);
    }
    if s.coordinator.Erasing? {
      assert Ended(s, g.w) && g.w in s.alive;
    }
    if s.coordinator == Looping {
      FewerRounds(|s.alive|, 0, RoundSteps(s, g));
    } else if s.coordinator == Expecting || s.coordinator.Erasing? {
      FewerRounds(|s.alive| - 1, 0, RoundSteps(s, g));
    }
  }

  /** w can work towards the answer. */
  predicate CanWork(s: State, g: Signal, w: Wid) {
    s.coordinator == Expecting && g.InList? ==> w in s.workers && !Ended(s, w)
  }

  /** a is a step of stop, or of a worker on its behalf, that brings the end nearer. */
  ghost predicate NearsEnd(s: State, g: Signal, w: Wid, a: Action, w': Wid, answers: State -> Result) {
    && Enabled(s, a) && (ByWorker(s, a, answers) || ByStop(a)) && Apply(s, a).coordinator != Started
    && (Apply(s, a).coordinator == Finished ==> Apply(s, a).list == [])
    && CanWork(Apply(s, a), NextSignal(s, g, a), w')
    && StepsToEnd(Apply(s, a), NextSignal(s, g, a), w') < StepsToEnd(s, g, w)
  }

  lemma NextInLoop(s: State, g: Signal, w: Wid, answers: State -> Result) returns (a: Action, w': Wid)
    requires Handshake(s, g) && s.coordinator == Looping
    ensures NearsEnd(s, g, w, a, w', answers)
  {
    w' := w;
    if s.alive == {} {
      a := LeaveLoop;
      PresentStep(s, a);
    } else {
      a := Post;
      w' :| w' in s.alive;
      PresentStep(s, a);
      UserJobsStep(s, g, a);
      FewerRounds(|s.alive| - 1, RoundSteps(Apply(s, a), NextSignal(s, g, a)), RoundSteps(s, g));
      OneRoundLess(|s.alive|, RoundSteps(s, g));
      assert !Ended(s, w');
    }
  }

  lemma NextExpecting(s: State, g: Signal, w: Wid, answers: State -> Result) returns (a: Action)
    requires Handshake(s, g) && s.coordinator == Expecting && CanWork(s, g, w)
    ensures NearsEnd(s, g, w, a, w, answers)
  {
    if g.Answered? {
      a := Notice;
    } else {
      var v := if g.WithWorker? then g.w else w;
      assert g.WithWorker? ==> WorkerIs(s, v, Running(Shutdown));
      a := NextTowardsAnswer(s, g, v, answers);
      OneStepNearer(s, g, v, answers);
    }
    PresentStep(s, a);
    UserJobsStep(s, g, a);
    FewerRounds(|s.alive| - 1, RoundSteps(Apply(s, a), NextSignal(s, g, a)), RoundSteps(s, g));
  }

  lemma NextErasing(s: State, g: Signal, w: Wid, answers: State -> Result)
    requires Handshake(s, g) && s.coordinator.Erasing?
    ensures NearsEnd(s, g, w, Erase, w, answers)
  {
    assert Ended(s, g.w) && s.coordinator.w in s.alive;
    PresentStep(s, Erase);
    UserJobsStep(s, g, Erase);
    assert |Apply(s, Erase).alive| == |s.alive| - 1;
    FewerRounds(|s.alive| - 1, RoundSteps(Apply(s, Erase), NoSignal), RoundSteps(s, g));
  }

  lemma NextJoining(s: State, g: Signal, w: Wid, answers: State -> Result) returns (a: Action)
    requires Handshake(s, g) && s.coordinator == Joining
    ensures NearsEnd(s, g, w, a, w, answers)
  {
    forall v <- s.workers
      ensures WorkerIs(s, v, Leaving) || WorkerIs(s, v, Stopped)
    {
      assert v !in s.alive;
      assert Ended(s, v);
    }
    if v :| WorkerIs(s, v, Leaving) {
      a := Leave(v);
    } else {
      a := Join;
    }
    PresentStep(s, a);
  }

  lemma {:induction false} StopGoesOn(run: seq<State>, acts: seq<Action>, g: Signal, w: Wid, answers: State -> Result)
    returns (run': seq<State>, more: seq<Action>)
    requires IsRun(run, acts) && Handshake(run[|acts|], g) && run[|acts|].coordinator != Started && CanWork(run[|acts|], g, w)
    requires run[|acts|].coordinator == Finished ==> run[|acts|].list == []
    ensures Continues(run, acts, run', more, answers, true)
    ensures run'[|acts + more|].coordinator == Finished && run'[|acts + more|].list == []
    ensures |more| <= StepsToEnd(run[|acts|], g, w)
    decreases StepsToEnd(run[|acts|], g, w)
  {
    var s := run[|acts|];
    StepsAreLeft(s, g, w);
    if s.coordinator == Finished {
      run', more := run, [];
      assert acts + more == acts;
      return;
    }
    var a, w' := Erase, w;
    if s.coordinator == Looping {
      a, w' := NextInLoop(s, g, w, answers);
    } else if s.coordinator == Expecting {
      a := NextExpecting(s, g, w, answers);
    } else if s.coordinator == Joining {
      a := NextJoining(s, g, w, answers);
    } else {
      NextErasing(s, g, w, answers);
    }
    HandshakeStep(s, g, a);
    StepsAreLeft(Apply(s, a), NextSignal(s, g, a), w');
    var run1 := Extend(run, acts, a);
    var rest;
    run', rest := StopGoesOn(run1, acts + [a], NextSignal(s, g, a), w', answers);
    more := [a] + rest;
    Prepend(run, acts, run1, a, run', rest, answers, true);
  }

  /** stop comes to its end.  From every moment after it has begun, whatever results user jobs return - as long as they
      return - stop and the workers reach Finished within a bounded number of steps: every worker has left its loop,
      and the list is empty. */
  lemma StopFinishes(run: seq<State>, acts: seq<Action>, answers: State -> Result)
    returns (g: Signal, w: Wid, run': seq<State>, more: seq<Action>)
    requires IsRun(run, acts) && run[|acts|].coordinator != Started && run[|acts|].coordinator != Finished
    ensures Handshake(run[|acts|], g) && Continues(run, acts, run', more, answers, true)
    ensures |more| <= StepsToEnd(run[|acts|], g, w)
    ensures var end := run'[|acts + more|];
      end.coordinator == Finished && end.list == [] && forall v <- end.workers :: end.workers[v] == Stopped
  {
    g := HandshakeAlways(run, acts, |acts|);
    var s := run[|acts|];
    w := 0;
    if s.coordinator == Expecting {
      w :| w in s.alive;
    }
    run', more := StopGoesOn(run, acts, g, w, answers);
    var _ := HandshakeAlways(run', acts + more, |acts + more|);
  }

  /** Each round of stop's loop removes exactly one worker - one that has ended - from alive_workers. */
  lemma EachRoundRemovesOne(run: seq<State>, acts: seq<Action>, n: nat, w: Wid)
    requires IsRun(run, acts) && n < |acts| && acts[n] == Erase && run[n].coordinator == Erasing(w)
    ensures w in run[n].alive && Ended(run[n], w)
    ensures run[n + 1].alive == run[n].alive - {w} && |run[n + 1].alive| == |run[n].alive| - 1
  {
    var g := HandshakeAlways(run, acts, n);
    assert Follows(run, acts, n);
    assert Ended(run[n], w);
  }

  /** When the loop is over every worker's loop has ended or is about to, so joining only waits for workers to
      leave; the cleanup pass then releases only user jobs and ends with an empty list. */
  lemma LoopEndsWithAllStopped(run: seq<State>, acts: seq<Action>, n: nat)
    requires IsRun(run, acts) && n <= |acts| && run[n].coordinator == Joining
    ensures forall w <- run[n].workers :: Ended(run[n], w)
    ensures Shutdown !in run[n].list
    ensures n < |acts| && acts[n] == Join ==>
      Enabled(run[n], Join) && run[n + 1].list == [] && Releases(run[n], Join) == run[n].list
  {
    var g := HandshakeAlways(run, acts, n);
    if n < |acts| {
      assert Follows(run, acts, n);
    }
    forall w <- run[n].workers
      ensures Ended(run[n], w)
    {
      assert w !in run[n].alive;
    }
  }

  /** Shutdowns worker w has run. */
  function ShutdownsOf(acts: seq<Action>, w: Wid, n: nat): nat
    requires n <= |acts|
  {
    if n == 0 then 0 else ShutdownsOf(acts, w, n - 1) + if acts[n - 1] == RunShutdown(w) then 1 else 0
  }

  /** No worker ever runs two shutdowns, and it has run one exactly when its loop has ended. */
  lemma {:induction false} OneShutdownPerWorker(run: seq<State>, acts: seq<Action>, w: Wid, n: nat)
    requires IsRun(run, acts) && n <= |acts|
    ensures ShutdownsOf(acts, w, n) == if Ended(run[n], w) then 1 else 0
  {
    if n > 0 {
      OneShutdownPerWorker(run, acts, w, n - 1);
      assert Follows(run, acts, n - 1);
      EndedStep(run[n - 1], acts[n - 1], w);
    }
  }

  lemma EndedStep(s: State, a: Action, w: Wid)
    requires Enabled(s, a)
    ensures Ended(Apply(s, a), w) <==> Ended(s, w) || a == RunShutdown(w)
    ensures a == RunShutdown(w) ==> !Ended(s, w)
  {}
}
