/**
 The executor with its workers and the work-sharing policy, over whole runs: the shared job list, the
 workers' loop, and the shutdown handshake of `stop`
 (header/actors-framework/executor/executor.hpp, worker.hpp, policy/work_sharing.hpp).

 Enqueue and dequeue are atomic because the source does them under the list's lock.
 */
module Executor {
  import opened Common

  type Wid = nat
  type Token = nat

  /** A job occurrence handed to execute gets its own token; the shutdown helper is not one of these. */
  datatype Job = User(k: Token) | Shutdown

  datatype Worker =
    | Waiting               // in dequeue
    | Running(job: Job)
    | Leaving               // the shutdown job has answered, the loop is about to return
    | Stopped

  /** Where stop stands. */
  datatype Coordinator =
    | Started               // stop not called yet
    | Looping               // at the head of the while loop
    | Expecting             // shutdown posted, waiting for last_worker
    | Erasing(w: Wid)       // last_worker seen, about to erase it and reset last_worker
    | Joining
    | Finished              // cleaned up

  datatype State = State(
    list: seq<Job>, workers: map<Wid, Worker>, next: Token,
    coordinator: Coordinator, alive: set<Wid>, lastWorker: Option<Wid>)

  datatype Result = Resume | Done | Awaiting

  datatype Action =
    | Execute                        // execute: a new occurrence is enqueued
    | Dequeue(w: Wid)
    | Finish(w: Wid, r: Result)      // a user job's run returned r
    | RunShutdown(w: Wid)            // shutdown_helper::run
    | Leave(w: Wid)
    | StopBegin | Post | Notice | Erase | LeaveLoop | Join

  ghost predicate Init(s: State) {
    s.list == [] && s.next == 0 && s.coordinator == Started && s.alive == {} && s.lastWorker == None &&
    forall w <- s.workers :: s.workers[w] == Waiting
  }

  predicate WorkerIs(s: State, w: Wid, p: Worker) { w in s.workers && s.workers[w] == p }

  predicate RunsUser(s: State, w: Wid) { w in s.workers && s.workers[w].Running? && s.workers[w].job.User? }

  predicate Enabled(s: State, a: Action) {
    match a
    case Execute => true
    case Dequeue(w) => WorkerIs(s, w, Waiting) && s.list != []
    case Finish(w, _) => RunsUser(s, w)
    case RunShutdown(w) => WorkerIs(s, w, Running(Shutdown))
    case Leave(w) => WorkerIs(s, w, Leaving)
    case StopBegin => s.coordinator == Started
    case Post => s.coordinator == Looping && s.alive != {}
    case Notice => s.coordinator == Expecting && s.lastWorker != None
    case Erase => s.coordinator.Erasing?
    case LeaveLoop => s.coordinator == Looping && s.alive == {}
    case Join => s.coordinator == Joining && forall w <- s.workers :: s.workers[w] == Stopped
  }

  function Apply(s: State, a: Action): State
    requires Enabled(s, a)
  {
    match a
    case Execute => s.(list := s.list + [User(s.next)], next := s.next + 1)
    case Dequeue(w) => s.(list := s.list[1..], workers := s.workers[w := Running(s.list[0])])
    case Finish(w, r) =>
      s.(list := if r == Resume then s.list + [s.workers[w].job] else s.list, workers := s.workers[w := Waiting])
    case RunShutdown(w) => s.(lastWorker := Some(w), workers := s.workers[w := Leaving])
    case Leave(w) => s.(workers := s.workers[w := Stopped])
    case StopBegin => s.(coordinator := Looping, alive := s.workers.Keys)
    case Post => s.(list := s.list + [Shutdown], coordinator := Expecting)
    case Notice => s.(coordinator := Erasing(s.lastWorker.value))
    case Erase => s.(coordinator := Looping, alive := s.alive - {s.coordinator.w}, lastWorker := None)
    case LeaveLoop => s.(coordinator := Joining)
    case Join => s.(coordinator := Finished, list := [])
  }

  // ---------- what a step does to the jobs ----------

  /** What a step appends to the list. */
  function Posts(s: State, a: Action): seq<Job>
    requires Enabled(s, a)
  {
    match a
    case Execute => [User(s.next)]
    case Finish(w, Resume) => [s.workers[w].job]
    case Post => [Shutdown]
    case _ => []
  }

  /** What a step hands to a worker. */
  function Dispatches(s: State, a: Action): seq<Job>
    requires Enabled(s, a)
  {
    if a.Dequeue? then [s.list[0]] else []
  }

  /** Whose reference a step releases: intrusive_ptr_release after done or awaiting, and cleanup_and_release
      for every job left over after joining. */
  function Releases(s: State, a: Action): seq<Job>
    requires Enabled(s, a)
  {
    match a
    case Finish(w, r) => if r == Resume then [] else [s.workers[w].job]
    case Join => s.list
    case _ => []
  }

  ghost predicate IsRun(run: seq<State>, acts: seq<Action>) {
    |run| == |acts| + 1 && Init(run[0]) && forall i | 0 <= i < |acts| :: Follows(run, acts, i)
  }

  ghost predicate Follows(run: seq<State>, acts: seq<Action>, i: nat)
    requires |run| == |acts| + 1 && i < |acts|
  {
    Enabled(run[i], acts[i]) && run[i + 1] == Apply(run[i], acts[i])
  }
}
