/**
 Concrete runs of the queue machine: addresses really are reused under a producer's feet, and the two
 conditions on no lost wake-up and on await's answer are needed.
 */
module QueueWitness {
  import opened QueueMachine
  import opened Common

  const START := State(EmptyDummy, Null, map[], map[], RIdle, {}, Unlocked)

  /** A run grown by one step. */
  lemma Extend(run: seq<State>, acts: seq<Action>, a: Action) returns (run': seq<State>, acts': seq<Action>)
    requires IsRun(run, acts) && Enabled(run[|acts|], a)
    ensures IsRun(run', acts') && run'[|acts'|] == Apply(run[|acts|], a) && acts' == acts + [a]
  {
    run' := run + [Apply(run[|acts|], a)];
    acts' := acts + [a];
    forall i | 0 <= i < |acts'|
      ensures Follows(run', acts', i)
    {
      if i < |acts| {
        assert Follows(run, acts, i);
      }
    }
  }

  /** Producer 1 has linked its node to node 0, which carries element 10. */
  const LINKED := START.(stack := Node(0), heap := map[0 := Cell(Null, 10), 1 := Cell(Node(0), 11)],
    prods := map[1 := PLinked(1, Node(0), true)])

  lemma LinkedToNode0() returns (run: seq<State>, acts: seq<Action>)
    ensures IsRun(run, acts) && run[|acts|] == LINKED
  {
    run, acts := [START], [];
    run, acts := Extend(run, acts, Producing(0, Begin(0, 10, Null, true)));
    run, acts := Extend(run, acts, Producing(0, Load));
    run, acts := Extend(run, acts, Producing(0, Link));
    run, acts := Extend(run, acts, Producing(0, Cas));
    run, acts := Extend(run, acts, Producing(1, Begin(1, 11, Null, true)));
    run, acts := Extend(run, acts, Producing(1, Load));
    run, acts := Extend(run, acts, Producing(1, Link));
  }

  /** Element 10 has been popped and node 0 freed; the producer still compares with its old address. */
  const FREED := START.(heap := map[1 := Cell(Node(0), 11)], prods := map[1 := PLinked(1, Node(0), true)])

  lemma Node0Freed() returns (run: seq<State>, acts: seq<Action>)
    ensures IsRun(run, acts) && run[|acts|] == FREED
  {
    run, acts := LinkedToNode0();
    run, acts := Extend(run, acts, Reading(FetchLoad));
    run, acts := Extend(run, acts, Reading(FetchCas(false)));
    run, acts := Extend(run, acts, Reading(ReverseStep));
    run, acts := Extend(run, acts, Reading(ReverseStep));
    run, acts := Extend(run, acts, Reading(TakeHead));
    run, acts := Extend(run, acts, Free(0));
  }

  /** The address then carries element 12, and the CAS with the old value succeeds. */
  lemma StaleCasSucceedsOnReusedAddress() returns (run: seq<State>, acts: seq<Action>)
    ensures IsRun(run, acts) && EnqueueCas(run[|acts|], Producing(1, Cas))
    ensures run[|acts|].stack == Node(0) && 0 in run[|acts|].heap && run[|acts|].heap[0].val == 12
    ensures 1 in run[|acts|].prods && run[|acts|].prods[1] == PLinked(1, Node(0), true)
  {
    run, acts := Node0Freed();
    run, acts := Extend(run, acts, Producing(2, Begin(0, 12, Null, true)));
    run, acts := Extend(run, acts, Producing(2, Load));
    run, acts := Extend(run, acts, Producing(2, Link));
    run, acts := Extend(run, acts, Producing(2, Cas));
  }

  /** With plain enqueue in place of synchronized_enqueue a wake-up is lost: the reader waits, there is data, and
      no producer is left to notify. */
  lemma PlainEnqueueLosesWakeUp() returns (run: seq<State>, acts: seq<Action>)
    ensures IsRun(run, acts) && forall a <- acts :: BeginsWith(a, false)
    ensures run[|acts|].reader == RWaiting(false) && run[|acts|].stack.Node? && run[|acts|].prods == map[]
  {
    run, acts := [START], [];
    run, acts := Extend(run, acts, Producing(0, Begin(0, 10, Null, false)));
    run, acts := Extend(run, acts, Awaiting(AwaitStart(false)));
    run, acts := Extend(run, acts, Awaiting(AwaitBlock));
    run, acts := Extend(run, acts, Awaiting(AwaitLock));
    run, acts := Extend(run, acts, Awaiting(AwaitTest));
    run, acts := Extend(run, acts, Awaiting(AwaitPark));
    run, acts := Extend(run, acts, Producing(0, Load));
    run, acts := Extend(run, acts, Producing(0, Link));
    run, acts := Extend(run, acts, Producing(0, Cas));
  }

  /** Awaiting on a queue that is already blocked returns at once, with nothing to fetch. */
  lemma AwaitOnBlockedQueueReturnsEmptyHanded() returns (run: seq<State>, acts: seq<Action>)
    ensures IsRun(run, acts) && Enabled(run[|acts|], Awaiting(AwaitBlock))
    ensures AwaitReturns(run[|acts|], Awaiting(AwaitBlock)) == Some(true)
    ensures !CanFetchMore(Apply(run[|acts|], Awaiting(AwaitBlock)))
  {
    run, acts := [START], [];
    run, acts := Extend(run, acts, Reading(TryBlock));
    run, acts := Extend(run, acts, Awaiting(AwaitStart(false)));
  }
}
