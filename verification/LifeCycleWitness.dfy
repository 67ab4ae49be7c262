/**
 Two concrete runs of the life-cycle machine with a stale mark: what the source relies on fails, once because
 the message the sender pushed has been handled meanwhile, once because another sender has marked the actor.
 */
module LifeCycleWitness {
  import opened LifeCycle

  const START := State(Empty, EmptyBox, 0, map[], map[], 0, 1, 1)

  /** A run grown by one step. */
  lemma Extend(run: seq<State>, acts: seq<Action>, a: Action) returns (run': seq<State>, acts': seq<Action>)
    requires IsRun(run, acts) && Enabled(run[|acts|], a)
    ensures IsRun(run', acts') && run'[|acts'|] == Apply(run[|acts|], a)
  {
    run' := run + [Apply(run[|acts|], a)];
    acts' := acts + [a];
    forall i | 0 <= i < |acts'|
      ensures Enabled(run'[i], acts'[i]) && run'[i + 1] == Apply(run'[i], acts'[i])
    {
      if i < |acts| {
        assert Enabled(run[i], acts[i]) && run[i + 1] == Apply(run[i], acts[i]);
      }
    }
  }

  /** A worker has handled both messages; the second one's sender has not yet tested the flag. */
  const BOTH_HANDLED := State(Busy, EmptyBox, 0, map[1 := STesting], map[0 := WRunning], 0, 2, 1)

  lemma BothHandled() returns (run: seq<State>, acts: seq<Action>)
    ensures IsRun(run, acts) && run[|acts|] == BOTH_HANDLED
  {
    run, acts := [START], [];
    run, acts := Extend(run, acts, Push(0));
    run, acts := Extend(run, acts, Test(0));
    run, acts := Extend(run, acts, Mark(0));
    run, acts := Extend(run, acts, BlockBox(0));
    run, acts := Extend(run, acts, Refer(0));
    run, acts := Extend(run, acts, HandOver(0));
    run, acts := Extend(run, acts, Dequeue(0));
    run, acts := Extend(run, acts, Push(1));
    run, acts := Extend(run, acts, Fetch(0));
    run, acts := Extend(run, acts, Handle(0));
    run, acts := Extend(run, acts, Handle(0));
  }

  /** That sender is held up between its push and its test of the flag while a run handles its message and blocks the
      mailbox, and the release clears the flag.  Its mark is stale, as no message waits; the run it schedules finds
      the queue blocked when it fetches. */
  lemma StaleMarkBreaksFetch() returns (run: seq<State>, acts: seq<Action>)
    ensures IsRun(run, acts) && FetchFails(run[|acts|])
  {
    run, acts := BothHandled();
    run, acts := Extend(run, acts, BlockAndReturn(0));
    run, acts := Extend(run, acts, ClearFlag(0));
    run, acts := Extend(run, acts, Test(1));
    run, acts := Extend(run, acts, Mark(1));
    run, acts := Extend(run, acts, BlockBox(1));
    run, acts := Extend(run, acts, Refer(1));
    run, acts := Extend(run, acts, HandOver(1));
    run, acts := Extend(run, acts, Dequeue(1));
    assert Enabled(run[|acts|], Fetch(1));
  }

  /** Two senders both find the flag empty; the second one's mark is stale, as the flag is no longer empty.  The actor
      is in the job list twice, so two workers can run it. */
  lemma StaleMarkMakesTwoJobs() returns (run: seq<State>, acts: seq<Action>)
    ensures IsRun(run, acts) && run[|acts|].senders == map[] && run[|acts|].workers == map[] && run[|acts|].jobs == 2
  {
    run, acts := [START], [];
    run, acts := Extend(run, acts, Push(0));
    run, acts := Extend(run, acts, Push(1));
    run, acts := Extend(run, acts, Test(0));
    run, acts := Extend(run, acts, Test(1));
    run, acts := Extend(run, acts, Mark(0));
    run, acts := Extend(run, acts, BlockBox(0));
    run, acts := Extend(run, acts, Refer(0));
    run, acts := Extend(run, acts, HandOver(0));
    run, acts := Extend(run, acts, Mark(1));
    run, acts := Extend(run, acts, BlockBox(1));
    run, acts := Extend(run, acts, Refer(1));
    run, acts := Extend(run, acts, HandOver(1));
  }
}
