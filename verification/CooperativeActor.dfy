/**
 The message loop of an actor, header/actors-framework/impl/actor/cooperative_actor.ipp: `next_message`,
 which merges the mailbox into the cache by priority, and the budgeted `run`.

 Other threads enqueue while the actor runs.  What they will enqueue is the field `schedule`: one batch
 becomes visible before each atomic access the actor makes to `stack_`.  Nothing is assumed about it, so
 what is proved holds for every finite pattern of arrivals.
 */
module CooperativeActor {
  import opened Common
  import opened Priorities

  type Msg = int

  /** The mailbox's `stack_`: blocked, or open with its messages newest first; Open([]) is the empty dummy. */
  datatype Stack = Blocked | Open(msgs: seq<Msg>)

  function Msgs(s: Stack): seq<Msg> { if s.Open? then s.msgs else [] }

  function Flat(batches: seq<seq<Msg>>): seq<Msg> {
    if batches == [] then [] else batches[0] + Flat(batches[1..])
  }

  /** With no high-priority messages the merge is plain FIFO. */
  lemma MergeIsFifo(first: seq<Msg>, d: seq<Msg>)
    ensures Merged(NeverHigh, first, d) == first + d
  {
    OneClass(NeverHigh, d, false);
    assert Highs(NeverHigh, d) + first == first;
  }

  /** message::is_high_priority as it stands. */
  function NeverHigh(m: Msg): bool { false }

  // ---------- the actor ----------

  function Taken(r: Option<Msg>): seq<Msg> { if r.Some? then [r.value] else [] }

  datatype RunResult = Awaiting | AssertionFailed

  /** Everything observable about an actor between two calls.  `handled`: messages consumed; `dropped`:
      messages destroyed without having been consumed; `arrived`: all messages ever enqueued. */
  datatype View = View(
    stack: Stack, head: seq<Msg>, first: seq<Msg>, second: seq<Msg>,
    arrived: seq<Msg>, handled: seq<Msg>, dropped: seq<Msg>)
  {
    /** The mailbox outside the cache, oldest first. */
    function Waiting(): seq<Msg> { head + Rev(Msgs(stack)) }

    function CacheEmpty(): bool { first == [] && second == [] }

    /** Everything not yet handled that is not in the second partition, in the order it will be taken. */
    function Pending(): seq<Msg> { first + Waiting() }
  }

  /** Between a and b messages arrived, and nothing else happened to the mailbox's contents. */
  ghost predicate OnlyArrivals(a: View, b: View) {
    && a.arrived <= b.arrived
    && b.Waiting() == a.Waiting() + b.arrived[|a.arrived|..]
    && b.first == a.first && b.second == a.second && b.handled == a.handled && b.dropped == a.dropped
  }

  lemma ArrivalsCompose(a: View, b: View, c: View)
    requires OnlyArrivals(a, b) && OnlyArrivals(b, c)
    ensures OnlyArrivals(a, c)
  {
    assert c.arrived[|a.arrived|..] == b.arrived[|a.arrived|..] + c.arrived[|b.arrived|..];
  }

  /** What next_message may take from: the merged cache if it drained the mailbox, else the cache. */
  ghost function Candidates(isHigh: Msg -> bool, a: View, b: View): seq<Msg>
    requires a.arrived <= b.arrived
  {
    if Drains(isHigh, a.first) then Merged(isHigh, a.first, a.Waiting() + b.arrived[|a.arrived|..]) else a.first
  }

  /** next_message took the front candidate and left the others cached; if it looked into the mailbox it
      emptied it, otherwise it did not touch it. */
  ghost predicate NextMessageStep(isHigh: Msg -> bool, a: View, b: View, r: Option<Msg>) {
    && a.arrived <= b.arrived
    && Candidates(isHigh, a, b) == Taken(r) + b.first
    && (r.None? ==> b.first == [])
    && b.second == a.second && b.handled == a.handled && b.dropped == a.dropped
    && if Drains(isHigh, a.first) then b.stack == Open([]) && b.head == []
       else b.stack == a.stack && b.head == a.head && b.arrived == a.arrived
  }

  /** From a to b: k messages of the second partition and then h were handled, d were dropped; taking d
      before h, these and what is still pending are what was pending and what arrived, in order. */
  ghost predicate Progress(a: View, b: View, k: nat, d: seq<Msg>, h: seq<Msg>) {
    && a.arrived <= b.arrived
    && k <= |a.second| && b.second == a.second[k..]
    && b.handled == a.handled + a.second[..k] + h
    && b.dropped == a.dropped + d
    && d + h + b.Pending() == a.Pending() + b.arrived[|a.arrived|..]
  }

  /** What an entry with cached messages costs: nothing is dropped if the cache was empty, and at least
      everything pending (up to the budget) if the first partition was not. */
  ghost predicate Budgeted(a: View, k: nat, d: seq<Msg>, max: nat) {
    && k == Min(|d|, |a.second|)
    && (a.CacheEmpty() ==> d == [])
    && (a.first != [] ==> |d| >= Min(max, |a.Pending()|))
  }

  /** Which messages a run drops.  looks says of each time the run looked for a message whether the cache was empty: what
      was taken before the cache was first found empty is dropped, what was taken from then on is handled. */
  ghost predicate DropsWhileCached(looks: seq<bool>, d: seq<Msg>, h: seq<Msg>) {
    && |d| + |h| <= |looks| <= |d| + |h| + 1
    && (forall i | 0 <= i < |d| :: !looks[i])
    && (h != [] ==> looks[|d|])
  }

  /** The contract of run(max), max > 0.  What was pending at entry and is neither handled nor dropped ends up
      in the first partition: only messages that arrived meanwhile can still wait in the mailbox.  The mailbox is left
      blocked exactly if nothing is pending; otherwise the budget is used up. */
  ghost predicate RunTakes(a: View, b: View, max: nat, looks: seq<bool>, k: nat, d: seq<Msg>, h: seq<Msg>) {
    Budgeted(a, k, d, max) && Outcome(a, b, max, looks, k, d, h)
  }

  ghost predicate Outcome(a: View, b: View, max: nat, looks: seq<bool>, k: nat, d: seq<Msg>, h: seq<Msg>) {
    && Progress(a, b, k, d, h)
    && DropsWhileCached(looks, d, h)
    && |d| + |h| <= max
    && |b.Waiting()| <= |b.arrived| - |a.arrived|
    && (b.stack == Blocked <==> b.Pending() == [])
    && (b.stack != Blocked ==> |d| + |h| == max)
  }

  /** The same, for some way of telling what was dropped from what was handled. */
  ghost predicate RunWith(a: View, b: View, max: nat, looks: seq<bool>) {
    exists k: nat, d, h :: RunTakes(a, b, max, looks, k, d, h)
  }

  ghost predicate RunStep(a: View, b: View, max: nat) { exists looks :: RunWith(a, b, max, looks) }

  lemma Within(a: View, b: View, max: nat, looks: seq<bool>, k: nat, d: seq<Msg>, h: seq<Msg>)
    requires Budgeted(a, k, d, max) && Outcome(a, b, max, looks, k, d, h)
    ensures RunWith(a, b, max, looks)
  {
    assert RunTakes(a, b, max, looks, k, d, h);
  }

  /** Once the run has found the cache empty it drops nothing more: a message that arrives after the leftovers are gone
      is handled or pending. */
  lemma NothingDroppedOnceEmpty(a: View, b: View, max: nat, looks: seq<bool>, j: nat)
    requires RunWith(a, b, max, looks) && j < |looks| && looks[j]
    ensures a.dropped <= b.dropped && |b.dropped| <= |a.dropped| + j
  {
    var k: nat, d, h :| RunTakes(a, b, max, looks, k, d, h);
    assert j >= |d|;
  }

  lemma Advance(a: View, b: View, c: View, k: nat, d: seq<Msg>, h: seq<Msg>, t: seq<Msg>)
    requires Progress(a, b, k, d, h)
    requires b.arrived <= c.arrived && t + c.Pending() == b.Pending() + c.arrived[|b.arrived|..]
    ensures a.arrived <= c.arrived
    ensures d + h + t + c.Pending() == a.Pending() + c.arrived[|a.arrived|..]
  {
    assert c.arrived[|a.arrived|..] == b.arrived[|a.arrived|..] + c.arrived[|b.arrived|..];
    assert d + h + t + c.Pending() == (d + h) + (t + c.Pending());
    assert (d + h) + (b.Pending() + c.arrived[|b.arrived|..]) == (d + h + b.Pending()) + c.arrived[|b.arrived|..];
  }

  lemma SecondAdvances(second: seq<Msg>, k: nat)
    requires k <= |second|
    ensures k < |second| ==>
      second[..k] + [second[k]] == second[..k + 1] && second[k..][0] == second[k] && second[k..][1..] == second[k + 1..]
  {}

  /** The effect of one round of the first loop: m is dropped, and the front of the second partition handled. */
  lemma Dropped(a: View, b: View, c: View, e: View, k: nat, d: seq<Msg>, m: Msg)
    requires Progress(a, b, k, d, []) && k == Min(|d|, |a.second|)
    requires c.second == b.second && c.handled == b.handled && c.dropped == b.dropped && a.arrived <= c.arrived
    requires d + [] + [m] + c.Pending() == a.Pending() + c.arrived[|a.arrived|..]
    requires e.dropped == c.dropped + [m] && e.arrived == c.arrived && e.Pending() == c.Pending()
    requires if c.second != [] then e.handled == c.handled + [c.second[0]] && e.second == c.second[1..]
             else e.handled == c.handled && e.second == c.second
    ensures Progress(a, e, Min(|d + [m]|, |a.second|), d + [m], [])
  {
    SecondAdvances(a.second, k);
    assert (d + [m]) + [] + e.Pending() == d + [] + [m] + c.Pending();
    assert a.handled + a.second[..k] + [] == a.handled + a.second[..k];
    if k < |a.second| {
      assert (a.handled + a.second[..k]) + [a.second[k]] == a.handled + a.second[..k + 1] + [];
    }
  }

  /** The looks after the first n. */
  function Since(looks: seq<bool>, n: nat): seq<bool>
    requires n <= |looks|
  {
    looks[n..]
  }

  /** From n on the first look agrees with `empty`. */
  ghost predicate Begins(looks: seq<bool>, n: nat, empty: bool) { n < |looks| ==> looks[n] == empty }

  lemma Conclude(a: View, b: View, max: nat, looks: seq<bool>, n: nat, k: nat, d: seq<Msg>, h: seq<Msg>)
    requires Progress(a, b, k, d, h) && |d| + |h| <= max
    requires n <= |looks| && |d| + |h| <= |looks| - n <= |d| + |h| + 1
    requires (forall i | n <= i < n + |d| :: !looks[i]) && (h != [] ==> looks[n + |d|])
    requires |b.Waiting()| <= |b.arrived| - |a.arrived|
    requires (b.stack == Blocked <==> b.Pending() == []) && (b.stack != Blocked ==> |d| + |h| == max)
    ensures Outcome(a, b, max, Since(looks, n), k, d, h)
  {
    assert DropsWhileCached(looks[n..], d, h);
  }

  /** When the first loop is over the budget is spent, or nothing is pending any more, or there was nothing cached. */
  lemma FirstLoopOver(a: View, b: View, d: seq<Msg>, max: nat)
    requires Progress(a, b, Min(|d|, |a.second|), d, []) && (d != [] ==> !a.CacheEmpty())
    requires |d| == max || b.Pending() == [] || a.CacheEmpty()
    ensures Budgeted(a, Min(|d|, |a.second|), d, max)
  {
    if a.first != [] && |d| != max {
      assert |d| == |a.Pending()| + |b.arrived[|a.arrived|..]|;
    }
  }

  lemma EnqueuedSoFar(arrived: seq<Msg>, waiting: seq<Msg>, batch: seq<Msg>, i: nat)
    requires i <= |batch|
    ensures arrived + batch[..0] == arrived && waiting + batch[..0] == waiting
    ensures i < |batch| ==> arrived + batch[..i] + [batch[i]] == arrived + batch[..i + 1]
    ensures i < |batch| ==> waiting + batch[..i] + [batch[i]] == waiting + batch[..i + 1]
  {}

  class Actor {
    var stack: Stack
    var head: seq<Msg>
    var first: seq<Msg>       // the cache's first partition
    var second: seq<Msg>      // the cache's second partition
    var schedule: seq<seq<Msg>>
    var arrived: seq<Msg>
    var handled: seq<Msg>
    var dropped: seq<Msg>
    /** Of each time run looked for a message, whether the cache was empty. */
    ghost var looks: seq<bool>

    constructor (schedule: seq<seq<Msg>>)
      ensures Now() == View(Open([]), [], [], [], [], [], []) && this.schedule == schedule
    {
      stack, head, first, second := Open([]), [], [], [];
      arrived, handled, dropped, looks := [], [], [], [];
      this.schedule := schedule;
    }

    ghost function Now(): View
      reads this
    {
      View(stack, head, first, second, arrived, handled, dropped)
    }

    /** All messages that have arrived or ever will, in order. */
    ghost function Ever(): seq<Msg>
      reads this
    {
      arrived + Flat(schedule)
    }

    /** How much can still be drained: what waits and what has yet to come. */
    ghost function Supply(): nat
      reads this
    {
      |Now().Waiting()| + |Flat(schedule)|
    }

    /** Another thread's enqueue, after its CAS. */
    method Enqueue(m: Msg)
      modifies this`stack, this`arrived
      ensures stack == Open([m] + Msgs(old(stack))) && arrived == old(arrived) + [m]
      ensures Now().Waiting() == old(Now()).Waiting() + [m]
    {
      RevCons(m, Msgs(stack));
      stack := Open([m] + Msgs(stack));
      arrived := arrived + [m];
    }

    method EnqueueAll(batch: seq<Msg>)
      modifies this`stack, this`arrived
      ensures arrived == old(arrived) + batch
      ensures Now().Waiting() == old(Now()).Waiting() + batch
      ensures |Msgs(stack)| == |Msgs(old(stack))| + |batch|
      ensures batch == [] ==> stack == old(stack)
    {
      var i := 0;
      EnqueuedSoFar(arrived, Now().Waiting(), batch, 0);
      while i < |batch|
        invariant 0 <= i <= |batch|
        invariant arrived == old(arrived) + batch[..i]
        invariant Now().Waiting() == old(Now()).Waiting() + batch[..i]
        invariant |Msgs(stack)| == |Msgs(old(stack))| + i
        invariant i == 0 ==> stack == old(stack)
      {
        EnqueuedSoFar(old(arrived), old(Now()).Waiting(), batch, i);
        Enqueue(batch[i]);
        i := i + 1;
      }
      assert batch[..|batch|] == batch;
    }

    /** Other threads get to run before an atomic access: the next batch of the schedule is enqueued. */
    method Arrive()
      modifies this`stack, this`arrived, this`schedule
      ensures OnlyArrivals(old(Now()), Now())
      ensures Ever() == old(Ever()) && |schedule| <= |old(schedule)|
      ensures stack != old(stack) ==> |schedule| < |old(schedule)|
      ensures stack == old(stack) <==> arrived == old(arrived)
      ensures stack != old(stack) ==> Msgs(stack) != []
    {
      if schedule != [] {
        var batch := schedule[0];
        schedule := schedule[1..];
        assert old(arrived) + (batch + Flat(schedule)) == (old(arrived) + batch) + Flat(schedule);
        EnqueueAll(batch);
      }
    }

    /** try_block: from empty to blocked. */
    method TryBlock() returns (ok: bool)
      modifies this`stack, this`arrived, this`schedule
      ensures OnlyArrivals(old(Now()), Now()) && Ever() == old(Ever())
      ensures if ok then stack == Blocked else stack == Blocked || Msgs(stack) != []
      ensures !ok && old(stack).Open? ==> stack.Open?
    {
      Arrive();
      ok := stack == Open([]);
      if ok {
        stack := Blocked;
      }
    }

    /** try_unblock: from blocked to empty. */
    method TryUnblock() returns (ok: bool)
      modifies this`stack, this`arrived, this`schedule
      ensures OnlyArrivals(old(Now()), Now()) && Ever() == old(Ever())
      ensures stack.Open? && (ok ==> stack == Open([]))
    {
      Arrive();
      ok := stack == Blocked;
      if ok {
        stack := Open([]);
      }
    }

    /** fetch_new_data's inner loop. */
    method ReverseOntoHead(grabbed: seq<Msg>)
      modifies this`head
      ensures head == Rev(grabbed) + old(head)
    {
      var e := grabbed;
      while e != []
        invariant Rev(e) + head == Rev(grabbed) + old(head)
        decreases |e|
      {
        assert e == [e[0]] + e[1..];
        RevCons(e[0], e[1..]);
        head, e := [e[0]] + head, e[1..];
      }
    }

    /** fetch_new_data: grab the whole stack with one CAS and reverse it onto head_. */
    method FetchNewData() returns (ok: bool)
      requires head == [] && stack.Open?
      modifies this`stack, this`head, this`arrived, this`schedule
      ensures OnlyArrivals(old(Now()), Now()) && Ever() == old(Ever())
      ensures stack == Open([]) && (ok <==> head != [])
    {
      ghost var a := Now();
      Arrive();
      var e := stack;
      while e != Open([])
        invariant OnlyArrivals(a, Now()) && Ever() == old(Ever())
        invariant head == [] && e.Open? && stack.Open?
        invariant e == Open([]) ==> stack == e
        decreases |schedule|, stack != e
      {
        ghost var b := Now();
        Arrive();
        ArrivalsCompose(a, b, Now());
        if stack == e {
          ghost var c := Now();
          stack := Open([]);
          ReverseOntoHead(e.msgs);
          assert Now().Waiting() == c.Waiting();
          return head != [];
        }
        e := stack;
      }
      return false;
    }

    /** try_pop. */
    method TryPop() returns (r: Option<Msg>)
      requires head != [] || stack.Open?
      modifies this`stack, this`head, this`arrived, this`schedule
      ensures Ever() == old(Ever()) && (old(stack).Open? ==> stack.Open?)
      ensures Supply() + (if r.Some? then 1 else 0) == old(Supply())
      ensures old(arrived) <= arrived
      ensures Taken(r) + Now().Waiting() == old(Now()).Waiting() + arrived[|old(arrived)|..]
      ensures r.None? ==> Now().Waiting() == [] && stack == Open([]) && head == []
    {
      var ok := true;
      if head == [] {
        ok := FetchNewData();
      }
      if ok {
        r := Some(head[0]);
        assert head == [head[0]] + head[1..];
        head := head[1..];
      } else {
        r := None;
      }
    }

    /** next_message: merge the mailbox into the first partition unless that starts with a high-priority
        message, then take the front. */
    method NextMessage(isHigh: Msg -> bool) returns (r: Option<Msg>)
      requires stack.Open?
      modifies this`stack, this`head, this`first, this`arrived, this`schedule
      ensures stack.Open? && Ever() == old(Ever())
      ensures NextMessageStep(isHigh, old(Now()), Now(), r)
      ensures PrioritySorted(isHigh, old(first)) ==> PrioritySorted(isHigh, first)
    {
      if first == [] || !isHigh(first[0]) {
        DrainMailbox(isHigh);
      }
      ghost var merged := first;
      if PrioritySorted(isHigh, old(first)) && Drains(isHigh, old(first)) {
        ghost var d := old(Now().Waiting()) + arrived[|old(arrived)|..];
        MergeIsStablePartition(isHigh, old(first), d);
        StablePartitionIsSorted(isHigh, old(first) + d);
      }
      if first == [] {
        r := None;
      } else {
        r := Some(first[0]);
        first := first[1..];
        assert [r.value] + first == merged;
      }
    }

    /** One round of next_message's loop: hpPos is the iterator in front of which the next high-priority
        message goes; d are the messages merged so far. */
    method MergeOne(isHigh: Msg -> bool, hpPos: nat, m: Msg, ghost base: seq<Msg>, ghost d: seq<Msg>) returns (hpPos': nat)
      requires hpPos == |Highs(isHigh, d)| && first == Merged(isHigh, base, d)
      modifies this`first
      ensures hpPos' == |Highs(isHigh, d + [m])| && first == Merged(isHigh, base, d + [m])
    {
      MergedGrows(isHigh, base, d, m);
      if isHigh(m) {
        first := first[..hpPos] + [m] + first[hpPos..];
        hpPos' := hpPos + 1;
      } else {
        // an iterator at the separator moves along with it to the new end, and is stepped back onto m: its
        // position is the same number as before
        var atSeparator := hpPos == |first|;
        first := first + [m];
        hpPos' := if atSeparator then |first| - 1 else hpPos;
      }
    }

    /** try_pop inside a loop that has drained d so far. */
    method PopNext(ghost a0: seq<Msg>, ghost start: seq<Msg>, ghost d: seq<Msg>) returns (tmp: Option<Msg>)
      requires stack.Open? && a0 <= arrived && d + Now().Waiting() == start + arrived[|a0|..]
      modifies this`stack, this`head, this`arrived, this`schedule
      ensures stack.Open? && a0 <= arrived && Ever() == old(Ever())
      ensures d + (Taken(tmp) + Now().Waiting()) == start + arrived[|a0|..]
      ensures tmp.None? ==> Now().Waiting() == [] && stack == Open([]) && head == []
      ensures Supply() + (if tmp.Some? then 1 else 0) == old(Supply())
    {
      ghost var a1, w1 := arrived, Now().Waiting();
      tmp := TryPop();
      Continue(a0, a1, arrived, start, d, w1, Taken(tmp) + Now().Waiting());
    }

    /** A round of next_message's loop. */
    method DrainRound(isHigh: Msg -> bool, hpPos: nat, m: Msg,
                      ghost base: seq<Msg>, ghost a0: seq<Msg>, ghost start: seq<Msg>, ghost d: seq<Msg>)
      returns (hpPos': nat, tmp: Option<Msg>)
      requires stack.Open? && a0 <= arrived && hpPos == |Highs(isHigh, d)| && first == Merged(isHigh, base, d)
      requires d + ([m] + Now().Waiting()) == start + arrived[|a0|..]
      modifies this`stack, this`head, this`first, this`arrived, this`schedule
      ensures stack.Open? && a0 <= arrived && Ever() == old(Ever())
      ensures hpPos' == |Highs(isHigh, d + [m])| && first == Merged(isHigh, base, d + [m])
      ensures (d + [m]) + (Taken(tmp) + Now().Waiting()) == start + arrived[|a0|..]
      ensures tmp.None? ==> Now().Waiting() == [] && stack == Open([]) && head == []
      ensures Supply() + (if tmp.Some? then 1 else 0) == old(Supply())
    {
      hpPos' := MergeOne(isHigh, hpPos, m, base, d);
      Shift(d, m, Now().Waiting());
      tmp := PopNext(a0, start, d + [m]);
    }

    /** next_message's loop. */
    method DrainMailbox(isHigh: Msg -> bool)
      requires stack.Open?
      modifies this`stack, this`head, this`first, this`arrived, this`schedule
      ensures stack == Open([]) && head == [] && Ever() == old(Ever()) && old(arrived) <= arrived
      ensures first == Merged(isHigh, old(first), old(Now().Waiting()) + arrived[|old(arrived)|..])
    {
      ghost var base, a0, start := first, arrived, Now().Waiting();
      var hpPos := 0;
      ghost var d: seq<Msg> := [];
      assert d + start == start + [];
      Regroup([], base, []);
      var tmp := PopNext(a0, start, d);
      while tmp.Some?
        invariant stack.Open? && Ever() == old(Ever()) && a0 <= arrived
        invariant hpPos == |Highs(isHigh, d)| && first == Merged(isHigh, base, d)
        invariant d + (Taken(tmp) + Now().Waiting()) == start + arrived[|a0|..]
        invariant tmp.None? ==> Now().Waiting() == [] && stack == Open([]) && head == []
        decreases Supply(), tmp.Some?
      {
        ghost var m := tmp.value;
        hpPos, tmp := DrainRound(isHigh, hpPos, tmp.value, base, a0, start, d);
        d := d + [m];
      }
      assert d == start + arrived[|a0|..];
    }

    /** next_message with is_high_priority as it stands: plain FIFO over cache, mailbox and arrivals. */
    method NextInOrder() returns (r: Option<Msg>)
      requires stack.Open?
      modifies this`stack, this`head, this`first, this`arrived, this`schedule
      ensures old(arrived) <= arrived && Ever() == old(Ever())
      ensures Taken(r) + first == old(Now()).Pending() + arrived[|old(arrived)|..]
      ensures stack == Open([]) && head == [] && (r.None? ==> first == [])
    {
      r := NextMessage(NeverHigh);
      ghost var news := arrived[|old(arrived)|..];
      MergeIsFifo(old(first), old(Now()).Waiting() + news);
      assert old(first) + (old(Now()).Waiting() + news) == old(Now()).Pending() + news;
    }

    /** One round of run's inner do-while; it decides nothing only when messages arrived before the CAS. */
    method TakeOrBlockOnce() returns (ptr: Option<Msg>, blocked: bool)
      requires stack.Open?
      modifies this`stack, this`head, this`first, this`arrived, this`schedule
      ensures old(arrived) <= arrived && Ever() == old(Ever())
      ensures Taken(ptr) + Now().Pending() == old(Now()).Pending() + arrived[|old(arrived)|..]
      ensures !(blocked && ptr.Some?) && (blocked || ptr.Some? ==> Now().Waiting() == [])
      ensures if blocked then stack == Blocked && first == [] else stack.Open?
      ensures !blocked && ptr.None? ==> |arrived| > |old(arrived)|
    {
      ghost var a0, start := arrived, Now().Pending();
      ptr := NextInOrder();
      blocked := false;
      if ptr.None? {
        ghost var a1 := arrived;
        blocked := TryBlock();
        assert Now().Pending() == arrived[|a1|..];
        Continue(a0, a1, arrived, start, [], [], Now().Pending());
      }
    }

    /** run's inner do-while: take a message, or block the mailbox when there is none. */
    method TakeOrBlock() returns (ptr: Option<Msg>, blocked: bool)
      requires stack.Open?
      modifies this`stack, this`head, this`first, this`arrived, this`schedule, this`looks
      ensures old(arrived) <= arrived && Ever() == old(Ever())
      ensures Taken(ptr) + Now().Pending() == old(Now()).Pending() + arrived[|old(arrived)|..]
      ensures Now().Waiting() == [] && blocked == ptr.None?
      ensures if blocked then stack == Blocked && first == [] else stack.Open?
      ensures looks == old(looks) + [old(Now()).CacheEmpty()]
    {
      looks := looks + [Now().CacheEmpty()];
      ghost var a0, start := arrived, Now().Pending();
      while true
        invariant stack.Open? && Ever() == old(Ever()) && a0 <= arrived
        invariant Now().Pending() == start + arrived[|a0|..]
        invariant looks == old(looks) + [old(Now()).CacheEmpty()]
        decreases |Ever()| - |arrived|
      {
        ghost var a1, v1 := arrived, Now().Pending();
        ptr, blocked := TakeOrBlockOnce();
        Continue(a0, a1, arrived, start, [], v1, Taken(ptr) + Now().Pending());
        if ptr.Some? || blocked {
          return;
        }
      }
    }

    /** has_next_message. */
    method HasNextMessage() returns (more: bool)
      modifies this`stack, this`arrived, this`schedule
      ensures OnlyArrivals(old(Now()), Now()) && Ever() == old(Ever())
      ensures more <==> first != [] || head != [] || Msgs(stack) != []
      ensures old(stack).Open? ==> stack.Open?
    {
      if first != [] || head != [] {
        return true;
      }
      Arrive();
      more := Msgs(stack) != [];
    }

    method Consume(m: Msg)
      modifies this`handled
      ensures handled == old(handled) + [m]
    {
      handled := handled + [m];
    }

    /** consume_from_cache: consume and erase the front of the second partition, if there is one. */
    method ConsumeFromCache() returns (consumed: bool)
      modifies this`handled, this`second
      ensures consumed <==> old(second) != []
      ensures if consumed then handled == old(handled) + [old(second)[0]] && second == old(second)[1..]
              else handled == old(handled) && second == old(second)
    {
      if second != [] {
        Consume(second[0]);
        second := second[1..];
        return true;
      }
      return false;
    }

    /** push_to_cache.  The second partition must have its high-priority messages first if the message is of high
        priority too, because std::partition_point demands it. */
    method PushToCache(isHigh: Msg -> bool, m: Msg)
      requires isHigh(m) ==> PrioritySorted(isHigh, second)
      modifies this`second
      ensures !isHigh(m) ==> second == old(second) + [m]
      ensures PrioritySorted(isHigh, old(second)) ==>
        second == StablePartition(isHigh, old(second) + [m]) && PrioritySorted(isHigh, second)
    {
      if PrioritySorted(isHigh, second) {
        InsertBehindClass(isHigh, second, m);
        StablePartitionIsSorted(isHigh, second + [m]);
      }
      if !isHigh(m) {
        second := second + [m];
        return;
      }
      var k := PartitionPoint(isHigh, second);
      second := second[..k] + [m] + second[k..];
    }

    /** One round of run's first loop. */
    method DropRound(ghost a: View, ghost k: nat, ghost d: seq<Msg>) returns (ptr: Option<Msg>, blocked: bool)
      requires stack.Open? && Progress(a, Now(), k, d, []) && k == Min(|d|, |a.second|)
      modifies this
      ensures blocked == ptr.None? && Now().Waiting() == [] && Ever() == old(Ever())
      ensures var d' := d + Taken(ptr); Progress(a, Now(), Min(|d'|, |a.second|), d', [])
      ensures if blocked then stack == Blocked && Now().Pending() == [] else stack.Open?
      ensures looks == old(looks) + [old(Now()).CacheEmpty()]
    {
      ghost var b := Now();
      ptr, blocked := TakeOrBlock();
      ghost var c := Now();
      Advance(a, b, c, k, d, [], Taken(ptr));
      if blocked {
        assert d + Taken(ptr) == d;
        return;
      }
      dropped := dropped + [ptr.value];
      var consumed := ConsumeFromCache();
      Dropped(a, b, c, Now(), k, d, ptr.value);
    }

    /** The same, with what has been dropped so far. */
    method FirstRound(ghost a: View, ghost d: seq<Msg>) returns (blocked: bool, ghost d': seq<Msg>)
      requires stack.Open? && !Now().CacheEmpty() && Progress(a, Now(), Min(|d|, |a.second|), d, [])
      modifies this
      ensures |d'| == |d| + (if blocked then 0 else 1) && Progress(a, Now(), Min(|d'|, |a.second|), d', [])
      ensures Now().Waiting() == [] && Ever() == old(Ever()) && looks == old(looks) + [false]
      ensures if blocked then stack == Blocked && Now().Pending() == [] && d' == d else stack.Open?
    {
      var ptr;
      ptr, blocked := DropRound(a, Min(|d|, |a.second|), d);
      d' := d + Taken(ptr);
      assert blocked ==> d' == d;
    }

    /** run's first loop: it runs while the cache is not empty. */
    method FirstLoop(maxThroughput: nat, ghost a: View) returns (handledMsgs: nat, blocked: bool, ghost d: seq<Msg>)
      requires stack.Open? && a == Now()
      modifies this
      ensures handledMsgs == |d| <= maxThroughput && (blocked ==> maxThroughput > 0)
      ensures Progress(a, Now(), Min(|d|, |a.second|), d, []) && Budgeted(a, Min(|d|, |a.second|), d, maxThroughput)
      ensures (d != [] ==> Now().Waiting() == []) && Ever() == old(Ever())
      ensures if blocked then stack == Blocked && Now().Pending() == []
              else stack.Open? && (|d| == maxThroughput || Now().CacheEmpty())
      ensures |looks| == |old(looks)| + |d| + (if blocked then 1 else 0)
      ensures forall i | |old(looks)| <= i < |looks| :: !looks[i]
    {
      handledMsgs, blocked, d := 0, false, [];
      while handledMsgs < maxThroughput && !(first == [] && second == [])
        invariant handledMsgs == |d| <= maxThroughput && stack.Open? && !blocked && Ever() == old(Ever())
        invariant Progress(a, Now(), Min(|d|, |a.second|), d, [])
        invariant d == [] ==> Now() == a
        invariant d != [] ==> !a.CacheEmpty() && Now().Waiting() == []
        invariant |looks| == |old(looks)| + |d| && forall i | |old(looks)| <= i < |looks| :: !looks[i]
      {
        blocked, d := FirstRound(a, d);
        if blocked {
          FirstLoopOver(a, Now(), d, maxThroughput);
          return;
        }
        handledMsgs := handledMsgs + 1;
      }
      assert handledMsgs < maxThroughput && d != [] ==> Now().Pending() == [];
      FirstLoopOver(a, Now(), d, maxThroughput);
    }

    /** One round of run's second loop. */
    method HandleRound(ghost a: View, ghost k: nat, ghost d: seq<Msg>, ghost h: seq<Msg>)
      returns (ptr: Option<Msg>, blocked: bool)
      requires stack.Open? && Progress(a, Now(), k, d, h)
      modifies this
      ensures blocked == ptr.None? && Now().Waiting() == [] && Ever() == old(Ever())
      ensures Progress(a, Now(), k, d, h + Taken(ptr))
      ensures if blocked then stack == Blocked && Now().Pending() == [] else stack.Open?
      ensures looks == old(looks) + [old(Now()).CacheEmpty()]
    {
      ghost var b := Now();
      ptr, blocked := TakeOrBlock();
      Advance(a, b, Now(), k, d, h, Taken(ptr));
      if blocked {
        assert h + Taken(ptr) == h;
        return;
      }
      Consume(ptr.value);
      assert d + h + [ptr.value] == d + (h + [ptr.value]);
    }

    /** run's second loop. */
    method SecondLoop(maxThroughput: nat, handledBefore: nat, ghost a: View, ghost k: nat, ghost d: seq<Msg>)
      returns (ptr: Option<Msg>, blocked: bool, ghost h: seq<Msg>)
      requires stack.Open? && handledBefore == |d| <= maxThroughput && Progress(a, Now(), k, d, [])
      requires d != [] ==> Now().Waiting() == []
      modifies this
      ensures (maxThroughput > 0 ==> Now().Waiting() == []) && Ever() == old(Ever())
      ensures Progress(a, Now(), k, d, h) && |d| + |h| <= maxThroughput
      ensures maxThroughput == 0 ==> !blocked && ptr.None?
      ensures if blocked then stack == Blocked && Now().Pending() == [] else stack.Open? && |d| + |h| == maxThroughput
      ensures old(looks) <= looks && |looks| == |old(looks)| + |h| + (if blocked then 1 else 0)
      ensures Begins(looks, |old(looks)|, old(Now()).CacheEmpty())
    {
      var handledMsgs := handledBefore;
      ptr, blocked, h := None, false, [];
      while handledMsgs < maxThroughput
        invariant handledMsgs == |d| + |h| <= maxThroughput && stack.Open? && !blocked && Ever() == old(Ever())
        invariant handledMsgs > 0 ==> Now().Waiting() == []
        invariant Progress(a, Now(), k, d, h)
        invariant maxThroughput == 0 ==> ptr.None?
        invariant old(looks) <= looks && |looks| == |old(looks)| + |h|
        invariant if h == [] then Now() == old(Now()) else Begins(looks, |old(looks)|, old(Now()).CacheEmpty())
      {
        ptr, blocked := HandleRound(a, k, d, h);
        h := h + Taken(ptr);
        if blocked {
          return;
        }
        handledMsgs := handledMsgs + 1;
      }
    }

    /** run.  Assigning to ptr destroys the message it held, so one taken by the first loop, which consumes
        only from the second partition, is dropped. */
    method Run(maxThroughput: nat) returns (res: RunResult)
      requires stack.Open?
      modifies this
      ensures res == if maxThroughput == 0 then AssertionFailed else Awaiting
      ensures |old(looks)| <= |looks|
      ensures maxThroughput > 0 ==> RunWith(old(Now()), Now(), maxThroughput, Since(looks, |old(looks)|))
      ensures Ever() == old(Ever())
    {
      ghost var a, n := Now(), |looks|;
      ghost var d: seq<Msg>;
      var handledMsgs, blocked;
      handledMsgs, blocked, d := FirstLoop(maxThroughput, a);
      if blocked {
        ghost var b := Now();
        Conclude(a, b, maxThroughput, looks, n, Min(|d|, |a.second|), d, []);
        Within(a, b, maxThroughput, Since(looks, n), Min(|d|, |a.second|), d, []);
        return Awaiting;
      }
      ghost var h;
      res, h := RunOn(maxThroughput, handledMsgs, a, n, d);
      if maxThroughput > 0 {
        Within(a, Now(), maxThroughput, Since(looks, n), Min(|d|, |a.second|), d, h);
      }
    }

    /** run after its first loop, which dropped d; n looks were made before the run. */
    method RunOn(maxThroughput: nat, handledMsgs: nat, ghost a: View, ghost n: nat, ghost d: seq<Msg>)
      returns (res: RunResult, ghost h: seq<Msg>)
      requires stack.Open? && handledMsgs == |d| <= maxThroughput && (d != [] ==> Now().Waiting() == [])
      requires Progress(a, Now(), Min(|d|, |a.second|), d, [])
      requires |d| < maxThroughput ==> Now().CacheEmpty()
      requires |looks| == n + |d| && forall i | n <= i < |looks| :: !looks[i]
      modifies this
      ensures res == if maxThroughput == 0 then AssertionFailed else Awaiting
      ensures n <= |looks| && Ever() == old(Ever())
      ensures maxThroughput > 0 ==> Outcome(a, Now(), maxThroughput, Since(looks, n), Min(|d|, |a.second|), d, h)
    {
      ghost var k := Min(|d|, |a.second|);
      var ptr, blocked;
      ptr, blocked, h := SecondLoop(maxThroughput, handledMsgs, a, k, d);
      assert h != [] ==> |d| < maxThroughput && looks[n + |d|];
      assert forall i | n <= i < n + |d| :: !looks[i];
      res := Finish(maxThroughput, ptr, blocked, a, n, k, d, h);
    }

    /** run's end, after the second loop has blocked the mailbox or spent the budget. */
    method Finish(maxThroughput: nat, ptr: Option<Msg>, blocked: bool,
                  ghost a: View, ghost n: nat, ghost k: nat, ghost d: seq<Msg>, ghost h: seq<Msg>)
      returns (res: RunResult)
      requires maxThroughput == 0 ==> !blocked && ptr.None?
      requires maxThroughput > 0 ==> Now().Waiting() == []
      requires Progress(a, Now(), k, d, h)
      requires if blocked then stack == Blocked && Now().Pending() == [] else stack.Open? && |d| + |h| == maxThroughput
      requires |d| + |h| <= maxThroughput && |looks| == n + |d| + |h| + (if blocked then 1 else 0)
      requires (forall i | n <= i < n + |d| :: !looks[i]) && (h != [] ==> looks[n + |d|])
      modifies this`stack, this`head, this`first, this`second, this`arrived, this`schedule
      ensures res == if maxThroughput == 0 then AssertionFailed else Awaiting
      ensures Ever() == old(Ever())
      ensures maxThroughput > 0 ==> Outcome(a, Now(), maxThroughput, Since(looks, n), k, d, h)
    {
      if maxThroughput == 0 {
        res := RunWithoutBudget(ptr);
        return;
      }
      ghost var b := Now();
      res := Awaiting;
      if !blocked {
        res := Leave();
      }
      ghost var c := Now();
      assert OnlyArrivals(b, c);
      Advance(a, b, c, k, d, h, []);
      Conclude(a, c, maxThroughput, looks, n, k, d, h);
    }

    /** run's third loop, entered with no message only when nothing was allowed to be handled: it moves
        every message to the second partition until push_to_cache's assertion fails on the null one. */
    method RunWithoutBudget(ptr: Option<Msg>) returns (res: RunResult)
      requires stack.Open? && ptr.None?
      modifies this`stack, this`head, this`first, this`second, this`arrived, this`schedule
      ensures res == AssertionFailed && Ever() == old(Ever())
    {
      while true
        invariant stack.Open? && Ever() == old(Ever())
        decreases Supply() + |first|
      {
        var m := NextInOrder();
        if m.None? {
          return AssertionFailed;
        }
        PushToCache(NeverHigh, m.value);
      }
    }

    /** run's last lines: block the mailbox if nothing is left. */
    method Leave() returns (res: RunResult)
      requires stack.Open?
      modifies this`stack, this`arrived, this`schedule
      ensures res == Awaiting && OnlyArrivals(old(Now()), Now()) && Ever() == old(Ever())
      ensures stack == Blocked <==> Now().Pending() == []
    {
      ghost var a := Now();
      var more := HasNextMessage();
      ghost var b := Now();
      if !more {
        var blocked := TryBlock();
        ArrivalsCompose(a, b, Now());
      }
      return Awaiting;
    }
  }

  lemma Shift(d: seq<Msg>, m: Msg, w: seq<Msg>)
    ensures d + ([m] + w) == (d + [m]) + w
  {}

  /** Arrivals accumulate: bookkeeping for a loop that drains while messages keep coming. */
  lemma Continue(a0: seq<Msg>, a1: seq<Msg>, a2: seq<Msg>, start: seq<Msg>, d: seq<Msg>, w1: seq<Msg>, w2: seq<Msg>)
    requires a0 <= a1 <= a2
    requires d + w1 == start + a1[|a0|..] && w2 == w1 + a2[|a1|..]
    ensures d + w2 == start + a2[|a0|..]
  {
    assert a2[|a0|..] == a1[|a0|..] + a2[|a1|..];
    assert d + w2 == (d + w1) + a2[|a1|..];
  }
}
