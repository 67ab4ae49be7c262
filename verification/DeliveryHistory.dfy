/**
 Whole histories of an actor: what a series of runs, with releases and arrivals in between, does to the
 messages it was sent.
 */
module DeliveryHistory {
  import opened CooperativeActor
  import opened Common

  /** What happens to an actor: a run with a positive budget, or a pause in which the mailbox is unblocked
      by the release and messages arrive. */
  datatype Happening = Ran(max: nat) | Paused

  ghost predicate Happens(a: View, b: View, e: Happening) {
    match e
    case Ran(max) => max > 0 && a.stack.Open? && RunStep(a, b, max)
    case Paused => OnlyArrivals(a, b) && b.stack.Open?
  }

  ghost predicate IsHistory(vs: seq<View>, es: seq<Happening>) {
    && |vs| == |es| + 1
    && vs[0] == View(Open([]), [], [], [], [], [], [])
    && forall i | 0 <= i < |es| :: HappensAt(vs, es, i)
  }

  ghost predicate HappensAt(vs: seq<View>, es: seq<Happening>, i: nat)
    requires i < |es| < |vs|
  {
    Happens(vs[i], vs[i + 1], es[i])
  }

  /** A run that finds messages in the first partition. */
  ghost predicate FindsLeftovers(vs: seq<View>, es: seq<Happening>, i: nat)
    requires i < |es| < |vs|
  {
    es[i].Ran? && vs[i].first != []
  }

  /** None of the first n happenings is such a run. */
  ghost predicate NoLeftovers(vs: seq<View>, es: seq<Happening>, n: nat)
    requires n <= |es| < |vs|
  {
    n == 0 || (NoLeftovers(vs, es, n - 1) && !FindsLeftovers(vs, es, n - 1))
  }

  /** The second partition stays empty over every history. */
  lemma {:induction false} SecondStaysEmpty(vs: seq<View>, es: seq<Happening>, n: nat)
    requires IsHistory(vs, es) && n <= |es|
    ensures vs[n].second == []
  {
    if n > 0 {
      SecondStaysEmpty(vs, es, n - 1);
      assert HappensAt(vs, es, n - 1);
    }
  }

  /** No message is lost track of: over every history, as often as m has arrived it is handled, dropped or
      pending. */
  lemma {:induction false} EveryMessageAccountedFor(vs: seq<View>, es: seq<Happening>, n: nat, m: Msg)
    requires IsHistory(vs, es) && n <= |es|
    ensures Occurs(vs[n].handled, m) + Occurs(vs[n].dropped, m) + Occurs(vs[n].Pending(), m) == Occurs(vs[n].arrived, m)
  {
    if n > 0 {
      EveryMessageAccountedFor(vs, es, n - 1, m);
      SecondStaysEmpty(vs, es, n - 1);
      var a, b, e := vs[n - 1], vs[n], es[n - 1];
      assert HappensAt(vs, es, n - 1);
      StepAccounts(a, b, e, m);
    }
  }

  lemma StepAccounts(a: View, b: View, e: Happening, m: Msg)
    requires Happens(a, b, e) && a.second == []
    ensures Occurs(b.handled, m) + Occurs(b.dropped, m) + Occurs(b.Pending(), m) + Occurs(a.arrived, m)
         == Occurs(a.handled, m) + Occurs(a.dropped, m) + Occurs(a.Pending(), m) + Occurs(b.arrived, m)
  {
    if e.Ran? {
      RunAccounts(a, b, e.max, m);
    } else {
      PauseAccounts(a, b, m);
    }
  }

  /** What a run adds to handled, dropped and pending is what arrived during it. */
  lemma RunAccounts(a: View, b: View, max: nat, m: Msg)
    requires RunStep(a, b, max) && a.second == []
    ensures Occurs(b.handled, m) + Occurs(b.dropped, m) + Occurs(b.Pending(), m) + Occurs(a.arrived, m)
         == Occurs(a.handled, m) + Occurs(a.dropped, m) + Occurs(a.Pending(), m) + Occurs(b.arrived, m)
  {
    var looks :| RunWith(a, b, max, looks);
    var k: nat, d, h :| RunTakes(a, b, max, looks, k, d, h);
    ProgressAccounts(a, b, k, d, h, m);
  }

  lemma ProgressAccounts(a: View, b: View, k: nat, d: seq<Msg>, h: seq<Msg>, m: Msg)
    requires Progress(a, b, k, d, h) && a.second == []
    ensures Occurs(b.handled, m) + Occurs(b.dropped, m) + Occurs(b.Pending(), m) + Occurs(a.arrived, m)
         == Occurs(a.handled, m) + Occurs(a.dropped, m) + Occurs(a.Pending(), m) + Occurs(b.arrived, m)
  {
    var news := b.arrived[|a.arrived|..];
    assert b.arrived == a.arrived + news && b.handled == a.handled + h;
    OccursAppend(a.handled, h, m);
    OccursAppend(a.dropped, d, m);
    OccursAppend(a.arrived, news, m);
    OccursAppend(a.Pending(), news, m);
    OccursAppend(d + h, b.Pending(), m);
    OccursAppend(d, h, m);
  }

  lemma PauseAccounts(a: View, b: View, m: Msg)
    requires OnlyArrivals(a, b)
    ensures Occurs(b.handled, m) + Occurs(b.dropped, m) + Occurs(b.Pending(), m) + Occurs(a.arrived, m)
         == Occurs(a.handled, m) + Occurs(a.dropped, m) + Occurs(a.Pending(), m) + Occurs(b.arrived, m)
  {
    var news := b.arrived[|a.arrived|..];
    assert b.arrived == a.arrived + news && b.Pending() == a.Pending() + news;
    OccursAppend(a.arrived, news, m);
    OccursAppend(a.Pending(), news, m);
  }

  /** Exactly-once, in-order delivery: over every history nothing has been dropped if and only if no run
      found leftovers in the cache, and then what was handled followed by what is pending is what arrived. */
  lemma {:induction false} DeliveredExactlyIff(vs: seq<View>, es: seq<Happening>, n: nat)
    requires IsHistory(vs, es) && n <= |es|
    ensures vs[n].dropped == [] <==> NoLeftovers(vs, es, n)
    ensures vs[n].dropped == [] ==> vs[n].handled + vs[n].Pending() == vs[n].arrived
  {
    if n > 0 {
      DeliveredExactlyIff(vs, es, n - 1);
      DeliveredNext(vs, es, n - 1);
    }
  }

  lemma DeliveredNext(vs: seq<View>, es: seq<Happening>, n: nat)
    requires IsHistory(vs, es) && n < |es|
    requires vs[n].dropped == [] ==> vs[n].handled + vs[n].Pending() == vs[n].arrived
    ensures vs[n + 1].dropped == [] <==> vs[n].dropped == [] && !FindsLeftovers(vs, es, n)
    ensures vs[n + 1].dropped == [] ==> vs[n + 1].handled + vs[n + 1].Pending() == vs[n + 1].arrived
  {
    SecondStaysEmpty(vs, es, n);
    assert HappensAt(vs, es, n);
    DeliveredByStep(vs[n], vs[n + 1], es[n]);
  }

  lemma DeliveredByStep(a: View, b: View, e: Happening)
    requires Happens(a, b, e) && a.second == []
    requires a.dropped == [] ==> a.handled + a.Pending() == a.arrived
    ensures b.dropped == [] <==> a.dropped == [] && !(e.Ran? && a.first != [])
    ensures b.dropped == [] ==> b.handled + b.Pending() == b.arrived
  {
    if e.Ran? {
      DeliveredByRun(a, b, e.max);
    } else {
      assert b.handled + b.Pending() == (a.handled + a.Pending()) + b.arrived[|a.arrived|..];
    }
  }

  /** One run with an empty second partition drops something exactly when the first one is not empty; if it
      drops nothing it handles the next messages in order, without gap or repetition. */
  lemma DeliveredByRun(a: View, b: View, max: nat)
    requires RunStep(a, b, max) && max > 0 && a.second == []
    ensures b.dropped == a.dropped <==> a.first == []
    ensures a.dropped <= b.dropped && a.handled <= b.handled && a.arrived <= b.arrived
    ensures a.first == [] && a.handled + a.Pending() == a.arrived ==> b.handled + b.Pending() == b.arrived
    ensures a.first == [] ==> |b.handled| <= |a.handled| + max
    ensures a.first == [] && b.stack == Blocked ==> b.Pending() == []
    ensures a.first == [] && b.stack != Blocked ==> |b.handled| == |a.handled| + max
    ensures b.stack == Blocked <==> b.Pending() == []
  {
    var looks :| RunWith(a, b, max, looks);
    var k: nat, d, h :| RunTakes(a, b, max, looks, k, d, h);
    DeliveredWith(a, b, max, k, d, h);
  }

  lemma DeliveredWith(a: View, b: View, max: nat, k: nat, d: seq<Msg>, h: seq<Msg>)
    requires Progress(a, b, k, d, h) && Budgeted(a, k, d, max) && max > 0 && a.second == []
    ensures b.handled == a.handled + h && b.dropped == a.dropped + d && (d == [] <==> a.first == [])
    ensures d == [] && a.handled + a.Pending() == a.arrived ==> b.handled + b.Pending() == b.arrived
  {
    assert a.second[..k] == [];
    if d == [] {
      var news := b.arrived[|a.arrived|..];
      assert h + b.Pending() == a.Pending() + news;
      assert (a.handled + h) + b.Pending() == a.handled + (h + b.Pending());
      assert a.handled + (a.Pending() + news) == (a.handled + a.Pending()) + news;
      assert b.arrived == a.arrived + news;
    }
  }

  /** Two messages, a budget of one: the first run handles m1 and leaves m2 in the cache; the second run,
      entered with nothing else to do, destroys m2 without handling it. */
  method SecondRunDropsLeftover(m1: Msg, m2: Msg) returns (handled: seq<Msg>, dropped: seq<Msg>)
    ensures handled == [m1] && dropped == [m2]
  {
    var actor := new Actor([]);
    actor.EnqueueAll([m1, m2]);
    ghost var v0 := actor.Now();
    assert v0.Pending() == v0.arrived == actor.Ever() == [m1, m2];
    var r := actor.Run(1);
    ghost var v1 := actor.Now();
    assert v1.arrived == [m1, m2] by { assert |v1.arrived| <= |actor.Ever()|; }
    OneHandledOneLeft(v0, v1, m1, m2);
    var unblocked := actor.TryUnblock();
    ghost var v2 := actor.Now();
    assert v2.arrived == [m1, m2] by { assert |v2.arrived| <= |actor.Ever()|; }
    r := actor.Run(1);
    ghost var v3 := actor.Now();
    assert v3.arrived == [m1, m2] by { assert |v3.arrived| <= |actor.Ever()|; }
    OneLeftoverIsDropped(v2, v3, m2);
    handled, dropped := actor.handled, actor.dropped;
  }

  lemma OneHandledOneLeft(a: View, b: View, m1: Msg, m2: Msg)
    requires RunStep(a, b, 1) && a.CacheEmpty() && a.Pending() == [m1, m2] && b.arrived == a.arrived
    ensures b.handled == a.handled + [m1] && b.dropped == a.dropped
    ensures b.Pending() == b.first == [m2] && b.second == []
  {
    var looks :| RunWith(a, b, 1, looks);
    var k: nat, d, h :| RunTakes(a, b, 1, looks, k, d, h);
    var left := h + b.Pending();
    assert d == [] && d + h + b.Pending() == left;
    assert b.arrived[|a.arrived|..] == [] && left == [m1, m2];
    assert |h| == 1 && h[0] == left[0] && b.Pending() == left[1..];
    assert a.second[..k] == [];
  }

  lemma OneLeftoverIsDropped(a: View, b: View, m: Msg)
    requires RunStep(a, b, 1) && a.Pending() == a.first == [m] && a.second == [] && b.arrived == a.arrived
    ensures b.dropped == a.dropped + [m] && b.handled == a.handled
  {
    var looks :| RunWith(a, b, 1, looks);
    var k: nat, d, h :| RunTakes(a, b, 1, looks, k, d, h);
    assert |d| == 1 && h == [] && d + h + b.Pending() == [m];
    assert (d + h + b.Pending())[0] == d[0];
    assert a.second[..k] == [];
  }
}
