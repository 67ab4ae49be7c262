/**
 Whole histories of next_message: any series of calls and arrivals, for any priority predicate.
 */
module PriorityHistory {
  import opened Common
  import opened Priorities
  import opened CooperativeActor

  /** A call of next_message with its result, or a while in which messages arrive. */
  datatype Happening = Took(r: Option<Msg>) | Elapsed

  ghost predicate Happens(isHigh: Msg -> bool, a: View, b: View, e: Happening) {
    match e
    case Took(r) => NextMessageStep(isHigh, a, b, r)
    case Elapsed => OnlyArrivals(a, b)
  }

  ghost predicate IsHistory(isHigh: Msg -> bool, vs: seq<View>, es: seq<Happening>) {
    && |vs| == |es| + 1
    && vs[0] == View(Open([]), [], [], [], [], [], [])
    && forall i | 0 <= i < |es| :: HappensAt(isHigh, vs, es, i)
  }

  ghost predicate HappensAt(isHigh: Msg -> bool, vs: seq<View>, es: seq<Happening>, i: nat)
    requires i < |es| < |vs|
  {
    Happens(isHigh, vs[i], vs[i + 1], es[i])
  }

  /** All messages the first n happenings took, in order. */
  function TakenBy(es: seq<Happening>, n: nat): seq<Msg>
    requires n <= |es|
  {
    if n == 0 then [] else TakenBy(es, n - 1) + if es[n - 1].Took? then Taken(es[n - 1].r) else []
  }

  /** The high-priority or the normal messages of s. */
  function Class(isHigh: Msg -> bool, high: bool, s: seq<Msg>): seq<Msg> {
    if high then Highs(isHigh, s) else Normals(isHigh, s)
  }

  lemma ClassOfBoth(isHigh: Msg -> bool, high: bool, s: seq<Msg>, t: seq<Msg>)
    ensures Class(isHigh, high, s + t) == Class(isHigh, high, s) + Class(isHigh, high, t)
  {
    ClassAppend(isHigh, s, t);
  }

  /** A stable partition keeps each class as it was. */
  lemma PartitionKeepsClasses(isHigh: Msg -> bool, high: bool, s: seq<Msg>)
    ensures Class(isHigh, high, StablePartition(isHigh, s)) == Class(isHigh, high, s)
  {
    ClassMembers(isHigh, s);
    OneClass(isHigh, Highs(isHigh, s), true);
    OneClass(isHigh, Normals(isHigh, s), false);
    ClassAppend(isHigh, Highs(isHigh, s), Normals(isHigh, s));
  }

  /** What next_message takes is the most urgent message there is, oldest first: the head of the stable partition of
      cache, mailbox and arrivals, whether or not it looked into the mailbox. */
  lemma TakesMostUrgent(isHigh: Msg -> bool, a: View, b: View, r: Option<Msg>)
    requires NextMessageStep(isHigh, a, b, r) && PrioritySorted(isHigh, a.first)
    ensures var all := StablePartition(isHigh, a.first + (a.Waiting() + b.arrived[|a.arrived|..]));
      Taken(r) == if all == [] then [] else [all[0]]
  {
    var d := a.Waiting() + b.arrived[|a.arrived|..];
    var all := StablePartition(isHigh, a.first + d);
    if Drains(isHigh, a.first) {
      MergeIsStablePartition(isHigh, a.first, d);
      assert all == Taken(r) + b.first;
    } else {
      CachedHighIsFirst(isHigh, a.first, d);
      assert a.first == Taken(r) + b.first && a.first[..1] == [a.first[0]] && all[..1] == a.first[..1];
      assert all != [] && all[..1] == [all[0]];
    }
  }

  lemma TakingKeepsSorted(isHigh: Msg -> bool, a: View, b: View, r: Option<Msg>)
    requires NextMessageStep(isHigh, a, b, r) && PrioritySorted(isHigh, a.first)
    ensures PrioritySorted(isHigh, b.first)
  {
    var c := Candidates(isHigh, a, b);
    if Drains(isHigh, a.first) {
      var d := a.Waiting() + b.arrived[|a.arrived|..];
      MergeIsStablePartition(isHigh, a.first, d);
      StablePartitionIsSorted(isHigh, a.first + d);
    }
    assert c == Taken(r) + b.first && PrioritySorted(isHigh, c);
    assert forall i | 0 <= i < |b.first| :: b.first[i] == c[i + |Taken(r)|];
  }

  lemma DrainKeepsClass(isHigh: Msg -> bool, high: bool, first: seq<Msg>, w: seq<Msg>, news: seq<Msg>,
                        taken: seq<Msg>, first': seq<Msg>)
    requires PrioritySorted(isHigh, first) && Drains(isHigh, first)
    requires Merged(isHigh, first, w + news) == taken + first'
    ensures Class(isHigh, high, taken) + Class(isHigh, high, first')
         == Class(isHigh, high, first) + Class(isHigh, high, w) + Class(isHigh, high, news)
  {
    MergeIsStablePartition(isHigh, first, w + news);
    PartitionKeepsClasses(isHigh, high, first + (w + news));
    ClassOfBoth(isHigh, high, taken, first');
    ClassOfBoth(isHigh, high, first, w + news);
    ClassOfBoth(isHigh, high, w, news);
    Assoc(Class(isHigh, high, first), Class(isHigh, high, w), Class(isHigh, high, news));
  }

  lemma Assoc<X>(a: seq<X>, b: seq<X>, c: seq<X>)
    ensures a + b + c == a + (b + c) && a + b + [] == a + b
  {}

  lemma TakingKeepsClass(isHigh: Msg -> bool, high: bool, a: View, b: View, r: Option<Msg>)
    requires NextMessageStep(isHigh, a, b, r) && PrioritySorted(isHigh, a.first)
    ensures Class(isHigh, high, Taken(r)) + Class(isHigh, high, b.first) + Class(isHigh, high, b.Waiting())
         == Class(isHigh, high, a.first) + Class(isHigh, high, a.Waiting()) + Class(isHigh, high, b.arrived[|a.arrived|..])
  {
    var news := b.arrived[|a.arrived|..];
    if Drains(isHigh, a.first) {
      assert b.Waiting() == [];
      DrainKeepsClass(isHigh, high, a.first, a.Waiting(), news, Taken(r), b.first);
      Assoc(Class(isHigh, high, Taken(r)), Class(isHigh, high, b.first), []);
    } else {
      assert news == [] && b.Waiting() == a.Waiting();
      ClassOfBoth(isHigh, high, Taken(r), b.first);
      Assoc(Class(isHigh, high, a.first), Class(isHigh, high, a.Waiting()), []);
    }
  }

  /** Over every history, at every moment: the first partition is sorted by priority, and the high-priority messages
      that have been taken, are cached and are waiting are, in this order, those that arrived in the order they
      arrived; and so are the normal ones. */
  lemma {:induction false} EachClassInArrivalOrder(isHigh: Msg -> bool, vs: seq<View>, es: seq<Happening>, n: nat, high: bool)
    requires IsHistory(isHigh, vs, es) && n <= |es|
    ensures PrioritySorted(isHigh, vs[n].first)
    ensures Class(isHigh, high, TakenBy(es, n)) + Class(isHigh, high, vs[n].first) + Class(isHigh, high, vs[n].Waiting())
         == Class(isHigh, high, vs[n].arrived)
  {
    if n > 0 {
      var a, b, e := vs[n - 1], vs[n], es[n - 1];
      EachClassInArrivalOrder(isHigh, vs, es, n - 1, high);
      assert HappensAt(isHigh, vs, es, n - 1);
      StepKeepsClass(isHigh, a, b, e, TakenBy(es, n - 1), high);
    }
  }

  lemma StepKeepsClass(isHigh: Msg -> bool, a: View, b: View, e: Happening, taken: seq<Msg>, high: bool)
    requires Happens(isHigh, a, b, e) && PrioritySorted(isHigh, a.first)
    requires Class(isHigh, high, taken) + Class(isHigh, high, a.first) + Class(isHigh, high, a.Waiting())
          == Class(isHigh, high, a.arrived)
    ensures PrioritySorted(isHigh, b.first)
    ensures Class(isHigh, high, taken + if e.Took? then Taken(e.r) else [])
          + Class(isHigh, high, b.first) + Class(isHigh, high, b.Waiting())
         == Class(isHigh, high, b.arrived)
  {
    var news := b.arrived[|a.arrived|..];
    assert b.arrived == a.arrived + news;
    ClassOfBoth(isHigh, high, a.arrived, news);
    match e {
      case Took(r) =>
        TakingKeepsSorted(isHigh, a, b, r);
        TakingKeepsClass(isHigh, high, a, b, r);
        TakenClass(isHigh, high, taken, Taken(r), Class(isHigh, high, b.first), Class(isHigh, high, b.Waiting()),
                   Class(isHigh, high, a.first), Class(isHigh, high, a.Waiting()), Class(isHigh, high, news));
      case Elapsed =>
        ClassOfBoth(isHigh, high, a.Waiting(), news);
        assert taken + [] == taken;
        Assoc(Class(isHigh, high, taken) + Class(isHigh, high, a.first),
              Class(isHigh, high, a.Waiting()), Class(isHigh, high, news));
    }
  }

  lemma TakenClass(isHigh: Msg -> bool, high: bool, taken: seq<Msg>, r: seq<Msg>,
                   f': seq<Msg>, w': seq<Msg>, f: seq<Msg>, w: seq<Msg>, news: seq<Msg>)
    requires Class(isHigh, high, r) + f' + w' == f + w + news
    ensures Class(isHigh, high, taken + r) + f' + w' == (Class(isHigh, high, taken) + f + w) + news
  {
    ClassOfBoth(isHigh, high, taken, r);
    Shifted(Class(isHigh, high, taken), Class(isHigh, high, r), f', w', f, w, news);
  }

  lemma Shifted<X>(t: seq<X>, r: seq<X>, f': seq<X>, w': seq<X>, f: seq<X>, w: seq<X>, news: seq<X>)
    requires r + f' + w' == f + w + news
    ensures (t + r) + f' + w' == (t + f + w) + news
  {
    assert (t + r) + f' + w' == t + (r + f' + w');
    assert (t + f + w) + news == t + (f + w + news);
  }
}
