/**
 Priorities among messages of any kind: the two classes, the stable partition, and what next_message's
 merging loop leaves in the cache (header/actors-framework/impl/actor/cooperative_actor.ipp:137-156).
 */
module Priorities {

  function Highs<M>(isHigh: M -> bool, s: seq<M>): seq<M> {
    if s == [] then []
    else Highs(isHigh, s[..|s| - 1]) + if isHigh(s[|s| - 1]) then [s[|s| - 1]] else []
  }

  function Normals<M>(isHigh: M -> bool, s: seq<M>): seq<M> {
    if s == [] then []
    else Normals(isHigh, s[..|s| - 1]) + if isHigh(s[|s| - 1]) then [] else [s[|s| - 1]]
  }

  /** All high-priority messages before all normal ones, each class in the order it had. */
  function StablePartition<M>(isHigh: M -> bool, s: seq<M>): seq<M> { Highs(isHigh, s) + Normals(isHigh, s) }

  ghost predicate PrioritySorted<M>(isHigh: M -> bool, s: seq<M>) {
    forall i, j | 0 <= i < j < |s| :: isHigh(s[j]) ==> isHigh(s[i])
  }

  lemma ClassStep<M>(isHigh: M -> bool, s: seq<M>, m: M)
    ensures Highs(isHigh, s + [m]) == Highs(isHigh, s) + if isHigh(m) then [m] else []
    ensures Normals(isHigh, s + [m]) == Normals(isHigh, s) + if isHigh(m) then [] else [m]
  {
    assert (s + [m])[..|s|] == s;
  }

  lemma {:induction false} ClassAppend<M>(isHigh: M -> bool, a: seq<M>, b: seq<M>)
    ensures Highs(isHigh, a + b) == Highs(isHigh, a) + Highs(isHigh, b)
    ensures Normals(isHigh, a + b) == Normals(isHigh, a) + Normals(isHigh, b)
    decreases |b|
  {
    if b == [] {
      assert a + b == a;
    } else {
      var b0, m := b[..|b| - 1], b[|b| - 1];
      assert b0 + [m] == b && (a + b0) + [m] == a + b;
      ClassAppend(isHigh, a, b0);
      ClassStep(isHigh, a + b0, m);
      ClassStep(isHigh, b0, m);
      var h, n := if isHigh(m) then [m] else [], if isHigh(m) then [] else [m];
      assert (Highs(isHigh, a) + Highs(isHigh, b0)) + h == Highs(isHigh, a) + (Highs(isHigh, b0) + h);
      assert (Normals(isHigh, a) + Normals(isHigh, b0)) + n == Normals(isHigh, a) + (Normals(isHigh, b0) + n);
    }
  }

  lemma {:induction false} ClassMembers<M>(isHigh: M -> bool, s: seq<M>)
    ensures forall i | 0 <= i < |Highs(isHigh, s)| :: isHigh(Highs(isHigh, s)[i])
    ensures forall i | 0 <= i < |Normals(isHigh, s)| :: !isHigh(Normals(isHigh, s)[i])
    decreases |s|
  {
    if s != [] {
      ClassMembers(isHigh, s[..|s| - 1]);
    }
  }

  lemma {:induction false} OneClass<M>(isHigh: M -> bool, s: seq<M>, high: bool)
    requires forall i | 0 <= i < |s| :: isHigh(s[i]) == high
    ensures Highs(isHigh, s) == if high then s else []
    ensures Normals(isHigh, s) == if high then [] else s
    decreases |s|
  {
    if s != [] {
      var s0, m := s[..|s| - 1], s[|s| - 1];
      assert s == s0 + [m] && m in s;
      OneClass(isHigh, s0, high);
      ClassStep(isHigh, s0, m);
    }
  }

  /** What the merging loop leaves in the first partition after draining d into it. */
  function Merged<M>(isHigh: M -> bool, first: seq<M>, d: seq<M>): seq<M> {
    Highs(isHigh, d) + first + Normals(isHigh, d)
  }

  /** Does next_message look into the mailbox? */
  predicate Drains<M>(isHigh: M -> bool, first: seq<M>) { first == [] || !isHigh(first[0]) }

  /** The merge is the stable partition of the cached messages followed by the drained ones. */
  lemma MergeIsStablePartition<M>(isHigh: M -> bool, first: seq<M>, d: seq<M>)
    requires PrioritySorted(isHigh, first) && Drains(isHigh, first)
    ensures Merged(isHigh, first, d) == StablePartition(isHigh, first + d)
  {
    assert forall j | 0 < j < |first| :: isHigh(first[j]) ==> isHigh(first[0]);
    OneClass(isHigh, first, false);
    ClassAppend(isHigh, first, d);
    Regroup(Highs(isHigh, d), first, Normals(isHigh, d));
  }

  lemma Regroup<M>(h: seq<M>, base: seq<M>, n: seq<M>)
    ensures h + base + n == ([] + h) + (base + n)
  {}

  lemma InsertBehindHighs<M>(h: seq<M>, base: seq<M>, n: seq<M>, m: M)
    ensures var s := h + base + n;
      s[..|h|] + [m] + s[|h|..] == (h + [m]) + base + n && s + [m] == h + base + (n + [m])
  {}

  /** Merging one more message. */
  lemma MergedGrows<M>(isHigh: M -> bool, base: seq<M>, d: seq<M>, m: M)
    ensures var s, k := Merged(isHigh, base, d), |Highs(isHigh, d)|;
      && Merged(isHigh, base, d + [m]) == (if isHigh(m) then s[..k] + [m] + s[k..] else s + [m])
      && |Highs(isHigh, d + [m])| == k + if isHigh(m) then 1 else 0
  {
    ClassStep(isHigh, d, m);
    InsertBehindHighs(Highs(isHigh, d), base, Normals(isHigh, d), m);
    NothingMore(Highs(isHigh, d));
    NothingMore(Normals(isHigh, d));
  }

  lemma NothingMore<M>(s: seq<M>)
    ensures s + [] == s
  {}

  /** A stable partition is sorted by priority, and so is what remains after its front is taken. */
  lemma StablePartitionIsSorted<M>(isHigh: M -> bool, s: seq<M>)
    ensures PrioritySorted(isHigh, StablePartition(isHigh, s))
  {
    ClassMembers(isHigh, s);
    var p, h, n := StablePartition(isHigh, s), Highs(isHigh, s), Normals(isHigh, s);
    assert forall i | 0 <= i < |h| :: p[i] == h[i] && isHigh(h[i]);
    assert forall j | |h| <= j < |p| :: p[j] == n[j - |h|] && !isHigh(n[j - |h|]);
  }

  /** When the cache already starts with a high-priority message, its head is the head of the stable
      partition of cache and mailbox, whatever the mailbox holds. */
  lemma CachedHighIsFirst<M>(isHigh: M -> bool, first: seq<M>, d: seq<M>)
    requires !Drains(isHigh, first)
    ensures StablePartition(isHigh, first + d)[..1] == first[..1]
  {
    ClassAppend(isHigh, first[..1], first[1..] + d);
    assert first[..1] + (first[1..] + d) == first + d;
    OneClass(isHigh, first[..1], true);
  }

  /** What std::partition_point answers on a range with all high-priority elements first (section 28.7.4 of
      ISO/IEC 14882:2017): the first element that is not of high priority. */
  function PartitionPoint<M>(isHigh: M -> bool, s: seq<M>): (k: nat)
    requires PrioritySorted(isHigh, s)
    ensures k <= |s| && forall i | 0 <= i < |s| :: isHigh(s[i]) <==> i < k
  {
    if s == [] || !isHigh(s[0]) then 0 else
      assert forall i | 0 <= i < |s[1..]| :: s[1..][i] == s[i + 1];
      1 + PartitionPoint(isHigh, s[1..])
  }

  lemma ClassesOfSorted<M>(isHigh: M -> bool, s: seq<M>)
    requires PrioritySorted(isHigh, s)
    ensures var k := PartitionPoint(isHigh, s); Highs(isHigh, s) == s[..k] && Normals(isHigh, s) == s[k..]
  {
    var k := PartitionPoint(isHigh, s);
    assert s == s[..k] + s[k..];
    ClassAppend(isHigh, s[..k], s[k..]);
    OneClass(isHigh, s[..k], true);
    OneClass(isHigh, s[k..], false);
  }

  /** Inserting a message behind the others of its class, in a range that has all high-priority ones first, gives the
      stable partition of the range followed by the message. */
  lemma InsertBehindClass<M>(isHigh: M -> bool, s: seq<M>, m: M)
    requires PrioritySorted(isHigh, s)
    ensures var k := PartitionPoint(isHigh, s);
      StablePartition(isHigh, s + [m]) == if isHigh(m) then s[..k] + [m] + s[k..] else s + [m]
  {
    ClassesOfSorted(isHigh, s);
    ClassStep(isHigh, s, m);
    SplitAppend(s, PartitionPoint(isHigh, s), m);
  }

  lemma SplitAppend<M>(s: seq<M>, k: nat, m: M)
    requires k <= |s|
    ensures (s[..k] + []) + (s[k..] + [m]) == s + [m]
    ensures (s[..k] + [m]) + (s[k..] + []) == s[..k] + [m] + s[k..]
  {}
}
