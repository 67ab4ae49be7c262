/**
 The reference counter of header/actors-framework/detail/ref_counted.hpp under every interleaving of
 holders: `deref` first tests whether the count is one and only then decrements it.
 */
module RefCounted {

  /** Each reference has its own name: what is counted are references, whichever thread uses them. */
  type Ref = nat

  /** live: references not yet given up; testing: those whose deref found unique() false and is about to
      fetch_sub. */
  datatype State = State(rc: int, live: set<Ref>, testing: set<Ref>, deleted: bool)

  datatype Action =
    | AddRef(from: Ref, r: Ref)   // ref, by someone who has a reference
    | Test(r: Ref)              // deref: unique()
    | Sub(r: Ref)               // deref: fetch_sub

  /** The counter starts at one, for its creator's reference. */
  ghost predicate Init(s: State) { exists r: Ref :: s == State(1, {r}, {}, false) }

  predicate Enabled(s: State, a: Action) {
    match a
    case AddRef(from, r) => from in s.live - s.testing && r !in s.live
    case Test(r) => r in s.live - s.testing
    case Sub(r) => r in s.testing
  }

  function Apply(s: State, a: Action): State
    requires Enabled(s, a)
  {
    match a
    case AddRef(from, r) => s.(rc := s.rc + 1, live := s.live + {r})
    case Test(r) =>
      if s.rc == 1 then s.(live := s.live - {r}, deleted := true) else s.(testing := s.testing + {r})
    case Sub(r) =>
      s.(rc := s.rc - 1, live := s.live - {r}, testing := s.testing - {r}, deleted := s.deleted || s.rc == 1)
  }

  predicate Deletes(s: State, a: Action)
    requires Enabled(s, a)
  {
    (a.Test? || a.Sub?) && s.rc == 1
  }

  ghost predicate Inv(s: State) {
    && s.testing <= s.live
    && (s.deleted <==> s.live == {})
    && (!s.deleted ==> s.rc == |s.live|)
  }

  /** While the object lives the counter is the number of references not yet given up; a step deletes the object
      exactly when it gives up the last one, so no one else still holds it. */
  lemma CountIsExact(s: State, a: Action)
    requires Inv(s) && Enabled(s, a)
    ensures Inv(Apply(s, a)) && !s.deleted
    ensures Deletes(s, a) <==> Apply(s, a).live == {}
  {
    var s' := Apply(s, a);
    match a {
      case AddRef(from, r) =>
      case Test(r) =>
        assert |s.live - {r}| == |s.live| - 1;
        if s.rc == 1 { assert s'.live == {}; assert s'.testing == {}; }
      case Sub(r) =>
        assert |s.live - {r}| == |s.live| - 1;
    }
  }

  ghost predicate IsRun(run: seq<State>, acts: seq<Action>) {
    |run| == |acts| + 1 && Init(run[0]) && forall i | 0 <= i < |acts| :: Follows(run, acts, i)
  }

  ghost predicate Follows(run: seq<State>, acts: seq<Action>, i: nat)
    requires |run| == |acts| + 1 && i < |acts|
  {
    Enabled(run[i], acts[i]) && run[i + 1] == Apply(run[i], acts[i])
  }

  ghost function Deletions(run: seq<State>, acts: seq<Action>, n: nat): nat
    requires IsRun(run, acts) && n <= |acts|
  {
    if n == 0 then 0 else
      assert Follows(run, acts, n - 1);
      Deletions(run, acts, n - 1) + if Deletes(run[n - 1], acts[n - 1]) then 1 else 0
  }

  /** Over every run: the object has been deleted once if all references are given up, and not at all otherwise;
      until then the counter is exact. */
  lemma {:induction false} DeletedOnceByTheLast(run: seq<State>, acts: seq<Action>, n: nat)
    requires IsRun(run, acts) && n <= |acts|
    ensures Inv(run[n])
    ensures Deletions(run, acts, n) == if run[n].live == {} then 1 else 0
    ensures run[n].live != {} ==> run[n].rc == |run[n].live|
  {
    if n > 0 {
      DeletedOnceByTheLast(run, acts, n - 1);
      assert Follows(run, acts, n - 1);
      CountIsExact(run[n - 1], acts[n - 1]);
    }
  }

  // ---------- a deref gives its reference up ----------

  function One(b: bool): nat { if b then 1 else 0 }

  predicate IsDeref(a: Action) { a.Test? || a.Sub? }

  /** The step completes a deref: its fetch_sub, or a test that found the reference unique. */
  predicate Completes(s: State, a: Action) { a.Sub? || (a.Test? && s.rc == 1) }

  /** Over the first n steps: references taken, derefs of reference r begun, and derefs completed. */
  function AddsBy(acts: seq<Action>, n: nat): nat
    requires n <= |acts|
  {
    if n == 0 then 0 else AddsBy(acts, n - 1) + One(acts[n - 1].AddRef?)
  }

  function CompletedBy(run: seq<State>, acts: seq<Action>, n: nat): nat
    requires n <= |acts| < |run|
  {
    if n == 0 then 0 else CompletedBy(run, acts, n - 1) + One(Completes(run[n - 1], acts[n - 1]))
  }

  lemma LiveStep(s: State, a: Action)
    requires Inv(s) && Enabled(s, a)
    ensures |Apply(s, a).live| + One(Completes(s, a)) == |s.live| + One(a.AddRef?)
  {
    match a {
      case AddRef(from, r) => assert |s.live + {r}| == |s.live| + 1;
      case Test(r) => assert |s.live - {r}| == |s.live| - 1;
      case Sub(r) => assert |s.live - {r}| == |s.live| - 1;
    }
  }

  /** Over every run: the references there are are the creator's, plus those taken, less those whose deref is complete;
      and the counter says so as long as the object lives. */
  lemma {:induction false} CountIsAddsLessDerefs(run: seq<State>, acts: seq<Action>, n: nat)
    requires IsRun(run, acts) && n <= |acts|
    ensures |run[n].live| == 1 + AddsBy(acts, n) - CompletedBy(run, acts, n)
    ensures !run[n].deleted ==> run[n].rc == 1 + AddsBy(acts, n) - CompletedBy(run, acts, n)
  {
    DeletedOnceByTheLast(run, acts, n);
    if n > 0 {
      CountIsAddsLessDerefs(run, acts, n - 1);
      DeletedOnceByTheLast(run, acts, n - 1);
      assert Follows(run, acts, n - 1);
      LiveStep(run[n - 1], acts[n - 1]);
    }
  }

  /** How often reference r was taken, and how often its deref was begun. */
  function AddsOf(acts: seq<Action>, r: Ref, n: nat): nat
    requires n <= |acts|
  {
    if n == 0 then 0 else AddsOf(acts, r, n - 1) + One(acts[n - 1].AddRef? && acts[n - 1].r == r)
  }

  function TestsOf(acts: seq<Action>, r: Ref, n: nat): nat
    requires n <= |acts|
  {
    if n == 0 then 0 else TestsOf(acts, r, n - 1) + One(acts[n - 1] == Test(r))
  }

  /** Over every run: the deref of a reference is begun at most once each time the reference is taken. */
  lemma {:induction false} EachReferenceTestedOnce(run: seq<State>, acts: seq<Action>, r: Ref, n: nat)
    requires IsRun(run, acts) && n <= |acts|
    ensures TestsOf(acts, r, n) + One(r in run[n].live - run[n].testing) == AddsOf(acts, r, n) + One(r in run[0].live)
  {
    if n > 0 {
      EachReferenceTestedOnce(run, acts, r, n - 1);
      DeletedOnceByTheLast(run, acts, n - 1);
      assert Follows(run, acts, n - 1);
    }
  }

  // ---------- and all derefs together delete the object ----------

  /** Steps the holders' derefs still need, at most. */
  function DerefSteps(s: State): int { 2 * |s.live| - |s.testing| }

  /** Every step of a deref is progress, and there is one as long as anyone holds the object. */
  lemma DerefIsProgress(s: State, a: Action)
    requires Inv(s) && Enabled(s, a) && IsDeref(a)
    ensures 0 <= DerefSteps(Apply(s, a)) < DerefSteps(s) <= 2 * |s.live|
  {
    var s' := Apply(s, a);
    CountIsExact(s, a);
    Smaller(s'.testing, s'.live);
    match a {
      case Test(r) =>
        assert |s.testing + {r}| == |s.testing| + 1;
        assert |s.live - {r}| == |s.live| - 1;
        if s.rc == 1 { assert s'.live == {} && s'.testing == {} && |s.testing| <= 1; Smaller(s.testing, s.live - {r}); }
      case Sub(r) =>
        assert |s.live - {r}| == |s.live| - 1 && |s.testing - {r}| == |s.testing| - 1;
    }
  }

  lemma {:induction false} Smaller(a: set<Ref>, b: set<Ref>)
    requires a <= b
    ensures |a| <= |b|
    decreases |a|
  {
    if r :| r in a {
      Smaller(a - {r}, b - {r});
    }
  }

  ghost predicate CanTake(s: State, todo: seq<Action>)
    decreases |todo|
  {
    todo == [] || (Enabled(s, todo[0]) && CanTake(Apply(s, todo[0]), todo[1..]))
  }

  ghost function After(s: State, todo: seq<Action>): State
    requires CanTake(s, todo)
    decreases |todo|
  {
    if todo == [] then s else After(Apply(s, todo[0]), todo[1..])
  }

  /** From every state there is a next deref until all are complete, and when they are the object is deleted: at most two
      steps for each reference. */
  lemma {:induction false} DerefsDelete(s: State) returns (todo: seq<Action>)
    requires Inv(s)
    ensures CanTake(s, todo) && (forall a <- todo :: IsDeref(a)) && |todo| <= 2 * |s.live|
    ensures After(s, todo).live == {} && After(s, todo).deleted
    ensures |todo| <= DerefSteps(s)
    decreases DerefSteps(s)
  {
    Smaller(s.testing, s.live);
    todo := [];
    if r :| r in s.live {
      var a := if r in s.testing then Sub(r) else Test(r);
      CountIsExact(s, a);
      DerefIsProgress(s, a);
      var rest := DerefsDelete(Apply(s, a));
      todo := [a] + rest;
      assert todo[1..] == rest;
    }
  }
}
