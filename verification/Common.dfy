/** Small definitions several modules share. */
module Common {

  datatype Option<+T> = None | Some(value: T)

  /** The answers of the mailbox's enqueue. */
  datatype EnqueueResult = Success | UnblockedReader | QueueClosed

  function Min(a: nat, b: nat): nat { if a < b then a else b }

  ghost predicate Distinct<X>(s: seq<X>) { forall i, j | 0 <= i < j < |s| :: s[i] != s[j] }

  /** Reversal, given by where each element goes. */
  function Rev<X>(s: seq<X>): (r: seq<X>)
    ensures |r| == |s| && forall i | 0 <= i < |r| :: r[i] == s[|s| - 1 - i]
  {
    seq(|s|, i requires 0 <= i < |s| => s[|s| - 1 - i])
  }

  lemma RevMember<X>(s: seq<X>, x: X)
    ensures x in Rev(s) <==> x in s
  {
    if i :| 0 <= i < |s| && s[i] == x {
      assert Rev(s)[|s| - 1 - i] == x;
    }
  }

  lemma RevMembers<X(!new)>(s: seq<X>)
    ensures forall x :: x in Rev(s) <==> x in s
  {
    forall x
      ensures x in Rev(s) <==> x in s
    {
      RevMember(s, x);
    }
  }

  lemma RevCons<X>(x: X, s: seq<X>)
    ensures Rev([x] + s) == Rev(s) + [x]
  {}

  /** How often x occurs. */
  function Occurs<X(==)>(s: seq<X>, x: X): nat { multiset(s)[x] }

  lemma OccursAppend<X>(s: seq<X>, t: seq<X>, x: X)
    ensures Occurs(s + t, x) == Occurs(s, x) + Occurs(t, x)
  {}

  /** History bookkeeping: d has left a queue that was l and is now l', and p was appended to it. */
  lemma FifoExtends<X>(left: seq<X>, d: seq<X>, l': seq<X>, l: seq<X>, p: seq<X>)
    requires d + l' == l + p
    ensures (left + d) + l' == (left + l) + p
  {
    assert (left + d) + l' == left + (d + l');
    assert (left + l) + p == left + (l + p);
  }
}
