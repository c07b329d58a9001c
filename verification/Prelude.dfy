/** Shared vocabulary: machine words, optional values, results, and facts about
    sequences without repetition. */
module Prelude {

  const TWO64: nat := 0x1_0000_0000_0000_0000

  /** An unsigned 64-bit word. Assigning an integer to this type obliges the
      verifier to show that the operation producing it did not overflow. */
  type u64 = n: nat | n < 0x1_0000_0000_0000_0000

  datatype Option<+T> = None | Some(value: T) {
    predicate IsFailure() {
      None?
    }

    function PropagateFailure<U>(): Option<U>
      requires None?
    {
      None
    }

    function Extract(): T
      requires Some?
    {
      value
    }
  }

  datatype Result<+T, +E> = Success(value: T) | Failure(error: E) {
    predicate IsFailure() {
      Failure?
    }

    function PropagateFailure<U>(): Result<U, E>
      requires Failure?
    {
      Failure(error)
    }

    function Extract(): T
      requires Success?
    {
      value
    }
  }

  datatype Outcome<+E> = Pass | Fail(error: E) {
    predicate IsFailure() {
      Fail?
    }

    function PropagateFailure<U>(): Result<U, E>
      requires Fail?
    {
      Failure(error)
    }
  }

  function Need<E>(condition: bool, error: E): Outcome<E> {
    if condition then Pass else Fail(error)
  }

  function Max(a: nat, b: nat): nat {
    if a < b then b else a
  }

  /** Addition that reports overflow of a 64-bit word instead of wrapping. */
  function CheckedAdd(a: Option<nat>, b: nat): Option<nat> {
    if a.Some? && a.value + b < TWO64 then Some(a.value + b) else None
  }

  function SaturatingAdd(a: u64, b: u64): u64 {
    if a + b < TWO64 then a + b else TWO64 - 1
  }

  ghost predicate NoDup<T>(s: seq<T>) {
    forall i, j :: 0 <= i < j < |s| ==> s[i] != s[j]
  }

  ghost function Elements<T>(s: seq<T>): set<T> {
    set x | x in s
  }

  lemma {:induction false} NoDupCardinality<T>(s: seq<T>)
    requires NoDup(s)
    ensures |Elements(s)| == |s|
  {
    if s == [] {
      assert Elements(s) == {};
    } else {
      var n := |s| - 1;
      var front := s[..n];
      NoDupCardinality(front);
      assert Elements(s) == Elements(front) + {s[n]};
      assert s[n] !in Elements(front);
    }
  }

  /** The first n positive numbers, as a set of exactly n elements. */
  ghost function FirstPositives(n: nat): (r: set<nat>)
    ensures forall k :: k in r <==> 1 <= k <= n
    ensures |r| == n
  {
    if n == 0 then {} else FirstPositives(n - 1) + {n}
  }

  /** All the values, or the first failure. */
  function Sequence<T, E>(attempts: seq<Result<T, E>>): Result<seq<T>, E> {
    if attempts == [] then Success([])
    else
      var n := |attempts| - 1;
      var front :- Sequence(attempts[..n]);
      var last :- attempts[n];
      Success(front + [last])
  }

  lemma {:induction false} SequenceSucceeds<T, E>(attempts: seq<Result<T, E>>)
    ensures Sequence(attempts).Success? ==>
      && |Sequence(attempts).value| == |attempts|
      && forall i :: 0 <= i < |attempts| ==> attempts[i] == Success(Sequence(attempts).value[i])
  {
    if attempts == [] {
    } else {
      SequenceSucceeds(attempts[..|attempts| - 1]);
    }
  }

  lemma {:induction false} AllSucceed<T, E>(attempts: seq<Result<T, E>>)
    requires forall i :: 0 <= i < |attempts| ==> attempts[i].Success?
    ensures Sequence(attempts).Success?
  {
    if attempts == [] {
    } else {
      AllSucceed(attempts[..|attempts| - 1]);
    }
  }

  /** The first failure is the one that is returned. */
  lemma {:induction false} FirstFailure<T, E>(attempts: seq<Result<T, E>>) returns (i: nat)
    requires Sequence(attempts).Failure?
    ensures i < |attempts| && attempts[i] == Failure(Sequence(attempts).error)
    ensures forall j :: 0 <= j < i ==> attempts[j].Success?
  {
    i := |attempts| - 1;
    if Sequence(attempts[..i]).Failure? {
      i := FirstFailure(attempts[..i]);
    } else {
      SequenceSucceeds(attempts[..i]);
    }
  }

  /** A failure at the end of a prefix decides the whole sequence. */
  lemma {:induction false} SequenceFails<T, E>(attempts: seq<Result<T, E>>, n: nat)
    requires n <= |attempts| && Sequence(attempts[..n]).Failure?
    ensures Sequence(attempts) == Failure(Sequence(attempts[..n]).error)
  {
    if n < |attempts| {
      var front := attempts[..|attempts| - 1];
      assert front[..n] == attempts[..n];
      SequenceFails(front, n);
    } else {
      assert attempts[..n] == attempts;
    }
  }

  lemma SequenceExtends<T, E>(attempts: seq<Result<T, E>>, next: Result<T, E>)
    requires Sequence(attempts).Success?
    ensures Sequence(attempts + [next]) ==
      if next.Success? then Success(Sequence(attempts).value + [next.value]) else Failure(next.error)
  {
    assert (attempts + [next])[..|attempts|] == attempts;
  }

  lemma MulMonotone(a: nat, b: nat, c: nat)
    ensures a <= b ==> a * c <= b * c
  {
  }

  lemma MulStrict(a: nat, b: nat, c: nat)
    requires a < b && c > 0
    ensures a * c < b * c
  {
    assert b * c == a * c + (b - a) * c;
    MulMonotone(1, b - a, c);
  }
}
