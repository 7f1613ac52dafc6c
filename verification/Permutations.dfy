/** Lists that hold the same members as often. */
module Permutations {

  lemma TwiceIn<T>(s: seq<T>, i: nat, j: nat)
    requires i < j < |s| && s[i] == s[j]
    ensures multiset(s)[s[i]] >= 2
  {
    assert s == s[..i] + [s[i]] + s[i + 1..j] + [s[j]] + s[j + 1..];
  }

  lemma {:induction false} OnceIn<T>(s: seq<T>, x: T)
    requires forall i, j | 0 <= i < j < |s| :: s[i] != s[j]
    ensures multiset(s)[x] <= 1
  {
    if s != [] {
      OnceIn(s[1..], x);
      assert s == [s[0]] + s[1..];
      assert s[0] !in s[1..];
    }
  }

  /** A list without repeats has none in any other order either. */
  lemma PermutationHasNoRepeats<T>(a: seq<T>, b: seq<T>)
    requires multiset(a) == multiset(b) && forall i, j | 0 <= i < j < |a| :: a[i] != a[j]
    ensures forall i, j | 0 <= i < j < |b| :: b[i] != b[j]
  {
    forall i, j | 0 <= i < j < |b| ensures b[i] != b[j] {
      OnceIn(a, b[i]);
      if b[i] == b[j] { TwiceIn(b, i, j); }
    }
  }

  ghost predicate AddsUp<T(!new)>(f: seq<T> -> int, x: seq<T>, y: seq<T>) {
    f(x + y) == f(x) + f(y)
  }

  /** What adds up along a list does not depend on its order. */
  lemma {:induction false} AdditiveOnPermutation<T(!new)>(f: seq<T> -> int, a: seq<T>, b: seq<T>)
    requires (forall x, y :: AddsUp(f, x, y)) && multiset(a) == multiset(b)
    ensures f(a) == f(b)
  {
    if a == [] {
      assert |multiset(b)| == |b|;
    } else {
      var front, back := FirstElsewhere(a, b);
      AdditiveOnPermutation(f, a[1..], front + back);
      assert [a[0]] + a[1..] == a && AddsUp(f, [a[0]], a[1..]);
      Regrouped(f, front, [a[0]], back);
    }
  }

  lemma FirstElsewhere<T>(a: seq<T>, b: seq<T>) returns (front: seq<T>, back: seq<T>)
    requires a != [] && multiset(a) == multiset(b)
    ensures b == front + [a[0]] + back && multiset(front + back) == multiset(a[1..])
  {
    assert a == [a[0]] + a[1..];
    front, back := Without(b, a[0]);
  }

  lemma Without<T>(s: seq<T>, x: T) returns (front: seq<T>, back: seq<T>)
    requires x in multiset(s)
    ensures s == front + [x] + back && multiset(front + back) == multiset(s) - multiset{x}
  {
    var i :| 0 <= i < |s| && s[i] == x;
    front, back := s[..i], s[i + 1..];
    assert s == front + [x] + back;
  }

  lemma Regrouped<T(!new)>(f: seq<T> -> int, a: seq<T>, b: seq<T>, c: seq<T>)
    requires forall x, y :: AddsUp(f, x, y)
    ensures f(a + b + c) == f(b) + f(a + c)
  {
    assert AddsUp(f, a + b, c) && AddsUp(f, a, b) && AddsUp(f, a, c);
  }
}
