/** Sorting by text, as `sorted` does. */
module TextOrder {

  /** By character, a prefix first. */
  predicate StringLess(a: string, b: string) {
    b != [] && (a == [] || a[0] < b[0] || (a[0] == b[0] && StringLess(a[1..], b[1..])))
  }

  lemma {:induction false} StringOrder(a: string, b: string, c: string)
    ensures !StringLess(a, a)
    ensures StringLess(a, b) || StringLess(b, a) || a == b
    ensures StringLess(a, b) && StringLess(b, c) ==> StringLess(a, c)
  {
    if a != [] && b != [] && a[0] == b[0] {
      StringOrder(a[1..], b[1..], if c == [] then [] else c[1..]);
      assert a == [a[0]] + a[1..] && b == [b[0]] + b[1..];
    } else if a != [] {
      StringOrder(a[1..], a[1..], a[1..]);
    }
  }

  predicate IsLeast(s: set<string>, m: string) {
    m in s && forall x | x in s && x != m :: StringLess(m, x)
  }

  lemma {:induction false} HasLeast(s: set<string>)
    requires s != {}
    ensures exists m :: IsLeast(s, m)
  {
    var x :| x in s;
    var rest := s - {x};
    if rest == {} {
      assert s == {x};
      assert IsLeast(s, x);
    } else {
      HasLeast(rest);
      var m :| IsLeast(rest, m);
      StringOrder(x, m, x);
      forall y | y in s ensures StringLess(x, m) && StringLess(m, y) ==> StringLess(x, y) {
        StringOrder(x, m, y);
      }
      assert IsLeast(s, if StringLess(x, m) then x else m);
    }
  }

  lemma OneLeast(s: set<string>, m: string, n: string)
    requires IsLeast(s, m) && IsLeast(s, n)
    ensures m == n
  {
    StringOrder(m, n, m);
  }

  function Least(s: set<string>): (m: string)
    requires s != {}
    ensures IsLeast(s, m)
  {
    HasLeast(s);
    assert forall m, n | IsLeast(s, m) && IsLeast(s, n) :: m == n by {
      forall m, n | IsLeast(s, m) && IsLeast(s, n) ensures m == n { OneLeast(s, m, n); }
    }
    var m :| IsLeast(s, m);
    m
  }

  /** The members of a set in ascending order. */
  function Ascending(s: set<string>): (r: seq<string>)
    ensures forall x :: x in r <==> x in s
    ensures forall i, j | 0 <= i < j < |r| :: StringLess(r[i], r[j])
  {
    if s == {} then [] else [Least(s)] + Ascending(s - {Least(s)})
  }

  lemma AscendingHasNoRepeats(s: set<string>, i: nat, j: nat)
    requires i < j < |Ascending(s)|
    ensures Ascending(s)[i] != Ascending(s)[j]
  {
    StringOrder(Ascending(s)[i], Ascending(s)[j], Ascending(s)[i]);
  }

  /** Stable insertion into a list sorted by key. */
  function InsertByKey<T>(key: T -> string, x: T, s: seq<T>): (r: seq<T>)
    ensures multiset(r) == multiset(s) + multiset{x}
  {
    if s == [] then [x]
    else if StringLess(key(x), key(s[|s| - 1])) then
      assert s == s[..|s| - 1] + [s[|s| - 1]];
      InsertByKey(key, x, s[..|s| - 1]) + [s[|s| - 1]]
    else s + [x]
  }

  /** `sorted(s, key=key)` */
  function SortByKey<T>(key: T -> string, s: seq<T>): (r: seq<T>)
    ensures multiset(r) == multiset(s)
  {
    if s == [] then []
    else
      assert s == s[..|s| - 1] + [s[|s| - 1]];
      InsertByKey(key, s[|s| - 1], SortByKey(key, s[..|s| - 1]))
  }

  predicate SortedByKey<T>(key: T -> string, s: seq<T>) {
    forall i, j | 0 <= i < j < |s| :: !StringLess(key(s[j]), key(s[i]))
  }

  /** All that stands before the last is no greater. */
  lemma InsertedBelow<T>(key: T -> string, x: T, s: seq<T>, r: seq<T>)
    requires SortedByKey(key, s) && s != [] && StringLess(key(x), key(s[|s| - 1]))
    requires r == InsertByKey(key, x, s[..|s| - 1])
    ensures forall i | 0 <= i < |r| :: !StringLess(key(s[|s| - 1]), key(r[i]))
  {
    var front, last := s[..|s| - 1], s[|s| - 1];
    forall i | 0 <= i < |r| ensures !StringLess(key(last), key(r[i])) {
      assert r[i] in multiset(r) && multiset(r) == multiset(front) + multiset{x};
      StringOrder(key(last), key(x), key(last));
      if r[i] != x {
        assert r[i] in multiset(front);
        var k :| 0 <= k < |front| && front[k] == r[i];
        assert !StringLess(key(s[|s| - 1]), key(s[k]));
      }
    }
  }

  lemma SortedOneMore<T>(key: T -> string, s: seq<T>, x: T)
    requires SortedByKey(key, s) && forall i | 0 <= i < |s| :: !StringLess(key(x), key(s[i]))
    ensures SortedByKey(key, s + [x])
  {
  }

  lemma {:induction false} InsertKeepsSorted<T>(key: T -> string, x: T, s: seq<T>)
    requires SortedByKey(key, s)
    ensures SortedByKey(key, InsertByKey(key, x, s))
  {
    if s != [] {
      var front, last := s[..|s| - 1], s[|s| - 1];
      if StringLess(key(x), key(last)) {
        var r := InsertByKey(key, x, front);
        InsertKeepsSorted(key, x, front);
        InsertedBelow(key, x, s, r);
        SortedOneMore(key, r, last);
      } else {
        forall i | 0 <= i < |s| ensures !StringLess(key(x), key(s[i])) {
          if i < |s| - 1 { assert !StringLess(key(last), key(s[i])); }
          StringOrder(key(x), key(s[i]), key(last));
          StringOrder(key(s[i]), key(last), key(x));
          StringOrder(key(last), key(x), key(s[i]));
        }
        SortedOneMore(key, s, x);
      }
    }
  }

  lemma {:induction false} SortSortsByKey<T>(key: T -> string, s: seq<T>)
    ensures SortedByKey(key, SortByKey(key, s))
  {
    if s != [] {
      SortSortsByKey(key, s[..|s| - 1]);
      InsertKeepsSorted(key, s[|s| - 1], SortByKey(key, s[..|s| - 1]));
    }
  }

  lemma {:induction false} AscendingCounts(s: set<string>)
    ensures |Ascending(s)| == |s|
  {
    if s != {} { AscendingCounts(s - {Least(s)}); }
  }

  predicate NoRepeats(s: seq<string>) {
    forall i, j | 0 <= i < j < |s| :: s[i] != s[j]
  }

  lemma AscendingWorks(s: set<string>)
    ensures NoRepeats(Ascending(s)) && forall d | d in Ascending(s) :: d in s
  {
    forall i, j | 0 <= i < j < |Ascending(s)| ensures Ascending(s)[i] != Ascending(s)[j] {
      AscendingHasNoRepeats(s, i, j);
    }
  }
}
