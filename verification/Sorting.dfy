/** Sorting by a comparator, and the order on strings the comparators end with. */
module Sorting {

  // ----- strings -----

  predicate StrLess(a: string, b: string) {
    b != "" && (a == "" || a[0] < b[0] || (a[0] == b[0] && StrLess(a[1..], b[1..])))
  }

  lemma {:induction false} StrLessTotal(a: string, b: string)
    ensures StrLess(a, b) || StrLess(b, a) || a == b
    ensures !(StrLess(a, b) && StrLess(b, a)) && !StrLess(a, a)
  {
    if a != "" && b != "" {
      StrLessTotal(a[1..], b[1..]);
      assert a == [a[0]] + a[1..] && b == [b[0]] + b[1..];
    }
    if a != "" {
      StrLessTotal(a[1..], a[1..]);
    }
  }

  lemma {:induction false} StrLessTransitive(a: string, b: string, c: string)
    requires StrLess(a, b) && StrLess(b, c)
    ensures StrLess(a, c)
  {
    if a != "" && a[0] == b[0] == c[0] {
      StrLessTransitive(a[1..], b[1..], c[1..]);
    }
  }

  /** `a` and `b` agree up to `k`, where `a` ends or has the smaller character. */
  predicate LessAt(a: string, b: string, k: nat) {
    k <= |a| && k < |b| && a[..k] == b[..k] && (k == |a| || a[k] < b[k])
  }

  lemma SharedStart(a: string, b: string)
    ensures forall k: nat :: LessAt(a, b, k) && k > 0 ==> a != "" && a[0] == b[0]
  {
    forall k: nat | LessAt(a, b, k) && k > 0 ensures a != "" && a[0] == b[0] {
      assert a[0] == a[..k][0] && b[0] == b[..k][0];
    }
  }

  /** Strings compare as dictionaries do: at the first place they differ. */
  lemma {:induction false} StrLessIsLexicographic(a: string, b: string)
    ensures StrLess(a, b) <==> exists k: nat :: LessAt(a, b, k)
  {
    if a == "" || b == "" || a[0] != b[0] {
      if StrLess(a, b) {
        assert LessAt(a, b, 0);
      }
      SharedStart(a, b);
    } else {
      StrLessIsLexicographic(a[1..], b[1..]);
      if StrLess(a[1..], b[1..]) {
        var k: nat :| LessAt(a[1..], b[1..], k);
        assert a[..k + 1] == [a[0]] + a[1..][..k] && b[..k + 1] == [b[0]] + b[1..][..k];
        assert LessAt(a, b, k + 1);
      }
      forall k: nat | LessAt(a, b, k) ensures StrLess(a, b) {
        if k > 0 {
          assert a[1..][..k - 1] == a[..k][1..] && b[1..][..k - 1] == b[..k][1..];
          assert LessAt(a[1..], b[1..], k - 1);
        }
      }
    }
  }

  // ----- sequences -----

  /** `less` is a strict total order on the elements of `s`. */
  ghost predicate Orders<T(!new)>(less: (T, T) -> bool, s: seq<T>) {
    && (forall x, y :: x in s && y in s ==> !(less(x, y) && less(y, x)))
    && (forall x, y :: x in s && y in s && x != y ==> less(x, y) || less(y, x))
    && (forall x, y, z :: x in s && y in s && z in s && less(x, y) && less(y, z) ==> less(x, z))
  }

  ghost predicate Sorted<T>(less: (T, T) -> bool, s: seq<T>) {
    forall i, j :: 0 <= i < j < |s| ==> less(s[i], s[j])
  }

  ghost predicate NoRepeats<T>(s: seq<T>) {
    forall i, j :: 0 <= i < j < |s| ==> s[i] != s[j]
  }

  function Insert<T>(less: (T, T) -> bool, x: T, s: seq<T>): seq<T> {
    if s == [] || !less(s[0], x) then [x] + s else [s[0]] + Insert(less, x, s[1..])
  }

  function Sort<T>(less: (T, T) -> bool, s: seq<T>): seq<T> {
    if s == [] then [] else Insert(less, s[0], Sort(less, s[1..]))
  }

  lemma {:induction false} InsertPermutes<T>(less: (T, T) -> bool, x: T, s: seq<T>)
    ensures multiset(Insert(less, x, s)) == multiset(s) + multiset{x}
  {
    if s != [] && less(s[0], x) {
      InsertPermutes(less, x, s[1..]);
      assert s == [s[0]] + s[1..];
    }
  }

  lemma {:induction false} InsertByAgreeing<T(!new)>(f: (T, T) -> bool, g: (T, T) -> bool, x: T, s: seq<T>)
    requires forall x, y :: f(x, y) == g(x, y)
    ensures Insert(f, x, s) == Insert(g, x, s)
  {
    if s != [] {
      InsertByAgreeing(f, g, x, s[1..]);
    }
  }

  lemma {:induction false} SortByAgreeing<T(!new)>(f: (T, T) -> bool, g: (T, T) -> bool, s: seq<T>)
    requires forall x, y :: f(x, y) == g(x, y)
    ensures Sort(f, s) == Sort(g, s)
  {
    if s != [] {
      SortByAgreeing(f, g, s[1..]);
      InsertByAgreeing(f, g, s[0], Sort(g, s[1..]));
    }
  }

  lemma {:induction false} SortPermutes<T>(less: (T, T) -> bool, s: seq<T>)
    ensures multiset(Sort(less, s)) == multiset(s)
  {
    if s != [] {
      SortPermutes(less, s[1..]);
      InsertPermutes(less, s[0], Sort(less, s[1..]));
      assert s == [s[0]] + s[1..];
    }
  }

  lemma SameMembers<T>(a: seq<T>, b: seq<T>)
    requires multiset(a) == multiset(b)
    ensures forall x :: x in a <==> x in b
    ensures |a| == |b|
  {
    assert forall x :: x in a <==> x in multiset(a);
    assert forall x :: x in b <==> x in multiset(b);
    assert |multiset(a)| == |a| && |multiset(b)| == |b|;
  }

  lemma {:induction false} InsertSorts<T(!new)>(less: (T, T) -> bool, x: T, s: seq<T>, all: seq<T>)
    requires Orders(less, all) && Sorted(less, s) && x in all && x !in s && forall y :: y in s ==> y in all
    ensures Sorted(less, Insert(less, x, s))
  {
    if s != [] {
      if !less(s[0], x) {
        forall i | 0 <= i < |s| ensures less(x, s[i]) {
          assert s[0] in all && s[0] in s && s[i] in all;
        }
      } else {
        assert s[0] in all;
        InsertSorts(less, x, s[1..], all);
        var tail := Insert(less, x, s[1..]);
        InsertPermutes(less, x, s[1..]);
        forall i | 0 <= i < |tail| ensures less(s[0], tail[i]) {
          assert tail[i] in multiset(tail);
        }
      }
    }
  }

  /** Sorting elements that are all different gives a sorted rearrangement of them. */
  lemma {:induction false} SortSorts<T(!new)>(less: (T, T) -> bool, s: seq<T>, all: seq<T>)
    requires Orders(less, all) && NoRepeats(s) && forall y :: y in s ==> y in all
    ensures Sorted(less, Sort(less, s)) && multiset(Sort(less, s)) == multiset(s)
  {
    SortPermutes(less, s);
    if s != [] {
      SortSorts(less, s[1..], all);
      SameMembers(Sort(less, s[1..]), s[1..]);
      InsertSorts(less, s[0], Sort(less, s[1..]), all);
    }
  }

  lemma TailOf<T>(less: (T, T) -> bool, s: seq<T>)
    requires s != [] && Sorted(less, s)
    ensures Sorted(less, s[1..]) && multiset(s[1..]) == multiset(s) - multiset{s[0]}
    ensures s == [s[0]] + s[1..] && forall x :: x in s[1..] ==> x in s
  {
    assert s == [s[0]] + s[1..];
  }

  lemma SameHead<T(!new)>(less: (T, T) -> bool, a: seq<T>, b: seq<T>)
    requires multiset(a) == multiset(b) && a != [] && b != [] && Sorted(less, a) && Sorted(less, b)
    requires forall x, y :: x in a && y in a ==> !(less(x, y) && less(y, x))
    ensures a[0] == b[0]
  {
    SameMembers(a, b);
    assert b[0] in a && a[0] in b;
    var i :| 0 <= i < |a| && a[i] == b[0];
    var j :| 0 <= j < |b| && b[j] == a[0];
    assert i > 0 ==> less(a[0], b[0]);
    assert j > 0 ==> less(b[0], a[0]);
  }

  /** There is only one sorted rearrangement. */
  lemma {:induction false} SortedIsUnique<T(!new)>(less: (T, T) -> bool, a: seq<T>, b: seq<T>)
    requires multiset(a) == multiset(b) && Sorted(less, a) && Sorted(less, b)
    requires forall x, y :: x in a && y in a ==> !(less(x, y) && less(y, x))
    ensures a == b
  {
    SameMembers(a, b);
    if a != [] {
      SameHead(less, a, b);
      TailOf(less, a);
      TailOf(less, b);
      SortedIsUnique(less, a[1..], b[1..]);
    }
  }

  /** So the result depends only on what is sorted, not on the order it came in. */
  lemma SortIgnoresInputOrder<T(!new)>(less: (T, T) -> bool, a: seq<T>, b: seq<T>)
    requires multiset(a) == multiset(b) && NoRepeats(a) && Orders(less, a)
    ensures Sort(less, a) == Sort(less, b)
  {
    SameMembers(a, b);
    RepeatsAreCounted(a, b);
    SortSorts(less, a, a);
    SortSorts(less, b, a);
    SameMembers(Sort(less, a), a);
    SortedIsUnique(less, Sort(less, a), Sort(less, b));
  }

  lemma {:induction false} SingleWhenNoRepeats<T>(s: seq<T>)
    requires NoRepeats(s)
    ensures forall x :: x in s ==> multiset(s)[x] == 1
  {
    if s != [] {
      assert s == [s[0]] + s[1..];
      SingleWhenNoRepeats(s[1..]);
      assert s[0] !in s[1..];
    }
  }

  lemma {:induction false} NoRepeatsWhenSingle<T>(s: seq<T>)
    requires forall x :: x in s ==> multiset(s)[x] == 1
    ensures NoRepeats(s)
  {
    if s != [] {
      assert s == [s[0]] + s[1..];
      assert multiset(s) == multiset{s[0]} + multiset(s[1..]);
      assert s[0] in s && multiset(s)[s[0]] == 1;
      assert s[0] !in multiset(s[1..]);
      forall x | x in s[1..] ensures multiset(s[1..])[x] == 1 {
        assert x in s && x != s[0];
      }
      NoRepeatsWhenSingle(s[1..]);
    }
  }

  lemma RepeatsAreCounted<T>(a: seq<T>, b: seq<T>)
    requires multiset(a) == multiset(b) && NoRepeats(a)
    ensures NoRepeats(b)
  {
    SingleWhenNoRepeats(a);
    SameMembers(a, b);
    NoRepeatsWhenSingle(b);
  }
}
