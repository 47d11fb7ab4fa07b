/**
  Python's ordering of strings (code point by code point, a proper prefix
  before its extensions) and `list.sort` on lists of strings.
 */
module LexOrder {

  /** `a <= b` on strings. */
  predicate LexLe(a: string, b: string)
    decreases |a|
  {
    |a| == 0 || (|b| > 0 && (a[0] < b[0] || (a[0] == b[0] && LexLe(a[1..], b[1..]))))
  }

  lemma {:induction false} LexLeTotal(a: string, b: string)
    ensures LexLe(a, b) || LexLe(b, a)
    decreases |a|
  {
    if |a| > 0 && |b| > 0 && a[0] == b[0] {
      LexLeTotal(a[1..], b[1..]);
    }
  }

  lemma {:induction false} LexLeTrans(a: string, b: string, c: string)
    requires LexLe(a, b) && LexLe(b, c)
    ensures LexLe(a, c)
    decreases |a|
  {
    if |a| > 0 && a[0] == b[0] && b[0] == c[0] {
      LexLeTrans(a[1..], b[1..], c[1..]);
    }
  }

  lemma {:induction false} LexLeAntisymmetric(a: string, b: string)
    requires LexLe(a, b) && LexLe(b, a)
    ensures a == b
    decreases |a|
  {
    if |a| > 0 {
      LexLeAntisymmetric(a[1..], b[1..]);
      assert a == [a[0]] + a[1..] && b == [b[0]] + b[1..];
    }
  }

  ghost predicate Sorted(s: seq<string>) {
    forall i, j :: 0 <= i < j < |s| ==> LexLe(s[i], s[j])
  }

  /** `x` placed in front of the first element it does not follow. */
  function Insert(x: string, s: seq<string>): (r: seq<string>)
    requires Sorted(s)
    ensures Sorted(r)
    ensures multiset(r) == multiset(s) + multiset{x}
    decreases |s|
  {
    if s == [] then [x]
    else if LexLe(x, s[0]) then
      assert forall z :: z in multiset(s) ==> LexLe(x, z) by {
        forall z | z in multiset(s) ensures LexLe(x, z) {
          var j :| 0 <= j < |s| && s[j] == z;
          if j > 0 { LexLeTrans(x, s[0], s[j]); }
        }
      }
      ConsSorted(x, s);
      [x] + s
    else
      var rest := Insert(x, s[1..]);
      LexLeTotal(x, s[0]);
      HeadBelowTail(s);
      ConsSorted(s[0], rest);
      assert s == [s[0]] + s[1..];
      [s[0]] + rest
  }

  /** In a sorted list the head comes before every element of the tail. */
  lemma HeadBelowTail(s: seq<string>)
    requires Sorted(s) && |s| > 0
    ensures forall z :: z in multiset(s[1..]) ==> LexLe(s[0], z)
  {
    forall z | z in multiset(s[1..]) ensures LexLe(s[0], z) {
      var k :| 0 <= k < |s[1..]| && s[1..][k] == z;
      assert s[k + 1] == z;
    }
  }

  /** A sorted list stays sorted behind an element that comes before all of it. */
  lemma ConsSorted(y: string, rest: seq<string>)
    requires Sorted(rest)
    requires forall z :: z in multiset(rest) ==> LexLe(y, z)
    ensures Sorted([y] + rest)
  {
    forall i, j | 0 <= i < j < |rest| + 1 ensures LexLe(([y] + rest)[i], ([y] + rest)[j]) {
      if i == 0 {
        assert rest[j - 1] in multiset(rest);
      }
    }
  }

  /** The sorted permutation of `s`, as `list.sort` leaves it. */
  function Sort(s: seq<string>): (r: seq<string>)
    ensures Sorted(r)
    ensures multiset(r) == multiset(s)
    decreases |s|
  {
    if s == [] then []
    else
      assert s == [s[0]] + s[1..];
      Insert(s[0], Sort(s[1..]))
  }

  /** Two sorted lists with the same elements are equal: a sorted permutation is unique. */
  lemma {:induction false} SortedUnique(a: seq<string>, b: seq<string>)
    requires Sorted(a) && Sorted(b)
    requires multiset(a) == multiset(b)
    ensures a == b
    decreases |a|
  {
    assert |a| == |multiset(a)| == |b|;
    if a != [] {
      assert a[0] in multiset(b) && b[0] in multiset(a);
      HeadIsLeast(b, a[0]);
      HeadIsLeast(a, b[0]);
      LexLeAntisymmetric(a[0], b[0]);
      TailMultiset(a);
      TailMultiset(b);
      assert multiset(a[1..]) == multiset(b[1..]);
      SortedTail(a);
      SortedTail(b);
      SortedUnique(a[1..], b[1..]);
      SameHeadTail(a, b);
    }
  }

  lemma HeadIsLeast(s: seq<string>, x: string)
    requires Sorted(s) && x in multiset(s)
    ensures |s| > 0 && LexLe(s[0], x)
  {
    var k :| 0 <= k < |s| && s[k] == x;
    if k == 0 { LexLeTotal(x, x); }
  }

  lemma SortedTail(s: seq<string>)
    requires Sorted(s) && |s| > 0
    ensures Sorted(s[1..])
  {
    forall i, j | 0 <= i < j < |s| - 1 ensures LexLe(s[1..][i], s[1..][j]) {
      assert s[1..][i] == s[i + 1] && s[1..][j] == s[j + 1];
    }
  }

  lemma SameHeadTail<T>(a: seq<T>, b: seq<T>)
    requires |a| > 0 && |b| > 0 && a[0] == b[0] && a[1..] == b[1..]
    ensures a == b
  {
    assert a == [a[0]] + a[1..] && b == [b[0]] + b[1..];
  }

  lemma TailMultiset(s: seq<string>)
    requires |s| > 0
    ensures multiset(s[1..]) == multiset(s) - multiset{s[0]}
  {
    assert s == [s[0]] + s[1..];
  }
}
