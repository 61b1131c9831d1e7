/** Sequence vocabulary shared by the grants table and the role resolver. */
module Sequences {

  /** No element occurs twice. */
  predicate Distinct<T(==)>(s: seq<T>) {
    forall i, j :: 0 <= i < j < |s| ==> s[i] != s[j]
  }

  /** `a` is obtained from `b` by deleting elements, keeping the order of the rest. */
  predicate IsSubsequence<T(==)>(a: seq<T>, b: seq<T>)
    decreases |b|
  {
    a == [] || (b != [] && ((a[0] == b[0] && IsSubsequence(a[1..], b[1..])) || IsSubsequence(a, b[1..])))
  }

  /** Every element of a subsequence is an element of the sequence it was taken from. */
  lemma {:induction false} SubsequenceMembers<T>(a: seq<T>, b: seq<T>, x: T)
    requires IsSubsequence(a, b) && x in a
    ensures x in b
    decreases |b|
  {
    if a[0] == b[0] && IsSubsequence(a[1..], b[1..]) {
      if x != a[0] {
        SubsequenceMembers(a[1..], b[1..], x);
      }
    } else {
      SubsequenceMembers(a, b[1..], x);
    }
  }

  /** Dropping the head of `b` keeps `a` a subsequence when the head does not occur in `a`. */
  lemma {:induction false} SubsequenceSkipsAbsentHead<T>(a: seq<T>, b: seq<T>)
    requires IsSubsequence(a, b) && b != [] && b[0] !in a
    ensures IsSubsequence(a, b[1..])
  {
  }

  /** When the head of a sequence without duplicates occurs in a subsequence, it is the subsequence's head. */
  lemma {:induction false} SubsequenceKeepsPresentHead<T>(a: seq<T>, b: seq<T>)
    requires IsSubsequence(a, b) && Distinct(b) && b != [] && b[0] in a
    ensures a[0] == b[0] && IsSubsequence(a[1..], b[1..])
  {
    if !(a[0] == b[0] && IsSubsequence(a[1..], b[1..])) {
      SubsequenceMembers(a, b[1..], b[0]);
      assert false;
    }
  }

  /**
   * Over a sequence without duplicates, a subsequence is determined by its
   * elements: two subsequences with the same elements are equal.
   */
  lemma {:induction false} SubsequenceDeterminedByMembers<T>(a: seq<T>, c: seq<T>, b: seq<T>)
    requires Distinct(b) && IsSubsequence(a, b) && IsSubsequence(c, b)
    requires forall x :: x in a <==> x in c
    ensures a == c
    decreases |b|
  {
    if b == [] {
      assert a == [] && c == [];
    } else {
      assert Distinct(b[1..]) by {
        forall i, j | 0 <= i < j < |b[1..]| ensures b[1..][i] != b[1..][j] {
          assert b[1..][i] == b[i + 1] && b[1..][j] == b[j + 1];
        }
      }
      if b[0] in a {
        SubsequenceKeepsPresentHead(a, b);
        SubsequenceKeepsPresentHead(c, b);
        assert b[0] !in b[1..];
        assert a == [a[0]] + a[1..] && c == [c[0]] + c[1..];
        forall x ensures x in a[1..] <==> x in c[1..] {
          if x in a[1..] {
            SubsequenceMembers(a[1..], b[1..], x);
            assert x in a && x != c[0];
          }
          if x in c[1..] {
            SubsequenceMembers(c[1..], b[1..], x);
            assert x in c && x != a[0];
          }
        }
        SubsequenceDeterminedByMembers(a[1..], c[1..], b[1..]);
        assert a == [a[0]] + a[1..] && c == [c[0]] + c[1..];
      } else {
        SubsequenceSkipsAbsentHead(a, b);
        SubsequenceSkipsAbsentHead(c, b);
        SubsequenceDeterminedByMembers(a, c, b[1..]);
      }
    }
  }

  /** A sequence is empty exactly when nothing is an element of it. */
  lemma EmptyIffNoMembers<T>(s: seq<T>)
    ensures s == [] <==> forall x :: x !in s
  {
    if s != [] {
      assert s[0] in s;
    }
  }
}
