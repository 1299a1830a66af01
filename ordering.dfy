/** Ruby's three-way comparison `<=>` as integer-valued comparators, the
    lexicographic comparison Array#<=> and String#<=> build from it, and the
    sorting that Array#sort and Array#sort with a block perform. */
module Ordering {

  /** A comparator in the sense of `<=>`: negative, zero or positive. */
  type Comparator<!T> = (T, T) -> int

  /** Swapping the operands negates the answer, and "not after" is transitive:
      what a sort needs. */
  ghost predicate TotalPreorder<T(!new)>(cmp: Comparator<T>)
  {
    (forall x, y :: cmp(x, y) == -cmp(y, x)) &&
    (forall x, y, z :: cmp(x, y) <= 0 && cmp(y, z) <= 0 ==> cmp(x, z) <= 0)
  }

  /** A total preorder that answers zero only for equal values. */
  ghost predicate TotalOrder<T(!new)>(cmp: Comparator<T>)
  {
    TotalPreorder(cmp) && forall x, y :: cmp(x, y) == 0 ==> x == y
  }

  /** Integer#<=>. */
  function IntCmp(a: int, b: int): (r: int)
    ensures r < 0 <==> a < b
    ensures r == 0 <==> a == b
  {
    if a < b then -1 else if a == b then 0 else 1
  }

  /** The order of characters, by code point. On UTF-8 text this is also the
      byte order String#<=> uses. */
  function CharCmp(a: char, b: char): (r: int)
    ensures r < 0 <==> a < b
    ensures r == 0 <==> a == b
  {
    IntCmp(a as int, b as int)
  }

  /** Array#<=> (and String#<=> over characters): the first pair of elements
      that differ decides; when one sequence is a prefix of the other, the
      shorter one comes first. */
  function LexCmp<T>(a: seq<T>, b: seq<T>, cmp: Comparator<T>): (r: int)
    ensures (forall i :: 0 <= i < |a| && i < |b| ==> cmp(a[i], b[i]) == 0) ==>
      (r < 0 <==> |a| < |b|) && (r == 0 <==> |a| == |b|)
    decreases |a|
  {
    if a == [] && b == [] then 0
    else if a == [] then -1
    else if b == [] then 1
    else if cmp(a[0], b[0]) != 0 then cmp(a[0], b[0])
    else LexCmp(a[1..], b[1..], cmp)
  }

  lemma {:induction false} LexCmpAntisymmetric<T(!new)>(a: seq<T>, b: seq<T>, cmp: Comparator<T>)
    requires TotalOrder(cmp)
    ensures LexCmp(a, b, cmp) == -LexCmp(b, a, cmp)
    decreases |a|
  {
    if a != [] && b != [] && cmp(a[0], b[0]) == 0 {
      LexCmpAntisymmetric(a[1..], b[1..], cmp);
    }
  }

  lemma {:induction false} LexCmpZero<T(!new)>(a: seq<T>, b: seq<T>, cmp: Comparator<T>)
    requires TotalOrder(cmp)
    ensures LexCmp(a, b, cmp) == 0 ==> a == b
    decreases |a|
  {
    if a != [] && b != [] && cmp(a[0], b[0]) == 0 {
      LexCmpZero(a[1..], b[1..], cmp);
      if LexCmp(a, b, cmp) == 0 {
        assert a == [a[0]] + a[1..] && b == [b[0]] + b[1..];
      }
    }
  }

  lemma {:induction false} LexCmpTransitive<T(!new)>(a: seq<T>, b: seq<T>, c: seq<T>, cmp: Comparator<T>)
    requires TotalOrder(cmp)
    requires LexCmp(a, b, cmp) <= 0 && LexCmp(b, c, cmp) <= 0
    ensures LexCmp(a, c, cmp) <= 0
    decreases |a|
  {
    if a != [] {
      var x, y, z := a[0], b[0], c[0];
      if cmp(x, y) == 0 && cmp(y, z) == 0 {
        assert x == y && y == z;
        LexCmpTransitive(a[1..], b[1..], c[1..], cmp);
      } else if cmp(x, y) == 0 {
        assert x == y;
      } else if cmp(y, z) == 0 {
        assert y == z;
      } else {
        assert cmp(x, z) <= 0;
      }
    }
  }

  /** The first pair of elements that differ decides the comparison. */
  lemma {:induction false} LexCmpFirstDifference<T>(a: seq<T>, b: seq<T>, cmp: Comparator<T>, k: nat)
    requires k < |a| && k < |b| && cmp(a[k], b[k]) != 0
    requires forall i :: 0 <= i < k ==> cmp(a[i], b[i]) == 0
    ensures LexCmp(a, b, cmp) == cmp(a[k], b[k])
    decreases k
  {
    if k > 0 {
      assert forall i :: 0 <= i < k - 1 ==> cmp(a[1..][i], b[1..][i]) == 0 by {
        forall i | 0 <= i < k - 1 ensures cmp(a[1..][i], b[1..][i]) == 0 {
          assert a[1..][i] == a[i + 1] && b[1..][i] == b[i + 1];
        }
      }
      LexCmpFirstDifference(a[1..], b[1..], cmp, k - 1);
    }
  }

  /** Lexicographic comparison over a total order is a total order. */
  lemma LexCmpTotalOrder<T(!new)>(cmp: Comparator<T>)
    requires TotalOrder(cmp)
    ensures TotalOrder((a: seq<T>, b: seq<T>) => LexCmp(a, b, cmp))
  {
    forall a: seq<T>, b: seq<T> ensures LexCmp(a, b, cmp) == -LexCmp(b, a, cmp) {
      LexCmpAntisymmetric(a, b, cmp);
    }
    forall a: seq<T>, b: seq<T> ensures LexCmp(a, b, cmp) == 0 ==> a == b {
      LexCmpZero(a, b, cmp);
    }
    forall a: seq<T>, b: seq<T>, c: seq<T> | LexCmp(a, b, cmp) <= 0 && LexCmp(b, c, cmp) <= 0
      ensures LexCmp(a, c, cmp) <= 0
    {
      LexCmpTransitive(a, b, c, cmp);
    }
  }

  /** String#<=>. */
  function StrCmp(a: string, b: string): (r: int)
    ensures r == 0 <==> a == b
    ensures |a| < |b| && a == b[..|a|] ==> r < 0
  {
    assert TotalOrder(CharCmp);
    LexCmpZero(a, b, CharCmp);
    LexCmp(a, b, CharCmp)
  }

  lemma StrCmpTotalOrder()
    ensures TotalOrder(StrCmp)
  {
    assert TotalOrder(CharCmp);
    forall a: string, b: string ensures StrCmp(a, b) == -StrCmp(b, a) {
      LexCmpAntisymmetric(a, b, CharCmp);
    }
    forall a: string, b: string ensures StrCmp(a, b) == 0 ==> a == b {
      LexCmpZero(a, b, CharCmp);
    }
    forall a: string, b: string, c: string | StrCmp(a, b) <= 0 && StrCmp(b, c) <= 0
      ensures StrCmp(a, c) <= 0
    {
      LexCmpTransitive(a, b, c, CharCmp);
    }
  }

  /** No element is placed after one it compares below. */
  ghost predicate Sorted<T>(s: seq<T>, cmp: Comparator<T>)
  {
    forall i, j :: 0 <= i < j < |s| ==> cmp(s[i], s[j]) <= 0
  }

  /** Inserting into sorted order, before the first element it does not follow. */
  function Insert<T>(x: T, s: seq<T>, cmp: Comparator<T>): (r: seq<T>)
    ensures multiset(r) == multiset(s) + multiset{x}
    ensures |r| == |s| + 1
  {
    if s == [] then [x]
    else if cmp(x, s[0]) <= 0 then [x] + s
    else
      assert s == [s[0]] + s[1..];
      [s[0]] + Insert(x, s[1..], cmp)
  }

  /** The sort Array#sort performs: the elements, ordered by the comparator. */
  function SortBy<T>(s: seq<T>, cmp: Comparator<T>): (r: seq<T>)
    ensures multiset(r) == multiset(s)
    ensures |r| == |s|
  {
    if s == [] then []
    else
      assert s == [s[0]] + s[1..];
      Insert(s[0], SortBy(s[1..], cmp), cmp)
  }

  lemma {:induction false} InsertSorted<T(!new)>(x: T, s: seq<T>, cmp: Comparator<T>)
    requires TotalPreorder(cmp)
    requires Sorted(s, cmp)
    ensures Sorted(Insert(x, s, cmp), cmp)
    decreases |s|
  {
    if s != [] {
      var y := s[0];
      assert s == [y] + s[1..];
      SortedTail(s, cmp);
      if cmp(x, y) <= 0 {
        forall z | z in s ensures cmp(x, z) <= 0 {
          SortedFirstIsLeast(s, z, cmp);
        }
        SortedCons(x, s, cmp);
      } else {
        var t := Insert(x, s[1..], cmp);
        InsertSorted(x, s[1..], cmp);
        forall z | z in t ensures cmp(y, z) <= 0 {
          assert z in multiset(t);
          if z != x {
            assert z in multiset(s[1..]);
            SortedFirstIsLeast(s, z, cmp);
          }
        }
        SortedCons(y, t, cmp);
      }
    }
  }

  /** A sorted sequence stays sorted when an element that follows none of its
      elements is put in front. */
  lemma SortedCons<T>(y: T, t: seq<T>, cmp: Comparator<T>)
    requires Sorted(t, cmp)
    requires forall z :: z in t ==> cmp(y, z) <= 0
    ensures Sorted([y] + t, cmp)
  {
    var r := [y] + t;
    forall i, j | 0 <= i < j < |r| ensures cmp(r[i], r[j]) <= 0 {
      assert r[j] == t[j - 1];
      if i > 0 {
        assert r[i] == t[i - 1];
      } else {
        assert t[j - 1] in t;
      }
    }
  }

  /** SortBy yields its input in sorted order. */
  lemma {:induction false} SortBySorted<T(!new)>(s: seq<T>, cmp: Comparator<T>)
    requires TotalPreorder(cmp)
    ensures Sorted(SortBy(s, cmp), cmp)
    decreases |s|
  {
    if s != [] {
      SortBySorted(s[1..], cmp);
      InsertSorted(s[0], SortBy(s[1..], cmp), cmp);
    }
  }

  /** Two sorted arrangements of the same elements are the same sequence, as long
      as the comparator ties no two different elements. So any sorting algorithm
      gives the result SortBy gives. */
  lemma {:induction false} SortedUnique<T(!new)>(a: seq<T>, b: seq<T>, cmp: Comparator<T>)
    requires TotalPreorder(cmp)
    requires NoTies(a, cmp)
    requires Sorted(a, cmp) && Sorted(b, cmp)
    requires multiset(a) == multiset(b)
    ensures a == b
    decreases |a|
  {
    if a == [] {
      assert |b| == |multiset(b)| == 0;
    } else {
      SortedUniqueStep(a, b, cmp);
      SortedUnique(a[1..], b[1..], cmp);
      HeadTailEqual(a, b);
    }
  }

  /** What the induction in SortedUnique needs: equal first elements, and tails
      that again meet the lemma's requirements. */
  lemma SortedUniqueStep<T(!new)>(a: seq<T>, b: seq<T>, cmp: Comparator<T>)
    requires TotalPreorder(cmp)
    requires NoTies(a, cmp)
    requires Sorted(a, cmp) && Sorted(b, cmp)
    requires multiset(a) == multiset(b) && a != []
    ensures b != [] && a[0] == b[0]
    ensures NoTies(a[1..], cmp) && Sorted(a[1..], cmp) && Sorted(b[1..], cmp)
    ensures multiset(a[1..]) == multiset(b[1..])
  {
    assert b != [] by {
      assert |b| == |multiset(b)| == |multiset(a)| == |a|;
    }
    SortedSameHead(a, b, cmp);
    MultisetTail(a);
    MultisetTail(b);
    SortedTail(a, cmp);
    SortedTail(b, cmp);
    forall x, y | x in a[1..] && y in a[1..] && cmp(x, y) == 0 ensures x == y {
      assert x in a && y in a;
    }
  }

  lemma HeadTailEqual<T>(a: seq<T>, b: seq<T>)
    requires a != [] && b != [] && a[0] == b[0] && a[1..] == b[1..]
    ensures a == b
  {
    assert a == [a[0]] + a[1..] && b == [b[0]] + b[1..];
  }

  /** The comparator ties no two different elements of the sequence. */
  ghost predicate NoTies<T>(s: seq<T>, cmp: Comparator<T>)
  {
    forall x, y :: x in s && y in s && cmp(x, y) == 0 ==> x == y
  }

  lemma SortedSameHead<T(!new)>(a: seq<T>, b: seq<T>, cmp: Comparator<T>)
    requires TotalPreorder(cmp)
    requires NoTies(a, cmp)
    requires Sorted(a, cmp) && Sorted(b, cmp)
    requires multiset(a) == multiset(b) && a != [] && b != []
    ensures a[0] == b[0]
  {
    assert a[0] in multiset(b) && b[0] in multiset(a);
    SortedFirstIsLeast(b, a[0], cmp);
    SortedFirstIsLeast(a, b[0], cmp);
    assert b[0] in a;
  }

  /** The first element of a sorted sequence does not follow any of its elements. */
  lemma SortedFirstIsLeast<T>(s: seq<T>, x: T, cmp: Comparator<T>)
    requires Sorted(s, cmp) && x in multiset(s)
    ensures cmp(s[0], x) <= 0 || s[0] == x
  {
    assert x in s;
    var j :| 0 <= j < |s| && s[j] == x;
    if j > 0 {
      assert cmp(s[0], s[j]) <= 0;
    }
  }

  lemma SortedTail<T>(s: seq<T>, cmp: Comparator<T>)
    requires Sorted(s, cmp) && s != []
    ensures Sorted(s[1..], cmp)
  {
    forall p, q | 0 <= p < q < |s| - 1 ensures cmp(s[1..][p], s[1..][q]) <= 0 {
      assert s[1..][p] == s[p + 1] && s[1..][q] == s[q + 1];
    }
  }

  /** Taking off the first element takes one occurrence of it off the multiset. */
  lemma MultisetTail<T>(a: seq<T>)
    requires a != []
    ensures multiset(a[1..]) == multiset(a) - multiset{a[0]}
  {
    assert a == [a[0]] + a[1..];
    assert multiset(a) == multiset{a[0]} + multiset(a[1..]);
  }

  /** Array#reverse. */
  function Reverse<T>(s: seq<T>): (r: seq<T>)
    ensures |r| == |s|
    ensures forall i :: 0 <= i < |s| ==> r[i] == s[|s| - 1 - i]
  {
    if s == [] then [] else Reverse(s[1..]) + [s[0]]
  }

  lemma {:induction false} ReverseMultiset<T>(s: seq<T>)
    ensures multiset(Reverse(s)) == multiset(s)
  {
    if s != [] {
      ReverseMultiset(s[1..]);
      assert s == [s[0]] + s[1..];
    }
  }
}
