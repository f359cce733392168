/** Sorting the row list (`SortObjectDataList`) and what every sorted
    permutation of it satisfies.

    `List.Sort` is an unstable introsort: rows the comparator ties may come out
    in any order. The model sorts by insertion, and every property the rest of
    the model relies on is stated of ANY sorted permutation, so none of them
    depends on the tie order. */
module RecordSort {
  import opened ObjectData

  /** Adjacent rows are ordered by the comparator `sortBy`/`direction` select. */
  ghost predicate Sorted(rs: seq<ObjectRecord>, sortBy: int, direction: int) {
    forall i :: 0 < i < |rs| ==> CompareRecords(rs[i - 1], rs[i], sortBy, direction) <= 0
  }

  /** Every earlier row is ordered before every later row. */
  ghost predicate SortedPairwise(rs: seq<ObjectRecord>, sortBy: int, direction: int) {
    forall i, j :: 0 <= i < j < |rs| ==> CompareRecords(rs[i], rs[j], sortBy, direction) <= 0
  }

  /** Inserts `x` into a sorted list, before the first row it does not sort after. */
  function Insert(x: ObjectRecord, rs: seq<ObjectRecord>, sortBy: int, direction: int): (r: seq<ObjectRecord>)
    requires Sorted(rs, sortBy, direction)
    ensures Sorted(r, sortBy, direction)
    ensures multiset(r) == multiset(rs) + multiset{x}
    ensures |r| == |rs| + 1
    ensures r[0] == x || (|rs| > 0 && r[0] == rs[0])
  {
    if |rs| == 0 then [x]
    else if CompareRecords(x, rs[0], sortBy, direction) <= 0 then [x] + rs
    else
      CompareRecordsFlip(x, rs[0], sortBy, direction);
      SortedTail(rs, sortBy, direction);
      var tail := Insert(x, rs[1..], sortBy, direction);
      assert rs == [rs[0]] + rs[1..];
      assert |rs| > 1 ==> rs[1..][0] == rs[1];
      SortedCons(rs[0], tail, sortBy, direction);
      [rs[0]] + tail
  }

  /** A row that sorts no later than the head of a sorted list can go in
      front of it. */
  lemma SortedCons(h: ObjectRecord, rs: seq<ObjectRecord>, sortBy: int, direction: int)
    requires Sorted(rs, sortBy, direction)
    requires |rs| > 0 ==> CompareRecords(h, rs[0], sortBy, direction) <= 0
    ensures Sorted([h] + rs, sortBy, direction)
  {
    var r := [h] + rs;
    forall i | 0 < i < |r|
      ensures CompareRecords(r[i - 1], r[i], sortBy, direction) <= 0
    {
      if i > 1 {
        assert r[i - 1] == rs[i - 2] && r[i] == rs[i - 1];
      }
    }
  }

  /** Dropping the first row keeps a list sorted. */
  lemma SortedTail(rs: seq<ObjectRecord>, sortBy: int, direction: int)
    requires |rs| > 0 && Sorted(rs, sortBy, direction)
    ensures Sorted(rs[1..], sortBy, direction)
  {
    forall k | 0 < k < |rs[1..]|
      ensures CompareRecords(rs[1..][k - 1], rs[1..][k], sortBy, direction) <= 0
    {
      assert rs[1..][k - 1] == rs[k] && rs[1..][k] == rs[k + 1];
    }
  }

  /** The list re-ordered by the comparator `sortBy`/`direction` select. */
  function SortRecords(rs: seq<ObjectRecord>, sortBy: int, direction: int): (r: seq<ObjectRecord>)
    ensures Sorted(r, sortBy, direction)
    ensures multiset(r) == multiset(rs)
    ensures |r| == |rs|
  {
    if |rs| == 0 then []
    else
      assert rs == [rs[0]] + rs[1..];
      Insert(rs[0], SortRecords(rs[1..], sortBy, direction), sortBy, direction)
  }

  /** Adjacent order extends to every pair, because both comparators are
      transitive. */
  lemma {:induction false} SortedIsPairwise(rs: seq<ObjectRecord>, sortBy: int, direction: int)
    requires Sorted(rs, sortBy, direction)
    ensures SortedPairwise(rs, sortBy, direction)
  {
    if |rs| > 1 {
      var init := rs[..|rs| - 1];
      assert Sorted(init, sortBy, direction) by {
        forall i | 0 < i < |init|
          ensures CompareRecords(init[i - 1], init[i], sortBy, direction) <= 0
        {
          assert init[i - 1] == rs[i - 1] && init[i] == rs[i];
        }
      }
      SortedIsPairwise(init, sortBy, direction);
      var last := |rs| - 1;
      forall i, j | 0 <= i < j < |rs|
        ensures CompareRecords(rs[i], rs[j], sortBy, direction) <= 0
      {
        if j < last {
          assert rs[i] == init[i] && rs[j] == init[j];
        } else if i < last - 1 {
          assert rs[i] == init[i] && rs[last - 1] == init[last - 1];
          CompareRecordsTransitive(rs[i], rs[last - 1], rs[last], sortBy, direction);
        }
      }
    }
  }

  lemma {:induction false} SumSizesAppend(a: seq<ObjectRecord>, b: seq<ObjectRecord>)
    ensures SumSizes(a + b) == SumSizes(a) + SumSizes(b)
  {
    if |a| > 0 {
      assert (a + b)[1..] == a[1..] + b;
      SumSizesAppend(a[1..], b);
    } else {
      assert a + b == b;
    }
  }

  /** Taking out row `j` removes exactly that row from the multiset. */
  lemma MultisetRemoveAt(b: seq<ObjectRecord>, j: nat)
    requires j < |b|
    ensures multiset(b[..j] + b[j + 1..]) == multiset(b) - multiset{b[j]}
  {
    assert b == b[..j] + [b[j]] + b[j + 1..];
  }

  /** Two permutations of each other stay permutations once one copy of the
      same row is taken out of each. */
  lemma MatchedRestsAgree(a: seq<ObjectRecord>, b: seq<ObjectRecord>, j: nat)
    requires multiset(a) == multiset(b) && |a| > 0 && j < |b| && b[j] == a[0]
    ensures multiset(a[1..]) == multiset(b[..j] + b[j + 1..])
  {
    MultisetRemoveAt(b, j);
    assert a == [a[0]] + a[1..];
    assert multiset(a) == multiset{a[0]} + multiset(a[1..]);
  }

  /** A list is the rows before `j`, row `j`, and the rows after it. */
  lemma SplitAt(b: seq<ObjectRecord>, j: nat)
    requires j < |b|
    ensures b == b[..j] + ([b[j]] + b[j + 1..])
  {
  }

  /** The total of a row followed by a list. */
  lemma SumSizesCons(x: ObjectRecord, rs: seq<ObjectRecord>)
    ensures SumSizes([x] + rs) == x.size + SumSizes(rs)
  {
    assert ([x] + rs)[1..] == rs;
  }

  /** Taking out row `j` removes exactly that row's size from the total. */
  lemma SumSizesRemoveAt(b: seq<ObjectRecord>, j: nat)
    requires j < |b|
    ensures SumSizes(b) == b[j].size + SumSizes(b[..j] + b[j + 1..])
  {
    var before, after := b[..j], b[j + 1..];
    SplitAt(b, j);
    SumSizesAppend(before, [b[j]] + after);
    SumSizesCons(b[j], after);
    SumSizesAppend(before, after);
  }

  /** A position at which a row of the multiset occurs. */
  lemma {:induction false} IndexOf(b: seq<ObjectRecord>, x: ObjectRecord) returns (j: nat)
    requires x in multiset(b)
    ensures j < |b| && b[j] == x
    decreases |b|
  {
    if b[0] == x {
      j := 0;
    } else {
      assert b == [b[0]] + b[1..];
      var k := IndexOf(b[1..], x);
      j := k + 1;
    }
  }

  /** Re-ordering the rows does not change their total size. */
  lemma {:induction false} SumSizesPermutation(a: seq<ObjectRecord>, b: seq<ObjectRecord>)
    requires multiset(a) == multiset(b)
    ensures SumSizes(a) == SumSizes(b)
    decreases |a|
  {
    if |a| > 0 {
      assert a[0] in multiset(a);
      var j := IndexOf(b, a[0]);
      var rest := b[..j] + b[j + 1..];
      MatchedRestsAgree(a, b, j);
      SumSizesPermutation(a[1..], rest);
      SumSizesRemoveAt(b, j);
      assert SumSizes(a) == a[0].size + SumSizes(a[1..]);
    } else {
      assert |b| == |multiset(b)| == 0;
    }
  }

  /** The rows in the opposite order. */
  function Reverse(rs: seq<ObjectRecord>): (r: seq<ObjectRecord>)
    ensures |r| == |rs|
    ensures forall i :: 0 <= i < |rs| ==> r[i] == rs[|rs| - 1 - i]
  {
    if |rs| == 0 then [] else Reverse(rs[1..]) + [rs[0]]
  }

  /** Toggling the direction from 0 to 1 reverses the comparison of every
      adjacent pair: a list is sorted ascending exactly when its reverse is
      sorted descending. */
  lemma SortedReverse(rs: seq<ObjectRecord>, sortBy: int)
    ensures Sorted(rs, sortBy, 0) <==> Sorted(Reverse(rs), sortBy, 1)
  {
    var rv := Reverse(rs);
    var n := |rs|;
    if Sorted(rs, sortBy, 0) {
      forall i | 0 < i < n
        ensures CompareRecords(rv[i - 1], rv[i], sortBy, 1) <= 0
      {
        DirectionMirrors(rv[i - 1], rv[i], sortBy, 1);
        assert rv[i - 1] == rs[n - i] && rv[i] == rs[n - 1 - i];
      }
    }
    if Sorted(rv, sortBy, 1) {
      forall i | 0 < i < n
        ensures CompareRecords(rs[i - 1], rs[i], sortBy, 0) <= 0
      {
        var k := n - i;
        assert rv[k - 1] == rs[i] && rv[k] == rs[i - 1];
        DirectionMirrors(rv[k - 1], rv[k], sortBy, 1);
      }
    }
  }

  /** Two rows the comparator ties. */
  predicate Tied(a: ObjectRecord, b: ObjectRecord, sortBy: int) {
    CompareRecords(a, b, sortBy, 0) == 0
  }

  /** No two distinct positions hold tied rows. */
  ghost predicate NoTies(rs: seq<ObjectRecord>, sortBy: int) {
    forall i, j :: 0 <= i < |rs| && 0 <= j < |rs| && i != j ==> !Tied(rs[i], rs[j], sortBy)
  }

  /** A comparison of zero in either direction is a tie. */
  lemma ZeroIsTied(a: ObjectRecord, b: ObjectRecord, sortBy: int, direction: int)
    requires CompareRecords(a, b, sortBy, direction) == 0
    ensures Tied(a, b, sortBy)
  {
    if direction != 0 {
      DirectionMirrors(a, b, sortBy, direction);
      CompareRecordsFlip(a, b, sortBy, 0);
    }
  }

  /** The first row of a sorted list sorts no later than any row of it. */
  lemma FirstSortsFirst(rs: seq<ObjectRecord>, j: int, sortBy: int, direction: int)
    requires Sorted(rs, sortBy, direction) && 0 <= j < |rs|
    ensures CompareRecords(rs[0], rs[j], sortBy, direction) <= 0
  {
    if j == 0 {
      CompareRecordsFlip(rs[0], rs[0], sortBy, direction);
    } else {
      SortedIsPairwise(rs, sortBy, direction);
    }
  }

  /** Two sorted permutations of a list without ties start with the same row. */
  lemma SortedHeadsEqual(a: seq<ObjectRecord>, b: seq<ObjectRecord>, sortBy: int, direction: int)
    requires Sorted(a, sortBy, direction) && Sorted(b, sortBy, direction)
    requires multiset(a) == multiset(b) && |a| > 0 && |b| > 0
    requires NoTies(a, sortBy)
    ensures a[0] == b[0]
  {
    assert a[0] in multiset(b);
    assert b[0] in multiset(a);
    var i :| 0 <= i < |b| && b[i] == a[0];
    var j :| 0 <= j < |a| && a[j] == b[0];
    FirstSortsFirst(a, j, sortBy, direction);
    FirstSortsFirst(b, i, sortBy, direction);
    CompareRecordsFlip(a[0], b[0], sortBy, direction);
    ZeroIsTied(a[0], a[j], sortBy, direction);
  }

  /** When the comparator ties no two rows, the sorted permutation is unique:
      the order the model's sort produces is the one any correct sort
      produces. */
  lemma {:induction false} SortedPermutationUnique(a: seq<ObjectRecord>, b: seq<ObjectRecord>, sortBy: int, direction: int)
    requires Sorted(a, sortBy, direction) && Sorted(b, sortBy, direction)
    requires multiset(a) == multiset(b)
    requires NoTies(a, sortBy)
    ensures a == b
    decreases |a|
  {
    assert |a| == |multiset(a)| == |multiset(b)| == |b|;
    if |a| > 0 {
      SortedHeadsEqual(a, b, sortBy, direction);
      MultisetTails(a, b);
      SortedTail(a, sortBy, direction);
      SortedTail(b, sortBy, direction);
      NoTiesTail(a, sortBy);
      SortedPermutationUnique(a[1..], b[1..], sortBy, direction);
      assert a == [a[0]] + a[1..] && b == [b[0]] + b[1..];
    }
  }

  lemma MultisetTails(a: seq<ObjectRecord>, b: seq<ObjectRecord>)
    requires |a| > 0 && |b| > 0 && a[0] == b[0] && multiset(a) == multiset(b)
    ensures multiset(a[1..]) == multiset(b[1..])
  {
    assert a == [a[0]] + a[1..] && b == [b[0]] + b[1..];
    assert multiset(a[1..]) == multiset(a) - multiset{a[0]};
    assert multiset(b[1..]) == multiset(b) - multiset{b[0]};
  }

  lemma NoTiesTail(a: seq<ObjectRecord>, sortBy: int)
    requires |a| > 0 && NoTies(a, sortBy)
    ensures NoTies(a[1..], sortBy)
  {
    forall p, q | 0 <= p < |a[1..]| && 0 <= q < |a[1..]| && p != q
      ensures !Tied(a[1..][p], a[1..][q], sortBy)
    {
      assert a[1..][p] == a[p + 1] && a[1..][q] == a[q + 1];
    }
  }

  /** In a list sorted by descending size, a row strictly smaller than every
      other row comes last, whatever the order of the tied rows before it. */
  lemma StrictMinimumIsLast(rs: seq<ObjectRecord>, x: ObjectRecord, direction: int)
    requires direction != 0
    requires Sorted(rs, SizeKey, direction)
    requires x in rs
    requires forall i :: 0 <= i < |rs| && rs[i] != x ==> rs[i].size > x.size
    ensures rs[|rs| - 1] == x
  {
    SortedIsPairwise(rs, SizeKey, direction);
    var k :| 0 <= k < |rs| && rs[k] == x;
    var last := |rs| - 1;
    if k < last {
      assert CompareRecords(rs[k], rs[last], SizeKey, direction) <= 0;
    }
  }
}
