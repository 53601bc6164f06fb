/** Column-wise ascending sort of a scenario matrix, numpy's
    `np.sort(m, axis=0)`: the specification (a functional sorted copy and the
    fact that a sorted permutation is unique), an in-place sort of one
    column, and the matrix-wide sort that returns a new matrix. */
module Sorting {

  predicate Sorted(s: seq<real>) {
    forall i, j :: 0 <= i < j < |s| ==> s[i] <= s[j]
  }

  /** Inserts x into a sorted sequence. */
  function Insert(x: real, s: seq<real>): (r: seq<real>)
    requires Sorted(s)
    ensures Sorted(r)
    ensures multiset(r) == multiset(s) + multiset{x}
    ensures |r| == |s| + 1
    ensures r[0] == if s == [] || x <= s[0] then x else s[0]
  {
    if s == [] || x <= s[0] then
      [x] + s
    else
      var t := Insert(x, s[1..]);
      assert s == [s[0]] + s[1..];
      assert s[0] <= t[0];
      assert multiset([s[0]] + t) == multiset{s[0]} + multiset(t);
      [s[0]] + t
  }

  /** The ascending rearrangement of s (an insertion sort). */
  function SortedCopy(s: seq<real>): (r: seq<real>)
    ensures Sorted(r)
    ensures multiset(r) == multiset(s)
    ensures |r| == |s|
  {
    if s == [] then []
    else
      assert s == [s[0]] + s[1..];
      Insert(s[0], SortedCopy(s[1..]))
  }

  /** The head of a sorted sequence is at most each of its elements. */
  lemma SortedHeadIsLeast(s: seq<real>, x: real)
    requires Sorted(s) && x in multiset(s)
    ensures |s| > 0 && s[0] <= x
  {
    assert x in s;
  }

  /** Two sorted sequences with the same elements are equal: the column
      numpy's sort produces is determined by the column it sorts. */
  lemma {:induction false} SortedUnique(a: seq<real>, b: seq<real>)
    requires Sorted(a) && Sorted(b)
    requires multiset(a) == multiset(b)
    ensures a == b
  {
    assert |a| == |multiset(a)| == |multiset(b)| == |b|;
    if |a| > 0 {
      assert a[0] in multiset(a);
      assert b[0] in multiset(b);
      SortedHeadIsLeast(b, a[0]);
      SortedHeadIsLeast(a, b[0]);
      assert a == [a[0]] + a[1..];
      assert b == [b[0]] + b[1..];
      assert multiset(a) == multiset{a[0]} + multiset(a[1..]);
      assert multiset(b) == multiset{b[0]} + multiset(b[1..]);
      assert a[0] == b[0];
      assert multiset(a[1..]) == multiset(a) - multiset{a[0]};
      assert multiset(b[1..]) == multiset(b) - multiset{b[0]};
      SortedUnique(a[1..], b[1..]);
    }
  }

  /** Sorts one column ascending in place (insertion sort by adjacent swaps). */
  method SortAscending(a: array<real>)
    modifies a
    ensures Sorted(a[..])
    ensures multiset(a[..]) == old(multiset(a[..]))
  {
    for i := 0 to a.Length
      invariant forall x, y :: 0 <= x < y < i ==> a[x] <= a[y]
      invariant multiset(a[..]) == old(multiset(a[..]))
    {
      var j := i;
      while 0 < j && a[j] < a[j - 1]
        invariant 0 <= j <= i
        invariant forall x, y :: 0 <= x < y <= i && x != j && y != j ==> a[x] <= a[y]
        invariant forall y :: j < y <= i ==> a[j] <= a[y]
        invariant multiset(a[..]) == old(multiset(a[..]))
      {
        Swap(a, j - 1, j);
        j := j - 1;
      }
    }
  }

  /** Exchanges two entries of an array. */
  method Swap(a: array<real>, i: int, j: int)
    requires 0 <= i < a.Length && 0 <= j < a.Length
    modifies a
    ensures a[i] == old(a[j]) && a[j] == old(a[i])
    ensures forall k :: 0 <= k < a.Length && k != i && k != j ==> a[k] == old(a[k])
    ensures multiset(a[..]) == old(multiset(a[..]))
  {
    a[i], a[j] := a[j], a[i];
  }

  /** Column j of a matrix, top to bottom. */
  function Column(m: array2<real>, j: int): (c: seq<real>)
    reads m
    requires 0 <= j < m.Length1
    ensures |c| == m.Length0
    ensures forall k :: 0 <= k < m.Length0 ==> c[k] == m[k, j]
  {
    seq(m.Length0, k requires 0 <= k < m.Length0 reads m => m[k, j])
  }

  /** Copies column j of m into a new array. */
  method CopyColumn(m: array2<real>, j: int) returns (col: array<real>)
    requires 0 <= j < m.Length1
    ensures fresh(col)
    ensures col[..] == Column(m, j)
  {
    col := new real[m.Length0];
    for k := 0 to m.Length0
      invariant forall k' :: 0 <= k' < k ==> col[k'] == m[k', j]
    {
      col[k] := m[k, j];
    }
  }

  /** Column j of m sorted ascending, computed on a scratch array. */
  method SortedColumn(m: array2<real>, j: int) returns (c: seq<real>)
    requires 0 <= j < m.Length1
    ensures c == SortedCopy(Column(m, j))
  {
    var col := CopyColumn(m, j);
    SortAscending(col);
    SortedUnique(col[..], SortedCopy(Column(m, j)));
    c := col[..];
  }

  /** Overwrites column j of s with c, leaving the other columns alone. */
  method StoreColumn(s: array2<real>, j: int, c: seq<real>)
    requires 0 <= j < s.Length1 && |c| == s.Length0
    modifies s
    ensures forall k :: 0 <= k < s.Length0 ==> s[k, j] == c[k]
    ensures forall k, t :: 0 <= k < s.Length0 && 0 <= t < s.Length1 && t != j ==> s[k, t] == old(s[k, t])
  {
    for k := 0 to s.Length0
      invariant forall k' :: 0 <= k' < k ==> s[k', j] == c[k']
      invariant forall k', t :: 0 <= k' < s.Length0 && 0 <= t < s.Length1 && t != j ==> s[k', t] == old(s[k', t])
    {
      s[k, j] := c[k];
    }
  }

  /** Entries that agree with a sequence of columns give those columns. */
  lemma ColumnsFromEntries(s: array2<real>, cols: seq<seq<real>>)
    requires |cols| == s.Length1
    requires forall t :: 0 <= t < |cols| ==> |cols[t]| == s.Length0
    requires forall t, k :: 0 <= t < s.Length1 && 0 <= k < s.Length0 ==> s[k, t] == cols[t][k]
    ensures forall t :: 0 <= t < s.Length1 ==> Column(s, t) == cols[t]
  {
    forall t | 0 <= t < s.Length1
      ensures Column(s, t) == cols[t]
    {
      assert forall k :: 0 <= k < s.Length0 ==> Column(s, t)[k] == cols[t][k];
    }
  }

  /** `np.sort(m, axis=0)`: a new matrix of the same shape whose every
      column is the ascending rearrangement of the same column of m. */
  method SortColumns(m: array2<real>) returns (s: array2<real>)
    ensures fresh(s)
    ensures s.Length0 == m.Length0 && s.Length1 == m.Length1
    ensures forall j :: 0 <= j < m.Length1 ==> Column(s, j) == SortedCopy(Column(m, j))
  {
    ghost var target := seq(m.Length1, t requires 0 <= t < m.Length1 reads m => SortedCopy(Column(m, t)));
    s := new real[m.Length0, m.Length1];
    for j := 0 to m.Length1
      invariant forall t :: 0 <= t < m.Length1 ==> target[t] == SortedCopy(Column(m, t))
      invariant forall t, k :: 0 <= t < j && 0 <= k < m.Length0 ==> s[k, t] == target[t][k]
    {
      var c := SortedColumn(m, j);
      assert c == target[j];
      StoreColumn(s, j, c);
    }
    ColumnsFromEntries(s, target);
  }
}
