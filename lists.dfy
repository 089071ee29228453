/**
 * The list operations the editors apply to a flow: exchanging two
 * positions, JavaScript's `splice(i, 1)`, the form library's `move(from, to)`,
 * `findIndex`, and `filter` together with the positions it keeps.
 */
module Lists {

  /** The list with positions `i` and `j` exchanged. */
  function Swap<T>(s: seq<T>, i: nat, j: nat): (r: seq<T>)
    requires i < |s| && j < |s|
    ensures |r| == |s| && r[i] == s[j] && r[j] == s[i]
    ensures forall k :: 0 <= k < |s| && k != i && k != j ==> r[k] == s[k]
  {
    s[i := s[j]][j := s[i]]
  }

  /** Exchanging two positions reorders the list and loses or duplicates nothing. */
  lemma SwapPermutes<T>(s: seq<T>, i: nat, j: nat)
    requires i < |s| && j < |s|
    ensures multiset(Swap(s, i, j)) == multiset(s)
  {
    var t := s[i := s[j]];
    assert multiset(t) == multiset(s) - multiset{s[i]} + multiset{s[j]};
    assert multiset(t[j := s[i]]) == multiset(t) - multiset{t[j]} + multiset{s[i]};
  }

  /** Exchanging the same two positions again restores the list. */
  lemma SwapTwice<T>(s: seq<T>, i: nat, j: nat)
    requires i < |s| && j < |s|
    ensures Swap(Swap(s, i, j), j, i) == s
  {
  }

  /** `splice(i, 1)`: the element at `i` removed, or the list unchanged when `i` is past the end. */
  function RemoveAt<T>(s: seq<T>, i: nat): (r: seq<T>)
    ensures i >= |s| ==> r == s
    ensures i < |s| ==> |r| == |s| - 1
    ensures i < |s| ==> forall k :: 0 <= k < i ==> r[k] == s[k]
    ensures i < |s| ==> forall k :: i <= k < |r| ==> r[k] == s[k + 1]
  {
    if i < |s| then s[..i] + s[i + 1..] else s
  }

  /** Removing one element takes exactly that element out of the multiset. */
  lemma RemoveAtMultiset<T>(s: seq<T>, i: nat)
    requires i < |s|
    ensures multiset(RemoveAt(s, i)) + multiset{s[i]} == multiset(s)
  {
    assert s == s[..i] + [s[i]] + s[i + 1..];
  }

  /** Inserts `x` so that it ends up at position `i`. */
  function InsertAt<T>(s: seq<T>, i: nat, x: T): (r: seq<T>)
    requires i <= |s|
    ensures |r| == |s| + 1 && r[i] == x
    ensures forall k :: 0 <= k < i ==> r[k] == s[k]
    ensures forall k :: i < k < |r| ==> r[k] == s[k - 1]
  {
    s[..i] + [x] + s[i..]
  }

  /**
   * The form library's `move(from, to)`: the element at `from` is taken out
   * and put back so that it sits at `to`; an index outside the list, or
   * `from == to`, leaves the list as it is.
   */
  function Move<T>(s: seq<T>, from: int, to: int): (r: seq<T>)
    ensures |r| == |s|
    ensures 0 <= from < |s| && 0 <= to < |s| ==> r[to] == s[from]
    ensures !(0 <= from < |s| && 0 <= to < |s|) ==> r == s
  {
    if from < 0 || from >= |s| || to < 0 || to >= |s| || from == to then s
    else InsertAt(RemoveAt(s, from), to, s[from])
  }

  /** A move reorders the list and loses or duplicates nothing. */
  lemma MovePermutes<T>(s: seq<T>, from: int, to: int)
    ensures multiset(Move(s, from, to)) == multiset(s)
  {
    if 0 <= from < |s| && 0 <= to < |s| && from != to {
      var t := RemoveAt(s, from);
      RemoveAtMultiset(s, from);
      var r := InsertAt(t, to, s[from]);
      assert r == t[..to] + [s[from]] + t[to..];
      assert t == t[..to] + t[to..];
      assert multiset(r) == multiset(t[..to]) + multiset{s[from]} + multiset(t[to..]);
    }
  }

  /** Moving an element back to where it came from restores the list. */
  lemma MoveBack<T>(s: seq<T>, from: int, to: int)
    ensures Move(Move(s, from, to), to, from) == s
  {
    if 0 <= from < |s| && 0 <= to < |s| && from != to {
      var t := RemoveAt(s, from);
      var m := InsertAt(t, to, s[from]);
      assert Move(s, from, to) == m;
      RemoveInserted(t, to, s[from]);
      InsertRemoved(s, from);
      assert Move(m, to, from) == InsertAt(RemoveAt(m, to), from, m[to]);
    }
  }

  /** Taking out an element just inserted gives the list back. */
  lemma RemoveInserted<T>(t: seq<T>, i: nat, x: T)
    requires i <= |t|
    ensures RemoveAt(InsertAt(t, i, x), i) == t
  {
    var m := InsertAt(t, i, x);
    assert m[..i] == t[..i] && m[i + 1..] == t[i..];
    assert t[..i] + t[i..] == t;
  }

  /** Putting a removed element back where it was gives the list back. */
  lemma InsertRemoved<T>(s: seq<T>, i: nat)
    requires i < |s|
    ensures InsertAt(RemoveAt(s, i), i, s[i]) == s
  {
    var t := RemoveAt(s, i);
    assert t[..i] == s[..i] && t[i..] == s[i + 1..];
    assert s[..i] + [s[i]] + s[i + 1..] == s;
  }

  /** `findIndex(x => x == v)`: the first position holding `v`, or -1. */
  function FindIndex<T(==)>(s: seq<T>, v: T): (i: int)
    ensures -1 <= i < |s|
    ensures 0 <= i ==> s[i] == v && forall j :: 0 <= j < i ==> s[j] != v
    ensures i == -1 <==> v !in s
  {
    if |s| == 0 then -1
    else if s[0] == v then 0
    else
      var j := FindIndex(s[1..], v);
      if j == -1 then -1 else j + 1
  }

  /** `filter(p)`: the elements satisfying `p`, in their original order. */
  function Filter<T>(s: seq<T>, p: T -> bool): (r: seq<T>)
    ensures |r| <= |s|
    ensures forall k :: 0 <= k < |r| ==> p(r[k])
  {
    if |s| == 0 then []
    else if p(s[0]) then [s[0]] + Filter(s[1..], p)
    else Filter(s[1..], p)
  }

  /** The positions `filter(p)` keeps, in increasing order. */
  function KeptIndexes<T>(s: seq<T>, p: T -> bool): (ix: seq<nat>)
  {
    if |s| == 0 then []
    else
      var rest := Shift(KeptIndexes(s[1..], p));
      if p(s[0]) then [0] + rest else rest
  }

  function Shift(ix: seq<nat>): (r: seq<nat>)
    ensures |r| == |ix| && forall k :: 0 <= k < |ix| ==> r[k] == ix[k] + 1
  {
    seq(|ix|, k requires 0 <= k < |ix| => ix[k] + 1)
  }

  predicate StrictlyIncreasing(ix: seq<nat>) {
    forall a, b :: 0 <= a < b < |ix| ==> ix[a] < ix[b]
  }

  /**
   * `filter` is characterised by the positions it keeps: they are strictly
   * increasing (so the result is a subsequence, in the original order, with no
   * element taken twice), they are exactly the positions whose element
   * satisfies `p`, and the result lists the elements at those positions.
   */
  lemma FilterKeeps<T>(s: seq<T>, p: T -> bool)
    ensures var ix := KeptIndexes(s, p);
      && |ix| == |Filter(s, p)|
      && StrictlyIncreasing(ix)
      && (forall k :: 0 <= k < |ix| ==> ix[k] < |s| && Filter(s, p)[k] == s[ix[k]])
      && (forall i :: 0 <= i < |s| ==> (i in ix <==> p(s[i])))
  {
    KeptIncreasing(s, p);
    KeptElements(s, p);
    KeptMembers(s, p);
  }

  /** The kept positions increase strictly. */
  lemma {:induction false} KeptIncreasing<T>(s: seq<T>, p: T -> bool)
    ensures StrictlyIncreasing(KeptIndexes(s, p))
  {
    if |s| > 0 {
      var inner := KeptIndexes(s[1..], p);
      KeptIncreasing(s[1..], p);
      var ix := KeptIndexes(s, p);
      forall a, b | 0 <= a < b < |ix|
        ensures ix[a] < ix[b]
      {
        if p(s[0]) {
          assert ix[b] == inner[b - 1] + 1;
          if a > 0 {
            assert ix[a] == inner[a - 1] + 1;
          }
        } else {
          assert ix[a] == inner[a] + 1 && ix[b] == inner[b] + 1;
        }
      }
    }
  }

  /** There are as many kept positions as kept elements, and each holds its element. */
  lemma {:induction false} KeptElements<T>(s: seq<T>, p: T -> bool)
    ensures |KeptIndexes(s, p)| == |Filter(s, p)|
    ensures forall k :: 0 <= k < |KeptIndexes(s, p)| ==>
              KeptIndexes(s, p)[k] < |s| && Filter(s, p)[k] == s[KeptIndexes(s, p)[k]]
  {
    if |s| > 0 {
      var t := s[1..];
      KeptElements(t, p);
      var inner := KeptIndexes(t, p);
      var ix := KeptIndexes(s, p);
      var f := Filter(s, p);
      if p(s[0]) {
        assert ix == [0] + Shift(inner) && f == [s[0]] + Filter(t, p);
        forall k | 0 <= k < |ix|
          ensures ix[k] < |s| && f[k] == s[ix[k]]
        {
          if k > 0 {
            assert ix[k] == inner[k - 1] + 1 && f[k] == Filter(t, p)[k - 1];
          }
        }
      } else {
        assert ix == Shift(inner) && f == Filter(t, p);
        forall k | 0 <= k < |ix|
          ensures ix[k] < |s| && f[k] == s[ix[k]]
        {
          assert ix[k] == inner[k] + 1;
        }
      }
    }
  }

  /** A position is kept exactly when its element satisfies `p`. */
  lemma {:induction false} KeptMembers<T>(s: seq<T>, p: T -> bool)
    ensures forall i :: 0 <= i < |s| ==> (i in KeptIndexes(s, p) <==> p(s[i]))
  {
    if |s| > 0 {
      var t := s[1..];
      KeptMembers(t, p);
      var inner := KeptIndexes(t, p);
      ShiftMembers(inner, |s|);
      var ix := KeptIndexes(s, p);
      forall i | 0 <= i < |s|
        ensures i in ix <==> p(s[i])
      {
        if i > 0 {
          assert i in ix <==> i in Shift(inner);
          assert s[i] == t[i - 1];
        }
      }
    }
  }

  /** A shifted position list holds `i` exactly when the original holds `i - 1`, and never holds 0. */
  lemma ShiftMembers(inner: seq<nat>, n: nat)
    ensures 0 !in Shift(inner)
    ensures forall i :: 1 <= i < n ==> (i in Shift(inner) <==> i - 1 in inner)
  {
    var rest := Shift(inner);
    forall i | 1 <= i < n
      ensures i in rest <==> i - 1 in inner
    {
      if i in rest {
        var k :| 0 <= k < |rest| && rest[k] == i;
        assert inner[k] == i - 1;
      }
      if i - 1 in inner {
        var k :| 0 <= k < |inner| && inner[k] == i - 1;
        assert rest[k] == i;
      }
    }
  }

  /** Filtering a list extended by one element extends the filtered list by that element when it is kept. */
  lemma {:induction false} FilterAppend<T>(s: seq<T>, x: T, p: T -> bool)
    ensures Filter(s + [x], p) == Filter(s, p) + (if p(x) then [x] else [])
  {
    if |s| > 0 {
      assert (s + [x])[1..] == s[1..] + [x];
      FilterAppend(s[1..], x, p);
    } else {
      assert s + [x] == [x];
    }
  }

  /** No element occurs twice. */
  predicate Distinct<T(==)>(s: seq<T>) {
    forall i, j :: 0 <= i < j < |s| ==> s[i] != s[j]
  }

  /** The position that `Move(s, from, to)` reads its `i`-th element from. */
  function MoveSource(n: int, from: int, to: int, i: int): int {
    if from < 0 || from >= n || to < 0 || to >= n || from == to then i
    else if i == to then from
    else if from < to && from <= i < to then i + 1
    else if to < from && to < i <= from then i - 1
    else i
  }

  /** Every element after a move comes from its source position. */
  lemma MoveAt<T>(s: seq<T>, from: int, to: int, i: int)
    requires 0 <= i < |s|
    ensures 0 <= MoveSource(|s|, from, to, i) < |s|
    ensures Move(s, from, to)[i] == s[MoveSource(|s|, from, to, i)]
  {
  }

  /** Distinct positions read from distinct sources. */
  lemma MoveSourceInjective(n: int, from: int, to: int, i: int, j: int)
    requires 0 <= i < n && 0 <= j < n && i != j
    ensures MoveSource(n, from, to, i) != MoveSource(n, from, to, j)
  {
  }

  lemma MoveDistinct<T>(s: seq<T>, from: int, to: int)
    requires Distinct(s)
    ensures Distinct(Move(s, from, to))
  {
    var m := Move(s, from, to);
    forall i, j | 0 <= i < j < |m|
      ensures m[i] != m[j]
    {
      MoveAt(s, from, to, i);
      MoveAt(s, from, to, j);
      MoveSourceInjective(|s|, from, to, i, j);
    }
  }

  lemma RemoveAtDistinct<T>(s: seq<T>, i: nat)
    requires Distinct(s)
    ensures Distinct(RemoveAt(s, i))
  {
  }
}
