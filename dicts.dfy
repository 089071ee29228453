/**
 * Python dicts and JavaScript plain objects: insertion-ordered association
 * lists whose keys are unique. Assigning `d[k] = v` replaces the value of an
 * existing key in place and appends a new key at the end; building a dict
 * from a list of pairs therefore keeps the first position and the last value
 * of a repeated key.
 */
module Dicts {
  import opened Wrappers

  type AList<V> = seq<(string, V)>

  predicate UniqueKeys<V>(d: AList<V>) {
    forall i, j :: 0 <= i < j < |d| ==> d[i].0 != d[j].0
  }

  /** A dict: no key appears twice. */
  type Dict<V> = d: AList<V> | UniqueKeys(d) witness []

  function Keys<V>(d: AList<V>): (ks: seq<string>)
    ensures |ks| == |d| && forall i :: 0 <= i < |d| ==> ks[i] == d[i].0
  {
    seq(|d|, i requires 0 <= i < |d| => d[i].0)
  }

  /** `d.get(k)`: the value of the first entry with key `k`. */
  function Get<V>(d: AList<V>, k: string): Option<V> {
    if |d| == 0 then None
    else if d[0].0 == k then Some(d[0].1)
    else Get(d[1..], k)
  }

  /** `d.get(k, default)`. */
  function GetOr<V>(d: AList<V>, k: string, default: V): V {
    Get(d, k).GetOr(default)
  }

  /** The position of key `k` in `d`, or `|d|` when it is absent. */
  function IndexOf<V>(d: AList<V>, k: string): (i: nat)
    ensures i <= |d| && (i < |d| ==> d[i].0 == k)
    ensures forall j :: 0 <= j < i ==> d[j].0 != k
    ensures i == |d| <==> k !in Keys(d)
  {
    if |d| == 0 then 0
    else if d[0].0 == k then 0
    else
      assert Keys(d) == [d[0].0] + Keys(d[1..]);
      1 + IndexOf(d[1..], k)
  }

  /** `d[k] = v`. */
  function Put<V>(d: Dict<V>, k: string, v: V): (r: Dict<V>)
    ensures |r| == if k in Keys(d) then |d| else |d| + 1
    ensures forall i :: 0 <= i < |d| ==> r[i].0 == d[i].0
    ensures forall i :: 0 <= i < |d| && d[i].0 != k ==> r[i] == d[i]
    ensures k in Keys(d) || r[|d|] == (k, v)
  {
    var i := IndexOf(d, k);
    if i < |d| then d[i := (k, v)] else d + [(k, v)]
  }

  lemma {:induction false} GetIn<V>(d: AList<V>, k: string)
    ensures Get(d, k).Some? <==> k in Keys(d)
  {
    if |d| > 0 {
      GetIn(d[1..], k);
      assert Keys(d) == [d[0].0] + Keys(d[1..]);
    }
  }

  lemma {:induction false} GetAt<V>(d: Dict<V>, i: nat)
    requires i < |d|
    ensures Get(d, d[i].0) == Some(d[i].1)
  {
    if i > 0 {
      var t: Dict<V> := d[1..];
      GetAt(t, i - 1);
    }
  }

  /** `Get` finds the entry at the key's first position. */
  lemma {:induction false} GetIndexOf<V>(d: AList<V>, k: string)
    ensures Get(d, k) == if IndexOf(d, k) < |d| then Some(d[IndexOf(d, k)].1) else None
  {
    if |d| > 0 && d[0].0 != k {
      GetIndexOf(d[1..], k);
    }
  }

  /** After `d[k] = v`, `k` maps to `v` and every other key keeps its value. */
  lemma GetPut<V>(d: Dict<V>, k: string, v: V, k': string)
    ensures Get(Put(d, k, v), k') == if k' == k then Some(v) else Get(d, k')
  {
    var r := Put(d, k, v);
    GetIndexOf(r, k');
    GetIndexOf(d, k');
    var i := IndexOf(d, k');
    var ir := IndexOf(r, k');
    if k' == k {
      if i < |d| {
        assert r[i].0 == k;
        assert ir == i;
      } else {
        assert r[|d|].0 == k;
        assert ir == |d|;
      }
    } else if i < |d| {
      assert r[i] == d[i];
      assert ir == i;
    } else {
      assert k' !in Keys(r);
    }
  }

  /** Assigning a key the value it already has changes nothing. */
  lemma PutSame<V>(d: Dict<V>, k: string, v: V)
    requires Get(d, k) == Some(v)
    ensures Put(d, k, v) == d
  {
    GetIndexOf(d, k);
  }

  /** Assigning a key that is not there appends it. */
  lemma {:induction false} PutAbsent<V>(d: Dict<V>, k: string, v: V)
    requires k !in Keys(d)
    ensures Put(d, k, v) == d + [(k, v)]
  {
  }

  /** Assigning a key that is there keeps the key order. */
  lemma PutPresentKeys<V>(d: Dict<V>, k: string, v: V)
    requires k in Keys(d)
    ensures Keys(Put(d, k, v)) == Keys(d)
  {
  }

  /** The dict built by assigning each pair in turn (a Python dict comprehension, a JS `forEach`). */
  function FromEntries<V>(ps: AList<V>): Dict<V> {
    if |ps| == 0 then []
    else Put(FromEntries(ps[..|ps| - 1]), ps[|ps| - 1].0, ps[|ps| - 1].1)
  }

  /** The value of the last pair with key `k`. */
  function LastValue<V>(ps: AList<V>, k: string): Option<V> {
    if |ps| == 0 then None
    else if ps[|ps| - 1].0 == k then Some(ps[|ps| - 1].1)
    else LastValue(ps[..|ps| - 1], k)
  }

  /** In a dict built from pairs, a later pair with the same key overwrites an earlier one. */
  lemma {:induction false} FromEntriesGet<V>(ps: AList<V>, k: string)
    ensures Get(FromEntries(ps), k) == LastValue(ps, k)
  {
    if |ps| > 0 {
      FromEntriesGet(ps[..|ps| - 1], k);
      GetPut(FromEntries(ps[..|ps| - 1]), ps[|ps| - 1].0, ps[|ps| - 1].1, k);
    }
  }

  /** A list of pairs whose keys are already unique is rebuilt unchanged: the dict -> list -> dict round trip. */
  lemma {:induction false} FromEntriesOfDict<V>(d: Dict<V>)
    ensures FromEntries(d) == d
  {
    if |d| > 0 {
      var init: Dict<V> := d[..|d| - 1];
      FromEntriesOfDict(init);
      assert d[|d| - 1].0 !in Keys(init);
      PutAbsent(init, d[|d| - 1].0, d[|d| - 1].1);
      assert init + [d[|d| - 1]] == d;
    }
  }

  /** Keeps the keys and order of `d`, transforming each value with `f`. */
  function MapValues<V, W>(d: Dict<V>, f: V -> W): (r: Dict<W>)
    ensures Keys(r) == Keys(d)
    ensures forall i :: 0 <= i < |d| ==> r[i] == (d[i].0, f(d[i].1))
  {
    var r := seq(|d|, i requires 0 <= i < |d| => (d[i].0, f(d[i].1)));
    assert forall i :: 0 <= i < |d| ==> r[i].0 == d[i].0;
    r
  }

  /** `{...a, ...b}`: every key of `b` assigned onto `a` in turn. */
  function Merge<V>(a: Dict<V>, b: Dict<V>): Dict<V> {
    if |b| == 0 then a
    else Put(Merge(a, b[..|b| - 1]), b[|b| - 1].0, b[|b| - 1].1)
  }

  /** Looking up in a list extended by one pair finds the old entry first. */
  lemma {:induction false} GetSnoc<V>(d: AList<V>, p: (string, V), k: string)
    ensures Get(d + [p], k) == if Get(d, k).Some? then Get(d, k) else if p.0 == k then Some(p.1) else None
  {
    if |d| > 0 {
      assert (d + [p])[1..] == d[1..] + [p];
      GetSnoc(d[1..], p, k);
    }
  }

  /** In a merge the keys of `b` take `b`'s values and every other key keeps `a`'s. */
  lemma {:induction false} GetMerge<V>(a: Dict<V>, b: Dict<V>, k: string)
    ensures Get(Merge(a, b), k) == if k in Keys(b) then Get(b, k) else Get(a, k)
  {
    if |b| > 0 {
      var init: Dict<V> := b[..|b| - 1];
      var last := b[|b| - 1];
      assert b == init + [last];
      assert Merge(a, b) == Put(Merge(a, init), last.0, last.1);
      GetMerge(a, init, k);
      GetPut(Merge(a, init), last.0, last.1, k);
      GetSnoc(init, last, k);
      GetIn(init, k);
      GetIn(b, k);
      if k == last.0 {
        assert Get(b, k) == Some(last.1);
      } else {
        assert Get(b, k) == Get(init, k);
      }
    }
  }

  /**
   * The entries of `d` under the keys in `names`, taken in the order of
   * `names`; a name `d` does not have is left out.
   */
  function Pick<V>(d: Dict<V>, names: seq<string>): Dict<V>
    decreases |names|
  {
    if |names| == 0 then []
    else
      var n := names[|names| - 1];
      var prev := Pick(d, names[..|names| - 1]);
      if Get(d, n).Some? then Put(prev, n, Get(d, n).value) else prev
  }

  /** A picked key has its value in `d`; any other key is absent. */
  lemma {:induction false} GetPick<V>(d: Dict<V>, names: seq<string>, k: string)
    ensures Get(Pick(d, names), k) == if k in names then Get(d, k) else None
    decreases |names|
  {
    if |names| > 0 {
      var init := names[..|names| - 1];
      var n := names[|names| - 1];
      assert names == init + [n];
      assert k in names <==> k in init || k == n;
      GetPick(d, init, k);
      if Get(d, n).Some? {
        GetPut(Pick(d, init), n, Get(d, n).value, k);
      }
    }
  }
}
