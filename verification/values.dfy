/** Nested configuration values, as a task definition, a settings file or a
    runner configuration holds them once parsed from YAML. */
module Values {
  import Seqs

  datatype Option<+T> = None | Some(value: T)

  /** A YAML/JSON value. Mappings keep their insertion order, as Python dicts do. */
  datatype Value =
    | Null
    | Bool(b: bool)
    | Num(n: int)
    | Str(s: string)
    | List(items: seq<Value>)
    | Dict(entries: seq<Entry>)

  /** One key/value pair of an insertion-ordered mapping. */
  datatype Entry = Entry(key: string, val: Value)

  /** The keys of an ordered mapping, in order. */
  function Keys(es: seq<Entry>): (ks: seq<string>)
    ensures |ks| == |es|
    ensures forall i :: 0 <= i < |es| ==> ks[i] == es[i].key
  {
    if |es| == 0 then [] else Keys(es[..|es| - 1]) + [es[|es| - 1].key]
  }

  /** The dictionary an ordered mapping denotes: a later entry for a key
      replaces an earlier one, as in a Python dict display. */
  function ToMap(es: seq<Entry>): (m: map<string, Value>)
    ensures forall k :: k in m <==> k in Keys(es)
  {
    if |es| == 0 then map[]
    else
      var last := es[|es| - 1];
      assert Keys(es) == Keys(es[..|es| - 1]) + [last.key];
      ToMap(es[..|es| - 1])[last.key := last.val]
  }

  /** `d.get(k)`: the value stored under `k`, if any. */
  function Get(es: seq<Entry>, k: string): (r: Option<Value>)
    ensures r.Some? <==> k in Keys(es)
  {
    var m := ToMap(es);
    if k in m then Some(m[k]) else None
  }

  /** `d.get(k, default)`. */
  function GetOr(es: seq<Entry>, k: string, default: Value): Value
  {
    match Get(es, k)
    case Some(v) => v
    case None => default
  }

  /** The entries whose key is not in `drop`, in their original order (a
      dict comprehension with `if k not in drop`). */
  function WithoutKeys(es: seq<Entry>, drop: set<string>): (r: seq<Entry>)
    ensures ToMap(r) == ToMap(es) - drop
    ensures forall i :: 0 <= i < |r| ==> r[i] in es && r[i].key !in drop
    ensures Seqs.IsSubsequence(r, es)
  {
    if |es| == 0 then []
    else
      var init := es[..|es| - 1];
      var last := es[|es| - 1];
      assert es == init + [last];
      var r := WithoutKeys(init, drop);
      WithoutKeysStep(init, last, drop, r);
      if last.key in drop then r else r + [last]
  }

  /** One entry more: dropped when its key is in `drop`, appended otherwise. */
  lemma WithoutKeysStep(init: seq<Entry>, last: Entry, drop: set<string>, r: seq<Entry>)
    requires ToMap(r) == ToMap(init) - drop
    requires forall i :: 0 <= i < |r| ==> r[i] in init && r[i].key !in drop
    requires Seqs.IsSubsequence(r, init)
    ensures var r' := if last.key in drop then r else r + [last];
      && ToMap(r') == ToMap(init + [last]) - drop
      && (forall i :: 0 <= i < |r'| ==> r'[i] in init + [last] && r'[i].key !in drop)
      && Seqs.IsSubsequence(r', init + [last])
  {
    assert (init + [last])[..|init|] == init;
    assert ToMap(init + [last]) == ToMap(init)[last.key := last.val];
    UpdateThenDrop(ToMap(init), last.key, last.val, drop);
    if last.key in drop {
      Seqs.SubsequenceSnoc(r, init, last);
    } else {
      assert (r + [last])[..|r|] == r;
      assert ToMap(r + [last]) == ToMap(r)[last.key := last.val];
    }
  }

  lemma UpdateThenDrop(m: map<string, Value>, k: string, v: Value, drop: set<string>)
    ensures k in drop ==> m[k := v] - drop == m - drop
    ensures k !in drop ==> m[k := v] - drop == (m - drop)[k := v]
  {
  }

  /** A string-keyed dict as a Dafny map, for the places where order plays no part. */
  type Params = map<string, Value>
}

/** Small facts about sequences used by the orchestrator and the query resolver. */
module Seqs {

  predicate Distinct<T(==)>(xs: seq<T>)
  {
    forall i, j :: 0 <= i < j < |xs| ==> xs[i] != xs[j]
  }

  lemma DistinctNotInPrefix<T>(xs: seq<T>, i: nat)
    requires Distinct(xs) && i < |xs|
    ensures xs[i] !in xs[..i]
  {
    forall k | 0 <= k < i
      ensures xs[..i][k] != xs[i]
    {
      assert xs[..i][k] == xs[k];
    }
  }

  lemma DistinctPrefix<T>(xs: seq<T>, k: nat)
    requires Distinct(xs) && k <= |xs|
    ensures Distinct(xs[..k])
  {
  }

  lemma DistinctSnoc<T>(xs: seq<T>, x: T)
    requires Distinct(xs) && x !in xs
    ensures Distinct(xs + [x])
  {
  }

  /** `sub` is `xs` with some elements deleted and the rest kept in order. */
  predicate IsSubsequence<T(==)>(sub: seq<T>, xs: seq<T>)
    decreases |xs|
  {
    if |sub| == 0 then true
    else if |xs| == 0 then false
    else if sub[|sub| - 1] == xs[|xs| - 1] then IsSubsequence(sub[..|sub| - 1], xs[..|xs| - 1])
    else IsSubsequence(sub, xs[..|xs| - 1])
  }

  /** A subsequence of `xs` is a subsequence of `xs` with one more element
      appended. */
  lemma {:induction false} SubsequenceSnoc<T>(sub: seq<T>, xs: seq<T>, y: T)
    requires IsSubsequence(sub, xs)
    ensures IsSubsequence(sub, xs + [y])
    decreases |xs|, 1
  {
    assert (xs + [y])[..|xs|] == xs;
    if |sub| > 0 && sub[|sub| - 1] == y {
      SubsequenceDropLast(sub, xs);
    }
  }

  /** Dropping the last element of a subsequence keeps it a subsequence. */
  lemma {:induction false} SubsequenceDropLast<T>(sub: seq<T>, xs: seq<T>)
    requires |sub| > 0 && IsSubsequence(sub, xs)
    ensures IsSubsequence(sub[..|sub| - 1], xs)
    decreases |xs|, 0
  {
    var init := xs[..|xs| - 1];
    assert xs == init + [xs[|xs| - 1]];
    if sub[|sub| - 1] != xs[|xs| - 1] {
      SubsequenceDropLast(sub, init);
    }
    SubsequenceSnoc(sub[..|sub| - 1], init, xs[|xs| - 1]);
  }

  /** The elements of `xs` satisfying `p`, in their original order (a Python
      list comprehension with an `if`). */
  function Filter<T(==,!new)>(xs: seq<T>, p: T -> bool): (r: seq<T>)
    ensures forall x :: x in r <==> x in xs && p(x)
    ensures |r| <= |xs|
  {
    if |xs| == 0 then []
    else
      var r := Filter(xs[..|xs| - 1], p);
      if p(xs[|xs| - 1]) then r + [xs[|xs| - 1]] else r
  }

  /** Filtering keeps the kept elements in their order. */
  lemma {:induction false} FilterIsSubsequence<T(!new)>(xs: seq<T>, p: T -> bool)
    ensures IsSubsequence(Filter(xs, p), xs)
    decreases |xs|
  {
    if |xs| > 0 {
      var init := xs[..|xs| - 1];
      var last := xs[|xs| - 1];
      var r := Filter(init, p);
      FilterIsSubsequence(init, p);
      if p(last) {
        assert (r + [last])[..|r|] == r;
      } else if |r| > 0 {
        assert r[|r| - 1] in r;
        assert IsSubsequence(r, init);
      }
    }
  }

  /** Filtering a list without repetitions gives one without repetitions. */
  lemma {:induction false} FilterKeepsDistinct<T(!new)>(xs: seq<T>, p: T -> bool)
    requires Distinct(xs)
    ensures Distinct(Filter(xs, p))
    decreases |xs|
  {
    if |xs| > 0 {
      var init := xs[..|xs| - 1];
      var last := xs[|xs| - 1];
      assert Distinct(init);
      FilterKeepsDistinct(init, p);
      var r := Filter(init, p);
      assert last !in init by {
        DistinctNotInPrefix(xs, |xs| - 1);
      }
      assert last !in r;
    }
  }

  /** Filtering keeps the relative order: the `k`-th and `j`-th kept
      elements sit at positions `a <= b` of `xs`. */
  lemma {:induction false} FilterOrdered<T(!new)>(xs: seq<T>, p: T -> bool, k: nat, j: nat)
    requires k <= j < |Filter(xs, p)|
    ensures exists a, b ::
      && 0 <= a <= b < |xs| && xs[a] == Filter(xs, p)[k] && xs[b] == Filter(xs, p)[j]
      && (k < j ==> a < b)
    decreases |xs|
  {
    var init := xs[..|xs| - 1];
    var last := xs[|xs| - 1];
    var r := Filter(init, p);
    assert xs == init + [last];
    if j < |r| {
      FilterOrdered(init, p, k, j);
      var a, b :| 0 <= a <= b < |init| && init[a] == r[k] && init[b] == r[j] && (k < j ==> a < b);
      assert xs[a] == init[a] && xs[b] == init[b];
    } else {
      assert p(last) && Filter(xs, p) == r + [last] && j == |r|;
      if k < j {
        assert r[k] in r;
        var a :| 0 <= a < |init| && init[a] == r[k];
        assert xs[a] == init[a];
      } else {
        assert xs[|xs| - 1] == Filter(xs, p)[k];
      }
    }
  }

}
