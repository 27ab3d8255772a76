/** The list primitives the stores are written with: `filter`, `find`
    and the `map` that replaces the entries carrying a given id. */
module Seqs {
  import opened Wrappers

  /** Array.prototype.filter: the elements of `s` that `keep` accepts. */
  function Filter<T(!new)>(s: seq<T>, keep: T -> bool): (r: seq<T>)
    ensures |r| <= |s|
    ensures forall x :: x in r <==> x in s && keep(x)
  {
    if s == [] then []
    else
      assert s == [s[0]] + s[1..];
      (if keep(s[0]) then [s[0]] else []) + Filter(s[1..], keep)
  }

  /** Every kept element survives as often as it occurs, the others not at all. */
  lemma {:induction false} FilterCounts<T(!new)>(s: seq<T>, keep: T -> bool)
    ensures forall x :: multiset(Filter(s, keep))[x] == if keep(x) then multiset(s)[x] else 0
  {
    if s != [] {
      FilterCounts(s[1..], keep);
      assert s == [s[0]] + s[1..];
    }
  }

  /** Filtering keeps the original order: it distributes over concatenation. */
  lemma {:induction false} FilterAppend<T(!new)>(a: seq<T>, b: seq<T>, keep: T -> bool)
    ensures Filter(a + b, keep) == Filter(a, keep) + Filter(b, keep)
  {
    if a == [] {
      assert a + b == b;
    } else {
      assert (a + b)[0] == a[0];
      assert (a + b)[1..] == a[1..] + b;
      FilterAppend(a[1..], b, keep);
    }
  }

  /** Filtering a list with one more element at the end. */
  lemma FilterSnoc<T(!new)>(s: seq<T>, x: T, keep: T -> bool)
    ensures Filter(s + [x], keep) == Filter(s, keep) + (if keep(x) then [x] else [])
  {
    FilterAppend(s, [x], keep);
    FilterSingleton(x, keep);
  }

  lemma FilterSingleton<T(!new)>(x: T, keep: T -> bool)
    ensures Filter([x], keep) == if keep(x) then [x] else []
  {
    assert [x][1..] == [];
  }

  /** Array.prototype.findIndex, with None for "not found". */
  function FirstIndex<T>(s: seq<T>, hit: T -> bool): (r: Option<nat>)
    ensures r.Some? ==> r.value < |s| && hit(s[r.value])
    ensures r.Some? ==> forall j :: 0 <= j < r.value ==> !hit(s[j])
    ensures r.None? <==> forall j :: 0 <= j < |s| ==> !hit(s[j])
  {
    if s == [] then None
    else if hit(s[0]) then Some(0)
    else match FirstIndex(s[1..], hit)
      case None => None
      case Some(k) => Some(k + 1)
  }

  /** Appending does not move the first hit of a list that has one. */
  lemma FirstIndexSnoc<T>(s: seq<T>, x: T, hit: T -> bool)
    requires FirstIndex(s, hit).Some?
    ensures FirstIndex(s + [x], hit) == FirstIndex(s, hit)
  {
    var k := FirstIndex(s, hit).value;
    assert (s + [x])[k] == s[k];
    assert forall j :: 0 <= j < k ==> (s + [x])[j] == s[j];
  }

  /** `s.map(x => hit(x) ? f(x) : x)`: every accepted element is replaced. */
  function ReplaceWhere<T>(s: seq<T>, hit: T -> bool, f: T -> T): (r: seq<T>)
    ensures |r| == |s|
  {
    seq(|s|, i requires 0 <= i < |s| => if hit(s[i]) then f(s[i]) else s[i])
  }

  lemma ReplaceWhereCons<T>(s: seq<T>, hit: T -> bool, f: T -> T)
    requires s != []
    ensures ReplaceWhere(s, hit, f) == [if hit(s[0]) then f(s[0]) else s[0]] + ReplaceWhere(s[1..], hit, f)
  {
  }

  /** When every replacement is dropped by `keep`, filtering after the map
      is filtering by `keep` and then dropping the replaced elements
      (`unhit` is the complement of `hit`). */
  lemma {:induction false} FilterReplaceWhere<T(!new)>(s: seq<T>, hit: T -> bool, f: T -> T,
                                                       keep: T -> bool, unhit: T -> bool)
    requires forall x :: hit(x) ==> !keep(f(x))
    requires forall x :: unhit(x) == !hit(x)
    ensures Filter(ReplaceWhere(s, hit, f), keep) == Filter(Filter(s, keep), unhit)
  {
    if s != [] {
      var head := if hit(s[0]) then f(s[0]) else s[0];
      ReplaceWhereCons(s, hit, f);
      FilterAppend([head], ReplaceWhere(s[1..], hit, f), keep);
      FilterReplaceWhere(s[1..], hit, f, keep, unhit);
      assert [head][1..] == [];
      var front := if keep(s[0]) then [s[0]] else [];
      FilterAppend(front, Filter(s[1..], keep), unhit);
      if keep(s[0]) {
        assert front[1..] == [];
      }
    }
  }

  /** When exactly one element is accepted, only that element changes. */
  lemma ReplaceWhereSingle<T>(s: seq<T>, hit: T -> bool, f: T -> T, k: nat)
    requires k < |s| && hit(s[k])
    requires forall j :: 0 <= j < |s| && j != k ==> !hit(s[j])
    ensures ReplaceWhere(s, hit, f) == s[k := f(s[k])]
  {
  }
}
