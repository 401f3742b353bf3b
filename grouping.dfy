/**
 * Grouping a list by a string key while keeping input order: the shape shared by
 * the rewrite map of pkg/dvconfig/processing.go (rules keyed by the first path
 * segment) and the per-method action pools of pkg/dvmodules/dvactions.go.
 */
module Grouping {

  /** The images under `item` of the elements of `xs` whose key is `k`, in input order. */
  function Group<T, U>(xs: seq<T>, key: T -> string, item: T -> U, k: string): (r: seq<U>)
    ensures |r| <= |xs|
  {
    if |xs| == 0 then []
    else
      var x := xs[|xs| - 1];
      Group(xs[..|xs| - 1], key, item, k) + (if key(x) == k then [item(x)] else [])
  }

  /** The keys that occur in `xs`. */
  function Keys<T>(xs: seq<T>, key: T -> string): set<string> {
    set j | 0 <= j < |xs| :: key(xs[j])
  }

  /** Reference definition of a grouping: each key that occurs, mapped to its group. */
  function Grouped<T, U>(xs: seq<T>, key: T -> string, item: T -> U): map<string, seq<U>> {
    map k | k in Keys(xs, key) :: Group(xs, key, item, k)
  }

  /** Appending one element grows only its own group, by exactly that element. */
  lemma GroupSnoc<T, U>(xs: seq<T>, key: T -> string, item: T -> U, x: T, k: string)
    ensures Group(xs + [x], key, item, k) == Group(xs, key, item, k) + (if key(x) == k then [item(x)] else [])
  {
    assert (xs + [x])[..|xs|] == xs;
  }

  /** A key that does not occur has an empty group. */
  lemma {:induction false} GroupOfAbsentKey<T, U>(xs: seq<T>, key: T -> string, item: T -> U, k: string)
    requires k !in Keys(xs, key)
    ensures |Group(xs, key, item, k)| == 0
    decreases |xs|
  {
    if |xs| > 0 {
      var init := xs[..|xs| - 1];
      assert k != key(xs[|xs| - 1]);
      forall j | 0 <= j < |init| ensures key(init[j]) != k {
        assert init[j] == xs[j];
      }
      GroupOfAbsentKey(init, key, item, k);
    }
  }

  /** A key that occurs has a non-empty group. */
  lemma {:induction false} GroupOfPresentKey<T, U>(xs: seq<T>, key: T -> string, item: T -> U, k: string)
    requires k in Keys(xs, key)
    ensures |Group(xs, key, item, k)| > 0
    decreases |xs|
  {
    var init := xs[..|xs| - 1];
    if key(xs[|xs| - 1]) != k {
      var j :| 0 <= j < |xs| && key(xs[j]) == k;
      assert j < |init| && init[j] == xs[j];
      GroupOfPresentKey(init, key, item, k);
    }
  }

  /** Every element lands in the group of its own key. */
  lemma {:induction false} GroupContains<T, U>(xs: seq<T>, key: T -> string, item: T -> U, j: nat)
    requires j < |xs|
    ensures key(xs[j]) in Grouped(xs, key, item)
    ensures item(xs[j]) in Grouped(xs, key, item)[key(xs[j])]
    decreases |xs|
  {
    assert key(xs[j]) in Keys(xs, key);
    if j < |xs| - 1 {
      var init := xs[..|xs| - 1];
      assert init[j] == xs[j];
      GroupContains(init, key, item, j);
    }
  }

  /** The step a loop that appends under a key takes: the grouping of `xs + [x]` from that of `xs`. */
  lemma GroupedSnoc<T, U>(xs: seq<T>, key: T -> string, item: T -> U, x: T)
    ensures var m := Grouped(xs, key, item);
      Grouped(xs + [x], key, item) == m[key(x) := (if key(x) in m then m[key(x)] else []) + [item(x)]]
  {
    var m := Grouped(xs, key, item);
    var m' := m[key(x) := (if key(x) in m then m[key(x)] else []) + [item(x)]];
    var ys := xs + [x];
    assert Keys(ys, key) == Keys(xs, key) + {key(x)} by {
      forall j | 0 <= j < |xs| ensures key(ys[j]) == key(xs[j]) { }
      assert key(ys[|xs|]) == key(x);
      forall k | k in Keys(ys, key) ensures k in Keys(xs, key) + {key(x)} {
        var j :| 0 <= j < |ys| && key(ys[j]) == k;
        if j < |xs| { assert key(xs[j]) == k; }
      }
    }
    forall k | k in Keys(ys, key) ensures Group(ys, key, item, k) == m'[k] {
      GroupSnoc(xs, key, item, x, k);
      if k == key(x) && k !in m {
        GroupOfAbsentKey(xs, key, item, k);
      }
    }
  }

  /** GroupedSnoc for a loop over `xs` by index: the grouping of `xs[..i + 1]` from that of `xs[..i]`. */
  lemma GroupedStep<T, U>(xs: seq<T>, i: nat, key: T -> string, item: T -> U)
    requires i < |xs|
    ensures var m := Grouped(xs[..i], key, item); var x := xs[i];
      Grouped(xs[..i + 1], key, item) == m[key(x) := (if key(x) in m then m[key(x)] else []) + [item(x)]]
  {
    assert xs[..i + 1] == xs[..i] + [xs[i]];
    GroupedSnoc(xs[..i], key, item, xs[i]);
  }
}
