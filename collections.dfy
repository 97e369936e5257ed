/**
 * Collection idioms the Python code relies on: `defaultdict(list)` grouping,
 * a dictionary filled in a loop where the last write wins, and `sorted()`
 * on a set of integers.
 */
module Collections {

  /** The keys that occur among `pairs`. */
  function KeysOf<K(!new), V>(pairs: seq<(K, V)>): set<K>
  {
    set i | 0 <= i < |pairs| :: pairs[i].0
  }

  /** The values paired with `k`, in the order of `pairs`. */
  function ValuesFor<K(==), V>(pairs: seq<(K, V)>, k: K): seq<V>
  {
    if pairs == [] then []
    else
      var last := pairs[|pairs| - 1];
      ValuesFor(pairs[..|pairs| - 1], k) + (if last.0 == k then [last.1] else [])
  }

  /** `d = defaultdict(list); for k, v in pairs: d[k].append(v)`. */
  function GroupBy<K(!new), V>(pairs: seq<(K, V)>): map<K, seq<V>>
  {
    map k | k in KeysOf(pairs) :: ValuesFor(pairs, k)
  }

  /** `d = {}; for k, v in pairs: d[k] = v`. */
  function LastWins<K(==), V>(pairs: seq<(K, V)>): map<K, V>
  {
    if pairs == [] then map[]
    else
      var last := pairs[|pairs| - 1];
      LastWins(pairs[..|pairs| - 1])[last.0 := last.1]
  }

  lemma ConcatAssoc<T>(a: seq<T>, b: seq<T>, c: seq<T>)
    ensures (a + b) + c == a + (b + c)
  {
  }

  /** One more write `d[k] = v` updates the dictionary at `k`. */
  lemma LastWinsSnoc<K, V>(pairs: seq<(K, V)>, x: (K, V))
    ensures LastWins(pairs + [x]) == LastWins(pairs)[x.0 := x.1]
  {
    assert (pairs + [x])[..|pairs|] == pairs;
  }

  lemma KeysOfAppend<K(!new), V>(pairs: seq<(K, V)>, x: (K, V))
    ensures KeysOf(pairs + [x]) == KeysOf(pairs) + {x.0}
  {
    var p := pairs + [x];
    assert p[|pairs|] == x;
    forall k | k in KeysOf(pairs) ensures k in KeysOf(p) {
      var i :| 0 <= i < |pairs| && pairs[i].0 == k;
      assert p[i] == pairs[i];
    }
  }

  /** One more `append` extends the group of its key and no other. */
  lemma GroupByAppend<K(!new), V>(pairs: seq<(K, V)>, x: (K, V))
    ensures var g := GroupBy(pairs);
      GroupBy(pairs + [x]) == g[x.0 := (if x.0 in g then g[x.0] else []) + [x.1]]
  {
    var p := pairs + [x];
    var g := GroupBy(pairs);
    var h := g[x.0 := (if x.0 in g then g[x.0] else []) + [x.1]];
    assert p[..|p| - 1] == pairs;
    KeysOfAppend(pairs, x);
    if x.0 !in KeysOf(pairs) {
      ValuesForAbsent(pairs, x.0);
    }
    assert GroupBy(p).Keys == h.Keys;
    forall k | k in h ensures GroupBy(p)[k] == h[k] {
      assert ValuesFor(p, k) == ValuesFor(pairs, k) + (if x.0 == k then [x.1] else []);
    }
  }

  lemma {:induction false} ValuesForAbsent<K(!new), V>(pairs: seq<(K, V)>, k: K)
    requires k !in KeysOf(pairs)
    ensures ValuesFor(pairs, k) == []
  {
    if pairs != [] {
      var init := pairs[..|pairs| - 1];
      assert pairs == init + [pairs[|pairs| - 1]];
      KeysOfAppend(init, pairs[|pairs| - 1]);
      ValuesForAbsent(init, k);
    }
  }

  /** The group of `k` holds exactly the values paired with `k`, each as often as it is paired. */
  lemma {:induction false} ValuesForMembers<K, V>(pairs: seq<(K, V)>, k: K, v: V)
    ensures v in ValuesFor(pairs, k) <==> (k, v) in pairs
  {
    if pairs != [] {
      var init := pairs[..|pairs| - 1];
      assert pairs == init + [pairs[|pairs| - 1]];
      ValuesForMembers(init, k, v);
    }
  }

  /** After the loop, each key holds the value of its last pair. */
  lemma {:induction false} LastWinsValue<K(!new), V>(pairs: seq<(K, V)>, k: K)
    ensures k in LastWins(pairs) <==> k in KeysOf(pairs)
    ensures k in LastWins(pairs) ==>
      exists i :: 0 <= i < |pairs| && pairs[i].0 == k && LastWins(pairs)[k] == pairs[i].1 &&
        forall j :: i < j < |pairs| ==> pairs[j].0 != k
  {
    if pairs != [] {
      var init := pairs[..|pairs| - 1];
      var last := pairs[|pairs| - 1];
      assert pairs == init + [last];
      KeysOfAppend(init, last);
      LastWinsValue(init, k);
      if last.0 == k {
        assert pairs[|pairs| - 1].0 == k;
      } else if k in LastWins(pairs) {
        var i :| 0 <= i < |init| && init[i].0 == k && LastWins(init)[k] == init[i].1
          && forall j :: i < j < |init| ==> init[j].0 != k;
        assert pairs[i] == init[i];
        assert forall j :: i < j < |pairs| ==> pairs[j].0 != k by {
          forall j | i < j < |pairs| ensures pairs[j].0 != k {
            if j < |init| { assert pairs[j] == init[j]; }
          }
        }
      }
    }
  }

  lemma {:induction false} MinExists(s: set<int>)
    requires s != {}
    ensures exists m :: m in s && forall x :: x in s ==> m <= x
  {
    if forall z :: z !in s {
      assert false;
    }
    var y :| y in s;
    if s != {y} {
      MinExists(s - {y});
      var m :| m in s - {y} && forall x :: x in s - {y} ==> m <= x;
      var least := if y < m then y else m;
      forall x | x in s ensures least <= x {
        if x != y {
          assert x in s - {y};
        }
      }
    } else {
      assert forall x :: x in s ==> y <= x;
    }
  }

  /** The least element of a non-empty set of integers. */
  function MinOf(s: set<int>): (m: int)
    requires s != {}
    ensures m in s && forall x :: x in s ==> m <= x
  {
    MinExists(s);
    var m :| m in s && forall x :: x in s ==> m <= x;
    m
  }

  predicate StrictlyIncreasing(s: seq<int>)
  {
    forall i, j :: 0 <= i < j < |s| ==> s[i] < s[j]
  }

  /** Python's `sorted(s)` on a set of integers. */
  function SortedAsc(s: set<int>): (r: seq<int>)
    ensures StrictlyIncreasing(r)
    ensures |r| == |s|
    ensures forall x :: x in r <==> x in s
    decreases |s|
  {
    if s == {} then []
    else
      var m := MinOf(s);
      var rest := SortedAsc(s - {m});
      assert forall x :: x in rest ==> m < x;
      [m] + rest
  }

  /** Sorting keeps every element within the bounds the set respects. */
  lemma SortedAscWithin(s: set<int>, lo: int, hi: int)
    requires forall x :: x in s ==> lo <= x <= hi
    ensures forall k :: 0 <= k < |SortedAsc(s)| ==> lo <= SortedAsc(s)[k] <= hi
  {
    var r := SortedAsc(s);
    assert forall k :: 0 <= k < |r| ==> r[k] in s;
  }

  /** The ascending listing of `s` has exactly the elements of `s`, so it is bounded above exactly as `s` is. */
  lemma SortedAscBounds(s: set<int>, lo: int, hi: int)
    requires forall x :: x in s ==> lo <= x
    ensures forall k :: 0 <= k < |SortedAsc(s)| ==> lo <= SortedAsc(s)[k]
    ensures (forall k :: 0 <= k < |SortedAsc(s)| ==> SortedAsc(s)[k] <= hi) <==> forall x :: x in s ==> x <= hi
  {
    var r := SortedAsc(s);
    forall k | 0 <= k < |r| ensures r[k] in s {
      assert r[k] in r;
    }
    if exists x :: x in s && x > hi {
      var x :| x in s && x > hi;
      assert x in r;
      var k :| 0 <= k < |r| && r[k] == x;
    }
  }

  /** `[f(x) for x in xs if keep(x)]`. */
  function MapFilter<S, T>(xs: seq<S>, keep: S -> bool, f: S -> T): seq<T>
  {
    if xs == [] then []
    else MapFilter(xs[..|xs| - 1], keep, f) + (if keep(xs[|xs| - 1]) then [f(xs[|xs| - 1])] else [])
  }

  lemma MapFilterStep<S, T>(xs: seq<S>, x: S, keep: S -> bool, f: S -> T)
    ensures MapFilter(xs + [x], keep, f) == MapFilter(xs, keep, f) + (if keep(x) then [f(x)] else [])
  {
    assert (xs + [x])[..|xs|] == xs;
  }

  /** An element of the comprehension comes from a kept element, and every kept element contributes one. */
  lemma {:induction false} MapFilterMembers<S, T>(xs: seq<S>, keep: S -> bool, f: S -> T, y: T)
    ensures y in MapFilter(xs, keep, f) <==> exists i :: 0 <= i < |xs| && keep(xs[i]) && f(xs[i]) == y
  {
    if xs != [] {
      var init := xs[..|xs| - 1];
      MapFilterMembers(init, keep, f, y);
      if exists i :: 0 <= i < |init| && keep(init[i]) && f(init[i]) == y {
        var i :| 0 <= i < |init| && keep(init[i]) && f(init[i]) == y;
        assert xs[i] == init[i];
      }
      if exists i :: 0 <= i < |xs| && keep(xs[i]) && f(xs[i]) == y {
        var i :| 0 <= i < |xs| && keep(xs[i]) && f(xs[i]) == y;
        if i < |init| {
          assert init[i] == xs[i];
        }
      }
    }
  }

  /** A comprehension that keeps every element unchanged is the identity. */
  lemma {:induction false} MapFilterIdentity<T>(xs: seq<T>, keep: T -> bool, f: T -> T)
    requires forall i :: 0 <= i < |xs| ==> keep(xs[i]) && f(xs[i]) == xs[i]
    ensures MapFilter(xs, keep, f) == xs
  {
    if xs != [] {
      var init := xs[..|xs| - 1];
      assert forall i :: 0 <= i < |init| ==> init[i] == xs[i];
      MapFilterIdentity(init, keep, f);
      assert init + [xs[|xs| - 1]] == xs;
    }
  }

  /** The first `n` elements (all of them when there are fewer): what a list capped by a counter keeps. */
  function Take<T>(s: seq<T>, n: nat): (r: seq<T>)
    ensures |r| <= n && |r| <= |s|
  {
    if |s| <= n then s else s[..n]
  }

  lemma TakeStep<T>(s: seq<T>, x: T, n: nat)
    ensures Take(s + [x], n) == if |s| < n then Take(s, n) + [x] else Take(s, n)
  {
    if |s| >= n {
      assert (s + [x])[..n] == s[..n];
    }
  }
}
