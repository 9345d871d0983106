/**
 * Keyed-collection builder and first-match search over ordered lists.
 *
 * Both are the left folds (`Array.prototype.reduce`) of the reducer, written as
 * recursion on the prefix: the fold over `s` is one more step applied to the
 * fold over `s[..|s| - 1]`.
 */
module Keyed {
  import opened Wrappers

  /** The set of keys that occur in `s`. */
  ghost function KeysOf<E, K>(s: seq<E>, key: E -> K): set<K>
  {
    set i | 0 <= i < |s| :: key(s[i])
  }

  /** Position `i` holds the last element of `s` with its key. */
  ghost predicate LastWithKey<E, K>(s: seq<E>, key: E -> K, i: int)
  {
    0 <= i < |s| && forall j :: i < j < |s| ==> key(s[j]) != key(s[i])
  }

  /** Position `i` holds the first element of `s` whose key is `k`. */
  ghost predicate FirstWithKey<E, K>(s: seq<E>, key: E -> K, k: K, i: int)
  {
    0 <= i < |s| && key(s[i]) == k && forall j :: 0 <= j < i ==> key(s[j]) != k
  }

  /** No two elements of `s` share a key. */
  ghost predicate UniqueKeys<E, K>(s: seq<E>, key: E -> K)
  {
    forall i, j :: 0 <= i < j < |s| ==> key(s[i]) != key(s[j])
  }

  /** The keys of a non-empty list are the keys of its front and the key of its last element. */
  lemma KeysOfSnoc<E, K>(s: seq<E>, key: E -> K)
    requires |s| > 0
    ensures KeysOf(s, key) == KeysOf(s[..|s| - 1], key) + {key(s[|s| - 1])}
  {
    forall k | k in KeysOf(s, key) ensures k in KeysOf(s[..|s| - 1], key) + {key(s[|s| - 1])} {
      var i :| 0 <= i < |s| && key(s[i]) == k;
      if i < |s| - 1 {
        assert s[..|s| - 1][i] == s[i];
      }
    }
    forall k | k in KeysOf(s[..|s| - 1], key) ensures k in KeysOf(s, key) {
      var i :| 0 <= i < |s| - 1 && key(s[..|s| - 1][i]) == k;
      assert s[i] == s[..|s| - 1][i];
    }
  }

  /** The last element with its key, other than the last element of all, is also last in the front of the list. */
  lemma LastWithKeyOfFront<E, K>(s: seq<E>, key: E -> K, i: int)
    requires LastWithKey(s, key, i) && i < |s| - 1
    ensures LastWithKey(s[..|s| - 1], key, i) && key(s[i]) != key(s[|s| - 1])
  {
    var init := s[..|s| - 1];
    forall j | i < j < |init| ensures key(init[j]) != key(init[i]) {
      assert init[j] == s[j] && init[i] == s[i];
    }
  }

  /**
   * `s.reduce((result, e) => ({ ...result, [key(e)]: e }), {})`: the map from
   * each key to the element stored under it, where a later element overwrites
   * an earlier one with the same key.
   */
  function Index<E, K(==)>(s: seq<E>, key: E -> K): (r: map<K, E>)
    ensures r.Keys == KeysOf(s, key)
    ensures forall k :: k in r ==> key(r[k]) == k
    ensures forall i :: LastWithKey(s, key, i) ==> r[key(s[i])] == s[i]
  {
    if |s| == 0 then map[]
    else
      var x := s[|s| - 1];
      var front := Index(s[..|s| - 1], key);
      KeysOfSnoc(s, key);
      var r := front[key(x) := x];
      assert r.Keys == KeysOf(s, key);
      assert forall i :: LastWithKey(s, key, i) ==> key(s[i]) in r && r[key(s[i])] == s[i] by {
        forall i | LastWithKey(s, key, i) ensures key(s[i]) in r && r[key(s[i])] == s[i] {
          if i < |s| - 1 {
            LastWithKeyOfFront(s, key, i);
          }
        }
      }
      r
  }

  /** Indexing one more element of a list stores it over whatever its key held. */
  lemma IndexPrefixStep<E, K>(s: seq<E>, key: E -> K, i: int)
    requires 0 <= i < |s|
    ensures Index(s[..i + 1], key) == Index(s[..i], key)[key(s[i]) := s[i]]
  {
    assert s[..i + 1][..i] == s[..i];
  }

  /**
   * With unique keys every element is stored under its own key, exactly once:
   * the map has as many entries as the list has elements.
   */
  lemma {:induction false} IndexOfUniqueKeys<E, K>(s: seq<E>, key: E -> K)
    requires UniqueKeys(s, key)
    ensures |Index(s, key)| == |s|
    ensures forall i :: 0 <= i < |s| ==> Index(s, key)[key(s[i])] == s[i]
  {
    if |s| > 0 {
      var front := s[..|s| - 1];
      var x := s[|s| - 1];
      assert UniqueKeys(front, key) by {
        forall i, j | 0 <= i < j < |front| ensures key(front[i]) != key(front[j]) {
          assert front[i] == s[i] && front[j] == s[j];
        }
      }
      IndexOfUniqueKeys(front, key);
      assert forall i :: 0 <= i < |s| ==> LastWithKey(s, key, i);
    }
  }

  /**
   * `s.reduce((result, v) => result !== null ? result : key(v) === k ? v : null, null)`:
   * the first element whose key is `k`, if any. The fold visits every element
   * but keeps the first match it meets.
   */
  function FindFirst<E, K(==)>(s: seq<E>, key: E -> K, k: K): (r: Option<E>)
    ensures r.Some? <==> k in KeysOf(s, key)
    ensures r.Some? ==> exists i :: FirstWithKey(s, key, k, i) && s[i] == r.value
  {
    if |s| == 0 then None
    else
      var front := s[..|s| - 1];
      var found := FindFirst(front, key, k);
      assert forall i :: 0 <= i < |front| ==> front[i] == s[i];
      KeysOfSnoc(s, key);
      if found.Some? then
        assert forall i :: FirstWithKey(front, key, k, i) ==> FirstWithKey(s, key, k, i);
        found
      else if key(s[|s| - 1]) == k then
        assert FirstWithKey(s, key, k, |s| - 1);
        Some(s[|s| - 1])
      else None
  }

  /** The first match is the one FindFirst returns. */
  lemma FindFirstAt<E, K>(s: seq<E>, key: E -> K, k: K, i: int)
    requires FirstWithKey(s, key, k, i)
    ensures FindFirst(s, key, k) == Some(s[i])
  {
    assert key(s[i]) in KeysOf(s, key);
    var r := FindFirst(s, key, k);
    assert r.Some?;
    var j :| FirstWithKey(s, key, k, j) && s[j] == r.value;
    assert j <= i && i <= j by {
      assert key(s[i]) == k && key(s[j]) == k;
    }
  }
}
