/**
 * The list operations the app windows build their handlers from: JavaScript's
 * `filter`, a `map` that rewrites only the matching elements, and counting
 * the elements that satisfy a test.
 */
module Lists {
  /** `s.filter(keep)`: the kept elements, in order. */
  function Filter<T(!new)>(s: seq<T>, keep: T -> bool): (r: seq<T>)
    ensures forall x :: x in r <==> x in s && keep(x)
    ensures |r| <= |s|
    ensures (forall k :: 0 <= k < |s| ==> keep(s[k])) ==> r == s
  {
    if s == [] then []
    else
      var rest := Filter(s[1..], keep);
      if keep(s[0]) then [s[0]] + rest else rest
  }

  /** Filtering one more element at the end keeps or drops just that element. */
  lemma {:induction false} FilterAppend<T(!new)>(s: seq<T>, x: T, keep: T -> bool)
    ensures Filter(s + [x], keep) == Filter(s, keep) + (if keep(x) then [x] else [])
  {
    if s == [] {
      assert [x][1..] == [];
    } else {
      assert (s + [x])[1..] == s[1..] + [x];
      FilterAppend(s[1..], x, keep);
    }
  }

  /** When `keep` rejects only position `at`, filtering removes exactly that position. */
  lemma {:induction false} FilterDropsOne<T(!new)>(s: seq<T>, at: nat, keep: T -> bool)
    requires at < |s| && !keep(s[at])
    requires forall k :: 0 <= k < |s| && k != at ==> keep(s[k])
    ensures Filter(s, keep) == s[..at] + s[at + 1..]
    decreases at
  {
    var rest := s[1..];
    if at == 0 {
      assert Filter(rest, keep) == rest by {
        forall k | 0 <= k < |rest|
          ensures keep(rest[k])
        {
          assert rest[k] == s[k + 1];
        }
      }
    } else {
      assert keep(s[0]) && !keep(rest[at - 1]);
      forall k | 0 <= k < |rest| && k != at - 1
        ensures keep(rest[k])
      {
        assert rest[k] == s[k + 1];
      }
      FilterDropsOne(rest, at - 1, keep);
      assert s[..at] == [s[0]] + rest[..at - 1];
      assert rest[at..] == s[at + 1..];
    }
  }

  /** `s.map(x => hit(x) ? f(x) : x)`: the matching elements rewritten in place, the rest untouched. */
  function MapWhere<T(!new)>(s: seq<T>, hit: T -> bool, f: T -> T): (r: seq<T>)
    ensures |r| == |s|
    ensures forall k :: 0 <= k < |s| ==> r[k] == if hit(s[k]) then f(s[k]) else s[k]
  {
    if s == [] then []
    else [if hit(s[0]) then f(s[0]) else s[0]] + MapWhere(s[1..], hit, f)
  }

  /** A rewrite that keeps the match and undoes itself, applied twice, restores the list. */
  lemma MapWhereTwice<T(!new)>(s: seq<T>, hit: T -> bool, f: T -> T)
    requires forall x :: hit(x) ==> hit(f(x)) && f(f(x)) == x
    ensures MapWhere(MapWhere(s, hit, f), hit, f) == s
  {
    var once := MapWhere(s, hit, f);
    var twice := MapWhere(once, hit, f);
    forall k | 0 <= k < |s|
      ensures twice[k] == s[k]
    {
      if hit(s[k]) {
        assert once[k] == f(s[k]);
      }
    }
  }

  /** The number of elements that pass the test. */
  function CountWhere<T(!new)>(s: seq<T>, p: T -> bool): (n: nat)
    ensures n == |Filter(s, p)|
  {
    if s == [] then 0 else (if p(s[0]) then 1 else 0) + CountWhere(s[1..], p)
  }

  /** Counting with a weaker test never gives less. */
  lemma {:induction false} CountWhereMonotone<T(!new)>(s: seq<T>, p: T -> bool, q: T -> bool)
    requires forall x :: p(x) ==> q(x)
    ensures CountWhere(s, p) <= CountWhere(s, q)
  {
    if s != [] {
      CountWhereMonotone(s[1..], p, q);
    }
  }

  /** Counting with two tests that agree on every element gives the same number. */
  lemma {:induction false} CountWhereSame<T(!new)>(s: seq<T>, p: T -> bool, q: T -> bool)
    requires forall x :: p(x) == q(x)
    ensures CountWhere(s, p) == CountWhere(s, q)
  {
    if s != [] {
      CountWhereSame(s[1..], p, q);
    }
  }

  /** Every element passes exactly one of two opposite tests. */
  lemma {:induction false} CountWhereSplits<T(!new)>(s: seq<T>, p: T -> bool, q: T -> bool)
    requires forall x :: q(x) == !p(x)
    ensures CountWhere(s, p) + CountWhere(s, q) == |s|
  {
    if s != [] {
      CountWhereSplits(s[1..], p, q);
    }
  }

  /** `s.findIndex(x => key(x) === k)`: the first position whose key is `k`, or -1 when there is none. */
  function FindIndex<T(!new), K(==)>(s: seq<T>, key: T -> K, k: K): (r: int)
    ensures -1 <= r < |s|
    ensures r >= 0 ==> key(s[r]) == k && forall j :: 0 <= j < r ==> key(s[j]) != k
    ensures r == -1 <==> forall j :: 0 <= j < |s| ==> key(s[j]) != k
  {
    if s == [] then -1
    else if key(s[0]) == k then 0
    else
      var r := FindIndex(s[1..], key, k);
      if r == -1 then -1 else r + 1
  }

  /** No two elements share a key. */
  ghost predicate UniqueKeys<T, K>(s: seq<T>, key: T -> K) {
    forall i, j :: 0 <= i < j < |s| ==> key(s[i]) != key(s[j])
  }

  /** With unique keys, looking up an element's key finds that element's position. */
  lemma FindIndexUnique<T(!new), K>(s: seq<T>, key: T -> K, at: nat)
    requires UniqueKeys(s, key) && at < |s|
    ensures FindIndex(s, key, key(s[at])) == at
  {
  }

  /** Filtering keeps keys unique. */
  lemma {:induction false} FilterKeepsUnique<T(!new), K>(s: seq<T>, key: T -> K, keep: T -> bool)
    requires UniqueKeys(s, key)
    ensures UniqueKeys(Filter(s, keep), key)
  {
    if s != [] {
      var tail := s[1..];
      assert UniqueKeys(tail, key) by {
        forall i, j | 0 <= i < j < |tail|
          ensures key(tail[i]) != key(tail[j])
        {
          assert tail[i] == s[i + 1] && tail[j] == s[j + 1];
        }
      }
      FilterKeepsUnique(tail, key, keep);
      var rest := Filter(tail, keep);
      if keep(s[0]) {
        var r := [s[0]] + rest;
        forall i, j | 0 <= i < j < |r|
          ensures key(r[i]) != key(r[j])
        {
          if i == 0 {
            assert r[j] == rest[j - 1] && rest[j - 1] in tail;
            var m :| 0 <= m < |tail| && tail[m] == rest[j - 1];
            assert tail[m] == s[m + 1];
          } else {
            assert r[i] == rest[i - 1] && r[j] == rest[j - 1];
          }
        }
      }
    }
  }
}
