/** Order-preserving filtering, mapping and searching over sequences: the
    `Array.prototype.filter`, `map` and `findIndex` the source relies on. */
module Seqs {
  import opened Wrappers

  /** The elements of `s` that satisfy `p`, in their original order. */
  function Filter<T>(s: seq<T>, p: T -> bool): (r: seq<T>)
    ensures |r| <= |s|
    ensures forall i :: 0 <= i < |r| ==> r[i] in s && p(r[i])
    ensures forall i :: 0 <= i < |s| && p(s[i]) ==> s[i] in r
  {
    if |s| == 0 then []
    else if p(s[0]) then [s[0]] + Filter(s[1..], p)
    else Filter(s[1..], p)
  }

  /** Filtering distributes over concatenation: kept elements keep their order. */
  lemma {:induction false} FilterAppend<T>(a: seq<T>, b: seq<T>, p: T -> bool)
    ensures Filter(a + b, p) == Filter(a, p) + Filter(b, p)
  {
    if |a| == 0 {
      assert a + b == b;
    } else {
      assert (a + b)[1..] == a[1..] + b;
      FilterAppend(a[1..], b, p);
    }
  }

  /** Filtering keeps each satisfying element exactly as often as it occurs, and
      drops every other element. */
  lemma {:induction false} FilterMultiset<T>(s: seq<T>, p: T -> bool)
    ensures forall x :: multiset(Filter(s, p))[x] == if p(x) then multiset(s)[x] else 0
  {
    if |s| > 0 {
      FilterMultiset(s[1..], p);
      assert s == [s[0]] + s[1..];
      assert multiset(s) == multiset([s[0]]) + multiset(s[1..]);
    }
  }

  /** Filtering is exact: `Filter(s, p)` is `s` itself precisely when every element satisfies `p`. */
  lemma {:induction false} FilterAll<T>(s: seq<T>, p: T -> bool)
    ensures Filter(s, p) == s <==> forall i :: 0 <= i < |s| ==> p(s[i])
  {
    if |s| > 0 {
      var t := s[1..];
      FilterAll(t, p);
      assert s == [s[0]] + t;
      if !p(s[0]) {
        assert Filter(s, p) == Filter(t, p);
        assert |Filter(s, p)| < |s|;
      } else {
        assert Filter(s, p) == [s[0]] + Filter(t, p);
        assert Filter(s, p) == s <==> Filter(t, p) == t by {
          if Filter(s, p) == s {
            assert Filter(s, p)[1..] == Filter(t, p);
          }
        }
        assert (forall i :: 0 <= i < |s| ==> p(s[i])) <==> (forall i :: 0 <= i < |t| ==> p(t[i])) by {
          if forall i :: 0 <= i < |t| ==> p(t[i]) {
            forall i | 0 <= i < |s|
              ensures p(s[i])
            {
              if i > 0 {
                assert s[i] == t[i - 1];
              }
            }
          }
        }
      }
    }
  }

  /** The number of elements of `s` satisfying `p`. */
  function Count<T>(s: seq<T>, p: T -> bool): nat {
    |Filter(s, p)|
  }

  /** Elements satisfying disjoint predicates are counted at most once. */
  lemma {:induction false} CountDisjoint<T>(s: seq<T>, p: T -> bool, q: T -> bool)
    requires forall x :: !(p(x) && q(x))
    ensures Count(s, p) + Count(s, q) <= |s|
  {
    if |s| > 0 {
      CountDisjoint(s[1..], p, q);
    }
  }

  /** `f` applied to every element, in order. */
  function Map<T, U>(s: seq<T>, f: T -> U): (r: seq<U>)
    ensures |r| == |s|
    ensures forall i :: 0 <= i < |s| ==> r[i] == f(s[i])
  {
    if |s| == 0 then [] else [f(s[0])] + Map(s[1..], f)
  }

  lemma {:induction false} MapAppend<T, U>(a: seq<T>, b: seq<T>, f: T -> U)
    ensures Map(a + b, f) == Map(a, f) + Map(b, f)
  {
  }

  /** JavaScript's `findIndex`: the first index whose element satisfies `p`, or -1. */
  function FindIndex<T>(s: seq<T>, p: T -> bool): (r: int)
    ensures -1 <= r < |s|
    ensures r == -1 <==> forall i :: 0 <= i < |s| ==> !p(s[i])
    ensures r >= 0 ==> p(s[r]) && forall i :: 0 <= i < r ==> !p(s[i])
  {
    if |s| == 0 then -1
    else if p(s[0]) then 0
    else
      var k := FindIndex(s[1..], p);
      if k == -1 then -1 else k + 1
  }

  /** `s` is ordered by the integer `key` (non-decreasing), as an SQL `ORDER BY` returns it. */
  ghost predicate SortedBy<T>(s: seq<T>, key: T -> int) {
    forall i, j :: 0 <= i < j < |s| ==> key(s[i]) <= key(s[j])
  }

  /** A filter of a sorted sequence is still sorted. */
  lemma {:induction false} FilterSorted<T>(s: seq<T>, p: T -> bool, key: T -> int)
    requires SortedBy(s, key)
    ensures SortedBy(Filter(s, p), key)
  {
    if |s| > 0 {
      FilterSorted(s[1..], p, key);
      var rest := Filter(s[1..], p);
      if p(s[0]) {
        forall j | 0 <= j < |rest|
          ensures key(s[0]) <= key(rest[j])
        {
          assert rest[j] in s[1..];
        }
      }
    }
  }

  /** The elements of `s` have pairwise distinct keys. */
  ghost predicate UniqueBy<T, K>(s: seq<T>, key: T -> K) {
    forall i, j :: 0 <= i < j < |s| ==> key(s[i]) != key(s[j])
  }

  /** Every element satisfying `p` replaced by its image under `f`, the rest kept in
      place: an SQL `UPDATE ... WHERE`. */
  function UpdateWhere<T>(s: seq<T>, p: T -> bool, f: T -> T): (r: seq<T>)
    ensures |r| == |s|
    ensures forall i :: 0 <= i < |s| && p(s[i]) ==> r[i] == f(s[i])
    ensures forall i :: 0 <= i < |s| && !p(s[i]) ==> r[i] == s[i]
  {
    if |s| == 0 then []
    else [if p(s[0]) then f(s[0]) else s[0]] + UpdateWhere(s[1..], p, f)
  }

  /** Updating rows that another filter never selects, before or after the update,
      leaves that filter's result unchanged. */
  lemma {:induction false} FilterUpdateOthers<T>(s: seq<T>, p: T -> bool, f: T -> T, q: T -> bool)
    requires forall x :: p(x) ==> !q(x) && !q(f(x))
    ensures Filter(UpdateWhere(s, p, f), q) == Filter(s, q)
  {
    if |s| > 0 {
      FilterUpdateOthers(s[1..], p, f, q);
      assert UpdateWhere(s, p, f)[1..] == UpdateWhere(s[1..], p, f);
    }
  }

  /** The complement of a predicate. */
  function Not<T>(p: T -> bool): T -> bool {
    x => !p(x)
  }

  /** Removing rows that another filter never selects leaves that filter's result
      unchanged. */
  lemma {:induction false} FilterRemoveOthers<T>(s: seq<T>, p: T -> bool, q: T -> bool)
    requires forall x :: p(x) ==> !q(x)
    ensures Filter(Filter(s, Not(p)), q) == Filter(s, q)
  {
    if |s| > 0 {
      FilterRemoveOthers(s[1..], p, q);
    }
  }

  /** Keeping the elements that do not satisfy `p` loses nothing else, in order. */
  lemma {:induction false} FilterKeepsOthers<T>(s: seq<T>, p: T -> bool)
    ensures |Filter(s, Not(p))| == |s| <==> forall i :: 0 <= i < |s| ==> !p(s[i])
  {
    FilterAll(s, Not(p));
    if |Filter(s, Not(p))| == |s| {
      FilterSameLength(s, Not(p));
    }
  }

  /** A filter that keeps as many elements as it was given keeps them all. */
  lemma {:induction false} FilterSameLength<T>(s: seq<T>, p: T -> bool)
    requires |Filter(s, p)| == |s|
    ensures Filter(s, p) == s
  {
    if |s| > 0 {
      FilterSameLength(s[1..], p);
    }
  }

  /** The first element satisfying `p`, if any (destructuring `const [row] = rows`
      after a `WHERE`). */
  function FirstWhere<T>(s: seq<T>, p: T -> bool): (r: Option<T>)
    ensures r.None? <==> forall i :: 0 <= i < |s| ==> !p(s[i])
    ensures r.Some? ==> exists i :: 0 <= i < |s| && s[i] == r.value && p(s[i])
  {
    var k := FindIndex(s, p);
    if k == -1 then None else Some(s[k])
  }

  /** The first match in a sequence with a known head: the head when it matches,
      otherwise the first match in the tail. */
  lemma FirstWhereCons<T>(x: T, t: seq<T>, q: T -> bool)
    ensures FirstWhere([x] + t, q) == if q(x) then Some(x) else FirstWhere(t, q)
  {
    assert ([x] + t)[0] == x && ([x] + t)[1..] == t;
  }
}
