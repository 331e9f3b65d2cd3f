/**
 * The sequence operations behind the database queries: `sort({ createdAt: -1 })`,
 * `skip(n)`, `limit(n)`, `Array.prototype.slice` and `Math.ceil(total / limit)`.
 */
module Collections {
  import opened Wrappers

  /** Every element's key is at least that of every element after it. */
  ghost predicate NewestFirst<T>(s: seq<T>, key: T -> int) {
    forall i, j :: 0 <= i < j < |s| ==> key(s[i]) >= key(s[j])
  }

  /** No element's key exceeds `v`. */
  ghost predicate KeysAtMost<T>(s: seq<T>, key: T -> int, v: int) {
    forall i :: 0 <= i < |s| ==> key(s[i]) <= v
  }

  /** Places `x` before the first element whose key does not exceed its own. */
  function Insert<T>(x: T, s: seq<T>, key: T -> int): (r: seq<T>)
    ensures multiset(r) == multiset(s) + multiset{x} && |r| == |s| + 1
  {
    if s == [] || key(s[0]) <= key(x) then [x] + s
    else
      assert s == [s[0]] + s[1..];
      [s[0]] + Insert(x, s[1..], key)
  }

  lemma {:induction false} InsertKeysAtMost<T>(x: T, s: seq<T>, key: T -> int, v: int)
    requires KeysAtMost(s, key, v) && key(x) <= v
    ensures KeysAtMost(Insert(x, s, key), key, v)
  {
    if !(s == [] || key(s[0]) <= key(x)) {
      InsertKeysAtMost(x, s[1..], key, v);
    }
  }

  lemma {:induction false} InsertSorted<T>(x: T, s: seq<T>, key: T -> int)
    requires NewestFirst(s, key)
    ensures NewestFirst(Insert(x, s, key), key)
  {
    if !(s == [] || key(s[0]) <= key(x)) {
      InsertSorted(x, s[1..], key);
      InsertKeysAtMost(x, s[1..], key, key(s[0]));
    }
  }

  /** `sort({ createdAt: -1 })`: a stable insertion sort, newest first. */
  function SortNewestFirst<T>(s: seq<T>, key: T -> int): (r: seq<T>)
    ensures NewestFirst(r, key)
    ensures multiset(r) == multiset(s) && |r| == |s|
  {
    if s == [] then []
    else
      assert s == [s[0]] + s[1..];
      InsertSorted(s[0], SortNewestFirst(s[1..], key), key);
      Insert(s[0], SortNewestFirst(s[1..], key), key)
  }

  /** Sorting what is already newest first changes nothing (the sort is stable). */
  lemma {:induction false} SortKeepsSorted<T>(s: seq<T>, key: T -> int)
    requires NewestFirst(s, key)
    ensures SortNewestFirst(s, key) == s
  {
    if s != [] {
      SortKeepsSorted(s[1..], key);
    }
  }

  /** Whatever a window shows comes from the underlying sequence. */
  lemma WindowWithin<T>(s: seq<T>, skip: nat, limit: nat, i: nat)
    requires i < |Window(s, skip, limit)|
    ensures Window(s, skip, limit)[i] in s
  {
    assert Window(s, skip, limit)[i] == s[skip + i];
  }

  /** `skip(skip).limit(limit)` on a cursor; MongoDB reads `limit(0)` as "no limit". */
  function Window<T>(s: seq<T>, skip: nat, limit: nat): (r: seq<T>)
    ensures |r| == if skip >= |s| then 0
                   else if limit == 0 || |s| - skip <= limit then |s| - skip
                   else limit
    ensures forall i :: 0 <= i < |r| ==> skip + i < |s| && r[i] == s[skip + i]
  {
    if skip >= |s| then []
    else if limit == 0 || |s| - skip <= limit then s[skip..]
    else s[skip..skip + limit]
  }

  /** A page cut from an ordered result keeps its order. */
  lemma WindowNewestFirst<T>(s: seq<T>, skip: nat, limit: nat, key: T -> int)
    requires NewestFirst(s, key)
    ensures NewestFirst(Window(s, skip, limit), key)
  {
    var w := Window(s, skip, limit);
    forall i, j | 0 <= i < j < |w| ensures key(w[i]) >= key(w[j]) {
      assert w[i] == s[skip + i] && w[j] == s[skip + j];
    }
  }

  /** `(page - 1) * limit`, the number of documents skipped for a page. */
  function Skip(page: int, limit: nat): int {
    (page - 1) * limit
  }

  /** `Array.prototype.slice(0, n)`. */
  function Take<T>(s: seq<T>, n: nat): (r: seq<T>)
    ensures |r| == if n < |s| then n else |s|
    ensures forall i :: 0 <= i < |r| ==> r[i] == s[i]
  {
    if n < |s| then s[..n] else s
  }

  /** `Math.ceil(n / d)` for d > 0. */
  function CeilDiv(n: nat, d: nat): (r: nat)
    requires d > 0
    ensures r * d >= n && (r == 0 || (r - 1) * d < n)
  {
    (n + d - 1) / d
  }

  /** `Math.ceil(total / limit)` as JSON: with `limit == 0` it is Infinity or NaN, sent as `null`. */
  function TotalPages(total: nat, limit: nat): (r: Option<nat>)
    ensures r.Some? <==> limit > 0
    ensures r.Some? ==> r.value * limit >= total && (r.value == 0 || (r.value - 1) * limit < total)
  {
    if limit == 0 then None else Some(CeilDiv(total, limit))
  }

  lemma MulAtLeast(k: int, d: nat)
    requires k >= 1
    ensures k * d >= d
  {
    var j := k - 1;
    assert k * d == j * d + d;
  }

  lemma DivUnique(a: nat, d: nat, q: nat, m: nat)
    requires d > 0 && m < d && a == q * d + m
    ensures a / d == q
  {
    var q', m' := a / d, a % d;
    assert a == q' * d + m';
    if q' < q {
      var k := q - q';
      assert k * d == q * d - q' * d;
      MulAtLeast(k, d);
    } else if q' > q {
      var k := q' - q;
      assert k * d == q' * d - q * d;
      MulAtLeast(k, d);
    }
  }

  /** The last of `CeilDiv(n, limit)` pages starts `n mod limit` items (a full page when it divides) before the end. */
  lemma LastPageStart(n: nat, limit: nat)
    requires n > 0 && limit > 0
    ensures var last := CeilDiv(n, limit);
            last >= 1 && (last - 1) * limit == n - (if n % limit == 0 then limit else n % limit)
  {
    var q, m := n / limit, n % limit;
    if m == 0 {
      assert n + limit - 1 == q * limit + (limit - 1);
      DivUnique(n + limit - 1, limit, q, limit - 1);
      assert q >= 1;
      assert (q - 1) * limit == q * limit - limit;
    } else {
      assert n + limit - 1 == (q + 1) * limit + (m - 1);
      DivUnique(n + limit - 1, limit, q + 1, m - 1);
      assert q * limit == n - m;
    }
  }

  /** The last page holds the remainder: `total mod limit` items, or a full page when it divides. */
  lemma LastPageHoldsRemainder<T>(s: seq<T>, limit: nat)
    requires |s| > 0 && limit > 0
    ensures var last := CeilDiv(|s|, limit);
            last >= 1 &&
            |Window(s, (last - 1) * limit, limit)| == if |s| % limit == 0 then limit else |s| % limit
  {
    LastPageStart(|s|, limit);
    var rest := if |s| % limit == 0 then limit else |s| % limit;
    var skip := (CeilDiv(|s|, limit) - 1) * limit;
    assert skip == |s| - rest && 0 < rest <= limit;
  }

  function Filter<T>(s: seq<T>, p: T -> bool): (r: seq<T>)
    ensures |r| <= |s| && multiset(r) <= multiset(s)
    ensures forall i :: 0 <= i < |r| ==> p(r[i])
    ensures forall i :: 0 <= i < |s| && p(s[i]) ==> s[i] in r
  {
    if s == [] then []
    else
      assert s == [s[0]] + s[1..];
      if p(s[0]) then [s[0]] + Filter(s[1..], p) else Filter(s[1..], p)
  }

  /** Nothing passes a filter that no element satisfies. */
  lemma {:induction false} FilterNone<T>(s: seq<T>, p: T -> bool)
    requires forall i :: 0 <= i < |s| ==> !p(s[i])
    ensures Filter(s, p) == []
  {
    if s != [] {
      FilterNone(s[1..], p);
    }
  }

  /** `findOne` on one field: a document whose key is `k`, or none when no document has it. */
  function Find<T, K(==)>(s: seq<T>, key: T -> K, k: K): (r: Option<nat>)
    ensures r.Some? ==> r.value < |s| && key(s[r.value]) == k
    ensures r.None? ==> forall i :: 0 <= i < |s| ==> key(s[i]) != k
  {
    if s == [] then None
    else if key(s[|s| - 1]) == k then Some(|s| - 1)
    else Find(s[..|s| - 1], key, k)
  }

  /** No two elements share a key (a unique index). */
  ghost predicate Distinct<T, K>(s: seq<T>, key: T -> K) {
    forall i, j :: 0 <= i < j < |s| ==> key(s[i]) != key(s[j])
  }

  /** Under a unique index, filtering out one key removes exactly one document when the key is present and none otherwise. */
  lemma {:induction false} FilterOutKey<T, K>(s: seq<T>, key: T -> K, k: K, p: T -> bool)
    requires Distinct(s, key)
    requires forall x :: p(x) == (key(x) != k)
    ensures |Filter(s, p)| == if Find(s, key, k).Some? then |s| - 1 else |s|
  {
    if s != [] {
      var rest := s[1..];
      assert Distinct(rest, key);
      FilterOutKey(rest, key, k, p);
      if key(s[0]) == k {
        assert forall i :: 0 <= i < |rest| ==> key(rest[i]) != k by {
          forall i | 0 <= i < |rest| ensures key(rest[i]) != k {
            assert key(s[0]) != key(s[i + 1]);
          }
        }
        assert Find(rest, key, k).None?;
      } else {
        if Find(s, key, k).Some? {
          var j := Find(s, key, k).value;
          assert j > 0 && key(rest[j - 1]) == k;
        }
        if Find(rest, key, k).Some? {
          var j := Find(rest, key, k).value;
          assert key(s[j + 1]) == k;
        }
      }
    }
  }

  /** Removing documents keeps a unique index unique. */
  lemma {:induction false} FilterDistinct<T, K>(s: seq<T>, p: T -> bool, key: T -> K)
    requires Distinct(s, key)
    ensures Distinct(Filter(s, p), key)
  {
    if s != [] {
      FilterDistinct(s[1..], p, key);
      var rest := Filter(s[1..], p);
      if p(s[0]) {
        forall j | 0 <= j < |rest| ensures key(s[0]) != key(rest[j]) {
          assert rest[j] in multiset(rest);
          var k :| 0 <= k < |s[1..]| && s[1..][k] == rest[j];
          assert s[k + 1] == rest[j];
        }
      }
    }
  }

  /** Adding a document whose key is new keeps the index unique. */
  lemma AppendDistinct<T, K>(s: seq<T>, x: T, key: T -> K)
    requires Distinct(s, key) && forall i :: 0 <= i < |s| ==> key(s[i]) != key(x)
    ensures Distinct(s + [x], key)
  {
  }

  /** Replacing a document by one whose key no other document has keeps the index unique. */
  lemma ReplaceDistinct<T, K>(s: seq<T>, k: nat, x: T, key: T -> K)
    requires k < |s| && Distinct(s, key)
    requires forall i :: 0 <= i < |s| && i != k ==> key(s[i]) != key(x)
    ensures Distinct(s[k := x], key)
  {
  }

  /** `Array.prototype.map`. */
  function Map<T, U>(s: seq<T>, f: T -> U): (r: seq<U>)
    ensures |r| == |s| && forall i :: 0 <= i < |s| ==> r[i] == f(s[i])
  {
    seq(|s|, i requires 0 <= i < |s| => f(s[i]))
  }

  /** Taking out the element at `j` takes one copy of it out of the multiset. */
  lemma RemoveAtMultiset<T>(t: seq<T>, j: nat)
    requires j < |t|
    ensures multiset(t[..j] + t[j + 1..]) == multiset(t) - multiset{t[j]}
  {
    assert t == t[..j] + [t[j]] + t[j + 1..];
    assert multiset(t) == multiset(t[..j]) + multiset{t[j]} + multiset(t[j + 1..]);
  }

  /** Taking out the element at `j` takes one copy of its image out of the mapped multiset. */
  lemma MapRemoveAt<T, U>(t: seq<T>, j: nat, f: T -> U)
    requires j < |t|
    ensures multiset(Map(t, f)) == multiset(Map(t[..j] + t[j + 1..], f)) + multiset{f(t[j])}
  {
    var m := Map(t, f);
    assert Map(t[..j] + t[j + 1..], f) == m[..j] + m[j + 1..];
    RemoveAtMultiset(m, j);
  }

  /** The first element of a permutation sits somewhere in the other, and the rests agree. */
  lemma PermutationHead<T>(s: seq<T>, t: seq<T>) returns (j: nat)
    requires s != [] && multiset(s) == multiset(t)
    ensures j < |t| && t[j] == s[0]
    ensures multiset(s[1..]) == multiset(t[..j] + t[j + 1..])
  {
    assert s[0] in multiset(s);
    assert s[0] in t;
    j :| 0 <= j < |t| && t[j] == s[0];
    TailMultiset(s);
    RemoveAtMultiset(t, j);
  }

  lemma TailMultiset<T>(s: seq<T>)
    requires s != []
    ensures multiset(s[1..]) == multiset(s) - multiset{s[0]}
  {
    assert s == [s[0]] + s[1..];
  }

  /** Mapping two orderings of the same elements gives two orderings of the same images. */
  lemma {:induction false} MapPermutation<T, U>(s: seq<T>, t: seq<T>, f: T -> U)
    requires multiset(s) == multiset(t)
    ensures multiset(Map(s, f)) == multiset(Map(t, f))
    decreases |s|
  {
    if s == [] {
      assert |t| == |multiset(t)| == 0;
      assert Map(t, f) == Map(s, f) == [];
    } else {
      var j := PermutationHead(s, t);
      MapPermutation(s[1..], t[..j] + t[j + 1..], f);
      MapHead(s, f);
      MapRemoveAt(t, j, f);
    }
  }

  lemma MapHead<T, U>(s: seq<T>, f: T -> U)
    requires s != []
    ensures multiset(Map(s, f)) == multiset(Map(s[1..], f)) + multiset{f(s[0])}
  {
    MapRemoveAt(s, 0, f);
    assert s[..0] + s[1..] == s[1..];
  }

  /** `countDocuments(filter)`. */
  function Count<T>(s: seq<T>, p: T -> bool): (n: nat)
    ensures n == |Filter(s, p)|
  {
    if s == [] then 0 else (if p(s[0]) then 1 else 0) + Count(s[1..], p)
  }

  /** Counts of two predicates that never hold together add up to the count of either. */
  lemma {:induction false} CountDisjoint<T>(s: seq<T>, p: T -> bool, q: T -> bool)
    requires forall i :: 0 <= i < |s| ==> !(p(s[i]) && q(s[i]))
    ensures Count(s, p) + Count(s, q) == Count(s, x => p(x) || q(x))
    ensures Count(s, p) + Count(s, q) <= |s|
  {
    if s != [] {
      CountDisjoint(s[1..], p, q);
    }
  }

  /** Complementary counts: every element counts for `p` or for its negation. */
  lemma {:induction false} CountComplement<T>(s: seq<T>, p: T -> bool, q: T -> bool)
    requires forall x :: q(x) == !p(x)
    ensures Count(s, p) + Count(s, q) == |s|
  {
    if s != [] {
      CountComplement(s[1..], p, q);
    }
  }
}
