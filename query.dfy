/** The query forms the repositories hand to Prisma, over a table held as a
    sequence of rows in insertion order: `where` (a filter that keeps table
    order), `findFirst`/`findUnique` (the first matching row), `update` of
    the matching rows, `skip`/`take`, and `orderBy: { createdAt: "desc" }`.
    Prisma leaves the order of rows with equal timestamps open; this model
    keeps table order among them (a stable insertion sort). */
module Query {
  import opened Wrappers

  /** The index of the first row satisfying `p`, or `|s|` when there is none. */
  function FirstIndex<T>(s: seq<T>, p: T -> bool): (i: nat)
    ensures i <= |s|
    ensures forall j :: 0 <= j < i ==> !p(s[j])
    ensures i < |s| ==> p(s[i])
  {
    if s == [] then 0 else if p(s[0]) then 0 else 1 + FirstIndex(s[1..], p)
  }

  /** `findFirst`: the first row satisfying `p`, in table order. */
  function FindFirst<T>(s: seq<T>, p: T -> bool): (r: Option<T>)
    ensures r.Some? ==> r.value in s && p(r.value)
    ensures r.None? <==> forall k :: 0 <= k < |s| ==> !p(s[k])
    ensures r.Some? ==> exists i :: 0 <= i < |s| && s[i] == r.value && forall j :: 0 <= j < i ==> !p(s[j])
  {
    var i := FirstIndex(s, p);
    if i < |s| then Some(s[i]) else None
  }

  /** A unique column: no two rows share a key. */
  predicate UniqueBy<T, K(==)>(s: seq<T>, key: T -> K) {
    forall i, j :: 0 <= i < j < |s| ==> key(s[i]) != key(s[j])
  }

  /** When exactly one row satisfies `p`, `findFirst` returns that row. */
  lemma FindFirstOnly<T>(s: seq<T>, p: T -> bool, k: nat)
    requires k < |s| && p(s[k])
    requires forall i :: 0 <= i < |s| && p(s[i]) ==> i == k
    ensures FindFirst(s, p) == Some(s[k])
  {
    assert FirstIndex(s, p) <= k;
  }

  /** `findFirst` returns the row at the first index satisfying `p`. */
  lemma FindFirstAt<T>(s: seq<T>, p: T -> bool, i: nat)
    requires i < |s| && p(s[i])
    requires forall j :: 0 <= j < i ==> !p(s[j])
    ensures FindFirst(s, p) == Some(s[i])
  {
    assert FirstIndex(s, p) == i;
  }

  /** `findFirst` looks at the first row, then at the rest. */
  lemma FindFirstCons<T>(s: seq<T>, p: T -> bool)
    requires s != []
    ensures FindFirst(s, p) == if p(s[0]) then Some(s[0]) else FindFirst(s[1..], p)
  {
    if !p(s[0]) {
      assert FirstIndex(s, p) == 1 + FirstIndex(s[1..], p);
    }
  }

  /** Rows that cannot satisfy `p` are invisible to `findFirst`: dropping
      every row that fails `q`, where `p` implies `q`, changes no answer. */
  lemma {:induction false} FindFirstIgnoresFiltered<T>(s: seq<T>, p: T -> bool, q: T -> bool)
    requires forall k :: 0 <= k < |s| && p(s[k]) ==> q(s[k])
    ensures FindFirst(s, p) == FindFirst(Where(s, q), p)
  {
    if s != [] {
      FindFirstCons(s, p);
      FindFirstIgnoresFiltered(s[1..], p, q);
      var rest := Where(s[1..], q);
      if q(s[0]) {
        assert Where(s, q) == [s[0]] + rest;
        FindFirstCons([s[0]] + rest, p);
        assert ([s[0]] + rest)[1..] == rest;
      }
    }
  }

  /** Adding a row whose key is new keeps the column unique. */
  lemma InsertKeepsUnique<T, K>(s: seq<T>, key: T -> K, row: T)
    requires UniqueBy(s, key)
    requires forall k :: 0 <= k < |s| ==> key(s[k]) != key(row)
    ensures UniqueBy(s + [row], key)
  {
  }

  /** `where` as a filter: the rows satisfying `p`, in table order. */
  function Where<T>(s: seq<T>, p: T -> bool): (r: seq<T>)
    ensures |r| <= |s|
    ensures forall k :: 0 <= k < |r| ==> r[k] in s && p(r[k])
    ensures forall k :: 0 <= k < |s| && p(s[k]) ==> s[k] in r
  {
    if s == [] then []
    else
      var rest := Where(s[1..], p);
      assert forall k :: 0 < k < |s| ==> s[k] == s[1..][k - 1];
      if p(s[0]) then [s[0]] + rest else rest
  }

  /** `where` keeps every occurrence of a satisfying row and no other row:
      each row appears in the filter exactly as often as in the table when
      it satisfies `p`, and not at all otherwise. */
  lemma {:induction false} WhereCounts<T(!new)>(s: seq<T>, p: T -> bool)
    ensures forall x :: multiset(Where(s, p))[x] == if p(x) then multiset(s)[x] else 0
  {
    if s != [] {
      WhereCounts(s[1..], p);
      assert s == [s[0]] + s[1..];
      if p(s[0]) {
        assert Where(s, p) == [s[0]] + Where(s[1..], p);
      }
    }
  }

  /** `update` of every row satisfying `p`; the other rows stay as they are. */
  function UpdateWhere<T>(s: seq<T>, p: T -> bool, f: T -> T): (r: seq<T>)
    ensures |r| == |s|
    ensures forall k :: 0 <= k < |s| ==> r[k] == if p(s[k]) then f(s[k]) else s[k]
  {
    seq(|s|, k requires 0 <= k < |s| => if p(s[k]) then f(s[k]) else s[k])
  }

  /** `skip: n, take: m`. */
  function SkipTake<T>(s: seq<T>, skip: nat, take: nat): (r: seq<T>)
    ensures |r| <= take
    ensures skip <= |s| ==> |r| == if |s| - skip < take then |s| - skip else take
    ensures skip >= |s| ==> r == []
    ensures forall k :: 0 <= k < |r| ==> skip + k < |s| && r[k] == s[skip + k]
  {
    if skip >= |s| then []
    else if |s| - skip <= take then s[skip..]
    else s[skip..skip + take]
  }

  /** Rows satisfying two disjoint conditions are counted apart: together they
      are at most the whole table. */
  lemma {:induction false} DisjointCounts<T>(s: seq<T>, p: T -> bool, q: T -> bool)
    requires forall k :: 0 <= k < |s| ==> !(p(s[k]) && q(s[k]))
    ensures |Where(s, p)| + |Where(s, q)| <= |s|
  {
    if s != [] {
      DisjointCounts(s[1..], p, q);
    }
  }

  /** Narrowing the condition can only lower the count. */
  lemma {:induction false} NarrowerCount<T>(s: seq<T>, p: T -> bool, q: T -> bool)
    requires forall k :: 0 <= k < |s| ==> q(s[k]) ==> p(s[k])
    ensures |Where(s, q)| <= |Where(s, p)|
  {
    if s != [] {
      NarrowerCount(s[1..], p, q);
    }
  }

  ghost predicate SortedDesc<T>(s: seq<T>, key: T -> int) {
    forall i, j :: 0 <= i < j < |s| ==> key(s[i]) >= key(s[j])
  }

  function InsertDesc<T>(x: T, s: seq<T>, key: T -> int): (r: seq<T>)
    ensures multiset(r) == multiset(s) + multiset{x}
    ensures |r| == |s| + 1
  {
    if s == [] || key(x) >= key(s[0]) then
      [x] + s
    else
      assert s == [s[0]] + s[1..];
      [s[0]] + InsertDesc(x, s[1..], key)
  }

  lemma {:induction false} InsertDescBounded<T>(x: T, s: seq<T>, key: T -> int, b: int)
    requires forall k :: 0 <= k < |s| ==> key(s[k]) <= b
    requires key(x) <= b
    ensures forall k :: 0 <= k < |InsertDesc(x, s, key)| ==> key(InsertDesc(x, s, key)[k]) <= b
  {
    if s != [] && key(x) < key(s[0]) {
      InsertDescBounded(x, s[1..], key, b);
    }
  }

  lemma {:induction false} InsertDescSorted<T>(x: T, s: seq<T>, key: T -> int)
    requires SortedDesc(s, key)
    ensures SortedDesc(InsertDesc(x, s, key), key)
  {
    if s != [] && key(x) < key(s[0]) {
      InsertDescSorted(x, s[1..], key);
      InsertDescBounded(x, s[1..], key, key(s[0]));
    }
  }

  /** The rows of `s`, newest first: a permutation of `s` sorted by `key`
      descending. */
  function SortDesc<T>(s: seq<T>, key: T -> int): (r: seq<T>)
    ensures multiset(r) == multiset(s) && |r| == |s|
    ensures SortedDesc(r, key)
  {
    if s == [] then []
    else
      assert s == [s[0]] + s[1..];
      var rest := SortDesc(s[1..], key);
      InsertDescSorted(s[0], rest, key);
      InsertDesc(s[0], rest, key)
  }

  /** Two sequences holding the same multiset hold the same elements. */
  lemma SameMembers<T>(a: seq<T>, b: seq<T>)
    requires multiset(a) == multiset(b)
    ensures forall k :: 0 <= k < |a| ==> a[k] in b
    ensures forall k :: 0 <= k < |b| ==> b[k] in a
  {
    forall k | 0 <= k < |a| ensures a[k] in b {
      assert a[k] in multiset(a);
    }
    forall k | 0 <= k < |b| ensures b[k] in a {
      assert b[k] in multiset(b);
    }
  }

  /** `findMany({ where, orderBy: { createdAt: "desc" } })`: the rows
      satisfying `p`, newest first. */
  function NewestFirst<T(!new)>(s: seq<T>, p: T -> bool, createdAt: T -> int): (r: seq<T>)
    ensures multiset(r) == multiset(Where(s, p))
    ensures forall x :: multiset(r)[x] == if p(x) then multiset(s)[x] else 0
    ensures forall k :: 0 <= k < |r| ==> r[k] in s && p(r[k])
    ensures forall k :: 0 <= k < |s| && p(s[k]) ==> s[k] in r
    ensures SortedDesc(r, createdAt)
  {
    var chosen := Where(s, p);
    WhereCounts(s, p);
    var r := SortDesc(chosen, createdAt);
    SameMembers(r, chosen);
    r
  }

  /** A page of a sorted listing is sorted, and its rows keep any property
      every row of the listing has. */
  lemma SkipTakeKeeps<T>(s: seq<T>, skip: nat, take: nat, key: T -> int, p: T -> bool)
    requires SortedDesc(s, key)
    requires forall k :: 0 <= k < |s| ==> p(s[k])
    ensures SortedDesc(SkipTake(s, skip, take), key)
    ensures forall k :: 0 <= k < |SkipTake(s, skip, take)| ==> p(SkipTake(s, skip, take)[k])
  {
    var r := SkipTake(s, skip, take);
    forall i, j | 0 <= i < j < |r| ensures key(r[i]) >= key(r[j]) {
      assert r[i] == s[skip + i] && r[j] == s[skip + j];
    }
  }
}
