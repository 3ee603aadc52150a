/**
 A collection is the sequence of its documents in the database's natural
 order. These are the query primitives the handlers are built from: the first
 match (what `findOne` returns), counting (`countDocuments`), selection
 (`find`), deletion, sums, sorting and `skip`/`limit` paging.

 Filters are passed as functions. Handlers obtain them from named builder
 functions, so that every use of one filter denotes the same function value.
 */
module Coll {
  import opened Common

  // ---------------------------------------------------------------------------
  // findOne
  // ---------------------------------------------------------------------------

  /** The position of the first document that satisfies `p`, if any. */
  function FirstIndex<T>(s: seq<T>, p: T -> bool): (r: Option<nat>)
    ensures r.Some? ==> r.value < |s| && p(s[r.value])
    ensures r.Some? ==> forall j :: 0 <= j < r.value ==> !p(s[j])
    ensures r.None? <==> forall j :: 0 <= j < |s| ==> !p(s[j])
    decreases |s|
  {
    if |s| == 0 then None
    else if p(s[0]) then Some(0)
    else match FirstIndex(s[1..], p)
      case None => None
      case Some(i) => Some(i + 1)
  }

  /** A position whose document matches, after only non-matching ones, is the first match. */
  lemma FirstIndexIs<T>(s: seq<T>, p: T -> bool, i: nat)
    requires i < |s| && p(s[i])
    requires forall j :: 0 <= j < i ==> !p(s[j])
    ensures FirstIndex(s, p) == Some(i)
  {
    var r := FirstIndex(s, p);
    assert r.Some?;
    assert !(r.value < i);
    assert !(r.value > i);
  }

  /** Every position whose document matches after only non-matching ones is the first match. */
  lemma FirstIndexIsEvery<T>(s: seq<T>, p: T -> bool)
    ensures forall i :: 0 <= i < |s| && p(s[i]) && (forall j :: 0 <= j < i ==> !p(s[j])) ==> FirstIndex(s, p) == Some(i)
  {
    forall i | 0 <= i < |s| && p(s[i]) && (forall j :: 0 <= j < i ==> !p(s[j])) ensures FirstIndex(s, p) == Some(i) {
      FirstIndexIs(s, p, i);
    }
  }

  /** Replacing a document by one that the filter treats alike leaves the first match where it was. */
  lemma {:induction false} FirstIndexUpdate<T>(s: seq<T>, k: nat, x: T, p: T -> bool)
    requires k < |s| && p(s[k]) == p(x)
    ensures FirstIndex(s[k := x], p) == FirstIndex(s, p)
  {
    var s' := s[k := x];
    assert forall j :: 0 <= j < |s| ==> p(s'[j]) == p(s[j]);
    match FirstIndex(s, p)
    case None =>
    case Some(i) =>
      FirstIndexIs(s', p, i);
  }

  /** Appending a document changes the first match only when there was none before. */
  lemma {:induction false} FirstIndexAppend<T>(s: seq<T>, x: T, p: T -> bool)
    ensures FirstIndex(s + [x], p)
         == if FirstIndex(s, p).Some? then FirstIndex(s, p)
            else if p(x) then Some(|s|) else None
  {
    var s' := s + [x];
    assert forall j :: 0 <= j < |s| ==> s'[j] == s[j];
    assert s'[|s|] == x;
    match FirstIndex(s, p)
    case Some(i) =>
      FirstIndexIs(s', p, i);
    case None =>
      if p(x) {
        FirstIndexIs(s', p, |s|);
      } else {
        assert forall j :: 0 <= j < |s'| ==> !p(s'[j]);
      }
  }

  // ---------------------------------------------------------------------------
  // countDocuments
  // ---------------------------------------------------------------------------

  function Count<T>(s: seq<T>, p: T -> bool): (n: nat)
    ensures n <= |s|
    ensures n == 0 <==> forall j :: 0 <= j < |s| ==> !p(s[j])
    decreases |s|
  {
    if |s| == 0 then 0
    else (if p(s[0]) then 1 else 0) + Count(s[1..], p)
  }

  function Indicator(b: bool): nat {
    if b then 1 else 0
  }

  lemma {:induction false} CountConcat<T>(a: seq<T>, b: seq<T>, p: T -> bool)
    ensures Count(a + b, p) == Count(a, p) + Count(b, p)
  {
    if |a| > 0 {
      assert (a + b)[1..] == a[1..] + b;
      CountConcat(a[1..], b, p);
    } else {
      assert a + b == b;
    }
  }

  lemma CountAppend<T>(s: seq<T>, x: T, p: T -> bool)
    ensures Count(s + [x], p) == Count(s, p) + Indicator(p(x))
  {
    CountConcat(s, [x], p);
  }

  lemma CountUpdate<T>(s: seq<T>, k: nat, x: T, p: T -> bool)
    requires k < |s|
    ensures Count(s[k := x], p) == Count(s, p) - Indicator(p(s[k])) + Indicator(p(x))
  {
    assert s == s[..k] + [s[k]] + s[k + 1..];
    assert s[k := x] == s[..k] + [x] + s[k + 1..];
    CountConcat(s[..k] + [s[k]], s[k + 1..], p);
    CountConcat(s[..k], [s[k]], p);
    CountConcat(s[..k] + [x], s[k + 1..], p);
    CountConcat(s[..k], [x], p);
  }

  /** Two filters that agree on every document of `s` count alike. */
  lemma {:induction false} CountAgree<T>(s: seq<T>, p: T -> bool, q: T -> bool)
    requires forall j :: 0 <= j < |s| ==> p(s[j]) == q(s[j])
    ensures Count(s, p) == Count(s, q)
  {
    if |s| > 0 {
      CountAgree(s[1..], p, q);
    }
  }

  // ---------------------------------------------------------------------------
  // find, delete
  // ---------------------------------------------------------------------------

  /** The documents that satisfy `p`, in collection order. */
  function Select<T>(s: seq<T>, p: T -> bool): (r: seq<T>)
    ensures |r| == Count(s, p)
    ensures forall j :: 0 <= j < |r| ==> p(r[j]) && r[j] in s
    ensures forall j :: 0 <= j < |s| && p(s[j]) ==> s[j] in r
    ensures forall x :: x in r ==> p(x) && x in s
    decreases |s|
  {
    if |s| == 0 then []
    else if p(s[0]) then [s[0]] + Select(s[1..], p)
    else Select(s[1..], p)
  }

  /** Filtering twice is filtering once by the conjunction. */
  lemma {:induction false} SelectSelect<T>(s: seq<T>, p: T -> bool, q: T -> bool, pq: T -> bool)
    requires forall x :: pq(x) == (p(x) && q(x))
    ensures Select(Select(s, p), q) == Select(s, pq)
    decreases |s|
  {
    if |s| > 0 {
      SelectSelect(s[1..], p, q, pq);
      if p(s[0]) {
        assert ([s[0]] + Select(s[1..], p))[1..] == Select(s[1..], p);
      }
    }
  }

  /** A filter every document satisfies selects the whole collection. */
  lemma {:induction false} SelectAll<T>(s: seq<T>, p: T -> bool)
    requires forall x :: p(x)
    ensures Select(s, p) == s
    decreases |s|
  {
    if |s| > 0 {
      SelectAll(s[1..], p);
      assert [s[0]] + s[1..] == s;
    }
  }

  /** The collection without the document at position `k`. */
  function RemoveAt<T>(s: seq<T>, k: nat): (r: seq<T>)
    requires k < |s|
    ensures |r| == |s| - 1
    ensures forall j :: 0 <= j < k ==> r[j] == s[j]
    ensures forall j :: k < j < |s| ==> r[j - 1] == s[j]
    ensures forall j :: k <= j < |r| ==> r[j] == s[j + 1]
  {
    s[..k] + s[k + 1..]
  }

  /** Removing one document keeps every other document and adds none. */
  lemma RemoveAtMembers<T>(s: seq<T>, k: nat, x: T)
    requires k < |s|
    ensures x in RemoveAt(s, k) ==> x in s
    ensures x in s && x != s[k] ==> x in RemoveAt(s, k)
  {
    var r := RemoveAt(s, k);
    if x in r {
      var j :| 0 <= j < |r| && r[j] == x;
      if j >= k { assert s[j + 1] == x; }
    }
    if x in s && x != s[k] {
      var j :| 0 <= j < |s| && s[j] == x;
      if j < k { assert r[j] == x; } else { assert r[j - 1] == x; }
    }
  }

  lemma {:induction false} CountRemoveAt<T>(s: seq<T>, k: nat, p: T -> bool)
    requires k < |s|
    ensures Count(RemoveAt(s, k), p) == Count(s, p) - Indicator(p(s[k]))
  {
    assert RemoveAt(s, k) == s[..k] + s[k + 1..];
    assert s == s[..k] + [s[k]] + s[k + 1..];
    assert Count([s[k]], p) == Indicator(p(s[k])) by {
      assert [s[k]][1..] == [];
    }
    CountConcat(s[..k] + [s[k]], s[k + 1..], p);
    CountConcat(s[..k], [s[k]], p);
    CountConcat(s[..k], s[k + 1..], p);
  }

  /** `deleteMany(p)`: the documents that do not satisfy `p`, in collection order. */
  function RemoveWhere<T>(s: seq<T>, p: T -> bool): (r: seq<T>)
    ensures |r| == |s| - Count(s, p)
    ensures forall j :: 0 <= j < |r| ==> !p(r[j]) && r[j] in s
    ensures forall j :: 0 <= j < |s| && !p(s[j]) ==> s[j] in r
    decreases |s|
  {
    if |s| == 0 then []
    else if p(s[0]) then RemoveWhere(s[1..], p)
    else [s[0]] + RemoveWhere(s[1..], p)
  }

  /** `deleteMany(p)` keeps exactly what a `find` by the opposite filter returns. */
  lemma {:induction false} RemoveWhereSelectsComplement<T>(s: seq<T>, p: T -> bool, q: T -> bool)
    requires forall x :: q(x) == !p(x)
    ensures RemoveWhere(s, p) == Select(s, q)
    decreases |s|
  {
    if |s| > 0 {
      RemoveWhereSelectsComplement(s[1..], p, q);
    }
  }

  // ---------------------------------------------------------------------------
  // Sums
  // ---------------------------------------------------------------------------

  function Sum<T>(s: seq<T>, f: T -> int): int
    decreases |s|
  {
    if |s| == 0 then 0 else f(s[0]) + Sum(s[1..], f)
  }

  lemma {:induction false} SumConcat<T>(a: seq<T>, b: seq<T>, f: T -> int)
    ensures Sum(a + b, f) == Sum(a, f) + Sum(b, f)
  {
    if |a| > 0 {
      assert (a + b)[1..] == a[1..] + b;
      SumConcat(a[1..], b, f);
    } else {
      assert a + b == b;
    }
  }

  lemma SumAppend<T>(s: seq<T>, x: T, f: T -> int)
    ensures Sum(s + [x], f) == Sum(s, f) + f(x)
  {
    SumConcat(s, [x], f);
  }

  lemma SumUpdate<T>(s: seq<T>, k: nat, x: T, f: T -> int)
    requires k < |s|
    ensures Sum(s[k := x], f) == Sum(s, f) - f(s[k]) + f(x)
  {
    assert s == s[..k] + [s[k]] + s[k + 1..];
    assert s[k := x] == s[..k] + [x] + s[k + 1..];
    SumConcat(s[..k] + [s[k]], s[k + 1..], f);
    SumConcat(s[..k], [s[k]], f);
    SumConcat(s[..k] + [x], s[k + 1..], f);
    SumConcat(s[..k], [x], f);
  }

  // ---------------------------------------------------------------------------
  // sort({ key: -1 }), skip, limit
  // ---------------------------------------------------------------------------

  ghost predicate SortedDesc<T>(s: seq<T>, key: T -> int) {
    forall i, j :: 0 <= i < j < |s| ==> key(s[i]) >= key(s[j])
  }

  /** Putting a document with the largest key in front of a sorted collection keeps it sorted. */
  lemma ConsSorted<T>(y: T, rest: seq<T>, key: T -> int)
    requires SortedDesc(rest, key)
    requires |rest| == 0 || key(y) >= key(rest[0])
    ensures SortedDesc([y] + rest, key)
  {
    var r := [y] + rest;
    forall i, j | 0 <= i < j < |r| ensures key(r[i]) >= key(r[j]) {
      assert r[j] == rest[j - 1];
      if i > 0 {
        assert r[i] == rest[i - 1];
      } else if j > 1 {
        assert key(rest[0]) >= key(rest[j - 1]);
      }
    }
  }

  function InsertDesc<T>(x: T, s: seq<T>, key: T -> int): (r: seq<T>)
    requires SortedDesc(s, key)
    ensures SortedDesc(r, key)
    ensures multiset(r) == multiset(s) + multiset{x}
    ensures r[0] == x || (|s| > 0 && r[0] == s[0])
    decreases |s|
  {
    if |s| == 0 then [x]
    else if key(x) >= key(s[0]) then
      ConsSorted(x, s, key);
      [x] + s
    else
      assert s == [s[0]] + s[1..];
      assert SortedDesc(s[1..], key);
      var rest := InsertDesc(x, s[1..], key);
      ConsSorted(s[0], rest, key);
      [s[0]] + rest
  }

  /** The collection ordered by `key`, largest first. */
  function SortDesc<T>(s: seq<T>, key: T -> int): (r: seq<T>)
    ensures SortedDesc(r, key)
    ensures multiset(r) == multiset(s)
    decreases |s|
  {
    if |s| == 0 then []
    else
      assert s == [s[0]] + s[1..];
      InsertDesc(s[0], SortDesc(s[1..], key), key)
  }

  /** The first document of a sorted collection has the largest key. */
  lemma HeadIsLargest<T>(s: seq<T>, key: T -> int, x: T)
    requires SortedDesc(s, key) && x in s
    ensures key(s[0]) >= key(x)
  {
    var k :| 0 <= k < |s| && s[k] == x;
    if k > 0 {
      assert key(s[0]) >= key(s[k]);
    }
  }

  /** Dropping the first document keeps a collection sorted. */
  lemma TailSorted<T>(s: seq<T>, key: T -> int)
    requires SortedDesc(s, key) && |s| > 0
    ensures SortedDesc(s[1..], key)
  {
    forall i, j | 0 <= i < j < |s| - 1 ensures key(s[1..][i]) >= key(s[1..][j]) {
      assert s[1..][i] == s[i + 1] && s[1..][j] == s[j + 1];
    }
  }

  /** Two arrangements of the same documents that start alike agree on the rest. */
  lemma TailsSameDocuments<T>(a: seq<T>, b: seq<T>)
    requires |a| > 0 && |b| > 0 && a[0] == b[0] && multiset(a) == multiset(b)
    ensures multiset(a[1..]) == multiset(b[1..])
  {
    assert a == [a[0]] + a[1..];
    assert b == [b[0]] + b[1..];
    assert multiset(a) == multiset{a[0]} + multiset(a[1..]);
    assert multiset(b) == multiset{b[0]} + multiset(b[1..]);
    assert multiset(a[1..]) == multiset(a) - multiset{a[0]};
    assert multiset(b[1..]) == multiset(b) - multiset{b[0]};
  }

  /** Keys tell the documents of a collection apart. */
  ghost predicate KeysIdentify<T>(s: seq<T>, key: T -> int) {
    forall x, y :: x in s && y in s && key(x) == key(y) ==> x == y
  }

  /** Two sorted arrangements of the same non-empty collection start with the same document. */
  lemma SameHead<T>(a: seq<T>, b: seq<T>, key: T -> int)
    requires SortedDesc(a, key) && SortedDesc(b, key) && KeysIdentify(a, key)
    requires multiset(a) == multiset(b) && |a| > 0
    ensures |b| > 0 && a[0] == b[0]
  {
    assert |a| == |multiset(a)| == |multiset(b)| == |b|;
    assert a[0] in multiset(b) && b[0] in multiset(a);
    HeadIsLargest(a, key, b[0]);
    HeadIsLargest(b, key, a[0]);
  }

  /** Dropping the first document keeps the keys telling the rest apart. */
  lemma TailKeysIdentify<T>(s: seq<T>, key: T -> int)
    requires KeysIdentify(s, key) && |s| > 0
    ensures KeysIdentify(s[1..], key)
  {
    forall x, y | x in s[1..] && y in s[1..] && key(x) == key(y) ensures x == y {
      assert x in s && y in s;
    }
  }

  /**
   When no two different documents share a key, the descending order is
   unique: any two sorted arrangements of the same documents are equal, so
   the result does not depend on how the sort breaks ties.
   */
  lemma {:induction false} SortedDescIsUnique<T>(a: seq<T>, b: seq<T>, key: T -> int)
    requires SortedDesc(a, key) && SortedDesc(b, key)
    requires multiset(a) == multiset(b)
    requires KeysIdentify(a, key)
    ensures a == b
    decreases |a|
  {
    if |a| == 0 {
      assert |b| == |multiset(b)| == |multiset(a)| == 0;
    } else {
      SameHead(a, b, key);
      TailsSameDocuments(a, b);
      TailSorted(a, key);
      TailSorted(b, key);
      TailKeysIdentify(a, key);
      SortedDescIsUnique(a[1..], b[1..], key);
      assert a == [a[0]] + a[1..] && b == [b[0]] + b[1..];
    }
  }

  /** `.skip(skip).limit(limit)`; a limit of 0 means no limit. */
  function Page<T>(s: seq<T>, skip: nat, limit: nat): (r: seq<T>)
    ensures limit > 0 ==> |r| <= limit
    ensures |r| == if skip >= |s| then 0 else if limit == 0 || skip + limit >= |s| then |s| - skip else limit
    ensures skip >= |s| ==> r == []
    ensures skip < |s| && (limit == 0 || skip + limit >= |s|) ==> r == s[skip..]
    ensures forall j :: 0 <= j < |r| ==> skip + j < |s| && r[j] == s[skip + j]
    ensures r != [] ==> skip + |r| <= |s|
  {
    var from := if skip < |s| then skip else |s|;
    var to := if limit == 0 || skip + limit >= |s| then |s| else skip + limit;
    s[from..to]
  }

  /** A page of a sorted collection is sorted, and holds only documents of the collection. */
  lemma PageOfSorted<T>(s: seq<T>, skip: nat, limit: nat, key: T -> int)
    requires SortedDesc(s, key)
    ensures SortedDesc(Page(s, skip, limit), key)
    ensures forall x :: x in Page(s, skip, limit) ==> x in s
  {
    var r := Page(s, skip, limit);
    forall i, j | 0 <= i < j < |r| ensures key(r[i]) >= key(r[j]) {
      assert r[i] == s[skip + i] && r[j] == s[skip + j];
    }
  }

  /** Two consecutive pages, the second starting where the first ends, make up the page of both sizes. */
  lemma PagesConcatenate<T>(s: seq<T>, skip: nat, n: nat, m: nat)
    requires n > 0 && m > 0
    ensures Page(s, skip, n) + Page(s, skip + n, m) == Page(s, skip, n + m)
  {
    var a, b, c := Page(s, skip, n), Page(s, skip + n, m), Page(s, skip, n + m);
    assert |a + b| == |c|;
    forall j | 0 <= j < |c| ensures (a + b)[j] == c[j] {
      if j < |a| {
        assert c[j] == s[skip + j];
      } else {
        assert b[j - |a|] == s[skip + n + (j - |a|)];
      }
    }
  }

}
