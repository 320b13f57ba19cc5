/** Page arithmetic shared by the local cache (SQL `LIMIT ? OFFSET ?`) and the
    remote catalogue (`Array.prototype.slice`): pages are numbered from 1 and
    hold PageSize events each. */
module Paging {

  const PageSize: nat := 10

  function Min(a: int, b: int): int { if a <= b then a else b }
  function Max(a: int, b: int): int { if a <= b then b else a }

  /** SQL `LIMIT limit OFFSET offset`: the rows from position `offset` on (a
      negative offset counts as zero), at most `limit` of them. */
  function LimitOffset<T>(s: seq<T>, limit: nat, offset: int): (r: seq<T>)
    ensures |r| == Max(0, Min(limit, |s| - Max(offset, 0)))
    ensures forall i :: 0 <= i < |r| ==> r[i] == s[Max(offset, 0) + i]
  {
    var o := if offset < 0 then 0 else if offset > |s| then |s| else offset;
    var e := if o + limit > |s| then |s| else o + limit;
    s[o..e]
  }

  /** A position argument of `slice`: negative positions count back from the end;
      the result is clamped to 0..n. */
  function JsIndex(n: nat, k: int): (r: nat)
    ensures r <= n
    ensures 0 <= k ==> r == Min(k, n)
    ensures k < 0 ==> r == Max(n + k, 0)
  {
    if k < 0 then (if n + k < 0 then 0 else n + k) else if k > n then n else k
  }

  /** `s.slice(start, end)`. */
  function JsSlice<T>(s: seq<T>, start: int, end: int): (r: seq<T>)
    ensures 0 <= start <= end ==> r == s[Min(start, |s|)..Min(end, |s|)]
    ensures start <= end ==> |r| <= end - start
    ensures forall x :: x in r ==> x in s
  {
    var from := JsIndex(|s|, start);
    var to := JsIndex(|s|, end);
    if from < to then s[from..to] else []
  }

  /** The page the local cache returns: `LIMIT 10 OFFSET (page - 1) * 10`. */
  function CacheSlice<T>(s: seq<T>, page: int): seq<T> {
    LimitOffset(s, PageSize, (page - 1) * PageSize)
  }

  /** The page the remote catalogue returns: `slice((page - 1) * 10, (page - 1) * 10 + 10)`. */
  function RemoteSlice<T>(s: seq<T>, page: int): seq<T> {
    JsSlice(s, (page - 1) * PageSize, (page - 1) * PageSize + PageSize)
  }

  /** For every real page number the cache and the remote cut the same page. */
  lemma SlicesAgree<T>(s: seq<T>, page: int)
    requires page >= 1
    ensures CacheSlice(s, page) == RemoteSlice(s, page)
    ensures CacheSlice(s, page) == s[Min((page - 1) * PageSize, |s|)..Min(page * PageSize, |s|)]
  {
  }

  /** The remote answers page 0 with nothing, however long the list. */
  lemma RemotePageZeroEmpty<T>(s: seq<T>)
    ensures RemoteSlice(s, 0) == []
  {
  }

  /** `hasMore` as both sides compute it (`page * 10 < totalCount`) says exactly
      that the following page is not empty. */
  lemma {:induction false} HasMoreIffNextPageNonEmpty<T>(s: seq<T>, page: int)
    requires page >= 1
    ensures page * PageSize < |s| <==> CacheSlice(s, page + 1) != []
    ensures page * PageSize < |s| <==> RemoteSlice(s, page + 1) != []
  {
    SlicesAgree(s, page + 1);
    assert |CacheSlice(s, page + 1)| == Max(0, Min(PageSize, |s| - page * PageSize));
  }

  /** The pages 1..p appended in order, as a screen that loads page after page
      accumulates them. */
  function Accumulated<T>(s: seq<T>, p: nat): seq<T> {
    if p == 0 then [] else Accumulated(s, p - 1) + CacheSlice(s, p)
  }

  /** Loading pages 1..p of a list that does not change yields its first p * 10
      elements, in order, without gaps or repetitions. */
  lemma {:induction false} AccumulatedIsPrefix<T>(s: seq<T>, p: nat)
    ensures Accumulated(s, p) == s[..Min(p * PageSize, |s|)]
  {
    if p > 0 {
      AccumulatedIsPrefix(s, p - 1);
      SlicesAgree(s, p);
      assert s[..Min(p * PageSize, |s|)]
        == s[..Min((p - 1) * PageSize, |s|)] + s[Min((p - 1) * PageSize, |s|)..Min(p * PageSize, |s|)];
    }
  }

  ghost predicate Distinct<T>(s: seq<T>) {
    forall i, j :: 0 <= i < |s| && 0 <= j < |s| && i != j ==> s[i] != s[j]
  }

  /** Two different pages of a list without repetitions share no element. */
  lemma PagesDisjoint<T>(s: seq<T>, p: int, q: int, x: T)
    requires Distinct(s)
    requires 1 <= p < q
    ensures !(x in CacheSlice(s, p) && x in CacheSlice(s, q))
  {
  }
}
