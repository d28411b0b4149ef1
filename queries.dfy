/**
  The read side of the generic repository, as functions over the stored
  records (a sequence in store order): lookup by primary key, filtering by
  a predicate, and LINQ-style Skip/Take paging.
 */
module Queries {
  import opened Wrappers

  /** The largest value a C# `int` can hold. */
  const Int32Max: int := 0x7FFF_FFFF

  function Min(a: int, b: int): int
  {
    if a <= b then a else b
  }

  function Max(a: int, b: int): int
  {
    if a <= b then b else a
  }

  /** No two stored records share a primary key. */
  ghost predicate KeysDistinct<T>(s: seq<T>, key: T -> int)
  {
    forall i, j :: 0 <= i < j < |s| ==> key(s[i]) != key(s[j])
  }

  // ---------------------------------------------------------------------
  // Lookup by primary key

  /** The record whose key is `id`, or None when no stored record has it. */
  function FindByKey<T>(s: seq<T>, key: T -> int, id: int): (r: Option<T>)
    ensures r.Some? ==> r.value in s && key(r.value) == id
    ensures r.None? <==> forall k :: 0 <= k < |s| ==> key(s[k]) != id
  {
    if s == [] then None
    else if key(s[0]) == id then Some(s[0])
    else FindByKey(s[1..], key, id)
  }

  /** With distinct keys, the lookup returns exactly the record holding `id`. */
  lemma FindByKeyUnique<T>(s: seq<T>, key: T -> int, id: int)
    requires KeysDistinct(s, key)
    ensures forall e :: e in s && key(e) == id ==> FindByKey(s, key, id) == Some(e)
  {
  }

  // ---------------------------------------------------------------------
  // Filtering

  /** The records satisfying `p`, in store order. */
  function Filter<T>(s: seq<T>, p: T -> bool): (r: seq<T>)
    ensures |r| <= |s|
    ensures forall k :: 0 <= k < |r| ==> r[k] in s && p(r[k])
    ensures forall k :: 0 <= k < |s| && p(s[k]) ==> s[k] in r
  {
    if s == [] then []
    else (if p(s[0]) then [s[0]] else []) + Filter(s[1..], p)
  }

  /** Filtering distributes over concatenation, so it keeps the store order. */
  lemma {:induction false} FilterConcat<T>(a: seq<T>, b: seq<T>, p: T -> bool)
    ensures Filter(a + b, p) == Filter(a, p) + Filter(b, p)
  {
    if a != [] {
      assert (a + b)[0] == a[0];
      assert (a + b)[1..] == a[1..] + b;
      FilterConcat(a[1..], b, p);
    } else {
      assert a + b == b;
    }
  }

  /** A record that fails `p` is dropped; one that passes is kept in place. */
  lemma FilterSingleton<T>(e: T, p: T -> bool)
    ensures Filter([e], p) == if p(e) then [e] else []
  {
  }

  // ---------------------------------------------------------------------
  // Paging

  /** LINQ `Skip(n)`: drop the first `n` records (none when `n <= 0`). */
  function Skip<T>(s: seq<T>, n: int): (r: seq<T>)
    ensures n >= 0 ==> |r| == Max(0, |s| - n)
    ensures n >= 0 ==> forall k :: 0 <= k < |r| ==> r[k] == s[n + k]
  {
    if n <= 0 then s
    else if n >= |s| then []
    else s[n..]
  }

  /** LINQ `Take(n)`: keep at most the first `n` records (none when `n <= 0`). */
  function Take<T>(s: seq<T>, n: int): (r: seq<T>)
    ensures |r| == Min(Max(n, 0), |s|)
    ensures forall k :: 0 <= k < |r| ==> r[k] == s[k]
  {
    if n <= 0 then []
    else if n >= |s| then s
    else s[..n]
  }

  /** The offset of the first record of page `pageIndex` (pages count from 1). */
  function PageStart(pageIndex: int, pageSize: int): (start: int)
    requires pageIndex >= 1 && pageSize >= 1
    ensures start >= 0
  {
    (pageIndex - 1) * pageSize
  }

  /** `Skip((pageIndex - 1) * pageSize).Take(pageSize)`. */
  function Page<T>(s: seq<T>, pageIndex: int, pageSize: int): (r: seq<T>)
    requires pageIndex >= 1 && pageSize >= 1
    ensures |r| == Min(pageSize, Max(0, |s| - PageStart(pageIndex, pageSize)))
    ensures forall k :: 0 <= k < |r| ==> r[k] == s[PageStart(pageIndex, pageSize) + k]
  {
    Take(Skip(s, PageStart(pageIndex, pageSize)), pageSize)
  }

  /** Every page is the contiguous slice of the store it starts at; past the end it is empty. */
  lemma PageIsSlice<T>(s: seq<T>, pageIndex: int, pageSize: int)
    requires pageIndex >= 1 && pageSize >= 1
    ensures PageStart(pageIndex, pageSize) >= |s| ==> Page(s, pageIndex, pageSize) == []
    ensures PageStart(pageIndex, pageSize) <= |s| ==>
      Page(s, pageIndex, pageSize) ==
        s[PageStart(pageIndex, pageSize)..Min(|s|, PageStart(pageIndex, pageSize) + pageSize)]
  {
  }

  /** Pages 1 to `count`, one after the other. */
  function Pages<T>(s: seq<T>, count: nat, pageSize: int): seq<T>
    requires pageSize >= 1
  {
    if count == 0 then [] else Pages(s, count - 1, pageSize) + Page(s, count, pageSize)
  }

  /** Page `count + 1` starts where page `count` ends. */
  lemma NextPageStart(count: int, pageSize: int)
    requires count >= 1 && pageSize >= 1
    ensures PageStart(count + 1, pageSize) == PageStart(count, pageSize) + pageSize
  {
  }

  /** Page `count` is the slice between the starts of pages `count` and `count + 1`. */
  lemma PageBetweenStarts<T>(s: seq<T>, count: int, pageSize: int)
    requires count >= 1 && pageSize >= 1
    ensures Page(s, count, pageSize) ==
      s[Min(|s|, PageStart(count, pageSize))..Min(|s|, PageStart(count + 1, pageSize))]
  {
  }

  /**
    The first `count` pages, read in order, are exactly the records before
    page `count + 1`, that is the first `count * pageSize` records.
   */
  lemma {:induction false} PagesCoverPrefix<T>(s: seq<T>, count: nat, pageSize: int)
    requires pageSize >= 1
    ensures Pages(s, count, pageSize) == s[..Min(|s|, PageStart(count + 1, pageSize))]
  {
    if count > 0 {
      var lo := Min(|s|, PageStart(count, pageSize));
      var hi := Min(|s|, PageStart(count + 1, pageSize));
      assert Pages(s, count - 1, pageSize) == s[..lo] by {
        PagesCoverPrefix(s, count - 1, pageSize);
      }
      assert Page(s, count, pageSize) == s[lo..hi] && lo <= hi by {
        PageBetweenStarts(s, count, pageSize);
        NextPageStart(count, pageSize);
      }
      PrefixThenSlice(s, lo, hi);
    }
  }

  /** A prefix followed by the slice after it is the longer prefix. */
  lemma PrefixThenSlice<T>(s: seq<T>, lo: int, hi: int)
    requires 0 <= lo <= hi <= |s|
    ensures s[..lo] + s[lo..hi] == s[..hi]
  {
  }

  /** Record `i` is found on page `i / pageSize + 1`, at position `i % pageSize`. */
  lemma PageOfIndex<T>(s: seq<T>, i: int, pageSize: int)
    requires 0 <= i < |s| && pageSize >= 1
    ensures i % pageSize < |Page(s, i / pageSize + 1, pageSize)|
    ensures Page(s, i / pageSize + 1, pageSize)[i % pageSize] == s[i]
  {
    var q := i / pageSize;
    assert PageStart(q + 1, pageSize) == q * pageSize;
    assert i == q * pageSize + i % pageSize;
  }

  /** With 25 records, page 2 of size 10 is records 10 to 19. */
  lemma PageScenario<T>(s: seq<T>)
    requires |s| == 25
    ensures Page(s, 2, 10) == s[10..20]
  {
  }
}
