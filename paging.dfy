/**
 * The offset/limit pagination shared by the listing endpoints: the scan
 * skips `(page - 1) * limit` matches, returns at most `limit` of the rest
 * (all of them when `limit` is 0) and counts every match in `total`.
 */
module Paging {

  /** The elements of `s` satisfying `p`, in order. */
  function Filter<T>(s: seq<T>, p: T -> bool): (r: seq<T>)
    ensures |r| <= |s|
    ensures forall x :: x in r ==> x in s && p(x)
  {
    if s == [] then []
    else Filter(s[..|s| - 1], p) + (if p(s[|s| - 1]) then [s[|s| - 1]] else [])
  }

  lemma FilterSnoc<T>(s: seq<T>, x: T, p: T -> bool)
    ensures Filter(s + [x], p) == Filter(s, p) + (if p(x) then [x] else [])
  {
    assert (s + [x])[..|s + [x]| - 1] == s;
  }

  lemma FilterStep<T>(s: seq<T>, i: nat, p: T -> bool)
    requires i < |s|
    ensures Filter(s[..i + 1], p) == Filter(s[..i], p) + (if p(s[i]) then [s[i]] else [])
  {
    assert s[..i + 1] == s[..i] + [s[i]];
    FilterSnoc(s[..i], s[i], p);
  }

  /** Every element of `s` that satisfies `p` is kept. */
  lemma {:induction false} FilterKeeps<T>(s: seq<T>, p: T -> bool, x: T)
    requires x in s && p(x)
    ensures x in Filter(s, p)
  {
    var last := s[|s| - 1];
    if x != last {
      assert x in s[..|s| - 1] by {
        var k :| 0 <= k < |s| && s[k] == x;
        assert k < |s| - 1;
        assert s[..|s| - 1][k] == x;
      }
      FilterKeeps(s[..|s| - 1], p, x);
    }
  }

  function Map<T, U>(s: seq<T>, f: T -> U): (r: seq<U>)
    ensures |r| == |s|
    ensures forall i :: 0 <= i < |s| ==> r[i] == f(s[i])
  {
    seq(|s|, i requires 0 <= i < |s| => f(s[i]))
  }

  lemma MapSnoc<T, U>(s: seq<T>, x: T, f: T -> U)
    ensures Map(s + [x], f) == Map(s, f) + [f(x)]
  {
  }

  /** `page.saturating_sub(1) * limit` */
  function PageOffset(page: nat, limit: nat): nat {
    (if page == 0 then 0 else page - 1) * limit
  }

  /** Skip `offset` elements, then take `limit` of them (all when 0). */
  function Window<T>(s: seq<T>, offset: nat, limit: nat): seq<T> {
    if offset >= |s| then []
    else if limit == 0 || |s| - offset <= limit then s[offset..]
    else s[offset..offset + limit]
  }

  /** A window is a contiguous run of at most `limit` elements starting at `offset`, cut short only by the end of `s`. */
  lemma WindowShape<T>(s: seq<T>, offset: nat, limit: nat)
    ensures var r := Window(s, offset, limit);
            && (limit > 0 ==> |r| <= limit)
            && (offset >= |s| ==> r == [])
            && (offset < |s| ==> offset + |r| <= |s| && r == s[offset..offset + |r|])
            && (offset < |s| && limit > 0 && |s| - offset > limit ==> |r| == limit)
            && (offset < |s| && (limit == 0 || |s| - offset <= limit) ==> r == s[offset..])
  {
  }

  /** How the window grows when the scan meets one more match. */
  lemma WindowSnoc<T>(s: seq<T>, x: T, offset: nat, limit: nat)
    ensures Window(s + [x], offset, limit)
         == if |s| >= offset && (limit == 0 || |s| - offset < limit)
            then Window(s, offset, limit) + [x]
            else Window(s, offset, limit)
  {
    var t := s + [x];
    if |s| >= offset && (limit == 0 || |s| - offset < limit) {
      assert t[offset..] == (if offset < |s| then s[offset..] else []) + [x];
    } else if |s| >= offset && offset < |s| {
      assert t[offset..offset + limit] == s[offset..offset + limit];
    }
  }

  /**
   * One more match in a paged scan: it is returned when no match is left
   * to skip and the page is not full, and otherwise skipped or dropped.
   */
  lemma PageStep<T>(matches: seq<T>, x: T, start: nat, limit: nat, offset: nat, items: seq<T>)
    requires offset == if |matches| >= start then 0 else start - |matches|
    requires items == Window(matches, start, limit)
    ensures offset == 0 && (limit == 0 || |items| < limit) ==> Window(matches + [x], start, limit) == items + [x]
    ensures !(offset == 0 && (limit == 0 || |items| < limit)) ==> Window(matches + [x], start, limit) == items
    ensures offset > 0 ==> offset - 1 == if |matches| + 1 >= start then 0 else start - (|matches| + 1)
    ensures offset == 0 ==> |matches| + 1 >= start
  {
    WindowSnoc(matches, x, start, limit);
    if offset == 0 && |matches| >= start && limit > 0 && |items| >= limit {
      assert |matches| - start >= limit;
    }
  }

  /**
   * The listing loop of the management endpoints: `offset` counts down the
   * matches to skip, `returned` the items pushed so far, `total` every match.
   */
  method Paginate<T, U>(entries: seq<T>, matches: T -> bool, project: T -> U, page: nat, limit: nat)
    returns (items: seq<U>, total: nat)
    ensures total == |Filter(entries, matches)|
    ensures items == Map(Window(Filter(entries, matches), PageOffset(page, limit), limit), project)
  {
    var offset := PageOffset(page, limit);
    ghost var start := offset;
    ghost var hits: seq<T> := [];
    var returned := 0;
    items, total := [], 0;
    var i := 0;
    while i < |entries|
      invariant 0 <= i <= |entries|
      invariant hits == Filter(entries[..i], matches)
      invariant total == |hits|
      invariant offset == if total >= start then 0 else start - total
      invariant items == Map(Window(hits, start, limit), project)
      invariant returned == |items|
    {
      var e := entries[i];
      FilterStep(entries, i, matches);
      if matches(e) {
        PageStep(hits, e, start, limit, offset, Window(hits, start, limit));
        if offset == 0 {
          if limit == 0 || returned < limit {
            MapSnoc(Window(hits, start, limit), e, project);
            items := items + [project(e)];
            returned := returned + 1;
          }
        } else {
          offset := offset - 1;
        }
        total := total + 1;
        hits := hits + [e];
      }
      i := i + 1;
    }
    assert entries[..i] == entries;
  }
}
