/**
 * The configuration store the settings endpoints work on: a string map
 * kept as a sequence of (key, value) entries in strictly increasing key
 * order, with the store primitives `get`, `set`, `clear`, `clear_prefix`
 * and `list` stated as functions on that sequence.
 */
module ConfigStore {
  import opened Wrappers
  import opened Text
  import opened Paging

  type Entry = (string, string)

  /** Strict lexicographic order on strings, character by character (the order of Rust's `String`). */
  predicate Below(a: string, b: string)
    decreases |a|
  {
    |b| > 0 && (|a| == 0 || a[0] < b[0] || (a[0] == b[0] && Below(a[1..], b[1..])))
  }

  lemma {:induction false} BelowIrreflexive(a: string)
    ensures !Below(a, a)
    decreases |a|
  {
    if |a| > 0 {
      BelowIrreflexive(a[1..]);
    }
  }

  lemma {:induction false} BelowTransitive(a: string, b: string, c: string)
    requires Below(a, b) && Below(b, c)
    ensures Below(a, c)
    decreases |a|
  {
    if |a| > 0 && a[0] == b[0] && b[0] == c[0] {
      BelowTransitive(a[1..], b[1..], c[1..]);
    }
  }

  lemma {:induction false} BelowTotal(a: string, b: string)
    ensures a == b || Below(a, b) || Below(b, a)
    decreases |a|
  {
    if |a| > 0 && |b| > 0 && a[0] == b[0] {
      BelowTotal(a[1..], b[1..]);
      if a[1..] == b[1..] {
        assert a == [a[0]] + a[1..] && b == [b[0]] + b[1..];
      }
    }
  }

  /** A key ordered between two keys with a common prefix has that prefix too. */
  lemma {:induction false} BetweenSharesPrefix(a: string, b: string, c: string, p: string)
    requires Below(a, b) && Below(b, c)
    requires StartsWith(a, p) && StartsWith(c, p)
    ensures StartsWith(b, p)
    decreases |p|
  {
    if |p| > 0 {
      assert a[0] == p[0] && c[0] == p[0];
      assert a[1..][..|p| - 1] == a[..|p|][1..];
      assert c[1..][..|p| - 1] == c[..|p|][1..];
      BetweenSharesPrefix(a[1..], b[1..], c[1..], p[1..]);
      assert b == [b[0]] + b[1..];
      assert b[..|p|] == [b[0]] + b[1..][..|p| - 1];
    }
  }

  /** Removing a common prefix keeps the order of two keys. */
  lemma {:induction false} StripKeepsOrder(a: string, b: string, p: string)
    requires StartsWith(a, p) && StartsWith(b, p) && Below(a, b)
    ensures Below(a[|p|..], b[|p|..])
    decreases |p|
  {
    if |p| > 0 {
      assert a[1..][..|p| - 1] == a[..|p|][1..];
      assert b[1..][..|p| - 1] == b[..|p|][1..];
      assert a[1..][|p| - 1..] == a[|p|..];
      assert b[1..][|p| - 1..] == b[|p|..];
      StripKeepsOrder(a[1..], b[1..], p[1..]);
    }
  }

  /** Keys strictly increase along the sequence. */
  predicate Sorted(s: seq<Entry>) {
    forall i, j :: 0 <= i < j < |s| ==> Below(s[i].0, s[j].0)
  }

  /** `get`: the value stored under `key`. */
  function Get(s: seq<Entry>, key: string): Option<string> {
    if s == [] then None
    else if s[|s| - 1].0 == key then Some(s[|s| - 1].1)
    else Get(s[..|s| - 1], key)
  }

  lemma {:induction false} GetNone(s: seq<Entry>, key: string)
    ensures Get(s, key).None? <==> forall i :: 0 <= i < |s| ==> s[i].0 != key
  {
    if s != [] {
      GetNone(s[..|s| - 1], key);
    }
  }

  lemma {:induction false} GetSome(s: seq<Entry>, key: string)
    requires Get(s, key).Some?
    ensures (key, Get(s, key).value) in s
  {
    if s[|s| - 1].0 != key {
      GetSome(s[..|s| - 1], key);
    }
  }

  /** In a sorted store every entry is what `get` finds under its key. */
  lemma {:induction false} GetAt(s: seq<Entry>, i: nat)
    requires Sorted(s) && i < |s|
    ensures Get(s, s[i].0) == Some(s[i].1)
  {
    if i < |s| - 1 {
      assert Below(s[i].0, s[|s| - 1].0);
      BelowIrreflexive(s[i].0);
      GetAt(s[..|s| - 1], i);
    }
  }

  lemma GetIn(s: seq<Entry>, e: Entry)
    requires Sorted(s) && e in s
    ensures Get(s, e.0) == Some(e.1)
  {
    var i :| 0 <= i < |s| && s[i] == e;
    GetAt(s, i);
  }

  lemma SortedSnoc(s: seq<Entry>, e: Entry)
    ensures Sorted(s + [e]) <==> Sorted(s) && forall i :: 0 <= i < |s| ==> Below(s[i].0, e.0)
  {
    var t := s + [e];
    if Sorted(s) && forall i :: 0 <= i < |s| ==> Below(s[i].0, e.0) {
      forall i, j | 0 <= i < j < |t|
        ensures Below(t[i].0, t[j].0)
      {
        if j < |s| {
          assert t[i] == s[i] && t[j] == s[j];
        }
      }
    }
    if Sorted(t) {
      forall i, j | 0 <= i < j < |s|
        ensures Below(s[i].0, s[j].0)
      {
        assert t[i] == s[i] && t[j] == s[j];
      }
      forall i | 0 <= i < |s|
        ensures Below(s[i].0, e.0)
      {
        assert t[i] == s[i] && t[|s|] == e;
      }
    }
  }

  /** A subsequence of a sorted store is sorted. */
  lemma {:induction false} FilterSorted(s: seq<Entry>, keep: Entry -> bool)
    requires Sorted(s)
    ensures Sorted(Filter(s, keep))
  {
    if s != [] {
      var init, last := s[..|s| - 1], s[|s| - 1];
      assert Sorted(init) by {
        forall i, j | 0 <= i < j < |init|
          ensures Below(init[i].0, init[j].0)
        {
          assert init[i] == s[i] && init[j] == s[j];
        }
      }
      FilterSorted(init, keep);
      var r := Filter(init, keep);
      if keep(last) {
        forall i | 0 <= i < |r|
          ensures Below(r[i].0, last.0)
        {
          assert r[i] in r;
          var k :| 0 <= k < |init| && init[k] == r[i];
          assert s[k] == r[i];
        }
        SortedSnoc(r, last);
      }
    }
  }

  /** `set` of one entry: replace the value under `key`, or insert it in key order. */
  function Put(s: seq<Entry>, key: string, value: string): (r: seq<Entry>)
    ensures |r| > 0
  {
    if s == [] then [(key, value)]
    else if s[|s| - 1].0 == key then s[..|s| - 1] + [(key, value)]
    else if Below(s[|s| - 1].0, key) then s + [(key, value)]
    else Put(s[..|s| - 1], key, value) + [s[|s| - 1]]
  }

  lemma {:induction false} PutGet(s: seq<Entry>, key: string, value: string, x: string)
    ensures Get(Put(s, key, value), x) == if x == key then Some(value) else Get(s, x)
  {
    if s != [] && s[|s| - 1].0 != key && !Below(s[|s| - 1].0, key) {
      PutGet(s[..|s| - 1], key, value, x);
    }
  }

  /** The keys `Put` leaves in the store: the old ones and `key`. */
  lemma {:induction false} PutKeys(s: seq<Entry>, key: string, value: string, e: Entry)
    requires e in Put(s, key, value)
    ensures e.0 == key || e in s
  {
    if s != [] && s[|s| - 1].0 != key && !Below(s[|s| - 1].0, key) {
      var init := s[..|s| - 1];
      if e != s[|s| - 1] {
        assert e in Put(init, key, value);
        PutKeys(init, key, value, e);
      }
    }
  }

  lemma {:induction false} PutSorted(s: seq<Entry>, key: string, value: string)
    requires Sorted(s)
    ensures Sorted(Put(s, key, value))
  {
    if s != [] {
      var init, last := s[..|s| - 1], s[|s| - 1];
      assert s == init + [last];
      SortedSnoc(init, last);
      if last.0 == key {
        SortedSnoc(init, (key, value));
      } else if Below(last.0, key) {
        forall i | 0 <= i < |s|
          ensures Below(s[i].0, key)
        {
          if i < |s| - 1 {
            BelowTransitive(s[i].0, last.0, key);
          }
        }
        SortedSnoc(s, (key, value));
      } else {
        BelowTotal(last.0, key);
        PutSorted(init, key, value);
        var r := Put(init, key, value);
        forall i | 0 <= i < |r|
          ensures Below(r[i].0, last.0)
        {
          assert r[i] in r;
          PutKeys(init, key, value, r[i]);
          if r[i].0 != key {
            var k :| 0 <= k < |init| && init[k] == r[i];
          }
        }
        SortedSnoc(r, last);
      }
    }
  }

  /** `set` of several entries, one after the other. */
  function PutAll(s: seq<Entry>, entries: seq<Entry>): seq<Entry> {
    if entries == [] then s
    else
      var last := entries[|entries| - 1];
      Put(PutAll(s, entries[..|entries| - 1]), last.0, last.1)
  }

  lemma {:induction false} PutAllSorted(s: seq<Entry>, entries: seq<Entry>)
    requires Sorted(s)
    ensures Sorted(PutAll(s, entries))
  {
    if entries != [] {
      PutAllSorted(s, entries[..|entries| - 1]);
      var last := entries[|entries| - 1];
      PutSorted(PutAll(s, entries[..|entries| - 1]), last.0, last.1);
    }
  }

  /** A key no written entry names keeps its value. */
  lemma {:induction false} PutAllOthers(s: seq<Entry>, entries: seq<Entry>, x: string)
    requires forall i :: 0 <= i < |entries| ==> entries[i].0 != x
    ensures Get(PutAll(s, entries), x) == Get(s, x)
  {
    if entries != [] {
      var last := entries[|entries| - 1];
      PutAllOthers(s, entries[..|entries| - 1], x);
      PutGet(PutAll(s, entries[..|entries| - 1]), last.0, last.1, x);
    }
  }

  /** A written key holds the value of its last write. */
  lemma {:induction false} PutAllLast(s: seq<Entry>, entries: seq<Entry>, i: nat)
    requires i < |entries|
    requires forall j :: i < j < |entries| ==> entries[j].0 != entries[i].0
    ensures Get(PutAll(s, entries), entries[i].0) == Some(entries[i].1)
  {
    var init, last := entries[..|entries| - 1], entries[|entries| - 1];
    PutGet(PutAll(s, init), last.0, last.1, entries[i].0);
    if i < |entries| - 1 {
      PutAllLast(s, init, i);
    }
  }

  /** The entries kept by a filter, looked up by key. */
  lemma FilterGet(s: seq<Entry>, keep: Entry -> bool, x: string)
    requires Sorted(s)
    ensures Get(Filter(s, keep), x) == if Get(s, x).Some? && keep((x, Get(s, x).value)) then Get(s, x) else None
  {
    var r := Filter(s, keep);
    FilterSorted(s, keep);
    if Get(s, x).Some? && keep((x, Get(s, x).value)) {
      GetSome(s, x);
      FilterKeeps(s, keep, (x, Get(s, x).value));
      GetIn(r, (x, Get(s, x).value));
    } else {
      forall i | 0 <= i < |r|
        ensures r[i].0 != x
      {
        assert r[i] in r;
        GetIn(s, r[i]);
      }
      GetNone(r, x);
    }
  }

  /** `clear`: remove one key. */
  function Clear(s: seq<Entry>, key: string): seq<Entry> {
    Filter(s, (e: Entry) => e.0 != key)
  }

  /** `clear` of several keys, one after the other. */
  function ClearAll(s: seq<Entry>, keys: seq<string>): seq<Entry> {
    if keys == [] then s else Clear(ClearAll(s, keys[..|keys| - 1]), keys[|keys| - 1])
  }

  lemma ClearAllSnoc(s: seq<Entry>, keys: seq<string>, key: string)
    ensures ClearAll(s, keys + [key]) == Clear(ClearAll(s, keys), key)
  {
    assert (keys + [key])[..|keys|] == keys;
  }

  lemma {:induction false} ClearAllGet(s: seq<Entry>, keys: seq<string>, x: string)
    requires Sorted(s)
    ensures Sorted(ClearAll(s, keys))
    ensures Get(ClearAll(s, keys), x) == if x in keys then None else Get(s, x)
  {
    if keys != [] {
      var init := keys[..|keys| - 1];
      ClearAllGet(s, init, x);
      FilterSorted(ClearAll(s, init), (e: Entry) => e.0 != keys[|keys| - 1]);
      FilterGet(ClearAll(s, init), (e: Entry) => e.0 != keys[|keys| - 1], x);
      assert x in keys <==> x in init || x == keys[|keys| - 1];
    }
  }

  /** `clear_prefix`: remove every key that starts with `prefix`. */
  function ClearPrefix(s: seq<Entry>, prefix: string): seq<Entry> {
    Filter(s, (e: Entry) => !StartsWith(e.0, prefix))
  }

  lemma ClearPrefixGet(s: seq<Entry>, prefix: string, x: string)
    requires Sorted(s)
    ensures Sorted(ClearPrefix(s, prefix))
    ensures Get(ClearPrefix(s, prefix), x) == if StartsWith(x, prefix) then None else Get(s, x)
  {
    FilterSorted(s, (e: Entry) => !StartsWith(e.0, prefix));
    FilterGet(s, (e: Entry) => !StartsWith(e.0, prefix), x);
  }

  function Under(prefix: string): Entry -> bool {
    (e: Entry) => StartsWith(e.0, prefix)
  }

  function StripKey(prefix: string): Entry -> Entry {
    (e: Entry) => if StartsWith(e.0, prefix) then (e.0[|prefix|..], e.1) else e
  }

  /** `list`: the entries under `prefix` in key order, with the prefix removed when `strip` is set. */
  function List(s: seq<Entry>, prefix: string, strip: bool): seq<Entry> {
    if strip then Map(Filter(s, Under(prefix)), StripKey(prefix)) else Filter(s, Under(prefix))
  }

  lemma ListSorted(s: seq<Entry>, prefix: string, strip: bool)
    requires Sorted(s)
    ensures Sorted(List(s, prefix, strip))
  {
    FilterSorted(s, Under(prefix));
    var f := Filter(s, Under(prefix));
    if strip {
      var r := Map(f, StripKey(prefix));
      forall i, j | 0 <= i < j < |r|
        ensures Below(r[i].0, r[j].0)
      {
        assert f[i] in f && f[j] in f;
        StripKeepsOrder(f[i].0, f[j].0, prefix);
      }
    }
  }
}
