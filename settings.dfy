/**
 * The settings management endpoints: listing the configuration as flat
 * entries or grouped into records, a paged raw listing, and applying a
 * batch of Delete/Clear/Insert changes to the store.
 */
module Settings {
  import opened Wrappers
  import opened Text
  import opened Paging
  import opened ConfigStore

  /** A listed record, or a flat `{_id, _value}` item. */
  type Record = map<string, string>

  /** The `prefix` parameter: a `.` is appended unless it already ends with one. */
  function NormalizePrefix(p: Option<string>): (r: string)
    ensures p.None? ==> r == ""
    ensures p.Some? ==> EndsWith(r, ".") && (r == p.value || r == p.value + ".")
    ensures p.Some? && EndsWith(p.value, ".") ==> r == p.value
  {
    match p
    case None => ""
    case Some(s) =>
      if EndsWith(s, ".") then s
      else
        assert (s + ".")[|s + "."| - 1..] == ".";
        s + "."
  }

  /** The `suffix` parameter: a `.` is prepended unless it already starts with one. */
  function NormalizeSuffix(p: Option<string>): (r: string)
    ensures p.None? ==> r == ""
    ensures p.Some? ==> StartsWith(r, ".") && (r == p.value || r == "." + p.value)
    ensures p.Some? && StartsWith(p.value, ".") ==> r == p.value
  {
    match p
    case None => ""
    case Some(s) => if StartsWith(s, ".") then s else "." + s
  }

  lemma NormalizePrefixIdempotent(p: Option<string>)
    ensures NormalizePrefix(Some(NormalizePrefix(p))) == NormalizePrefix(p) || p.None?
  {
  }

  lemma NormalizeSuffixIdempotent(p: Option<string>)
    ensures NormalizeSuffix(Some(NormalizeSuffix(p))) == NormalizeSuffix(p) || p.None?
  {
  }

  // ---------------------------------------------------------------
  // Flat listing
  // ---------------------------------------------------------------

  /** An entry matches when the filter is empty or occurs in its lower-cased key or value. */
  function FlatHit(filter: string): Entry -> bool {
    (e: Entry) => filter == "" || Contains(Lower(e.0), filter) || Contains(Lower(e.1), filter)
  }

  function StripOr(k: string, prefix: string): string {
    if StartsWith(k, prefix) then k[|prefix|..] else k
  }

  /** The flat item of an entry, its id without the prefix when it carries one. */
  function FlatItem(prefix: string): Entry -> Record {
    (e: Entry) => map["_id" := StripOr(e.0, prefix), "_value" := e.1]
  }

  // ---------------------------------------------------------------
  // Grouped listing
  // ---------------------------------------------------------------

  /** A key names a record when it ends with the suffix and something precedes the suffix. */
  function IsRecordKey(suffix: string): Entry -> bool {
    (e: Entry) => EndsWith(e.0, suffix) && |e.0| > |suffix|
  }

  /** The record id of a key: the key without its suffix. */
  function RecordId(suffix: string): Entry -> string {
    (e: Entry) => if |e.0| >= |suffix| then e.0[..|e.0| - |suffix|] else e.0
  }

  predicate FieldWanted(field: Option<string>, k: string) {
    field.None? || field.value == k
  }

  /** The record being filled, and whether the scan has left its block of keys. */
  datatype Gather = Gather(record: Record, stopped: bool)

  /**
   * The record of `id` as the scan builds it: `_id`, then every wanted
   * field under `id.`; the scan stops at the first key outside `id.` once
   * the record holds a field.
   */
  function Gathered(id: string, settings: seq<Entry>, field: Option<string>): Gather {
    if settings == [] then Gather(map["_id" := id], false)
    else
      var g := Gathered(id, settings[..|settings| - 1], field);
      var e := settings[|settings| - 1];
      var p := id + ".";
      if g.stopped then g
      else if StartsWith(e.0, p) then
        if FieldWanted(field, e.0[|p|..]) then Gather(g.record[e.0[|p|..] := e.1], false) else g
      else if |g.record| > 1 then Gather(g.record, true)
      else g
  }

  /** The record of `id` with every wanted field under `id.`, wherever it stands in the scan. */
  function Fields(id: string, settings: seq<Entry>, field: Option<string>): Record {
    if settings == [] then map["_id" := id]
    else
      var r := Fields(id, settings[..|settings| - 1], field);
      var e := settings[|settings| - 1];
      var p := id + ".";
      if StartsWith(e.0, p) && FieldWanted(field, e.0[|p|..]) then r[e.0[|p|..] := e.1] else r
  }

  /** Fill the record of one id from the listed settings. */
  method GatherRecord(id: string, settings: seq<Entry>, field: Option<string>) returns (record: Record)
    ensures record == Gathered(id, settings, field).record
  {
    record := map["_id" := id];
    var p := id + ".";
    var i := 0;
    while i < |settings|
      invariant 0 <= i <= |settings|
      invariant Gathered(id, settings[..i], field) == Gather(record, false)
    {
      var (k, v) := settings[i];
      assert settings[..i + 1][..i] == settings[..i];
      if StartsWith(k, p) {
        if FieldWanted(field, k[|p|..]) {
          record := record[k[|p|..] := v];
        }
      } else if |record| > 1 {
        GatheredStopped(id, settings, field, i + 1);
        return;
      }
      i := i + 1;
    }
    assert settings[..i] == settings;
  }

  lemma {:induction false} GatheredStopped(id: string, settings: seq<Entry>, field: Option<string>, n: nat)
    requires n <= |settings| && Gathered(id, settings[..n], field).stopped
    ensures Gathered(id, settings, field) == Gathered(id, settings[..n], field)
    decreases |settings| - n
  {
    if n < |settings| {
      assert settings[..n + 1][..n] == settings[..n];
      GatheredStopped(id, settings, field, n + 1);
    } else {
      assert settings[..n] == settings;
    }
  }

  lemma {:induction false} FieldsOutside(id: string, settings: seq<Entry>, field: Option<string>)
    requires forall i :: 0 <= i < |settings| ==> !StartsWith(settings[i].0, id + ".")
    ensures Fields(id, settings, field) == map["_id" := id]
  {
    if settings != [] {
      FieldsOutside(id, settings[..|settings| - 1], field);
    }
  }

  /**
   * The stopping rule loses nothing on a sorted listing: the keys under
   * `id.` form one block, and once the scan has left it none follows.
   */
  lemma {:induction false} GatheredAll(id: string, settings: seq<Entry>, field: Option<string>)
    requires Sorted(settings)
    ensures Gathered(id, settings, field).record == Fields(id, settings, field)
    ensures Gathered(id, settings, field).stopped ==>
      exists i, j :: 0 <= i < j < |settings| && StartsWith(settings[i].0, id + ".") && !StartsWith(settings[j].0, id + ".")
  {
    if settings != [] {
      var init, e, p := settings[..|settings| - 1], settings[|settings| - 1], id + ".";
      assert settings == init + [e];
      SortedSnoc(init, e);
      GatheredAll(id, init, field);
      var g := Gathered(id, init, field);
      if g.stopped {
        var i, j :| 0 <= i < j < |init| && StartsWith(init[i].0, p) && !StartsWith(init[j].0, p);
        assert !StartsWith(e.0, p) by {
          if StartsWith(e.0, p) {
            BetweenSharesPrefix(init[i].0, init[j].0, e.0, p);
          }
        }
      } else if !StartsWith(e.0, p) && |g.record| > 1 {
        assert exists i :: 0 <= i < |init| && StartsWith(init[i].0, p) by {
          if forall i :: 0 <= i < |init| ==> !StartsWith(init[i].0, p) {
            FieldsOutside(id, init, field);
          }
        }
        var i :| 0 <= i < |init| && StartsWith(init[i].0, p);
        assert settings[i] == init[i] && settings[|settings| - 1] == e;
      }
    }
  }

  /** What a complete record holds: `_id`, and each wanted field under `id.` with its value. */
  lemma {:induction false} FieldsMeaning(id: string, settings: seq<Entry>, field: Option<string>, k: nat)
    requires Sorted(settings) && k < |settings|
    requires StartsWith(settings[k].0, id + ".") && FieldWanted(field, settings[k].0[|id + "."|..])
    ensures settings[k].0[|id + "."|..] in Fields(id, settings, field)
    ensures Fields(id, settings, field)[settings[k].0[|id + "."|..]] == settings[k].1
  {
    var init, e, p := settings[..|settings| - 1], settings[|settings| - 1], id + ".";
    assert settings == init + [e];
    SortedSnoc(init, e);
    if k < |settings| - 1 {
      assert init[k] == settings[k];
      FieldsMeaning(id, init, field, k);
      if StartsWith(e.0, p) && e.0[|p|..] == settings[k].0[|p|..] {
        assert e.0 == p + e.0[|p|..] && settings[k].0 == p + settings[k].0[|p|..];
        BelowIrreflexive(e.0);
      }
    }
  }

  /** Every key of a complete record is `_id` or a field some listed key contributes. */
  lemma {:induction false} FieldsOnlyListed(id: string, settings: seq<Entry>, field: Option<string>, x: string)
    requires x in Fields(id, settings, field)
    ensures x == "_id" || exists k :: 0 <= k < |settings| && StartsWith(settings[k].0, id + ".") && settings[k].0[|id + "."|..] == x
  {
    if settings != [] {
      var init, e, p := settings[..|settings| - 1], settings[|settings| - 1], id + ".";
      if !(StartsWith(e.0, p) && FieldWanted(field, e.0[|p|..]) && e.0[|p|..] == x) {
        FieldsOnlyListed(id, init, field, x);
        if x != "_id" {
          var k :| 0 <= k < |init| && StartsWith(init[k].0, p) && init[k].0[|p|..] == x;
          assert settings[k] == init[k];
        }
      }
    }
  }

  /** A record matches the filter when one of its values, lower-cased, contains it. */
  predicate RecordMatches(filter: string, r: Record) {
    exists k | k in r :: Contains(Lower(r[k]), filter)
  }

  function RecordHit(filter: string): Record -> bool {
    (r: Record) => RecordMatches(filter, r)
  }

  function Records(ids: seq<string>, settings: seq<Entry>, field: Option<string>): seq<Record> {
    Map(ids, (id: string) => Gathered(id, settings, field).record)
  }

  /** The `group` endpoint: its `total` and its items. */
  function GroupView(entries: seq<Entry>, prefixParam: Option<string>, suffixParam: Option<string>,
                     field: Option<string>, filterParam: Option<string>, page: nat, limit: nat): (nat, seq<Record>)
  {
    var prefix := NormalizePrefix(prefixParam);
    var suffix := NormalizeSuffix(suffixParam);
    var filter := Lower(filterParam.GetOr(""));
    var settings := List(entries, prefix, true);
    if suffix != "" && settings != [] then RecordGroup(settings, suffix, field, filter, page, limit)
    else
      var hits := Filter(settings, FlatHit(filter));
      (|hits|, Map(Window(hits, PageOffset(page, limit), limit), FlatItem(prefix)))
  }

  /**
   * The grouped listing: a record per key ending in `suffix`; without a filter
   * only the page's records are built, with one every record is built and the
   * page is cut from those that match.
   */
  function RecordGroup(settings: seq<Entry>, suffix: string, field: Option<string>, filter: string,
                       page: nat, limit: nat): (nat, seq<Record>)
  {
    var named := Filter(settings, IsRecordKey(suffix));
    var offset := PageOffset(page, limit);
    if filter == "" then
      (|named|, Records(Map(Window(named, offset, limit), RecordId(suffix)), settings, field))
    else
      var hits := Filter(Records(Map(named, RecordId(suffix)), settings, field), RecordHit(filter));
      (|hits|, Window(hits, offset, limit))
  }

  /** The `group` endpoint over the store's entries. */
  method Group(entries: seq<Entry>, prefixParam: Option<string>, suffixParam: Option<string>,
               field: Option<string>, filterParam: Option<string>, page: nat, limit: nat)
    returns (total: nat, items: seq<Record>)
    ensures (total, items) == GroupView(entries, prefixParam, suffixParam, field, filterParam, page, limit)
  {
    var prefix := NormalizePrefix(prefixParam);
    var suffix := NormalizeSuffix(suffixParam);
    var filter := Lower(filterParam.GetOr(""));
    var settings := List(entries, prefix, true);
    if suffix != "" && settings != [] {
      total, items := GroupRecords(settings, suffix, field, filter, page, limit);
    } else {
      items, total := Paginate(settings, FlatHit(filter), FlatItem(prefix), page, limit);
    }
  }

  /** The grouped branch of `group`. */
  method GroupRecords(settings: seq<Entry>, suffix: string, field: Option<string>, filter: string,
                      page: nat, limit: nat) returns (total: nat, items: seq<Record>)
    ensures (total, items) == RecordGroup(settings, suffix, field, filter, page, limit)
  {
    var ids: seq<string>;
    if filter == "" {
      ids, total := Paginate(settings, IsRecordKey(suffix), RecordId(suffix), page, limit);
    } else {
      // With a filter every record id is kept: page 0 with limit 0 is the whole scan.
      ids, total := Paginate(settings, IsRecordKey(suffix), RecordId(suffix), 0, 0);
    }
    var records := AllRecords(ids, settings, field);
    if filter == "" {
      items := records;
    } else {
      // Every record is built and tested; the page is cut from the matching ones.
      items, total := Paginate(records, RecordHit(filter), (r: Record) => r, page, limit);
      ghost var page' := Window(Filter(records, RecordHit(filter)), PageOffset(page, limit), limit);
      assert items == page' by {
        assert |items| == |page'|;
        forall k | 0 <= k < |items| ensures items[k] == page'[k] { }
      }
    }
  }

  /** The records loop of the `group` endpoint: the record of every id, in order. */
  method AllRecords(ids: seq<string>, settings: seq<Entry>, field: Option<string>) returns (items: seq<Record>)
    ensures items == Records(ids, settings, field)
  {
    items := [];
    var i := 0;
    while i < |ids|
      invariant 0 <= i <= |ids|
      invariant items == Records(ids[..i], settings, field)
    {
      var record := GatherRecord(ids[i], settings, field);
      RecordsSnoc(ids, i, settings, field);
      items := items + [record];
      i := i + 1;
    }
    assert ids[..i] == ids;
  }

  lemma RecordsSnoc(ids: seq<string>, i: nat, settings: seq<Entry>, field: Option<string>)
    requires i < |ids|
    ensures Records(ids[..i + 1], settings, field) == Records(ids[..i], settings, field) + [Gathered(ids[i], settings, field).record]
  {
    assert ids[..i + 1] == ids[..i] + [ids[i]];
    MapSnoc(ids[..i], ids[i], (id: string) => Gathered(id, settings, field).record);
  }

  /** On a sorted store each grouped record holds every wanted field of its id. */
  lemma GroupedRecordComplete(entries: seq<Entry>, prefix: string, id: string, field: Option<string>)
    requires Sorted(entries)
    ensures Gathered(id, List(entries, prefix, true), field).record == Fields(id, List(entries, prefix, true), field)
  {
    ListSorted(entries, prefix, true);
    GatheredAll(id, List(entries, prefix, true), field);
  }

  lemma {:induction false} FilterEverything<T>(s: seq<T>, p: T -> bool)
    requires forall x :: x in s ==> p(x)
    ensures Filter(s, p) == s
  {
    if s != [] {
      FilterEverything(s[..|s| - 1], p);
      assert s == s[..|s| - 1] + [s[|s| - 1]];
    }
  }

  /** Without a filter the flat listing counts every setting under the prefix. */
  lemma UnfilteredFlatCountsAll(entries: seq<Entry>, prefixParam: Option<string>, field: Option<string>,
                                page: nat, limit: nat)
    ensures GroupView(entries, prefixParam, None, field, None, page, limit).0
         == |List(entries, NormalizePrefix(prefixParam), true)|
  {
    FilterEverything(List(entries, NormalizePrefix(prefixParam), true), FlatHit(""));
  }

  // ---------------------------------------------------------------
  // The `list` endpoint
  // ---------------------------------------------------------------

  /** The `list` endpoint: every setting under the prefix counts; `limit` of them are returned after skipping the earlier pages. */
  function ListPage(entries: seq<Entry>, prefixParam: Option<string>, page: nat, limit: nat): (r: (nat, seq<Entry>))
    ensures r.0 == |List(entries, NormalizePrefix(prefixParam), true)|
    ensures r.1 == Window(List(entries, NormalizePrefix(prefixParam), true), PageOffset(page, limit), limit)
  {
    var settings := List(entries, NormalizePrefix(prefixParam), true);
    var total := |settings|;
    var offset := PageOffset(page, limit);
    var rest := if offset < total then settings[offset..] else [];
    var take := if limit == 0 then total else limit;
    (total, if take < |rest| then rest[..take] else rest)
  }

  /** Every listed item is a stored setting under the prefix, shown without the prefix. */
  lemma ListPageItemsStored(entries: seq<Entry>, prefixParam: Option<string>, page: nat, limit: nat, e: Entry)
    requires Sorted(entries)
    requires e in ListPage(entries, prefixParam, page, limit).1
    ensures Get(entries, NormalizePrefix(prefixParam) + e.0) == Some(e.1)
  {
    var prefix := NormalizePrefix(prefixParam);
    var under := Filter(entries, Under(prefix));
    var listed := List(entries, prefix, true);
    var w := Window(listed, PageOffset(page, limit), limit);
    var k :| 0 <= k < |w| && w[k] == e;
    var off := PageOffset(page, limit);
    assert e == listed[off + k];
    assert under[off + k] in under;
    assert under[off + k].0 == prefix + e.0;
    GetIn(entries, under[off + k]);
  }

  // ---------------------------------------------------------------
  // Applying changes
  // ---------------------------------------------------------------

  datatype Change =
    /** Remove each of the keys. */
    | Delete(keys: seq<string>)
    /** Remove the keys under `prefix`, or only those matching `filter`. */
    | ClearKeys(clearPrefix: string, filter: Option<string>)
    /** Store the values, under `prefix.` when a prefix is given. */
    | Insert(prefix: Option<string>, values: seq<Entry>, assertEmpty: bool)

  datatype SettingsError = AssertFailed

  /** The stored key of an inserted value. */
  function InsertKey(prefix: Option<string>): Entry -> Entry {
    (e: Entry) => (if prefix.Some? then prefix.value + "." + e.0 else e.0, e.1)
  }

  /** A listed entry is cleared when its lower-cased value or key contains the filter as given. */
  function ClearHit(filter: string): Entry -> bool {
    (e: Entry) => Contains(Lower(e.1), filter) || Contains(Lower(e.0), filter)
  }

  function KeyOf(e: Entry): string {
    e.0
  }

  /** The keys a filtered clear removes, in listing order. */
  function HitKeys(s: seq<Entry>, prefix: string, filter: string): seq<string> {
    Map(Filter(List(s, prefix, false), ClearHit(filter)), KeyOf)
  }

  /** The assertion of an Insert fails when something is stored under `prefix.`, or, without a prefix, under the first key. */
  predicate AssertFails(s: seq<Entry>, prefix: Option<string>, values: seq<Entry>) {
    match prefix
    case Some(p) => List(s, p + ".", true) != []
    case None => values != [] && Get(s, values[0].0).Some?
  }

  /** The store after one change, or None when its assertion fails. */
  function Changed(s: seq<Entry>, c: Change): (r: Option<seq<Entry>>)
    ensures r.None? <==> c.Insert? && c.assertEmpty && AssertFails(s, c.prefix, c.values)
  {
    match c
    case Delete(keys) => Some(ClearAll(s, keys))
    case ClearKeys(prefix, filter) =>
      if filter.Some? then Some(ClearAll(s, HitKeys(s, prefix, filter.value))) else Some(ClearPrefix(s, prefix))
    case Insert(prefix, values, assertEmpty) =>
      if assertEmpty && AssertFails(s, prefix, values) then None
      else Some(PutAll(s, Map(values, InsertKey(prefix))))
  }

  /** The store after the changes in order, and whether all of them applied; a failed assertion stops the rest. */
  function Applied(s: seq<Entry>, changes: seq<Change>): (r: (seq<Entry>, bool))
    ensures !r.1 ==> exists i :: 0 <= i < |changes| && changes[i].Insert? && changes[i].assertEmpty
  {
    if changes == [] then (s, true)
    else
      var (t, ok) := Applied(s, changes[..|changes| - 1]);
      if !ok then (t, false)
      else match Changed(t, changes[|changes| - 1])
        case None => (t, false)
        case Some(u) => (u, true)
  }

  /** Every change keeps the store sorted by key. */
  lemma ChangedSorted(s: seq<Entry>, c: Change)
    requires Sorted(s) && Changed(s, c).Some?
    ensures Sorted(Changed(s, c).value)
  {
    match c
    case Delete(keys) => ClearAllGet(s, keys, "");
    case ClearKeys(prefix, filter) =>
      if filter.Some? {
        ClearAllGet(s, HitKeys(s, prefix, filter.value), "");
      } else {
        ClearPrefixGet(s, prefix, "");
      }
    case Insert(prefix, values, _) => PutAllSorted(s, Map(values, InsertKey(prefix)));
  }

  /** A batch, whether it completes or stops at a failed assertion, keeps the store sorted by key. */
  lemma {:induction false} AppliedSorted(s: seq<Entry>, changes: seq<Change>)
    requires Sorted(s)
    ensures Sorted(Applied(s, changes).0)
  {
    if changes != [] {
      AppliedSorted(s, changes[..|changes| - 1]);
      var (t, ok) := Applied(s, changes[..|changes| - 1]);
      if ok && Changed(t, changes[|changes| - 1]).Some? {
        ChangedSorted(t, changes[|changes| - 1]);
      }
    }
  }

  lemma {:induction false} AppliedStops(s: seq<Entry>, changes: seq<Change>, n: nat)
    requires n <= |changes| && !Applied(s, changes[..n]).1
    ensures Applied(s, changes) == Applied(s, changes[..n])
    decreases |changes| - n
  {
    if n < |changes| {
      assert changes[..n + 1][..n] == changes[..n];
      AppliedStops(s, changes, n + 1);
    } else {
      assert changes[..n] == changes;
    }
  }

  /** A failed assertion ends the batch: the earlier changes stay applied and none of the later ones is. */
  lemma FailedAssertKeepsEarlier(s: seq<Entry>, changes: seq<Change>, i: nat)
    requires i < |changes| && Applied(s, changes[..i]).1
    requires Changed(Applied(s, changes[..i]).0, changes[i]).None?
    ensures Applied(s, changes) == (Applied(s, changes[..i]).0, false)
  {
    assert changes[..i + 1][..i] == changes[..i];
    AppliedStops(s, changes, i + 1);
  }

  /** Changes compose: a batch is its first part followed by the rest, on the store the first part left. */
  lemma {:induction false} AppliedConcat(s: seq<Entry>, a: seq<Change>, b: seq<Change>)
    ensures Applied(s, a + b) == if Applied(s, a).1 then Applied(Applied(s, a).0, b) else Applied(s, a)
  {
    if b == [] {
      assert a + b == a;
    } else {
      assert (a + b)[..|a + b| - 1] == a + b[..|b| - 1];
      AppliedConcat(s, a, b[..|b| - 1]);
    }
  }

  /** The Insert assertion with a prefix fails exactly when some stored key starts with `prefix.`. */
  lemma AssertFailsUnderPrefix(s: seq<Entry>, p: string, values: seq<Entry>)
    ensures AssertFails(s, Some(p), values) <==> exists i :: 0 <= i < |s| && StartsWith(s[i].0, p + ".")
  {
    var f := Filter(s, Under(p + "."));
    if exists i :: 0 <= i < |s| && StartsWith(s[i].0, p + ".") {
      var i :| 0 <= i < |s| && StartsWith(s[i].0, p + ".");
      FilterKeeps(s, Under(p + "."), s[i]);
    }
    if f != [] {
      assert f[0] in f;
      var i :| 0 <= i < |s| && s[i] == f[0];
    }
  }

  /** An inserted value is stored under `prefix.key`, or under `key` without a prefix, when no later value names the same key. */
  lemma InsertStoresUnderPrefix(s: seq<Entry>, prefix: Option<string>, values: seq<Entry>, i: nat)
    requires i < |values|
    requires forall j :: i < j < |values| ==> values[j].0 != values[i].0
    ensures Get(PutAll(s, Map(values, InsertKey(prefix))), InsertKey(prefix)(values[i]).0) == Some(values[i].1)
  {
    var keyed := Map(values, InsertKey(prefix));
    forall j | i < j < |keyed|
      ensures keyed[j].0 != keyed[i].0
    {
      if prefix.Some? {
        var p := prefix.value + ".";
        assert keyed[j].0[|p|..] == values[j].0;
        assert keyed[i].0[|p|..] == values[i].0;
      }
    }
    PutAllLast(s, keyed, i);
  }

  /** An Insert leaves every key it does not write as it was. */
  lemma InsertKeepsOthers(s: seq<Entry>, prefix: Option<string>, values: seq<Entry>, x: string)
    requires forall j :: 0 <= j < |values| ==> InsertKey(prefix)(values[j]).0 != x
    ensures Get(PutAll(s, Map(values, InsertKey(prefix))), x) == Get(s, x)
  {
    PutAllOthers(s, Map(values, InsertKey(prefix)), x);
  }

  /** A filtered clear removes exactly the stored keys under the prefix whose key or value matches. */
  lemma ClearMatchingEffect(s: seq<Entry>, prefix: string, filter: string, x: string)
    requires Sorted(s)
    ensures Sorted(ClearAll(s, HitKeys(s, prefix, filter)))
    ensures Get(ClearAll(s, HitKeys(s, prefix, filter)), x)
         == if Get(s, x).Some? && StartsWith(x, prefix) && ClearHit(filter)((x, Get(s, x).value)) then None else Get(s, x)
  {
    var listed := List(s, prefix, false);
    var hits := Filter(listed, ClearHit(filter));
    var keys := HitKeys(s, prefix, filter);
    ClearAllGet(s, keys, x);
    if Get(s, x).Some? && StartsWith(x, prefix) && ClearHit(filter)((x, Get(s, x).value)) {
      var e := (x, Get(s, x).value);
      GetSome(s, x);
      FilterKeeps(s, Under(prefix), e);
      FilterKeeps(listed, ClearHit(filter), e);
      var k :| 0 <= k < |hits| && hits[k] == e;
      assert keys[k] == x;
    } else if x in keys {
      var k :| 0 <= k < |keys| && keys[k] == x;
      assert hits[k] in hits;
      assert hits[k] in listed;
      GetIn(s, hits[k]);
    }
  }

  /** Lower-casing leaves no upper-case ASCII letter, so a filter holding one matches no key or value. */
  lemma UpperCaseNeverContained(s: string, filter: string, j: nat)
    requires j < |filter| && 'A' <= filter[j] <= 'Z'
    ensures !Contains(Lower(s), filter)
  {
    var t := Lower(s);
    forall i | 0 <= i <= |t| - |filter|
      ensures !OccursAt(t, filter, i)
    {
      assert t[i..i + |filter|][j] == t[i + j];
      assert t[i + j] != filter[j];
    }
  }

  /** A filtered clear whose filter holds an upper-case letter removes nothing: the filter is not lower-cased. */
  lemma UpperCaseFilterClearsNothing(s: seq<Entry>, prefix: string, filter: string, j: nat)
    requires j < |filter| && 'A' <= filter[j] <= 'Z'
    ensures HitKeys(s, prefix, filter) == []
  {
    var hits := Filter(List(s, prefix, false), ClearHit(filter));
    if hits != [] {
      assert hits[0] in hits;
      UpperCaseNeverContained(hits[0].0, filter, j);
      UpperCaseNeverContained(hits[0].1, filter, j);
    }
  }

  lemma HitKeysSnoc(listed: seq<Entry>, i: nat, hit: Entry -> bool)
    requires i < |listed|
    ensures Map(Filter(listed[..i + 1], hit), KeyOf)
         == Map(Filter(listed[..i], hit), KeyOf) + (if hit(listed[i]) then [listed[i].0] else [])
  {
    assert listed[..i + 1] == listed[..i] + [listed[i]];
    FilterSnoc(listed[..i], listed[i], hit);
    if hit(listed[i]) {
      MapSnoc(Filter(listed[..i], hit), listed[i], KeyOf);
    }
  }

  /** The configuration store as the settings endpoints update it. */
  class SettingsStore {
    var entries: seq<Entry>

    predicate Valid()
      reads this
    {
      Sorted(entries)
    }

    constructor ()
      ensures Valid() && entries == []
    {
      entries := [];
    }

    /** Apply a batch of changes in order; a failed assertion stops with `AssertFailed`. */
    method Update(changes: seq<Change>) returns (r: Result<(), SettingsError>)
      requires Valid()
      modifies this
      ensures Valid()
      ensures (entries, r.Ok?) == Applied(old(entries), changes)
    {
      var i := 0;
      while i < |changes|
        invariant 0 <= i <= |changes|
        invariant Valid()
        invariant Applied(old(entries), changes[..i]) == (entries, true)
      {
        assert changes[..i + 1][..i] == changes[..i];
        var applied := Apply(changes[i]);
        if !applied {
          FailedAssertKeepsEarlier(old(entries), changes, i);
          return Err(AssertFailed);
        }
        i := i + 1;
      }
      assert changes[..i] == changes;
      r := Ok(());
    }

    /** One change of a batch; false when an Insert's assertion fails, leaving the store as it was. */
    method Apply(c: Change) returns (applied: bool)
      requires Valid()
      modifies this
      ensures Valid()
      ensures applied <==> Changed(old(entries), c).Some?
      ensures applied ==> Changed(old(entries), c) == Some(entries)
      ensures !applied ==> entries == old(entries)
    {
      match c {
        case Delete(keys) =>
          DeleteKeys(keys);
        case ClearKeys(prefix, filter) =>
          if filter.Some? {
            ClearMatching(prefix, filter.value);
          } else {
            forall x { ClearPrefixGet(entries, prefix, x); }
            entries := ClearPrefix(entries, prefix);
          }
        case Insert(prefix, values, assertEmpty) =>
          applied := InsertValues(prefix, values, assertEmpty);
          return;
      }
      applied := true;
    }

    /** One Insert: check its assertion, then store the values under their keys. */
    method InsertValues(prefix: Option<string>, values: seq<Entry>, assertEmpty: bool) returns (applied: bool)
      requires Valid()
      modifies this
      ensures Valid()
      ensures applied <==> Changed(old(entries), Insert(prefix, values, assertEmpty)).Some?
      ensures applied ==> Changed(old(entries), Insert(prefix, values, assertEmpty)) == Some(entries)
      ensures !applied ==> entries == old(entries)
    {
      if assertEmpty {
        if prefix.Some? {
          if List(entries, prefix.value + ".", true) != [] {
            return false;
          }
        } else if |values| > 0 {
          if Get(entries, values[0].0).Some? {
            return false;
          }
        }
      }
      PutAllSorted(entries, Map(values, InsertKey(prefix)));
      entries := PutAll(entries, Map(values, InsertKey(prefix)));
      applied := true;
    }

    /** Clear each key in turn. */
    method DeleteKeys(keys: seq<string>)
      requires Valid()
      modifies this
      ensures Valid()
      ensures entries == ClearAll(old(entries), keys)
    {
      var i := 0;
      while i < |keys|
        invariant 0 <= i <= |keys|
        invariant entries == ClearAll(old(entries), keys[..i])
      {
        assert keys[..i + 1] == keys[..i] + [keys[i]];
        ClearAllSnoc(old(entries), keys[..i], keys[i]);
        entries := Clear(entries, keys[i]);
        i := i + 1;
      }
      assert keys[..i] == keys;
      forall x { ClearAllGet(old(entries), keys, x); }
    }

    /** Clear, from a listing of the keys under `prefix`, those whose key or value matches `filter`. */
    method ClearMatching(prefix: string, filter: string)
      requires Valid()
      modifies this
      ensures Valid()
      ensures entries == ClearAll(old(entries), HitKeys(old(entries), prefix, filter))
    {
      var listed := List(entries, prefix, false);
      ghost var cleared: seq<string> := [];
      var i := 0;
      while i < |listed|
        invariant 0 <= i <= |listed|
        invariant cleared == Map(Filter(listed[..i], ClearHit(filter)), KeyOf)
        invariant entries == ClearAll(old(entries), cleared)
      {
        var e := listed[i];
        HitKeysSnoc(listed, i, ClearHit(filter));
        if ClearHit(filter)(e) {
          ClearAllSnoc(old(entries), cleared, e.0);
          entries := Clear(entries, e.0);
          cleared := cleared + [e.0];
        }
        i := i + 1;
      }
      assert listed[..i] == listed;
      ClearAllGet(old(entries), cleared, "");
    }
  }
}
