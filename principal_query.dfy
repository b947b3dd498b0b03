/** The filter loop of JMAP Principal/query. */
module PrincipalQuery {
  import opened Wrappers

  datatype Filter =
    | Name(name: string)
    | Email(email: string)
    | Type(kind: string)
    /** Any other condition, with its textual form. */
    | OtherFilter(description: string)

  /** The error for a condition the query does not support. */
  datatype QueryError = UnsupportedFilter(details: string)

  /**
   * The loop state: the current results, and whether no Name or Email
   * condition has set them yet (`is_set`).
   */
  datatype QueryState = QueryState(results: set<nat>, isSet: bool)

  const Initial: QueryState := QueryState({}, true)

  /**
   * One condition. `lookupName` finds a principal by name and `emailToId`
   * by e-mail address; both stand for directory lookups.
   */
  function Step(st: QueryState, f: Filter, lookupName: string -> Option<nat>, emailToId: string -> Option<nat>)
    : Result<QueryState, QueryError>
  {
    match f
    case Name(name) =>
      var found := lookupName(name);
      Ok(QueryState(if found.Some? && (st.isSet || found.value in st.results) then {found.value} else {}, false))
    case Email(email) =>
      var ids := if emailToId(email).Some? then {emailToId(email).value} else {};
      Ok(if st.isSet then QueryState(ids, false) else QueryState(st.results * ids, false))
    case Type(_) => Ok(st)
    case OtherFilter(d) => Err(UnsupportedFilter(d))
  }

  /** The loop over the conditions, in order, stopping at the first unsupported one. */
  function Fold(filters: seq<Filter>, lookupName: string -> Option<nat>, emailToId: string -> Option<nat>)
    : Result<QueryState, QueryError>
  {
    if filters == [] then Ok(Initial)
    else
      match Fold(filters[..|filters| - 1], lookupName, emailToId)
      case Err(e) => Err(e)
      case Ok(st) => Step(st, filters[|filters| - 1], lookupName, emailToId)
  }

  /** The ids the query selects; with no Name or Email condition, every principal in `allIds`. */
  function QueryIds(filters: seq<Filter>, allIds: set<nat>, lookupName: string -> Option<nat>,
                    emailToId: string -> Option<nat>): Result<set<nat>, QueryError>
  {
    match Fold(filters, lookupName, emailToId)
    case Err(e) => Err(e)
    case Ok(st) => Ok(if st.isSet then allIds else st.results)
  }

  /** `principal_query` up to building the response. */
  method Query(filters: seq<Filter>, allIds: set<nat>, lookupName: string -> Option<nat>,
               emailToId: string -> Option<nat>) returns (r: Result<set<nat>, QueryError>)
    ensures r == QueryIds(filters, allIds, lookupName, emailToId)
  {
    var results: set<nat> := {};
    var isSet := true;
    var i := 0;
    while i < |filters|
      invariant 0 <= i <= |filters|
      invariant Fold(filters[..i], lookupName, emailToId) == Ok(QueryState(results, isSet))
    {
      assert filters[..i + 1][..i] == filters[..i];
      ghost var next := Step(QueryState(results, isSet), filters[i], lookupName, emailToId);
      assert Fold(filters[..i + 1], lookupName, emailToId) == next;
      match filters[i] {
        case Name(name) =>
          var principal := lookupName(name);
          if principal.Some? {
            if isSet || principal.value in results {
              results := {principal.value};
            } else {
              results := {};
            }
          } else {
            results := {};
          }
          isSet := false;
        case Email(email) =>
          var ids: set<nat> := {};
          var id := emailToId(email);
          if id.Some? {
            ids := ids + {id.value};
          }
          assert ids == if emailToId(email).Some? then {emailToId(email).value} else {};
          if isSet {
            results := ids;
            isSet := false;
          } else {
            results := results * ids;
          }
        case Type(_) =>
        case OtherFilter(d) =>
          FoldStopsAtError(filters, i + 1, lookupName, emailToId);
          assert filters[..|filters|] == filters;
          return Err(UnsupportedFilter(d));
      }
      assert next == Ok(QueryState(results, isSet));
      i := i + 1;
    }
    assert filters[..i] == filters;
    if isSet {
      results := allIds;
    }
    r := Ok(results);
  }

  lemma {:induction false} FoldStopsAtError(filters: seq<Filter>, n: nat, lookupName: string -> Option<nat>,
                                            emailToId: string -> Option<nat>)
    requires n <= |filters| && Fold(filters[..n], lookupName, emailToId).Err?
    ensures Fold(filters, lookupName, emailToId) == Fold(filters[..n], lookupName, emailToId)
    decreases |filters| - n
  {
    if n < |filters| {
      assert filters[..n + 1][..n] == filters[..n];
      FoldStopsAtError(filters, n + 1, lookupName, emailToId);
    } else {
      assert filters[..n] == filters;
    }
  }

  predicate Narrows(f: Filter) {
    f.Name? || f.Email?
  }

  /** The state stays unset exactly while no Name or Email condition has been seen. */
  lemma {:induction false} UnsetUntilNarrowed(filters: seq<Filter>, lookupName: string -> Option<nat>,
                                              emailToId: string -> Option<nat>)
    requires Fold(filters, lookupName, emailToId).Ok?
    ensures Fold(filters, lookupName, emailToId).value.isSet <==> forall k :: 0 <= k < |filters| ==> !Narrows(filters[k])
    ensures Fold(filters, lookupName, emailToId).value.isSet ==> Fold(filters, lookupName, emailToId).value.results == {}
  {
    if filters != [] {
      var init := filters[..|filters| - 1];
      UnsetUntilNarrowed(init, lookupName, emailToId);
      assert forall k :: 0 <= k < |init| ==> init[k] == filters[k];
    }
  }

  /** With no Name or Email condition the query selects every principal. */
  lemma NoConditionSelectsAll(filters: seq<Filter>, allIds: set<nat>, lookupName: string -> Option<nat>,
                              emailToId: string -> Option<nat>)
    requires forall k :: 0 <= k < |filters| ==> filters[k].Type?
    ensures QueryIds(filters, allIds, lookupName, emailToId) == Ok(allIds)
  {
    TypeOnlyFolds(filters, lookupName, emailToId);
  }

  lemma {:induction false} TypeOnlyFolds(filters: seq<Filter>, lookupName: string -> Option<nat>,
                                         emailToId: string -> Option<nat>)
    requires forall k :: 0 <= k < |filters| ==> filters[k].Type?
    ensures Fold(filters, lookupName, emailToId) == Ok(Initial)
  {
    if filters != [] {
      TypeOnlyFolds(filters[..|filters| - 1], lookupName, emailToId);
    }
  }

  /** Type conditions change nothing, wherever they stand. */
  lemma TypeIgnored(filters: seq<Filter>, kind: string, lookupName: string -> Option<nat>,
                    emailToId: string -> Option<nat>)
    ensures Fold(filters + [Type(kind)], lookupName, emailToId) == Fold(filters, lookupName, emailToId)
  {
    assert (filters + [Type(kind)])[..|filters|] == filters;
  }

  /** Any unsupported condition makes the query fail. */
  lemma {:induction false} UnsupportedFails(filters: seq<Filter>, allIds: set<nat>, lookupName: string -> Option<nat>,
                                            emailToId: string -> Option<nat>, k: nat)
    requires k < |filters| && filters[k].OtherFilter?
    ensures QueryIds(filters, allIds, lookupName, emailToId).Err?
  {
    assert filters[..k + 1][..k] == filters[..k];
    FoldStopsAtError(filters, k + 1, lookupName, emailToId);
  }

  /** Once a Name or Email condition has set the results, each later condition keeps them or narrows them. */
  lemma LaterConditionsNarrow(filters: seq<Filter>, f: Filter, lookupName: string -> Option<nat>,
                              emailToId: string -> Option<nat>)
    requires Fold(filters, lookupName, emailToId).Ok? && !Fold(filters, lookupName, emailToId).value.isSet
    requires !f.OtherFilter?
    ensures Fold(filters + [f], lookupName, emailToId).Ok?
    ensures Fold(filters + [f], lookupName, emailToId).value.results <= Fold(filters, lookupName, emailToId).value.results
  {
    assert (filters + [f])[..|filters|] == filters;
  }

  /** The first Name or Email condition replaces the results by its own lookup. */
  lemma FirstConditionReplaces(filters: seq<Filter>, f: Filter, lookupName: string -> Option<nat>,
                               emailToId: string -> Option<nat>)
    requires Fold(filters, lookupName, emailToId).Ok? && Fold(filters, lookupName, emailToId).value.isSet
    requires Narrows(f)
    ensures var st := Fold(filters + [f], lookupName, emailToId);
            var found := if f.Name? then lookupName(f.name) else emailToId(f.email);
            st.Ok? && !st.value.isSet && st.value.results == (if found.Some? then {found.value} else {})
  {
    assert (filters + [f])[..|filters|] == filters;
  }

  /** A query with a Name or Email condition selects at most one principal. */
  lemma {:induction false} AtMostOne(filters: seq<Filter>, lookupName: string -> Option<nat>,
                                     emailToId: string -> Option<nat>)
    requires Fold(filters, lookupName, emailToId).Ok?
    ensures |Fold(filters, lookupName, emailToId).value.results| <= 1
  {
    if filters != [] {
      var init := filters[..|filters| - 1];
      AtMostOne(init, lookupName, emailToId);
      var st := Fold(init, lookupName, emailToId).value;
      var f := filters[|filters| - 1];
      if f.Email? && !st.isSet {
        var ids := if emailToId(f.email).Some? then {emailToId(f.email).value} else {};
        assert st.results * ids <= st.results;
        SubsetSize(st.results * ids, st.results);
      }
    }
  }

  lemma SubsetSize(a: set<nat>, b: set<nat>)
    requires a <= b
    ensures |a| <= |b|
  {
    assert b == a + (b - a);
  }
}
