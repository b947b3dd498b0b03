/**
 * The external identifier of a queued DMARC or TLS aggregate-report
 * entry: `<class>!<domain>!<policy_hash>!<seq_id>!<due>` with class `d`
 * (DMARC) or `t` (TLS).
 */
module ReportId {
  import opened Wrappers
  import opened Text
  import opened Decimal

  datatype ReportEvent = ReportEvent(due: nat, policyHash: nat, seqId: nat, domain: string)

  /** The two report classes of the queue's key space. */
  datatype ReportHeader = DmarcReportHeader(event: ReportEvent) | TlsReportHeader(event: ReportEvent)

  const Separator: char := '!'

  /** Every numeric field fits in a u64 and the domain holds no separator. */
  predicate Encodable(h: ReportHeader) {
    && h.event.due <= U64_MAX
    && h.event.policyHash <= U64_MAX
    && h.event.seqId <= U64_MAX
    && Excludes(h.event.domain, Separator)
  }

  /** The parts joined with the separator between consecutive ones. */
  function Join(parts: seq<string>): string
    requires |parts| >= 1
  {
    if |parts| == 1 then parts[0] else parts[0] + [Separator] + Join(parts[1..])
  }

  function ClassTag(h: ReportHeader): string {
    if h.DmarcReportHeader? then "d" else "t"
  }

  function Fields(h: ReportHeader): seq<string> {
    [ClassTag(h), h.event.domain, ToDecimal(h.event.policyHash), ToDecimal(h.event.seqId), ToDecimal(h.event.due)]
  }

  /** `GenerateQueueId::queue_id`: `<class>!<domain>!<policy_hash>!<seq_id>!<due>`. */
  function QueueId(h: ReportHeader): (id: string)
    ensures Encodable(h) ==> Split(id, Separator) == Fields(h)
  {
    var f := Fields(h);
    if Encodable(h) then
      FieldsExclude(h);
      SplitJoin(f);
      Join(f)
    else
      Join(f)
  }

  /** Position of the first `c` in `s`, or `|s|` when there is none. */
  function IndexOf(s: string, c: char): (i: nat)
    ensures i <= |s|
    ensures i < |s| ==> s[i] == c
    ensures forall j :: 0 <= j < i ==> s[j] != c
  {
    if s == [] then 0
    else if s[0] == c then 0
    else 1 + IndexOf(s[1..], c)
  }

  /** `str::split(c)`: always at least one part; `k` separators give `k + 1` parts. */
  function Split(s: string, c: char): (parts: seq<string>)
    ensures |parts| >= 1
    decreases |s|
  {
    var i := IndexOf(s, c);
    if i == |s| then [s] else [s[..i]] + Split(s[i + 1..], c)
  }

  lemma SplitNone(s: string, c: char)
    requires Excludes(s, c)
    ensures Split(s, c) == [s]
  {
  }

  /** Splitting a separator-free head off the front. */
  lemma SplitCons(head: string, c: char, rest: string)
    requires Excludes(head, c)
    ensures Split(head + [c] + rest, c) == [head] + Split(rest, c)
  {
    var s := head + [c] + rest;
    assert s[|head|] == c;
    assert IndexOf(s, c) == |head|;
    assert s[..|head|] == head;
    assert s[|head| + 1..] == rest;
  }

  /** `parse_queued_report_id`: split on `!` and read the five fields. */
  function ParseQueuedReportId(id: string): (r: Option<ReportHeader>)
    ensures r.Some? ==> var parts := Split(id, Separator);
                        && |parts| >= 5
                        && parts[0] == ClassTag(r.value)
                        && parts[1] == r.value.event.domain
                        && ParseU64(parts[2]) == Some(r.value.event.policyHash)
                        && ParseU64(parts[3]) == Some(r.value.event.seqId)
                        && ParseU64(parts[4]) == Some(r.value.event.due)
    ensures r.Some? ==> r.value.event.policyHash <= U64_MAX && r.value.event.seqId <= U64_MAX
                        && r.value.event.due <= U64_MAX
    ensures r.None? <==> var parts := Split(id, Separator);
                         || |parts| < 5
                         || (parts[0] != "d" && parts[0] != "t")
                         || ParseU64(parts[2]).None? || ParseU64(parts[3]).None? || ParseU64(parts[4]).None?
  {
    var parts := Split(id, Separator);
    if |parts| < 5 then None
    else
      var policyHash := ParseU64(parts[2]);
      var seqId := ParseU64(parts[3]);
      var due := ParseU64(parts[4]);
      if policyHash.None? || seqId.None? || due.None? then None
      else
        var e := ReportEvent(due.value, policyHash.value, seqId.value, parts[1]);
        if parts[0] == "d" then Some(DmarcReportHeader(e))
        else if parts[0] == "t" then Some(TlsReportHeader(e))
        else None
  }

  lemma DecimalExcludesSeparator(n: nat)
    ensures Excludes(ToDecimal(n), Separator)
  {
  }

  /** Splitting undoes joining when no part holds the separator. */
  lemma {:induction false} SplitJoin(parts: seq<string>)
    requires |parts| >= 1
    requires forall i :: 0 <= i < |parts| ==> Excludes(parts[i], Separator)
    ensures Split(Join(parts), Separator) == parts
  {
    if |parts| == 1 {
      SplitNone(parts[0], Separator);
    } else {
      var tail := parts[1..];
      assert forall i :: 0 <= i < |tail| ==> Excludes(tail[i], Separator) by {
        forall i | 0 <= i < |tail| ensures Excludes(tail[i], Separator) {
          assert tail[i] == parts[i + 1];
        }
      }
      SplitJoin(tail);
      SplitCons(parts[0], Separator, Join(tail));
      assert parts == [parts[0]] + tail;
    }
  }

  lemma Regroup(a: string, b: string, rest: string)
    ensures a + [Separator] + b + [Separator] + rest == a + [Separator] + (b + [Separator] + rest)
  {
  }

  lemma SplitJoinStep(head: string, joined: string, tail: seq<string>, rest: string)
    requires Excludes(head, Separator)
    requires Split(joined + [Separator] + rest, Separator) == tail + Split(rest, Separator)
    ensures Split(head + [Separator] + joined + [Separator] + rest, Separator)
         == [head] + tail + Split(rest, Separator)
  {
    Regroup(head, joined, rest);
    SplitCons(head, Separator, joined + [Separator] + rest);
  }

  /** Whatever follows a further separator is split on its own. */
  lemma {:induction false} SplitJoinThen(parts: seq<string>, rest: string)
    requires |parts| >= 1
    requires forall i :: 0 <= i < |parts| ==> Excludes(parts[i], Separator)
    ensures Split(Join(parts) + [Separator] + rest, Separator) == parts + Split(rest, Separator)
  {
    if |parts| == 1 {
      SplitCons(parts[0], Separator, rest);
      assert parts == [parts[0]];
    } else {
      var tail := parts[1..];
      assert forall i :: 0 <= i < |tail| ==> Excludes(tail[i], Separator) by {
        forall i | 0 <= i < |tail| ensures Excludes(tail[i], Separator) {
          assert tail[i] == parts[i + 1];
        }
      }
      SplitJoinThen(tail, rest);
      SplitJoinStep(parts[0], Join(tail), tail, rest);
      assert parts == [parts[0]] + tail;
    }
  }

  lemma FieldsExclude(h: ReportHeader)
    requires Excludes(h.event.domain, Separator)
    ensures forall i :: 0 <= i < |Fields(h)| ==> Excludes(Fields(h)[i], Separator)
  {
    DecimalExcludesSeparator(h.event.policyHash);
    DecimalExcludesSeparator(h.event.seqId);
    DecimalExcludesSeparator(h.event.due);
  }

  /** Decoding inverts encoding for every encodable header. */
  lemma RoundTrip(h: ReportHeader)
    requires Encodable(h)
    ensures ParseQueuedReportId(QueueId(h)) == Some(h)
  {
    FieldsExclude(h);
    SplitJoin(Fields(h));
    ParseDecimal(h.event.policyHash);
    ParseDecimal(h.event.seqId);
    ParseDecimal(h.event.due);
  }

  /** Two encodable headers never share an identifier. */
  lemma QueueIdInjective(h1: ReportHeader, h2: ReportHeader)
    requires Encodable(h1) && Encodable(h2)
    requires QueueId(h1) == QueueId(h2)
    ensures h1 == h2
  {
    RoundTrip(h1);
    RoundTrip(h2);
  }

  /** Fields after the fifth are ignored, so several strings name one header. */
  lemma ExtraFieldsIgnored(h: ReportHeader, rest: string)
    requires Encodable(h)
    ensures ParseQueuedReportId(QueueId(h) + [Separator] + rest) == Some(h)
  {
    FieldsExclude(h);
    SplitJoinThen(Fields(h), rest);
    ParseDecimal(h.event.policyHash);
    ParseDecimal(h.event.seqId);
    ParseDecimal(h.event.due);
  }

  /** Fewer than five fields, or a class other than `d`/`t`, decode to nothing. */
  lemma ParseRejects(id: string)
    ensures |Split(id, Separator)| < 5 ==> ParseQueuedReportId(id) == None
    ensures Split(id, Separator)[0] != "d" && Split(id, Separator)[0] != "t"
            ==> ParseQueuedReportId(id) == None
  {
  }

  /**
   * A domain holding the separator does not survive the round trip: for
   * `a!b` the third field read back is `b`, which is no u64 here.
   */
  lemma SeparatorInDomainBreaksRoundTrip(h: ReportHeader, a: string, b: string)
    requires h.event.domain == a + [Separator] + b
    requires Excludes(a, Separator) && Excludes(b, Separator) && ParseU64(b).None?
    ensures ParseQueuedReportId(QueueId(h)) == None
  {
    var f := Fields(h);
    var nums := Join(f[2..]);
    assert h.event.domain[|a|] == Separator;
    assert QueueId(h) == Join(f);
    assert f[1..][1..] == f[2..];
    assert Join(f[1..]) == f[1] + [Separator] + nums;
    assert QueueId(h) == ClassTag(h) + [Separator] + (f[1] + [Separator] + nums);
    assert f[1] + [Separator] + nums == a + [Separator] + (b + [Separator] + nums);
    SplitCons(ClassTag(h), Separator, f[1] + [Separator] + nums);
    SplitCons(a, Separator, b + [Separator] + nums);
    SplitCons(b, Separator, nums);
    assert Split(QueueId(h), Separator)[2] == b;
  }

  /** The smallest instance: the domain `a!b`. */
  lemma SeparatorInDomainExample()
    ensures ParseQueuedReportId(QueueId(DmarcReportHeader(ReportEvent(3, 1, 2, "a!b")))) == None
  {
    assert "a!b" == "a" + [Separator] + "b";
    assert ParseU64("b") == None;
    SeparatorInDomainBreaksRoundTrip(DmarcReportHeader(ReportEvent(3, 1, 2, "a!b")), "a", "b");
  }
}
