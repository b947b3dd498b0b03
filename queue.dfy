/**
 * Administrative operations on the outbound delivery queue: rescheduling
 * and cancelling a queued message, the per-domain view served to the
 * management API, the paginated listings of messages and report entries,
 * and the acceptance rule for timestamps given as query parameters.
 */
module QueueAdmin {
  import opened Wrappers
  import opened Text
  import opened Decimal
  import opened Paging
  import opened ReportId

  /** The delivery state shared by domains and recipients. */
  datatype Status<S, F> =
    | Scheduled
    | Completed(success: S)
    | TemporaryFailure(failure: F)
    | PermanentFailure(failure: F)
  {
    /** Still waiting for delivery: `Scheduled | TemporaryFailure(_)`. */
    predicate IsPending() {
      Scheduled? || TemporaryFailure?
    }

    /** Resolved one way or the other: `Completed(_) | PermanentFailure(_)`. */
    predicate IsFinal() {
      Completed? || PermanentFailure?
    }
  }

  /** An SMTP reply: code, enhanced status code and text. */
  datatype Response = Response(code: nat, esc: seq<nat>, message: string)

  /** The host that answered (empty when none did) and its reply. */
  datatype HostResponse = HostResponse(hostname: string, response: Response)

  /** A domain's failure detail is kept in its rendered form. */
  type DomainStatus = Status<(), string>

  type RecipientStatus = Status<HostResponse, HostResponse>

  datatype Domain = Domain(
    domain: string,
    status: DomainStatus,
    retryDue: nat,
    retryCount: nat,
    notifyDue: nat,
    expires: nat)

  /** `domainIdx` points into the owning message's `domains`. */
  datatype Recipient = Recipient(
    address: string,
    addressLcase: string,
    domainIdx: nat,
    status: RecipientStatus,
    orcpt: Option<string>)

  datatype Message = Message(
    id: nat,
    returnPath: string,
    domains: seq<Domain>,
    recipients: seq<Recipient>,
    created: nat,
    size: nat,
    priority: int,
    envId: Option<string>)

  // ---------------------------------------------------------------------
  // Timestamps given as query parameters

  const TwoTo64: nat := 0x1_0000_0000_0000_0000

  /**
   * `Timestamp::from_str` as written: the RFC 3339 instant (seconds since
   * the epoch, an i64) is cast to u64 before it is compared with `now`.
   */
  function TimestampAsWritten(instant: int, now: nat): (r: Option<nat>)
    ensures r.Some? ==> r.value >= now && r.value < TwoTo64
  {
    var cast := instant % TwoTo64;
    if cast >= now then Some(cast) else None
  }

  /** An instant one second before the epoch is accepted as the largest u64. */
  lemma TimestampAcceptsPreEpoch(now: nat)
    requires now <= U64_MAX
    ensures TimestampAsWritten(-1, now) == Some(U64_MAX)
  {
  }

  /** `Timestamp::from_str` as intended: only instants not in the past. */
  function ParseTimestamp(instant: int, now: nat): (r: Option<nat>)
    ensures r.Some? <==> instant >= now
    ensures r.Some? ==> r.value == instant && r.value >= now
  {
    if instant >= now then Some(instant) else None
  }

  /** `params.parse::<Timestamp>("at").unwrap_or_else(now)`; `None` when the parameter is absent or not RFC 3339. */
  function RescheduleTime(instant: Option<int>, now: nat): (at: nat)
    ensures at >= now
    ensures instant.Some? && instant.value >= now ==> at == instant.value
    ensures instant.None? || instant.value < now ==> at == now
  {
    if instant.Some? then ParseTimestamp(instant.value, now).GetOr(now) else now
  }

  /** A `before`/`after` listing parameter: absent, unparsable or past instants give no filter. */
  function TimestampParam(instant: Option<int>, now: nat): (r: Option<nat>)
    ensures r.Some? <==> instant.Some? && instant.value >= now
    ensures r.Some? ==> r.value == instant.value
  {
    if instant.Some? then ParseTimestamp(instant.value, now) else None
  }

  /** `queue_id.parse().unwrap_or_default()` */
  function MessageIdParam(s: string): nat {
    ParseU64(s).GetOr(0)
  }

  // ---------------------------------------------------------------------
  // Reschedule

  /** A domain the reschedule applies to. */
  predicate Selected(d: Domain, filter: Option<string>) {
    d.status.IsPending() && (filter.None? || Contains(d.domain, filter.value))
  }

  predicate AnySelected(ds: seq<Domain>, filter: Option<string>) {
    exists i | 0 <= i < |ds| :: Selected(ds[i], filter)
  }

  /** `retry.due = at`, and an expiry later than `at` moves to `at + 10`. */
  function Retimed(d: Domain, at: nat): Domain {
    d.(retryDue := at, expires := if d.expires > at then at + 10 else d.expires)
  }

  function Rescheduled(m: Message, at: nat, filter: Option<string>): Message {
    m.(domains := seq(|m.domains|, i requires 0 <= i < |m.domains| =>
                        if Selected(m.domains[i], filter) then Retimed(m.domains[i], at) else m.domains[i]))
  }

  /** The reschedule loop over the message's domains. */
  method Reschedule(m: Message, at: nat, filter: Option<string>) returns (m': Message, found: bool)
    ensures m' == Rescheduled(m, at, filter)
    ensures found == AnySelected(m.domains, filter)
  {
    var domains := m.domains;
    found := false;
    var i := 0;
    while i < |domains|
      invariant 0 <= i <= |domains| == |m.domains|
      invariant forall k :: 0 <= k < i ==>
                  domains[k] == if Selected(m.domains[k], filter) then Retimed(m.domains[k], at) else m.domains[k]
      invariant forall k :: i <= k < |domains| ==> domains[k] == m.domains[k]
      invariant found == exists k | 0 <= k < i :: Selected(m.domains[k], filter)
    {
      var d := domains[i];
      if d.status.IsPending() && (filter.None? || Contains(d.domain, filter.value)) {
        d := d.(retryDue := at);
        if d.expires > at {
          d := d.(expires := at + 10);
        }
        domains := domains[i := d];
        found := true;
      }
      i := i + 1;
    }
    m' := m.(domains := domains);
  }

  /**
   * What a reschedule does to each domain: a selected domain gets
   * `retryDue == at` and an expiry that is `at + 10` when it was later
   * than `at` and unchanged otherwise (so it may end at or before the new
   * retry time); every other domain, and every recipient, is unchanged.
   */
  lemma RescheduleEffect(m: Message, at: nat, filter: Option<string>, i: nat)
    requires i < |m.domains|
    ensures var m' := Rescheduled(m, at, filter);
            && |m'.domains| == |m.domains|
            && m' == m.(domains := m'.domains)
            && m'.domains[i].domain == m.domains[i].domain
            && m'.domains[i].status == m.domains[i].status
            && m'.domains[i].retryCount == m.domains[i].retryCount
            && m'.domains[i].notifyDue == m.domains[i].notifyDue
            && (Selected(m.domains[i], filter) ==>
                  && m'.domains[i] == m.domains[i].(retryDue := m'.domains[i].retryDue, expires := m'.domains[i].expires)
                  && m'.domains[i].retryDue == at
                  && (m.domains[i].expires > at ==> m'.domains[i].expires == at + 10)
                  && (m.domains[i].expires <= at ==> m'.domains[i].expires == m.domains[i].expires <= at))
            && (!Selected(m.domains[i], filter) ==> m'.domains[i] == m.domains[i])
  {
  }

  /** The expiry never ends past `at + 10` unless it was already there, and never before `at` unless it was. */
  lemma RescheduleExpiryBounds(m: Message, at: nat, filter: Option<string>, i: nat)
    requires i < |m.domains| && Selected(m.domains[i], filter)
    ensures var e := Rescheduled(m, at, filter).domains[i].expires;
            e <= at + 10 && (e > at <==> m.domains[i].expires > at)
  {
  }

  /** Rescheduling again to the same time changes nothing and still reports a match. */
  lemma RescheduleIdempotent(m: Message, at: nat, filter: Option<string>)
    ensures Rescheduled(Rescheduled(m, at, filter), at, filter) == Rescheduled(m, at, filter)
    ensures AnySelected(Rescheduled(m, at, filter).domains, filter) == AnySelected(m.domains, filter)
  {
    var m1 := Rescheduled(m, at, filter);
    var m2 := Rescheduled(m1, at, filter);
    assert forall i :: 0 <= i < |m.domains| ==> Selected(m1.domains[i], filter) == Selected(m.domains[i], filter);
    assert m2.domains == m1.domains;
    if AnySelected(m.domains, filter) {
      var i :| 0 <= i < |m.domains| && Selected(m.domains[i], filter);
      assert Selected(m1.domains[i], filter);
    }
  }

  // ---------------------------------------------------------------------
  // Cancel

  const CanceledResponse: HostResponse := HostResponse("", Response(0, [0, 0, 0], "Delivery canceled."))

  predicate RecipientMatches(r: Recipient, item: string) {
    Contains(r.addressLcase, item)
  }

  function Canceled(r: Recipient, item: string): Recipient {
    if RecipientMatches(r, item) then r.(status := PermanentFailure(CanceledResponse)) else r
  }

  /** Every recipient of domain `idx` is resolved (vacuously so when it has none). */
  predicate AllFinalAt(rs: seq<Recipient>, idx: nat) {
    forall k | 0 <= k < |rs| :: rs[k].domainIdx == idx ==> rs[k].status.IsFinal()
  }

  /** The domain after the completion pass. */
  function Settled(d: Domain, rs: seq<Recipient>, idx: nat): Domain {
    if d.status.IsPending() && AllFinalAt(rs, idx) then d.(status := Completed(())) else d
  }

  predicate AnyPending(ds: seq<Domain>) {
    exists i | 0 <= i < |ds| :: ds[i].status.IsPending()
  }

  /** What happens to the stored message. */
  datatype CancelOutcome = Untouched | Saved(message: Message) | Removed

  /** The message after cancelling the recipients that match `item` and settling the domains. */
  function CanceledMessage(m: Message, item: string): Message {
    var rs := seq(|m.recipients|, k requires 0 <= k < |m.recipients| => Canceled(m.recipients[k], item));
    m.(recipients := rs,
       domains := seq(|m.domains|, i requires 0 <= i < |m.domains| => Settled(m.domains[i], rs, i)))
  }

  predicate AnyRecipientMatches(m: Message, item: string) {
    exists k | 0 <= k < |m.recipients| :: RecipientMatches(m.recipients[k], item)
  }

  function CancelResult(m: Message, filter: Option<string>): (CancelOutcome, bool) {
    if filter.None? then (Removed, true)
    else if !AnyRecipientMatches(m, filter.value) then (Untouched, false)
    else
      var m' := CanceledMessage(m, filter.value);
      (if AnyPending(m'.domains) then Saved(m') else Removed, true)
  }

  /** Recipients of domain `idx`. */
  function CountAt(rs: seq<Recipient>, idx: nat): nat {
    if rs == [] then 0
    else CountAt(rs[..|rs| - 1], idx) + (if rs[|rs| - 1].domainIdx == idx then 1 else 0)
  }

  /** Resolved recipients of domain `idx`. */
  function CountFinalAt(rs: seq<Recipient>, idx: nat): nat {
    if rs == [] then 0
    else CountFinalAt(rs[..|rs| - 1], idx)
         + (if rs[|rs| - 1].domainIdx == idx && rs[|rs| - 1].status.IsFinal() then 1 else 0)
  }

  /** The two counters of the completion pass agree exactly when every recipient of the domain is resolved. */
  lemma {:induction false} CountsAgree(rs: seq<Recipient>, idx: nat)
    ensures CountFinalAt(rs, idx) <= CountAt(rs, idx)
    ensures CountFinalAt(rs, idx) == CountAt(rs, idx) <==> AllFinalAt(rs, idx)
  {
    if rs != [] {
      var init := rs[..|rs| - 1];
      CountsAgree(init, idx);
      assert forall k :: 0 <= k < |init| ==> init[k] == rs[k];
      if AllFinalAt(rs, idx) {
        assert AllFinalAt(init, idx);
      }
    }
  }

  /** The cancel branch of the `DELETE /messages/{id}` handler, on the message read from the store. */
  method Cancel(m: Message, filter: Option<string>) returns (outcome: CancelOutcome, found: bool)
    ensures (outcome, found) == CancelResult(m, filter)
  {
    if filter.None? {
      return Removed, true;
    }
    var item := filter.value;
    var rs;
    rs, found := CancelRecipients(m.recipients, item);
    if !found {
      return Untouched, false;
    }
    var ds := SettleDomains(m.domains, rs);
    var m' := m.(recipients := rs, domains := ds);
    assert rs == CanceledMessage(m, item).recipients;
    assert ds == CanceledMessage(m, item).domains;
    // Delete message if there are no pending deliveries
    if AnyPending(ds) {
      outcome := Saved(m');
    } else {
      outcome := Removed;
    }
  }

  /** Cancel delivery for all recipients that match. */
  method CancelRecipients(recipients: seq<Recipient>, item: string) returns (rs: seq<Recipient>, found: bool)
    ensures rs == seq(|recipients|, k requires 0 <= k < |recipients| => Canceled(recipients[k], item))
    ensures found <==> exists k | 0 <= k < |recipients| :: RecipientMatches(recipients[k], item)
  {
    found := false;
    rs := recipients;
    var k := 0;
    while k < |rs|
      invariant 0 <= k <= |rs| == |recipients|
      invariant forall j :: 0 <= j < k ==> rs[j] == Canceled(recipients[j], item)
      invariant forall j :: k <= j < |rs| ==> rs[j] == recipients[j]
      invariant found == exists j | 0 <= j < k :: RecipientMatches(recipients[j], item)
    {
      if Contains(rs[k].addressLcase, item) {
        rs := rs[k := rs[k].(status := PermanentFailure(CanceledResponse))];
        found := true;
      }
      k := k + 1;
    }
  }

  /** Mark as completed the pending domains without any unresolved recipient. */
  method SettleDomains(domains: seq<Domain>, rs: seq<Recipient>) returns (ds: seq<Domain>)
    ensures ds == seq(|domains|, i requires 0 <= i < |domains| => Settled(domains[i], rs, i))
  {
    ds := domains;
    var i := 0;
    while i < |ds|
      invariant 0 <= i <= |ds| == |domains|
      invariant forall j :: 0 <= j < i ==> ds[j] == Settled(domains[j], rs, j)
      invariant forall j :: i <= j < |ds| ==> ds[j] == domains[j]
    {
      if ds[i].status.IsPending() {
        var totalRcpt, totalCompleted := CountDomain(rs, i);
        if totalRcpt == totalCompleted {
          ds := ds[i := ds[i].(status := Completed(()))];
        }
      }
      i := i + 1;
    }
  }

  /** The recipients of domain `idx`, and how many of them are resolved. */
  method CountDomain(rs: seq<Recipient>, idx: nat) returns (totalRcpt: nat, totalCompleted: nat)
    ensures totalRcpt == CountAt(rs, idx) && totalCompleted == CountFinalAt(rs, idx)
    ensures totalRcpt == totalCompleted <==> AllFinalAt(rs, idx)
  {
    totalRcpt, totalCompleted := 0, 0;
    var j := 0;
    while j < |rs|
      invariant 0 <= j <= |rs|
      invariant totalRcpt == CountAt(rs[..j], idx)
      invariant totalCompleted == CountFinalAt(rs[..j], idx)
    {
      assert rs[..j + 1][..j] == rs[..j];
      if rs[j].domainIdx == idx {
        totalRcpt := totalRcpt + 1;
        if rs[j].status.IsFinal() {
          totalCompleted := totalCompleted + 1;
        }
      }
      j := j + 1;
    }
    assert rs[..j] == rs;
    CountsAgree(rs, idx);
  }

  /**
   * A filtered cancel turns exactly the matching recipients into
   * `PermanentFailure("Delivery canceled.")`; a pending domain becomes
   * `Completed` exactly when all of its recipients are resolved; resolved
   * domains are untouched; the message is removed exactly when no domain
   * is left pending.
   */
  lemma CancelEffect(m: Message, item: string)
    requires AnyRecipientMatches(m, item)
    ensures var (outcome, found) := CancelResult(m, Some(item));
            var m' := CanceledMessage(m, item);
            && found
            && |m'.recipients| == |m.recipients| && |m'.domains| == |m.domains|
            && m' == m.(recipients := m'.recipients, domains := m'.domains)
            && (forall k :: 0 <= k < |m.recipients| ==>
                  if RecipientMatches(m.recipients[k], item)
                  then m'.recipients[k] == m.recipients[k].(status := PermanentFailure(CanceledResponse))
                  else m'.recipients[k] == m.recipients[k])
            && (forall i :: 0 <= i < |m.domains| && m.domains[i].status.IsFinal() ==> m'.domains[i] == m.domains[i])
            && (forall i :: 0 <= i < |m.domains| && m.domains[i].status.IsPending() ==>
                  m'.domains[i] == if AllFinalAt(m'.recipients, i) then m.domains[i].(status := Completed(()))
                                   else m.domains[i])
            && (forall i :: 0 <= i < |m.domains| && m.domains[i].status.IsPending() ==>
                  (m'.domains[i].status == Completed(()) <==> AllFinalAt(m'.recipients, i)))
            && (outcome == Removed <==> !AnyPending(m'.domains))
            && (outcome != Removed ==> outcome == Saved(m'))
  {
  }

  /** A filter that matches no recipient leaves the message where it is. */
  lemma CancelNoMatch(m: Message, item: string)
    requires !AnyRecipientMatches(m, item)
    ensures CancelResult(m, Some(item)) == (Untouched, false)
  {
  }

  /** Without a filter the message is always removed. */
  lemma CancelAll(m: Message)
    ensures CancelResult(m, None) == (Removed, true)
  {
  }

  /** After a filtered cancel no domain is left pending whose recipients are all resolved. */
  lemma CancelSettles(m: Message, item: string, i: nat)
    requires i < |m.domains|
    ensures var m' := CanceledMessage(m, item);
            m'.domains[i].status.IsPending() ==> !AllFinalAt(m'.recipients, i)
  {
  }

  // ---------------------------------------------------------------------
  // The store

  /** Queued messages by id, and the reload signals sent to the queue manager. */
  class QueueStore {
    var messages: map<nat, Message>
    var reloads: nat

    constructor (messages: map<nat, Message>)
      ensures this.messages == messages && reloads == 0
    {
      this.messages := messages;
      reloads := 0;
    }

    /** `PATCH /messages/{id}`: `None` is the not-found response, `Some(found)` the `data` field. */
    method RescheduleMessage(idParam: string, instant: Option<int>, now: nat, filter: Option<string>)
      returns (r: Option<bool>)
      modifies this
      ensures var id := MessageIdParam(idParam);
              if id in old(messages) then
                var m := old(messages)[id];
                var found := AnySelected(m.domains, filter);
                && r == Some(found)
                && messages == (if found then old(messages)[id := Rescheduled(m, RescheduleTime(instant, now), filter)]
                                else old(messages))
                && reloads == old(reloads) + (if found then 1 else 0)
              else r == None && messages == old(messages) && reloads == old(reloads)
    {
      var id := MessageIdParam(idParam);
      var at := RescheduleTime(instant, now);
      if id !in messages {
        return None;
      }
      var m', found := Reschedule(messages[id], at, filter);
      assert found == AnySelected(old(messages)[id].domains, filter);
      if found {
        messages := messages[id := m'];
        reloads := reloads + 1;
      }
      r := Some(found);
    }

    /** `DELETE /messages/{id}`: `None` is the not-found response, `Some(found)` the `data` field. */
    method CancelMessage(idParam: string, filter: Option<string>) returns (r: Option<bool>)
      modifies this
      ensures reloads == old(reloads)
      ensures var id := MessageIdParam(idParam);
              if id in old(messages) then
                var (outcome, found) := CancelResult(old(messages)[id], filter);
                && r == Some(found)
                && messages == match outcome
                               case Untouched => old(messages)
                               case Saved(m') => old(messages)[id := m']
                               case Removed => old(messages) - {id}
              else r == None && messages == old(messages)
    {
      var id := MessageIdParam(idParam);
      if id !in messages {
        return None;
      }
      var outcome, found := Cancel(messages[id], filter);
      match outcome {
        case Untouched =>
        case Saved(m') => messages := messages[id := m'];
        case Removed => messages := messages - {id};
      }
      r := Some(found);
    }

    /** `GET /messages/{id}` */
    function GetMessage(idParam: string, now: nat, render: Response -> string): (r: Option<MessageView>)
      reads this
      ensures r.Some? <==> MessageIdParam(idParam) in messages
      ensures r.Some? ==> r.value.id == messages[MessageIdParam(idParam)].id
                          && |r.value.domains| == |messages[MessageIdParam(idParam)].domains|
      ensures r.Some? ==> r.value == ViewOf(messages[MessageIdParam(idParam)], now, render)
    {
      var id := MessageIdParam(idParam);
      if id in messages then Some(ViewOf(messages[id], now, render)) else None
    }
  }

  // ---------------------------------------------------------------------
  // The per-domain view (`From<&queue::Message> for Message`)

  datatype RecipientView = RecipientView(address: string, status: Status<string, string>, orcpt: Option<string>)

  datatype DomainView = DomainView(
    name: string,
    status: Status<string, string>,
    recipients: seq<RecipientView>,
    retryNum: nat,
    nextRetry: Option<nat>,
    nextNotify: Option<nat>,
    expires: nat)

  datatype MessageView = MessageView(
    id: nat,
    returnPath: string,
    domains: seq<DomainView>,
    created: nat,
    size: nat,
    priority: int,
    envId: Option<string>)

  function DomainStatusView(s: DomainStatus): Status<string, string> {
    match s
    case Scheduled => Scheduled
    case Completed(_) => Completed("")
    case TemporaryFailure(e) => TemporaryFailure(e)
    case PermanentFailure(e) => PermanentFailure(e)
  }

  /** `render` is the textual form of an SMTP reply. */
  function RecipientStatusView(s: RecipientStatus, render: Response -> string): Status<string, string> {
    match s
    case Scheduled => Scheduled
    case Completed(h) => Completed(render(h.response))
    case TemporaryFailure(h) => TemporaryFailure(render(h.response))
    case PermanentFailure(h) => PermanentFailure(render(h.response))
  }

  function AtDomain(idx: nat): Recipient -> bool {
    (r: Recipient) => r.domainIdx == idx
  }

  function RecipientViewOf(render: Response -> string): Recipient -> RecipientView {
    (r: Recipient) => RecipientView(r.address, RecipientStatusView(r.status, render), r.orcpt)
  }

  /**
   * Domain `idx` as the API shows it: its retry and expiry times, the
   * next notification only while it lies after `now`, and the recipients
   * whose `domainIdx` is `idx`.
   */
  function DomainViewOf(m: Message, idx: nat, now: nat, render: Response -> string): (v: DomainView)
    requires idx < |m.domains|
    ensures v.name == m.domains[idx].domain
    ensures v.retryNum == m.domains[idx].retryCount && v.nextRetry == Some(m.domains[idx].retryDue)
    ensures v.expires == m.domains[idx].expires
    ensures v.nextNotify.Some? <==> m.domains[idx].notifyDue > now
    ensures v.nextNotify.Some? ==> v.nextNotify.value == m.domains[idx].notifyDue
    ensures v.status.IsPending() <==> m.domains[idx].status.IsPending()
    ensures v.status.IsFinal() <==> m.domains[idx].status.IsFinal()
    ensures |v.recipients| == CountAt(m.recipients, idx)
  {
    var d := m.domains[idx];
    FilterAtDomainCount(m.recipients, idx);
    DomainView(
      d.domain,
      DomainStatusView(d.status),
      Map(Filter(m.recipients, AtDomain(idx)), RecipientViewOf(render)),
      d.retryCount,
      Some(d.retryDue),
      if d.notifyDue > now then Some(d.notifyDue) else None,
      d.expires)
  }

  /** The message as the API shows it: its header fields and one view per domain, in order. */
  function ViewOf(m: Message, now: nat, render: Response -> string): (v: MessageView)
    ensures v.id == m.id && v.returnPath == m.returnPath && v.created == m.created
    ensures v.size == m.size && v.priority == m.priority && v.envId == m.envId
    ensures |v.domains| == |m.domains|
    ensures forall i :: 0 <= i < |v.domains| ==> v.domains[i].name == m.domains[i].domain
  {
    MessageView(
      m.id, m.returnPath,
      seq(|m.domains|, i requires 0 <= i < |m.domains| => DomainViewOf(m, i, now, render)),
      m.created, m.size, m.priority, m.envId)
  }

  lemma {:induction false} FilterAtDomainCount(rs: seq<Recipient>, idx: nat)
    ensures |Filter(rs, AtDomain(idx))| == CountAt(rs, idx)
  {
    if rs != [] {
      FilterAtDomainCount(rs[..|rs| - 1], idx);
    }
  }

  /** Sum of the per-domain recipient counts over domains `0 .. n-1`. */
  function CountBelow(rs: seq<Recipient>, n: nat): nat {
    if n == 0 then 0 else CountBelow(rs, n - 1) + CountAt(rs, n - 1)
  }

  lemma {:induction false} CountBelowSnoc(rs: seq<Recipient>, r: Recipient, n: nat)
    ensures CountBelow(rs + [r], n) == CountBelow(rs, n) + (if r.domainIdx < n then 1 else 0)
  {
    assert (rs + [r])[..|rs|] == rs;
    if n > 0 {
      CountBelowSnoc(rs, r, n - 1);
    }
  }

  /** When every `domainIdx` is in range, the domains' recipient lists together hold every recipient once. */
  lemma {:induction false} RecipientsPartitioned(rs: seq<Recipient>, n: nat)
    requires forall k :: 0 <= k < |rs| ==> rs[k].domainIdx < n
    ensures CountBelow(rs, n) == |rs|
  {
    if rs == [] {
      if n > 0 {
        RecipientsPartitioned(rs, n - 1);
      }
    } else {
      var init := rs[..|rs| - 1];
      RecipientsPartitioned(init, n);
      assert rs == init + [rs[|rs| - 1]];
      CountBelowSnoc(init, rs[|rs| - 1], n);
    }
  }

  /**
   * The view keeps every domain in order; domain `i` lists exactly the
   * recipients whose `domainIdx` is `i`, in order; the next notification
   * is shown only while it lies after `now`.
   */
  lemma ViewShape(m: Message, now: nat, render: Response -> string, i: nat)
    requires i < |m.domains|
    ensures var v := ViewOf(m, now, render);
            && |v.domains| == |m.domains|
            && v.domains[i].name == m.domains[i].domain
            && |v.domains[i].recipients| == CountAt(m.recipients, i)
            && v.domains[i].recipients == Map(Filter(m.recipients, AtDomain(i)), RecipientViewOf(render))
            && (forall r :: r in Filter(m.recipients, AtDomain(i)) ==> r in m.recipients && r.domainIdx == i)
            && (forall r :: r in m.recipients && r.domainIdx == i ==> RecipientViewOf(render)(r) in v.domains[i].recipients)
            && (v.domains[i].nextNotify.Some? <==> m.domains[i].notifyDue > now)
            && v.domains[i].status.IsPending() == m.domains[i].status.IsPending()
  {
    FilterAtDomainCount(m.recipients, i);
    var v := ViewOf(m, now, render);
    forall r | r in m.recipients && r.domainIdx == i
      ensures RecipientViewOf(render)(r) in v.domains[i].recipients
    {
      FilterKeeps(m.recipients, AtDomain(i), r);
      var f := Filter(m.recipients, AtDomain(i));
      var k :| 0 <= k < |f| && f[k] == r;
      assert v.domains[i].recipients[k] == RecipientViewOf(render)(r);
    }
  }

  /** With well-formed indices the view shows every recipient exactly once in total. */
  lemma ViewCoversRecipients(m: Message, now: nat, render: Response -> string)
    requires forall k :: 0 <= k < |m.recipients| ==> m.recipients[k].domainIdx < |m.domains|
    ensures CountBelow(m.recipients, |m.domains|) == |m.recipients|
  {
    RecipientsPartitioned(m.recipients, |m.domains|);
  }

  // ---------------------------------------------------------------------
  // Listing messages

  datatype MessageQuery = MessageQuery(
    text: Option<string>,
    from: Option<string>,
    to: Option<string>,
    before: Option<nat>,
    after: Option<nat>)

  predicate HasFilters(q: MessageQuery) {
    q.text.Some? || q.from.Some? || q.to.Some? || q.before.Some? || q.after.Some?
  }

  predicate AnyRecipientContains(m: Message, s: string) {
    exists k | 0 <= k < |m.recipients| :: Contains(m.recipients[k].addressLcase, s)
  }

  /**
   * The message filter; `next` is the message's next delivery event. A
   * `text` filter searches the return path and the recipients and takes
   * the place of the `from`/`to` filters.
   */
  predicate MessageMatches(m: Message, q: MessageQuery, next: nat) {
    !HasFilters(q)
    || (&& (if q.text.Some?
            then Contains(m.returnPath, q.text.value) || AnyRecipientContains(m, q.text.value)
            else (q.from.None? || Contains(m.returnPath, q.from.value))
                 && (q.to.None? || AnyRecipientContains(m, q.to.value)))
        && (q.before.None? || next < q.before.value)
        && (q.after.None? || next > q.after.value))
  }

  function MessageMatcher(q: MessageQuery, nextDelivery: Message -> nat): Message -> bool {
    (m: Message) => MessageMatches(m, q, nextDelivery(m))
  }

  /** The query built from the `text`, `from`, `to`, `before` and `after` parameters. */
  function QueryOf(text: Option<string>, from: Option<string>, to: Option<string>,
                   before: Option<int>, after: Option<int>, now: nat): MessageQuery
  {
    MessageQuery(text, from, to, TimestampParam(before, now), TimestampParam(after, now))
  }

  /** An item of the listing: the bare id, or the full view when `values` is asked for. */
  datatype MessageItem = MessageId(id: nat) | MessageDetails(view: MessageView)

  function MessageItemOf(values: bool, now: nat, render: Response -> string): Message -> MessageItem {
    (m: Message) => if values then MessageDetails(ViewOf(m, now, render)) else MessageId(m.id)
  }

  /**
   * `GET /messages`: `scan` holds the queued messages in ascending id
   * order; `nextDelivery` is the message's next delivery event.
   */
  method ListMessages(scan: seq<Message>, text: Option<string>, from: Option<string>, to: Option<string>,
                      before: Option<int>, after: Option<int>, page: nat, limit: nat, values: bool,
                      nextDelivery: Message -> nat, now: nat, render: Response -> string)
    returns (items: seq<MessageItem>, total: nat)
    ensures var q := QueryOf(text, from, to, before, after, now);
            && total == |Filter(scan, MessageMatcher(q, nextDelivery))|
            && items == Map(Window(Filter(scan, MessageMatcher(q, nextDelivery)), PageOffset(page, limit), limit),
                            MessageItemOf(values, now, render))
  {
    var q := QueryOf(text, from, to, before, after, now);
    items, total := Paginate(scan, MessageMatcher(q, nextDelivery), MessageItemOf(values, now, render), page, limit);
  }

  /** A `text` filter makes `from` and `to` irrelevant. */
  lemma TextOverridesFromTo(m: Message, q: MessageQuery, next: nat, from': Option<string>, to': Option<string>)
    requires q.text.Some?
    ensures MessageMatches(m, q, next) == MessageMatches(m, q.(from := from', to := to'), next)
  {
  }

  /**
   * With at least one filter a message is listed exactly when every given
   * condition holds: `text` in the return path or a recipient, otherwise
   * `from` in the return path and `to` in a recipient; its next delivery
   * before `before` and after `after`.
   */
  lemma MessageMatchesMeaning(m: Message, q: MessageQuery, next: nat)
    requires HasFilters(q)
    ensures MessageMatches(m, q, next) <==>
              && (q.text.Some? ==>
                    Contains(m.returnPath, q.text.value)
                    || exists k :: 0 <= k < |m.recipients| && Contains(m.recipients[k].addressLcase, q.text.value))
              && (q.text.None? && q.from.Some? ==> Contains(m.returnPath, q.from.value))
              && (q.text.None? && q.to.Some? ==>
                    exists k :: 0 <= k < |m.recipients| && Contains(m.recipients[k].addressLcase, q.to.value))
              && (q.before.Some? ==> next < q.before.value)
              && (q.after.Some? ==> next > q.after.value)
  {
  }

  /** Without filters every message is listed. */
  lemma NoFiltersMatchAll(m: Message, q: MessageQuery, next: nat)
    requires !HasFilters(q)
    ensures MessageMatches(m, q, next)
  {
  }

  // ---------------------------------------------------------------------
  // Listing report entries

  /** A key of the report range: its last byte tells DMARC (0) from TLS (1). */
  datatype ReportKey = ReportKey(kind: nat, event: ReportEvent)

  /** The `type` parameter: `dmarc`, `tls`, or anything else for no type filter. */
  function ReportTypeParam(t: Option<string>): (r: Option<nat>)
    ensures r.Some? <==> t == Some("dmarc") || t == Some("tls")
  {
    if t == Some("dmarc") then Some(0) else if t == Some("tls") then Some(1) else None
  }

  predicate ReportMatches(k: ReportKey, kind: Option<nat>, domain: Option<string>) {
    && (kind.None? || kind.value == k.kind)
    && k.event.seqId != 0
    && (domain.None? || Contains(k.event.domain, domain.value))
  }

  function ReportMatcher(kind: Option<nat>, domain: Option<string>): ReportKey -> bool {
    (k: ReportKey) => ReportMatches(k, kind, domain)
  }

  function ReportIdOf(k: ReportKey): string {
    QueueId(if k.kind == 0 then DmarcReportHeader(k.event) else TlsReportHeader(k.event))
  }

  function LowerParam(d: Option<string>): Option<string> {
    if d.Some? then Some(Lower(d.value)) else None
  }

  /** `GET /reports`: `scan` holds the keys of the report range in key order. */
  method ListReports(scan: seq<ReportKey>, typeParam: Option<string>, domainParam: Option<string>, page: nat, limit: nat)
    returns (items: seq<string>, total: nat)
    ensures total == |Filter(scan, ReportMatcher(ReportTypeParam(typeParam), LowerParam(domainParam)))|
    ensures items == Map(Window(Filter(scan, ReportMatcher(ReportTypeParam(typeParam), LowerParam(domainParam))),
                                PageOffset(page, limit), limit), ReportIdOf)
  {
    var kind := ReportTypeParam(typeParam);
    var domain := LowerParam(domainParam);
    items, total := Paginate(scan, ReportMatcher(kind, domain), ReportIdOf, page, limit);
  }

  /** Only entries (`seqId != 0`) of the requested type are ever counted. */
  lemma ReportListingCounts(scan: seq<ReportKey>, kind: Option<nat>, domain: Option<string>)
    ensures forall k :: k in Filter(scan, ReportMatcher(kind, domain)) <==>
              && k in scan
              && (kind.None? || k.kind == kind.value)
              && k.event.seqId != 0
              && (domain.None? || Contains(k.event.domain, domain.value))
  {
    forall k | k in scan && ReportMatches(k, kind, domain)
      ensures k in Filter(scan, ReportMatcher(kind, domain))
    {
      FilterKeeps(scan, ReportMatcher(kind, domain), k);
    }
  }

  /** The first page holds `limit` items whenever at least that many entries match. */
  lemma FirstPageFull<T>(matches: seq<T>, limit: nat)
    requires 0 < limit <= |matches|
    ensures |Window(matches, PageOffset(1, limit), limit)| == limit
  {
  }

  /**
   * `GET /reports/{id}`: `generate` stands for the aggregate report
   * generator and gives `None` when there is nothing to report.
   */
  function GetReport<R>(id: string, generate: ReportHeader -> Option<R>): (r: Option<R>)
    ensures ParseQueuedReportId(id).None? ==> r.None?
  {
    match ParseQueuedReportId(id)
    case None => None
    case Some(h) => generate(h)
  }

  /** Every id the report listing hands out leads back to its own entry. */
  lemma ListedReportResolves<R>(h: ReportHeader, generate: ReportHeader -> Option<R>)
    requires Encodable(h)
    ensures GetReport(QueueId(h), generate) == generate(h)
  {
    RoundTrip(h);
  }

  /** The report headers waiting in the queue. */
  class ReportQueue {
    var headers: set<ReportHeader>

    constructor (headers: set<ReportHeader>)
      ensures this.headers == headers
    {
      this.headers := headers;
    }

    /** `DELETE /reports/{id}`: `false` is the not-found response. */
    method DeleteReport(id: string) returns (deleted: bool)
      modifies this
      ensures deleted <==> ParseQueuedReportId(id).Some?
      ensures headers == if deleted then old(headers) - {ParseQueuedReportId(id).value} else old(headers)
    {
      var parsed := ParseQueuedReportId(id);
      if parsed.None? {
        return false;
      }
      headers := headers - {parsed.value};
      deleted := true;
    }
  }
}
