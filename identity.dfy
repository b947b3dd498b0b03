/**
 * JMAP Identity/set (section 6 of RFC 8621): validation of each property
 * value and the create/update/destroy bookkeeping of one request.
 */
module Identity {
  import opened Wrappers

  datatype Property =
    | Name | Email | ReplyTo | Bcc | TextSignature | HtmlSignature
    | OtherProperty(name: string)

  datatype Value =
    | Text(text: string)
    | List(items: seq<Value>)
    | Object(properties: seq<(Property, Value)>)
    | Null
    | OtherValue

  /** A property value in a set request: a plain value, or a patch. */
  datatype PatchValue = Plain(value: Value) | Patch

  datatype SetError =
    | InvalidProperties(property: Property, description: string)
    | NotFound
    | WillDestroy
    /** An error raised while resolving a back-reference. */
    | ReferenceError(description: string)

  /** The number of bytes `c` takes in UTF-8. */
  function Utf8Width(c: char): (n: nat)
    ensures 1 <= n <= 4
  {
    if c as int < 0x80 then 1
    else if c as int < 0x800 then 2
    else if c as int < 0x1_0000 then 3
    else 4
  }

  /** `str::len`: the length in bytes of the UTF-8 encoding. */
  function Utf8Len(s: string): (n: nat)
    ensures |s| <= n <= 4 * |s|
  {
    if s == [] then 0 else Utf8Width(s[0]) + Utf8Len(s[1..])
  }

  predicate ShortText(v: Value, bound: nat) {
    v.Text? && Utf8Len(v.text) < bound
  }

  /** What the address-object scan accepts for one property of the object. */
  predicate AddressFieldAccepted(key: Property, v: Value) {
    (key == Email && ShortText(v, 255)) || (key == Name && (ShortText(v, 255) || v == Null))
  }

  /**
   * The `is_valid` scan over an address object's properties: an Email
   * text marks it valid, a Name text or null leaves the flag alone, and
   * anything else clears it and stops the scan.
   */
  function ScanAddress(props: seq<(Property, Value)>, isValid: bool): bool
  {
    if props == [] then isValid
    else
      var (key, v) := props[0];
      if key == Email && ShortText(v, 255) then ScanAddress(props[1..], true)
      else if key == Name && (ShortText(v, 255) || v == Null) then ScanAddress(props[1..], isValid)
      else false
  }

  /** An element of ReplyTo/Bcc: an object with at least one Email and nothing but Email and Name. */
  predicate AddressObjectValid(v: Value) {
    v.Object? && ScanAddress(v.properties, false)
  }

  /** The scan accepts an object exactly when every field is acceptable and one of them is an Email. */
  lemma {:induction false} ScanAddressMeaning(props: seq<(Property, Value)>, isValid: bool)
    ensures ScanAddress(props, isValid) <==>
              (forall k :: 0 <= k < |props| ==> AddressFieldAccepted(props[k].0, props[k].1))
              && (isValid || exists k :: 0 <= k < |props| && props[k].0 == Email)
  {
    if props != [] {
      var (key, v) := props[0];
      var isValid' := isValid || (key == Email && ShortText(v, 255));
      ScanAddressMeaning(props[1..], isValid');
      assert forall k :: 1 <= k < |props| ==> props[k] == props[1..][k - 1];
      if (exists k :: 0 <= k < |props| && props[k].0 == Email) && AddressFieldAccepted(key, v) {
        var k :| 0 <= k < |props| && props[k].0 == Email;
        if k > 0 {
          assert props[1..][k - 1].0 == Email;
        }
      }
    }
  }

  /**
   * `validate_identity_value`: `isCreate` tells whether there is no
   * current identity, `sanitize` is the e-mail address normaliser.
   */
  function ValidateIdentityValue(p: Property, v: PatchValue, isCreate: bool, sanitize: string -> Option<string>)
    : (r: Result<Value, SetError>)
    ensures r.Err? ==> r.error.InvalidProperties? && r.error.property == p
    ensures r.Ok? && p != Email ==> v.Plain? && r.value == v.value
    ensures p == Name ==> (r.Ok? <==> v.Plain? && (ShortText(v.value, 255) || v.value == Null))
    ensures p == Email ==> (r.Ok? <==> isCreate && v.Plain? && ShortText(v.value, 255) && sanitize(v.value.text).Some?)
    ensures p == Email && r.Ok? ==> r.value == Text(sanitize(v.value.text).value)
    ensures p == Email && isCreate && v.Plain? && ShortText(v.value, 255) && sanitize(v.value.text).None? ==>
              r == Err(InvalidProperties(Email, "Invalid e-mail address."))
    ensures p == TextSignature || p == HtmlSignature ==>
              (r.Ok? <==> v.Plain? && (ShortText(v.value, 2048) || v.value == Null))
    ensures p == ReplyTo || p == Bcc ==>
              (r.Ok? <==> v.Plain? && (v.value == Null ||
                                       (v.value.List? && forall k :: 0 <= k < |v.value.items| ==> AddressObjectValid(v.value.items[k]))))
    ensures (p == ReplyTo || p == Bcc) && v.Plain? && v.value.List? && r.Err? ==>
              r.error.description == "Invalid e-mail address object."
    ensures p.OtherProperty? ==> r == Err(InvalidProperties(p, "Field could not be set."))
    ensures v.Patch? ==> r == Err(InvalidProperties(p, "Field could not be set."))
    ensures r.Err? && !(p == Email && isCreate && v.Plain? && ShortText(v.value, 255))
            && !((p == ReplyTo || p == Bcc) && v.Plain? && v.value.List?) ==>
              r.error.description == "Field could not be set."
  {
    if v.Patch? then Err(InvalidProperties(p, "Field could not be set."))
    else
      var x := v.value;
      if p == Name && ShortText(x, 255) then Ok(x)
      else if p == Email && x.Text? && isCreate && Utf8Len(x.text) < 255 then
        match sanitize(x.text)
        case Some(e) => Ok(Text(e))
        case None => Err(InvalidProperties(Email, "Invalid e-mail address."))
      else if (p == TextSignature || p == HtmlSignature) && ShortText(x, 2048) then Ok(x)
      else if (p == ReplyTo || p == Bcc) && x.List? then
        if forall k | 0 <= k < |x.items| :: AddressObjectValid(x.items[k]) then Ok(x)
        else Err(InvalidProperties(p, "Invalid e-mail address object."))
      else if (p == Name || p == TextSignature || p == HtmlSignature || p == ReplyTo || p == Bcc) && x == Null then
        Ok(Null)
      else Err(InvalidProperties(p, "Field could not be set."))
  }

  /** An identity: its properties. */
  type Identity = map<Property, Value>

  /** A property assignment of a create or update, back-references not yet resolved. */
  type Assignment = (Property, PatchValue)

  /** Resolves back-references in a value (`eval_object_references`). */
  type Resolver = PatchValue -> Result<PatchValue, SetError>

  /**
   * One assignment: its back-references are resolved, then its value is
   * validated; a resolution error is reported as it is.
   */
  function Checked(a: Assignment, isCreate: bool, resolve: Resolver, sanitize: string -> Option<string>)
    : (r: Result<Value, SetError>)
    ensures resolve(a.1).Err? ==> r == Err(resolve(a.1).error)
    ensures resolve(a.1).Ok? && r.Err? ==> r.error.InvalidProperties? && r.error.property == a.0
    ensures r.Ok? && a.0 != Email ==> resolve(a.1) == Ok(Plain(r.value))
    ensures a.0 == Email && !isCreate ==> r.Err?
    ensures a.0.OtherProperty? ==> r.Err?
  {
    match resolve(a.1)
    case Err(e) => Err(e)
    case Ok(v) => ValidateIdentityValue(a.0, v, isCreate, sanitize)
  }

  /** The properties of a new identity: nulls are skipped, the first invalid value fails the create. */
  function Built(props: seq<Assignment>, resolve: Resolver, sanitize: string -> Option<string>): Result<Identity, SetError> {
    if props == [] then Ok(map[])
    else
      match Built(props[..|props| - 1], resolve, sanitize)
      case Err(e) => Err(e)
      case Ok(obj) =>
        var a := props[|props| - 1];
        match Checked(a, true, resolve, sanitize)
        case Err(e) => Err(e)
        case Ok(Null) => Ok(obj)
        case Ok(v) => Ok(obj[a.0 := v])
  }

  /** An identity after an update: null removes the property, a value sets it. */
  function Patched(current: Identity, props: seq<Assignment>, resolve: Resolver, sanitize: string -> Option<string>)
    : Result<Identity, SetError>
  {
    if props == [] then Ok(current)
    else
      match Patched(current, props[..|props| - 1], resolve, sanitize)
      case Err(e) => Err(e)
      case Ok(obj) =>
        var a := props[|props| - 1];
        match Checked(a, false, resolve, sanitize)
        case Err(e) => Err(e)
        case Ok(Null) => Ok(obj - {a.0})
        case Ok(v) => Ok(obj[a.0 := v])
  }

  /** Whether a create goes through, and with which identity. */
  function CreateOutcome(props: seq<Assignment>, accountEmails: set<string>, resolve: Resolver,
                         sanitize: string -> Option<string>): Result<Identity, SetError>
  {
    match Built(props, resolve, sanitize)
    case Err(e) => Err(e)
    case Ok(obj) =>
      if Email in obj && obj[Email].Text? then
        if obj[Email].text in accountEmails then Ok(obj)
        else Err(InvalidProperties(Email, "E-mail address not configured for this account."))
      else Err(InvalidProperties(Email, "Missing e-mail address."))
  }

  /** Whether an update goes through, and with which identity. */
  function UpdateOutcome(id: nat, props: seq<Assignment>, identities: map<nat, Identity>, willDestroy: seq<nat>,
                         resolve: Resolver, sanitize: string -> Option<string>): Result<Identity, SetError>
  {
    if id in willDestroy then Err(WillDestroy)
    else if id !in identities then Err(NotFound)
    else Patched(identities[id], props, resolve, sanitize)
  }

  /** Every property a create keeps passed validation, and none is null. */
  lemma {:induction false} BuiltValid(props: seq<Assignment>, resolve: Resolver, sanitize: string -> Option<string>)
    requires Built(props, resolve, sanitize).Ok?
    ensures forall p :: p in Built(props, resolve, sanitize).value ==>
              Built(props, resolve, sanitize).value[p] != Null
              && exists k :: 0 <= k < |props| && props[k].0 == p
                             && Checked(props[k], true, resolve, sanitize) == Ok(Built(props, resolve, sanitize).value[p])
  {
    if props != [] {
      var init := props[..|props| - 1];
      BuiltValid(init, resolve, sanitize);
      var obj := Built(init, resolve, sanitize).value;
      var a := props[|props| - 1];
      forall p | p in Built(props, resolve, sanitize).value
        ensures exists k :: 0 <= k < |props| && props[k].0 == p
                            && Checked(props[k], true, resolve, sanitize) == Ok(Built(props, resolve, sanitize).value[p])
      {
        if p == a.0 && Checked(a, true, resolve, sanitize) != Ok(Null) {
          assert props[|props| - 1] == a;
        } else {
          var k :| 0 <= k < |init| && init[k].0 == p && Checked(init[k], true, resolve, sanitize) == Ok(obj[p]);
          assert props[k] == init[k];
        }
      }
    }
  }

  /** A create without an e-mail address fails with "Missing e-mail address.". */
  lemma MissingEmailRejected(props: seq<Assignment>, accountEmails: set<string>, resolve: Resolver,
                             sanitize: string -> Option<string>)
    requires forall k :: 0 <= k < |props| ==> props[k].0 != Email
    requires Built(props, resolve, sanitize).Ok?
    ensures CreateOutcome(props, accountEmails, resolve, sanitize) ==
            Err(InvalidProperties(Email, "Missing e-mail address."))
  {
    BuiltValid(props, resolve, sanitize);
  }

  /** A created identity always carries one of the account's own addresses. */
  lemma CreatedHasAccountEmail(props: seq<Assignment>, accountEmails: set<string>, resolve: Resolver,
                               sanitize: string -> Option<string>)
    requires CreateOutcome(props, accountEmails, resolve, sanitize).Ok?
    ensures var obj := CreateOutcome(props, accountEmails, resolve, sanitize).value;
            Email in obj && obj[Email].Text? && obj[Email].text in accountEmails
  {
  }

  /** An update never sets the e-mail address. */
  lemma {:induction false} UpdateKeepsEmail(current: Identity, props: seq<Assignment>, resolve: Resolver,
                                            sanitize: string -> Option<string>)
    requires Patched(current, props, resolve, sanitize).Ok?
    ensures var obj := Patched(current, props, resolve, sanitize).value;
            (Email in obj <==> Email in current) && (Email in obj ==> obj[Email] == current[Email])
  {
    if props != [] {
      UpdateKeepsEmail(current, props[..|props| - 1], resolve, sanitize);
    }
  }

  /** A single update assignment: null removes the property, a valid value sets it. */
  lemma PatchedStep(current: Identity, props: seq<Assignment>, a: Assignment, resolve: Resolver,
                    sanitize: string -> Option<string>)
    requires Patched(current, props, resolve, sanitize).Ok? && Checked(a, false, resolve, sanitize).Ok?
    ensures var obj := Patched(current, props + [a], resolve, sanitize);
            var v := Checked(a, false, resolve, sanitize).value;
            obj.Ok? && (v == Null ==> a.0 !in obj.value) && (v != Null ==> obj.value[a.0] == v)
            && (forall p :: p != a.0 ==> (p in obj.value <==> p in Patched(current, props, resolve, sanitize).value))
            && (forall p :: p != a.0 && p in obj.value ==> obj.value[p] == Patched(current, props, resolve, sanitize).value[p])
  {
    assert (props + [a])[..|props|] == props;
  }

  /** An update of an id that is also being destroyed fails with will_destroy. */
  lemma WillDestroyWins(id: nat, props: seq<Assignment>, identities: map<nat, Identity>, willDestroy: seq<nat>,
                        resolve: Resolver, sanitize: string -> Option<string>)
    requires id in willDestroy
    ensures UpdateOutcome(id, props, identities, willDestroy, resolve, sanitize) == Err(WillDestroy)
  {
  }

  /** How a create with client id `c` shows in the response and the store. */
  predicate CreateReported(c: string, outcome: Result<Identity, SetError>, created: map<string, nat>,
                           notCreated: map<string, SetError>, identities: map<nat, Identity>, before: set<nat>)
  {
    match outcome
    case Ok(obj) => c in created && created[c] !in before && created[c] in identities && identities[created[c]] == obj
    case Err(e) => c in notCreated && notCreated[c] == e
  }

  /** The first `n` creates are reported as their outcomes say. */
  predicate CreatesReported(creates: seq<(string, seq<Assignment>)>, n: nat, accountEmails: set<string>,
                            resolve: Resolver, sanitize: string -> Option<string>, created: map<string, nat>,
                            notCreated: map<string, SetError>, identities: map<nat, Identity>, before: set<nat>)
    requires n <= |creates|
  {
    forall j :: 0 <= j < n ==>
      CreateReported(creates[j].0, CreateOutcome(creates[j].1, accountEmails, resolve, sanitize),
                     created, notCreated, identities, before)
  }

  /** Recording create `i` under a fresh document id keeps the earlier reports and adds its own. */
  lemma ReportedAfterRecord(creates: seq<(string, seq<Assignment>)>, i: nat, accountEmails: set<string>,
                            resolve: Resolver, sanitize: string -> Option<string>, created: map<string, nat>,
                            notCreated: map<string, SetError>, identities: map<nat, Identity>, before: set<nat>,
                            documentId: nat)
    requires i < |creates| && forall j :: 0 <= j < i ==> creates[j].0 != creates[i].0
    requires CreatesReported(creates, i, accountEmails, resolve, sanitize, created, notCreated, identities, before)
    requires documentId !in identities && documentId !in before
    ensures var (c, outcome) := (creates[i].0, CreateOutcome(creates[i].1, accountEmails, resolve, sanitize));
            if outcome.Ok? then
              CreatesReported(creates, i + 1, accountEmails, resolve, sanitize, created[c := documentId], notCreated,
                              identities[documentId := outcome.value], before)
            else
              CreatesReported(creates, i + 1, accountEmails, resolve, sanitize, created, notCreated[c := outcome.error],
                              identities, before)
  {
  }

  /** How an update of `id` shows in the response and the store. */
  predicate UpdateReported(id: nat, outcome: Result<Identity, SetError>, updated: set<nat>,
                           notUpdated: map<nat, SetError>, identities: map<nat, Identity>)
  {
    match outcome
    case Ok(obj) => id in updated && id !in notUpdated && id in identities && identities[id] == obj
    case Err(e) => id !in updated && id in notUpdated && notUpdated[id] == e
  }

  /** The first `n` updates are reported as their outcomes, against the identities `before` them, say. */
  predicate UpdatesReported(updates: seq<(nat, seq<Assignment>)>, n: nat, before: map<nat, Identity>,
                            willDestroy: seq<nat>, resolve: Resolver, sanitize: string -> Option<string>,
                            updated: set<nat>, notUpdated: map<nat, SetError>, identities: map<nat, Identity>)
    requires n <= |updates|
  {
    forall j :: 0 <= j < n ==>
      UpdateReported(updates[j].0, UpdateOutcome(updates[j].0, updates[j].1, before, willDestroy, resolve, sanitize),
                     updated, notUpdated, identities)
  }

  /** Recording update `i` keeps the earlier reports and adds its own. */
  lemma ReportedAfterUpdate(updates: seq<(nat, seq<Assignment>)>, i: nat, before: map<nat, Identity>,
                            willDestroy: seq<nat>, resolve: Resolver, sanitize: string -> Option<string>,
                            updated: set<nat>, notUpdated: map<nat, SetError>, identities: map<nat, Identity>)
    requires i < |updates| && forall j :: 0 <= j < i ==> updates[j].0 != updates[i].0
    requires UpdatesReported(updates, i, before, willDestroy, resolve, sanitize, updated, notUpdated, identities)
    requires updates[i].0 !in updated && updates[i].0 !in notUpdated
    requires updates[i].0 in before ==> updates[i].0 in identities
    ensures var (id, outcome) := (updates[i].0, UpdateOutcome(updates[i].0, updates[i].1, before, willDestroy, resolve, sanitize));
            if outcome.Ok? then
              UpdatesReported(updates, i + 1, before, willDestroy, resolve, sanitize, updated + {id}, notUpdated,
                              identities[id := outcome.value])
            else
              UpdatesReported(updates, i + 1, before, willDestroy, resolve, sanitize, updated, notUpdated[id := outcome.error],
                              identities)
  {
  }

  /** The reply to an Identity/set request. */
  datatype SetResponse = SetResponse(
    created: map<string, nat>,
    notCreated: map<string, SetError>,
    updated: set<nat>,
    notUpdated: map<nat, SetError>,
    destroyed: seq<nat>,
    notDestroyed: map<nat, SetError>,
    newState: Option<nat>)

  /** The identities of one account, the id allocator and the change-log state. */
  class IdentityStore {
    var identities: map<nat, Identity>
    var nextId: nat
    var state: nat

    predicate Valid()
      reads this
    {
      forall id :: id in identities ==> id < nextId
    }

    constructor ()
      ensures Valid() && identities == map[] && nextId == 0 && state == 0
    {
      identities := map[];
      nextId := 0;
      state := 0;
    }

    /** The create loop: each create is written under a fresh document id. */
    method ProcessCreates(creates: seq<(string, seq<Assignment>)>, accountEmails: set<string>,
                          resolve: Resolver, sanitize: string -> Option<string>)
      returns (created: map<string, nat>, notCreated: map<string, SetError>)
      requires Valid()
      requires forall i, j :: 0 <= i < j < |creates| ==> creates[i].0 != creates[j].0
      modifies this
      ensures Valid() && state == old(state)
      ensures forall i :: 0 <= i < |creates| ==>
                CreateReported(creates[i].0, CreateOutcome(creates[i].1, accountEmails, resolve, sanitize),
                               created, notCreated, identities, old(identities).Keys)
      ensures forall id :: id in identities <==> id in old(identities) || old(nextId) <= id < nextId
      ensures forall c :: c in created ==> old(nextId) <= created[c] < nextId
      ensures forall id :: id in old(identities) ==> identities[id] == old(identities)[id]
    {
      created, notCreated := map[], map[];
      var i := 0;
      while i < |creates|
        invariant 0 <= i <= |creates|
        invariant Valid() && state == old(state) && nextId >= old(nextId)
        invariant CreatesReported(creates, i, accountEmails, resolve, sanitize, created, notCreated, identities,
                                  old(identities).Keys)
        invariant forall c :: c in created ==> old(nextId) <= created[c] < nextId
        invariant forall id :: id in identities <==> id in old(identities) || old(nextId) <= id < nextId
        invariant forall id :: id in old(identities) ==> identities[id] == old(identities)[id]
      {
        var (id, props) := creates[i];
        var outcome := CreateIdentity(props, accountEmails, resolve, sanitize);
        ReportedAfterRecord(creates, i, accountEmails, resolve, sanitize, created, notCreated, identities,
                            old(identities).Keys, nextId);
        created, notCreated := Record(id, outcome, created, notCreated);
        i := i + 1;
      }
    }

    /** Writes a successful create under the next document id, or notes why it failed. */
    method Record(id: string, outcome: Result<Identity, SetError>, created: map<string, nat>,
                  notCreated: map<string, SetError>)
      returns (created': map<string, nat>, notCreated': map<string, SetError>)
      requires Valid()
      modifies this
      ensures Valid() && state == old(state)
      ensures outcome.Ok? ==> && identities == old(identities)[old(nextId) := outcome.value]
                              && nextId == old(nextId) + 1
                              && created' == created[id := old(nextId)] && notCreated' == notCreated
      ensures outcome.Err? ==> && identities == old(identities) && nextId == old(nextId)
                               && created' == created && notCreated' == notCreated[id := outcome.error]
    {
      if outcome.Ok? {
        var documentId := nextId;
        identities := identities[documentId := outcome.value];
        nextId := nextId + 1;
        created', notCreated' := created[id := documentId], notCreated;
      } else {
        created', notCreated' := created, notCreated[id := outcome.error];
      }
    }

    /** One create: its properties, then its e-mail address. */
    static method CreateIdentity(props: seq<Assignment>, accountEmails: set<string>, resolve: Resolver,
                                 sanitize: string -> Option<string>)
      returns (outcome: Result<Identity, SetError>)
      ensures outcome == CreateOutcome(props, accountEmails, resolve, sanitize)
    {
      outcome := BuildIdentity(props, resolve, sanitize);
      if outcome.Ok? {
        var identity := outcome.value;
        if Email in identity && identity[Email].Text? {
          if identity[Email].text !in accountEmails {
            outcome := Err(InvalidProperties(Email, "E-mail address not configured for this account."));
          }
        } else {
          outcome := Err(InvalidProperties(Email, "Missing e-mail address."));
        }
      }
    }

    /** The property loop of a create. */
    static method BuildIdentity(props: seq<Assignment>, resolve: Resolver, sanitize: string -> Option<string>)
      returns (r: Result<Identity, SetError>)
      ensures r == Built(props, resolve, sanitize)
    {
      var identity: Identity := map[];
      var i := 0;
      while i < |props|
        invariant 0 <= i <= |props|
        invariant Built(props[..i], resolve, sanitize) == Ok(identity)
      {
        assert props[..i + 1][..i] == props[..i];
        var (property, value) := props[i];
        var checked := Checked(props[i], true, resolve, sanitize);
        match checked {
          case Ok(Null) =>
          case Ok(v) => identity := identity[property := v];
          case Err(e) =>
            assert Built(props[..i + 1], resolve, sanitize) == Err(e);
            BuiltFailureSticks(props, i + 1, resolve, sanitize);
            assert props[..|props|] == props;
            return Err(e);
        }
        i := i + 1;
      }
      assert props[..i] == props;
      r := Ok(identity);
    }

    /** The update loop: each update sees the identities as the creates left them. */
    method ProcessUpdates(updates: seq<(nat, seq<Assignment>)>, willDestroy: seq<nat>,
                          resolve: Resolver, sanitize: string -> Option<string>)
      returns (updated: set<nat>, notUpdated: map<nat, SetError>)
      requires Valid()
      requires forall i, j :: 0 <= i < j < |updates| ==> updates[i].0 != updates[j].0
      modifies this
      ensures Valid() && nextId == old(nextId) && state == old(state)
      ensures identities.Keys == old(identities).Keys
      ensures UpdatesReported(updates, |updates|, old(identities), willDestroy, resolve, sanitize, updated, notUpdated,
                              identities)
      ensures forall id :: id in identities && id !in updated ==> identities[id] == old(identities)[id]
      ensures forall id :: id in updated ==> exists i :: 0 <= i < |updates| && updates[i].0 == id
    {
      updated, notUpdated := {}, map[];
      var i := 0;
      while i < |updates|
        invariant 0 <= i <= |updates|
        invariant Valid() && nextId == old(nextId) && state == old(state)
        invariant identities.Keys == old(identities).Keys
        invariant UpdatesReported(updates, i, old(identities), willDestroy, resolve, sanitize, updated, notUpdated,
                                  identities)
        invariant forall id :: id in identities && id !in updated ==> identities[id] == old(identities)[id]
        invariant forall id :: id in updated ==> exists j :: 0 <= j < i && updates[j].0 == id
        invariant forall id :: id in notUpdated ==> exists j :: 0 <= j < i && updates[j].0 == id
      {
        var (id, props) := updates[i];
        assert forall j :: 0 <= j < i ==> updates[j].0 != id;
        var outcome: Result<Identity, SetError>;
        if id in willDestroy {
          outcome := Err(WillDestroy);
        } else if id !in identities {
          outcome := Err(NotFound);
        } else {
          outcome := PatchIdentity(identities[id], props, resolve, sanitize);
        }
        assert outcome == UpdateOutcome(id, props, old(identities), willDestroy, resolve, sanitize);
        ReportedAfterUpdate(updates, i, old(identities), willDestroy, resolve, sanitize, updated, notUpdated, identities);
        if outcome.Ok? {
          identities := identities[id := outcome.value];
          updated := updated + {id};
        } else {
          notUpdated := notUpdated[id := outcome.error];
        }
        i := i + 1;
      }
    }

    /** The property loop of an update. */
    static method PatchIdentity(current: Identity, props: seq<Assignment>, resolve: Resolver,
                                sanitize: string -> Option<string>)
      returns (r: Result<Identity, SetError>)
      ensures r == Patched(current, props, resolve, sanitize)
    {
      var identity := current;
      var i := 0;
      while i < |props|
        invariant 0 <= i <= |props|
        invariant Patched(current, props[..i], resolve, sanitize) == Ok(identity)
      {
        assert props[..i + 1][..i] == props[..i];
        var (property, value) := props[i];
        var checked := Checked(props[i], false, resolve, sanitize);
        match checked {
          case Ok(Null) => identity := identity - {property};
          case Ok(v) => identity := identity[property := v];
          case Err(e) =>
            assert Patched(current, props[..i + 1], resolve, sanitize) == Err(e);
            PatchedFailureSticks(current, props, i + 1, resolve, sanitize);
            assert props[..|props|] == props;
            return Err(e);
        }
        i := i + 1;
      }
      assert props[..i] == props;
      r := Ok(identity);
    }

    /** The destroy loop: ids known when it starts are deleted, the others are not found. */
    method ProcessDestroys(willDestroy: seq<nat>) returns (destroyed: seq<nat>, notDestroyed: map<nat, SetError>)
      requires Valid()
      modifies this
      ensures Valid() && nextId == old(nextId) && state == old(state)
      ensures forall id :: id in destroyed <==> id in willDestroy && id in old(identities)
      ensures forall id :: id in notDestroyed <==> id in willDestroy && id !in old(identities)
      ensures forall id :: id in notDestroyed ==> notDestroyed[id] == NotFound
      ensures identities == old(identities) - set id | id in willDestroy
      ensures |destroyed| <= |willDestroy|
    {
      var known := identities.Keys;
      destroyed, notDestroyed := [], map[];
      var i := 0;
      while i < |willDestroy|
        invariant 0 <= i <= |willDestroy| && |destroyed| <= i
        invariant Valid() && nextId == old(nextId) && state == old(state)
        invariant forall id :: id in destroyed <==> id in willDestroy[..i] && id in known
        invariant forall id :: id in notDestroyed <==> id in willDestroy[..i] && id !in known
        invariant forall id :: id in notDestroyed ==> notDestroyed[id] == NotFound
        invariant identities == old(identities) - set id | id in willDestroy[..i]
      {
        assert willDestroy[..i + 1] == willDestroy[..i] + [willDestroy[i]];
        var id := willDestroy[i];
        if id in known {
          identities := identities - {id};
          destroyed := destroyed + [id];
        } else {
          notDestroyed := notDestroyed[id := NotFound];
        }
        i := i + 1;
      }
      assert willDestroy[..i] == willDestroy;
    }

    /** `identity_set`: creates, then updates, then destroys; a new state when anything changed. */
    method Set(creates: seq<(string, seq<Assignment>)>, updates: seq<(nat, seq<Assignment>)>, willDestroy: seq<nat>,
               accountEmails: set<string>, resolve: Resolver, sanitize: string -> Option<string>)
      returns (response: SetResponse, ghost afterCreates: map<nat, Identity>, ghost afterUpdates: map<nat, Identity>)
      requires Valid()
      requires forall i, j :: 0 <= i < j < |creates| ==> creates[i].0 != creates[j].0
      requires forall i, j :: 0 <= i < j < |updates| ==> updates[i].0 != updates[j].0
      modifies this
      ensures Valid()
      ensures var changed := response.created != map[] || response.updated != {} || response.destroyed != [];
              && (changed ==> state == old(state) + 1 && response.newState == Some(state))
              && (!changed ==> state == old(state) && response.newState.None?)
      ensures forall i :: 0 <= i < |creates| ==>
                var outcome := CreateOutcome(creates[i].1, accountEmails, resolve, sanitize);
                && (outcome.Ok? ==> creates[i].0 in response.created && response.created[creates[i].0] !in old(identities))
                && (outcome.Err? ==> creates[i].0 in response.notCreated && response.notCreated[creates[i].0] == outcome.error)
      ensures forall i :: 0 <= i < |updates| && updates[i].0 in willDestroy ==>
                updates[i].0 in response.notUpdated && response.notUpdated[updates[i].0] == WillDestroy
      ensures forall id :: id in response.notDestroyed ==> response.notDestroyed[id] == NotFound
      ensures forall id :: id in willDestroy ==> id !in identities
      // The creates, against the identities before the call.
      ensures CreatesReported(creates, |creates|, accountEmails, resolve, sanitize, response.created,
                              response.notCreated, afterCreates, old(identities).Keys)
      ensures forall id :: id in afterCreates <==> id in old(identities) || old(nextId) <= id < nextId
      ensures forall id :: id in old(identities) ==> afterCreates[id] == old(identities)[id]
      // The updates, against the identities the creates left.
      ensures UpdatesReported(updates, |updates|, afterCreates, willDestroy, resolve, sanitize, response.updated,
                              response.notUpdated, afterUpdates)
      ensures afterUpdates.Keys == afterCreates.Keys
      ensures forall id :: id in afterUpdates && id !in response.updated ==> afterUpdates[id] == afterCreates[id]
      // The destroys, against the identities the updates left.
      ensures forall id :: id in response.destroyed <==> id in willDestroy && id in afterUpdates
      ensures forall id :: id in response.notDestroyed <==> id in willDestroy && id !in afterUpdates
      ensures identities == afterUpdates - set id | id in willDestroy
    {
      var created, notCreated := ProcessCreates(creates, accountEmails, resolve, sanitize);
      afterCreates := identities;
      var updated, notUpdated := ProcessUpdates(updates, willDestroy, resolve, sanitize);
      afterUpdates := identities;
      var destroyed, notDestroyed := ProcessDestroys(willDestroy);
      var newState: Option<nat> := None;
      if created != map[] || updated != {} || destroyed != [] {
        state := state + 1;
        newState := Some(state);
      }
      response := SetResponse(created, notCreated, updated, notUpdated, destroyed, notDestroyed, newState);
    }
  }

  lemma {:induction false} BuiltFailureSticks(props: seq<Assignment>, n: nat, resolve: Resolver,
                                              sanitize: string -> Option<string>)
    requires n <= |props| && Built(props[..n], resolve, sanitize).Err?
    ensures Built(props, resolve, sanitize) == Built(props[..n], resolve, sanitize)
    decreases |props| - n
  {
    if n < |props| {
      assert props[..n + 1][..n] == props[..n];
      BuiltFailureSticks(props, n + 1, resolve, sanitize);
    } else {
      assert props[..n] == props;
    }
  }

  lemma {:induction false} PatchedFailureSticks(current: Identity, props: seq<Assignment>, n: nat, resolve: Resolver,
                                                sanitize: string -> Option<string>)
    requires n <= |props| && Patched(current, props[..n], resolve, sanitize).Err?
    ensures Patched(current, props, resolve, sanitize) == Patched(current, props[..n], resolve, sanitize)
    decreases |props| - n
  {
    if n < |props| {
      assert props[..n + 1][..n] == props[..n];
      PatchedFailureSticks(current, props, n + 1, resolve, sanitize);
    } else {
      assert props[..n] == props;
    }
  }
}
