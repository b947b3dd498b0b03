# Stalwart mail server: management and protocol cores in Dafny

This project models seven small, independent cores of the Stalwart mail
server (Rust) and proves properties of them:

- **Outbound queue administration** (`QueueAdmin`, with the report
  identifier codec in `ReportId`). This is the HTTP management API over
  the SMTP queue. It covers:
  - listing queued messages and pending reports, with filters and
    `page`/`limit` paging;
  - reading one message as its per-domain view;
  - rescheduling a message's domains: new `retry.due`, shortened
    `expires`;
  - cancelling recipients, then settling domains whose recipients are all
    resolved, then either keeping or removing the message;
  - reading and deleting a report by its `d!…`/`t!…` identifier;
  - the rule that accepts an RFC 3339 instant as a query parameter.
- **IMAP ACL arguments** (`Acl`). These are the SETACL, DELETEACL,
  GETACL, LISTRIGHTS and MYRIGHTS arguments. They include the mod-rights
  string of section 3.1 of RFC 4314, with the rights letters of section
  2.1 of RFC 4314 and the RFC 2086 letters `c` and `d`.
- **IMAP RENAME arguments** (`Rename`, section 6.3.5 of RFC 3501). This
  is an arity check with a distinct error for each case.
- **JMAP Identity/set** (`Identity`, section 6 of RFC 8621). It covers
  the validation of each property value and the create, update and
  destroy passes of one request against an account's identities.
- **JMAP Principal/query** (`PrincipalQuery`). This is the loop that
  combines Name, Email and Type conditions into a set of principal ids.
- **Settings management** (`Settings`, over the configuration store
  `ConfigStore`). It covers:
  - the `group` and `list` listings;
  - the POST batch of Delete, Clear and Insert changes, with the
    `assert_empty` check.
- **Bayes classifier training** (`Bayes`). These are the `train` and
  `untrain` counters of the spam filter.

Helper modules:

- `Wrappers`: `Option` and `Result`.
- `Text`: Rust's `starts_with`, `ends_with` and `contains` on strings,
  and a lower-casing that maps only the ASCII letters `A`-`Z` (Rust's
  `to_lowercase` is Unicode-aware; see "Left out").
- `Decimal`: `u64` rendering and `str::parse::<u64>`.
- `Paging`: the shared "count every match, keep one page" scan.
- `ImapRequest`: a parsed IMAP command line.

Where the code updates state, the model does so too, with classes whose
methods have `modifies` clauses:

| class | state |
|---|---|
| `QueueAdmin.QueueStore` | the queued messages and the reload signals |
| `QueueAdmin.ReportQueue` | the report headers |
| `Identity.IdentityStore` | identities, id allocator and change state |
| `Settings.SettingsStore` | a key-sorted sequence of settings |
| `Bayes.BayesModel` | token weights and learn counters |

The loops of the source become `while` loops. Each loop is proved
against a specification function, and the properties are lemmas about
those functions.

Storage reads, directory lookups and foreign helpers become inputs:

- Storage reads become input sequences or maps.
- Directory lookups become function parameters.
- `utf7_maybe_decode`, `sanitize_email`, `eval_object_references`,
  `next_delivery_event`, SMTP reply rendering and report generation
  become function parameters.
- The clock becomes a `now` parameter.

Source paths below are relative to the repository root.

## Model

| member | source | states |
|---|---|---|
| QueueAdmin.TimestampAsWritten | crates/jmap/src/api/management/queue.rs:626-639 | as written: the instant is wrapped to u64 before the `>= now` test; an accepted value is at least `now` and below 2^64 |
| QueueAdmin.TimestampAcceptsPreEpoch | crates/jmap/src/api/management/queue.rs:630-633 | the instant one second before the epoch passes the test as `u64::MAX` |
| QueueAdmin.ParseTimestamp | crates/jmap/src/api/management/queue.rs:626-639 | as intended: an instant is accepted exactly when it is not before `now`, and keeps its value |
| QueueAdmin.RescheduleTime | crates/jmap/src/api/management/queue.rs:241-244 | the reschedule time is never before `now`: it is the `at` instant when that is given and not in the past, and `now` otherwise |
| QueueAdmin.TimestampParam | crates/jmap/src/api/management/queue.rs:134-135 | a `before`/`after` filter exists exactly when the parameter is given and not in the past, and carries its instant |
| QueueAdmin.Reschedule | crates/jmap/src/api/management/queue.rs:252-269 | the domain loop yields the rescheduled message; `found` holds exactly when some pending domain's name contains the filter (any pending domain without a filter) |
| QueueAdmin.RescheduleEffect | crates/jmap/src/api/management/queue.rs:255-269 | a selected domain gets `retry.due = at`, expiry `at + 10` when it was later than `at` and unchanged otherwise, and keeps every other field (name, status, retry count, notify time); other domains are unchanged; the message's other fields, recipients included, are unchanged |
| QueueAdmin.RescheduleExpiryBounds | crates/jmap/src/api/management/queue.rs:264-266 | a selected domain's expiry ends at most `at + 10`, and after `at` exactly when it was after `at` before |
| QueueAdmin.RescheduleIdempotent | crates/jmap/src/api/management/queue.rs:253-281 | rescheduling twice to the same time equals rescheduling once, and the second call reports a match exactly when the first did |
| QueueAdmin.CountsAgree | crates/jmap/src/api/management/queue.rs:318-333 | the resolved count never exceeds the recipient count, and they are equal exactly when every recipient of the domain is resolved |
| QueueAdmin.Cancel | crates/jmap/src/api/management/queue.rs:293-357 | the cancel branch yields the outcome (untouched, saved with the new message, removed) and `found` of the cancel specification |
| QueueAdmin.CancelRecipients | crates/jmap/src/api/management/queue.rs:296-310 | each recipient whose lower-cased address contains the filter is cancelled and the others kept; `found` holds exactly when one matched |
| QueueAdmin.SettleDomains | crates/jmap/src/api/management/queue.rs:311-337 | each domain is settled against the new recipients, position by position |
| QueueAdmin.CountDomain | crates/jmap/src/api/management/queue.rs:318-331 | the two counters are the recipients of the domain and its resolved ones; they agree exactly when all are resolved |
| QueueAdmin.CancelEffect | crates/jmap/src/api/management/queue.rs:296-352 | with a matching filter exactly the matching recipients become `PermanentFailure("Delivery canceled.")`, keeping every other field; a pending domain becomes Completed exactly when all its recipients are resolved, keeping its other fields, and is otherwise unchanged; resolved domains are untouched; the message's other fields are unchanged; the message is removed exactly when no domain is pending, else saved |
| QueueAdmin.CancelNoMatch | crates/jmap/src/api/management/queue.rs:296-311 | a filter matching no recipient leaves the message untouched and reports false |
| QueueAdmin.CancelAll | crates/jmap/src/api/management/queue.rs:354-357 | without a filter the message is removed and true is reported |
| QueueAdmin.CancelSettles | crates/jmap/src/api/management/queue.rs:313-337 | after a cancel no domain stays pending when all its recipients are resolved |
| QueueAdmin.QueueStore.RescheduleMessage | crates/jmap/src/api/management/queue.rs:240-286 | an unknown id is not found and changes nothing; otherwise `data` is `found`, and only when found the message is replaced by its rescheduled form and one reload is signalled |
| QueueAdmin.QueueStore.CancelMessage | crates/jmap/src/api/management/queue.rs:287-366 | an unknown id is not found and changes nothing; otherwise `data` is `found` and the message is kept, replaced or removed as the cancel outcome says; no reload is signalled |
| QueueAdmin.QueueStore.GetMessage | crates/jmap/src/api/management/queue.rs:226-239 | a view exists exactly when the parsed id is queued, and it is the view of that message (`ViewOf`): its header fields, and each domain with its recipients |
| QueueAdmin.DomainViewOf | crates/jmap/src/api/management/queue.rs:515-561 | a domain's view keeps its name, retry count, retry time and expiry; shows the next notification exactly when it lies after `now`; keeps whether the status is pending or final; lists as many recipients as have its `domain_idx` |
| QueueAdmin.ViewOf | crates/jmap/src/api/management/queue.rs:504-564 | the message view keeps the id, return path, creation time, size, priority and envelope id, and one domain view per domain, in order, under the domain's name |
| QueueAdmin.FilterAtDomainCount | crates/jmap/src/api/management/queue.rs:538-541 | the recipients listed under a domain are as many as those with its `domain_idx` |
| QueueAdmin.RecipientsPartitioned | crates/jmap/src/api/management/queue.rs:538-541 | with every `domain_idx` in range, the per-domain counts add up to all recipients |
| QueueAdmin.ViewShape | crates/jmap/src/api/management/queue.rs:504-564 | the view keeps every domain in order with its name; domain `i` lists exactly its recipients, in order, as their views; the next notification shows only when it lies after `now`; pending status is preserved |
| QueueAdmin.ViewCoversRecipients | crates/jmap/src/api/management/queue.rs:515-561 | with well-formed indices the view lists every recipient once in total |
| QueueAdmin.ListMessages | crates/jmap/src/api/management/queue.rs:130-225 | `total` counts every matching message; `items` are the matches of the requested page, ids or full views |
| QueueAdmin.MessageMatchesMeaning | crates/jmap/src/api/management/queue.rs:159-184 | with some filter, a message is listed exactly when the `text` is in the return path or a recipient (or else `from` is in the return path and `to` in a recipient) and its next delivery lies before `before` and after `after` |
| QueueAdmin.TextOverridesFromTo | crates/jmap/src/api/management/queue.rs:160-179 | with a `text` filter the `from` and `to` filters make no difference |
| QueueAdmin.NoFiltersMatchAll | crates/jmap/src/api/management/queue.rs:144-160 | without any filter every message matches |
| QueueAdmin.ReportTypeParam | crates/jmap/src/api/management/queue.rs:369-373 | a type filter exists exactly for `dmarc` and `tls` |
| QueueAdmin.ListReports | crates/jmap/src/api/management/queue.rs:367-441 | `total` counts every matching report key; `items` are the identifiers of the requested page |
| QueueAdmin.ReportListingCounts | crates/jmap/src/api/management/queue.rs:404-408 | a key is counted exactly when it is in the scan, has a non-zero `seq_id`, is of the requested type (any without one) and its domain contains the filter (any without one) |
| QueueAdmin.FirstPageFull | crates/jmap/src/api/management/queue.rs:409-420 | page one holds `limit` items whenever at least `limit` entries match |
| QueueAdmin.GetReport | crates/jmap/src/api/management/queue.rs:442-478 | an identifier that does not decode is not found, whatever the report source holds |
| QueueAdmin.ListedReportResolves | crates/jmap/src/api/management/queue.rs:442-453 | every identifier the listing hands out leads back to its own header's report |
| QueueAdmin.ReportQueue.DeleteReport | crates/jmap/src/api/management/queue.rs:479-498 | true exactly when the identifier decodes, in which case that header is deleted; otherwise nothing changes |
| ReportId.QueueId | crates/jmap/src/api/management/queue.rs:594-606 | the identifier of a header with u64 fields and no `!` in its domain splits on `!` into exactly its class letter, domain, policy hash, sequence id and due time |
| ReportId.ParseQueuedReportId | crates/jmap/src/api/management/queue.rs:608-622 | a header is decoded exactly when the identifier has at least five `!`-separated fields, the first `d` or `t`, and the third to fifth parse as u64; it is the class, domain and numbers of those fields |
| ReportId.Split | crates/jmap/src/api/management/queue.rs:609-610 | splitting always yields at least one part |
| ReportId.SplitJoin | crates/jmap/src/api/management/queue.rs:594-609 | splitting on `!` undoes joining with `!` when no part holds a `!` |
| ReportId.RoundTrip | crates/jmap/src/api/management/queue.rs:594-622 | decoding the identifier of any header with u64 fields and no `!` in its domain gives back that header |
| ReportId.QueueIdInjective | crates/jmap/src/api/management/queue.rs:594-606 | two such headers never share an identifier |
| ReportId.ExtraFieldsIgnored | crates/jmap/src/api/management/queue.rs:608-616 | fields after the fifth are ignored |
| ReportId.ParseRejects | crates/jmap/src/api/management/queue.rs:608-621 | fewer than five fields, or a class other than `d` or `t`, decode to nothing |
| ReportId.SeparatorInDomainBreaksRoundTrip | crates/jmap/src/api/management/queue.rs:597-615 | a domain `a!b` (pieces free of `!`, `b` not a u64) does not survive the round trip: its identifier decodes to nothing |
| ReportId.SeparatorInDomainExample | crates/jmap/src/api/management/queue.rs:597-615 | the identifier of a DMARC header with domain `a!b` decodes to nothing |
| Decimal.ToDecimal | crates/jmap/src/api/management/queue.rs:598 | a number renders as a non-empty run of digits without a leading zero |
| Decimal.ParseU64 | crates/jmap/src/api/management/queue.rs:613-615 | a parsed field fits in a u64 |
| Decimal.ParseDecimal | crates/jmap/src/api/management/queue.rs:613-615 | parsing gives back every rendered u64 |
| Decimal.ParseRejects | crates/jmap/src/api/management/queue.rs:613-615 | an empty field, a lone `+`, or a non-digit (after an optional leading `+`) is refused |
| Paging.Paginate | crates/jmap/src/api/management/queue.rs:187-201 | the shared scan counts every match and keeps the projected matches after skipping `(page-1)*limit` of them, at most `limit` (all when 0) |
| Paging.WindowShape | crates/http/src/management/settings.rs:204-213 | a page is a contiguous run of at most `limit` matches from the offset, cut short only by the end; empty past the end |
| Acl.BodyStart | crates/imap-proto/src/parser/acl.rs:105-112 | the letters start after a leading sign, exactly when the operation is Add or Remove |
| Acl.ParseModRights | crates/imap-proto/src/parser/acl.rs:86-126 | the loop yields the mod-rights reply of the string |
| Acl.InvalidAt | crates/imap-proto/src/parser/acl.rs:113-117 | the first byte that is not a rights letter is the one reported as invalid |
| Acl.CollectedRights | crates/imap-proto/src/parser/acl.rs:88-90 | the rights list has no duplicates, holds exactly the rights some letter names, in order of first mention |
| Acl.SignsOnlyFirst | crates/imap-proto/src/parser/acl.rs:105-117 | a `+` or `-` anywhere but first is rejected as an invalid character |
| Acl.Rfc2086Letters | crates/imap-proto/src/parser/acl.rs:97-104 | `d` names the same right as `t`, and `c` the same as `k` |
| Acl.NoRightsRejected | crates/imap-proto/src/parser/acl.rs:121-125 | the empty string and a lone sign are rejected with "At least one right has to be specified." |
| Acl.AllLettersAccepted | crates/imap-proto/src/parser/acl.rs:87-123 | a string of rights letters after an optional sign is accepted with the sign's operation and the rights it names |
| Acl.CollectedLrswikda | crates/imap-proto/src/parser/acl.rs:146-165 | "lrswikda" and "lrswicda" name the same eight rights |
| Acl.Rfc4314ReplaceExample | crates/imap-proto/src/parser/acl.rs:146-165 | "lrswikda" replaces with the eight rights |
| Acl.Rfc4314AddExample | crates/imap-proto/src/parser/acl.rs:168-182 | "+cda" adds CreateMailbox, DeleteMessages and Administer |
| Acl.Rfc4314RemoveExample | crates/imap-proto/src/parser/acl.rs:185-204 | "-lrswicda" removes the eight rights |
| Acl.ParseAcl | crates/imap-proto/src/parser/acl.rs:37-82 | the tag is carried into the reply; each missing token gives its own error; a mailbox or identifier token that is not a string gives that token's BAD reply, and invalid rights give the mod-rights error; a success has the decoded mailbox, an identifier exactly for the commands that take one, and rights exactly for SETACL |
| Acl.AclExtraTokensIgnored | crates/imap-proto/src/parser/acl.rs:44-74 | tokens beyond those the command needs change nothing |
| Acl.AclAccepts | crates/imap-proto/src/parser/acl.rs:63-81 | a request with string mailbox and identifier tokens and valid rights succeeds, whatever the command |
| ImapRequest.StringArgument | crates/imap-proto/src/parser/rename.rs:23-27 | a string token gives its text, any other a BAD reply with the request's tag |
| Rename.ParseRename | crates/imap-proto/src/parser/rename.rs:17-45 | success exactly for two string tokens, with the decoded old and new names and the tag; zero, one or more than two tokens give their own errors; a non-string token gives a BAD reply; the tag is kept |
| Identity.Utf8Len | crates/jmap/src/identity/set.rs:209 | a string's length in bytes lies between its character count and four times that |
| Identity.ScanAddressMeaning | crates/jmap/src/identity/set.rs:226-249 | the address-object scan accepts exactly when every property is an Email text, a Name text or a Name null, and one is an Email |
| Identity.ValidateIdentityValue | crates/jmap/src/identity/set.rs:203-268 | Name: text under 255 bytes or null; Email: only on create, text under 255 bytes that sanitises, stored sanitised; signatures: text under 2048 bytes or null; ReplyTo/Bcc: null or a list of valid address objects; a patch, an unknown property and every other refusal is "Field could not be set.", except a create's Email that does not sanitise ("Invalid e-mail address.") and a ReplyTo/Bcc list with an invalid object ("Invalid e-mail address object."); every error names the property |
| Identity.Checked | crates/jmap/src/identity/set.rs:51-53 | a back-reference error is reported as it is; a validation error names the property; an accepted value other than the e-mail is the resolved value; an update never sets the e-mail; unknown properties are refused |
| Identity.BuiltValid | crates/jmap/src/identity/set.rs:50-64 | every property a create keeps was given and passed validation, with that value |
| Identity.MissingEmailRejected | crates/jmap/src/identity/set.rs:87-95 | a create without an Email fails with "Missing e-mail address." |
| Identity.CreatedHasAccountEmail | crates/jmap/src/identity/set.rs:66-95 | a created identity carries one of the account's own addresses |
| Identity.UpdateKeepsEmail | crates/jmap/src/identity/set.rs:139-155 | an update never adds, removes or changes the e-mail address |
| Identity.PatchedStep | crates/jmap/src/identity/set.rs:144-149 | on update null removes the property and a value sets it; every other property keeps both its presence and its value |
| Identity.WillDestroyWins | crates/jmap/src/identity/set.rs:117-120 | updating an id that is being destroyed fails with will_destroy |
| Identity.BuiltFailureSticks | crates/jmap/src/identity/set.rs:59-62 | the first invalid property of a create decides its failure |
| Identity.PatchedFailureSticks | crates/jmap/src/identity/set.rs:150-153 | the first invalid property of an update decides its failure |
| Identity.ReportedAfterRecord | crates/jmap/src/identity/set.rs:97-111 | writing create `i` under a fresh id keeps earlier creates' reports and adds its own |
| Identity.ReportedAfterUpdate | crates/jmap/src/identity/set.rs:157-169 | recording update `i` keeps earlier updates' reports and adds its own |
| Identity.IdentityStore.ProcessCreates | crates/jmap/src/identity/set.rs:47-112 | each create is reported as created under a fresh id or not created with its error; existing identities are unchanged; new ids lie in the allocated range |
| Identity.IdentityStore.Record | crates/jmap/src/identity/set.rs:97-111 | a successful create is written under the next id; a failed one only noted |
| Identity.IdentityStore.CreateIdentity | crates/jmap/src/identity/set.rs:48-95 | one create's outcome: its properties, then its e-mail address |
| Identity.IdentityStore.BuildIdentity | crates/jmap/src/identity/set.rs:50-64 | the property loop of a create |
| Identity.IdentityStore.ProcessUpdates | crates/jmap/src/identity/set.rs:115-170 | each update is reported as its outcome says against the identities before the pass; ids not updated keep their identity; the set of ids is unchanged |
| Identity.IdentityStore.PatchIdentity | crates/jmap/src/identity/set.rs:139-155 | the property loop of an update |
| Identity.IdentityStore.ProcessDestroys | crates/jmap/src/identity/set.rs:173-192 | ids known at the start are destroyed, the others reported not_found; the destroyed ids leave the store |
| Identity.IdentityStore.Set | crates/jmap/src/identity/set.rs:33-200 | creates, then updates, then destroys; every create is reported as its outcome says against the identities before the call, under a fresh id; every update is reported as its outcome says against the identities the creates left, and ids not updated keep their identity; the ids being destroyed are destroyed when they exist then and reported not found otherwise; the final identities are those the updates left minus the destroyed ids; a new state exactly when something changed |
| PrincipalQuery.Query | crates/jmap/src/principal/query.rs:38-90 | the loop yields the query's ids or its error |
| PrincipalQuery.FoldStopsAtError | crates/jmap/src/principal/query.rs:77-81 | the first unsupported condition ends the loop |
| PrincipalQuery.UnsetUntilNarrowed | crates/jmap/src/principal/query.rs:38-75 | the result stays unset exactly while no Name or Email condition has been seen |
| PrincipalQuery.NoConditionSelectsAll | crates/jmap/src/principal/query.rs:85-90 | without Name or Email conditions every principal is selected |
| PrincipalQuery.TypeIgnored | crates/jmap/src/principal/query.rs:76 | a Type condition changes nothing |
| PrincipalQuery.UnsupportedFails | crates/jmap/src/principal/query.rs:77-81 | any unsupported condition makes the query fail |
| PrincipalQuery.LaterConditionsNarrow | crates/jmap/src/principal/query.rs:50-73 | after the first Name or Email condition each later one keeps or narrows the results |
| PrincipalQuery.FirstConditionReplaces | crates/jmap/src/principal/query.rs:50-71 | the first Name or Email condition sets the results to its own lookup |
| PrincipalQuery.AtMostOne | crates/jmap/src/principal/query.rs:42-75 | with a Name or Email condition at most one principal is selected |
| Settings.NormalizePrefix | crates/http/src/management/settings.rs:61-70 | the prefix ends with `.`, adding one only when missing; no prefix is empty |
| Settings.NormalizeSuffix | crates/http/src/management/settings.rs:71-80 | the suffix starts with `.`, adding one only when missing; no suffix is empty |
| Settings.NormalizePrefixIdempotent | crates/http/src/management/settings.rs:61-70 | normalising a prefix twice is normalising it once |
| Settings.NormalizeSuffixIdempotent | crates/http/src/management/settings.rs:71-80 | normalising a suffix twice is normalising it once |
| Settings.GatherRecord | crates/http/src/management/settings.rs:114-126 | the record loop fills `_id` and the wanted fields under `id.`, leaving the loop after the record's block |
| Settings.GatheredAll | crates/http/src/management/settings.rs:118-125 | on sorted settings the early exit loses no field: the record is complete |
| Settings.FieldsMeaning | crates/http/src/management/settings.rs:115-122 | every wanted field under `id.` is in the record with its value |
| Settings.FieldsOnlyListed | crates/http/src/management/settings.rs:115-122 | every key of a record is `_id` or a field some listed key contributes |
| Settings.FieldsOutside | crates/http/src/management/settings.rs:115-119 | an id with no field holds only `_id` |
| Settings.Group | crates/http/src/management/settings.rs:55-187 | the `group` endpoint gives the total and items of the grouped or flat listing |
| Settings.GroupRecords | crates/http/src/management/settings.rs:89-145 | the grouped branch: ids, records, filter and page |
| Settings.AllRecords | crates/http/src/management/settings.rs:113-126 | the record of every id, in order |
| Settings.GroupedRecordComplete | crates/http/src/management/settings.rs:88-126 | every grouped record holds all wanted fields of its id |
| Settings.UnfilteredFlatCountsAll | crates/http/src/management/settings.rs:155-176 | without a filter the flat listing counts every setting under the prefix |
| Settings.ListPage | crates/http/src/management/settings.rs:188-222 | `total` is the number of settings under the prefix; items are the page after `(page-1)*limit`, at most `limit` (all when 0) |
| Settings.ListPageItemsStored | crates/http/src/management/settings.rs:207-213 | every listed item is a stored setting under the prefix, shown without it |
| Settings.Changed | crates/http/src/management/settings.rs:283-344 | a change fails exactly when it is an Insert with `assert_empty` whose assertion fails |
| Settings.Applied | crates/http/src/management/settings.rs:282-345 | a batch fails only at an Insert that asserts emptiness |
| Settings.ChangedSorted | crates/http/src/management/settings.rs:283-344 | every change keeps the store sorted by key |
| Settings.AppliedSorted | crates/http/src/management/settings.rs:282-345 | a batch keeps the store sorted by key, whether it completes or stops |
| Settings.AppliedStops | crates/http/src/management/settings.rs:319-323 | once an assertion fails the later changes do nothing |
| Settings.FailedAssertKeepsEarlier | crates/http/src/management/settings.rs:282-323 | a failed assertion ends the batch with the earlier changes applied and none of the later ones |
| Settings.AppliedConcat | crates/http/src/management/settings.rs:282-345 | changes apply in order: a batch is its first part, then the rest on the store the first part left |
| Settings.AssertFailsUnderPrefix | crates/http/src/management/settings.rs:309-320 | with a prefix the assertion fails exactly when a stored key starts with `prefix.` |
| Settings.InsertStoresUnderPrefix | crates/http/src/management/settings.rs:328-342 | an inserted value is stored under `prefix.key`, or `key` without a prefix, when no later value names the same key |
| Settings.InsertKeepsOthers | crates/http/src/management/settings.rs:328-342 | an Insert leaves every key it does not write as it was |
| Settings.ClearMatchingEffect | crates/http/src/management/settings.rs:290-299 | a filtered clear removes exactly the keys under the prefix whose lower-cased key or value contains the filter |
| Settings.UpperCaseNeverContained | crates/http/src/management/settings.rs:294-295 | a lower-cased string never contains a filter with an upper-case letter |
| Settings.UpperCaseFilterClearsNothing | crates/http/src/management/settings.rs:290-299 | a clear filter with an upper-case letter removes nothing, since the filter is not lower-cased |
| Settings.SettingsStore.Update | crates/http/src/management/settings.rs:282-350 | the store after the batch is the ordered application of its changes; the reply is an error exactly when an assertion failed |
| Settings.SettingsStore.Apply | crates/http/src/management/settings.rs:283-344 | one change applies as specified, or its failed assertion leaves the store as it was |
| Settings.SettingsStore.InsertValues | crates/http/src/management/settings.rs:304-343 | an Insert checks its assertion, then stores its values under their keys |
| Settings.SettingsStore.DeleteKeys | crates/http/src/management/settings.rs:284-288 | Delete clears each key in turn |
| Settings.SettingsStore.ClearMatching | crates/http/src/management/settings.rs:290-299 | a filtered Clear removes the matching keys of the listing |
| ConfigStore.PutGet | crates/http/src/management/settings.rs:328-342 | after writing a key, reading it gives the new value and every other key reads as before |
| ConfigStore.PutAllLast | crates/http/src/management/settings.rs:328-342 | a key written several times holds its last value |
| ConfigStore.ClearAllGet | crates/http/src/management/settings.rs:284-288 | after clearing keys, those keys are gone and every other key reads as before |
| ConfigStore.ClearPrefixGet | crates/http/src/management/settings.rs:300-302 | after clearing a prefix, the keys starting with it are gone and the others read as before |
| ConfigStore.ListSorted | crates/http/src/management/settings.rs:88 | a listing, with or without the prefix, is in key order |
| Bayes.AdjustedCounts | crates/nlp/src/bayes/train.rs:39-46 | each occurrence moves its token's count in the message's class, duplicates per occurrence; the other class and other tokens stay; new tokens start at zero |
| Bayes.BayesModel.Train | crates/nlp/src/bayes/train.rs:29-47 | the class's learn counter goes up by one and each occurrence's count in that class by one |
| Bayes.BayesModel.Untrain | crates/nlp/src/bayes/train.rs:49-67 | the class's learn counter goes down by one and each occurrence's count in that class by one |
| Bayes.TrainNonNegative | crates/nlp/src/bayes/train.rs:39-46 | training keeps every count at zero or above |
| Bayes.UntrainNonNegative | crates/nlp/src/bayes/train.rs:59-66 | untraining tokens the counts cover keeps every count at zero or above |
| Bayes.TrainCovers | crates/nlp/src/bayes/train.rs:39-46 | after training, the counts cover the same tokens, so untraining is possible |
| Bayes.UntrainUndoesTrain | crates/nlp/src/bayes/train.rs:29-67 | untraining after training restores every count; tokens first seen in training stay at zero |

## Left out

- Bayes.BayesModel.Untrain: requires positive learn counters and counts that cover the tokens, instead of modelling unsigned underflow. The counter types are not part of this model.
- Storage, the async runtime and the queue manager channel are left out. Messages, identities, settings and reports live in maps and sequences. The reload signal is a counter.
- The message's `save_changes` and `remove` event keys (`prev_event`, `next_event`) are left out. So is the binary key layout of the queue and report ranges.
- Report generation (`generate_*_aggregate_report`) is a function parameter.
- The DMARC and TLS delete calls are the removal of the header from a set.
- RFC 3339 parsing and formatting, and the JSON and serde framing of requests and replies, are left out. Instants are integer seconds.
- Foreign helpers are parameters, and their own error returns (`?`) are left out:
  - `utf7_maybe_decode`, `sanitize_email` and `eval_object_references`;
  - the directory queries and `email_to_id`;
  - `next_delivery_event`.
- Principal/query: `build_query_response`, sorting and paging of the query result are left out.
- Principal/query: directory errors are left out.
- Settings: the `keys` endpoint and the DELETE-prefix route are not modelled.
- Settings: permission checks and body parsing are not modelled.
- Store write errors are left out.
- Scans that stop early because a stored value fails to decode are left out.
- Bayes scoring and tokenisation are left out; tokens are their hashes.
- `(page-1)*limit` is computed on unbounded integers, so `usize` overflow is not modelled.
- String lengths are counted in characters and `contains` works on characters. The exception is Identity's byte length (`Identity.Utf8Len`).
- The configuration store is a key-sorted sequence. `list(prefix, strip)` returns the entries under the prefix in key order, with the prefix removed when `strip` is set.
- Identity/set: the client ids of creates, and the ids of updates, are required to be distinct. They are map keys in the request.
- The grouped settings listing builds the record of every id, then filters and pages. This gives the same items as the interleaved loop.
- Reschedule: an `at` that is absent or unparsable falls back to `now`, as the code does. So does an `at` before `now`, under the corrected timestamp rule below. It is not rejected.
- QueueAdmin.RescheduleTime: follows the corrected timestamp rule `QueueAdmin.ParseTimestamp` of "Findings", not the code as written. An `at` before the epoch gives `now` here; the code as written reschedules to the instant wrapped to u64 (`QueueAdmin.TimestampAsWritten`). `QueueAdmin.QueueStore.RescheduleMessage` inherits this. So the `time + 10` u64 overflow that only the wrapped value can reach is not modelled either.
- QueueAdmin.TimestampParam: follows the same corrected rule. A `before` or `after` before the epoch gives no filter here; the code as written filters against the wrapped u64. `QueueAdmin.ListMessages` inherits this.
- QueueAdmin.ListReports: the `domain` parameter is lower-cased by mapping only `A`-`Z`. Rust's `to_lowercase` is Unicode-aware, so a non-ASCII upper-case letter in the parameter is lower-cased by the code but kept here. Unicode case mapping is not part of this model.
- Settings.Group: the `filter` parameter, and the keys and values it is matched against, are lower-cased by mapping only `A`-`Z`, against Rust's Unicode `to_lowercase`. This also holds for `Settings.GroupRecords` and the flat listing. Unicode case mapping is not part of this model.
- Settings.ClearMatchingEffect: the keys and values a filtered clear matches are lower-cased by mapping only `A`-`Z`, against Rust's Unicode `to_lowercase`. This also holds for `Settings.SettingsStore.ClearMatching`, `Settings.UpperCaseNeverContained` and `Settings.UpperCaseFilterClearsNothing`, whose "upper-case letter" means `A`-`Z`.
- Identity/set: `SetResponse::from_request` rejects a request with more than `set_max_objects` objects before any pass runs. This limit check is not modelled.

## Findings

| source | as written | input that shows it | evidently intended | confidence | as-written member | corrected member |
|---|---|---|---|---|---|---|
| crates/jmap/src/api/management/queue.rs:631 | the RFC 3339 instant (an i64) is cast to u64 before the `>= now()` test | `at=1969-12-31T23:59:59Z` (instant -1) is accepted as 18446744073709551615 | accept only instants at or after now | high; not executed | QueueAdmin.TimestampAsWritten, QueueAdmin.TimestampAcceptsPreEpoch | QueueAdmin.ParseTimestamp |
