# octodns: Cloudflare provider and ACME challenge CNAME source

This project models, in Dafny, two parts of octodns.

**The Cloudflare provider** (`octodns/provider/cloudflare.py`):

- it lists zones and their records page by page, caching both listings;
- it decodes listed records into octodns record data (`_data_for_*`) and encodes records back into wire fragments (`_contents_for_*`, `_gen_contents`);
- it groups listed records into zone records (`populate`);
- it filters planned changes (`_include_change`);
- it applies a plan (`_apply`, `_apply_Create`, `_apply_Update`, `_apply_Delete`);
- it builds the message of its authentication error.

**The ACME challenge CNAME source** (`octodns/source/acme_challenge_cnames.py`) adds a challenge CNAME next to every A, AAAA and CNAME record of a zone that is not a wildcard. Each CNAME points into a separate target zone.

Modules:

- `DnsRecord` (`dns_record.dfy`): record types, record data and the zone. `Zone` is a class whose `records` map `add_record` updates.
- `Text` (`text.dfy`): `s[:-1]`, and the two `str.replace` calls of the TXT codec with their round-trip lemmas.
- `CloudflareWire` (`cloudflare_wire.dfy`): the codec, and the `Call` datatype for the requests the provider makes.
- `CloudflareDirectory` (`cloudflare_directory.dfy`):
  - the paginated listings;
  - the two caches (`Cache`);
  - the step functions `ZonesStep` and `RecordsStep`, which give the new caches, the value and the requests of the `zones` property and of `zone_records`.
- `CloudflareFilter` (`cloudflare_filter.dfy`): `_include_change` and the authentication error message.
- `CloudflarePopulate` (`cloudflare_populate.dfy`): what `populate` adds to a zone.
- `CloudflareUpdate` (`cloudflare_update.dfy`): the request sequences of `_apply_Update` and `_apply_Delete`, as functions of the change and of the live records, with their accounting lemmas.
- `CloudflareProvider` (`cloudflare_provider.dfy`): the class `Provider`.
  - Its fields are the `_zones` and `_zone_records` caches and a `log` of requests, which stands in for the HTTP session.
  - Its methods run the source's loops, and each is proved against the step functions.
  - `ApplyStep`, `ChangesStep` and `ChangeStep` specify `_apply` and the dispatch of each change.
- `AcmeChallengeCnames` (`acme_challenge_cnames.dfy`): the class `Source`, with its constructor and a `Populate` method that updates a `Zone` in place, plus the lemmas about what it generates.

The remote service is a value of type `Remote`: the pages it answers to each listing request. A page past the last one is empty. POST, PUT, DELETE and zone creation are appended to the provider's `log`. They do not change `Remote`.

Where the documented behaviour and the code disagree, the model follows the code:

- **Listing requests.** A listing of N items served P per page is read in N / P + 1 requests (integer division), not ceil(N / P). When P divides N, the last full page is followed by one more request that comes back empty (`CloudflareDirectory.PaginateChunks`).
- **Trailing dots.** Decoding appends a dot to the content of CNAME, ALIAS, MX and NS records. Before comparing, `_apply_Update` appends one for records of type CNAME, MX and NS. It does not do so for ALIAS, although an ALIAS is sent as CNAME. The service is modelled as keeping hostname content (wire types CNAME, MX and NS) without its trailing dot, which is what the decode side undoes (`CloudflareWire.Stored`).
- **ALIAS updates and deletes.** An ALIAS record is sent as a root CNAME. `_apply_Update` and `_apply_Delete` look for live records of type `ALIAS`, which the service never lists. An ALIAS update therefore only POSTs (`CloudflareUpdate.AliasUpdateOnlyPosts`), and an ALIAS delete removes nothing.
- **Re-applying an update.** An update is described as safe to apply again. `_apply_Update` takes its adds from the change's existing record (octodns/provider/cloudflare.py:301-321), not from what the service holds. Applying the same change a second time, once the service holds the new record, therefore POSTs every add again (`CloudflareUpdate.ReapplyPosts`). An update planned again from the service's listing sends nothing (`CloudflareUpdate.UpdateAgainstStored`).

## Model

| member | source | states |
|---|---|---|
| Text.DropLast | octodns/provider/cloudflare.py:256 | `s[:-1]` removes exactly the last character; an empty string stays empty |
| Text.DropLastAppend | octodns/provider/cloudflare.py:381 | dropping the last character of `s + [c]` gives back `s` (a zone name without its dot) |
| Text.UnescapeEscape | octodns/provider/cloudflare.py:241-243 | the encode replacement `'\;' -> ';'` undoes the decode replacement `';' -> '\;'` on every string |
| Text.EscapeIsEscaped | octodns/provider/cloudflare.py:105-110 | every semicolon of a decoded TXT value has a backslash before it |
| Text.EscapeUnescape | octodns/provider/cloudflare.py:241-243 | encoding then decoding a value gives it back if and only if all its semicolons are already escaped |
| Text.EscapedRoundTrip | octodns/provider/cloudflare.py:241-243 | a value whose semicolons are all escaped survives encode then decode |
| DnsRecord.ParseType | octodns/provider/cloudflare.py:40-41 | a listed type name is supported exactly when it names one of the nine supported types, and then it parses to that type |
| DnsRecord.ParseTypeName | octodns/provider/cloudflare.py:40-41 | every supported type's name parses back to that type |
| DnsRecord.Zone.AddRecord | octodns/source/acme_challenge_cnames.py:47 | `add_record(replace=True)`: the record map gains the key, replacing any record of the same name and type, and nothing else changes |
| CloudflareWire.DataFor | octodns/provider/cloudflare.py:94-151 | decoded data has the first listed record's TTL and values of the right shape for the type: one value per listed record, or a single value for CNAME and ALIAS |
| CloudflareWire.DataForMultiple | octodns/provider/cloudflare.py:94-99 | A, AAAA and SPF values are the listed contents, in listing order |
| CloudflareWire.ContentsFor | octodns/provider/cloudflare.py:222-253 | one payload per value of the record |
| CloudflareWire.GenContentsDecoration | octodns/provider/cloudflare.py:255-271 | every fragment carries the TTL raised to at least 120, the fqdn without its dot, and the wire type, which is CNAME for an ALIAS |
| CloudflareWire.GenContentsCount | octodns/provider/cloudflare.py:255-271 | a record encodes to one fragment per value, and CNAME and ALIAS to exactly one |
| CloudflareWire.GenContentsSingle | octodns/provider/cloudflare.py:245-246 | a CNAME or ALIAS encodes to the single CNAME fragment carrying its value |
| CloudflareWire.EncodeDecode | octodns/provider/cloudflare.py:94-151 | decode then encode gives back the listed payloads: unchanged for A, AAAA, SPF, CAA and TXT, with a trailing dot for CNAME, ALIAS, MX and NS |
| CloudflareWire.CanonicalRoundTrip | octodns/provider/cloudflare.py:94-151 | every record but TXT whose hostnames end with a dot, encoded, stored (hostnames without the dot) and decoded, comes back with the same values and its TTL clamped to the floor |
| CloudflareWire.GenContentsDotted | octodns/provider/cloudflare.py:222-271 | a record whose hostnames end with a dot encodes to fragments whose CNAME, MX and NS content ends with a dot |
| CloudflareWire.TxtCanonicalRoundTrip | octodns/provider/cloudflare.py:241-243 | a TXT record comes back with the same values if and only if every semicolon in them is escaped |
| CloudflareDirectory.FetchFromStops | octodns/provider/cloudflare.py:81-88 | from page n the loop requests consecutive pages, all full but the last, and returns exactly their results concatenated |
| CloudflareDirectory.PaginateStops | octodns/provider/cloudflare.py:79-89 | the listing starts at page 1, stops at the first page that is not full, and returns the results of pages 1 to that page |
| CloudflareDirectory.FetchFromNext | octodns/provider/cloudflare.py:79-89 | one turn of the listing loop: a full page is followed by the next request, a page that is not full ends the listing at its own page number |
| CloudflareDirectory.PaginateChunks | octodns/provider/cloudflare.py:162-169 | over N items served P per page, the listing returns the N items in order after R requests, with (R - 1) * P <= N < R * P |
| CloudflareDirectory.ZoneMapKeys | octodns/provider/cloudflare.py:90 | every listed zone is a key (its name plus a dot); every key ends with a dot and maps to the id of a listed zone of that name |
| CloudflareDirectory.ZonesStep | octodns/provider/cloudflare.py:76-92 | `zones` leaves the record cache alone and caches the listing it returns; once cached, the listing is returned with no request |
| CloudflareDirectory.RecordsStep | octodns/provider/cloudflare.py:153-173 | `zone_records` lists zones when needed, keeps a known zone listing, and changes the record cache at most by caching this zone's records |
| CloudflareDirectory.RecordsCached | octodns/provider/cloudflare.py:154-173 | a cached zone's records are returned without any request |
| CloudflareDirectory.RecordsUnknownZone | octodns/provider/cloudflare.py:153-157 | for a zone the service does not list, whether or not the zone listing was cached, `zone_records` returns no records, caches nothing for the zone, and makes only the zone listing's requests |
| CloudflareFilter.Clamped | octodns/provider/cloudflare.py:217 | the values are kept; a TTL at or above the floor is unchanged and one below it becomes exactly 120 |
| CloudflareFilter.IncludeChange | octodns/provider/cloudflare.py:205-220 | root NS changes are excluded; an update whose clamped new data equals the existing data is excluded; everything else gets the base decision |
| CloudflareFilter.BelowFloorTtlExcluded | octodns/provider/cloudflare.py:214-219 | lowering a TTL held at 120 to below 120, with the same values, is not planned |
| CloudflareFilter.TtlChangeDelegated | octodns/provider/cloudflare.py:214-220 | a TTL change at or above the floor is left to the base decision |
| CloudflareFilter.BelowFloorAgainstLowerTtl | octodns/provider/cloudflare.py:214-220 | a below-floor TTL against a record also held below the floor is left to the base decision |
| CloudflareFilter.ValueChangeDelegated | octodns/provider/cloudflare.py:214-220 | a change of values is left to the base decision |
| CloudflareFilter.AuthErrorMessage | octodns/provider/cloudflare.py:17-24 | the message is the first error's message; if the list is missing or empty, or the first entry has no message, it is 'Authentication error' |
| CloudflarePopulate.GroupOf | octodns/provider/cloudflare.py:184-187 | a listed record falls into a group exactly when its type is supported; the group is its relative name and listed type |
| CloudflarePopulate.MembersSpec | octodns/provider/cloudflare.py:182-187 | a group's members are exactly the listed records that fall into it |
| CloudflarePopulate.GroupOrder | octodns/provider/cloudflare.py:189-190 | the groups are visited each once |
| CloudflarePopulate.GroupOrderSpec | octodns/provider/cloudflare.py:182-190 | the groups visited are exactly the groups of the supported listed records |
| CloudflarePopulate.MembersNonEmpty | octodns/provider/cloudflare.py:187 | a visited group has at least one member |
| CloudflarePopulate.Populated | octodns/provider/cloudflare.py:189-200 | one entry per group, keyed by the group's name and type (a root CNAME as ALIAS), holding well-typed data |
| CloudflarePopulate.AddAll | octodns/provider/cloudflare.py:200 | successive `add_record` calls never remove a key |
| CloudflarePopulate.AddAllSpec | octodns/provider/cloudflare.py:200 | after the inserts, the keys are the old ones plus the inserted ones, and a key not inserted keeps its value; when no key is inserted twice, each inserted key holds its inserted value |
| CloudflarePopulate.KeyOfInjective | octodns/provider/cloudflare.py:193-194 | two groups share a record key only as a root CNAME and a root ALIAS |
| CloudflarePopulate.PopulatedKeysDistinct | octodns/provider/cloudflare.py:189-200 | with no ALIAS listed, no two groups are added under the same key |
| CloudflarePopulate.PopulatedKeys | octodns/provider/cloudflare.py:189-200 | a key is added exactly when some supported listed record maps to it |
| CloudflarePopulate.PopulatedZoneKeys | octodns/provider/cloudflare.py:175-203 | after `populate`, the zone's keys are its old keys plus the keys of the supported listed records |
| CloudflarePopulate.PopulatedZoneKept | octodns/provider/cloudflare.py:175-203 | a record whose key no listed record maps to is left as it was |
| CloudflarePopulate.PopulatedZoneData | octodns/provider/cloudflare.py:175-203 | with no ALIAS listed, each supported listed record's key holds its whole group, decoded |
| CloudflarePopulate.PopulatedGroupData | octodns/provider/cloudflare.py:175-203 | with no ALIAS listed, the key of the i-th group holds that group's members, decoded, and the group is not empty |
| CloudflareUpdate.Distinct | octodns/provider/cloudflare.py:301-308 | the fragments keyed by content: the same elements, each once |
| CloudflareUpdate.DistinctNoDuplicates | octodns/provider/cloudflare.py:305-308 | keying fragments that are already distinct changes nothing |
| CloudflareUpdate.AddsSpec | octodns/provider/cloudflare.py:315-321 | a fragment is added exactly when it is new and not existing, and none is added twice |
| CloudflareUpdate.AddsNone | octodns/provider/cloudflare.py:315-321 | nothing is added when every new fragment already exists |
| CloudflareUpdate.AddsAll | octodns/provider/cloudflare.py:315-321 | everything is added, in order, when none of it exists |
| CloudflareUpdate.Project | octodns/provider/cloudflare.py:333-335 | projecting a live record keeps its name, type and TTL and yields a payload with exactly the requested key set |
| CloudflareUpdate.ProjectStored | octodns/provider/cloudflare.py:333-338 | projecting the record stored for a fragment onto the fragment's key set gives the fragment back; for CNAME, MX and NS the dot the service dropped is all that is missing |
| CloudflareUpdate.FingerprintStored | octodns/provider/cloudflare.py:333-340 | the fingerprint of the record stored for a fragment, with a dotted hostname, is that fragment, so such a live record is never stale |
| CloudflareUpdate.UpdateShapeByType | octodns/provider/cloudflare.py:312 | the key set taken from the first existing fragment is fixed by the record type: CAA, MX, or content |
| CloudflareUpdate.PostsElements | octodns/provider/cloudflare.py:356-359 | the i-th POST carries the i-th remaining add, to the zone's id |
| CloudflareUpdate.PostsFilters | octodns/provider/cloudflare.py:356-359 | the final POSTs carry exactly the remaining adds and touch no live record |
| CloudflareUpdate.ScanAccounting | octodns/provider/cloudflare.py:329-353 | the scan addresses exactly the stale live records, each once and in order; its PUTs carry the leading adds and the rest is left pending; it deletes only once the adds have run out, and never POSTs |
| CloudflareUpdate.ScanCounts | octodns/provider/cloudflare.py:329-353 | with S stale records and A adds: min(A, S) PUTs, max(0, S - A) DELETEs, max(0, A - S) adds left |
| CloudflareUpdate.UpdateAddsSpec | octodns/provider/cloudflare.py:301-321 | the adds are exactly the new fragments the existing record lacks, each once |
| CloudflareUpdate.UpdateCallsAccounting | octodns/provider/cloudflare.py:285-359 | an update sends every add exactly once, first by PUT then by POST; it addresses only stale live records, each by one call; the counts are min(A, S) PUTs, max(0, S - A) DELETEs and max(0, A - S) POSTs |
| CloudflareUpdate.AccountedPosts | octodns/provider/cloudflare.py:355-359 | appending a POST per pending add to a scan that accounts for its adds sends every add exactly once and yields the min/max counts of PUTs, DELETEs and POSTs |
| CloudflareUpdate.NoStaleScan | octodns/provider/cloudflare.py:329-353 | with no stale live record the scan sends nothing and leaves every add pending |
| CloudflareUpdate.UpdateNoOp | octodns/provider/cloudflare.py:285-359 | an update whose old and new fragments agree, over live records that all match them, sends nothing |
| CloudflareUpdate.StoredNotStale | octodns/provider/cloudflare.py:329-341 | no record of the listing the service keeps for the new record is stale for an update to it: each projects onto a wanted fragment |
| CloudflareUpdate.UpdateAgainstStored | octodns/provider/cloudflare.py:285-359 | an update re-planned from the stored listing (its existing record encodes to the same fragments as the new one) sends no request against the listing the service keeps for the new record |
| CloudflareUpdate.ReapplyPosts | octodns/provider/cloudflare.py:285-359 | the same update applied again against the listing the service keeps after the first run PUTs and DELETEs nothing but POSTs every add again |
| CloudflareUpdate.GenContentsShape | octodns/provider/cloudflare.py:222-271 | every fragment of a record has the key set its type fixes: `data` for CAA, `priority` and `content` for MX, `content` otherwise |
| CloudflareUpdate.AliasUpdateOnlyPosts | octodns/provider/cloudflare.py:326-330 | an ALIAS update matches no live record and POSTs every add |
| CloudflareUpdate.DeleteCallsSpec | octodns/provider/cloudflare.py:361-369 | a delete sends only DELETEs, one for each live record of the name and type, in listing order |
| CloudflareUpdate.CnameSwap | octodns/provider/cloudflare.py:329-349 | a CNAME value change against one live record with the old content is a single PUT of the new fragment to that record |
| CloudflareUpdate.ThreeAddsOneStale | octodns/provider/cloudflare.py:329-359 | three adds against one stale record give one PUT with the first add, two POSTs with the others, and no DELETE |
| CloudflareProvider.ChangeStep | octodns/provider/cloudflare.py:389-391 | one change leaves the zone listing and the other zones' record caches untouched, and leaves a cached zone's caches as they are |
| CloudflareProvider.ChangesStep | octodns/provider/cloudflare.py:389-391 | the same, for the plan's changes dispatched in order |
| CloudflareProvider.ApplyStep | octodns/provider/cloudflare.py:371-394 | `_apply` ends with the zone known (under the new id if it had to be created) and its record cache dropped; other zones' caches are untouched |
| CloudflareProvider.ChangesOnEmptyZone | octodns/provider/cloudflare.py:386-391 | with the zone's record cache seeded empty, every request is a POST to that zone |
| CloudflareProvider.ChangeOnEmptyZone | octodns/provider/cloudflare.py:386-391 | a single change applied with the zone's record cache seeded empty sends only POSTs to that zone |
| CloudflareProvider.NewZoneOnlyPosts | octodns/provider/cloudflare.py:378-391 | for a zone the service lacks, the zone listing is followed by one creation under the name without its dot, then only POSTs to the new id |
| CloudflareProvider.ScanKinds | octodns/provider/cloudflare.py:329-353 | the scan only PUTs or DELETEs |
| CloudflareProvider.RecordsStepKinds | octodns/provider/cloudflare.py:153-173 | once zones are known, reading records only lists records |
| CloudflareProvider.UpdateKinds | octodns/provider/cloudflare.py:285-359 | an update only PUTs, DELETEs or POSTs |
| CloudflareProvider.ChangeNoZoneCreation | octodns/provider/cloudflare.py:389-391 | no single change creates a zone |
| CloudflareProvider.ChangesNoZoneCreation | octodns/provider/cloudflare.py:389-391 | dispatching the changes never creates a zone |
| CloudflareProvider.ApplyCreatesZoneIff | octodns/provider/cloudflare.py:377-387 | `_apply` creates a zone if and only if the zone listing lacks it |
| CloudflareProvider.GroupRecords | octodns/provider/cloudflare.py:182-187 | the grouping loop yields the groups in first-appearance order, each mapped to its members |
| CloudflareProvider.AddGroups | octodns/provider/cloudflare.py:189-200 | the insertion loop leaves the zone holding its old records with the populated entries inserted in order |
| CloudflareProvider.ComputeAdds | octodns/provider/cloudflare.py:315-321 | the pop-or-append loop computes exactly the adds |
| CloudflareProvider.Provider.constructor | octodns/provider/cloudflare.py:58-59 | both caches start empty and no request has been made |
| CloudflareProvider.Provider.Zones | octodns/provider/cloudflare.py:76-92 | the loop leaves the caches and request log as `ZonesStep` says, and returns its value |
| CloudflareProvider.Provider.ZoneRecords | octodns/provider/cloudflare.py:153-173 | caches, result and requests as `RecordsStep` says |
| CloudflareProvider.Provider.ListRecordPages | octodns/provider/cloudflare.py:159-169 | the page loop returns the paginated records and logs one listing request per page read; the caches are untouched |
| CloudflareProvider.Provider.Populate | octodns/provider/cloudflare.py:175-203 | reads the records as `RecordsStep` says, and leaves the zone holding its old records with the populated entries inserted |
| CloudflareProvider.Provider.ApplyCreate | octodns/provider/cloudflare.py:273-278 | after the zone lookup, one POST per fragment of the new record, to the zone's id |
| CloudflareProvider.Provider.PostAll | octodns/provider/cloudflare.py:356-359 | the POST loop logs one POST per fragment, in order, and leaves the caches alone |
| CloudflareProvider.Provider.ApplyUpdate | octodns/provider/cloudflare.py:285-359 | zone lookup, record read, then exactly `UpdateCalls`, about which `UpdateCallsAccounting` holds |
| CloudflareProvider.Provider.SwapStale | octodns/provider/cloudflare.py:329-353 | the live-record loop logs the scan's requests and returns the adds left, as `Scan` says |
| CloudflareProvider.Provider.ApplyDelete | octodns/provider/cloudflare.py:361-369 | record read, then exactly `DeleteCalls` |
| CloudflareProvider.Provider.DispatchUpdate | octodns/provider/cloudflare.py:389-391 | an update dispatched within a plan behaves as `ChangeStep` says |
| CloudflareProvider.Provider.DispatchCreate | octodns/provider/cloudflare.py:389-391 | a create dispatched within a plan behaves as `ChangeStep` says: one POST per fragment to the known zone id, caches untouched |
| CloudflareProvider.Provider.DispatchDelete | octodns/provider/cloudflare.py:389-391 | a delete dispatched within a plan behaves as `ChangeStep` says: the record read, then `DeleteCalls` |
| CloudflareProvider.Provider.ApplyChange | octodns/provider/cloudflare.py:389-391 | each kind of change is dispatched to its `_apply_*` method, with the caches and requests `ChangeStep` gives |
| CloudflareProvider.Provider.ApplyChanges | octodns/provider/cloudflare.py:389-391 | the plan's changes are applied in order, as `ChangesStep` says |
| CloudflareProvider.Provider.Apply | octodns/provider/cloudflare.py:371-394 | `_apply` leaves caches and requests as `ApplyStep` says |
| AcmeChallengeCnames.EnsureDot | octodns/source/acme_challenge_cnames.py:20-23 | the stored target zone ends with a dot and extends the given one by at most that dot |
| AcmeChallengeCnames.EnsureDotIdempotent | octodns/source/acme_challenge_cnames.py:20-23 | normalising twice changes nothing, and a dotted name is kept as given |
| AcmeChallengeCnames.ChallengeName | octodns/source/acme_challenge_cnames.py:39-42 | the challenge name starts with `_acme-challenge`, and is exactly that for the root record |
| AcmeChallengeCnames.ChallengeNameInverse | octodns/source/acme_challenge_cnames.py:39-42 | the record name can be read back from its challenge name |
| AcmeChallengeCnames.ChallengeNameInjective | octodns/source/acme_challenge_cnames.py:39-42 | two records get the same challenge name if and only if they have the same name |
| AcmeChallengeCnames.ChallengeTarget | octodns/source/acme_challenge_cnames.py:43 | the target starts with `_acme-challenge.` and is fully qualified when the target zone is |
| AcmeChallengeCnames.ChallengeTargetInjective | octodns/source/acme_challenge_cnames.py:43 | two records of a zone get the same target exactly when they have the same name |
| AcmeChallengeCnames.GeneratedSpec | octodns/source/acme_challenge_cnames.py:33-47 | a challenge record exists exactly for the eligible records' names; each is a CNAME with the source's TTL whose target is built from its record's fqdn |
| AcmeChallengeCnames.GeneratedOnlyChallengeNames | octodns/source/acme_challenge_cnames.py:45-47 | a record whose name does not start with `_acme-challenge` is left as it was |
| AcmeChallengeCnames.ChallengeEligible | octodns/source/acme_challenge_cnames.py:33-38 | a challenge record would itself be eligible, with a different challenge name, so the eligible set must be fixed before inserting |
| AcmeChallengeCnames.SampleEligible | tests/test_octodns_source_acme_challenge_cnames.py:13-45 | in the test zone, the two root records, `quadA` and `www` are eligible; the TXT and NS records are not |
| AcmeChallengeCnames.SampleChallengeKeys | tests/test_octodns_source_acme_challenge_cnames.py:52-68 | those four records give three challenge names |
| AcmeChallengeCnames.SampleGeneratedKeys | tests/test_octodns_source_acme_challenge_cnames.py:52-74 | the source adds exactly `_acme-challenge`, `_acme-challenge.quadA` and `_acme-challenge.www` |
| AcmeChallengeCnames.SampleWwwTarget | octodns/source/acme_challenge_cnames.py:43-44 | in the test zone, `_acme-challenge.www` targets `_acme-challenge.www.unit.tests.targetzone.test.` with TTL 60 |
| AcmeChallengeCnames.SampleZone | tests/test_octodns_source_acme_challenge_cnames.py:47-74 | the zone ends with its six records plus the three challenge records |
| AcmeChallengeCnames.Source.constructor | octodns/source/acme_challenge_cnames.py:11-24 | the target zone is stored with a trailing dot, and the TTL as given, 3600 by default |
| AcmeChallengeCnames.Source.Populate | octodns/source/acme_challenge_cnames.py:27-47 | the zone ends with its old records overridden by the challenge records of the records that were eligible before the loop |

## Left out

- HTTP transport (`_request`, cloudflare.py:61-74): the session, URLs, timeouts and status handling. Requests are `Call` values appended to a log, and listings come from `Remote`. A 403 is modelled only through the message of its error (`AuthErrorMessage`).
- Logging throughout both files.
- `_hash_content` (cloudflare.py:280-283): two fragments are the same content exactly when they are equal, so hash collisions are not modelled.
- Python 2 dict iteration order: the dicts are `new_contents`, and `values` and `types` in `populate`. The model visits entries in order of first appearance. Which requests are made, and how many of each, does not depend on that order. Which PUT carries which add does.
- `existing_contents.values()[0].keys()` (cloudflare.py:312) is modelled as the key set of the first fragment of the existing record. That key set is fixed by the record type (`UpdateShapeByType`).
- `CloudflareProvider.Provider.ApplyUpdate`: requires the existing record to encode to at least one fragment. With none, the source raises IndexError at cloudflare.py:312; that error is not modelled.
- `CloudflareFilter.AuthErrorMessage`: `ErrorBody` cannot express an `errors` value that is `null`, a number or a non-empty string, or a list whose first entry is not a dict. For those, cloudflare.py:21 raises TypeError, which the handler at line 22 does not catch. An `errors` object without key 0, or an empty string, falls back to 'Authentication error' as a missing or empty list does.
- `CloudflareProvider.Provider.ApplyUpdate`: also requires the change's zone to be listed. The source raises KeyError at cloudflare.py:323 otherwise; inside `_apply` the zone has always just been listed or created.
- `CloudflareProvider.Provider.ApplyCreate`: requires the zone to be listed. The source raises KeyError otherwise; inside `_apply` the zone has always just been listed or created.
- `CloudflareProvider.Provider.Apply`: requires every change of the plan to concern a well-formed record of the plan's zone (`ChangeOk`), as the plans octodns builds do.
- A KeyError on a listed record with a missing field is not modelled: a `WireRecord` carries every field the provider reads.
- `Record.new` validation, the `lenient` and `target` parameters, and the `source=` attribution. A record's data is accepted when `WellTyped` holds. octodns/record.py is not part of this model.
- `Zone.add_record` internals are not modelled. This covers the error when a key is already present and `replace` is false, and the CNAME coexistence checks. `AddRecord` always inserts or replaces. As a result, a listing with both a root CNAME and an ALIAS gives a single record in the model where octodns raises. octodns/zone.py is not part of this model.
- `zone.hostname_from_fqdn` is a parameter (`hostname`).
- `BaseProvider._include_change` is a parameter (`basePolicy`).
- The id the service gives a newly created zone is a parameter (`newZoneId`). The `jump_start` field of the creation body is not modelled.
- POST, PUT, DELETE and zone creation do not change the modelled `Remote`.
- `_apply` seeds the new zone's record cache with an empty dict; iterating it yields nothing, so it is modelled as an empty listing.
- The source class attributes `SUPPORTS_GEO`, `SUPPORTS_DYNAMIC`, `SUPPORTS` and `TIMEOUT`, and the source and provider `id`, play no part in the modelled behaviour.
- The test of the ACME source expects targets of the form `unit.tests.targetzone.test.`. That is not what acme_challenge_cnames.py:43 builds. The model follows the code and uses the test only for names, types and counts.
- The ACME `populate` iterates over the zone's records in set order. The model picks eligible records in any order, which gives the same result because two records of one name produce the same challenge record.
