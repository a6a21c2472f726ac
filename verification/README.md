# Verified models of HoV Router's core algorithms

HoV Router (better-ccflare) is a proxy that shares AI accounts. This project models the parts of it whose
guarantees run over whole executions or over unbounded inputs, and proves those guarantees.

Code that computes with expressions is modelled by functions. Code that updates variables, fields or buffers is
modelled by methods and classes, each proved against a function or a predicate; the theorems are about those
functions, and for protocols about every run of a state machine that the class refines step by step.

- Strict JSON scanner: `JsonGrammar`, `JsonParser`, `JsonSpelling`, `JsonSoundness`, `JsonCompleteness`, `StrictJson`.
  The grammar is that of sections 2 to 7 of RFC 8259, as trees that record the layout, with a printer.
- Bounded JSON text and bounded body reader: `JsonQuote`, `Utf8`, `JsonDatum`, `BoundedJson`, `BoundedJsonReading`,
  `Decimal`, `BodyReader`.
- Weighted body admission: `BodyAdmission`, `BodyAdmissionRuns`, `BodyAdmissionBooks`, `AdmissionController`,
  `BodyReservation`, `AdmittedRequest`.
- Combo membership: `ModelAliases`, `AliasResolution`, `ComboMembership`, `ComboDecisions`, `ComboOrder`,
  `ComboAdmission`, `ComboSlots`, `ComboResolver`.
- Cache statistics: `OrderStatistics`, `CacheMetrics`, `CacheHistogram`.
- Cache diagnosis and cohorts: `FlightTimeline`, `FlightDiagnosis`, `FlightFindings`, `CohortSeal`, `CohortAnalysis`,
  `CohortSelection`, `CohortReport`, `CohortTheorems`, `CohortFindings`, `CohortOrder`.
- Polling leases: `PollingLifecycle`, `PollingRuns`, `PollingOutcomes`, `UsagePolling`.
- Deadline of a wrapped response: `ExpiryProtocol`, `IngressMachine`, `IngressRuns`, `IngressOutcomes`,
  `ManagedIngress`.
- Sync ledger: `StableJson`, `HostJson`, `HtmlEscape`, `LedgerRecords`, `LedgerInventory`,
  `LedgerRendering`, `LedgerValidation`.
- Shared: `Units` (host strings as 16-bit code units), `Sorting`, `StableSorting`, `Seqs`,
  `TextOrder`.

Modelling choices that hold throughout:

- `localeCompare` is a rank that gives every name a place in an order; whether two names may share a place is stated
  where it matters.
- Sorting is stable insertion sort. The order of cohort observations comes from a comparison that can go round when only
  some timestamps can be parsed (`CohortOrder.MixedGoesRound`); the order is proved for cohorts whose timestamps are all
  dates or all none, and everything else for every cohort.
- Keys joined with a NUL character are pairs. Structured detail strings (gap names, evidence details, blocker details)
  are datatype values in place of their spelling.
- Clocks, timers, streams and the network are parameters or events.

Four promises do not hold in full, and the exact condition is proved:

- `stableJson` hides the member order of a host value exactly when no object inside it has two names that collate equal
  and are both no array index (`HostJson.HostOrderHidden`); canonically equivalent Unicode spellings are such names.
- `serializeBoundedJson` raises its size error exactly above the limit, at every limit, if and only if its walk counts no
  more than is printed (`BoundedJson.ExactEverywhere`). It counts exactly what is printed unless the value holds a boxed
  primitive of another size (`BoundedJson.AgreeingSizes`, `BoundedJson.BoxedFalse`, `BoundedJson.BoxedText`).
- The review records of a rendered ledger are read back unchanged, and pass the validator's record checks, exactly when
  neither the header nor an item id contains the opening record tag (`LedgerRendering.RecordsReadBack`,
  `LedgerValidation.RenderedIsAccepted`). A safe path may be spelled like the tag
  (`LedgerRendering.AcceptedButNotReadBack`).
- The terminal frame of an expired Responses stream is numbered above every observed sequence number exactly when each
  number that is not counted is negative or below the successor of a counted one (`IngressRuns.ResponsesTerminal`).
  Fractions, infinities and the largest safe integer are not counted. Frames passed on after data that could not be read
  are not observed at all.

## Model

| member | source | states |
|---|---|---|
| StrictJson.IsStrictJsonDocument | packages/config/src/index.ts:360-362 | a text is accepted exactly when some document of the RFC 8259 grammar, with no decoded member name repeated in an object and containers at most 64 deep, is printed as that text |
| StrictJson.AcceptsExactlyStrictDocuments | packages/config/src/index.ts:156-357 | the same equivalence for the reading the scanner follows, at every depth limit |
| StrictJson.Unambiguous | packages/config/src/index.ts:156-357 | two strict documents with the same text are the same document, layout included |
| JsonSoundness.DocumentSound | packages/config/src/index.ts:156-160 | whatever is read is a strict document whose printed form is the whole text |
| JsonSoundness.ValueSound | packages/config/src/index.ts:162-172 | a value read at an offset is valid, unrepeated, within the depth limit, and spelled exactly up to the end offset |
| JsonSoundness.ItemsSound | packages/config/src/index.ts:215-236 | the same for the items of an array, up to and including the bracket |
| JsonSoundness.MembersSound | packages/config/src/index.ts:174-213 | the same for the members of an object, whose decoded names are new and distinct |
| JsonCompleteness.DocumentComplete | packages/config/src/index.ts:156-160 | every strict document in every layout is read back as itself |
| JsonCompleteness.ValueComplete | packages/config/src/index.ts:162-236 | every valid value standing in a text is read with the offset exactly at its end |
| StrictJson.LiteralDecodes | packages/config/src/index.ts:185-192 | decoding the scanned literal gives the name its escapes stand for |
| StrictJson.StrictJsonScanner.Scan | packages/config/src/index.ts:156-160 | succeeds exactly when the text is a document, with the offset at its end |
| StrictJson.StrictJsonScanner.ParseValue | packages/config/src/index.ts:162-172 | skips white space and agrees with the reading of a value, leaving the offset at its end; terminates on the remaining text |
| StrictJson.StrictJsonScanner.ParseObject | packages/config/src/index.ts:174-213 | agrees with the reading of an object, its growing set of names included |
| StrictJson.StrictJsonScanner.ParseMember | packages/config/src/index.ts:185-201 | one member: a name not seen before, a colon and a value; the offset strictly advances |
| StrictJson.StrictJsonScanner.ParseArray | packages/config/src/index.ts:215-236 | agrees with the reading of an array |
| StrictJson.StrictJsonScanner.ScanStringLiteral | packages/config/src/index.ts:238-267 | returns exactly the slice of a well-formed string literal, or nothing |
| StrictJson.StrictJsonScanner.HasFourHexDigits | packages/config/src/index.ts:269-284 | true exactly when four hexadecimal digits stand there |
| StrictJson.StrictJsonScanner.ConsumeLiteral | packages/config/src/index.ts:286-290 | consumes the literal exactly when it stands there |
| StrictJson.StrictJsonScanner.ConsumeNumber | packages/config/src/index.ts:292-332 | consumes exactly a longest number, or restores the offset |
| StrictJson.StrictJsonScanner.SkipWhitespace | packages/config/src/index.ts:344-357 | moves to the first unit that is not white space |
| JsonQuote.QuoteDecodes | packages/core/src/bounded-request-body.ts:34-39 | a quoted string is a valid literal that decodes to the string, lone surrogates included |
| JsonQuote.QuoteMeans | packages/core/src/bounded-request-body.ts:34-39 | unit by unit, the least escaping: a short form exactly where there is one, lower-case hexadecimal exactly for other control units and lone surrogates, the unit itself otherwise |
| Utf8.LengthIsEncoded | packages/core/src/bounded-request-body.ts:34-39 | the byte count of a text is the length of its UTF-8 form, a lone surrogate as the replacement character |
| Utf8.EncodeDecodes | packages/core/src/bounded-request-body.ts:34-39 | UTF-8 bytes (section 3 of RFC 3629) decode to the scalar values they were made of |
| Utf8.ScalarsRead | packages/core/src/bounded-request-body.ts:34-39 | a text without lone surrogates is the text of its scalar values |
| JsonQuote.Utf8Append | packages/core/src/bounded-request-body.ts:34-39 | UTF-8 lengths add up at a seam that splits no surrogate pair |
| BoundedJson.ValueFramed | packages/core/src/bounded-request-body.ts:52-106 | a printed value starts and ends on units that never pair up with a neighbour, so lengths of parts add up |
| BoundedJson.EstimateSize | packages/core/src/bounded-request-body.ts:52-106 | the recursive estimate is the UTF-8 length of the text of what the walk sees, which takes a boxed primitive for a plain object; a container longer than the limit is the size error |
| BoundedJson.EstimateArray | packages/core/src/bounded-request-body.ts:74-85 | the same for an array, elements without a value counted as null |
| BoundedJson.EstimateObject | packages/core/src/bounded-request-body.ts:88-102 | the same for an object, members without a value left out |
| BoundedJson.SerializeBoundedJson | packages/core/src/bounded-request-body.ts:46-119 | a type error for a value with no text, the size error when what the walk sees or the printed text exceeds the limit, the printed text otherwise |
| BoundedJsonReading.StringifySays | packages/core/src/bounded-request-body.ts:107-118 | for a value with distinct property names and JSON numbers: the printed text is a JSON text, and every document of the grammar with that text says the value, with omitted properties dropped, omitted elements null and boxed primitives unwrapped |
| JsonDatum.SpelledSays | packages/core/src/bounded-request-body.ts:107-118 | the same for every datum: its text has exactly one reading, and that says the datum |
| BoundedJson.AgreeingIsExact | packages/core/src/bounded-request-body.ts:46-119 | if every boxed primitive inside has the size of the object it is taken for, in particular if there is none, the size error is raised exactly when the printed text exceeds the limit, and the last check never fires |
| BoundedJson.AgreeingSizes | packages/core/src/bounded-request-body.ts:52-106 | under the same condition the estimate is the UTF-8 length of the printed text |
| BoundedJson.ExactEverywhere | packages/core/src/bounded-request-body.ts:46-119 | the size error is exact at every limit if and only if the walk does not count more than is printed; the last check never fires if and only if it does not count less |
| BoundedJson.BoxedFalse | packages/core/src/bounded-request-body.ts:88-117 | a boxed `false` is walked as two bytes and printed as five, so the last check fires at limit three |
| BoundedJson.BoxedText | packages/core/src/bounded-request-body.ts:88-102 | a boxed text of two letters is walked as seventeen bytes and printed as four, so the size error is raised although the text fits |
| BodyReader.ReadBoundedRequestBody | packages/core/src/bounded-request-body.ts:150-244 | without abort: the declared-size error exactly for an admissible length above the limit, the streamed-size error exactly when the chunks exceed it, otherwise the concatenation of all chunks, however split and whatever was declared |
| BodyReader.DeclaredLengthMeans | packages/core/src/bounded-request-body.ts:121-127 | a declared length is taken exactly when it is zeros and the decimal text of a safe integer |
| BodyReader.PayloadJoins | packages/core/src/bounded-request-body.ts:184-243 | the payload of chunks one behind the other is their payloads one behind the other; a chunk that is no byte array adds nothing |
| BodyReader.SetBytes | packages/core/src/bounded-request-body.ts:184-216 | writing a chunk in place changes exactly its range of the buffer |
| BodyReader.CopyPieces | packages/core/src/bounded-request-body.ts:228-243 | copying the collected pieces gives their concatenation |
| BodyAdmissionRuns.StepKeeps | apps/server/src/body-admission.ts:147-263 | every acquire, abort, reduce, release and shutdown keeps the invariant of the controller |
| BodyAdmissionRuns.RunKeeps | apps/server/src/body-admission.ts:147-263 | so does every run of them |
| BodyAdmissionRuns.Reachable | apps/server/src/body-admission.ts:147-263 | in every reachable state reserved bytes are the sum over live leases and at most the budget, active is live leases is admitted minus released, the queue is bounded, and grants go out in strictly increasing arrival order, ahead of every waiter |
| BodyAdmissionBooks.LiveLeaseHoldsWhatIsDue | apps/server/src/body-admission.ts:147-263 | in every run a live lease reserves exactly the bytes of the acquire call with its ticket, lowered to the least safe byte count that a later call asked to reduce it to |
| BodyAdmissionBooks.AskedFitsBudget | apps/server/src/body-admission.ts:147-263 | in every run the bytes asked for by the calls whose leases are live and unreduced fit the budget together |
| BodyAdmissionBooks.WaiterIsNeverLost | apps/server/src/body-admission.ts:147-263 | a waiter is in the queue or has its lease after every run without its own abort and without shutdown |
| BodyAdmissionBooks.AcquireMeans | apps/server/src/body-admission.ts:147-184 | a call is granted at once exactly if acceptable, not aborted and nobody waits and the bytes fit; it waits exactly if it does not fit and the queue has room; reply and counters say which |
| BodyAdmissionBooks.OthersCount | apps/server/src/body-admission.ts:169-195 | no other call counts as queued or turned away, and an abort is counted exactly for a waiter that can be aborted |
| BodyAdmissionBooks.ConfiguredMeans | apps/server/src/body-admission.ts:129-145 | a positive safe budget and a non-negative safe queue limit are taken, the limit cut at 5000, and the defaults otherwise |
| BodyAdmissionRuns.ClampsAreInert | apps/server/src/body-admission.ts:236-247 | the clamps at zero never change a value |
| BodyAdmissionRuns.PeaksAreMaxima | apps/server/src/body-admission.ts:215-223 | the recorded peaks are the maxima over all states of the run |
| BodyAdmissionRuns.FrontWaitsForSomeone | apps/server/src/body-admission.ts:252-263 | no lost wake-up: a waiting front does not fit, and some live lease holds a positive reservation |
| BodyAdmissionRuns.FrontIsGranted | apps/server/src/body-admission.ts:227-263 | once the leases live at a moment are returned, the front of that moment has been granted, unless it was aborted or the controller shut down |
| BodyAdmissionRuns.RoundsGrant | apps/server/src/body-admission.ts:227-263 | k such rounds grant the first k waiters |
| BodyAdmissionRuns.ShutdownIsFinal | apps/server/src/body-admission.ts:186-195 | after shutdown the queue stays empty and nothing more is granted, in every run |
| BodyAdmissionBooks.ShutdownStands | apps/server/src/body-admission.ts:147-263 | in every run the controller is shutting down exactly once it was called to |
| BodyAdmissionRuns.StepExtends | apps/server/src/body-admission.ts:147-263 | a step never takes a lease record away, and an undisturbed front stays in front until it is granted |
| AdmissionController.BodyAdmissionController.Acquire | apps/server/src/body-admission.ts:147-184 | the object moves as the state machine does and gives its answer |
| AdmissionController.BodyAdmissionController.OnAbort | apps/server/src/body-admission.ts:169-178 | removes the aborted waiter, keeps the order of the others, then drains |
| AdmissionController.BodyAdmissionController.ReduceTo | apps/server/src/body-admission.ts:227-240 | lowers a live reservation, ignores every other request, then drains |
| AdmissionController.BodyAdmissionController.Release | apps/server/src/body-admission.ts:241-248 | returns a live lease once, then drains |
| AdmissionController.BodyAdmissionController.Shutdown | apps/server/src/body-admission.ts:186-195 | rejects every waiter |
| AdmissionController.BodyAdmissionController.Drain | apps/server/src/body-admission.ts:252-263 | the loop grants from the front as long as the front fits |
| AdmissionController.BodyAdmissionController.CreateLease | apps/server/src/body-admission.ts:215-226 | a grant books bytes, lease, peaks and counter; what that amounts to over every run is `BodyAdmissionBooks.LiveLeaseHoldsWhatIsDue` |
| BodyReservation.DeclaredLengthReserves | apps/server/src/body-admission.ts:89-109 | the canonical length n of a transparent body reserves eight times n, n cut at the request ceiling and the product at the budget |
| BodyReservation.ReservationMeans | apps/server/src/body-admission.ts:70-109 | exactly a transparent body with a plainly spelled length within the request ceiling reserves eight times that length, every other body the worst case, both cut at the budget |
| BodyReservation.IdentityMeans | apps/server/src/body-admission.ts:89-101 | the encoding is the word identity exactly if each of its eight letters is, in either case |
| BodyReservation.RequestsAreNeverOversize | apps/server/src/body-admission.ts:89-109 | a computed reservation is refused only because the queue is full, and never by an idle controller |
| BodyReservation.ReleaseIsIdempotent | apps/server/src/body-admission.ts:241-248 | a second release changes nothing |
| BodyReservation.AdmissibleLengths | apps/server/src/body-admission.ts:70-77 | an admissible Content-Length is exactly the canonical spelling of a safe integer |
| AdmittedRequest.ReleasedExactlyOnce | apps/server/src/body-admission.ts:291-377 | whatever the handler does with its lease, the stream yields and others do to the controller: a request that has ended gave its lease back in exactly one step, counted once; one that has not ended, and whose handler did not release, gave nothing back; a refused, dropped or bodyless request has no lease |
| AdmittedRequest.TerminalPathsFinish | apps/server/src/body-admission.ts:291-377 | a handler that throws, returns no body or a locked one, and a stream that ends, fails or is cancelled, each bring the request to its end with the lease given back |
| AdmittedRequest.RequestAsks | apps/server/src/body-admission.ts:342-362 | a request with a body makes one acquire call, for the worst case if forced and its computed reservation otherwise, and then runs with exactly those bytes, waits or is refused; one without a body makes none |
| AdmittedRequest.HeldUntilTheEnd | apps/server/src/body-admission.ts:291-377 | until the handler or the stream ends, whatever else happens, the request keeps its live lease |
| AdmittedRequest.StreamTakesOver | apps/server/src/body-admission.ts:306-325 | a handler that returns a body passes the lease to the stream without touching the controller |
| AdmittedRequest.NeverAdmitted | apps/server/src/body-admission.ts:342-370 | a request that was refused, had no body, or was aborted or shut out while it waited stays so and never has a lease, in every later run |
| AdmittedRequest.WaitingIsDropped | apps/server/src/body-admission.ts:169-195 | an abort of a waiting request, and a shutdown, drop it |
| AdmittedRequest.NextKeeps | apps/server/src/body-admission.ts:291-377 | every happening keeps the lease released exactly when the wrapper has finished or the handler released it |
| AdmittedRequest.StepEffect | apps/server/src/body-admission.ts:215-263 | only a release of a live lease moves the count of released leases, and only it marks that lease |
| StableJson.PrintsAlikeIffSame | scripts/verify-upstream-sync-ledger.ts:1115-1124 | equal texts only for values equal up to member order; and exactly for those, if no object inside one of them has two names that collate equal |
| StableJson.OrderHiddenIffNoTies | scripts/verify-upstream-sync-ledger.ts:1115-1124 | over all lists of members: every value equal up to member order prints the same text if and only if no object inside has two names that collate equal |
| StableJson.StableTextSays | scripts/verify-upstream-sync-ledger.ts:1115-1124 | the stable text is a JSON text whose one reading says the value, integers as plain decimal, with the members of every object in collation order |
| HostJson.HostOrderHidden | scripts/verify-upstream-sync-ledger.ts:1115-1124 | over values as host objects list them, index names first and ascending: every such value equal up to member order prints the same text if and only if no object inside has two names that collate equal and are both no array index |
| HostJson.HostPrintsAlike | scripts/verify-upstream-sync-ledger.ts:1115-1124 | host values print alike only if equal up to member order, and exactly then if one of them has no such pair of names |
| StableSorting.SortKeepsTies | scripts/verify-upstream-sync-ledger.ts:1118-1119 | sorting keeps the order of the elements that compare equal |
| StableSorting.SortsAlike | scripts/verify-upstream-sync-ledger.ts:1118-1119 | two lists sort to the same if they agree on every class of elements that compare equal |
| StableJson.TiedNamesKeepTheirOrder | scripts/verify-upstream-sync-ledger.ts:1119-1121 | two objects that differ only in the order of two tied names print different texts |
| StableJson.TextInjective | scripts/verify-upstream-sync-ledger.ts:1115-1124 | printed values are unambiguous |
| StableJson.ReadsBack | scripts/verify-upstream-sync-ledger.ts:1115-1124 | printed text is JSON without repeated names, and every document with that text says the value |
| HtmlEscape.UnescapeUndoesEscape | scripts/verify-upstream-sync-ledger.ts:1097-1113 | the five sequential unescape replacements undo the five sequential escape replacements, for every string |
| HtmlEscape.EscapeIsSpread | scripts/verify-upstream-sync-ledger.ts:1097-1104 | the sequential replacements amount to replacing each unit once, on its own |
| HtmlEscape.EscapedHasNoTag | scripts/verify-upstream-sync-ledger.ts:1097-1104 | escaped text contains no `<` |
| LedgerRecords.ExtractionReturnsPayloads | scripts/verify-upstream-sync-ledger.ts:1163-1172 | extracting and unescaping the rendered records returns exactly the payloads if and only if no heading contains the opening record tag |
| LedgerRecords.ExtractionReturns | scripts/verify-upstream-sync-ledger.ts:1595-1603 | the same for every pair of record tags of this shape |
| LedgerRecords.FindIsFirst | scripts/verify-upstream-sync-ledger.ts:1595-1597 | the match found is the first |
| LedgerRecords.UnbrokenIsClean | scripts/verify-upstream-sync-ledger.ts:1595-1600 | as many matches as records, none with a line break, means that no heading holds the opening tag |
| LedgerRendering.RenderLedger | scripts/verify-upstream-sync-ledger.ts:1126-1176 | the pushed lines, without blank lines at the end, joined by line breaks |
| LedgerRendering.LinesAreBlocks | scripts/verify-upstream-sync-ledger.ts:1163-1176 | the text of the ledger is a list of headings, each followed by its tagged record |
| LedgerRendering.RecordsReadBack | scripts/verify-upstream-sync-ledger.ts:1126-1176 | the records of a rendered ledger with items are read back unchanged if and only if neither its header nor an item id holds the opening record tag |
| LedgerRendering.AcceptedButNotReadBack | scripts/verify-upstream-sync-ledger.ts:1163-1172 | the shared path spelled like the tag is a safe path, its inventory is accepted, and its ledger does not give the record back |
| LedgerValidation.ValidateRecords | scripts/verify-upstream-sync-ledger.ts:1595-1624 | the loops accept exactly as many records as items, each with an id of its own, the text of each item being its printed record |
| LedgerValidation.RenderedIsAccepted | scripts/verify-upstream-sync-ledger.ts:1595-1624 | these checks accept a rendered ledger if and only if neither its header nor an item id holds the opening record tag |
| LedgerInventory.ValidateInventory | scripts/verify-upstream-sync-ledger.ts:1988-2006 | acceptance by the loops is acceptance of an inventory with exactly the expected items |
| LedgerInventory.AcceptedIffExact | scripts/verify-upstream-sync-ledger.ts:1397-1542 | accepted exactly when the entries are valid and commits, conflicts, shared paths and applications each match the items one to one |
| LedgerInventory.ValidateExpected | scripts/verify-upstream-sync-ledger.ts:1458-1542 | the validator accepts exactly valid, unrepeated expected entries with the derived Qwen trigger, a known capture state, and before the merge the explicit empty one |
| LedgerInventory.PartsMean | scripts/verify-upstream-sync-ledger.ts:237-239 | the parts of a path hold no slash and joined by slashes are the path |
| LedgerInventory.HashMeans | scripts/verify-upstream-sync-ledger.ts:32-33 | a hash is so many lower-case hexadecimal digits |
| LedgerInventory.TriggerMeans | scripts/verify-upstream-sync-ledger.ts:997-1013 | a valid trigger lists exactly the Qwen paths among conflicts and shared paths, each once and sorted, and is active exactly when there is one |
| LedgerInventory.CompareExpectedItems | scripts/verify-upstream-sync-ledger.ts:1397-1456 | the comparison accepts exactly inclusion with equal counts |
| LedgerInventory.CheckDistinct | scripts/verify-upstream-sync-ledger.ts:1463-1470 | the set-filling loop accepts exactly lists without repetition |
| LedgerInventory.ApplicationKeySplits | scripts/verify-upstream-sync-ledger.ts:1015-1031 | application keys with digests of one length are equal only for equal path and digest |
| LedgerInventory.IdsSeparate | scripts/verify-upstream-sync-ledger.ts:1015-1031 | items with the same canonical id have the same kind and source |
| ModelAliases.PassThroughKeepsFamily | packages/core/src/model-mappings.ts:97-114 | a requested model that is passed through belongs to the family of the alias |
| AliasResolution.PassesMeans | packages/core/src/model-mappings.ts:62-67 | a requested model takes the place of an alias exactly when, in any case, it is `claude`, the family of the alias and numbers, all joined by dashes, with at most white space behind |
| AliasResolution.FamilyAliasMeans | packages/core/src/model-mappings.ts:97-114 | a stored model that is not the family name stays, trimmed; the name gives way to such a requested model, untouched, or to the latest of the family |
| AliasResolution.StoredAliasMeans | packages/core/src/model-mappings.ts:125-137 | the same with the family that the stored name itself is, and any other stored model stays, trimmed |
| AliasResolution.TrimMeans | packages/core/src/model-mappings.ts:66-66 | trimming finds the one core of a text between white space |
| AliasResolution.VersionMeans | packages/core/src/model-mappings.ts:62-63 | the version pattern matches exactly numbers joined by single dashes |
| AliasResolution.FamilyMeans | packages/core/src/model-mappings.ts:28-38 | a model belongs to the first family, in the order they are tried, whose name it mentions |
| ModelAliases.ConcreteFamilyIsStrict | packages/core/src/model-mappings.ts:45-67 | a well-formed concrete model id has one strict family |
| ComboOrder.OrderDoesNotMatter | packages/core/src/combo-membership-resolver.ts:201-461 | rearranging slots, rules, exclusions and accounts gives the identical members and decisions, if the collation tells apart the slot ids, the account ids and the ids of manual members |
| ComboOrder.InactiveOrderHidden | packages/core/src/combo-membership-resolver.ts:208-228 | the resolution of an inactive combo is the same for every order of its slots if and only if no two slots tie on both account id and slot id without being reported alike |
| ComboOrder.KeptComesFirst | packages/core/src/combo-membership-resolver.ts:278-301 | of several manual slots on one route, the one kept comes first in member order |
| ComboDecisions.EveryoneIsDecidedOnce | packages/core/src/combo-membership-resolver.ts:249-461 | each slot of the combo has exactly one decision, each account at most one managed decision, and members match included decisions one to one |
| ComboDecisions.MembersAreSeparate | packages/core/src/combo-membership-resolver.ts:282-451 | no two members share account and logical model; managed members are neither excluded nor manual |
| ComboAdmission.AdmittedIffQualified | packages/core/src/combo-membership-resolver.ts:337-451 | a managed combo has a managed member for an account if and only if exactly one rule is for its provider and route class, that rule is enabled, no slot serves the account, nothing excludes it, its priority is a whole number from 0 to 100 and it supports the model; the member carries that rule |
| ComboAdmission.WhyNot | packages/core/src/combo-membership-resolver.ts:361-451 | the one managed decision of an account in each case: none without a rule, ambiguous with several, and otherwise the first that applies of disabled, manual override, excluded, ambiguous priority and the capability reason, with its fields |
| ComboAdmission.NobodyManaged | packages/core/src/combo-membership-resolver.ts:312-336 | without managed mode or a managed model all members and decisions come from slots |
| ComboAdmission.ManagedMembersAreAccounts | packages/core/src/combo-membership-resolver.ts:361-451 | every managed member belongs to a listed account |
| ComboSlots.SlotMeans | packages/core/src/combo-membership-resolver.ts:267-310 | every slot of the combo has the one decision its own state accounts for: disabled, blocked with the capability reason exactly if the requested model takes the place of its alias and its account cannot serve it, included exactly if its member is there, and overridden otherwise |
| ComboSlots.OnePerRoute | packages/core/src/combo-membership-resolver.ts:278-301 | of the live slots for one account and model exactly one is a member, and no other comes before it |
| ComboSlots.ManualMembersAreSlots | packages/core/src/combo-membership-resolver.ts:72-119 | every manual member is the member of an enabled slot that is not blocked |
| ComboSlots.ResultsInOrder | packages/core/src/combo-membership-resolver.ts:126-147 | members come by tier, slots before rules, then by id; decisions in the lexicographic order of account, slot, rule and reason |
| ComboSlots.ManagedModelMeans | packages/core/src/combo-membership-resolver.ts:174-190 | the managed model is the stored one or the latest with an alias replaced, and only if the first family it mentions is the assigned one |
| ComboSlots.SecondAttempt | packages/core/src/combo-membership-resolver.ts:230-246 | the resolution is the one for the requested model if that has members, and nobody is left only if both attempts leave nobody |
| ComboSlots.ActiveMeans | packages/core/src/combo-membership-resolver.ts:207-213 | a combo is active exactly if it and its assignment are enabled and the assignment names it |
| ComboSlots.InactiveMeans | packages/core/src/combo-membership-resolver.ts:213-228 | an inactive combo has no members, and every slot is decided as disabled |
| ComboSlots.ReasonMeans | packages/core/src/combo-membership-resolver.ts:312-463 | an active resolution is ambiguous exactly if it is managed and has no managed model |
| ComboDecisions.OneEnabledSlotSuffices | packages/core/src/combo-membership-resolver.ts:230-246 | one enabled slot of the active combo gives a non-empty result for every requested model |
| ComboDecisions.CollectedDecides | packages/core/src/combo-membership-resolver.ts:267-451 | the same accounting before sorting |
| ComboDecisions.NothingRejectedWithoutRequest | packages/core/src/combo-membership-resolver.ts:72-119 | without a requested model no manual slot is rejected, so the retry finds one |
| ComboResolver.ResolveEffectiveComboMembership | packages/core/src/combo-membership-resolver.ts:201-247 | the resolver, with its retry, computes the specified resolution |
| ComboResolver.ComputeActiveMembership | packages/core/src/combo-membership-resolver.ts:249-463 | the passes together compute the specified members and decisions |
| ComboResolver.DecideManual | packages/core/src/combo-membership-resolver.ts:282-301 | the loop with its set of taken routes decides each manual candidate |
| ComboResolver.DecideDisabled | packages/core/src/combo-membership-resolver.ts:302-310 | every disabled slot gets its own decision |
| ComboResolver.GroupRules | packages/core/src/combo-membership-resolver.ts:347-359 | the table of rules gives, per provider and class, the rules that match, in order |
| ComboResolver.DecideAccount | packages/core/src/combo-membership-resolver.ts:361-451 | one account gets the outcome of the first test that applies, which `ComboAdmission.AdmittedIffQualified` and `ComboAdmission.WhyNot` state from the policy alone |
| ComboResolver.DecideManaged | packages/core/src/combo-membership-resolver.ts:337-451 | the loop over sorted accounts gives the managed members and decisions |
| CacheMetrics.SummarizeObservations | packages/core/src/cache-metrics.ts:181-229 | the loop gives the summary of the measured shares: exact counts, and each percentage within 0.05 of the exact ratio, quartile or median, which are stated by counting over the unsorted shares |
| CacheMetrics.SummaryMeans | packages/core/src/cache-metrics.ts:107-178 | a quartile q is the least share v with four times the number of shares up to v at least q times their number; twice the median is the least v that half the shares do not exceed plus the greatest v that half reach; every percentage is the nearest tenth of its exact value, halves up |
| CacheMetrics.NormalizeMeans | packages/core/src/cache-metrics.ts:51-94 | an observation is normalised exactly when its counts are non-negative safe integers, their sum is safe and the cached part does not exceed it |
| CacheMetrics.TallyMeans | packages/core/src/cache-metrics.ts:184-214 | an observation is measured exactly if it reports counts that keep the running total a safe integer; totals, shares and the number of the others are those of this choice |
| OrderStatistics.QuartileAt | packages/core/src/cache-metrics.ts:107-120 | in a sorted list the quartile stands at its rank |
| OrderStatistics.MedianAt | packages/core/src/cache-metrics.ts:122-132 | the middle element, or the mean of the two middle ones, is the median |
| OrderStatistics.CountIsPositions | packages/core/src/cache-metrics.ts:107-132 | the counts are numbers of positions of the list |
| CacheMetrics.TallyObservations | packages/core/src/cache-metrics.ts:184-214 | the counters of the loop are the tally of the observations; hits are exactly the positive shares |
| CacheMetrics.TallyAccounts | packages/core/src/cache-metrics.ts:184-214 | every observation is measured or unavailable, cached never exceeds total, and each share is a percentage |
| CacheMetrics.QuartilesInOrder | packages/core/src/cache-metrics.ts:107-132 | of a non-empty list of percentages p25, median and p75 exist and are in order within 0 to 100 |
| CacheMetrics.SummariesAreSound | packages/core/src/cache-metrics.ts:134-178 | rounded quartiles and rates keep that order and range; without measurements there are none |
| CacheMetrics.ShareBounds | packages/core/src/cache-metrics.ts:87-94 | a share is the cached part of the input in percent, lies within 0 to 100 and is positive exactly when something was read from the cache |
| CacheHistogram.SummarizeHistogram | packages/core/src/cache-metrics.ts:247-326 | a histogram with consistent totals is summarised exactly as the sorted expansion of its usable buckets, with the meaning of `CacheMetrics.SummaryMeans`; any other reports only how many responses it claimed |
| CacheHistogram.HistogramValueAtRank | packages/core/src/cache-metrics.ts:231-241 | walking the buckets finds the value at that rank of the expansion |
| CacheHistogram.HistogramMedian | packages/core/src/cache-metrics.ts:299-306 | of sorted buckets the median by counting over the expanded list, without expanding |
| CacheHistogram.HistogramPercentile | packages/core/src/cache-metrics.ts:307-313 | of sorted buckets the quartile by counting over the expanded list, without expanding |
| CacheHistogram.CountResponses | packages/core/src/cache-metrics.ts:290-297 | responses and hits are those of the expansion |
| CacheHistogram.SortedExpansion | packages/core/src/cache-metrics.ts:280-289 | sorting the buckets is sorting the values, and keeps the number of hits |
| CacheHistogram.FormsAgree | packages/core/src/cache-metrics.ts:181-326 | observations and a histogram of the same shares, in any order, have the same summary in every field |
| CacheHistogram.OrderIsForgotten | packages/core/src/cache-metrics.ts:216-229 | a summary depends on the shares only up to their order |
| CacheHistogram.MeasuredArePercents | packages/core/src/cache-metrics.ts:280-288 | the values of any histogram are percentages |
| CacheHistogram.MeasuredCounts | packages/core/src/cache-metrics.ts:280-297 | every share occurs as often as the usable buckets with it say |
| CacheHistogram.UntrustedMeans | packages/core/src/cache-metrics.ts:250-278 | a histogram whose totals contradict each other reports no measurement and the responses claimed by valid counts as unavailable |
| FlightTimeline.ConsistentTokens | packages/core/src/cache-flight-recorder.ts:93-135 | the counts of a turn contradict nothing exactly under one condition, stated without the order of the tests |
| FlightFindings.ContradictionMeans | packages/core/src/cache-flight-recorder.ts:93-135 | a turn is charged with the first contradiction, in the order they are tested, that its counts and outcome show |
| FlightTimeline.DetectTimelineGaps | packages/core/src/cache-flight-recorder.ts:143-160 | the loop reports the gaps at each position of the ordered turns, each once |
| FlightTimeline.NoGaps | packages/core/src/cache-flight-recorder.ts:143-160 | no gap is reported exactly when no turn announces one and the numbers have no break or repetition |
| FlightFindings.GapsMean | packages/core/src/cache-flight-recorder.ts:143-160 | over the turns in any order: a gap is reported exactly where a turn announces one, a number occurs twice, or a stretch of numbers between two turns is missing entirely, each once |
| FlightTimeline.InspectIntegrity | packages/core/src/cache-flight-recorder.ts:162-200 | the loops give the worst grade, the sorted unavailable dimensions and the evidence |
| FlightTimeline.CompleteEvidence | packages/core/src/cache-flight-recorder.ts:162-200 | the record is complete exactly when every turn is clean and the numbering unbroken; then nothing is reported |
| FlightFindings.GradeMeans | packages/core/src/cache-flight-recorder.ts:162-200 | contradictory exactly for a contradiction, else incomplete exactly for a gap or an incomplete turn, complete exactly if nothing is missing |
| FlightFindings.EvidenceMeans | packages/core/src/cache-flight-recorder.ts:162-200 | the evidence is exactly one piece for each contradictory turn and each gap, a repeated number being a contradiction |
| FlightTimeline.DimensionsSorted | packages/core/src/cache-flight-recorder.ts:192-199 | the unavailable dimensions are those of the turns, each once, in the order of their texts |
| FlightDiagnosis.DiagnoseTimeline | packages/core/src/cache-flight-recorder.ts:296-404 | the scan reports on the first turn that falls after a hit, from the single transition before it, or the quiet report |
| FlightDiagnosis.ReportMiss | packages/core/src/cache-flight-recorder.ts:349-397 | evidence, cause and idle gap of a miss directly behind a hit |
| FlightDiagnosis.FallFollowsHit | packages/core/src/cache-flight-recorder.ts:313-348 | the first turn that is no hit after any hit stands directly behind a hit |
| FlightDiagnosis.DiagnosedIffFall | packages/core/src/cache-flight-recorder.ts:313-404 | a turn is diagnosed exactly when some turn falls after a hit, and it is the first |
| FlightDiagnosis.NamedIffProven | packages/core/src/cache-flight-recorder.ts:350-397 | a cause is named exactly for a miss with a clean unbroken record and known lineage, and is the first difference between the two turns |
| FlightDiagnosis.LaterTurnsKeepDiagnosis | packages/core/src/cache-flight-recorder.ts:296-404 | turns with larger numbers never move the diagnosis: the report stays identical or its cause becomes unknown, and a named one stays exactly when the longer record is clean and unbroken |
| FlightDiagnosis.KindsOfTransition | packages/core/src/cache-flight-recorder.ts:202-245 | the evidence of a transition determines lineage and cause as the two turns do |
| FlightFindings.TransitionTells | packages/core/src/cache-flight-recorder.ts:202-245 | three comparisons, each changed, stable or unavailable exactly as both values are known and differ, are equal, or one is not known |
| FlightFindings.IdleMeans | packages/core/src/cache-flight-recorder.ts:283-294 | an idle gap is reported exactly from ninety seconds on, rounded to whole seconds |
| FlightFindings.OutcomeTells | packages/core/src/cache-flight-recorder.ts:247-258 | the outcome of a turn is evidence, unavailable exactly if unknown |
| FlightFindings.QuietMeans | packages/core/src/cache-flight-recorder.ts:296-404 | a record on which nothing falls starts at its smallest number and, if it ends on a hit, says exactly what stayed the same |
| FlightFindings.ReportGrade | packages/core/src/cache-flight-recorder.ts:260-404 | a report is complete exactly for a clean unbroken record without an unknown cause, and lists exactly the gaps and the unavailable dimensions of the turns |
| CohortSeal.UnavailableDimensions | packages/core/src/cache-flight-cohort-seal.ts:457-482 | the loop over the dimensions gives the set of what the seal misses |
| CohortSeal.FullyKnown | packages/core/src/cache-flight-cohort-seal.ts:457-482 | nothing is missing exactly when the seal says complete three times, declares nothing, belongs to its epoch and has every value |
| CohortFindings.KnownMeans | packages/core/src/cache-flight-cohort-seal.ts:417-482 | field by field, when a seal misses nothing |
| CohortSeal.KnownValues | packages/core/src/cache-flight-cohort-seal.ts:538-551 | the values of a dimension that the seals know |
| CohortSeal.SeveralValues | packages/core/src/cache-flight-cohort-seal.ts:538-551 | more than one value exactly when two seals differ |
| CohortSeal.ChangedSealBlockers | packages/core/src/cache-flight-cohort-seal.ts:553-564 | one blocker for each selection dimension on which two seals differ |
| CohortSeal.SealBlockers | packages/core/src/cache-flight-cohort-seal.ts:524-536 | one blocker for each dimension some seal misses |
| CohortSeal.CompleteIffAgreeing | packages/core/src/cache-flight-cohort-seal.ts:484-498 | seals are complete exactly when each is fully known and any two agree on all ten selection dimensions |
| CohortFindings.AgreeMeans | packages/core/src/cache-flight-cohort-seal.ts:417-498 | fully known seals agree exactly when ten named fields are equal |
| CohortFindings.FieldDecides | packages/core/src/cache-flight-cohort-seal.ts:417-455 | changing one field changes the value of its own dimension and of no other |
| CohortSeal.VisibleIsShared | packages/core/src/cache-flight-cohort-seal.ts:500-522 | a selection value is shown for a cohort exactly when all its seals know that value |
| CohortAnalysis.CountOutcomes | packages/core/src/cache-flight-cohort-seal.ts:638-645 | the outcome counts |
| CohortAnalysis.CompletenessOf | packages/core/src/cache-flight-cohort-seal.ts:576-593 | the grade of a cohort, turn by turn |
| CohortAnalysis.TurnBlockers | packages/core/src/cache-flight-cohort-seal.ts:595-623 | the blockers of the turns, each once |
| CohortAnalysis.NoTurnBlockers | packages/core/src/cache-flight-cohort-seal.ts:595-632 | no turn blocks exactly when every turn is eligible, which is when the grade is complete |
| CohortFindings.GradeMeans | packages/core/src/cache-flight-cohort-seal.ts:576-593 | the grade of a cohort is that of its worst turn |
| CohortFindings.BlockersMean | packages/core/src/cache-flight-cohort-seal.ts:524-623 | the blockers of a cohort, each once, are exactly: a dimension some seal misses, one on which two known values differ, and what a turn lacks |
| CohortAnalysis.GroupObservations | packages/core/src/cache-flight-cohort-seal.ts:855-885 | each group of the map holds exactly the observations with its name, in order of first appearance; the running counts are those of the list |
| CohortSelection.SelectionBlockers | packages/core/src/cache-flight-cohort-seal.ts:789-844 | lists exactly the blockers of the cohorts, of unsealed observations and of the comparison between cohorts, each once, with the scope within or across instances where account scope or route are compared over several instances |
| CohortSelection.CompareShown | packages/core/src/cache-flight-cohort-seal.ts:733-755 | whether some cohort hides a dimension, and whether two show different values |
| CohortSelection.ComparabilityGroups | packages/core/src/cache-flight-cohort-seal.ts:767-787 | the cohorts by known service instance, in order; one whose instance is hidden stands alone |
| CohortSelection.DimensionBlockers | packages/core/src/cache-flight-cohort-seal.ts:804-841 | the blockers one dimension raises: across instances a partition dimension is not comparable, and changed only within one instance |
| CohortSelection.SelectionClear | packages/core/src/cache-flight-cohort-seal.ts:789-844 | nothing is listed exactly when no cohort is blocked, nothing is unsealed, and several cohorts show one same value of every selection dimension |
| CohortSelection.ChangeNeedsOneInstance | packages/core/src/cache-flight-cohort-seal.ts:804-841 | a change of account scope or route that no cohort reports itself is listed exactly where two cohorts of one known service instance show different values |
| CohortReport.SummarizeCohort | packages/core/src/cache-flight-cohort-seal.ts:651-688 | the summary of one cohort |
| CohortFindings.SummaryTells | packages/core/src/cache-flight-cohort-seal.ts:651-688 | a cohort names its epoch and partition, its occurrence unless two seals differ on it, and exactly what stands in its way |
| CohortReport.SafeSubsetForSummary | packages/core/src/cache-flight-cohort-seal.ts:701-719 | the safe subset of one cohort, or none |
| CohortReport.AnalyzeCohorts | packages/core/src/cache-flight-cohort-seal.ts:849-914 | the whole report |
| CohortTheorems.GroupsPartition | packages/core/src/cache-flight-cohort-seal.ts:866-885 | every observation is in exactly one group or among the unsealed |
| CohortFindings.RetainedMeans | packages/core/src/cache-flight-cohort-seal.ts:849-856 | a report is about exactly the retained observations, as often as they occur |
| CohortTheorems.CohortsByName | packages/core/src/cache-flight-cohort-seal.ts:866-894 | a cohort is exactly the retained observations with its name; names are distinct |
| CohortOrder.ArrangedInTime | packages/core/src/cache-flight-cohort-seal.ts:283-304 | observations whose timestamps are all dates, or all none, are arranged by instant, timestamp, conversation and sequence |
| CohortOrder.MixedGoesRound | packages/core/src/cache-flight-cohort-seal.ts:283-304 | with a text that is no date between two dates the comparison of pairs can go round |
| CohortOrder.SummaryInTime | packages/core/src/cache-flight-cohort-seal.ts:651-688 | such a cohort lists its contributors in that order and spans from the first timestamp to the last |
| CohortOrder.SummarySpans | packages/core/src/cache-flight-cohort-seal.ts:651-688 | no observation of a cohort with dates is before its first timestamp or after its last |
| CohortOrder.CohortsInTime | packages/core/src/cache-flight-cohort-seal.ts:849-897 | the cohorts of a report come by their earliest observations, then by name |
| CohortTheorems.ReportAddsUp | packages/core/src/cache-flight-cohort-seal.ts:849-914 | sizes, hit, miss and unknown counts and contributors of the cohorts and the unsealed group add up to those retained |
| CohortTheorems.CompleteIffComparable | packages/core/src/cache-flight-cohort-seal.ts:484-498 | the seals of a cohort are complete exactly when any two of its observations are comparable |
| CohortTheorems.ReportedSubsetsAreSafe | packages/core/src/cache-flight-cohort-seal.ts:701-719 | every reported safe subset is the eligible part of one cohort, any two of whose observations have fully known seals agreeing on all ten dimensions |
| CohortTheorems.SafeSubsetsAreComparable | packages/core/src/cache-flight-cohort-seal.ts:701-719 | a cohort has a safe subset only if any two of its observations are comparable |
| CohortFindings.SubsetsListed | packages/core/src/cache-flight-cohort-seal.ts:899-912 | a report lists the safe subset of exactly the cohorts that have one |
| CohortFindings.SubsetCounts | packages/core/src/cache-flight-cohort-seal.ts:701-719 | its size, outcomes and contributors are those of the eligible turns |
| CohortTheorems.EligibleIffWhole | packages/core/src/cache-flight-cohort-seal.ts:651-719 | a cohort is eligible exactly when its safe subset is the whole cohort |
| PollingLifecycle.StepKeeps | apps/server/src/usage-polling-lifecycle.ts:47-125 | every call and every firing keeps the invariant tying leases, slots and pending timers |
| PollingLifecycle.RunKeeps | apps/server/src/usage-polling-lifecycle.ts:47-125 | so does every interleaving |
| PollingRuns.RunsOnlyWhileCurrent | apps/server/src/usage-polling-lifecycle.ts:118-123 | a callback runs only on a firing of its pending timer, while its lease is current, and not again |
| PollingOutcomes.FiringMeans | apps/server/src/usage-polling-lifecycle.ts:107-125 | in every run a firing runs its callback exactly if a current lease made the timer and nothing since has ended the lease, scheduled again for that kind, or fired the timer |
| PollingOutcomes.PendingMeans | apps/server/src/usage-polling-lifecycle.ts:107-125 | in every run a timer is pending exactly under the same condition on the events |
| PollingOutcomes.ScheduledCallbackRuns | apps/server/src/usage-polling-lifecycle.ts:107-125 | a call by a current lease makes exactly one new pending timer in place of the one for that kind, and its first firing runs the callback unless the lease ended or scheduled for that kind again |
| PollingOutcomes.CurrentMeans | apps/server/src/usage-polling-lifecycle.ts:47-89 | in every run a lease is current exactly when a replacement handed it out, with the number of replacements so far as generation, and nothing since has retired or replaced it |
| PollingRuns.AtMostOnce | apps/server/src/usage-polling-lifecycle.ts:107-125 | in every run no callback runs twice |
| PollingRuns.StaleLeaseIsInert | apps/server/src/usage-polling-lifecycle.ts:68-125 | neither the calls nor the timers of a lease that is not current change anything |
| PollingRuns.OneSlotEach | apps/server/src/usage-polling-lifecycle.ts:107-125 | a timer is pending exactly when it sits in a slot, and then in only one |
| PollingRuns.RetireAllLeavesNone | apps/server/src/usage-polling-lifecycle.ts:82-85 | no lease and no pending timer is left, and no callback has run |
| PollingRuns.GenerationsIncrease | apps/server/src/usage-polling-lifecycle.ts:47-61 | of two replacements in a run the later gets the larger generation |
| PollingRuns.NeverCurrentAgain | apps/server/src/usage-polling-lifecycle.ts:41-125 | a lease once replaced or retired is never current again, and none of its callbacks runs any more |
| PollingRuns.CancelledNeverRuns | apps/server/src/usage-polling-lifecycle.ts:107-125 | a cancelled timer never runs its callback, however late and often it fires |
| PollingRuns.OtherAccountsAreUntouched | apps/server/src/usage-polling-lifecycle.ts:47-125 | a lease touches the state of its own account only |
| UsagePolling.UsagePollingLifecycle.Replace | apps/server/src/usage-polling-lifecycle.ts:47-61 | retires the old lease and issues one with the next generation, keeping the invariant |
| UsagePolling.UsagePollingLifecycle.RetireLease | apps/server/src/usage-polling-lifecycle.ts:68-75 | removes exactly the current lease and cancels its timers |
| UsagePolling.UsagePollingLifecycle.Retire | apps/server/src/usage-polling-lifecycle.ts:77-80 | retires whatever lease the account has |
| UsagePolling.UsagePollingLifecycle.RetireAll | apps/server/src/usage-polling-lifecycle.ts:82-85 | the loop retires every lease, in any order |
| UsagePolling.UsagePollingLifecycle.IsCurrent | apps/server/src/usage-polling-lifecycle.ts:87-89 | true exactly for the lease that owns its account |
| UsagePolling.UsagePollingLifecycle.Schedule | apps/server/src/usage-polling-lifecycle.ts:107-125 | a current lease gets a new timer in its slot and loses the old one |
| UsagePolling.UsagePollingLifecycle.Fire | apps/server/src/usage-polling-lifecycle.ts:118-123 | the callback runs exactly if its timer was pending, and leaves its slot empty |
| ExpiryProtocol.ObservationIsFaithful | apps/server/src/managed-ingress.ts:45-93 | the observer knows the next number and the terminal events of exactly the frames it looked at |
| ExpiryProtocol.NextIsAboveAll | apps/server/src/managed-ingress.ts:56-62 | the next number is above every observed number, of any kind, if and only if each one that is not counted is negative or below the successor of a counted one |
| ExpiryProtocol.EverythingObserved | apps/server/src/managed-ingress.ts:45-93 | without a terminal event or unreadable data every complete frame is looked at |
| ExpiryProtocol.AcceptedExpiryProtocol.Observe | apps/server/src/managed-ingress.ts:45-93 | the loop reads frame after frame and stops for good at data it cannot read |
| ExpiryProtocol.AcceptedExpiryProtocol.Terminal | apps/server/src/managed-ingress.ts:97-125 | the terminal frame of the path, or none after a terminal event |
| IngressMachine.StepKeeps | apps/server/src/managed-ingress.ts:232-368 | every read, cancellation, deadline and clean-up keeps the invariant of a wrapped response |
| IngressMachine.RunKeeps | apps/server/src/managed-ingress.ts:232-368 | so does every interleaving |
| IngressRuns.ClientSeesPrefix | apps/server/src/managed-ingress.ts:277-368 | the client receives a prefix of the upstream bytes, then at most one terminal frame, and that only for an event stream that expired; after an observed terminal event on a Responses path nothing but the prefix |
| IngressOutcomes.RunMeans | apps/server/src/managed-ingress.ts:232-368 | in every run the first event that can end the request decides how the output ends, until then exactly the chunks that answer a pull are delivered, in order, and a deadline adds one terminal frame to an event stream; the upstream is cancelled exactly by a consumer or a deadline |
| IngressOutcomes.ExpiredResponses | apps/server/src/managed-ingress.ts:45-119 | an expired Responses stream gets a frame with the next number and the last id, model and time observed, skipped exactly after a terminal event |
| IngressOutcomes.ExpiredOthers | apps/server/src/managed-ingress.ts:119-124 | any other expired event stream gets the error of its path |
| IngressOutcomes.AwaitingMeans | apps/server/src/managed-ingress.ts:346-363 | a pull is outstanding exactly when no read has answered it |
| IngressOutcomes.StartsFresh | apps/server/src/managed-ingress.ts:28-44 | a new observer has seen nothing and looks only at Responses streams |
| IngressRuns.FinishedAtMostOnce | apps/server/src/managed-ingress.ts:232-368 | the output is closed or failed at most once, never used afterwards, and the upstream cancelled at most once |
| IngressRuns.SettledStays | apps/server/src/managed-ingress.ts:271-368 | once settled, no later event changes what the client sees |
| IngressRuns.ResponsesTerminal | apps/server/src/managed-ingress.ts:97-119 | on a Responses path the frame is skipped exactly when a terminal event was observed, and otherwise carries the next number, which is above every observed one exactly under the condition of `ExpiryProtocol.NextIsAboveAll` |
| IngressRuns.UncountedNumberStartsAtZero | apps/server/src/managed-ingress.ts:56-62 | after one frame whose number is not counted the terminal frame is numbered zero |
| IngressRuns.NumbersLeftBehind | apps/server/src/managed-ingress.ts:56-62 | a fraction, an infinity and the largest safe integer are not counted, and zero is not above them |
| IngressRuns.OtherTerminals | apps/server/src/managed-ingress.ts:119-124 | on the other paths the frame is never skipped |
| ManagedIngress.ManagedResponse.constructor | apps/server/src/managed-ingress.ts:340-345 | a newly wrapped response is in the starting state and keeps the invariant |
| ManagedIngress.ManagedResponse.Expire | apps/server/src/managed-ingress.ts:277-301 | the deadline acts at most once and only on an unsettled request |
| ManagedIngress.ManagedResponse.ReadChunk | apps/server/src/managed-ingress.ts:346-363 | a chunk is observed and passed on, or dropped once the request has expired or settled |
| ManagedIngress.ManagedResponse.ReadDone | apps/server/src/managed-ingress.ts:346-352 | the end of the upstream closes the output unless the request is over |
| ManagedIngress.ManagedResponse.ReadFailed | apps/server/src/managed-ingress.ts:357-362 | an upstream failure fails the output unless the request is over |
| ManagedIngress.ManagedResponse.Cancel | apps/server/src/managed-ingress.ts:364-367 | a consumer that cancels settles the request and cancels the upstream once |
| ManagedIngress.ManagedResponse.Dispose | apps/server/src/managed-ingress.ts:271-276 | settles once and ends observation |
| ManagedIngress.ManagedResponse.CancelOwned | apps/server/src/managed-ingress.ts:232-266 | a second cancellation is not passed on |

## Left out

- ComboOrder.OrderDoesNotMatter: takes slot ids and account ids to be distinct and slot ids not to be empty; that no tie among the ids involved is also necessary is proved for inactive combos only (`ComboOrder.InactiveOrderHidden`).
- LedgerValidation.RenderedIsAccepted: takes the host's JSON parser to read back what was printed, up to the order of members; numbers in records are safe integers.
- LedgerRendering.RenderLedger: the header lines are given, the last of them not blank.
- BodyReservation.DeclaredLengthReserves: compares the encoding with "identity" ignoring the case of ASCII letters only.
- ModelAliases.PassThroughKeepsFamily: lower-casing and trimming cover ASCII only.
- CacheHistogram.SummarizeHistogram: arithmetic is exact, so sums of response counts beyond the safe integers and floating-point rounding of shares are not modelled.
- FlightTimeline.ConsistentTokens: the ratio 0.05 and token counts are exact reals.
- FlightDiagnosis.DiagnoseTimeline: sequence numbers are integers; parsing of timestamps is a given value per turn.
- PollingLifecycle.StepKeeps: a timer host that calls back synchronously from inside `schedule` or `cancel` is not modelled.
- IngressRuns.ClientSeesPrefix: the text a terminal frame is rendered to is left open; frames are what the frame buffer yields for a chunk.
- Abort inside the body reader, which depends on the order of promise callbacks in the host.
- `toJSON`, cycles, big integers, and boxed primitives with a conversion of their own, in the bounded serialiser.
- The race between handler and deadline before a response is wrapped, timing-envelope verification and the event frame buffer.
- The checks of ledger anchors and header lines, derivation from git, and evidence and review fields of ledger items.
- Proposal generation for combo rules, and the merging of model mappings.
- Server start-up, providers, database, HTTP handling, command line, release and benchmark scripts: input and output with no property over runs.
- Caches, event buses, error classes and tables of constants, which would only add easy members.
