# Time-window resolution of the ArcLink web interface metadata module

This project models the part of `wsgi/modules/metadata.py` that prepares
request time windows, and proves properties of the model in Dafny.

- **Explicit mode** (`__timewindows_tw`) gives every requested stream the
  caller's (start, end) window. It keeps only the streams that the inventory
  cache knows over that window.
- **Event-relative mode** (`__timewindows_ev`) handles every (event, stream)
  pair. It probes the cache at the origin time for the station's coordinates
  and asks the travel-time table for the predicted arrivals. It then picks
  the first arrival that fits the requested start phase and the first that
  fits the end phase, offsets each by minutes, and looks the stream up again
  over the resolved window.
  - A "P" request at 120 degrees or more accepts only names starting with
    `PKP` or `PKiKP`.
  - Otherwise the "P" family is {P, Pg, Pb, Pn, Pdif, Pdiff}. The "S" family
    is {S, Sg, Sb, Sn, Sdif, Sdiff} plus every name starting with `SKS`.
- Both modes append rows in order. A request fails as a whole ("maximum
  request size exceeded") as soon as it holds more than `max_lines` rows.
- A stream key or an event without exactly four components fails the request.
- The **parameter-set check** of `timewindows` picks explicit mode for
  exactly {start, end} and event-relative mode for exactly the five event
  parameters. `streams` is required in both.
- The **station-selection export** (`download_selection`) writes one
  `net, sta, cha, loc` line per stream key.

Layout:

- `types.dfy`: the data, the client errors, and the arity checks on keys and events.
- `phases.dfy`: `__isphase`, the distance rule, and the first-match scan as functions.
- `accumulate.dfy`: appending rows under the cap, as a run over emit/skip/fail steps.
- `windows.dfy`: what each mode computes, as step sequences, with their properties.
- `dispatch.dfy`: the parameter-set check.
- `export.dfy`: the export text.
- `metadata.dfy`: the module object (`WiModule`) holding `max_lines`, the cache
  and the travel-time table. Its loops are written imperatively, and each is
  proved to compute the matching function above.

The collaborators are parameters of the model:

- The cache lookup `getStreamInfo` is an `Inventory` function. `None` means
  "not defined there".
- `TravelTimeTable.compute` is a `TravelTimes` function. `None` means "raised".
- `Math.delazi` is a `Distance` function.

Times are whole seconds, offsets whole minutes, and the distance is a real number.

Where the code contradicts its own messages and comments, the model follows
the code:

- An invalid `startphase`/`endphase` does not fail the request. The error
  message at line 368 and the docstring at lines 378-383 admit only "P" and
  "S", and lines 464 and 479 raise a client error for anything else. But that
  raise happens inside the `try` whose handler at lines 481-483 logs it and
  moves on to the next stream, so the pair is only skipped
  (`Windows.WrongPhaseSkipsPair`). The error is also raised only when the
  arrival list is non-empty (`Phases.ResolveTime`).
- In event-relative mode, stream keys are checked inside the event loop. With
  no events at all, a malformed stream key goes unnoticed and the result is
  empty.
- Checks happen in iteration order. A request can therefore report
  RequestTooLarge before reaching a malformed key further on.

## Model

| member | source | states |
|---|---|---|
| `Types.ParseKey` | wsgi/modules/metadata.py:330-341 | a stream key is accepted exactly when it has four components, and it then yields those four codes in order; otherwise the error is "invalid stream" naming the key |
| `Types.ParseEvent` | wsgi/modules/metadata.py:395-406 | an event is accepted exactly when it has four components, three numeric and a time, which it keeps; otherwise "invalid event" naming it |
| `Phases.IsPhase` | wsgi/modules/metadata.py:354-370 | a phase other than "P" or "S" is an error; for "P" true exactly on {P, Pg, Pb, Pn, Pdif, Pdiff}; for "S" true exactly on {S, Sg, Sb, Sn, Sdif, Sdiff} or a name starting with SKS |
| `Phases.FamiliesDisjoint` | wsgi/modules/metadata.py:359-365 | no arrival name is in both the P and the S family |
| `Phases.CorePhaseOutsidePFamily` | wsgi/modules/metadata.py:356-360 | PKP/PKiKP names are never in the P family, so the far-distance case has to be handled outside `__isphase` |
| `Phases.RuleFor` | wsgi/modules/metadata.py:443-479 | "P" at delta >= 120 selects the core-phase rule; "S", or "P" below 120, selects the requested phase's own family; any other phase selects no rule (the scan raises) |
| `Phases.ThresholdIsInclusive` | wsgi/modules/metadata.py:443-458 | for "P" the family rule applies below 120 degrees and the core-phase rule from exactly 120 degrees on |
| `Phases.FirstMatch` | wsgi/modules/metadata.py:452-461 | the index returned is an accepted arrival with no accepted arrival before it; None only when no arrival is accepted |
| `Phases.ResolveTime` | wsgi/modules/metadata.py:452-479 | the scan raises exactly when the list is non-empty and the phase is neither "P" nor "S"; a resolved time is the origin time plus some arrival's travel time plus offset*60 |
| `Phases.ResolveTimeIsFirstMatch` | wsgi/modules/metadata.py:452-476 | for a valid phase, the resolved time is the origin time plus the travel time of the first accepted arrival plus offset*60 |
| `Phases.ResolveTimeNotFound` | wsgi/modules/metadata.py:431-476 | for a valid phase, the time stays unresolved exactly when no arrival is accepted |
| `Phases.FarPAnchorsOnCorePhase` | wsgi/modules/metadata.py:453-456 | at delta >= 120 a "P" request resolves exactly when the list holds a PKP/PKiKP arrival |
| `Phases.FarPIgnoresDirectP` | wsgi/modules/metadata.py:453-456 | at delta >= 120 a P-family arrival in front of the list does not change the resolved start |
| `Phases.FirstMatchIsEarliest` | wsgi/modules/metadata.py:434-436 | on a list sorted by travel time, the first accepted arrival is the earliest accepted one |
| `Accumulate.Run` | wsgi/modules/metadata.py:345-349 | processing (event,) stream steps in order: a success extends the rows accumulated before and, from within the cap, stays within max_lines; a failure is the error of a failing step or "maximum request size exceeded" |
| `Accumulate.RunAppend` | wsgi/modules/metadata.py:395-499 | processing two runs of pairs in sequence is processing the first, then the second from the rows it left, and stops at the first failure |
| `Accumulate.RunAllOrNothing` | wsgi/modules/metadata.py:345-349 | with no malformed input, the outcome is all emitted rows when they fit under max_lines and "maximum request size exceeded" otherwise, never a truncated list |
| `Accumulate.RunFailsOnFail` | wsgi/modules/metadata.py:332-341 | a Fail step (a malformed key or event), once reached, fails the request |
| `Accumulate.ZeroCapRejectsFirstRow` | wsgi/modules/metadata.py:495-499 | with max_lines = 0 the first row fails the request |
| `Windows.TwStep` | wsgi/modules/metadata.py:330-349 | for one key in explicit mode: a fail ("invalid stream" naming it) exactly when it does not have four components; a skip exactly when the cache does not know it over (start, end); otherwise a row with the caller's window, its codes and the cache's size |
| `Windows.TwResult` | wsgi/modules/metadata.py:327-351 | a successful explicit-mode result means every key was well formed and has at most max_lines rows |
| `Windows.TwMalformedKeyFails` | wsgi/modules/metadata.py:330-341 | a malformed key anywhere in the list fails an explicit-mode request |
| `Windows.TwAllOrNothing` | wsgi/modules/metadata.py:327-351 | with well-formed keys, explicit mode returns exactly one row per key the cache knows over the window, in key order, with the cache's size, when they fit under max_lines, and "maximum request size exceeded" otherwise |
| `Windows.TwResultShape` | wsgi/modules/metadata.py:327-351 | a successful explicit-mode result has at most max_lines rows and at most one per stream; every row carries the caller's start and end unchanged and the codes of a requested stream |
| `Windows.TwAllKnown` | wsgi/modules/metadata.py:343-351 | when every key is well formed and known over the window, explicit mode returns one row per stream in stream order, or fails as too large when there are more than max_lines streams |
| `Windows.PairRow` | wsgi/modules/metadata.py:421-499 | a pair yields a row only when the probe at the origin time finds the stream, both phases are "P" or "S", and the cache knows the stream over the resolved window; the row carries the stream's codes and the cache's size for that window |
| `Windows.PairRowAnchored` | wsgi/modules/metadata.py:440-476 | a row for an (event, stream) pair needs the travel times to succeed, and its start and end are the origin time plus the first accepted start/end arrival plus the offsets in minutes |
| `Windows.PairRowResolves` | wsgi/modules/metadata.py:440-496 | conversely, when the probe hits, `compute` returns arrivals, both phases have a first accepted arrival and the cache knows the stream over the window anchored on them, the pair yields exactly the row with that window, the stream codes and the cache's size |
| `Windows.WrongPhaseSkipsPair` | wsgi/modules/metadata.py:463-483 | a requested phase other than "P"/"S" never yields a row for the pair, and never an error |
| `Windows.TravelTimeFailureSkipsPair` | wsgi/modules/metadata.py:445-449 | a failing travel-time computation skips the pair |
| `Windows.EvResult` | wsgi/modules/metadata.py:393-501 | a successful event-relative result means every event was well formed, every key too when there is an event, and has at most max_lines rows |
| `Windows.EvAllOrNothing` | wsgi/modules/metadata.py:393-501 | with well-formed events and keys, event-relative mode returns every resolved row in event-then-stream order when they fit under max_lines, and "maximum request size exceeded" otherwise, whatever the oracles answer |
| `Windows.EvMalformedEventFails` | wsgi/modules/metadata.py:395-406 | a malformed event anywhere in the list fails an event-relative request |
| `Windows.EvMalformedKeyFails` | wsgi/modules/metadata.py:408-419 | a malformed stream key fails the request whenever there is at least one event |
| `Dispatch.SelectMode` | wsgi/modules/metadata.py:519-535 | without streams the request is "missing streams"; with streams every rejected parameter set is "invalid set of parameters" |
| `Dispatch.SelectsExplicit` | wsgi/modules/metadata.py:519-529 | explicit mode is selected exactly when streams, start and end are present and no event parameter is |
| `Dispatch.SelectsEventRelative` | wsgi/modules/metadata.py:519-532 | event-relative mode is selected exactly when streams and all five event parameters are present and neither start nor end is |
| `Dispatch.RejectsMixtures` | wsgi/modules/metadata.py:528-535 | a request mixing window and event parameters is an invalid set of parameters |
| `Export.Selection` | wsgi/modules/metadata.py:300-315 | the export succeeds exactly when every key has four components; otherwise it is "invalid stream" naming the first malformed key |
| `Export.SelectionOne` | wsgi/modules/metadata.py:304-315 | a single well-formed key exports as its net, sta, cha and loc joined by ", " and ended by a line break |
| `Export.SelectionCons` | wsgi/modules/metadata.py:302-315 | a successful export over a non-empty key list means the first key has four components and the text is its line followed by the export of the remaining keys |
| `Export.SelectionPrepend` | wsgi/modules/metadata.py:302-315 | putting a four-component key before a successful key list prepends that key's line to the export |
| `Export.SelectionAppend` | wsgi/modules/metadata.py:300-315 | the export of two successful key lists concatenated is the concatenation of their exports, so lines follow the keys in order |
| `Export.SelectionLine` | wsgi/modules/metadata.py:300-315 | in a successful export, the i-th line is key i's net, sta, cha and loc joined by ", ", between the export of the keys before it and of the keys after it |
| `Export.SelectionLines` | wsgi/modules/metadata.py:300-315 | a successful export has one line per key (codes without line breaks) |
| `Metadata.ScanArrivals` | wsgi/modules/metadata.py:451-479 | the break-loop over the arrival list computes `ResolveTime` |
| `Metadata.WiModule.constructor` | wsgi/modules/metadata.py:78-81 | the object holds the configured line cap, the inventory cache and the travel-time table |
| `Metadata.WiModule.DownloadSelection` | wsgi/modules/metadata.py:300-315 | the text-building loop computes `Selection` |
| `Metadata.WiModule.TimeWindowsTw` | wsgi/modules/metadata.py:327-351 | the loop over streams computes the explicit-mode outcome `TwResult` |
| `Metadata.WiModule.ResolvePair` | wsgi/modules/metadata.py:408-499 | for one stream key, a malformed key is an error, and otherwise the outcome is the pair's row or a skip, as `EvStep` defines |
| `Metadata.WiModule.TimeWindowsEv` | wsgi/modules/metadata.py:373-501 | the events-by-streams double loop computes the event-relative outcome `EvResult` |

## Left out

- JSON decoding of `streams` and `events`, the conversion of values by
  `str()`, `float()` and the date parser, and the JSON encoding of the
  result are left out. Keys arrive as sequences of strings. Event components
  arrive already classified as number, timestamp or unconvertible. A
  non-list key or event (where `len()` itself fails) is not represented.
- The `timewindows` glue after the parameter-set check (reading parameters
  with `__get_param` and calling the chosen resolver) is left out. The check
  itself is modelled.
- The inventory cache, the travel-time table and `Math.delazi` are
  parameters, because their code is not part of this model. So are the
  other endpoints (`networktypes`, `sensortypes`, `phases`, `getNetworks`,
  `getStations`, `getStreams`, `query`), which only pass through to the cache.
- Floating-point times and offsets are modelled as whole seconds and whole minutes.
- Windows.PairRow: a NaN distance is not modelled. In the source, NaN makes both
  `delta >= delta_threshold` and `delta < delta_threshold` false (453/458, 467/473),
  so a "P" request reaches the raise at 464/479 and the pair is skipped once
  `compute` returns arrivals; the model's real distance always selects a rule.
- Windows.PairRow: a datetime overflow in `ev_time + timedelta(...)` (455/460/469/475)
  is not modelled. The source catches it at 481-483 and skips the pair; the model's
  unbounded integer times emit the row instead.
- A cache answer that is present but empty (a falsy dictionary) is not
  represented. A found stream is always truthy.
- Logging, the `DownFile` wrapper of the export, action registration, and
  the result-type check after resolution are left out.
- Error messages are modelled as variants of `Error` carrying the offending key or event, not its `str()` rendering.
