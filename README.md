# WireMock request journal: the disabled-mode contract

WireMock's HTTP test-double server keeps a request journal. It records every
request the server served, so that tests can later ask whether a request was
made and how often. The server can be configured with
`disableRequestJournal()`. After that, every journal operation degrades in a
fixed way:

- four operations fail with `RequestJournalDisabledException`: listing all
  serve events, looking up a served stub by id, removing serve events matching
  a request pattern, and removing serve events for stubs matching metadata;
- two operations answer without an error: counting matching requests gives
  `-1`, and finding matching requests gives an empty list.

The acceptance test `DisabledRequestJournalTest` pins this down after
serving two requests.

The model has three modules.

- `ServeEvents` (`serve_events.dfy`) holds the values. A serve event is an
  id, a request snapshot and the stub mapping that served it, if there was
  one. Request patterns and metadata patterns are opaque predicates.
  `Anything` is the always-true pattern (`RequestPattern.ANYTHING`). The module
  also holds the operations on an ordered log of events: `Filter`, `Lookup`
  and `RequestsOf`, with lemmas about order, partition and idempotence.
- `Journal` (`request_journal.dfy`) holds the class `RequestJournal`. Its
  `const enabled` is fixed at construction and its `var events` is the log,
  oldest first.
  - `RequestReceived` appends an event only when the journal is enabled.
  - The removals are methods.
  - Listing, lookup, count and find are functions.
  - All six results are a `Result` (success or `RequestJournalDisabled`), an
    `int` or a `seq`.
  - The invariant `Valid()` says a disabled journal holds nothing.
- `DisabledRequestJournalTest` (`disabled_request_journal_test.dfy`) mirrors
  the test.
  - `SetupServer` builds the journal and serves GET `/two`, then GET `/one`.
  - Each test method returns what the journal answers. Its postcondition is
    the test's assertion.

Enabled-mode behaviour is assumed: the plain filter, count and remove over
the log in arrival order.
The verification weight is on the disabled branch. `EnabledJournalKeepsServiceOrder`
and `EnabledJournalRemovesEverything` are likewise assumed counterparts of the test,
with the journal enabled.

The test serves `/two` first, then `/one`; the model keeps that order.

The test methods keep the source's names, including the spellings
`ThrowsErrorOnGetAllServerEvents` ("Server") and
`ThrowsErrorOnRemoteServeEventsForStubsMatchingMetadata` ("Remote"), although
the operations they exercise are `GetAllServeEvents` and
`RemoveServeEventsForStubsMatchingMetadata`.

## Model

| member | source | states |
|---|---|---|
| `Journal.RequestJournal.constructor` | src/test/java/com/github/tomakehurst/wiremock/verification/DisabledRequestJournalTest.java:33 | the mode is chosen once at construction (a `const`), and the new journal is empty and valid |
| `Journal.RequestJournal.RequestReceived` | src/test/java/com/github/tomakehurst/wiremock/verification/DisabledRequestJournalTest.java:38-39 | an enabled journal appends the served event at the end. A disabled one leaves the log empty, and every count stays -1. When enabled, every pattern's count grows by one, and every pattern's find result gains the new request at its end, exactly when the new request matches it. With `FindAnythingListsEveryRequest`, this fixes find's arrival order and multiplicity |
| `Journal.RequestJournal.GetAllServeEvents` | src/test/java/com/github/tomakehurst/wiremock/verification/DisabledRequestJournalTest.java:42-45 | disabled: fails with the journal-disabled error, not a list. Enabled: succeeds with the whole log in arrival order |
| `Journal.RequestJournal.GetServeEvent` | src/test/java/com/github/tomakehurst/wiremock/verification/DisabledRequestJournalTest.java:47-52 | disabled: fails for every id, never "absent". Enabled: always succeeds. A found event is in the log and has that id. The answer is absent exactly when no logged event has the id |
| `Journal.RequestJournal.RemoveServeEventsMatching` | src/test/java/com/github/tomakehurst/wiremock/verification/DisabledRequestJournalTest.java:54-59 | disabled: fails and changes nothing, even for the always-true pattern. Enabled: returns the matching events and keeps the rest in order. As many are removed as were counted. Removed and kept events together are the old log. Afterwards the pattern counts 0 |
| `Journal.RequestJournal.RemoveServeEventsForStubsMatchingMetadata` | src/test/java/com/github/tomakehurst/wiremock/verification/DisabledRequestJournalTest.java:61-66 | disabled: fails for every argument, null (`None`) included, so the mode is checked first. Enabled with a pattern: removes exactly the events whose stub metadata matches, keeps the rest in order, and loses nothing |
| `Journal.RequestJournal.CountRequestsMatching` | src/test/java/com/github/tomakehurst/wiremock/verification/DisabledRequestJournalTest.java:68-73 | the result is -1 if and only if the journal is disabled, and that is not an error. Enabled: equals the number of requests find lists, at most the log's length |
| `Journal.RequestJournal.FindRequestsMatching` | src/test/java/com/github/tomakehurst/wiremock/verification/DisabledRequestJournalTest.java:75-81 | disabled: the empty list, not an error. Every listed request matches the pattern. Enabled: every matching served request is listed. Arrival order and one entry per matching event are stated by `RequestReceived`, which says each served request is appended to exactly the find results of the patterns it matches |
| `Journal.FindAnythingListsEveryRequest` | src/test/java/com/github/tomakehurst/wiremock/verification/DisabledRequestJournalTest.java:75-81 | enabled: the always-true pattern finds every served request, oldest first, and counts all of them |
| `ServeEvents.Filter` | src/test/java/com/github/tomakehurst/wiremock/verification/DisabledRequestJournalTest.java:54-59 | the selection holds only selected events taken from the log, and every selected event of the log is in it |
| `ServeEvents.Lookup` | src/test/java/com/github/tomakehurst/wiremock/verification/DisabledRequestJournalTest.java:47-52 | a found event is in the log with the asked id. The answer is absent if and only if no event has that id |
| `ServeEvents.RequestsOf` | src/test/java/com/github/tomakehurst/wiremock/verification/DisabledRequestJournalTest.java:77-80 | the logged requests, position by position, one per event |
| `ServeEvents.FilterEverything` | src/test/java/com/github/tomakehurst/wiremock/verification/DisabledRequestJournalTest.java:78 | a selection that keeps everything (`ANYTHING`) returns the whole log unchanged |
| `ServeEvents.FilterConcat` | src/test/java/com/github/tomakehurst/wiremock/verification/DisabledRequestJournalTest.java:38-39 | selection distributes over concatenation of logs, so arrival order is kept |
| `ServeEvents.FilterAppend` | src/test/java/com/github/tomakehurst/wiremock/verification/DisabledRequestJournalTest.java:38-39 | appending one event adds it to a selection exactly when it is selected |
| `ServeEvents.FilterPartition` | src/test/java/com/github/tomakehurst/wiremock/verification/DisabledRequestJournalTest.java:54-66 | a selection and its complement together are the log as a multiset, and their sizes add up to its length |
| `ServeEvents.FilterIdempotent` | src/test/java/com/github/tomakehurst/wiremock/verification/DisabledRequestJournalTest.java:54-59 | selecting twice with the same predicate equals selecting once |
| `ServeEvents.FilterComplementEmpty` | src/test/java/com/github/tomakehurst/wiremock/verification/DisabledRequestJournalTest.java:54-59 | once the matching events are removed, none of the remaining ones matches, so a second removal removes nothing |
| `DisabledRequestJournalTest.SetupServer` | src/test/java/com/github/tomakehurst/wiremock/verification/DisabledRequestJournalTest.java:32-40 | after serving `/two` then `/one`, a disabled journal is still empty. An enabled one holds both events in service order |
| `DisabledRequestJournalTest.ThrowsErrorOnGetAllServerEvents` | src/test/java/com/github/tomakehurst/wiremock/verification/DisabledRequestJournalTest.java:42-45 | after the setup, listing all serve events fails with the journal-disabled error |
| `DisabledRequestJournalTest.ThrowsErrorOnGetServedStub` | src/test/java/com/github/tomakehurst/wiremock/verification/DisabledRequestJournalTest.java:47-52 | looking up the never-issued id (1000, 1000) fails with the journal-disabled error |
| `DisabledRequestJournalTest.ThrowsErrorOnRemoveServeEventsMatching` | src/test/java/com/github/tomakehurst/wiremock/verification/DisabledRequestJournalTest.java:54-59 | removing with the always-true pattern fails with the journal-disabled error |
| `DisabledRequestJournalTest.ThrowsErrorOnRemoteServeEventsForStubsMatchingMetadata` | src/test/java/com/github/tomakehurst/wiremock/verification/DisabledRequestJournalTest.java:61-66 | removing for a null metadata pattern fails with the journal-disabled error |
| `DisabledRequestJournalTest.ReturnMinusOneOnCountMatchedRequest` | src/test/java/com/github/tomakehurst/wiremock/verification/DisabledRequestJournalTest.java:68-73 | after two served requests, counting with the always-true pattern gives -1 |
| `DisabledRequestJournalTest.ReturnEmptyOnRequestMatching` | src/test/java/com/github/tomakehurst/wiremock/verification/DisabledRequestJournalTest.java:75-81 | after two served requests, finding with the always-true pattern gives a list of size 0 |
| `DisabledRequestJournalTest.EnabledJournalKeepsServiceOrder` | src/test/java/com/github/tomakehurst/wiremock/verification/DisabledRequestJournalTest.java:32-40 | assumed enabled counterpart: the requests are found as `/two`, `/one` (service order), and the count for `/one` is 1 |
| `DisabledRequestJournalTest.EnabledJournalRemovesEverything` | src/test/java/com/github/tomakehurst/wiremock/verification/DisabledRequestJournalTest.java:54-59 | assumed enabled counterpart: removing with the always-true pattern succeeds with exactly the two served events, `/two` then `/one`, and the count afterwards is 0 |

## Left out

- `src/main/java/com/github/tomakehurst/wiremock/common/Encoding.java`: it only delegates to `java.util.Base64`, whose code is not part of this model. Its own logic is null in, null out.
- Server and HTTP plumbing (`setupServer`, `wm.stubFor`, `testClient.get`, the stub-matching engine): serving a request is modelled only as a call to `RequestReceived` with a ready-made serve event.
- Request-pattern and metadata-pattern matching semantics: both are opaque predicates. `ANYTHING` is the always-true one.
- `VerificationResult`, `FindRequestsResult` and admin-API serialisation: the count is a plain `int` and the found requests a plain `seq`. The journal's functions produce the `-1` and the empty list directly. Whether WireMock produces them in the journal or in an admin layer that catches the disabled exception is not modelled.
- UUID generation: identifiers are an opaque two-part value supplied with each event. The model neither assumes nor enforces that ids are unique. `Lookup` returns the first event with the id.
- Concurrency of journal writes and reads: every operation is one atomic step.
- Capacity-bounded eviction (a maximum number of entries) is not modelled: the log is unbounded.
- `Journal.RequestJournal.RemoveServeEventsForStubsMatchingMetadata`: for an enabled journal and a null pattern, the model answers with the assumed error `NullMetadataPattern` and changes nothing. WireMock's own behaviour in that case is not modelled.
- Enabled-mode behaviour of every operation is an assumption: the plain filter, count, lookup and remove over the log in arrival order.
- `ServeEvents.MatchingStubMetadata`: it is an assumption that an event no stub served (an unmatched request) never matches a metadata pattern, so a metadata-based removal keeps it.
