# Calendar session model

A Dafny model of the `Calendar` class of a small C# client for a remote calendar service
(`CalendarApplication/CalendarModule/Calendar.cs`). The class keeps a cached snapshot of
upcoming events, searches that snapshot by name, and creates, updates and deletes events on
the remote "primary" calendar.

The model is functional. A `Session` holds two things. `events` is the cached snapshot: it is
`None` until the first refresh, because the C# field starts out `null`. `remote` is the
service's calendar, a `map<Id, Event>`. Each operation is a pure function from a session to a
new session, or to an `Error`. The collaborators the code cannot see are parameters:

- the service's list call is a `Lister`, a function of the store and the current time;
- `DateTime.Parse` is a `Parser` of type `string -> Option<DateTime>`, where `None` stands for
  a `FormatException`;
- the identifier the service gives an inserted event is a parameter `newId`.

What the list call is assumed to return is written down as `Calendar.ListingContract`: only
stored events, each once; among events whose end is a precise time, none that has already ended at `now` (the `TimeMin` bound applies to an event's end, so an event in progress is listed); and, among events whose start is a precise time, ascending start order. All-day events are not constrained by the time window or the ordering. Lemmas that
rely on it take it as a hypothesis.

Modules:

- `Wrappers`: `Option` and `Result`.
- `Text`: ordinal `String.Contains` on sequences of characters, proved equal to "some offset starts an occurrence".
- `Events`: the `Event` record, the field codes 1 to 5, and the one-field edit `ApplyUpdate`.
- `Search`: reference definitions (`Filter`, `FirstMatch`) of what the two searches return,
  and their properties.
- `Calendar`: the session state machine and the operations of the class.
- `IntendedUpdate`: the lost-update defect in `updateEvent` and the corrected operation.

## Model

| member | source | states |
|---|---|---|
| Text.Contains | CalendarApplication/CalendarModule/Calendar.cs:68 | the case-sensitive containment test holds exactly when the name occurs at some offset of the summary |
| Text.ContainsEmpty | CalendarApplication/CalendarModule/Calendar.cs:68 | every summary contains the empty name |
| Events.FieldOfCode | CalendarApplication/CalendarModule/Calendar.cs:106-111 | a code selects a field exactly when it is 1 to 5, and the selected field's code is that code |
| Events.ApplyUpdate | CalendarApplication/CalendarModule/Calendar.cs:117-141 | the edit sets exactly the selected field and keeps the id and every other field; a time field takes the parsed time labelled "Europe/Amsterdam"; it fails with InvalidArgument exactly when a time field's text does not parse |
| Search.Filter | CalendarApplication/CalendarModule/Calendar.cs:63-75 | the search result is no longer than the snapshot and every event in it matches the name |
| Search.FilterMembership | CalendarApplication/CalendarModule/Calendar.cs:63-75 | an event is in the result exactly when it is in the snapshot and its summary contains the name |
| Search.FilterIndices | CalendarApplication/CalendarModule/Calendar.cs:63-75 | the result is the subsequence of the snapshot at the matching positions, in increasing order, with every matching position included |
| Search.FilterAppend | CalendarApplication/CalendarModule/Calendar.cs:66-73 | searching a concatenation gives the results for each part, concatenated in order |
| Search.FilterEmptyName | CalendarApplication/CalendarModule/Calendar.cs:68 | searching for the empty name returns the whole snapshot |
| Search.FirstMatchIsEarliest | CalendarApplication/CalendarModule/Calendar.cs:80-92 | the single search returns the earliest matching event, and returns nothing exactly when no event matches |
| Search.FirstMatchEmptyName | CalendarApplication/CalendarModule/Calendar.cs:84 | searching once for the empty name returns the first snapshot event, or nothing for an empty snapshot |
| Search.FirstMatchNoLaterThan | CalendarApplication/CalendarModule/Calendar.cs:80-92 | if the event at position k matches, the single search finds a matching event at or before k |
| Calendar.Connect | CalendarApplication/CalendarModule/Calendar.cs:19 | a new session has no snapshot until it is refreshed |
| Calendar.GetEvents | CalendarApplication/CalendarModule/Calendar.cs:163 | a pure read of the cached snapshot, None before the first refresh |
| Calendar.UpdateEvents | CalendarApplication/CalendarModule/Calendar.cs:150-159 | a refresh replaces the whole snapshot with the list answer and leaves the remote alone; under the list contract every snapshot event is the current stored version |
| Calendar.UpdateAndGetEvents | CalendarApplication/CalendarModule/Calendar.cs:168-172 | the returned events are exactly the snapshot just installed, read back through getEvents |
| Calendar.SearchEventsByName | CalendarApplication/CalendarModule/Calendar.cs:63-75 | requires a refreshed session; the loop returns exactly the snapshot events whose summary contains the name, in snapshot order |
| Calendar.SearchEventByName | CalendarApplication/CalendarModule/Calendar.cs:80-92 | requires a refreshed session; returns the first element of the multi-event search, and nothing exactly when no summary contains the name |
| Calendar.RemoveEvent | CalendarApplication/CalendarModule/Calendar.cs:98-101 | deletion fails with NotFound exactly when the id is unknown; otherwise it removes just that id and leaves the snapshot untouched |
| Calendar.CreateEvent | CalendarApplication/CalendarModule/Calendar.cs:207-230 | fails with InvalidArgument, inserting nothing, exactly when a time does not parse; otherwise it adds one event with the given texts, both times labelled "Europe/Amsterdam", keeps all other events, and the snapshot becomes a fresh list of the new remote |
| Calendar.PlanUpdate | CalendarApplication/CalendarModule/Calendar.cs:117-143 | the Update call is reached exactly for codes outside 1 to 5, and then sends the fetched event unchanged |
| Calendar.Commit | CalendarApplication/CalendarModule/Calendar.cs:143 | the Update call stores the event under its own id and does not touch the snapshot |
| Calendar.UpdateEvent | CalendarApplication/CalendarModule/Calendar.cs:114-144 | fails with NotFound for an unknown id and with InvalidArgument for an unparsable time; every successful call leaves the snapshot and the remote exactly as they were |
| Calendar.MutationsPreserveWellKeyed | CalendarApplication/CalendarModule/Calendar.cs:98-101 | delete and create keep every stored event under its own id |
| Calendar.RemoveLeavesSnapshotStale | CalendarApplication/CalendarModule/Calendar.cs:98-101 | deleting an event shown in a current snapshot succeeds and leaves the snapshot listing an event the service no longer has |
| Calendar.RemovedIdNeverListed | CalendarApplication/CalendarModule/Calendar.cs:150-157 | after deleting an id, or failing to because it was unknown, a refresh never lists that id |
| Calendar.CreateThenSearch | CalendarApplication/CalendarModule/Calendar.cs:207-230 | once the refreshed snapshot shows the new event at position k, searching for its summary finds a matching event at or before k |
| IntendedUpdate.PlanUpdateIntended | CalendarApplication/CalendarModule/Calendar.cs:117-143 | with break in place of return, every successful call issues the Update call, with the edited copy for a recognised code |
| IntendedUpdate.UpdateEventIntended | CalendarApplication/CalendarModule/Calendar.cs:114-144 | with break in place of return, a successful recognised update changes exactly the selected field of the stored event and nothing else in the session |
| IntendedUpdate.LostSummaryUpdate | CalendarApplication/CalendarModule/Calendar.cs:119-121 | renaming an event with code 1 succeeds but the service keeps the old summary, while the corrected operation stores the new one |
| IntendedUpdate.RecognisedEditsAreLost | CalendarApplication/CalendarModule/Calendar.cs:117-143 | for every recognised code and parsable replacement, the code as written changes nothing, while the corrected operation stores the edited event |

## Left out

- Authentication: the OAuth flow, `client_secret.json` and the token store (lines 33-56) are I/O through a foreign library. `Connect` takes the remote as given.
- Remote transport failures (`RemoteServiceError`): the model has no failing network. Only `NotFound` (unknown id) and `InvalidArgument` (unparsable time) are modelled.
- The list call's internals: `TimeMin`, `ShowDeleted`, `SingleEvents` and `OrderBy` appear only as the assumed `ListingContract`. Nothing proves that the service keeps that contract.
- `DateTime.Parse`, cultures and time zones: replaced by the `Parser` parameter.
- `printEventsList` (lines 178-198): console output.
- Async and blocking behaviour of `.Result` and `Execute()`, and concurrent callers.
- Aliasing: `getEvents` returns the cached `Events` object itself (Calendar.cs:163), and both searches return the cached `Event` objects (Calendar.cs:71, 87). A caller that mutates them changes the snapshot without a refresh. Events and snapshots are values here, so that path is not represented.
- String representation: a Dafny `string` is a sequence of Unicode scalar values, whereas a .NET string is a sequence of UTF-16 code units that may hold a lone surrogate. Names and summaries with lone surrogates are not represented, and `Contains` here compares scalar values, not code units.
- Null strings: `Event.summary` is always a string. An event without a title, which would make `Contains` throw inside the search loops, is not represented. A null `name` or null create arguments are not represented either.
- Server-populated fields of an inserted event, other than its id, are not modelled. The service is assumed to assign an id that is not already in use (`CreateEvent` requires `newId !in s.remote`).
- Calendar.UpdateEvent: requires that the service stores each event under its own id (`WellKeyed`). The C# code writes back under `e.Id` of the fetched event, and this assumption is what makes that the requested id.
- Searching before the first refresh dereferences `null` (Calendar.cs:19, 66, 82), so it is a precondition here. `updateEvent` with a recognised code writes nothing; with an unrecognised code it writes the fetched event back unchanged (Calendar.cs:117-143).

## Findings

| source | as written | input that shows it | evidently intended | confidence | as-written member | corrected member |
|---|---|---|---|---|---|---|
| CalendarApplication/CalendarModule/Calendar.cs:119-143 | every recognised case of the switch ends in `return`, so the edited copy is discarded before the Update call | `updateEvent("ev1", 1, "Retro")` on an event titled "Standup" leaves the title "Standup" | each case ends in `break`, so the edited event is written back | high (not executed) | IntendedUpdate.LostSummaryUpdate | IntendedUpdate.UpdateEventIntended |
