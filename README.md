# Klara backend core, modelled in Dafny

Klara turns a free-form "brain dump" (a piece of text a user types or dictates) into
tasks, shopping lists and calendar events. This project models the backend's core:

- **The in-memory store** (`klara-backend/app/database.py`, class `Database`). It keeps
  five tables (users, tasks, shopping lists, shopping items, calendar events). Each
  table is a dictionary keyed by an id, and each id comes from the table's own counter,
  which starts at 1. The model is the class `Store.Database`. Its fields are five maps
  and five counters, and its methods update them in place. Each method is proved
  against a pure transition function on the whole state (`StoreModel.Tables`). The
  store's invariant is proved to hold after every operation: every table's keys are
  exactly `1 .. counter-1`, users have distinct e-mails, and every item inside a stored
  shopping list is also stored in the item table under its own id. The current time is
  a `now` parameter.
- **Listing a user's brain dumps**. The rows of the three tables are collected in key
  order, which is insertion order. They are then sorted newest first by a stable sort
  (`NewestFirst.SortNewestFirst`, an insertion sort). It is proved sorted, stable and
  a permutation. The result is proved to hold exactly the user's stored records.
- **The AI fallback** (`klara-backend/app/ai_service.py`, `process_brain_dump`). When
  the language-model chain fails, the text becomes one undecomposed task. Its
  description is the text cut to 100 characters plus `...`. The chain is a function
  parameter that either yields a result or fails.
- **The brain-dump routes** (`klara-backend/app/routes/brain_dumps.py`). The POST route
  saves the processed result as exactly one task, shopping list or calendar event. A
  processing failure becomes a 500 error and leaves the store unchanged. The GET route
  delegates to the store.
- **Creating a calendar event** (`klara-backend/app/routes/calendar_events.py`). The
  date is parsed as `YYYY-MM-DD`. A time with two colons is parsed as `HH:MM:SS`, any
  other time as `HH:MM`. Either parse failing rolls the session back and answers 500
  before any row is added. Otherwise exactly one row is added and committed.
  Round trips are proved for both formats.

Modules: `Wrappers` and `HttpErrors` (wrappers.dfy), `StoreModel` (store_model.dfy),
`StoreProperties` (store_properties.dfy), `NewestFirst` (newest_first.dfy), `Store`
(database.dfy), `AIService` (ai_service.dfy), `BrainDumpRoutes` (brain_dumps.dfy),
`CalendarEventRoutes` (calendar_events.dfy).

The prompt in `ai_service.py` (lines 64-65 and 107) asks the model for 3 to 7 subtasks.
No code checks this, so the model has no such rule. The fallback task's time estimate
is 15 minutes (`ai_service.py:157`).

## Model

| member | source | states |
|---|---|---|
| StoreModel.Empty | klara-backend/app/database.py:16-27 | a new store has five empty tables, every counter at 1, and satisfies the store invariant |
| StoreModel.FindEmail | klara-backend/app/database.py:32-33 | the scan over user ids finds an id whose user has the e-mail, or proves no user in the range has it |
| StoreModel.Tables.GetOrCreateUser | klara-backend/app/database.py:29-54 | the user returned has the requested e-mail and is stored under its id; a known e-mail leaves the tables unchanged; an unknown one gets the counter's id and the current time |
| StoreModel.Tables.CreateTask | klara-backend/app/database.py:56-79 | the response is a task of category "task", held by the new tables, with the caller's user, raw input and time; in a valid store its id is not yet taken |
| StoreModel.ItemResponses | klara-backend/app/database.py:93-104 | one item response per input item (ids and fields: StoreProperties.ItemResponsesAt) |
| StoreModel.Tables.CreateShoppingList | klara-backend/app/database.py:81-117 | the response is a list of category "shopping_list", held by the new tables, with the caller's user, raw input and time and one item response per item; in a valid store its id is not yet taken |
| StoreModel.Tables.CreateCalendarEvent | klara-backend/app/database.py:119-144 | the response is an event of category "calendar_event", held by the new tables, with the caller's user, raw input and time; in a valid store its id is not yet taken |
| StoreProperties.GetOrCreateUserExisting | klara-backend/app/database.py:31-38 | a known e-mail returns that user's id, e-mail and original creation time, and nothing changes |
| StoreProperties.GetOrCreateUserNew | klara-backend/app/database.py:40-54 | an unknown e-mail gets the counter's id, which was free; exactly one user is added, the counter goes up by one, other tables are untouched |
| StoreProperties.GetOrCreateUserValid | klara-backend/app/database.py:29-54 | get-or-create keeps the store invariant, including distinct e-mails |
| StoreProperties.GetOrCreateUserIdempotent | klara-backend/app/database.py:29-54 | a second call with the same e-mail, at any later time, returns the same user and changes nothing |
| StoreProperties.CreateTaskFresh | klara-backend/app/database.py:56-79 | a task gets a fresh id and the "task" category with the given fields and time; only the task table and its counter change; the invariant is kept |
| StoreProperties.ItemResponsesAt | klara-backend/app/database.py:93-104 | the i-th item of a list gets id first+i, the list's id, and the item's name and quantity |
| StoreProperties.StoredItems | klara-backend/app/database.py:94-103 | storing the items adds exactly their ids, with their records, and keeps every old item |
| StoreProperties.AddedListMatchesItems | klara-backend/app/database.py:98-115 | every item inside the new list is stored in the item table |
| StoreProperties.StoredItemsValid | klara-backend/app/database.py:94-103 | after storing the items, the item table's keys are again exactly the ids below the counter, every old item entry is kept, and each new item is stored with the list's id |
| StoreProperties.CreateShoppingListValid | klara-backend/app/database.py:81-117 | creating a shopping list keeps the store invariant |
| StoreProperties.CreateShoppingListFresh | klara-backend/app/database.py:89-117 | the list gets a fresh id; its items get consecutive fresh ids in input order; the item counter grows by the number of items; old items are kept; users, tasks and events are untouched |
| StoreProperties.CreateCalendarEventFresh | klara-backend/app/database.py:119-144 | an event gets a fresh id and the "calendar_event" category with the given fields and time; only the event table and its counter change; the invariant is kept |
| StoreProperties.RowsMembership | klara-backend/app/database.py:153-155 | a table's scan yields exactly the records of that table, under their own ids, that belong to the user |
| StoreProperties.CollectedMembership | klara-backend/app/database.py:150-165 | the three scans together yield exactly the user's stored tasks, shopping lists and calendar events |
| NewestFirst.WithCreatedAtAppend | klara-backend/app/database.py:168 | the records with a given timestamp distribute over concatenation |
| NewestFirst.SwapKeepsTieOrder | klara-backend/app/database.py:168 | swapping two neighbours with different timestamps keeps the relative order of records with equal timestamps |
| NewestFirst.CountWithinStamp | klara-backend/app/database.py:168 | a record occurs as often among its timestamp's records as in the whole sequence |
| NewestFirst.TieOrderGivesPermutation | klara-backend/app/database.py:168 | equal tie order for every timestamp implies the two sequences are permutations of each other |
| NewestFirst.NewestFirstUnique | klara-backend/app/database.py:168 | two newest-first sequences with the same tie order are equal, so a stable newest-first sort has exactly one possible result |
| NewestFirst.SortNewestFirst | klara-backend/app/database.py:168 | the result is ordered by creation time, newest first; it is stable (ties keep their input order) and a permutation of the input |
| Store.Database.constructor | klara-backend/app/database.py:16-27 | a new store is empty, with every counter at 1, and valid |
| Store.Database.GetOrCreateUser | klara-backend/app/database.py:29-54 | the scan and insert produce exactly the state and user of the get-or-create transition, and the invariant is kept |
| Store.Database.CreateTask | klara-backend/app/database.py:56-79 | the new state and response are those of the create-task transition |
| Store.Database.StoreListItems | klara-backend/app/database.py:92-104 | the loop stores each item under the next item id, returns the responses in order and advances the counter by the number of items |
| Store.Database.CreateShoppingList | klara-backend/app/database.py:81-117 | the new state and response are those of the create-shopping-list transition, and the invariant is kept |
| Store.Database.CreateCalendarEvent | klara-backend/app/database.py:119-144 | the new state and response are those of the create-calendar-event transition |
| Store.Database.CollectUserRows | klara-backend/app/database.py:150-165 | the three loops append the user's tasks, then lists, then events, each table in key order |
| Store.Database.GetUserBrainDumps | klara-backend/app/database.py:146-169 | the result holds exactly the user's stored records, is a permutation of the collected rows, is newest first, and ties keep collection order; nothing changes |
| AIService.FallbackDescription | klara-backend/app/ai_service.py:155 | at most 103 characters; the text itself when it has at most 100; otherwise its first 100 characters followed by "..." |
| AIService.Fallback | klara-backend/app/ai_service.py:152-165 | the fallback is exactly one task, not decomposed and without subtasks, with no due date, a 15-minute estimate and the error reasoning; it has no shopping items or events |
| AIService.ProcessBrainDump | klara-backend/app/ai_service.py:138-165 | processing never fails: the chain's result when it succeeds, otherwise the single-task fallback |
| BrainDumpRoutes.Save | klara-backend/app/routes/brain_dumps.py:29-52 | each kind of processed result is saved as a record of the same kind, held by the new tables, carrying the request's user id and text and the current time |
| BrainDumpRoutes.SaveTaskAddsExactly | klara-backend/app/routes/brain_dumps.py:29-36 | saving a task adds exactly one new task record to the store, keeps every old record and the users, and keeps the invariant |
| BrainDumpRoutes.SaveShoppingListAddsExactly | klara-backend/app/routes/brain_dumps.py:37-43 | saving a shopping list adds exactly one new list record, keeps every old record and the users, and keeps the invariant |
| BrainDumpRoutes.SaveCalendarEventAddsExactly | klara-backend/app/routes/brain_dumps.py:44-52 | saving a calendar event adds exactly one new event record, keeps every old record and the users, and keeps the invariant |
| BrainDumpRoutes.SaveInsertsOneRecord | klara-backend/app/routes/brain_dumps.py:29-52 | saving adds exactly one new record, of the variant's kind, for the request's user, text and time; every old record is kept; users are unchanged; the invariant holds |
| BrainDumpRoutes.SaveCopiesFields | klara-backend/app/routes/brain_dumps.py:29-52 | the saved record carries the processed title, description, due date, items, event date and time unchanged |
| BrainDumpRoutes.CreateReminder | klara-backend/app/routes/brain_dumps.py:21-57 | the request's text is processed; a processing failure answers 500 "Processing failed: ..." and leaves the store unchanged; otherwise the store and response are those of saving the variant; the invariant is kept |
| BrainDumpRoutes.GetUserBrainDumps | klara-backend/app/routes/brain_dumps.py:60-65 | the route returns the store's listing: exactly the user's records, newest first, ties in collection order; by NewestFirst.NewestFirstUnique only one sequence meets this, so it is what the store's query returns |
| CalendarEventRoutes.Padded | klara-backend/app/routes/calendar_events.py:30 | a zero-padded numeral has exactly the field width and only digits |
| CalendarEventRoutes.DecimalValueOfPadded | klara-backend/app/routes/calendar_events.py:30 | a number that fits the width reads back from its zero-padded numeral |
| CalendarEventRoutes.PaddedOfDecimalValue | klara-backend/app/routes/calendar_events.py:30 | a digit string is the zero-padded numeral of its value |
| CalendarEventRoutes.ColonCountAppend | klara-backend/app/routes/calendar_events.py:36 | the colon count of a concatenation is the sum of the counts |
| CalendarEventRoutes.DigitsHaveNoColon | klara-backend/app/routes/calendar_events.py:36 | a digit string has no colon |
| CalendarEventRoutes.FormatDate | klara-backend/app/routes/calendar_events.py:30 | the YYYY-MM-DD form of a date has ten characters |
| CalendarEventRoutes.ParseDate | klara-backend/app/routes/calendar_events.py:30 | a string is accepted only in the YYYY-MM-DD shape and only as a valid date (year 1-9999, month 1-12, a day that exists in that month); any other shape is rejected |
| CalendarEventRoutes.DateRoundTrip | klara-backend/app/routes/calendar_events.py:30 | every valid date parses back from its YYYY-MM-DD form |
| CalendarEventRoutes.ParsedDateIsCanonical | klara-backend/app/routes/calendar_events.py:30 | an accepted date string is a valid date and exactly that date's YYYY-MM-DD form |
| CalendarEventRoutes.ParseTime | klara-backend/app/routes/calendar_events.py:37 | an accepted time is a valid time of day; the HH:MM format gives zero seconds |
| CalendarEventRoutes.FormatFor | klara-backend/app/routes/calendar_events.py:36 | HH:MM:SS is chosen exactly when the time string has two colons, HH:MM otherwise |
| CalendarEventRoutes.ParseEventTime | klara-backend/app/routes/calendar_events.py:33-37 | a missing or empty time means no time; otherwise the time succeeds exactly when it parses in the format its colon count selects, and the result is that parse; an accepted time is valid |
| CalendarEventRoutes.ParsedTimeIsCanonical | klara-backend/app/routes/calendar_events.py:37 | an accepted time string is exactly the HH:MM or HH:MM:SS form of the time it yields |
| CalendarEventRoutes.ParsedTimeColons | klara-backend/app/routes/calendar_events.py:36 | a string accepted as HH:MM has one colon, one accepted as HH:MM:SS has two |
| CalendarEventRoutes.OtherColonCountsRejected | klara-backend/app/routes/calendar_events.py:36-37 | a non-empty time with neither one nor two colons is always rejected |
| CalendarEventRoutes.EventTimeRoundTrip | klara-backend/app/routes/calendar_events.py:34-37 | every valid time parses back from its HH:MM:SS form, and from its HH:MM form with the seconds dropped |
| CalendarEventRoutes.ParseRequest | klara-backend/app/routes/calendar_events.py:29-37 | the request converts exactly when its date parses and its time is absent or parses; the values are the parsed ones |
| CalendarEventRoutes.Session.constructor | klara-backend/app/routes/calendar_events.py:25 | a new session has nothing committed and nothing pending |
| CalendarEventRoutes.Session.Add | klara-backend/app/routes/calendar_events.py:39-46 | adding a row makes it pending and commits nothing |
| CalendarEventRoutes.Session.Commit | klara-backend/app/routes/calendar_events.py:48 | committing moves every pending row to the committed rows |
| CalendarEventRoutes.Session.Rollback | klara-backend/app/routes/calendar_events.py:52 | rolling back drops the pending rows and keeps the committed rows |
| CalendarEventRoutes.CreateCalendarEvent | klara-backend/app/routes/calendar_events.py:23-55 | a bad date or time rolls back and answers 500 "Failed to create calendar event: ..." with nothing added; otherwise exactly one row with the request's fields and the parsed date and time is added and committed |

## Left out

- The language-model chain (prompt, model call, output parsing, format instructions) is
  a function parameter of `AIService.ProcessBrainDump`. The subtask rules in the prompt
  are not enforced by the code, so they are not modelled.
- `datetime.now()` and today's date are parameters (`now`, `today`). Timestamps are
  natural numbers.
- Logging of the chain's error is not modelled.
- The ORM: `get_db`, the SQLAlchemy models and the `access` modules. The calendar-event
  access call is modelled as adding one row to the session. The id and creation time
  that the database assigns to that row, and its conversion to the response model, are
  not modelled.
- Errors raised by the database inside the calendar-event route, other than the two
  parse failures, are not modelled. The same holds for errors raised while saving a
  brain dump: the in-memory store cannot raise.
- BrainDumpRoutes.GetUserBrainDumps: the 500 "Failed to fetch brain dumps" answer at
  line 67 is not modelled, because listing the in-memory store cannot raise.
- BrainDumpRoutes.CreateReminder: the "Unknown processed type" branch is not modelled.
  The processed value is a datatype with exactly the three handled variants, so that
  branch cannot be taken.
- CalendarEventRoutes.ParseDate: only the zero-padded ASCII forms are accepted. Python's
  `strptime` also accepts a single-digit month or day, a day padded with a space, and
  non-ASCII decimal digits. The model rejects those. The year is exactly four digits in
  both.
- CalendarEventRoutes.ParseTime: likewise, a single-digit hour, minute or second and
  non-ASCII decimal digits, which `strptime` accepts, are rejected.
- CalendarEventRoutes.ParseRequest and CalendarEventRoutes.ParseEventTime: the model
  uses one text for every rejected date or time, "time data '<input>' does not match
  format '<format>'", with the input printed as it is. The message Python's `strptime`
  puts in its `ValueError` is not modelled. It differs in many cases, for example:
  - a well-formed prefix followed by more characters gives "unconverted data remains:
    <rest>" (for example "2023-01-01T10:00", a time "12:30:00:00" read as `%H:%M`, or
    a trailing space);
  - a day that its month lacks gives "day is out of range for month";
  - year 0000 gives "year 0 is out of range";
  - a second of 60 or 61 gives "second must be in 0..59";
  - Python prints the input with `repr()`, so quotes, backslashes and control
    characters are shown differently.
- The text of the 500 errors keeps the route's prefixes. After the prefix comes the
  processing failure's own message, or for a calendar event the format-mismatch text
  described above.
- Async execution, FastAPI routing, request validation and response serialisation are
  not modelled. The routes are methods on explicit store and session objects.
- A shopping item's quantity is kept as an uninterpreted string.
- `brain_dumps.py` checks for single `ProcessedTask`, `ProcessedShoppingList` and
  `ProcessedCalendarEvent` values. `ai_service.py` returns one object holding three
  lists. The two files come from different stages of the code base, so each is
  modelled on its own terms (`BrainDumpRoutes.Processed` and
  `AIService.ProcessedBrainDump`) and they are not connected.
- The other routes (auth, tasks, shopping items), the front end and the tests are not
  part of this model.
