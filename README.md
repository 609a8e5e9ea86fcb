# Calendar app collections: a verified model

A personal productivity dashboard keeps goals, tasks, habits, notes and
calendar events as lists of records keyed by a string `id`. This project
models the collection-update rules of that dashboard in Dafny and proves what
they guarantee. There are three parts:

- **The browser store** (`LocalStorage`). This is a key–value store whose keys hold
  lists of records. `initializeStorage` seeds the goals, tasks and habits keys
  with default data. `getItems`, `setItems`, `addItem`, `updateItem` and
  `deleteItem` are the generic operations, and `storage.goals/tasks/habits`
  are the per-collection wrappers. The store is a class over a
  `map<string, seq<Entry>>`. Whether the code runs in a browser is fixed when
  the store is built. Outside a browser, every read is empty and every write
  is dropped.
- **The mock API routes** (`GoalsRoute`, `EventsRoute`). Each route owns a
  table in memory, modelled as a class with a `seq` field. GET filters the
  table. POST validates the body and appends. PATCH finds the goal by id and
  merges the body into it. Responses are a datatype carrying a status and
  either a value or an `{ error }` message. Each handler is specified by a
  pure function that returns the response and the new table.
- **The list transitions in the UI components** (`GoalsList`, `GoalsSummary`,
  `NotesSummary`, `NotesList`). Each handler computes the next list from the
  current list and the form fields, so each one is a pure function.

Three helper modules hold what these share. `Text` has JavaScript string
truthiness, `trim` (with the exact ECMAScript whitespace set), and `split`
and `join` on a single character. `Collections` has `filter` and
`findIndex`. `Dates` has dates as integer timestamps. What `new Date(text)`
makes of a piece of text is an input to the model: a timestamp or
"Invalid Date".

Random ids, `Date.now()` and `Math.random()` are parameters. The
locale-dependent `toLocaleDateString` is a function parameter.

### Behaviour of the code worth knowing

- `deleteItem` writes back even when nothing matches (lib/localStorage.ts:59).
  In a browser, deleting from a key that was never written therefore stores
  an empty list under it. An empty list is still a stored value, so a later
  `initializeStorage` no longer seeds that key
  (`LocalStorage.DeleteBeforeInitializeBlocksSeeding`).
- A truthy date text that does not parse makes `toISOString` throw
  (app/route.ts:70, 102; app/api/events/route.ts:68). The handler's `catch`
  answers 400 "Invalid request body", and the table is left unchanged
  (app/route.ts:77-79, 106-108; app/api/events/route.ts:75-77).

## Model

| member | source | states |
|---|---|---|
| `Text.Trim` | components/goals-list.tsx:69 | `trim` yields a slice of its input with only whitespace cut away on either side, and it neither starts nor ends with whitespace |
| `Text.TrimEmptyIffBlank` | components/notes-summary.tsx:78 | a field trims to "" exactly when it is all whitespace, which is when the forms refuse it |
| `Text.TrimKeepsChars` | components/notes-summary.tsx:83 | trimming only removes characters |
| `Text.TrimIdempotent` | components/notes-summary.tsx:83 | trimming twice is trimming once |
| `Text.Split` | components/notes-summary.tsx:82 | `split` always yields at least one piece and no piece contains the separator |
| `Text.JoinSplit` | components/notes-summary.tsx:81-82 | joining the pieces of `split` with the separator gives back the text |
| `Collections.Filter` | lib/localStorage.ts:58 | `filter` keeps exactly the accepted elements, is never longer, and keeps the length exactly when every element is accepted |
| `Collections.FilterAppend` | lib/localStorage.ts:58 | filtering a concatenation filters each part, so the survivors keep their relative order |
| `Collections.FilterKeepsAll` | lib/localStorage.ts:58 | a filter that accepts every element returns the list unchanged |
| `Collections.FilterIdempotent` | lib/localStorage.ts:58 | filtering twice by the same test is filtering once |
| `Collections.FirstIndex` | lib/localStorage.ts:49 | `findIndex` returns the first matching position, or -1 exactly when nothing matches |
| `LocalStorage.Initialized` | lib/localStorage.ts:10-27 | initialisation is a no-op outside a browser, never overwrites a stored key, adds only the three seed keys, and seeds each absent one with its defaults |
| `LocalStorage.InitializeIdempotent` | lib/localStorage.ts:10-27 | calling `initializeStorage` twice equals calling it once |
| `LocalStorage.Added` | lib/localStorage.ts:41-45 | after `addItem` the list at the key is the old list plus the item, other keys are untouched, and nothing changes outside a browser |
| `LocalStorage.AddGrowsByOne` | lib/localStorage.ts:41-45 | in a browser the list read back is one longer and ends in the new item |
| `LocalStorage.Updated` | lib/localStorage.ts:47-54 | `updateItem` replaces only the first record with the item's id and keeps the length; with no such record the store is unchanged |
| `LocalStorage.UpdateIdempotent` | lib/localStorage.ts:47-54 | updating with the same record twice equals updating once |
| `LocalStorage.Deleted` | lib/localStorage.ts:56-60 | after `deleteItem` no record with the id remains, every other record survives, and other keys are untouched |
| `LocalStorage.DeleteMissKeepsContent` | lib/localStorage.ts:56-60 | deleting an id no record has leaves the list read back unchanged |
| `LocalStorage.DeleteIdempotent` | lib/localStorage.ts:56-60 | deleting the same id twice equals deleting it once |
| `LocalStorage.DeleteBeforeInitializeBlocksSeeding` | lib/localStorage.ts:14-26 | deleting from a never-written seed key stores an empty list that initialisation then leaves in place |
| `LocalStorage.Key` | lib/localStorage.ts:3-7 | each wrapper's key is one of the three seed keys |
| `LocalStorage.KeysDistinct` | lib/localStorage.ts:3-7 | the three collections use distinct keys, so an operation on one never touches another |
| `LocalStorage.WrappersKeepWellTyped` | lib/localStorage.ts:62-81 | initialisation and the wrappers, given records of the right kind, keep every collection holding only its own kind |
| `LocalStorage.ReadAfterWrite` | lib/localStorage.ts:30-39 | what `setItems` stores in a browser is what `getItems` reads back, and every other key reads as before; outside a browser nothing changes |
| `LocalStorage.Store.constructor` | lib/localStorage.ts:11 | a store starts with the given contents and environment |
| `LocalStorage.Store.InitializeStorage` | lib/localStorage.ts:10-27 | the new contents are `Initialized` of the old |
| `LocalStorage.Store.GetItems` | lib/localStorage.ts:30-34 | returns the stored list, or [] outside a browser or for an absent key |
| `LocalStorage.Store.SetItems` | lib/localStorage.ts:36-39 | replaces the list at the key in a browser and changes nothing elsewhere |
| `LocalStorage.Store.AddItem` | lib/localStorage.ts:41-45 | the new contents are `Added` of the old |
| `LocalStorage.Store.UpdateItem` | lib/localStorage.ts:47-54 | the new contents are `Updated` of the old |
| `LocalStorage.Store.DeleteItem` | lib/localStorage.ts:56-60 | the new contents are `Deleted` of the old |
| `LocalStorage.Store.GetAll` | lib/localStorage.ts:65 | reads the collection's key and, on a well-typed store, yields only records of its kind |
| `LocalStorage.Store.Add` | lib/localStorage.ts:66 | adds to the collection's key |
| `LocalStorage.Store.Update` | lib/localStorage.ts:67 | updates in the collection's key |
| `LocalStorage.Store.Delete` | lib/localStorage.ts:68 | deletes from the collection's key |
| `GoalsRoute.ListGoals` | app/route.ts:39-53 | without `completed` the whole table, otherwise exactly the goals whose flag equals (`completed` == "true") |
| `GoalsRoute.ListGoalsPartition` | app/route.ts:47-50 | the "true" and "false" answers together account for every goal exactly once |
| `GoalsRoute.ListGoalsOtherValueMeansIncomplete` | app/route.ts:48 | any value other than "true" selects the incomplete goals |
| `GoalsRoute.CreateGoal` | app/route.ts:55-80 | unparseable body or invalid due date gives 400 "Invalid request body", a falsy title gives 400 "Title is required", and the table is unchanged on failure; success appends one goal with the defaults (description "", completed false, due date null when absent) and answers 201 |
| `GoalsRoute.Merge` | app/route.ts:99-103 | body fields override stored ones, and the due date is replaced only by a truthy one |
| `GoalsRoute.PatchGoal` | app/route.ts:82-109 | 400 "Goal ID is required" without an id, 404 "Goal not found" on a miss, 400 on a bad body or date, the table unchanged in each case; it succeeds exactly when the body parses, has a truthy id that some goal carries, and has no unparseable due date, and then answers 200 with the first such goal merged with the body, rewriting only that goal and keeping the length and every id |
| `GoalsRoute.PatchIdempotent` | app/route.ts:99-103 | sending the same PATCH twice leaves the table as one PATCH does |
| `GoalsRoute.CreateKeepsTitlesPresent` | app/route.ts:60-62 | POST never stores an untitled goal |
| `GoalsRoute.PatchCanBlankTitle` | app/route.ts:87-103 | PATCH does not validate the title, so `{ id: "1", title: "" }` blanks a stored title |
| `GoalsRoute.SampleExchanges` | app/route.ts:55-109 | POST `{}` gives 400, POST `{ title: "X" }` gives 201 with completed false and no due date, PATCH `{ id: "999" }` gives 404 |
| `GoalsRoute.GoalsTable.constructor` | app/route.ts:15-37 | the table starts with the three sample goals |
| `GoalsRoute.GoalsTable.Get` | app/route.ts:39-53 | answers 200 with `ListGoals` of the table and modifies nothing |
| `GoalsRoute.GoalsTable.Post` | app/route.ts:55-80 | response and new table are those of `CreateGoal` |
| `GoalsRoute.GoalsTable.Patch` | app/route.ts:82-109 | response and new table are those of `PatchGoal` |
| `EventsRoute.ListEvents` | app/api/events/route.ts:35-52 | the whole table unless both bounds are truthy, otherwise exactly the events with start ≤ date ≤ end |
| `EventsRoute.ListEventsKeepsOrder` | app/api/events/route.ts:45-48 | listing keeps the table's order |
| `EventsRoute.InvalidBoundListsNothing` | app/api/events/route.ts:47 | a bound that is not a date makes every comparison false and lists nothing |
| `EventsRoute.NarrowerRangeListsFewer` | app/api/events/route.ts:45-48 | a narrower range lists no event that a wider one leaves out |
| `EventsRoute.CreateEvent` | app/api/events/route.ts:54-78 | a missing title or date gives 400 "Title and date are required", a bad body or date gives 400 "Invalid request body", and the table is unchanged on failure; success appends one event with description defaulting to "" and answers 201 |
| `EventsRoute.CreatedEventIsListed` | app/api/events/route.ts:35-78 | a created event is listed by every range containing its date |
| `EventsRoute.EventsTable.constructor` | app/api/events/route.ts:14-33 | the table starts with the three sample events |
| `EventsRoute.EventsTable.Get` | app/api/events/route.ts:35-52 | answers 200 with `ListEvents` of the table and modifies nothing |
| `EventsRoute.EventsTable.Post` | app/api/events/route.ts:54-78 | response and new table are those of `CreateEvent` |
| `GoalsList.CreateGoal` | components/goals-list.tsx:68-88 | a blank title leaves the list unchanged; otherwise one goal is appended, incomplete, at progress 0, coloured "bg-emerald-500", with no due date exactly when the date input is empty |
| `GoalsList.ToggleGoal` | components/goals-list.tsx:90-100 | the length is kept, goals with other ids are unchanged, and each goal with the id flips `completed` and goes to progress 100 when it was incomplete |
| `GoalsList.DeleteGoal` | components/goals-list.tsx:102-108 | removes every goal with the id, keeps all others, and keeps the list as it is when none matches |
| `GoalsList.ToggleTwice` | components/goals-list.tsx:92 | toggling twice restores every completion flag but leaves the toggled goals at progress 100 |
| `GoalsList.ToggleTwiceLosesPartialProgress` | components/goals-list.tsx:92 | so a double toggle is not the identity: the 70% sample goal comes back at 100% |
| `GoalsList.CreateThenDelete` | components/goals-list.tsx:82-103 | deleting a just-created goal whose id was fresh gives back the list before |
| `GoalsSummary.PaletteIndex` | components/goals-summary.tsx:64 | the random pick always lands inside the five-colour palette |
| `GoalsSummary.EveryColourReachable` | components/goals-summary.tsx:57-64 | each palette colour is picked by some draw |
| `GoalsSummary.CreateGoal` | components/goals-summary.tsx:54-71 | a blank title leaves the list unchanged; otherwise one goal is appended at progress 0, in a palette colour, with no due date exactly when the date input is empty |
| `NotesSummary.ParseTags` | components/notes-summary.tsx:81-84 | the tags are exactly the non-empty trimmed comma-separated pieces; none is empty, has surrounding whitespace or contains a comma |
| `NotesSummary.TagsAreClean` | components/notes-summary.tsx:81-84 | no parsed tag is empty, starts or ends with whitespace, or contains a comma |
| `NotesSummary.SingleTag` | components/notes-summary.tsx:81-84 | text without a comma gives its trimmed self as the only tag, or no tag when blank |
| `NotesSummary.Describe` | components/notes-summary.tsx:89 | the description is at most 63 characters; it is the content itself up to 60 characters, and otherwise its first 60 characters followed by "..." |
| `NotesSummary.LongContentEndsWithEllipsis` | components/notes-summary.tsx:89 | for content over 60 characters the description equals the content only when the content is 63 characters ending in "..." |
| `NotesSummary.CreateNote` | components/notes-summary.tsx:77-99 | a blank title or content leaves the list unchanged; otherwise the new note is prepended, with createdAt = updatedAt = now, the truncated description, and tags undefined exactly when none were parsed |
| `NotesSummary.Preview` | components/notes-summary.tsx:120 | the preview is the first three notes, or all of them when fewer, in list order |
| `NotesSummary.CreatedNoteHeadsPreview` | components/notes-summary.tsx:96-120 | a created note heads the preview, followed by the notes that were first before it |
| `NotesList.CreateNote` | components/notes-list.tsx:62-82 | a blank title or content leaves the list unchanged; otherwise a note created and updated `now` is prepended |
| `NotesList.DeleteNote` | components/notes-list.tsx:84-90 | removes every note with the id, keeps all others, and keeps the length exactly when none matches |
| `NotesList.CreateThenDelete` | components/notes-list.tsx:76-85 | deleting a just-created note whose id was fresh gives back the list before |
| `NotesList.FooterOf` | components/notes-list.tsx:163-167 | the footer says "Updated" exactly when the two dates render differently, naming the date it shows |
| `NotesList.NewNoteShowsCreated` | components/notes-list.tsx:72-73 | a newly created note's footer says "Created" |

## Left out

- Rendering, dialogs, navigation, and the form and dialog resets after a
  create (`setNewGoal`, `setNewNote`, `setIsDialogOpen`) are presentation
  state, so they are not modelled.
- `JSON.stringify`/`JSON.parse` are not modelled: the store holds decoded
  lists. A corrupt stored value, which makes `getItems` throw, is not
  modelled either, and neither is a storage quota error from `setItem`.
- Record kinds are typed, and `Http.Request` has only two cases: a body that
  fails to parse, or a JSON object with the expected fields. A body that is
  not an object is not modelled. For example, a `null` body makes `body.title`
  or `body.id` throw, and the handler answers 400 "Invalid request body"
  (app/route.ts:60, 87, 77-79, 106-108; app/api/events/route.ts:59, 75-77).
  A number body has no fields, so goals POST answers 400 "Title is required"
  (app/route.ts:60-61), PATCH answers 400 "Goal ID is required"
  (app/route.ts:87-88), and events POST answers 400 "Title and date are
  required" (app/api/events/route.ts:59-60). A body field of the wrong JSON type
  (`title: 123`, or `title: null` in a PATCH body) is not modelled either.
- `GoalsRoute.PatchGoal` and `GoalsRoute.Merge` do not model body keys beyond
  the five goal fields. The spread in PATCH would copy such keys into the
  stored record as well.
- Date parsing, `toISOString` and `toLocaleDateString` are host behaviour. A
  parse result is an input, and an ISO string is the timestamp it denotes.
  The sample dates are built in the local time zone of whichever runtime
  builds them: the server for the API routes, the browser for the
  components. They are read as UTC.
- `GoalsRoute.CreateGoal`, `EventsRoute.CreateEvent`, `GoalsList.CreateGoal`,
  `GoalsSummary.CreateGoal`, `NotesSummary.CreateNote`, `NotesList.CreateNote`:
  the id comes from `Math.random()` or `Date.now()`. It is a parameter and
  may collide with an existing id, since the source does no check. "Now" is
  likewise a parameter.
- String lengths count Unicode scalar values, not UTF-16 code units. A
  description cut through a surrogate pair is not modelled.
- `GoalsSummary.PaletteIndex` and `GoalsSummary.CreateGoal` take the draw
  from `Math.random()` as a Dafny `real` in [0, 1), and multiply and floor it
  exactly. The double product the browser computes is rounded, so a draw just
  below k/5 may land one colour higher than in the model. Either way the pick
  stays inside the palette.
- The pages that show these lists, the calendar view, the assistant, the
  server actions in lib/actions.ts and the middleware are not part of this
  model. Habits are only read, through `storage.habits.getAll()`.
- Concurrent writers to the store or the route tables are not modelled.
