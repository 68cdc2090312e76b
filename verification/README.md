# ImpactList plan state, in Dafny

ImpactList is a browser planning tool. It turns source text into a plan of
action items, triages them on a Now / Next / Later board (Skip items are
hidden), totals each column, and keeps a coach conversation per item. The plan
is persisted through a debounced local-storage binding.

This project models that client-side plan state and the pure rules around it.
It has one Dafny module per source file:

- `Types` (types.ts): the enums with their string values, coach messages,
  action items and plans.
- `LocalStorage` (hooks/useLocalStorage.ts): the debounced binding, modelled
  two ways.
  - As a state machine over (value, pending write, durable slot), driven by
    explicit events: Set, Fire (the timer expires; the write may fail),
    Unmount and Mount.
  - As a class `LocalStore` whose handlers update those fields in place.
    Each handler is proved to perform exactly one step of the machine.
- `KanbanBoard` (components/KanbanBoard.tsx): the column list and the
  per-column filter.
- `TotalsBar` (components/TotalsBar.tsx): the effort weights, and the totals
  loop. The loop is proved against a per-column sum specification.
- `ActionItemCard` (components/ActionItemCard.tsx): field edits, status
  cycling on Enter, and the cost input's `parseInt(text, 10) || 0`.
- `Header` (components/Header.tsx): the export file name (each run of
  ECMAScript whitespace becomes `_`), the export button's enabling, and the
  structural check that decides whether an imported file reaches the plan.
- `App` (App.tsx):
  - the plan transformations: build, replace by id, move, clear, import, and
    the coach exchange;
  - a `Session` class that owns the store, the loading flag, the error text
    and the selected item.

The outside world enters as parameters:

- the generator's outcome (a list of candidates, or a thrown value);
- the coach's outcome (a reply text, or a thrown value);
- the id supplier (`newId: nat -> string`, with the i-th generated item taking
  `newId(i)`);
- the value `JSON.parse` produced, or None when it threw;
- the ISO date string;
- whether a storage write succeeds.

A `Common` module holds the ECMAScript whitespace class, which both `\s` and
`parseInt` use, and a subsequence relation.

## Model

| member | source | states |
|---|---|---|
| Types.ParseStatus | types.ts:2-7 | a decoded status encodes back to the input string; None exactly when no status has that string |
| Types.ParseControl | types.ts:9-12 | same for control, whose values are "Mine" and "3rd-party" |
| Types.ParseEffort | types.ts:14-18 | same for effort, whose values are "L", "M" and "H" |
| Types.ParseSender | types.ts:20-23 | a sender is exactly "user" or "ai" |
| Types.EncodingsRoundTrip | types.ts:2-23 | decoding an encoded enum value gives back the same constructor |
| Types.EncodingsInjective | types.ts:2-18 | the string values within each enum are pairwise distinct |
| Types.AllStatuses | types.ts:2-7 | `Object.values(Status)` has exactly four distinct entries, all four statuses |
| Types.AllControls | types.ts:9-12 | `Object.values(Control)` lists both controls |
| Types.AllEfforts | types.ts:14-18 | `Object.values(Effort)` lists all three efforts |
| KanbanBoard.BoardColumns | components/KanbanBoard.tsx:15 | three distinct columns, Now, Next and Later, and none for Skip |
| KanbanBoard.Column | components/KanbanBoard.tsx:23 | a column holds exactly the items whose status is that column's |
| KanbanBoard.NonSkip | components/KanbanBoard.tsx:15-23 | exactly the items whose status is not Skip |
| KanbanBoard.Board | components/KanbanBoard.tsx:15-29 | one list per column; every listed item has the column's status and is not Skip; every non-Skip item is listed somewhere |
| KanbanBoard.ColumnKeepsOrder | components/KanbanBoard.tsx:23 | a column is a subsequence of the plan's items, so it keeps their relative order |
| KanbanBoard.ColumnsPartitionNonSkip | components/KanbanBoard.tsx:15-23 | the three columns together are a rearrangement (same multiset) of the non-Skip items, so each non-Skip item is in exactly one column |
| KanbanBoard.ColumnSizesSum | components/KanbanBoard.tsx:15-23 | the column sizes add up to the number of non-Skip items |
| TotalsBar.EffortWeight | components/TotalsBar.tsx:9-13 | the weight is 1, 2 or 3, and it is 1 exactly for L, 2 exactly for M and 3 exactly for H |
| TotalsBar.SumOf | components/TotalsBar.tsx:25 | the summed count is the number of items summed |
| TotalsBar.ComputeTotals | components/TotalsBar.tsx:16-31 | the accumulator starts at zero for Now, Next and Later, has exactly those keys, and ends equal to each column's specified tally |
| TotalsBar.ColumnTallyIsSumOverColumn | components/TotalsBar.tsx:24-27 | a column's totals are the count, summed cost and summed effort weight of the items the board shows in that column |
| TotalsBar.ColumnCountIsColumnSize | components/TotalsBar.tsx:25 | a column's count is the number of items with that status |
| TotalsBar.SkipContributesNothing | components/TotalsBar.tsx:24 | removing the Skip items leaves every column's totals unchanged |
| TotalsBar.CountsSumToNonSkip | components/TotalsBar.tsx:17-30 | the three counts add up to the number of non-Skip items |
| TotalsBar.TotalsIgnoreOrder | components/TotalsBar.tsx:23-30 | two lists that are permutations of each other have identical totals |
| ActionItemCard.HandleChange | components/ActionItemCard.tsx:16-18 | the edited field takes the new value; every other field, the id included, is kept |
| ActionItemCard.HandleChangeIdempotent | components/ActionItemCard.tsx:16-18 | repeating an edit changes nothing more |
| ActionItemCard.SelectOptionsAreMembers | components/ActionItemCard.tsx:66-108 | any option a select offers reads back as a member of its enum |
| ActionItemCard.IndexOf | components/ActionItemCard.tsx:24 | `indexOf`: the first position holding the value, or -1 when no position does |
| ActionItemCard.NextStatus | components/ActionItemCard.tsx:23-25 | the next status always differs from the current one, and its position in `Object.values(Status)` is the current position plus one, modulo the number of statuses |
| ActionItemCard.NextStatusFollowsDeclarationOrder | components/ActionItemCard.tsx:23-26 | Enter moves a status to the next one in declaration order: Now to Next to Later to Skip, and back to Now |
| ActionItemCard.StatusPositions | components/ActionItemCard.tsx:23-24 | each status is found at its declaration position |
| ActionItemCard.NextStatusHasPeriodFour | components/ActionItemCard.tsx:25 | Enter always changes the status, and four presses give back the original |
| ActionItemCard.HandleKeyDown | components/ActionItemCard.tsx:20-28 | any key other than Enter leaves the item unchanged; Enter changes only the status, to the next one |
| ActionItemCard.TrimStart | components/ActionItemCard.tsx:93 | `parseInt` skips exactly the leading whitespace |
| ActionItemCard.DigitPrefix | components/ActionItemCard.tsx:93 | the digits read are the longest run of decimal digits at the start |
| ActionItemCard.ParseInt | components/ActionItemCard.tsx:93 | `parseInt(text, 10)` reads nothing (NaN) from a text without digits; after a leading minus sign the number read is at most 0, otherwise at least 0 |
| ActionItemCard.CostInput | components/ActionItemCard.tsx:93-96 | the cost is the integer `parseInt` reads, or 0 when it reads none; negatives are kept |
| ActionItemCard.CostChange | components/ActionItemCard.tsx:93 | the cost edit changes only the cost, to the parsed value |
| ActionItemCard.CostInputWithoutDigits | components/ActionItemCard.tsx:93 | a text without any digit gives cost 0 |
| ActionItemCard.CostInputReadsDecimalText | components/ActionItemCard.tsx:92-93 | the decimal text of any cost, negative or not, reads back as that cost, and reading stops at the first non-digit |
| Header.Sanitize | components/Header.tsx:19 | the sanitised name contains no whitespace and is no longer than the name |
| Header.SanitizeFixesExactlySpaceFree | components/Header.tsx:19 | sanitising leaves a name unchanged exactly when the name has no whitespace |
| Header.SanitizeIdempotent | components/Header.tsx:19 | sanitising twice is the same as sanitising once |
| Header.SanitizeKeepsNonWhitespace | components/Header.tsx:19 | every non-whitespace character survives, in order |
| Header.SanitizeRun | components/Header.tsx:19 | a maximal whitespace run followed by a word becomes exactly one `_` before that word |
| Header.Prefix | components/Header.tsx:19 | `slice(0, n)` keeps the first n characters, or the whole of a shorter string |
| Header.ExportFileName | components/Header.tsx:19 | the file name is the sanitised name, `_`, the first ten characters of the ISO date, and `.json` |
| Header.ExportFileNameHasNoWhitespace | components/Header.tsx:19 | for a date without whitespace, the file name has no whitespace |
| Header.ExportDisabled | components/Header.tsx:83 | export is disabled exactly when the plan has no action items |
| Header.LooksLikePlan | components/Header.tsx:41 | the validation passes exactly for an object whose eventName is present and not falsy (not null, false, 0 or "") and whose actionItems is an array |
| Header.ReadImport | components/Header.tsx:36-50 | a file reaches the plan, unchanged, exactly when it parses to a non-null value with a truthy eventName and an array actionItems; a parse failure or a parsed null gives the parse-error alert; anything else gives the invalid-format alert |
| Header.ExportThenImport | components/Header.tsx:39-45 | an exported plan is accepted back unchanged exactly when its event name is non-empty; otherwise the file is refused as invalid |
| LocalStorage.Load | hooks/useLocalStorage.ts:4-12 | the initial value is the stored entry when there is one that parses, and the initial value otherwise |
| LocalStorage.Step | hooks/useLocalStorage.ts:16-58 | one event of the hook. A set replaces the value (plain or through the updater) and leaves exactly one pending write, carrying it. Only an expiring timer whose write succeeds changes the slot, to the pending value. Unmount drops the pending write. Mount reloads the value from the slot when it holds an entry |
| LocalStorage.SetIsImmediate | hooks/useLocalStorage.ts:16-27 | after a set, the value is the plain value given, or the updater applied to the current value; exactly one write is pending, and it carries that value; the slot is untouched |
| LocalStorage.FailedWriteKeepsValue | hooks/useLocalStorage.ts:28-34 | a failed write leaves the value and the slot as they were, and nothing stays pending |
| LocalStorage.MountReloads | hooks/useLocalStorage.ts:39-48 | on mount, the value becomes the stored entry when one exists and parses, and is unchanged otherwise |
| LocalStorage.BurstCoalesces | hooks/useLocalStorage.ts:16-35 | a burst of sets writes nothing while it lasts and leaves one pending write carrying the last value; when it fires, the slot receives exactly that value |
| LocalStorage.UnmountCancelsPending | hooks/useLocalStorage.ts:52-58 | after unmount, no timer expiry changes the slot, which keeps its previous contents |
| LocalStorage.NeverWritesStale | hooks/useLocalStorage.ts:20-29 | without a reload in between, a pending write always carries the current value, across any sequence of events |
| LocalStorage.ReloadSeesSavedValue | hooks/useLocalStorage.ts:27-29 | once the pending write lands, a fresh load sees the latest value |
| LocalStorage.LocalStore.constructor | hooks/useLocalStorage.ts:4-14 | the hook starts with the loaded value and no pending write |
| LocalStorage.LocalStore.SetValue | hooks/useLocalStorage.ts:16-36 | setValue makes exactly one Set step: the new value, one pending write carrying it, and the slot unchanged |
| LocalStorage.LocalStore.TimerFired | hooks/useLocalStorage.ts:27-35 | an expiring timer makes exactly one Fire step |
| LocalStorage.LocalStore.ReloadOnMount | hooks/useLocalStorage.ts:39-48 | the mount effect makes exactly one Mount step |
| LocalStorage.LocalStore.CleanUp | hooks/useLocalStorage.ts:52-58 | the unmount cleanup makes exactly one Unmount step |
| App.ErrorMessage | App.tsx:47 | an Error's message, or "An unknown error occurred." for any other thrown value |
| App.OrDefault | App.tsx:32-34 | a missing or empty text is replaced by the fallback, and any other text is kept |
| App.BuildItems | App.tsx:30-40 | one item per candidate, in order, with the supplier's i-th id. Each item starts at Later, Mine, Medium, cost 0 and an empty history. Its texts are never empty: a missing or empty text becomes "Untitled", "No rationale provided." or "No citation.", and any other text is kept |
| App.BuildItemsUniqueIds | App.tsx:31 | a supplier that never repeats an id yields items with distinct ids |
| App.UpdateItem | App.tsx:53-57 | every item with the update's id is replaced by it; all other items, the length, the order, every id, eventName and sourceText are kept |
| App.UpdateUnknownIdIsNoOp | App.tsx:56 | an update whose id no item has leaves the plan unchanged |
| App.UpdateItemTwice | App.tsx:53-57 | two updates of the same id amount to the second alone |
| App.UpdateKeepsUniqueIds | App.tsx:56 | updates preserve the uniqueness of ids |
| App.FirstWithId | App.tsx:61 | `find`: the position of the first item with the id, or -1 exactly when no item has it |
| App.Find | App.tsx:61 | None exactly when no item has the id; otherwise the first item of the plan with that id |
| App.ActiveItem | App.tsx:77 | no active item without a selection; otherwise the first item with the selected id |
| App.FindAfterUpdate | App.tsx:77 | after an update of a present id, looking that id up yields the new item |
| App.MoveItem | App.tsx:60-64 | dropping an absent id, or an item onto its own column, leaves the plan unchanged; eventName, sourceText and length are always kept |
| App.MoveChangesOnlyStatus | App.tsx:60-64 | with unique ids, a move changes only the status of the dragged item |
| App.CoachReplyText | App.tsx:94-99 | the AI message is the reply, or "Sorry, I couldn't respond. Error: " followed by the error text |
| App.FinalHistory | App.tsx:82-99 | the new history is the old history, then the user's message, then exactly one AI message |
| App.ExchangeKeepsAlternation | App.tsx:82-99 | a history of complete user/AI exchanges stays one after another exchange |
| App.ExchangeAddsOneEach | App.tsx:82-99 | an exchange adds exactly one user message and exactly one AI message |
| App.Role | App.tsx:88 | the role is "user" exactly for the user, and "model" exactly for the AI |
| App.RequestHistory | App.tsx:87-90 | one turn per earlier message, with the same text and the sender mapped to its role |
| App.RequestHistoryIsFaithful | App.tsx:87-90 | the request history determines the conversation it came from |
| App.ExchangeShowsInPanel | App.tsx:94-100 | after an exchange, the coach panel's item is the item with its extended history |
| App.Session.constructor | App.tsx:13-23 | the session starts with a new store holding the stored plan or the empty plan, not loading, no error and no selection |
| App.Session.GeneratePlan | App.tsx:25-51 | on success, the whole plan becomes (eventName, sourceText, built items) and the error is cleared; on failure, the plan is untouched and the error holds the message; loading is off afterwards in both cases |
| App.Session.UpdateActionItem | App.tsx:53-58 | the stored plan becomes the plan with the item replaced, and a write is pending |
| App.Session.ItemDrag | App.tsx:60-65 | the plan becomes the moved plan; a move that changes the plan leaves a write carrying it pending; a move that changes nothing leaves the store, pending write included, untouched |
| App.Session.ClearPlan | App.tsx:67-70 | the plan becomes ("My Action Plan", "", []) and the selection is cleared |
| App.Session.ImportPlan | App.tsx:72-75 | the imported plan is installed as given and the selection is cleared |
| App.Session.SelectItem | App.tsx:123-133 | selecting an item, or closing the panel, sets the selection |
| App.Session.SendCoachMessage | App.tsx:79-104 | with no active item, nothing happens. Otherwise the active item's history gains the user's message and exactly one AI message, the coach receives the pre-send history, and loading ends off |

## Left out

- The Gemini calls (services/geminiService.ts) are not part of this model. Generation and the coach are outcome parameters.
- The prompt texts and response schemas are not modelled, because they live in the Gemini service.
- uuid generation is an injected supplier. The code does not check that ids are unique, so uniqueness is a precondition of the lemmas that need it.
- `JSON.parse` and `JSON.stringify` are not modelled.
  - Stored and imported values are taken as already parsed.
  - Storage round-trips values unchanged.
  - An empty stored string is folded into Absent, and a read that throws or fails to parse is folded into Corrupt.
- Real timers and the 5000 ms delay are not modelled. They are replaced by explicit Fire, Unmount and Mount events.
- The timer id that stays in the ref after a write is not modelled, since clearing it later has no effect.
- Async interleavings are not modelled: each handler runs to completion.
  - The memoised setter reads the `storedValue` of the render it was created in. In a sequential run that value is the current one.
  - The coach handler reuses the `activeItem` it captured before the await. For the handler's own two updates this makes no difference (`App.UpdateItemTwice`).
  - Edits made concurrently with an exchange would be overwritten. Overlapping generate and send calls are not modelled either.
- Rendering is not modelled, nor are the panel and input components (AiCoachPanel.tsx, SourceInput.tsx, KanbanColumn.tsx): styling, drag-over highlighting, and the trim guards in those components.
- FileReader, the download link, `alert` and console logging are not modelled. The two alerts are the InvalidFormat and ParseError outcomes.
- `ActionItemCard.NextStatus`: the `indexOf` result -1 cannot occur. An item's status is typed, so a status string from a malformed import that sends the card to Now is not represented.
- `ActionItemCard.CostInput`: a cost may be negative; `min="0"` is only a browser hint and `parseInt` keeps a leading minus sign.
- `ActionItemCard.CostInput`: costs and JSON numbers are integers. NaN, fractions, `parseInt` precision above 2^53, and `-0` (which `|| 0` turns into 0) collapse into exact integers.
- `Header.ReadImport`: JSON numbers are integers, so a fractional `eventName` such as 0.5 is not represented.
- `App.Session.ImportPlan` takes a typed Plan. An accepted file that passes the structural check but does not conform to the Plan shape is not modelled.
- `App.BuildItems`: a candidate text is a string or missing. Other falsy values (null, 0, false) the generator might return are treated as missing.
- The number-to-string conversion of the cost field only covers plain decimal text. The exponent form for very large numbers is not modelled.
