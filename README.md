# Travel planner: settlement, task board and itinerary grid

This project models the client-side logic of three pages of the travel
planner web app in Dafny and proves properties of it.

- **Economy page.**
  - The expense settlement (`calculateSettlement`) turns what each participant
    paid into a list of transfers "from → to, amount".
  - The gross "YOU OWE" map adds, for every expense the viewer did not pay, the
    per-head share under the payer's display name.
  - The pie chart's paid-per-payer rows and the total come from the expenses.
  - The settlement popup (`handleCloseSettlement`) maps those rows back from
    display names to participant ids, settles, and keeps the viewer's own
    outgoing transfers.
- **Responsibilities page.** A task board with three columns (`todo`,
  `inprogress`, `done`):
  - the status ↔ column mapping;
  - loading tasks into columns;
  - drag-and-drop moves with rollback when the update fails;
  - deletion with restore;
  - adding a task;
  - the grouping of cards by responsible person.
- **Itinerary page.** A flat grid of five slots per trip day:
  - the inclusive list of trip dates;
  - grid initialisation;
  - placing loaded events into the suggestion list or into the first free slot
    from their day on;
  - drag and drop between suggestions and slots;
  - both kinds of deletion.

Modelling choices:

- **Money is integer cents.** `toFixed(2)` of `paid − total/n` becomes
  `Money.RoundCents(n·paid − total, n)`, which rounds to nearest with ties away
  from zero. The `< 0.01` tolerance on a balance becomes `== 0`.
- **JavaScript objects with integer keys** (the participant map, the paid map)
  enumerate their keys in ascending order. They are `JsObject.Dict`, an
  ordered list of key/value pairs, so "the first key whose value matches" is
  the smallest such id.
- **Gross debts are exact rationals** (`real`), keyed by display name.
- **Trip dates are integer day numbers.**
- **A grid cell is `Null`, a `Hole` or a card.**
  - A hole is a cell the array never had. Placement's `!= null` scan stops at
    a hole and writes the card there, just as at a `null`. A drop refuses a
    hole, because a hole is `!== null`.
  - Writing past the end grows the array with holes.
  - Writing at a negative index is invisible to the grid.
- **Loops become methods.** The settlement loop, the debt and paid-map loops,
  the popup's nested lookup, column loading, grouping, the date loop and the
  slot scan are methods with loop invariants. Each is proved equal to a
  specification function, and the properties are proved about those
  functions.
- **Copy-and-replace state updates are pure functions.** The React updaters
  (`{...prev, col: filtered}` and `[...prev]` then a write) return a new board
  or planner value.
- **A failing network call is a boolean or an `Option` parameter** (`updateOk`,
  `deleteOk`, `created`).

Two edge cases of the code:

- **Zero participants.** `participants.map` over an empty list gives no
  balances and no transfers, and no error is raised
  (`Settlement.SettleNobody`).
- **Grid guard.** The grid guard compares arrays to `[]` by identity, which is
  never true, so only a missing trip stops initialisation.

## Model

| member | source | states |
|---|---|---|
| Money.RoundCents | travel-planner-app/src/pages/economy/Economy.js:53 | the rounded cents value is within half a cent of num/den, and exact halves round away from zero |
| Money.RoundCentsExact | travel-planner-app/src/pages/economy/Economy.js:53 | rounding an exact multiple of the divisor returns the quotient unchanged |
| JsObject.Get | travel-planner-app/src/pages/economy/Economy.js:123 | a property lookup returns a stored value, or nothing exactly when the key is absent |
| JsObject.PutOrdered | travel-planner-app/src/pages/economy/Economy.js:137 | assigning a property keeps the keys in ascending order and adds exactly that key |
| JsObject.GetPut | travel-planner-app/src/pages/economy/Economy.js:137 | after assigning key k, reading k gives the new value and every other key is unchanged |
| JsObject.FirstKeyOf | travel-planner-app/src/pages/economy/Economy.js:200-204 | the `for…in` search with `break` returns a key holding the value, or nothing when no key holds it |
| JsObject.FirstKeyOfSmallest | travel-planner-app/src/pages/economy/Economy.js:200-204 | in an ordered object the search returns the smallest key holding the value |
| JsObject.FirstKeyOfUnique | travel-planner-app/src/pages/economy/Economy.js:200-204 | when only one key holds the value, the search returns that key |
| Settlement.PaidOfFirst | travel-planner-app/src/pages/economy/Economy.js:37 | a participant's paid amount is the value of the first row carrying their id |
| Settlement.PaidOfMissing | travel-planner-app/src/pages/economy/Economy.js:37 | a participant with no row has paid 0 |
| Settlement.AdjustedByIdOnly | travel-planner-app/src/pages/economy/Economy.js:36-54 | one adjusted balance per participant, in participant order: what that id paid less the per-head average, rounded to the cent |
| Settlement.Payers | travel-planner-app/src/pages/economy/Economy.js:56 | the payers list holds only negative balances |
| Settlement.Receivers | travel-planner-app/src/pages/economy/Economy.js:57 | the receivers list holds only positive balances |
| Settlement.SplitMembers | travel-planner-app/src/pages/economy/Economy.js:56-57 | an entry is a payer iff its balance is negative and a receiver iff it is positive, so zero balances are in neither |
| Settlement.PartitionLength | travel-planner-app/src/pages/economy/Economy.js:56-57 | payers and receivers together are no more than the participants |
| Settlement.StepAmount | travel-planner-app/src/pages/economy/Economy.js:64 | each step's amount is positive, at most both magnitudes, and equal to one of them |
| Settlement.PayersAfter | travel-planner-app/src/pages/economy/Economy.js:72-75 | after a step the payer cursor advances exactly when the payer's debt is fully paid |
| Settlement.ReceiversAfter | travel-planner-app/src/pages/economy/Economy.js:73-76 | after a step the receiver cursor advances exactly when the receiver's credit is fully met |
| Settlement.StepSums | travel-planner-app/src/pages/economy/Economy.js:72-73 | a step adds the amount to the paying side's total and subtracts it from the receiving side's total, per id and overall |
| Settlement.Match | travel-planner-app/src/pages/economy/Economy.js:61-77 | the greedy matching emits at most one transfer per payer plus one per receiver |
| Settlement.CalculateSettlement | travel-planner-app/src/pages/economy/Economy.js:33-79 | the method's balances, total, rounding, split and loop produce exactly the specified settlement |
| Settlement.MatchGreedily | travel-planner-app/src/pages/economy/Economy.js:59-77 | the two-cursor loop that updates balances in place produces exactly the specified matching |
| Settlement.CursorsStep | travel-planner-app/src/pages/economy/Economy.js:61-77 | one iteration keeps the loop invariant and strictly advances a cursor |
| Settlement.MatchFlows | travel-planner-app/src/pages/economy/Economy.js:61-77 | nobody sends more than they owe or receives more than their credit; the smaller side is drained exactly |
| Settlement.MatchMoves | travel-planner-app/src/pages/economy/Economy.js:61-77 | the total moved is min(total owed, total credit) |
| Settlement.MatchEndpoints | travel-planner-app/src/pages/economy/Economy.js:66-70 | every transfer is positive, from a payer's id to a receiver's id |
| Settlement.SettleNoSelfTransfer | travel-planner-app/src/pages/economy/Economy.js:56-70 | with one balance per id, no transfer goes from a participant to themself, and every amount is positive |
| Settlement.SettleOnlyPayersPay | travel-planner-app/src/pages/economy/Economy.js:56-67 | a participant with a non-negative balance never sends money |
| Settlement.SettleOnlyReceiversReceive | travel-planner-app/src/pages/economy/Economy.js:57-68 | a participant with a non-positive balance never receives money |
| Settlement.SettleDrains | travel-planner-app/src/pages/economy/Economy.js:44-77 | when adjusted balances sum to 0, every balance plus what its owner sends minus what it receives is 0 |
| Settlement.SettleDebtorPaysDebt | travel-planner-app/src/pages/economy/Economy.js:44-77 | when balances sum to 0, a debtor sends exactly their debt |
| Settlement.SettleLength | travel-planner-app/src/pages/economy/Economy.js:61-77 | the settlement has at most |payers| + |receivers| ≤ n transfers |
| Settlement.AdjustedError | travel-planner-app/src/pages/economy/Economy.js:49-54 | rounding each balance moves the sum by at most half a cent per participant |
| Settlement.SettleResidue | travel-planner-app/src/pages/economy/Economy.js:44-54 | the adjusted balances sum to within ±n/2 cents of 0 |
| Settlement.SettleExact | travel-planner-app/src/pages/economy/Economy.js:44-54 | when the total divides evenly by n, the adjusted balances sum to exactly 0 |
| Settlement.AdjustedExact | travel-planner-app/src/pages/economy/Economy.js:49-54 | with an exact per-head share, each adjusted balance is paid minus share |
| Settlement.AdjustedConsistent | travel-planner-app/src/pages/economy/Economy.js:36-54 | the adjusted balances carry one balance per participant id |
| Settlement.SettleByIds | travel-planner-app/src/pages/economy/Economy.js:33-79 | the settlement depends only on participant ids, not on names or user ids |
| Settlement.OnePaysAdjusted | travel-planner-app/src/pages/economy/Economy.js:49-54 | when one of three pays 3·share, the adjusted balances are +2·share, −share, −share |
| Settlement.OnePays | travel-planner-app/src/pages/economy/Economy.js:33-79 | when one of three pays 3·share, each of the other two sends them share |
| Settlement.WorkedExample | travel-planner-app/src/pages/economy/Economy.js:33-79 | paid {A: 90.00, B: 0, C: 0} settles as B→A 30.00, C→A 30.00 |
| Settlement.RoundingAdjusted | travel-planner-app/src/pages/economy/Economy.js:49-54 | 1.00 paid by one of three rounds to +0.67, −0.33, −0.33, whose sum is 0.01 |
| Settlement.RoundingExample | travel-planner-app/src/pages/economy/Economy.js:33-79 | that case settles as two transfers of 0.33, and 0.01 stays unsettled |
| Settlement.SettleSingle | travel-planner-app/src/pages/economy/Economy.js:33-79 | a lone participant's balance is 0 and nothing is transferred |
| Settlement.SettleNobody | travel-planner-app/src/pages/economy/Economy.js:33-79 | with no participants the result is empty |
| Economy.DisplayName | travel-planner-app/src/pages/economy/Economy.js:94 | a participant's display name is never empty: the username, or "Participant <id>" |
| Economy.LastWithId | travel-planner-app/src/pages/economy/Economy.js:93-94 | finds the participant with a given id that no later participant shares, or reports that none has it |
| Economy.NameMapLaws | travel-planner-app/src/pages/economy/Economy.js:92-94 | the participant map is ordered, and each id maps to the display name of the last participant with that id |
| Economy.ViewerOf | travel-planner-app/src/pages/economy/Economy.js:91-97 | the viewer is unset iff no participant has the logged-in user id; otherwise it is the participant id of the last such participant, whose `setCurrentUserParticipantId` call is the one that survives |
| Economy.LoadParticipants | travel-planner-app/src/pages/economy/Economy.js:91-100 | the loading loop builds exactly the participant map and the viewer id |
| Economy.PayerName | travel-planner-app/src/pages/economy/Economy.js:123 | the name a debt is filed under is never empty |
| Economy.DebtsByName | travel-planner-app/src/pages/economy/Economy.js:114-126 | a name has a debt entry iff some expense not paid by the viewer has a payer shown under that name, and the entry is the sum of those shares |
| Economy.DebtToAppend | travel-planner-app/src/pages/economy/Economy.js:119-125 | one more expense adds amount/|shared| to its payer's name unless the viewer paid it |
| Economy.DebtToNone | travel-planner-app/src/pages/economy/Economy.js:119-125 | a name with no qualifying expense accumulates nothing |
| Economy.ComputeDebts | travel-planner-app/src/pages/economy/Economy.js:114-127 | the `forEach` loop builds exactly the specified debt map |
| Economy.DebtsEffect | travel-planner-app/src/pages/economy/Economy.js:111-128 | without expenses or a known viewer the debt map is left as it was; otherwise its names are exactly those owed, and each carries the sum of the shares owed under that name |
| Economy.PaidMapLaws | travel-planner-app/src/pages/economy/Economy.js:134-138 | the paid map has a key iff that participant paid some expense, and its value is the sum of their amounts |
| Economy.PaidMapOrdered | travel-planner-app/src/pages/economy/Economy.js:134-138 | the paid map's keys stay in ascending order |
| Economy.PaidByAppend | travel-planner-app/src/pages/economy/Economy.js:137 | one more expense adds its amount to its payer only |
| Economy.PaidMapSum | travel-planner-app/src/pages/economy/Economy.js:134-138 | the paid map's values add up to the sum of all expense amounts |
| Economy.TotalIsAllExpenses | travel-planner-app/src/pages/economy/Economy.js:140-148 | the displayed total equals the sum of all expense amounts, whoever shared them |
| Economy.PaidPerPayer | travel-planner-app/src/pages/economy/Economy.js:131-150 | the loops produce exactly the pie chart rows and their total |
| Economy.LookUpIds | travel-planner-app/src/pages/economy/Economy.js:196-207 | the nested loop maps each row's name to the first id with that name |
| Economy.MyDebts | travel-planner-app/src/pages/economy/Economy.js:210-215 | the filter loop keeps exactly the transfers sent by the viewer, in order |
| Economy.MineAppend | travel-planner-app/src/pages/economy/Economy.js:211-214 | one more transfer is kept iff the viewer sends it |
| Economy.CloseSettlement | travel-planner-app/src/pages/economy/Economy.js:196-225 | the handler's loops produce exactly the viewer's popup lines |
| Economy.CloseSettlementGuarded | travel-planner-app/src/pages/economy/Economy.js:191-227 | the popup opens iff participants are loaded and the viewer is known, and its lines total what the viewer sends |
| Economy.LookupSmallestId | travel-planner-app/src/pages/economy/Economy.js:200-204 | looking up a participant's own name finds an id no larger than theirs that has the same name |
| Economy.LookupInvertsNames | travel-planner-app/src/pages/economy/Economy.js:200-204 | with distinct names, looking up a participant's name gives back their id |
| Economy.PaidEntriesRecoverIds | travel-planner-app/src/pages/economy/Economy.js:196-207 | with distinct names and known payers, the popup credits each participant with exactly what they paid |
| Economy.MineSent | travel-planner-app/src/pages/economy/Economy.js:210-215 | the viewer's transfers total what the viewer sends; a viewer who sends nothing gets none |
| Economy.OwedLinesTotal | travel-planner-app/src/pages/economy/Economy.js:217-223 | turning transfers into name lines keeps the amounts |
| Economy.ViewTotal | travel-planner-app/src/pages/economy/Economy.js:209-223 | the popup lines total exactly what the viewer sends in the full settlement |
| Economy.ViewEmptyForCreditor | travel-planner-app/src/pages/economy/Economy.js:209-215 | a viewer whose adjusted balance is not negative sees no lines |
| Economy.ViewShowsDebt | travel-planner-app/src/pages/economy/Economy.js:209-223 | when balances sum to 0, a debtor's popup lines total exactly their debt |
| EconomyExamples.TrioNames | travel-planner-app/src/pages/economy/Economy.js:92-94 | three named participants map ids 1, 2, 3 to "A", "B", "C" |
| EconomyExamples.SamNames | travel-planner-app/src/pages/economy/Economy.js:92-94 | two participants named "Sam" keep separate ids in the map |
| EconomyExamples.ReciprocalGross | travel-planner-app/src/pages/economy/Economy.js:114-126 | A paid 30.00 and B paid 60.00, both for everyone: the gross view has A owe B 20.00 |
| EconomyExamples.ReciprocalRows | travel-planner-app/src/pages/economy/Economy.js:196-207 | those expenses give rows A 30.00, B 60.00 |
| EconomyExamples.ReciprocalAdjusted | travel-planner-app/src/pages/economy/Economy.js:36-54 | netted, A is even, B is owed 30.00, C owes 30.00 |
| EconomyExamples.ReciprocalNetted | travel-planner-app/src/pages/economy/Economy.js:191-227 | so A's settlement popup is empty although the gross view says A owes 20.00 |
| EconomyExamples.SamsMerged | travel-planner-app/src/pages/economy/Economy.js:123-124 | debts to two participants named "Sam" merge into one line |
| EconomyExamples.SamsRows | travel-planner-app/src/pages/economy/Economy.js:196-207 | a payment by the second "Sam" is credited to the first "Sam"'s id |
| EconomyExamples.SamsSettle | travel-planner-app/src/pages/economy/Economy.js:33-79 | the first "Sam" is then owed 20.00 by each of the other two |
| EconomyExamples.SamsMine | travel-planner-app/src/pages/economy/Economy.js:210-215 | the second "Sam" keeps one transfer, to id 1 |
| EconomyExamples.SamsLines | travel-planner-app/src/pages/economy/Economy.js:217-223 | that transfer is shown as 20.00 to "Sam" |
| EconomyExamples.SamsMisdirected | travel-planner-app/src/pages/economy/Economy.js:191-227 | the second "Sam", who paid everything, is told to pay 20.00 to "Sam" |
| EconomyExamples.NotSharedStillOwed | travel-planner-app/src/pages/economy/Economy.js:117-124 | an expense shared only by B and C still puts a debt to B on viewer A |
| TaskBoard.StatusForColumn | travel-planner-app/src/pages/responsibilities/Responsibilities.js:14 | a column's status is one of 0, 1, 2; it is 0 exactly for "todo" and 1 exactly for "inprogress" |
| TaskBoard.ColForStatus | travel-planner-app/src/pages/responsibilities/Responsibilities.js:13 | a status maps to one of the three columns, and mapping back returns the status, or DONE for anything but 0 and 1 |
| TaskBoard.ColumnStatusRoundTrip | travel-planner-app/src/pages/responsibilities/Responsibilities.js:13-14 | mapping a column to its status and back returns the column, or "done" for an unknown column |
| TaskBoard.OrElse | travel-planner-app/src/pages/responsibilities/Responsibilities.js:52 | the string or-else a fallback returns the string unless it is missing or empty |
| TaskBoard.Initial | travel-planner-app/src/pages/responsibilities/Responsibilities.js:52 | a card's responsible mark is one character: the upper-cased first letter of the name, or "?" |
| TaskBoard.CardOf | travel-planner-app/src/pages/responsibilities/Responsibilities.js:49-54 | a card carries the task's id, name and the whole task, with the responsible initial |
| TaskBoard.WithColumn | travel-planner-app/src/pages/responsibilities/Responsibilities.js:90 | replacing one column leaves the other two unchanged |
| TaskBoard.Without | travel-planner-app/src/pages/responsibilities/Responsibilities.js:88 | the filter keeps exactly the cards with another id, each as often as before |
| TaskBoard.WithoutSingle | travel-planner-app/src/pages/responsibilities/Responsibilities.js:147 | filtering out a card whose id occurs once removes exactly that card |
| TaskBoard.Bucket | travel-planner-app/src/pages/responsibilities/Responsibilities.js:47-55 | every card in a column comes from an input task whose status maps to that column |
| TaskBoard.LoadColumns | travel-planner-app/src/pages/responsibilities/Responsibilities.js:46-56 | the `forEach` loop fills each column with its bucket, in input order |
| TaskBoard.BucketComplete | travel-planner-app/src/pages/responsibilities/Responsibilities.js:47-55 | every task's card is in the column its status maps to, so no task is dropped on load |
| TaskBoard.LoadKeepsEveryTask | travel-planner-app/src/pages/responsibilities/Responsibilities.js:46-55 | the three columns together hold exactly as many cards as there were tasks |
| TaskBoard.Retagged | travel-planner-app/src/pages/responsibilities/Responsibilities.js:84-85 | the moved card keeps its id, text and mark and takes the target column's status |
| TaskBoard.MoveCard | travel-planner-app/src/pages/responsibilities/Responsibilities.js:87-91 | the card's id leaves the source, the retagged card is appended to the target, and the third column is unchanged |
| TaskBoard.RollBack | travel-planner-app/src/pages/responsibilities/Responsibilities.js:101-105 | the card's id leaves the target, the original card is appended to the source, and the third column is unchanged |
| TaskBoard.Drop | travel-planner-app/src/pages/responsibilities/Responsibilities.js:81-110 | no drag, no source or the same column changes nothing; otherwise the drag ends |
| TaskBoard.DropMoves | travel-planner-app/src/pages/responsibilities/Responsibilities.js:84-91 | a successful drop moves the card to the end of the target column with the new status |
| TaskBoard.DropRollbackRestores | travel-planner-app/src/pages/responsibilities/Responsibilities.js:87-105 | after a failed update every column holds the same cards as before |
| TaskBoard.RollbackReorders | travel-planner-app/src/pages/responsibilities/Responsibilities.js:101-105 | after a failed update the card returns to the end of its column, not to its old place |
| TaskBoard.Delete | travel-planner-app/src/pages/responsibilities/Responsibilities.js:144-159 | with nothing dragged the board is unchanged; otherwise the drag ends |
| TaskBoard.DeleteRemoves | travel-planner-app/src/pages/responsibilities/Responsibilities.js:147 | a successful delete removes exactly the dragged card from the board |
| TaskBoard.DeleteRestores | travel-planner-app/src/pages/responsibilities/Responsibilities.js:147-155 | a failed delete leaves the board with the same cards |
| TaskBoard.TrimEmpty | travel-planner-app/src/pages/responsibilities/Responsibilities.js:113 | the trimmed text is empty iff every character is white space |
| TaskBoard.AddTask | travel-planner-app/src/pages/responsibilities/Responsibilities.js:112-142 | blank text, no responsible person or a failed request leaves the columns unchanged; otherwise the new card is appended to `todo` alone |
| TaskBoard.AddBlankIgnored | travel-planner-app/src/pages/responsibilities/Responsibilities.js:113 | a task text of only white space adds nothing |
| TaskBoard.AddOneCard | travel-planner-app/src/pages/responsibilities/Responsibilities.js:125-132 | a successful add puts exactly one more card on the board |
| TaskBoard.GroupByResponsible | travel-planner-app/src/pages/responsibilities/Responsibilities.js:31-41 | the reduce loop builds exactly the grouping of todo, inprogress and done cards |
| TaskBoard.GroupIsByName | travel-planner-app/src/pages/responsibilities/Responsibilities.js:34-40 | a name is a group iff some card is filed under it ("Unknown" when missing), and its group is those cards in board order |
| TaskBoard.ByNameCounts | travel-planner-app/src/pages/responsibilities/Responsibilities.js:34-40 | every card is in its own name's group as often as on the board, and in no other |
| Itinerary.TripDates | travel-planner-app/src/pages/itinerary/Itinerary.js:26-37 | the loop lists every day from start to end inclusive, ascending, and nothing when start > end |
| Itinerary.IndexOf | travel-planner-app/src/pages/itinerary/Itinerary.js:88 | `indexOf` returns the first position of the date, or −1 exactly when it is absent |
| Itinerary.IndexOfDay | travel-planner-app/src/pages/itinerary/Itinerary.js:88 | in the trip's date list a day's index is its offset from the start, or −1 outside the trip |
| Itinerary.EmptyGrid | travel-planner-app/src/pages/itinerary/Itinerary.js:66 | the grid has five null slots per day |
| Itinerary.Initialise | travel-planner-app/src/pages/itinerary/Itinerary.js:61-67 | initialisation sets the trip's dates and a grid of five empty slots per date |
| Itinerary.Write | travel-planner-app/src/pages/itinerary/Itinerary.js:93 | an array write changes only that index, growing the array when past the end, and a negative index changes nothing visible |
| Itinerary.FirstFree | travel-planner-app/src/pages/itinerary/Itinerary.js:89-91 | the scan stops at the first index from the start whose slot is not a card |
| Itinerary.PlaceDated | travel-planner-app/src/pages/itinerary/Itinerary.js:85-95 | the scanning loop writes the card at the first free slot from its day's first slot |
| Itinerary.PlacedWritesFirstFree | travel-planner-app/src/pages/itinerary/Itinerary.js:88-93 | placement changes only the first free slot from the start, which then holds the card |
| Itinerary.PlacedInEmptyGrid | travel-planner-app/src/pages/itinerary/Itinerary.js:88-93 | in an empty grid a dated event goes to its day's first slot |
| Itinerary.PlacedSpillsOver | travel-planner-app/src/pages/itinerary/Itinerary.js:88-93 | when a day's five slots are full, the event lands in the next day's first slot |
| Itinerary.FirstFreeSkips | travel-planner-app/src/pages/itinerary/Itinerary.js:89-91 | the scan passes over a run of occupied slots |
| Itinerary.PlacedOutsideTrip | travel-planner-app/src/pages/itinerary/Itinerary.js:88-93 | an event dated outside the trip leaves the grid unchanged |
| Itinerary.PlaceEvents | travel-planner-app/src/pages/itinerary/Itinerary.js:70-99 | the loop over events produces exactly the specified suggestions and grid |
| Itinerary.PlacementSuggestions | travel-planner-app/src/pages/itinerary/Itinerary.js:74-83 | undated events not already shown are appended to the suggestions, in order |
| Itinerary.PlacementSkipsShown | travel-planner-app/src/pages/itinerary/Itinerary.js:74-75 | events already shown among the suggestions or in a slot, dated or not, leave both the suggestions and the grid unchanged |
| Itinerary.PlacementKeepsCards | travel-planner-app/src/pages/itinerary/Itinerary.js:85-94 | placement never overwrites a slot that holds a card |
| Itinerary.DuplicatesInOneRun | travel-planner-app/src/pages/itinerary/Itinerary.js:74-83 | the duplicate check reads the state from before the run, so an event listed twice is added twice |
| Itinerary.HeldUpdate | travel-planner-app/src/pages/itinerary/Itinerary.js:157-158 | overwriting one slot changes a card's count by what was removed and what was written |
| Itinerary.FindIndex | travel-planner-app/src/pages/itinerary/Itinerary.js:157 | `findIndex` returns the first slot holding the id, or −1 exactly when none does |
| Itinerary.ClearCard | travel-planner-app/src/pages/itinerary/Itinerary.js:157 | clearing on a copy makes the first slot holding the id null and leaves every other slot as it was |
| Itinerary.Without | travel-planner-app/src/pages/itinerary/Itinerary.js:202 | the filter keeps exactly the suggestions with another id, each as often as before |
| Itinerary.WithoutOnly | travel-planner-app/src/pages/itinerary/Itinerary.js:152 | filtering out a suggestion whose id occurs once removes exactly that card |
| Itinerary.DropToSlot | travel-planner-app/src/pages/itinerary/Itinerary.js:141-174 | with nothing dragged or a slot that is not null the planner is unchanged; otherwise the drag ends, a suggestion leaves the suggestion list and fills the slot, a calendar card leaves its first slot for the target, and nothing else changes |
| Itinerary.DropSuggestionKeepsCards | travel-planner-app/src/pages/itinerary/Itinerary.js:145-152 | dropping a suggestion on a free slot shows every card as often as before |
| Itinerary.DropFromCalendarKeepsCards | travel-planner-app/src/pages/itinerary/Itinerary.js:154-160 | moving a card between slots shows every card as often as before |
| Itinerary.DropToSuggestions | travel-planner-app/src/pages/itinerary/Itinerary.js:176-199 | with nothing dragged nothing changes; a calendar card is appended to the suggestions and only its first slot becomes null; a suggestion changes nothing locally |
| Itinerary.DropToSuggestionsKeepsCards | travel-planner-app/src/pages/itinerary/Itinerary.js:179-185 | moving a calendar card to the suggestions shows every card as often as before |
| Itinerary.DeleteSuggestion | travel-planner-app/src/pages/itinerary/Itinerary.js:201-202 | the suggestions become exactly the filtered list, which keeps the other cards in order, and nothing else changes |
| Itinerary.DeleteFromCalendar | travel-planner-app/src/pages/itinerary/Itinerary.js:212-218 | a slot without a card leaves the planner unchanged; otherwise only that slot becomes null, and the suggestions and the drag state are kept |
| Itinerary.DeleteFromCalendarRemoves | travel-planner-app/src/pages/itinerary/Itinerary.js:213-218 | deleting a slot's card removes exactly that one card from view |

## Left out

- Network calls, `localStorage`, `navigate`, error messages and alerts are not modelled. The logged-in user id is a parameter. The outcome of an update, delete or create request is a parameter (`updateOk`, `deleteOk`, `created`).
- Pop-up state, form fields and their resets, and the expense form handler (`handleExpense`) are not part of this model. `handleEditExpense`, `handleDeleteExpense` and the itinerary's `handleAddEvent` are not part of it either. They are form plumbing around a request.
- Settlement.MatchGreedily: the `< 0.01` tolerance becomes `== 0`, so the model settles every cent that the rounded balances leave. The code can stop earlier. Take A paid 0.85, B 1.14 and C 1.01: the adjusted balances are −0.15, +0.14 and +0.01. In doubles −0.15 + 0.14 is −0.00999…, which passes the tolerance, so the code emits only A→B 0.14 and C's cent is never paid. The model also emits A→C 0.01.
- Settlement.Match: the same `== 0` test replaces `< 0.01`, so the specification pays the last cent in the example above.
- Settlement.CalculateSettlement: it runs the same loop, so it carries the same difference.
- Floating point is not modelled: amounts are integer cents. The bit-exact behaviour of `toFixed` (binary halves that round down) and the drift of repeated `+=` are out of scope.
- `Date`, `toISOString` and time zones are not modelled: trip dates are integer day numbers.
- React's scheduling is not modelled. Each state updater is applied once, in program order. The stale `newDate` sent with the date update and the batched re-render between effects are out of scope.
- `toUpperCase` is modelled on ASCII letters only.
- Settlement.MatchGreedily: the payer and receiver records are rebuilt as sequences rather than mutated through shared object references. The loop's reads and writes are the same.
- Economy.ComputeDebts: requires every expense to be shared by at least one participant. The backend's `shared_between` relation (KJObackend/models.py:83-86) can be empty, where the code divides by zero and stores `Infinity`, or `NaN` for a zero amount.
- Economy.DebtsByName: the same requirement as `Economy.ComputeDebts`, for the same reason.
- Economy.DebtsEffect: requires every expense to be shared by at least one participant, as `Economy.ComputeDebts` does and for the same reason.
- Economy.DebtsEffect: the debt map is a Dafny `map`, so its display order is not modelled. `Object.entries` shows integer-like names such as "2024" first, in ascending order, and the other names in insertion order.
- Economy.ComputeDebts: display names that are `Object.prototype` members are not modelled. For "constructor" or "toString", `debts[name] || 0` yields a function, so the sum becomes a string and `owe.toFixed` throws when the list is rendered. For "__proto__", the assignment is silently ignored and that debt disappears. The model treats every name as an ordinary key.
- TaskBoard.GroupByResponsible: the grouping is a Dafny `map`, so the order of the groups on screen is not modelled. `Object.entries` shows integer-like names first, in ascending order, and the other names in insertion order.
- TaskBoard.GroupByResponsible: responsible names that are `Object.prototype` members are not modelled. For "constructor", "toString" or "__proto__", `resp[name] || []` yields a function or the prototype, so `.push` throws and the page fails. The model treats every name as an ordinary key.
- Economy.CloseSettlementGuarded: `!totalPaidPerUser` is never true for an array, so the model drops it from the guard.
- Itinerary.Initialise: `uniqueDates == []` and `calendarSlots == []` compare array identity and are always false. Only the missing-trip guard matters, and it is the caller's choice to run the initialisation with a loaded trip.
- Itinerary.PlaceEvents: the effect's guard `uniqueDates == []` is always false. Only the missing-events guard matters, and it is the caller's choice to run the placement.
- The pie chart effect's guard on `participants` is not modelled: `PaidPerPayer` computes the rows whenever expenses are given.
