# InkBoard-AI core in Dafny

InkBoard-AI is a small ERP demo. A shop keeper types or dictates a Spanish sentence and an
agent turns it into an action on an in-memory store. The store holds an inventory keyed by
SKU, a list of employee shift logs and a list of customer reminders. This project models
the four parts of that path and proves properties of each:

- the records (`app/models.py`) — module `Models`;
- the store (`app/storage.py`) — module `Storage`;
- the command handler and its four patterns (`app/agent.py`) — modules `Patterns` and `Agent`;
- the React command console (`frontend/src/components/CommandPanel.jsx`) — module `CommandPanel`.

Three supporting modules complete it:

- `Wrappers` holds `Option` and `Result`. A raised `ValueError` is `Result.ValueError` with the source's message.
- `Text` holds the character classes, `strip`/`trim`, case mapping and decimal numerals.
- `Scenarios` works the handler's own test cases through the model (`tests/test_agent.py`).

How the model is built:

- **State.** Each stateful entity is a class (`InventoryItem`, `DemoStorage`, `Panel`).
  - The methods of `InventoryItem` and `DemoStorage`, and the handler's `HandleAgentCommand`, are proved equal to pure functions on values: `AfterSale`, `RecordSaleIn`, `Execute`, and so on. The lemmas state the promised properties about those functions.
  - The methods of `Panel` state their new fields outright in their own contracts; a few lemmas about sequences of calls sit beside them.
- **Aliasing.** `DemoStorage.inventory` maps each SKU to its own `InventoryItem` object. The store returns those objects themselves, as the Python does.
- **Patterns.** The regular expressions are hand-written matchers with Python `re.search` semantics:
  - the leftmost start position wins;
  - greedy quantifiers give characters back one at a time (`LastWhere`, which serves the four places where the reminder pattern backtracks);
  - alternatives are tried in order;
  - case is ignored (`SameLetter`).
- **Clock.** Wall-clock time is the parameter `now`. A `datetime` is a `Timestamp`, an integer count of microseconds, and `timedelta(days=1)` is `OneDay`.
- **Browser.** In the console, the browser is reduced to parameters (does the native `start()` throw, is a speech service present). Logs record every call made on the recognizer, on `speechSynthesis` and on `onSubmit`.

Behaviour of the code the model keeps, which a reader may not expect:

- A manual submit does not cancel a pending voice clear-timer (`HandleSubmit` leaves the timer alone).
- `startRecognition` does not check whether recognition is already running. A second `start()` is reported only through the native exception (`StartRecognition`).
- The sale and restock patterns spell the word as `unidade` plus an optional `s`. The singular `unidad` is therefore not accepted.
- The reminder pattern's customer group is `[\w\s]+`, which may consist of spaces only. For example, `recordar a   que x mañana` gives the empty customer after stripping.
- A restock with a negative amount for a new SKU raises, but the zero-quantity item that `ensure_item` created stays (`Storage.NegativeRestockOfNewSkuKeepsCreatedItem`). Through the handler this cannot happen, because the amount group is a run of digits (`Agent.FailureChangesNothing`).

## Model

| member | source | states |
|---|---|---|
| Models.AfterSale | app/models.py:14-19 | a sale succeeds exactly when 0 <= amount <= stock; it then removes exactly that amount, stock stays >= 0, sku and name unchanged; a negative amount and an excess amount are refused with their own messages |
| Models.AfterRestock | app/models.py:21-24 | a restock succeeds exactly when the amount is not negative, then adds exactly that amount and keeps sku and name; a negative amount is refused with its message |
| Models.ZeroAmountChangesNothing | app/models.py:14-24 | selling or restocking 0 units is accepted and leaves the item as it was |
| Models.RestockThenSellRestores | app/models.py:14-24 | restocking n units and selling n units gives back the original item |
| Models.InventoryItem.constructor | app/models.py:8-12 | a new item holds the given sku and name and quantity 0 |
| Models.InventoryItem.Sell | app/models.py:14-19 | the result and the item's new value are those `AfterSale` describes; on refusal the item is untouched |
| Models.InventoryItem.Restock | app/models.py:21-24 | the result and the item's new value are those `AfterRestock` describes; on refusal the item is untouched |
| Storage.EnsureItemIn | app/storage.py:22-30 | an unknown SKU without a non-empty name is refused and nothing changes; an unknown named SKU is created with quantity 0; a known SKU is renamed only when a non-empty name is given; on success the returned item is what is stored under the SKU |
| Storage.RecordSaleIn | app/storage.py:32-37 | an unknown SKU is refused with `SKU <sku> not found`; otherwise the item's own sale rule decides; only a successful sale changes the inventory, and only under that SKU |
| Storage.RestockIn | app/storage.py:39-42 | a refusal from `ensure_item` is returned as it is; otherwise the item's restock rule decides, starting from what `ensure_item` stored |
| Storage.AppendEmployeeLog | app/storage.py:45-52 | exactly one entry is added at the end with the given employee and event; its timestamp is the given one, or `now` when none is given |
| Storage.AppendReminder | app/storage.py:58-72 | exactly one entry is added at the end with the given description, due date and customer; missing metadata becomes the empty map |
| Storage.EnsureItemKeepsInvariant | app/storage.py:22-30 | keeps every item filed under its own SKU with non-negative stock; changes no other SKU; succeeds exactly when the SKU is known or named; never changes a known item's quantity |
| Storage.RecordSaleKeepsInvariant | app/storage.py:32-37 | keeps the invariant; changes no other SKU; succeeds exactly when the SKU is known and 0 <= amount <= stock; a refusal changes nothing; success lowers the stock by exactly the amount and keeps the name |
| Storage.RestockKeepsInvariant | app/storage.py:39-42 | keeps the invariant; changes no other SKU; succeeds exactly when the SKU is known or named and the amount is not negative; the new stock is the old stock (0 for a new item) plus the amount |
| Storage.NegativeRestockOfNewSkuKeepsCreatedItem | app/storage.py:39-42 | a negative restock of a new named SKU is refused, yet leaves the created zero-quantity item behind |
| Storage.RestockThenSaleRestoresInventory | app/storage.py:32-42 | restocking a known SKU by n and selling n gives back the original inventory and item |
| Storage.RestockOutcome | app/storage.py:22-42 | with a non-negative amount, an unknown unnamed SKU is refused and nothing changes; otherwise the item (new with quantity 0, or known; renamed when named) gains exactly the amount and nothing else changes |
| Storage.DemoStorage.constructor | app/storage.py:13-16 | a new store is empty: no items, no logs, no reminders |
| Storage.DemoStorage.GetInventorySnapshot | app/storage.py:19-20 | returns the current map from SKU to the stored objects; the objects are shared with the store |
| Storage.DemoStorage.EnsureItem | app/storage.py:22-30 | does to the stored items exactly what `EnsureItemIn` says; returns the stored object itself; a created item is a fresh object; no SKU loses its object |
| Storage.DemoStorage.AddItem | app/storage.py:26 | files a fresh item with quantity 0 under a new SKU; no other entry changes |
| Storage.DemoStorage.Rename | app/storage.py:27-29 | a non-empty name replaces the stored item's name; everything else stays, and no other entry changes |
| Storage.DemoStorage.RecordSale | app/storage.py:32-37 | does to the stored items exactly what `RecordSaleIn` says and returns the stored object itself |
| Storage.DemoStorage.Restock | app/storage.py:39-42 | does to the stored items exactly what `RestockIn` says, including keeping a created item after a refused restock; returns the stored object itself |
| Storage.DemoStorage.RestockStored | app/storage.py:41 | restocks the item filed under the SKU as `AfterRestock` says; no other entry changes |
| Storage.DemoStorage.AddEmployeeLog | app/storage.py:45-52 | appends and returns the entry `AppendEmployeeLog` describes; nothing else changes |
| Storage.DemoStorage.GetEmployeeLogs | app/storage.py:54-55 | returns the stored logs in order |
| Storage.DemoStorage.AddReminder | app/storage.py:58-72 | appends and returns the entry `AppendReminder` describes; nothing else changes |
| Storage.DemoStorage.GetReminders | app/storage.py:74-75 | returns the stored reminders in order |
| Patterns.SearchFrom | app/agent.py:35 | finds nothing exactly when no position from p on matches; otherwise returns the match at the leftmost matching position |
| Patterns.Search | app/agent.py:35 | `re.search`: nothing exactly when no position matches; otherwise the match at the leftmost matching position |
| Patterns.LiteralAt | app/agent.py:10-11 | a literal under IGNORECASE matches only inside the text |
| Patterns.LiteralFrom | app/agent.py:10-11 | the case-blind comparison of a literal from one of its positions on stays inside the text |
| Patterns.LiteralFromLetters | app/agent.py:11 | a literal match compares each character of the literal with the text, ignoring case |
| Patterns.LiteralAtLowers | app/agent.py:11 | text that matches a lower-case literal under IGNORECASE lower-cases to that literal |
| Patterns.RunSlice | app/agent.py:10 | a run of a class between two positions, cut out of the text, is a non-empty run of that class |
| Patterns.SpacedRun | app/agent.py:10 | `\s+` then a class run, both taken whole: the run starts after at least one space and is not followed by another character of the class |
| Patterns.SpacedRunUnique | app/agent.py:10 | a space-led run whose first character is not a space is exactly the one `SpacedRun` finds |
| Patterns.SpacedLiteral | app/agent.py:10 | `\s+` then a literal: the literal starts after at least one space |
| Patterns.SpacedLiteralUnique | app/agent.py:10 | a space-led literal starting with a letter is exactly the one `SpacedLiteral` finds |
| Patterns.UnitAt | app/agent.py:10 | `\s+unidades?`: the word `unidade` after spaces, ending after it or after its optional `s` |
| Patterns.UnitAtUnique | app/agent.py:10 | the word `unidades?` followed by a space or the end is exactly the one `UnitAt` finds |
| Patterns.ClauseFound | app/agent.py:10 | what the quantity-clause matcher finds is a match of `\s+(\d+)\s+unidades?\s+de\s+(\w+)` at the given position, and the text has a digit |
| Patterns.ClauseFromPieces | app/agent.py:10 | the clause matcher puts together exactly what its four pieces find |
| Patterns.SkuFromPieces | app/agent.py:10 | the `de` and SKU part of the clause is put together from what its two pieces find |
| Patterns.ClauseIsUnique | app/agent.py:10 | wherever the quantity clause can match, the matcher finds that match, and it is the only one |
| Patterns.AmountIsUnique | app/agent.py:10 | the amount and the word `unidades?` of any match of the clause are those the matcher finds |
| Patterns.SkuIsUnique | app/agent.py:10 | the `de` and the SKU of any match of the clause are those the matcher finds |
| Patterns.ClauseNeverMatches | app/agent.py:10 | when the matcher finds nothing, no match of the clause exists at that position |
| Patterns.ClauseGroups | app/agent.py:10 | the groups of a clause match are a numeral and a non-empty word run |
| Patterns.SaleAt | app/agent.py:9-12 | a sale match has a digit-run amount and a word-run SKU, and needs a digit in the text |
| Patterns.SaleAtShape | app/agent.py:9-12 | the sale matcher succeeds at p exactly when `vend[ií]` then the quantity clause match there, and its groups are the slices of the text at that clause's amount and SKU |
| Patterns.NameAt | app/agent.py:14 | the optional product name is a non-empty run of word and space characters |
| Patterns.NameAtShape | app/agent.py:14 | a found name is the slice of the text at the group of a match of `\s+como\s+([\w\s]+)` |
| Patterns.NameShapeFound | app/agent.py:49-50 | whenever `\s+como\s+([\w\s]+)` matches after the SKU, a name is found, and it strips to the same text as that match's group, so the name handed to `restock` is the same |
| Patterns.NameAtNoneIff | app/agent.py:14 | no name is found exactly when the optional `\s+como\s+([\w\s]+)` cannot match after the SKU |
| Patterns.RestockVerbAt | app/agent.py:14 | `agregu[eé]` or `sum[aé]` at p, ignoring case, and the position after it |
| Patterns.RestockAt | app/agent.py:13-16 | a restock match has a digit-run amount, a word-run SKU, an optional word-or-space name, and needs a digit in the text |
| Patterns.RestockAtShape | app/agent.py:13-16 | the restock matcher succeeds at p exactly when the verb then the quantity clause match there; its groups are the slices at that clause's amount and SKU and the name after it |
| Patterns.LastWhere | app/agent.py:18 | a greedy quantifier's backtracking: when it finds a position, it lies in the range |
| Patterns.LastWhereIsLast | app/agent.py:18 | the position found is one the rest of the pattern matches from, no later one in the range is, and when nothing is found no position in the range is |
| Patterns.LastWhereFollows | app/agent.py:18 | the rest of the pattern matches from the position found |
| Patterns.LastWhereNoneLater | app/agent.py:18 | no position after the one found (after the range's start when none is found) lets the rest of the pattern match |
| Patterns.LastWhereIs | app/agent.py:18 | the largest position in the range from which the rest of the pattern matches is the one found |
| Patterns.DescriptionEnd | app/agent.py:18 | the end of `.+` lies after its start and within its line |
| Patterns.DescriptionEndIsLast | app/agent.py:18 | `\s+mañana` follows the end found, no later end within the line is followed by it, and when none is found no end is |
| Patterns.DescriptionStart | app/agent.py:18 | the description starts after at least one space following `que` |
| Patterns.DescriptionStartIsLast | app/agent.py:18 | the start found is preceded by spaces and has a description end; no later start within those spaces has one, and when none is found no start has one |
| Patterns.TailAt | app/agent.py:18 | `\s+que\s+(.+)\s+mañana`: the description is a non-empty run without line breaks, starting after a space and a `q` |
| Patterns.QueIsLetter | app/agent.py:18 | where spaces and `que` follow a position, the text from there has a `q` |
| Patterns.TailAtShape | app/agent.py:18 | the description found runs from a start after `\s+que\s+` to its greedy end |
| Patterns.CustomerEnd | app/agent.py:18 | the end of `[\w\s]+` lies after its start, and every character before it is a word or space character |
| Patterns.CustomerEndIsLast | app/agent.py:18 | the tail matches after the end found, no later end of the run is followed by the tail, and when none is found no end is |
| Patterns.ReminderGroups | app/agent.py:18 | the customer is exactly the text from its start to its greedy end, a non-empty word-or-space run; the description is exactly what the tail finds there |
| Patterns.CustomerStart | app/agent.py:18 | the customer starts after at least one space following `a` |
| Patterns.CustomerStartIsLast | app/agent.py:18 | the start found is preceded by spaces and has a customer end; no later start within those spaces has one, and when none is found no start has one |
| Patterns.ReminderAt | app/agent.py:17-20 | a reminder match has a word-or-space customer and a single-line description, and needs an `r` in the text |
| Patterns.CustomerAfter | app/agent.py:18 | after `recordar`, `\s+a\s+` leads to a customer start from which the customer has an end |
| Patterns.CustomerAfterShape | app/agent.py:18 | the start found is the last start after spaces, the `a` and at least one more space |
| Patterns.ReminderAtParts | app/agent.py:17-20 | the reminder matcher succeeds at p exactly when `recordar` is there and `\s+a\s+` then a customer follow; its groups are those of that customer start |
| Patterns.ReminderAtShape | app/agent.py:17-20 | a reminder match's groups are the customer from its start to its greedy end and the description the tail finds after it, for a start after `recordar\s+a\s+` |
| Patterns.ReminderShapeFromParts | app/agent.py:18 | `recordar` followed by the customer start `CustomerAfter` finds is a match of `recordar\s+a\s+` ending before that start |
| Patterns.ShiftVerbAt | app/agent.py:22 | `registr[aá]` or `marca` ends after the start, within the text, and contains an `r` |
| Patterns.EventAt | app/agent.py:22 | the event alternative ends after its start and within the text |
| Patterns.EventAtLowers | app/agent.py:22 | the event group lower-cases to `entrada` or `salida` |
| Patterns.EventFrom | app/agent.py:22 | `\s+` then the event group: the event follows at least one space and matches `entrada` or `salida` there |
| Patterns.EventFromUnique | app/agent.py:22 | any event after spaces is exactly the one `EventFrom` finds |
| Patterns.ShiftAt | app/agent.py:21-24 | a shift match's employee is a word run, and an `r` is in the text |
| Patterns.EmployeeAfter | app/agent.py:22 | the employee after `\s+de\s+` is a word run |
| Patterns.ShiftEventIsLower | app/agent.py:22 | wherever the shift pattern matches, its event lower-cases to `entrada` or `salida` |
| Patterns.ShiftAtParts | app/agent.py:21-24 | the shift matcher succeeds at p exactly when the verb, the event and the employee part are found in turn; its groups are the slices at the event and the employee |
| Patterns.EmployeeAfterShape | app/agent.py:22 | a found employee follows spaces and `de` and is a whole word run |
| Patterns.ShiftAtShape | app/agent.py:21-24 | a shift match's groups are the slices of the text at the event and the employee of a match of the shift pattern |
| Patterns.ShiftAtChain | app/agent.py:22 | the shift matcher puts together what its pieces find |
| Patterns.EmployeeChain | app/agent.py:22 | the employee part is put together from what its two pieces find |
| Patterns.ShiftShapeFound | app/agent.py:21-24 | wherever the shift pattern can match, the matcher finds exactly that match |
| Patterns.EmployeeFound | app/agent.py:22 | wherever `\s+de\s+(\w+)` can match, the employee matcher finds exactly that match |
| Patterns.HasLetterIsEitherCase | app/agent.py:11 | under IGNORECASE an ASCII letter matches only itself and its capital |
| Patterns.HasDigitIsSomeDigit | app/agent.py:10 | a text with a `\d` character contains one of the ASCII digits |
| Patterns.FindSale | app/agent.py:9-12 | a found sale has a numeral amount and a word-run SKU, and the text has a digit |
| Patterns.FindRestock | app/agent.py:13-16 | a found restock has a numeral amount, a word-run SKU, an optional word-or-space name, and the text has a digit |
| Patterns.FindReminder | app/agent.py:17-20 | a found reminder has a word-or-space customer and a single-line description, and the text has an `r` |
| Patterns.FindShift | app/agent.py:21-24 | a found shift's event lower-cases to `entrada` or `salida`, its employee is a word run, and the text has an `r` |
| Patterns.FindSaleIsLeftmost | app/agent.py:35 | the sale search finds nothing exactly when no position matches, and otherwise the match at the leftmost matching position |
| Patterns.FindRestockIsLeftmost | app/agent.py:46 | the restock search finds nothing exactly when no position matches, and otherwise the match at the leftmost matching position |
| Patterns.FindReminderIsLeftmost | app/agent.py:58 | the reminder search finds nothing exactly when no position matches, and otherwise the match at the leftmost matching position |
| Patterns.FindShiftIsLeftmost | app/agent.py:73 | the shift search finds nothing exactly when no position matches, and otherwise the match at the leftmost matching position |
| Agent.Interpret | app/agent.py:28-87 | an all-space command is refused as empty; otherwise the first of sale, restock, reminder and shift found decides, in that order, and nothing found is refused as not understood; SKUs are non-empty upper-case, employee ids non-empty lower-case, events `entrada` or `salida`, and names, customers and descriptions carry no surrounding whitespace |
| Agent.InterpretFields | app/agent.py:35-75 | each argument is the group of the deciding match, normalised: SKU `Upper` of the sku group, amount `NumeralValue` of the amount group, name stripped when present, customer and description stripped, employee and event `Lower` of their groups |
| Agent.IntToStringHasNoSpace | app/agent.py:43 | the text of a quantity has no space |
| Agent.QuantityEndsAtSpace | app/agent.py:43 | in `{quantity} unidades de {name}` the quantity ends at the first space |
| Agent.QuantityTextIsUnique | app/agent.py:43 | two equal texts `{quantity} unidades de {name}` have the same quantity and name |
| Agent.IntToStringIsInjective | app/agent.py:43 | different integers have different texts |
| Agent.DropPrefix | app/agent.py:43 | equal texts with a common prefix agree after it |
| Agent.SaleMessageIdentifiesItem | app/agent.py:43 | two sale replies are equal exactly when they report the same stock and the same name |
| Agent.RestockMessageIdentifiesItem | app/agent.py:55 | two restock replies are equal exactly when they report the same stock and the same name |
| Agent.RepliesDiffer | app/agent.py:43-55 | a sale reply is never a restock reply |
| Agent.Execute | app/agent.py:38-85 | sales and restocks touch neither logs nor reminders; a reminder appends one reminder due one day after `now` and reports it; a shift appends one log stamped `now` and reports it |
| Agent.Handle | app/agent.py:28-87 | a command that is not understood is refused with its message and leaves the store as it was; an understood one is carried out as `Execute` says |
| Agent.HandleAgentCommand | app/agent.py:28-87 | on the store object, returns and leaves exactly what `Handle` gives for the same command and clock |
| Agent.ExecuteOn | app/agent.py:38-85 | carries out an understood command with the store's methods exactly as `Execute` says |
| Agent.SellOn | app/agent.py:35-44 | the sale branch on the store object agrees with `Execute` |
| Agent.RestockOn | app/agent.py:46-56 | the restock branch on the store object agrees with `Execute` |
| Agent.InterpretIgnoresSurroundingSpace | app/agent.py:31 | surrounding whitespace does not change how a command is read |
| Agent.SaleCommand | app/agent.py:35-44 | an understood sale of an unknown SKU, or of more than the stock, is refused and changes nothing; otherwise exactly that many units leave that one item and the reply reports the stock left and the item's name |
| Agent.RestockCommand | app/agent.py:46-56 | an understood restock of an unknown SKU without a name is refused and changes nothing; otherwise the item gains exactly the amount, is renamed when named, and the reply reports the new stock |
| Agent.FailureChangesNothing | app/agent.py:28-87 | every refused command leaves the whole store unchanged |
| Agent.ReplyReportsStoredItem | app/agent.py:39-56 | the reply to a sale or restock reports the quantity and name now stored under its SKU |
| Agent.HandleKeepsWellFormed | app/agent.py:28-87 | every command keeps every item filed under its own SKU with non-negative stock |
| Agent.RecordsAreAppended | app/agent.py:58-85 | a reminder adds exactly one reminder due one day after `now` with empty metadata; a shift adds exactly one log stamped `now` with event `entrada` or `salida`; neither touches the inventory |
| Scenarios.SetUp | tests/test_agent.py:9-13 | the test set-up leaves `SKU123` named `Producto X` with 50 units and no logs or reminders |
| Scenarios.SaleTextMatch | app/agent.py:9-12 | on `Vendí 10 unidades de SKU123`, the sale pattern matches at the start with amount `10` and SKU `SKU123` |
| Scenarios.SaleTextInterpreted | tests/test_agent.py:17 | `Vendí 10 unidades de SKU123` is read as a sale of 10 units of `SKU123` |
| Scenarios.SaleReducesInventory | tests/test_agent.py:16-19 | after the set-up, the sale command replies with a sale and 40 units remain stored |
| Scenarios.ReminderTextCustomer | app/agent.py:18 | on the reminder test's text, `[\w\s]+` gives back all but `Ana` |
| Scenarios.ReminderTextDescription | app/agent.py:18 | on the reminder test's text, `.+` gives back ` mañana` |
| Scenarios.ReminderTextMatch | app/agent.py:17-20 | on `Recordar a Ana que lleve su pedido mañana`, the reminder pattern matches at the start with customer `Ana` and description `lleve su pedido` |
| Scenarios.ReminderTextInterpreted | tests/test_agent.py:23 | the reminder test's command is read as a reminder for `Ana` to `lleve su pedido` |
| Scenarios.ReminderCreatesEntry | tests/test_agent.py:22-25 | after the set-up, the reminder command replies with a reminder and stores exactly one reminder, due one day after `now` |
| Scenarios.UnknownTextInterpreted | tests/test_agent.py:30 | `esto no tiene sentido` matches none of the four patterns and is refused as not understood |
| Scenarios.UnknownCommandRaises | tests/test_agent.py:28-30 | after the set-up, that command raises the not-understood error and the store is unchanged |
| Scenarios.NoDigitNoAmount | app/agent.py:9-16 | a text without a digit matches neither the sale nor the restock pattern |
| Scenarios.NoRNoVerb | app/agent.py:17-24 | a text without an `r` matches neither the reminder nor the shift pattern |
| Text.ClassRelations | app/agent.py:10-22 | `\w` and `\s` share no character, every `\d` is a `\w`, and `\w` is within Latin-1 and excludes the line feed |
| Text.TrimVersusStrip | frontend/src/components/CommandPanel.jsx:29-30 | the console's `trim` removes what the backend's `strip` removes, plus U+FEFF and minus U+001C to U+001F and U+0085 |
| Text.SpanEnd | app/agent.py:10 | a greedy character-class run: every character taken is in the class and the next one is not |
| Text.SpanStart | app/agent.py:31 | the start of the longest class run ending at a position: every character in it is in the class and the one before is not |
| Text.SpanEndIsRunEnd | app/agent.py:10 | the end of a maximal run is the one `SpanEnd` finds |
| Text.SpanStartIsRunStart | app/agent.py:31 | the start of a maximal run ending at a position is the one `SpanStart` finds |
| Text.Strip | app/agent.py:31 | `str.strip`: the result is no longer than the input, has whitespace at neither end, and is empty exactly when the input is all whitespace |
| Text.StripOfPadded | app/agent.py:31 | stripping whitespace padding around an already stripped text gives back that text |
| Text.StripIdempotent | app/agent.py:31 | stripping twice is stripping once |
| Text.StripOfLeading | app/agent.py:50 | whitespace in front of a text does not change what `strip()` gives |
| Text.Upper | app/agent.py:37 | `str.upper` maps each character and keeps the length |
| Text.Lower | app/agent.py:74-75 | `str.lower` maps each character and keeps the length |
| Text.UpperIsCanonical | app/agent.py:37 | upper-casing an upper-cased SKU changes nothing, and lower-casing ignores a prior upper-casing |
| Text.LowerIsCanonical | app/agent.py:74 | lower-casing a lower-cased employee id changes nothing |
| Text.NumeralValue | app/agent.py:36 | `int` of a digit string is 0 exactly when every digit is `0` |
| Text.LeadingZeroIgnored | app/agent.py:36 | `int` ignores a leading zero |
| Text.DigitChar | app/agent.py:43 | the digit character of d is a digit whose value is d |
| Text.Numeral | app/agent.py:43 | the decimal text of n is a digit run without leading zeros whose value is n |
| Text.IntToString | app/agent.py:43 | the text of a quantity is non-empty and starts with `-` exactly when it is negative; a non-negative one is a numeral without leading zeros that `int` reads back as the quantity; a negative one is `-` and such a numeral of its absolute value |
| CommandPanel.Panel.constructor | frontend/src/components/CommandPanel.jsx:17-25 | the console starts with an empty box, the first sample, not listening, speech unsupported, voice feedback on, no error, no recognizer and no timer |
| CommandPanel.Panel.Placeholder | frontend/src/components/CommandPanel.jsx:174 | the placeholder is always one of the three samples |
| CommandPanel.Panel.Edit | frontend/src/components/CommandPanel.jsx:173 | typing sets the box to the typed text |
| CommandPanel.Panel.HandleSubmit | frontend/src/components/CommandPanel.jsx:27-32 | a command that trims to nothing submits nothing and leaves the box; otherwise the trimmed command is submitted once and the box is emptied |
| CommandPanel.Panel.CyclePlaceholder | frontend/src/components/CommandPanel.jsx:34-36 | moves to the next sample, wrapping round after the last |
| CommandPanel.Panel.ToggleVoiceFeedback | frontend/src/components/CommandPanel.jsx:38-40 | flips voice feedback |
| CommandPanel.Panel.StopRecognition | frontend/src/components/CommandPanel.jsx:42-53 | stops the recognizer if there is one, and clears listening unless told to skip it |
| CommandPanel.Panel.StartRecognition | frontend/src/components/CommandPanel.jsx:55-66 | without a recognizer nothing changes; otherwise `start()` is called and the console listens, or when it throws it reports the start failure and stops listening |
| CommandPanel.Panel.ToggleListening | frontend/src/components/CommandPanel.jsx:68-75 | without speech support nothing changes; when listening it stops and keeps the error; when idle it starts as `StartRecognition` says |
| CommandPanel.Panel.SetUpRecognition | frontend/src/components/CommandPanel.jsx:79-112 | without a recognition service speech is marked unsupported; otherwise a `es-ES`, final-results-only, one-alternative recognizer is installed and speech is marked supported |
| CommandPanel.Panel.TearDownRecognition | frontend/src/components/CommandPanel.jsx:114-117 | stops the recognizer if there is one without touching listening, then removes it |
| CommandPanel.Panel.TearDownTimer | frontend/src/components/CommandPanel.jsx:120-127 | on unmount no clear-timer stays pending |
| CommandPanel.Panel.OnResult | frontend/src/components/CommandPanel.jsx:90-99 | a missing or empty transcript changes nothing; otherwise it fills the box, is submitted untrimmed, and a new clear-timer replaces any pending one |
| CommandPanel.Panel.FireTimer | frontend/src/components/CommandPanel.jsx:98 | a pending clear-timer empties the box when it fires |
| CommandPanel.Panel.OnError | frontend/src/components/CommandPanel.jsx:101-105 | a recognition error is reported and listening stops |
| CommandPanel.Panel.OnEnd | frontend/src/components/CommandPanel.jsx:107-109 | the end of a recognition session stops listening |
| CommandPanel.Panel.FeedbackEffect | frontend/src/components/CommandPanel.jsx:129-148 | with feedback off, speech is cancelled and the last message forgotten; with it on, an empty or already spoken message is not spoken again, and a new one interrupts speech, is spoken once in `es-ES` and is remembered |
| CommandPanel.SameResultSpokenOnce | frontend/src/components/CommandPanel.jsx:136-147 | the same result seen twice by the feedback effect is spoken once |
| CommandPanel.DisableThenEnableSpeaksAgain | frontend/src/components/CommandPanel.jsx:131-147 | turning feedback off and on again speaks the current result again |
| CommandPanel.TwoTranscripts | frontend/src/components/CommandPanel.jsx:90-99 | after two quick transcripts only the second clear-timer can fire; it empties the box, and both transcripts were submitted as heard |

## Left out

- Unicode beyond Latin-1: `\w`, `\d` and the case maps are exact for U+0000 to U+00FF. Other characters count as non-word, non-digit and caseless.
  - Python's upper-casing of `ß`, `µ` and `ÿ`, which leaves Latin-1 or changes length, is not modelled.
  - The special IGNORECASE folds `ı`, `ſ` and the Kelvin sign are not modelled either.
  - `Text.Upper` and `Text.Lower` are therefore weaker than Python's `str.upper` and `str.lower` outside Latin-1.
- Clock and time format.
  - `datetime.utcnow()` becomes the parameter `now`. A command reads the clock once.
  - `isoformat()` is not modelled: replies carry the `Timestamp` itself.
  - The store's own `utcnow()` default is the same `now` parameter.
- The module-level `storage` singleton. The store is passed to `Agent.HandleAgentCommand` explicitly.
- `Storage.DemoStorage.GetInventorySnapshot`: Python returns the store's own dict, so a caller that inserts, removes or replaces an entry changes the store. The model returns the map as a value; only the item objects in it are shared. Later changes a caller makes to the dict itself are not modelled. The insertion order of the SKUs is not modelled either: a Python dict keeps the order in which `ensure_item` first filed each SKU (`app/storage.py:26`), so the snapshot, and any listing of the inventory built from it, follows that order, while the model's `map` has no order.
- Concurrency. FastAPI runs synchronous endpoints on a thread pool, so two requests can run the handler at once. The check-then-subtract of `sell` (`app/models.py:17-19`) is not atomic, and two concurrent sales could together sell more than the stock. The model runs one command at a time.
- `Text.NumeralValue`: CPython's `int()` raises `ValueError` on a digit string longer than 4300 digits (`app/agent.py:36`, `app/agent.py:47`). `Agent.Interpret` reads such an amount anyway instead of raising.
- `Storage.DemoStorage.GetEmployeeLogs` and `Storage.DemoStorage.GetReminders`: Python returns a new list each time. Dafny sequences are values, so the copy is implicit.
- Other parts of the repository:
  - the HTTP layer (`main.py`);
  - the page (`App.jsx`);
  - the API client (`api.js`);
  - the other panels.
  They are not part of this model.
- React semantics:
  - state batching, re-rendering and effect scheduling. Each handler, browser callback and effect is a method the environment calls, and state updates take effect at once.
  - the `isLoading` prop that disables the buttons (lines 185 and 213). Callers decide whether to call the handlers.
  - the `error` and `result` rendering. The feedback effect receives `result.message` as a parameter.
- The browser:
  - `console.error` logging;
  - the server-rendering path where `window` is undefined;
  - the 200 ms delay of the clear-timer. The timer fires when `FireTimer` is called.
  - the choice among `SpeechRecognition`, `webkitSpeechRecognition` and `mozSpeechRecognition`, which is reduced to whether any of them exists;
  - the event object of `onresult`, which is reduced to its first transcript, if any.
- `CommandPanel.Panel.StopRecognition`: an exception from the native `stop()` is swallowed in the source. The model therefore treats `stop()` as never changing anything but the call log.
- The three UI sample commands are not proved to be understood or refused by the agent.
