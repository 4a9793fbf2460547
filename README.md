# EV service portal: a Dafny model of its core

This project models the core of an EV service portal. Customers raise a service ticket through a public form. A serverless
function stores the ticket. Station staff and managers then work through dashboards built on the same data:
- the station dashboard's figures and its ticket and walk-in tables;
- the modal that closes a ticket with the parts used;
- the searchable part picker used by the walk-in modal;
- the manager pages for inventory, tickets and walk-ins.

Each core source file becomes one Dafny module:

| module | file | models |
|---|---|---|
| `DashboardMetrics` | `dashboard_metrics.dfy` | `useDashboardMetrics`: walk-in counts, ticket counts, mean turnaround, per-engineer tally |
| `InventoryDashboard` | `inventory.dfy` | `ManagerInventoryDashboard`: grouping by station, summaries, search, paging, the quantity edit |
| `ManagerTickets` | `manager_tickets.dfy` | `ManagerTickets`: filters, search, paging, SLA colouring |
| `ManagerWalkins` | `manager_walkins.dfy` | `ManagerWalkins`: parts cost and parts used per walk-in, filters, paging, KPIs |
| `CloseTicketModal` | `close_ticket_modal.dfy` | `CloseTicketModal`: part rows, engineer choices, render guard |
| `WalkinsTable` | `walkins_table.dfy` | `WalkinsTable`: the page slice, date filter, Prev/Next |
| `TicketsTable` | `tickets_table.dfy` | `TicketsTable`: date filter, status sort, Prev/Next, row actions |
| `TicketForm` | `ticket_form.dfy` | `TicketForm`: the bike registry, validation, submission, result message |
| `SubmitTicket` | `submit_ticket.dfy` | the submit-ticket function: CORS, method and body checks, upload, station lookup, insert |
| `SearchablePartSelect` | `searchable_part_select.dfy` | `SearchablePartSelect`: filtering, selection, open/close |

The remaining modules are shared:
- `Wrappers` holds `Option`.
- `Seqs` holds filtering, counting, sums, `find` and grouping into a map of lists.
- `Text` holds the JavaScript string operations the core uses: `trim`, `toLowerCase`, `toUpperCase`, `includes`, `join`, radix-10 `parseInt` and integer printing.
- `Paging` holds the 15-row pagination shared by every page.
- `Records` holds the database rows and JavaScript truthiness.

Components whose state the source updates in place are classes with `modifies` clauses:
- the inventory page;
- the ticket form;
- the part picker;
- the parent state the ticket table drives;
- the part-row objects of the close modal.

Derived values (`useMemo`, filters, slices) are functions.

The inputs are parameters:
- the backend's answers (rows, errors, thrown exceptions);
- the clock (`today`, the seven-days-ago cutoff, `Date.now()`, the ISO time);
- what the user typed or clicked.

A timestamp is a `Stamp`, which carries its ISO text and the instant `new Date` gives for it. Money is `real`; quantities are `int`.

## Model

| member | source | states |
|---|---|---|
| DashboardMetrics.WalkInMetricsCount | src/hooks/useDashboardMetrics.js:9-26 | "today" is the number of walk-ins whose `logged_at` starts with today's date; "week" is the number logged at or after the seven-days-ago cutoff |
| DashboardMetrics.WalkinWithoutTimestampIgnored | src/hooks/useDashboardMetrics.js:10-20 | a walk-in with no `logged_at`, wherever it sits in the list, changes neither figure |
| DashboardMetrics.TodayWithinWeek | src/hooks/useDashboardMetrics.js:10-20 | when today's walk-ins are all later than the cutoff, the "today" figure never exceeds the "week" figure |
| DashboardMetrics.TicketCountsCount | src/hooks/useDashboardMetrics.js:32-40 | reported-today, closed-today and open-now each count exactly the tickets passing their test (date prefix of `reported_at`, date prefix of a present `closed_at`, status "open") |
| DashboardMetrics.TicketWithoutTimestampIgnored | src/hooks/useDashboardMetrics.js:32-38 | a ticket without `reported_at` is not counted as reported today; one without `closed_at` is not counted as closed today |
| DashboardMetrics.AvgTatAtLeast | src/hooks/useDashboardMetrics.js:43-52 | the mean turnaround is 0 when nothing closed today; otherwise it is at least any lower bound of the closed-today tickets' minutes |
| DashboardMetrics.AvgTatAtMost | src/hooks/useDashboardMetrics.js:43-52 | the mean turnaround is at most any upper bound of the closed-today tickets' minutes |
| DashboardMetrics.AvgTatNonNegative | src/hooks/useDashboardMetrics.js:43-52 | when every ticket closed today was closed no earlier than it was reported, the mean turnaround is not negative |
| DashboardMetrics.TicketsBySnoc | src/hooks/useDashboardMetrics.js:60-71 | a further ticket adds one to its closer's count exactly when it has a closer and a `closed_at` no earlier than the cutoff |
| DashboardMetrics.WalkinsBySnoc | src/hooks/useDashboardMetrics.js:73-84 | a further walk-in adds one to its engineer's count exactly when it has an engineer and a `logged_at` no earlier than the cutoff |
| DashboardMetrics.CountTicket | src/hooks/useDashboardMetrics.js:60-71 | one ticket pass: a ticket without a closer, without `closed_at` or closed before the cutoff leaves the map alone; otherwise its closer gets `{tickets: 1, walkins: 0}` or one more ticket |
| DashboardMetrics.TicketTallyStep | src/hooks/useDashboardMetrics.js:60-71 | one ticket pass keeps the map exact: it has a key for exactly the engineers with qualifying tickets so far, each holding that count |
| DashboardMetrics.TallyTickets | src/hooks/useDashboardMetrics.js:58-71 | after the ticket loop, the keys are exactly the engineers who closed a ticket since the cutoff, each with its ticket count and no walk-ins |
| DashboardMetrics.CountWalkin | src/hooks/useDashboardMetrics.js:73-84 | one walk-in pass: a walk-in without an engineer, without `logged_at` or logged before the cutoff leaves the map alone; otherwise its engineer gets `{tickets: 0, walkins: 1}` or one more walk-in |
| DashboardMetrics.WalkinTallyStep | src/hooks/useDashboardMetrics.js:73-84 | one walk-in pass keeps the map exact for the tickets and the walk-ins seen so far |
| DashboardMetrics.NoWalkinsYet | src/hooks/useDashboardMetrics.js:58-73 | the map the ticket loop leaves is exact for the tickets and no walk-ins |
| DashboardMetrics.TallyWalkins | src/hooks/useDashboardMetrics.js:73-84 | starting from the ticket tally, after the walk-in loop the keys are exactly the engineers with qualifying tickets or walk-ins, each holding both counts |
| DashboardMetrics.EngineerPerformance | src/hooks/useDashboardMetrics.js:55-84 | `engMap` holds exactly the engineers active since the cutoff, with both counts, and no entry is all zeros |
| DashboardMetrics.ComputeTicketMetrics | src/hooks/useDashboardMetrics.js:31-93 | the whole ticket-metrics record: the three counts, the mean turnaround of today's closures (`AvgTat`, bounded by AvgTatAtLeast and AvgTatAtMost, 0 when nothing closed today), and the exact engineer tally |
| DashboardMetrics.NinetyMinuteScenario | src/hooks/useDashboardMetrics.js:31-93 | a ticket reported at 10:00 and closed at 11:30, plus one still open, give 2 reported, 1 closed, 1 open, a 90-minute mean and one ticket for the closer |
| InventoryDashboard.KeptRows | src/pages/ManagerInventoryDashboard.jsx:55-57 | the kept rows are the fetched rows with a station id that is neither empty nor the text "null", in fetch order, and every such row is kept |
| InventoryDashboard.StationLabel | src/pages/ManagerInventoryDashboard.jsx:91 | a station's label is never empty: its name when it has one, otherwise the first eight characters of its id |
| InventoryDashboard.StationNameSource | src/pages/ManagerInventoryDashboard.jsx:89-93 | a station with metadata rows is named by the label of the last row for its id; any other station by the first eight characters of its id |
| InventoryDashboard.ModelNamesOfPart | src/pages/ManagerInventoryDashboard.jsx:113-118 | a part's model names are the names of the links naming that part, in link order, skipping links without a part id or a model name |
| InventoryDashboard.Summarize | src/pages/ManagerInventoryDashboard.jsx:130-141 | the low-stock count never exceeds the SKU count |
| InventoryDashboard.SummarizeAppend | src/pages/ManagerInventoryDashboard.jsx:130-141 | the summary of two batches of rows is the figure-by-figure sum of their summaries |
| InventoryDashboard.SummaryNonNegative | src/pages/ManagerInventoryDashboard.jsx:130-135 | with no negative quantity or cost on record, the total quantity and the total value are not negative |
| InventoryDashboard.StationsAreDisjoint | src/pages/ManagerInventoryDashboard.jsx:120-155 | no two station entries share an id, and every entry holds only kept rows of its own station |
| InventoryDashboard.RowInItsStation | src/pages/ManagerInventoryDashboard.jsx:120-127 | every kept row, with its model names attached, appears in the entry of its own station |
| InventoryDashboard.SkusOfKeys | src/pages/ManagerInventoryDashboard.jsx:129-130 | the SKU counts of the entries for a list of keys add up to the sizes of those keys' groups |
| InventoryDashboard.SkusAddUp | src/pages/ManagerInventoryDashboard.jsx:120-155 | the SKU counts of all stations add up to the number of kept rows |
| InventoryDashboard.SearchEmptyKeepsAll | src/pages/ManagerInventoryDashboard.jsx:176-178 | an empty search keeps every row of the station |
| InventoryDashboard.SearchIgnoresCase | src/pages/ManagerInventoryDashboard.jsx:180-190 | upper- or lower-casing the search term lists the same rows |
| InventoryDashboard.SearchFindsPartName | src/pages/ManagerInventoryDashboard.jsx:182-187 | a row whose part name contains the term is found |
| InventoryDashboard.SearchFindsModel | src/pages/ManagerInventoryDashboard.jsx:184-189 | searching for any one of a row's model names finds the row |
| InventoryDashboard.InventoryTotalPages | src/pages/ManagerInventoryDashboard.jsx:194-196 | the page count is the shared page count: at least 1, and just enough pages of 15 for the rows |
| InventoryDashboard.InventoryPageItems | src/pages/ManagerInventoryDashboard.jsx:197-202 | the rows shown are the page of the filtered list at the clamped page number, at most 15 |
| InventoryDashboard.InventoryPageShown | src/pages/ManagerInventoryDashboard.jsx:194-202 | from page 1 on, the clamped page exists, and a non-empty list never shows an empty page |
| InventoryDashboard.DecideEdit | src/pages/ManagerInventoryDashboard.jsx:227-250 | a write is decided only with a row open, for a level that is not negative and differs from the current one |
| InventoryDashboard.EditReachesTarget | src/pages/ManagerInventoryDashboard.jsx:227-250 | any other level can be reached both by typing it in overwrite mode and by typing the difference in delta mode |
| InventoryDashboard.EditEdgeCases | src/pages/ManagerInventoryDashboard.jsx:230-250 | typing the current level, or a zero delta, closes with no write; a blank entry is "Please enter a valid number" in either mode |
| InventoryDashboard.EditRefusesNegative | src/pages/ManagerInventoryDashboard.jsx:238-244 | a delta that takes the stock below zero is refused |
| InventoryDashboard.GroupedIsPartModels | src/pages/ManagerInventoryDashboard.jsx:113-118 | the map grouped from the model links is `partModelsMap` |
| InventoryDashboard.GroupedIsStations | src/pages/ManagerInventoryDashboard.jsx:120-155 | the grouped rows laid out key by key are the station entries, whose ids are the keys in first-seen order, without repeats |
| InventoryDashboard.BuildStations | src/pages/ManagerInventoryDashboard.jsx:89-161 | the metadata map, the station entries in first-seen order with distinct ids, and the first station id when there is one |
| InventoryDashboard.InventoryPage.constructor | src/pages/ManagerInventoryDashboard.jsx:15-31 | the initial state: no stations, no selection, page 1, an empty search, and a closed edit modal in overwrite mode |
| InventoryDashboard.InventoryPage.FetchInventory | src/pages/ManagerInventoryDashboard.jsx:33-165 | a load error only sets the message; no kept rows empties the list; otherwise the metadata, station entries and page 1 are set, and the first station is selected when none was |
| InventoryDashboard.InventoryPage.ShowStations | src/pages/ManagerInventoryDashboard.jsx:72-164 | a metadata error is reported, yet the stations are still built and shown; the first station is selected when none was; the view returns to page 1 |
| InventoryDashboard.InventoryPage.HandleStationChange | src/pages/ManagerInventoryDashboard.jsx:204-207 | selecting a station shows it from page 1 and changes nothing else |
| InventoryDashboard.InventoryPage.SetSearchTerm | src/pages/ManagerInventoryDashboard.jsx:389-392 | a new search term shows from page 1 and changes nothing else |
| InventoryDashboard.InventoryPage.GoToPrevPage | src/pages/ManagerInventoryDashboard.jsx:209-211 | one page back, never below 1 |
| InventoryDashboard.InventoryPage.GoToNextPage | src/pages/ManagerInventoryDashboard.jsx:213-215 | one page on, never past the last page of the current list |
| InventoryDashboard.InventoryPage.OpenEditModal | src/pages/ManagerInventoryDashboard.jsx:218-224 | opens an overwrite edit of the row with an empty entry and clears the message |
| InventoryDashboard.InventoryPage.SetEditInput | src/pages/ManagerInventoryDashboard.jsx:515-544 | the radio buttons and the value box set the mode and the entry only |
| InventoryDashboard.InventoryPage.CloseEditModal | src/pages/ManagerInventoryDashboard.jsx:547-552 | Cancel closes the modal and changes nothing else: the row, the mode and the entry stay as they were |
| InventoryDashboard.InventoryPage.SaveInventoryEdit | src/pages/ManagerInventoryDashboard.jsx:227-289 | every outcome: no row does nothing; the two validation messages; no change closes the modal; an accepted edit writes the new level unless the user cannot be resolved; success clears the modal |
| InventoryDashboard.InventoryPage.WriteEdit | src/pages/ManagerInventoryDashboard.jsx:252-287 | no app user means no write and "Unable to resolve user"; a failed update is reported with its error; a success closes and clears the modal with the green message |
| InventoryDashboard.PageViewSound | src/pages/ManagerInventoryDashboard.jsx:194-202 | the shown rows are the current page of the filtered list, the page exists, at most 15 rows show, and a non-empty list never shows an empty page |
| InventoryDashboard.CurrentStationIsSelected | src/pages/ManagerInventoryDashboard.jsx:172-192 | the current station is the listed entry whose id is selected; with no match the list is empty |
| ManagerTickets.FilteredTicketsAreKept | src/pages/ManagerTickets.jsx:95-110 | the filtered list keeps fetch order and holds a ticket exactly when it passes all three filters |
| ManagerTickets.NoFiltersKeepAll | src/pages/ManagerTickets.jsx:95-110 | with no filter set every ticket is listed, in order |
| ManagerTickets.ExactFilters | src/pages/ManagerTickets.jsx:97-98 | a station filter keeps only tickets of exactly that station; a status other than "all" keeps only tickets with exactly that status |
| ManagerTickets.MissingFieldsNeverMatch | src/pages/ManagerTickets.jsx:100-107 | a ticket with none of the three searched fields never survives a search |
| ManagerTickets.SearchIgnoresCase | src/pages/ManagerTickets.jsx:100-107 | upper- or lower-casing the search lists the same tickets |
| ManagerTickets.SearchFindsBike | src/pages/ManagerTickets.jsx:100-107 | searching for any part of a ticket's bike number finds it |
| ManagerTickets.TicketPageShown | src/pages/ManagerTickets.jsx:112-121 | the clamped page exists, holds at most 15 tickets from position (page − 1)·15, and the "Showing a–b" label counts exactly those |
| ManagerTickets.SlaBands | src/pages/ManagerTickets.jsx:129-133 | critical from 48 hours, warning from 24 up to 48, no class below 24 |
| ManagerTickets.SlaMonotone | src/pages/ManagerTickets.jsx:129-133 | a longer turnaround is never coloured less severely |
| ManagerTickets.HandlersKeepPageInRange | src/pages/ManagerTickets.jsx:150-186 | every filter handler and both page buttons keep the page number in range, so the clamp never changes it |
| ManagerTickets.LoadedInRange | src/pages/ManagerTickets.jsx:19-25 | the page the view starts with is in range |
| ManagerTickets.FilterChangeShowsFirstPage | src/pages/ManagerTickets.jsx:150-186 | changing any filter shows the first 15 tickets of the new list |
| ManagerTickets.PrevNextMoveOnePage | src/pages/ManagerTickets.jsx:238-254 | Prev changes nothing on page 1 and Next nothing on the last page; elsewhere each moves exactly one page |
| ManagerWalkins.NamesOfRows | src/pages/ManagerWalkins.jsx:55-65 | one name per part row |
| ManagerWalkins.PartsUsedAreNamedRows | src/pages/ManagerWalkins.jsx:55-65 | a walk-in's parts are the catalogue names of its part rows, in row order, skipping rows whose part has no name |
| ManagerWalkins.NamesOfRowsAppend | src/pages/ManagerWalkins.jsx:55-65 | names of concatenated rows are the concatenated names |
| ManagerWalkins.CostAtSnoc | src/pages/ManagerWalkins.jsx:72-78 | a further part row adds its unit cost times its quantity to its own walk-in's cost only |
| ManagerWalkins.CostAtNoRows | src/pages/ManagerWalkins.jsx:72-78 | a walk-in with no part rows costs nothing |
| ManagerWalkins.CostKeysSnoc | src/pages/ManagerWalkins.jsx:73-78 | one loop step keeps the map's keys exactly the walk-ins with part rows so far |
| ManagerWalkins.CostValuesSnoc | src/pages/ManagerWalkins.jsx:73-78 | one loop step keeps each entry equal to its walk-in's cost so far |
| ManagerWalkins.CostStep | src/pages/ManagerWalkins.jsx:73-78 | one loop step keeps the running totals exact |
| ManagerWalkins.PartCostTotals | src/pages/ManagerWalkins.jsx:67-78 | `partCostMap` has an entry for exactly the walk-ins with part rows, each the sum of unit cost times quantity over its rows |
| ManagerWalkins.LoadWalkins | src/pages/ManagerWalkins.jsx:44-120 | every fetched walk-in, in order and unchanged, with its total parts cost and its named parts in row order |
| ManagerWalkins.NoPartRowsNoParts | src/pages/ManagerWalkins.jsx:114-119 | a walk-in with no part rows shows a parts cost of 0 and no parts |
| ManagerWalkins.FilteredWalkinsSpec | src/pages/ManagerWalkins.jsx:130-140 | the list keeps order and holds a walk-in exactly when it matches the set station and engineer and its `logged_at` lies within the set bounds, both ends included |
| ManagerWalkins.WalkinPages | src/pages/ManagerWalkins.jsx:142-150 | a page holds at most 15, page 1 the first 15, and a page past the count is empty rather than clamped |
| ManagerWalkins.KpiSource | src/pages/ManagerWalkins.jsx:155-166 | with no date set, a walk-in without `logged_at` makes the KPIs fail (the page crashes); otherwise the source is a subsequence of the walk-ins |
| ManagerWalkins.KpisIgnoreStationAndEngineer | src/pages/ManagerWalkins.jsx:155-199 | with a date set, the KPIs cover exactly what the list would show with the station and engineer filters cleared, and the caption is "Selected Period" |
| ManagerWalkins.KpisForToday | src/pages/ManagerWalkins.jsx:155-199 | with no date set and every walk-in stamped, the KPIs cover exactly the walk-ins logged today, and the caption is "Today" |
| ManagerWalkins.SumFilterAtMost | src/pages/ManagerWalkins.jsx:170-178 | dropping terms of a sum of non-negative amounts cannot increase it |
| ManagerWalkins.KpisBoundedByAll | src/pages/ManagerWalkins.jsx:168-178 | the KPI count is at most the number of walk-ins, and with non-negative amounts the two cost figures lie between 0 and the totals over all walk-ins |
| CloseTicketModal.PartRow.constructor | src/components/tickets/CloseTicketModal.jsx:23 | a row object with the given part id and quantity |
| CloseTicketModal.AddPartRow | src/components/tickets/CloseTicketModal.jsx:22-24 | a new list that keeps every row and appends one fresh row with no part and quantity 1 |
| CloseTicketModal.RemoveAt | src/components/tickets/CloseTicketModal.jsx:26-28 | removing an index in range drops exactly that row; an index out of range changes nothing |
| CloseTicketModal.RemoveKeepsFirstRow | src/components/tickets/CloseTicketModal.jsx:104-111 | removal through an offered control drops one row, never the first, and keeps the others in order |
| CloseTicketModal.UpdatePartRow | src/components/tickets/CloseTicketModal.jsx:30-34 | the copied list holds the same row objects; the chosen row gets the new value in the chosen field, and every other row object keeps its values |
| CloseTicketModal.EngineerOptionsOfStation | src/components/tickets/CloseTicketModal.jsx:65-73 | the engineer choices are the engineers of the ticket's station, in list order |
| CloseTicketModal.Render | src/components/tickets/CloseTicketModal.jsx:20-111 | nothing renders while closed or without a ticket; otherwise the engineer choices are exactly the ticket's station's engineers (EngineerOptions), every part row is listed and only rows after the first have a remove control |
| WalkinsTable.PagedWalkinsShape | src/components/walkins/WalkinsTable.jsx:12-16 | from page 1 on, the slice holds at most 15 walk-ins from position (page − 1)·15 in order, and it is the page the manager pages compute |
| WalkinsTable.PageCountLabel | src/components/walkins/WalkinsTable.jsx:115 | the label never shows a page count of 0 |
| WalkinsTable.DateChangesResetPage | src/components/walkins/WalkinsTable.jsx:33-47 | setting or clearing the date shows page 1, and clearing hides the Clear button |
| WalkinsTable.PrevNextMoves | src/components/walkins/WalkinsTable.jsx:121-141 | an enabled Prev or Next moves exactly one page without touching the filter, and every allowed click keeps the page in range |
| TicketsTable.TableControls.constructor | src/components/tickets/TicketsTable.jsx:1-17 | the parent's page (at least 1, so `Valid()` holds), date filter and sort flag as given |
| TicketsTable.TableControls.OnDateChange | src/components/tickets/TicketsTable.jsx:32-35 | page 1 and the new date; the sort flag is unchanged |
| TicketsTable.TableControls.OnClearDate | src/components/tickets/TicketsTable.jsx:40-43 | no date, page 1 |
| TicketsTable.TableControls.ToggleStatusSort | src/components/tickets/TicketsTable.jsx:52-55 | the sort flag flips and the view returns to page 1 |
| TicketsTable.TableControls.OnPrev | src/components/tickets/TicketsTable.jsx:163 | one page back, never below 1 |
| TicketsTable.TableControls.OnNext | src/components/tickets/TicketsTable.jsx:170-172 | one page on, never past the total, and still at least 1 when the total is |
| TicketsTable.ClickKeepsPageInRange | src/components/tickets/TicketsTable.jsx:162-177 | from a `Valid()` page within the total, any click the table allows keeps `Valid()` and the page within the total |
| TicketsTable.Rows | src/components/tickets/TicketsTable.jsx:81-138 | one row per ticket |
| TicketsTable.CloseOfferedOnlyWhenOpen | src/components/tickets/TicketsTable.jsx:101-134 | "Close with Parts" is offered exactly for open tickets, and the Open badge shows exactly then |
| TicketForm.NormalizeIdempotent | src/components/TicketForm.jsx:34-35 | normalising (trim, then upper-case) twice is normalising once |
| TicketForm.Registry | src/components/TicketForm.jsx:34-36 | one registry entry per fetched bike; no data gives an empty registry |
| TicketForm.RegistryEntriesPass | src/components/TicketForm.jsx:34-55 | every registry entry is in normal form, so a number that normalises like a registered one passes the check |
| TicketForm.TicketForm.constructor | src/components/TicketForm.jsx:5-15 | every field empty and no bikes loaded |
| TicketForm.TicketForm.LoadBikes | src/components/TicketForm.jsx:23-43 | an error keeps the registry; otherwise the list is the normalised numbers, and the set holds exactly those |
| TicketForm.TicketForm.Report | src/components/TicketForm.jsx:83-96 | success shows the green message and clears every input; failure shows "Failed: " with the server's error or the default text and keeps the inputs |
| TicketForm.TicketForm.HandleSubmit | src/components/TicketForm.jsx:45-100 | nothing is sent unless the bike is registered and the issue is not blank, checked in that order; exactly the normalised and trimmed fields are sent; the message is green exactly on success, and only success clears the inputs |
| SubmitTicket.ServerError | supabase/functions/submit-ticket/index.ts:145-159 | a 500 whose error text is the thrown error's message, or "Internal Server Error" when that is empty, so never empty |
| SubmitTicket.HandleRequest | supabase/functions/submit-ticket/index.ts:10-161 | the whole cascade: preflight, 405, 400 for a non-multipart body or missing fields, 500 with the parser's message for a multipart body that does not parse, upload before insert, 500 on a failed upload or insert, an "open" ticket with the form's fields and the looked-up station, and the CORS header on every answer |
| SubmitTicket.UploadNameKeepsTime | supabase/functions/submit-ticket/index.ts:69 | the stored image name starts with the upload time, which `parseInt` reads back |
| SubmitTicket.FormRequestRoundTrip | supabase/functions/submit-ticket/index.ts:36-63 | the function reads back exactly the fields the form sends, sees an image exactly when one is attached, and accepts every submission with a non-empty bike number and issue |
| SearchablePartSelect.FilteredPartsSpec | src/components/common/SearchablePartSelect.jsx:15-23 | an empty query lists every part; otherwise the list keeps order and holds a part exactly when its lower-cased name or SKU contains the lower-cased query |
| SearchablePartSelect.QueryIgnoresCase | src/components/common/SearchablePartSelect.jsx:15-23 | upper- and lower-cased queries list the same parts |
| SearchablePartSelect.SelectedPart | src/components/common/SearchablePartSelect.jsx:13 | the first part with the given id, or none when no part has it |
| SearchablePartSelect.DropdownOf | src/components/common/SearchablePartSelect.jsx:58-80 | hidden exactly while closed; "No matching parts" exactly when open with nothing filtered; otherwise the filtered parts |
| SearchablePartSelect.PartPicker.constructor | src/components/common/SearchablePartSelect.jsx:9-10 | closed, with an empty query |
| SearchablePartSelect.PartPicker.OnFocus | src/components/common/SearchablePartSelect.jsx:49 | focusing opens the dropdown and keeps the query |
| SearchablePartSelect.PartPicker.OnChange | src/components/common/SearchablePartSelect.jsx:50-53 | typing replaces the query and opens the dropdown |
| SearchablePartSelect.PartPicker.OnMouseDown | src/components/common/SearchablePartSelect.jsx:26-34 | a mouse-down outside closes the dropdown; one inside changes nothing |
| SearchablePartSelect.PartPicker.Choose | src/components/common/SearchablePartSelect.jsx:68-72 | reports the part's id, clears the query and closes |
| SearchablePartSelect.ChosenPartShown | src/components/common/SearchablePartSelect.jsx:41-47 | once chosen and closed, the input shows the part as "name (sku)" when no earlier part shares its id; it shows nothing for an unknown id, and the query while open |
| Text.TrimEmptyIffBlank | src/components/TicketForm.jsx:57 | a string trims to empty exactly when it is all whitespace |
| Text.TrimIdempotent | src/components/TicketForm.jsx:35 | trimming twice is trimming once |
| Text.TrimToUpper | src/components/TicketForm.jsx:35 | upper-casing commutes with trimming |
| Text.ToLowerForgetsCase | src/pages/ManagerTickets.jsx:101 | lower-casing forgets any earlier change of case |
| Text.ContainsIff | src/pages/ManagerTickets.jsx:103-105 | `includes` holds exactly when the query occurs at some position |
| Text.ContainsToLower | src/pages/ManagerInventoryDashboard.jsx:180-189 | lower-casing both sides keeps an occurrence |
| Text.JoinContains | src/pages/ManagerInventoryDashboard.jsx:184 | every joined element occurs in the joined text |
| Text.ParseIntBlank | src/pages/ManagerInventoryDashboard.jsx:231-236 | `parseInt` of a blank entry is NaN |
| Text.ParseIntRoundTrip | src/pages/ManagerInventoryDashboard.jsx:231 | `parseInt` reads back any printed integer, whatever non-digit text follows it |
| Paging.TotalPages | src/pages/ManagerTickets.jsx:112-115 | at least one page, and just enough pages of 15 for the rows |
| Paging.PageSafe | src/pages/ManagerTickets.jsx:117 | the clamped page never exceeds the page count and equals the page when it is in range |
| Paging.JsSlice | src/pages/ManagerTickets.jsx:118-121 | `slice` returns at most end − start elements, the ones between the two positions |
| Paging.PageItemsAt | src/pages/ManagerTickets.jsx:118-121 | page p holds the rows from position (p − 1)·15 on, in order, up to 15 |
| Paging.PagesCoverRows | src/pages/ManagerTickets.jsx:112-121 | every row appears on some page that exists |
| Paging.PageBeyondLastIsEmpty | src/pages/ManagerWalkins.jsx:142-150 | a page past the last one is empty |
| Paging.ClampedPageNotEmpty | src/pages/ManagerTickets.jsx:112-121 | clamping the page to the page count always lands on a page with rows, if there are rows |
| Paging.PrevNextStayInRange | src/pages/ManagerTickets.jsx:238-253 | Prev and Next keep the page in range, and each undoes the other away from the ends |

## Left out

- Backend calls, `async`/`await` ordering, loading flags and re-renders are not modelled. The backend's answers are parameters, and each handler runs as one step.
- `setTimeout` clearing the inventory message after three seconds is not modelled. Neither is the reload after a successful edit, which the caller performs as a separate `FetchInventory`.
- InventoryDashboard.InventoryPage.WriteEdit: its success message is the one `setMessage` receives on line 286. The reload that follows on line 288 calls `setMessage("")` (line 35) before its first `await`, in the same batched update, so the page shows no message after a successful edit. The model reaches that state only when `WriteEdit` is followed by `FetchInventory`, whose contract leaves the message empty on a successful load.
- `supabase.auth.getSession()`, logout and the `users` lookup are left out. The lookup's result is the `UpdateOutcome` parameter. A missing session, which throws in the source, is not modelled.
- Environment variables, client construction, the fetch URL and the headers the form sends are not modelled. Neither is `console` logging.
- Floating point is not modelled: costs and turnaround are exact `real` arithmetic, and `toFixed` rounding is left out.
- DashboardMetrics.AvgTatAtLeast: the mean is stated on exact reals, not on the one-decimal text `toFixed(1)` produces.
- Date parsing, time zones and `toLocaleString` are left out. A timestamp carries its ISO text and its instant as given data. A stored timestamp that does not parse (NaN) is not modelled.
- ManagerWalkins.FilteredWalkinsSpec: the bounds are compared as instants. The page parses a date-only `toDate` ("YYYY-MM-DD") as midnight UTC of that day (src/pages/ManagerWalkins.jsx:136), so walk-ins logged later on the `toDate` day fall outside the list; the model takes the bound's instant as given and does not restate this.
- Case mapping covers ASCII letters only. JavaScript's full Unicode `toLowerCase`/`toUpperCase` is not modelled.
- The order of `Object.entries` is first-insertion order of the keys. That is JavaScript's order for non-integer-like keys; the integer-like keys that JavaScript lists first are not modelled.
- `computeTAT` in the ticket list is not modelled, because it reads the clock. Its colouring (`SlaClass`) is modelled on the hours it returns.
- Display-only lookups are not modelled: station, engineer and model names in table cells, the "Unknown" fallbacks, CSS classes, the sidebar toggle and the issue preset buttons.
- The ManagerWalkins page has no control that changes its page number, so it always shows page 1. Its paging is modelled for any page without a page-change handler.
- ManagerWalkins.KpiSource: the `TypeError` thrown by `w.logged_at.startsWith` is modelled as `None` (the page fails to render), not as an exception.
- The ticket form's `required` attributes and its disabled submit button while loading are browser behaviour and are left out. The form's submit is modelled from `handleSubmit` on.
- A `FormData` with repeated keys is not modelled: a form is a map from name to its first value, which is what `formData.get` returns.
- The image's content type and bytes are not modelled (`image.type || "image/jpeg"`, `arrayBuffer`). The upload is modelled by its file name and its error.
- The storage upload and the insert are modelled by the name and the row they are called with, and by the error each returns. The station lookup's logged error only leaves the station empty.
- `UpdatePartRow` is modelled with row objects that the method mutates, so the aliasing between the old and new arrays is kept. `AddPartRow` and `RemoveAt` build new sequences of the same objects.
- CloseTicketModal's submit and cancel buttons call the parent's handlers, which are not part of this model.
