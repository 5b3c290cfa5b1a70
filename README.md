# Base automation scripts: production, logistics and audit

A model in Dafny of three in-game programmable-block scripts that run a Space
Engineers base:

- **Base heartbeat** (`BaseHeartbeat.cs`) is the production manager. Every run it rebuilds
  a stock map from every storage inventory. Each stack counts under its own
  subtype id, under the catalog id its alias names, and under its id with
  "Component" appended. It also rebuilds a map of the amounts queued on the working
  assemblers of its three groups. Every 60th run it walks the catalog and orders
  at most 100 of each entry that is below target and has no more than 10
  queued. The order goes to the least-loaded working, functional assembler of
  the entry's group. A `RESET` argument clears those queues. The script also
  drives a status panel (the six lowest entries by stock/target ratio) and a
  paged debug panel (18 entries a page, turning every 41 runs).
- **Logistics core** (`LogisticsCore.cs`, lines 1–288) is the router. Every run it
  sorts items out of the sortable blocks. Each item is routed to a tagged
  container group: [Fuel], [Ice], [Ore], [Ingot], [Comp], [Ammo] or [Tool]. The
  run stops after 25 successful transfers. On even seconds, or when told to
  `FLUSH`, it empties ingots and ore out of the input inventory of over-full
  assemblers into [Ingot] containers. Its display shows either a dashboard or a
  manifest of the 14 largest stocks; `CYCLE` switches between them.
- **Auditor** (`DebugScripts.cs`, lines 1–126) counts every stack on the construct
  into one of five category dictionaries: components, ingots, ores, ammo, and
  tools (everything else). It lists them section by section and auto-scrolls
  the list two lines per run over a 34-line panel. From the assembler
  diagnostic (lines 166–168) the model takes the status tags it prints.

The model works as follows:

- The pure decisions are datatypes and functions: modules `Production`,
  `Displays`, `Routing` and `Audit`, over the shared `Tally`, `World`,
  `Ranking`, `Text` and `Wrappers`.
- Each script's object becomes a `class` whose methods carry the script's own
  loops: `Heartbeat.Program`, `Logistics.Program` and `Auditor.Program`. The
  script's `Main` entry point is the method `Execute`.
- Each method is proved against the function that specifies it. The
  properties the scripts rely on are lemmas about those functions.

The host is passed in as parameters. These stand for the grid terminal system,
the blueprint parser and `TransferItemTo`:

- the blocks discovery returns, and the current state of each block;
- the set of blueprint names the host accepts;
- an oracle `transfer` saying which transfers succeed;
- flags saying whether a panel exists;
- the host's key ordering, `order`.

## Model

| member | source | states |
|---|---|---|
| Tally.Add | DebugScripts.cs:63-67 | insert-or-increment: the key set gains `k`, `k`'s value grows by `v` (from 0 when absent), every other key keeps its value |
| Tally.AddAllCounts | BaseHeartbeat.cs:184-187 | folding entries into a dictionary adds, per key, exactly that key's total over the entries, and creates exactly the keys the entries mention |
| Tally.AddAllAppend | BaseHeartbeat.cs:164-182 | scanning `a` then `b` is continuing the map of `a` with `b` (what lets a loop be split stack by stack) |
| Tally.TotalAppend | BaseHeartbeat.cs:184-187 | per-key totals distribute over concatenation |
| Tally.FirstSeen | LogisticsCore.cs:196-208 | the dictionary's key order is duplicate-free and lists exactly the keys the entries mention |
| Tally.FirstSeenSnoc | LogisticsCore.cs:205 | one more stack appends its key to that order exactly when the key is new |
| Tally.DistinctCount | BaseHeartbeat.cs:287-289 | a list naming every member of a set exactly once is exactly as long as the set is large |
| Tally.ListedKeysCount | BaseHeartbeat.cs:287-289 | an ordering that lists every key once lists only keys of the dictionary, and as many as it has |
| World.WithInventory | BaseHeartbeat.cs:126-127 | the HasInventory filter keeps exactly the blocks with an inventory and loses no stack |
| World.WithInventoryIds | BaseHeartbeat.cs:126-127 | discovery by reference keeps exactly the found blocks that have an inventory at that moment, and read at once they are the blocks the value filter keeps |
| World.SubtypeEntriesAppend | LogisticsCore.cs:199-208 | the per-subtype entries of concatenated stacks are the concatenated entries |
| Text.ContainsAt | LogisticsCore.cs:272 | an occurrence of `sub` at any position makes String.Contains true |
| Text.ContainsNoLonger | LogisticsCore.cs:272 | a string never contains a longer one |
| Text.ToUpper | BaseHeartbeat.cs:141 | the upper-cased argument has the same length (the character rule is `Text.ToUpperMatches`) |
| Text.UpperCharMatches | BaseHeartbeat.cs:141 | a character upper-cases to a non-lower-case `u` exactly when it is `u` or, for a capital `u`, its lower-case letter |
| Text.ToUpperMatches | BaseHeartbeat.cs:141 | a string upper-cases to a word without lower-case letters (such as RESET) exactly when it has that word's length and each character is that word's character or its lower-case letter |
| Text.PadRight | LogisticsCore.cs:210 | PadRight never shortens, keeps the string as its prefix and fills the rest with blanks |
| Text.Truncate | BaseHeartbeat.cs:297 | the first `n` characters at most; the whole string when it fits, exactly `n` otherwise |
| Ranking.Insert | BaseHeartbeat.cs:272 | inserting into an ascending list keeps it ascending and adds exactly that element |
| Ranking.Sort | BaseHeartbeat.cs:272 | OrderBy on a numeric key: ascending, and a permutation of its input |
| Ranking.PrefixRanksFirst | BaseHeartbeat.cs:273 | Take(n) of a sorted list ranks no later than any element left out |
| Production.DiscoveredAsFound | BaseHeartbeat.cs:118-124 | read at the moment of discovery, the cached assemblers are exactly the assemblers found, in order |
| Production.LiveSeesCachedOnly | BaseHeartbeat.cs:189-204 | what a run sees of the assemblers depends only on the current flags and queues of the cached blocks; the group of a member is the one its name gave at discovery |
| Production.InventoryOfAppend | BaseHeartbeat.cs:164-182 | the stock map of `a + b` is the map of `a` continued with `b`'s additions |
| Production.TotalCredit | BaseHeartbeat.cs:176-178 | one stack's additions total, per key, exactly what the three crediting rules give that key, and create exactly the keys they name |
| Production.InventoryStep | BaseHeartbeat.cs:164-187 | one more stack changes each stock key by exactly its credit and creates exactly the keys it credits |
| Production.AliasFolding | BaseHeartbeat.cs:176-177 | an aliased stack counts in full both under its raw id and under the catalog id it aliases |
| Production.QueueEntriesNext | BaseHeartbeat.cs:196-200 | tallying one more queue item is one more insert-or-increment |
| Production.IdleAssemblersIgnored | BaseHeartbeat.cs:193 | assemblers that are not working do not affect the queued map, whatever their queues hold |
| Production.ResetEmptiesBacklog | BaseHeartbeat.cs:141-144 | after RESET a rescan finds nothing queued: every queue the scan reads was cleared |
| Production.ScanShortest | BaseHeartbeat.cs:225-230 | the scan picks a working, functional group member with a queue no longer than any other's and strictly shorter than every earlier one's; none only when no candidate's queue is under int.MaxValue |
| Production.TryQueue | BaseHeartbeat.cs:223-237 | an order goes to the first least-loaded working, functional member of the group, and fails exactly when the tag is unknown, the blueprint is refused, or no candidate exists |
| Production.Enqueue | BaseHeartbeat.cs:233-234 | AddQueueItem appends the order to the chosen assembler's queue and changes nothing else |
| Production.Decide | BaseHeartbeat.cs:208-214 | an entry is skipped exactly when stocked or more than 10 queued; otherwise the batch is 1..100 and never overshoots the target by a whole unit, and a batch under 100 reaches it |
| Production.PassNext | BaseHeartbeat.cs:206-221 | the pass over one more catalog entry is one more step |
| Production.StepAccounting | BaseHeartbeat.cs:216-219 | one entry grows the queued map for a key by exactly what it put on a queue under that key, and changes no other key |
| Production.PassAccounting | BaseHeartbeat.cs:206-221 | over a pass, the queued map and the queues grow together, never shrink, and keys outside the catalog stay put |
| Production.PassGrowth | BaseHeartbeat.cs:206-221 | with distinct catalog ids, a pass grows an id's queued amount by nothing or by exactly its entry's batch |
| Production.TwoPassesWithinCap | BaseHeartbeat.cs:206-221 | two back-to-back passes order at most 100 more of an id, and a first order above 10 suppresses the second |
| Production.PassShape | BaseHeartbeat.cs:223-237 | a pass keeps every assembler's name and flags and grows each queue by at most one item per entry |
| Production.PassCoversShortfalls | BaseHeartbeat.cs:206-221 | after a pass, every entry is stocked, queued beyond 10, without an able producer or accepted blueprint, or has been ordered |
| Production.LoneMemberTakesOrder | BaseHeartbeat.cs:223-237 | a lone eligible member of the group receives every accepted order |
| Production.ShortfallScenario | BaseHeartbeat.cs:206-237 | 1200 of a 5000 target, nothing queued, one idle member: exactly one order of 100 to it, and 100 recorded as queued |
| Displays.TotalPages | BaseHeartbeat.cs:288-289 | Math.Ceiling(n / 18): the fewest pages that hold `n` entries |
| Displays.ClampPage | BaseHeartbeat.cs:290 | the page shown is the stored one, or 0 once the stored one is past the last page |
| Displays.PageSlice | BaseHeartbeat.cs:292 | Skip(18 page).Take(18): at most 18 entries, the page's own, in order |
| Displays.ClampedPageInRange | BaseHeartbeat.cs:289-292 | with entries present, the clamped page is never empty |
| Displays.DebugPage | BaseHeartbeat.cs:287-298 | the debug rows of a page: that page's slice of the key order, each key cut to 18 characters, with its stock |
| Displays.EveryKeyOnOnePage | BaseHeartbeat.cs:288-292 | paging a list of distinct keys shows every key on exactly one page, the one its position selects, and that page exists |
| Displays.Tick | BaseHeartbeat.cs:154-158 | the timer stays within 0..40, and the page turns exactly when the timer was at 40 |
| Displays.PageTurnPeriod | BaseHeartbeat.cs:154-158 | from a fresh timer the page stays put for 40 runs and turns on the 41st |
| Displays.LowCandidates | BaseHeartbeat.cs:270-271 | exactly the catalog entries below 40% of target, each keyed by its stock/target ratio |
| Displays.Ranked | BaseHeartbeat.cs:270-272 | those entries ascending by ratio, a permutation of the candidates |
| Displays.LowStock | BaseHeartbeat.cs:270-273 | at most six rows, all low catalog entries, ascending by ratio |
| Displays.LowStockWorstFirst | BaseHeartbeat.cs:270-273 | a low entry is left off only when six rows are shown, all at least as short of target as it |
| Displays.DrawBar | BaseHeartbeat.cs:303-306 | "[" + one bar per whole 10% + dots up to ten cells + "]" |
| Heartbeat.PickShortest | BaseHeartbeat.cs:225-230 | Queue's scan loop returns exactly the shortest-queue choice of `ScanShortest` |
| Heartbeat.ListPage | BaseHeartbeat.cs:293-299 | the row loop builds exactly `DebugPage` for the page |
| Heartbeat.Program.constructor | BaseHeartbeat.cs:110-114 | runs Init: caches references to the discovered assemblers (with the names that fix their groups) and to the storage blocks with an inventory; everything else empty or zero |
| Heartbeat.Program.Init | BaseHeartbeat.cs:116-127 | both caches of references are replaced wholesale by what discovery returns |
| Heartbeat.Program.AddInv | BaseHeartbeat.cs:184-187 | the stock map after one insert-or-increment |
| Heartbeat.Program.CreditStack | BaseHeartbeat.cs:173-178 | one stack adds its own id, its alias, and its Component variant |
| Heartbeat.Program.CreditItems | BaseHeartbeat.cs:171-179 | the item loop folds every stack's additions, in order |
| Heartbeat.Program.CreditBlock | BaseHeartbeat.cs:168-180 | the inventory loop folds every inventory's stacks, in order |
| Heartbeat.Program.ScanInventory | BaseHeartbeat.cs:164-182 | the stock map is rebuilt from empty as exactly `InventoryOf` the stacks the cached storage blocks hold now |
| Heartbeat.Program.AddQueued | BaseHeartbeat.cs:199-200 | the queued map after one insert-or-increment |
| Heartbeat.Program.TallyQueue | BaseHeartbeat.cs:194-201 | one queue's items folded into the queued map |
| Heartbeat.Program.TallyGroup | BaseHeartbeat.cs:191-202 | the working members' queues of one group folded in, idle ones skipped |
| Heartbeat.Program.ScanQueues | BaseHeartbeat.cs:189-204 | the queued map is rebuilt from empty as exactly `QueuedOf` the assemblers as read |
| Heartbeat.Program.Queue | BaseHeartbeat.cs:223-237 | succeeds exactly when `TryQueue` picks an assembler from their current queues, and then appends the order to that assembler alone |
| Heartbeat.Program.Produce | BaseHeartbeat.cs:208-219 | one catalog entry moves the assemblers and the queued map together by one `Step` |
| Heartbeat.Program.ManageProduction | BaseHeartbeat.cs:206-221 | the whole loop is one `Pass` over the catalog |
| Heartbeat.Program.Reset | BaseHeartbeat.cs:141-143 | every member of every group has an empty queue, and the queued map is empty |
| Heartbeat.Program.UpdateDebugDisplay | BaseHeartbeat.cs:282-301 | the page is clamped to the key count; the rows are exactly `DebugPage` of that page of the stock keys in `OrderBy` order; nothing happens without the panel |
| Heartbeat.Program.Rediscover | BaseHeartbeat.cs:146-147 | the counter steps, and the caches of references are renewed exactly on every 300th run |
| Heartbeat.Program.Scan | BaseHeartbeat.cs:149-150 | both maps are rebuilt through the cached references: stock from what the storage holds now, queued amounts from the current queues |
| Heartbeat.Program.Refresh | BaseHeartbeat.cs:146-152 | counter, re-discovery, both scans of the current state, and a production pass on it exactly on every 60th run |
| Heartbeat.Program.Render | BaseHeartbeat.cs:154-161 | the page timer ticks; the status panel lists `LowStock`; the debug panel shows `DebugPage` of the clamped page |
| Heartbeat.Program.Execute | BaseHeartbeat.cs:139-162 | RESET clears the current queues of the cached group members and the queued map and changes nothing else; any other argument refreshes from the current state, orders on schedule and renders |
| Routing.NextMode | LogisticsCore.cs:41-43 | CYCLE always moves to the other valid display mode |
| Routing.CycleTwiceRestores | LogisticsCore.cs:41-43 | two CYCLE commands restore the mode |
| Routing.SelectIff | LogisticsCore.cs:71-73 | a filtered block list holds exactly the blocks that pass the filter, each once, in grid order |
| Routing.GroupOfIff | LogisticsCore.cs:269-274 | a tagged group is exactly the blocks with an inventory whose name contains the tag |
| Routing.IsSortableIff | LogisticsCore.cs:276-288 | a block is sorted exactly when its name has neither "[Ignore]" nor "Charger" and it is none of the seven excluded block kinds |
| Routing.PresentIff | LogisticsCore.cs:63-69 | a destination counts as present exactly when its group has a member |
| Routing.Route | LogisticsCore.cs:94-120 | protected power banks stay; fuel names win when [Fuel] exists; otherwise ore goes to [Ice] or [Ore], and ingots, components, ammo and tools to their own group, only when that group exists |
| Routing.RouteOreRule | LogisticsCore.cs:105-108 | an ore that is not fuel goes to [Ice] when it is Ice and [Ice] exists, else to [Ore] when present, else nowhere |
| Routing.RouteTypeRule | LogisticsCore.cs:109-120 | past the protected, fuel and ore rules, the first matching type suffix decides: ingot, component, magazine or tool go to their own group exactly when it exists; any other type stays |
| Routing.FirstOpen | LogisticsCore.cs:261-266 | the first target, in order, that is not full and takes the transfer; none only when no target does |
| Routing.TryMove | LogisticsCore.cs:258-267 | never moves out of a block already carrying the target tag; otherwise the first open target receives the item |
| Routing.Budget | LogisticsCore.cs:122-123 | a run keeps at most the first 25 moves |
| Routing.ItemMoveLegal | LogisticsCore.cs:88-122 | a move chosen for one item is legal: from a sortable source, along the item's route, into a non-full group member, by a successful transfer |
| Routing.SortRunLegal | LogisticsCore.cs:61-127 | every move of a sorting run is legal, and a run makes at most 25 |
| Routing.FirstTaker | LogisticsCore.cs:157-160 | the first [Ingot] container that takes the transfer (full ones are tried too); none only when none does |
| Routing.VacuumRunLegal | LogisticsCore.cs:129-165 | every vacuum move takes an ingot or ore from the input inventory of an assembler that is not a fuel assembly and is forced or over 80% full, into an [Ingot] container; nothing moves without one |
| Routing.NameColumn | LogisticsCore.cs:210 | PadRight(20).Substring(0,20): exactly 20 characters, the name cut or padded with blanks |
| Routing.ByQuantity | LogisticsCore.cs:209 | OrderByDescending on the amounts: a rearrangement (same multiset) of the keys, each with its amount, largest amount first |
| Routing.Shown | LogisticsCore.cs:209 | the keys shown are the first min(14, key count) of the ranking |
| Routing.Manifest | LogisticsCore.cs:209-211 | at most 14 rows, largest amount first, names 20 wide |
| Routing.ManifestRowsRanked | LogisticsCore.cs:209-211 | row `i` names the `i`-th shown key, a key of the tally, with its amount |
| Routing.RankedSomewhere | LogisticsCore.cs:209 | every key of the tally stands somewhere in the ranking |
| Routing.ManifestShowsLargest | LogisticsCore.cs:209 | no key of the tally left off the manifest has a larger amount than any row shown |
| Routing.ManifestTotals | LogisticsCore.cs:196-211 | the manifest shows min(14, distinct subtypes) rows, descending, each the total of one subtype over all stacks |
| Routing.View | LogisticsCore.cs:167-215 | nothing without the LCD; the dashboard in mode 0; the world's manifest in mode 1; always the moved total |
| Logistics.Program.constructor | LogisticsCore.cs:26-34 | nothing moved, dashboard mode |
| Logistics.Program.TryMove | LogisticsCore.cs:258-267 | the target loop returns exactly `Routing.TryMove` |
| Logistics.Program.SortItem | LogisticsCore.cs:90-120 | one item's route-and-move is exactly `ItemMove` |
| Logistics.Program.SortSlots | LogisticsCore.cs:88-124 | one inventory, last item first: its moves in order, or the first 25 of the run when the budget runs out; the moved total grows by each move |
| Logistics.Program.SortBlock | LogisticsCore.cs:80-125 | one block, inventory by inventory, under the same budget |
| Logistics.Program.SortSources | LogisticsCore.cs:77-126 | the run's moves are the first 25 (at most) of every block's moves in order |
| Logistics.Program.SortInventory | LogisticsCore.cs:61-127 | a sorting run makes exactly `Budget(SortMoves)` and adds its count to the moved total |
| Logistics.Program.FindTaker | LogisticsCore.cs:157-160 | the target loop returns exactly `FirstTaker` |
| Logistics.Program.VacuumAssembler | LogisticsCore.cs:149-162 | one assembler's input items: each ingot or ore to the first container that takes it |
| Logistics.Program.VacuumAssemblers | LogisticsCore.cs:129-165 | a vacuum run makes exactly `VacuumMoves` |
| Logistics.Program.CountOne | LogisticsCore.cs:204-205 | one stack: the tally and its key order after one insert-or-increment |
| Logistics.Program.CountItems | LogisticsCore.cs:201-206 | one inventory's stacks folded into the tally and key order |
| Logistics.Program.CountBlock | LogisticsCore.cs:200-207 | one block's inventories folded in |
| Logistics.Program.CountStock | LogisticsCore.cs:196-208 | the manifest tally is the per-subtype sum over every stack, keys in first-met order |
| Logistics.Program.UpdateDisplay | LogisticsCore.cs:167-215 | the screen is exactly `Routing.View` of the world, mode and moved total |
| Logistics.Program.Execute | LogisticsCore.cs:36-59 | CYCLE switches mode and redraws; FLUSH vacuums every assembler regardless of fill; otherwise one budgeted sort, a gentle vacuum on even seconds, and a redraw |
| Audit.BucketOf | DebugScripts.cs:53-57 | the first of Component, Ingot, Ore, AmmoMagazine that the type id ends with picks the dictionary; none makes it a tool |
| Audit.BucketTallySnoc | DebugScripts.cs:53-57 | one more stack adds to its own category's dictionary and leaves the other four alone |
| Audit.BucketsConserve | DebugScripts.cs:31-61 | nothing is lost or counted twice: per subtype, the five dictionaries add up to its total over all stacks, and it is a key of some dictionary exactly when some stack has it |
| Audit.Rows | DebugScripts.cs:81 | rows in the order given; when the keys name every key of the dictionary once, exactly one row per key, with its value, and nothing else |
| Audit.SectionListsDictionary | DebugScripts.cs:78-94 | with `OrderBy` listing every key once, each section of the list has exactly one row per key of its dictionary, with its value, and as many rows as the dictionary has keys |
| Audit.ListingLength | DebugScripts.cs:78-97 | when the ordering lists each key once, the list has eight lines more than the dictionaries have keys |
| Audit.NextScroll | DebugScripts.cs:101-111 | a list that fits keeps the cursor at the top; a longer one advances it by two, back to the top once it would pass the last full window |
| Audit.ScrollSweep | DebugScripts.cs:101-111 | from the top, a long list is swept two lines per run to its last full window, and the next run returns to the top |
| Audit.Window | DebugScripts.cs:116-119 | at most 34 lines, the list's own from the cursor on, and a full 34 when the list reaches that far |
| Audit.View | DebugScripts.cs:114-123 | the banner first, then the window, then the footer with the cursor and the last start position exactly when the list scrolls |
| Audit.ViewAfterScroll | DebugScripts.cs:103-123 | after a run, a list that fits is shown whole, and a longer one fills the panel (34 lines plus banner and footer) |
| Audit.StatusTags | DebugScripts.cs:166-168 | DAMAGED exactly when not functional, OFF exactly when disabled, LOW POWER/IDLE exactly when functional and on but not working, and then alone |
| Auditor.AppendRows | DebugScripts.cs:81 | the row loop appends exactly `Rows` |
| Auditor.Cut | DebugScripts.cs:114-123 | the window loop and footer build exactly `View` |
| Auditor.Program.constructor | DebugScripts.cs:11-23 | five empty dictionaries, cursor and line count zero |
| Auditor.Program.AddTo | DebugScripts.cs:63-67 | one insert-or-increment of the chosen dictionary; the other four are untouched |
| Auditor.Program.ScanItem | DebugScripts.cs:49-57 | one stack moves the dictionaries from the tally of the stacks before it to the tally including it |
| Auditor.Program.ScanItems | DebugScripts.cs:47-58 | the item loop keeps the dictionaries equal to the tally of the stacks seen |
| Auditor.Program.ScanBlock | DebugScripts.cs:41-59 | the inventory loop does the same for a whole block |
| Auditor.Program.ScanInventory | DebugScripts.cs:31-61 | the five dictionaries are rebuilt from empty as exactly each category's tally of every stack |
| Auditor.Program.BuildList | DebugScripts.cs:78-97 | the lines built are exactly `Listing` of the five dictionaries |
| Auditor.Program.Scroll | DebugScripts.cs:101-111 | the cursor takes exactly one `NextScroll` step |
| Auditor.Program.UpdateDisplay | DebugScripts.cs:69-126 | nothing without the panel; otherwise the line count is recorded, the cursor steps, and the panel shows `View` of the list |
| Auditor.Program.Execute | DebugScripts.cs:25-29 | a fresh scan and then the panel |

## Left out

- Block discovery (`GetBlocksOfType`, `IsSameConstructAs`, `GetBlockWithName`)
  is not modelled. What it returns is a parameter of the method that uses it.
  The heartbeat caches block references as ids, and reads each block's current
  state through a function from id to state.
- A cached reference always reads some block. A block destroyed after discovery
  is not modelled, and the found ids are taken to name distinct blocks.
- The heartbeat's orders and `ClearQueue` calls change host objects. The model
  returns the assemblers' state after the run (`after`); the host's next state
  is the next run's input.
- A run sees the world as one snapshot. Changes the host makes during a run are
  not modelled. The one exception is the logistics core's `after` world, which
  stands for the state after the sort.
- `TransferItemTo` is an oracle. Its effect on the inventories is not
  modelled, and neither is which stack amount moves.
- `MyDefinitionId.Parse` and `AddQueueItem` are modelled as the set of
  blueprint names the host accepts. A successful `AddQueueItem` appends the
  order to the chosen queue.
- `Heartbeat.Program.Queue`: the model does not separate a parse exception from a refused
  blueprint. Both are one failed order.
- Amounts (`MyFixedPoint`, and `double` after the cast) are exact non-negative
  reals. Floating-point rounding is not modelled. `(int)` of a stock is its
  floor, which is truncation for a non-negative value.
- Integer counters are unbounded. The overflow of `cycle`, `totalMoved`,
  `debugPage`, `debugTimer` and `scrollLine` after about two billion runs is not
  modelled.
- `Auditor.Program.Scroll`: `scrollLine` is a natural number. It starts at 0
  and is never set below 0.
- String comparison is ordinal. `ToUpper` changes ASCII letters only. Culture
  and Unicode casing rules are not modelled.
- Dictionary enumeration order and the culture-sensitive string `OrderBy` on keys
  are not modelled. The heartbeat and the auditor take the ordering as the
  parameter `order`, which lists every key exactly once (`Tally.ListsKeys`);
  the order among the keys is left open.
- Text layout is not modelled. Lines are the `Line` and `DebugRow` datatypes
  and the `Screen` datatype, not strings. This covers the N0 number format,
  the `-18` and `,4` column padding, the box-drawing banners, the `\r` that
  `TrimEnd` strips after `Split('\n')` (so `TrimEnd` itself is not modelled),
  and the page header.
- The heartbeat's vitals are not modelled: battery, hydrogen and the fuel,
  ice and canvas figures. They read block properties that are not part of
  the model. `DrawBar` is modelled on a whole percentage.
- The logistics dashboard's projector status and group capacity bars are not
  modelled, for the same reason. The dashboard screen carries only the moved
  count.
- `Routing.Route`: the destination groups are looked up once, at the start of a
  run, as in `SortInventory`. A container that becomes full during the run is
  seen through the oracle only.
- A vacuum run acts on a fill above 80% or on `FLUSH`, not on an empty queue,
  and empties only the input inventory, never the output.
- The catalog rows pass four arguments to a three-argument `ItemReq`
  constructor. The model keeps the id, target and group tag and uses the id as
  the blueprint name, as `ManageProduction` does.
- `Ranking.Sort` is stable, like LINQ's `OrderBy`. No lemma states the
  stability itself.
- The diagnostic report is modelled only through its status tags
  (`Audit.StatusTags`). Its other text and the time stamp are left out, and so
  is the rest of the diagnostic (DebugScripts.cs:135-204): the queue and
  input-inventory checks and the report written to Custom Data.
- `Production.SaturatedScenario` states its example with an empty proof. It
  illustrates the pending limit and is not a property of its own.
