/**
  The base heartbeat script as a stateful object: the cached references to
  assemblers and storage blocks, the stock and queue snapshots, and the tick
  counters that each run (Execute) steps. The host is passed in: `grid` and
  `blocks` give the current state of every assembler and block by id (what a
  cached reference reads now), `found` and `foundStorage` the ids block discovery
  yields on this tick, `accepted` the blueprint names the host can queue,
  `order` the key order of `OrderBy(x => x.Key)`, and the two flags whether the
  status and debug panels exist. The assemblers a run changes are returned as
  values: their state after the run.
 */
module Heartbeat {
  import opened Wrappers
  import opened Text
  import opened Tally
  import World
  import opened Production
  import opened Displays

  /** Queue's scan over the cached assemblers of group `tag`. */
  method PickShortest(all: seq<Assembler>, tag: string) returns (best: Option<nat>)
    ensures best == Shortest(all, tag)
  {
    best := None;
    var minQ := IntMax;
    for k := 0 to |all|
      invariant Pick(best, minQ) == ScanShortest(all, tag, k)
    {
      var asm := all[k];
      if !InGroup(asm, tag) {
        continue;
      }
      if !asm.working || !asm.functional {
        continue;
      }
      if |asm.queue| < minQ {
        minQ := |asm.queue|;
        best := Some(k);
      }
    }
  }

  /** UpdateDebugDisplay's row loop over one page of the keys. */
  method ListPage(inventory: map<string, Amount>, keys: seq<string>, page: nat) returns (rows: seq<DebugRow>)
    requires forall k :: k in keys ==> k in inventory
    ensures rows == DebugPage(inventory, keys, page)
  {
    var pageItems := PageSlice(keys, page);
    ghost var want := DebugPage(inventory, keys, page);
    rows := [];
    for i := 0 to |pageItems|
      invariant rows == want[..i]
    {
      var key := pageItems[i];
      assert key == keys[page * PageSize + i];
      var name := if |key| > DebugNameWidth then key[..DebugNameWidth] else key;
      rows := rows + [DebugRow(name, inventory[key])];
      assert want[..i + 1] == want[..i] + [want[i]];
    }
    assert want[..|pageItems|] == want;
  }

  class Program {
    const catalog: seq<ItemReq>
    /** The assemblers Init found, by reference; group `t` is those whose cached name contains `t`. */
    var members: seq<Member>
    /** The blocks with an inventory Init found, by reference. */
    var storage: seq<nat>
    var inventory: map<string, Amount>
    var queuedCounts: map<string, Amount>
    var cycle: nat
    var debugPage: nat
    var debugTimer: nat

    ghost predicate Valid()
      reads this
    {
      debugTimer <= PageTicks
    }

    /** The script's constructor, which runs Init. */
    constructor (found: seq<nat>, foundStorage: seq<nat>, grid: nat -> Assembler, blocks: nat -> World.Block)
      ensures Valid() && catalog == Catalog
      ensures members == Discover(found, grid) && storage == World.WithInventoryIds(foundStorage, blocks)
      ensures inventory == map[] && queuedCounts == map[]
      ensures cycle == 0 && debugPage == 0 && debugTimer == 0
    {
      catalog := Catalog;
      members := Discover(found, grid);
      storage := World.WithInventoryIds(foundStorage, blocks);
      inventory := map[];
      queuedCounts := map[];
      cycle := 0;
      debugPage := 0;
      debugTimer := 0;
    }

    /** Block discovery: both caches of references are replaced wholesale. */
    method Init(found: seq<nat>, foundStorage: seq<nat>, grid: nat -> Assembler, blocks: nat -> World.Block)
      modifies this`members, this`storage
      ensures members == Discover(found, grid) && storage == World.WithInventoryIds(foundStorage, blocks)
    {
      members := Discover(found, grid);
      storage := World.WithInventoryIds(foundStorage, blocks);
    }

    /** Insert-or-increment of one stock key. */
    method AddInv(key: string, val: Amount)
      modifies this`inventory
      ensures inventory == Add(old(inventory), key, val)
    {
      if key in inventory {
        inventory := inventory[key := inventory[key] + val];
      } else {
        inventory := inventory[key := val];
      }
    }

    /** The body of ScanInventory's item loop: one stack's additions. */
    method CreditStack(item: World.Stack)
      modifies this`inventory
      ensures inventory == AddAll(old(inventory), Credit(item))
    {
      var id := item.subtypeId;
      var amt := item.amount;
      AddInv(id, amt);
      ghost var done := [Entry(id, amt)];
      AddAllSingle(old(inventory), Entry(id, amt));
      if id in Aliases {
        AddAllSnoc(old(inventory), done, Entry(Aliases[id], amt));
        AddInv(Aliases[id], amt);
        done := done + [Entry(Aliases[id], amt)];
      }
      if !EndsWith(id, "Component") {
        AddAllSnoc(old(inventory), done, Entry(id + "Component", amt));
        AddInv(id + "Component", amt);
        done := done + [Entry(id + "Component", amt)];
      }
      assert done == Credit(item);
    }

    /** ScanInventory's item loop over one inventory. */
    method CreditItems(items: seq<World.Stack>)
      modifies this`inventory
      ensures inventory == AddAll(old(inventory), Contributions(items))
    {
      for j := 0 to |items|
        invariant inventory == AddAll(old(inventory), Contributions(items[..j]))
      {
        assert items[..j + 1][..j] == items[..j];
        AddAllAppend(old(inventory), Contributions(items[..j]), Credit(items[j]));
        CreditStack(items[j]);
      }
      assert items[..|items|] == items;
    }

    /** ScanInventory's inventory loop over one block. */
    method CreditBlock(invs: seq<World.Inventory>)
      modifies this`inventory
      ensures inventory == AddAll(old(inventory), Contributions(World.InvItems(invs)))
    {
      for i := 0 to |invs|
        invariant inventory == AddAll(old(inventory), Contributions(World.InvItems(invs[..i])))
      {
        World.InvItemsStep(invs, i);
        ContributionsAppend(World.InvItems(invs[..i]), invs[i].items);
        AddAllAppend(old(inventory), Contributions(World.InvItems(invs[..i])), Contributions(invs[i].items));
        CreditItems(invs[i].items);
      }
      assert invs[..|invs|] == invs;
    }

    /** Rebuilds the stock map from every stack the cached storage blocks hold now. */
    method ScanInventory(blocks: nat -> World.Block)
      modifies this`inventory
      ensures inventory == InventoryOf(World.Stacks(World.Read(storage, blocks)))
    {
      ghost var stores := World.Read(storage, blocks);
      inventory := map[];
      for b := 0 to |storage|
        invariant inventory == InventoryOf(World.Stacks(stores[..b]))
      {
        var block := blocks(storage[b]);
        assert block == stores[b];
        World.StacksStep(stores, b);
        InventoryOfAppend(World.Stacks(stores[..b]), World.InvItems(block.inventories));
        CreditBlock(block.inventories);
      }
      assert stores[..|storage|] == stores;
    }

    /** Insert-or-increment of one queued-amount key. */
    method AddQueued(key: string, val: Amount)
      modifies this`queuedCounts
      ensures queuedCounts == Add(old(queuedCounts), key, val)
    {
      if key in queuedCounts {
        queuedCounts := queuedCounts[key := queuedCounts[key] + val];
      } else {
        queuedCounts := queuedCounts[key := val];
      }
    }

    /** ScanQueues' item loop over one assembler's queue. */
    method TallyQueue(queue: seq<QueueItem>)
      modifies this`queuedCounts
      ensures queuedCounts == AddAll(old(queuedCounts), QueueEntries(queue))
    {
      for j := 0 to |queue|
        invariant queuedCounts == AddAll(old(queuedCounts), QueueEntries(queue[..j]))
      {
        var bp := queue[j].blueprint;
        var amt := queue[j].amount;
        QueueEntriesNext(old(queuedCounts), queue, j);
        AddQueued(bp, amt);
      }
      assert queue[..|queue|] == queue;
    }

    /** ScanQueues' assembler loop over one group. */
    method TallyGroup(assemblers: seq<Assembler>, tag: string)
      modifies this`queuedCounts
      ensures queuedCounts == AddAll(old(queuedCounts), GroupEntries(assemblers, tag))
    {
      for k := 0 to |assemblers|
        invariant queuedCounts == AddAll(old(queuedCounts), GroupEntries(assemblers[..k], tag))
      {
        var asm := assemblers[k];
        assert assemblers[..k + 1][..k] == assemblers[..k];
        ghost var own := if InGroup(asm, tag) && asm.working then QueueEntries(asm.queue) else [];
        AddAllAppend(old(queuedCounts), GroupEntries(assemblers[..k], tag), own);
        if !InGroup(asm, tag) {
          continue;
        }
        if !asm.working {
          continue;
        }
        TallyQueue(asm.queue);
      }
      assert assemblers[..|assemblers|] == assemblers;
    }

    /** Rebuilds the queued-amount map from the current queues of the working
        members of each group, group by group. */
    method ScanQueues(assemblers: seq<Assembler>)
      modifies this`queuedCounts
      ensures queuedCounts == QueuedOf(assemblers)
    {
      queuedCounts := map[];
      for g := 0 to |GroupTags|
        invariant queuedCounts == AddAll(map[], TagsEntries(assemblers, GroupTags[..g]))
      {
        assert GroupTags[..g + 1][..g] == GroupTags[..g];
        AddAllAppend(map[], TagsEntries(assemblers, GroupTags[..g]), GroupEntries(assemblers, GroupTags[g]));
        TallyGroup(assemblers, GroupTags[g]);
      }
      assert GroupTags[..|GroupTags|] == GroupTags;
    }

    /** Puts `amount` of blueprint `name` on the least-loaded working, functional
        member of group `tag`; false when there is none or the host refuses the
        blueprint. `after` is the assemblers' state once the order is placed. */
    method Queue(assemblers: seq<Assembler>, name: string, amount: nat, tag: string, accepted: set<string>)
      returns (ok: bool, after: seq<Assembler>)
      ensures var r := TryQueue(assemblers, name, tag, accepted);
        ok == r.Some?
        && after == if ok then Enqueue(assemblers, r.value, name, amount as real) else assemblers
    {
      if tag !in GroupTags {
        return false, assemblers;
      }
      var best := PickShortest(assemblers, tag);
      if best.None? {
        return false, assemblers;
      }
      if name !in accepted {
        return false, assemblers;
      }
      return true, Enqueue(assemblers, best.value, name, amount as real);
    }

    /** The body of ManageProduction's loop: one catalog entry. */
    method Produce(assemblers: seq<Assembler>, req: ItemReq, accepted: set<string>) returns (after: seq<Assembler>)
      modifies this`queuedCounts
      ensures Plant(after, queuedCounts) == Step(Plant(assemblers, old(queuedCounts)), req, inventory, accepted)
    {
      ghost var p := Plant(assemblers, queuedCounts);
      after := assemblers;
      var current := Get(inventory, req.id);
      if current >= req.target as real {
        assert Decide(req, inventory, p.queued).None?;
        return;
      }
      var pending := Get(queuedCounts, req.id);
      if pending > PendingLimit {
        assert Decide(req, inventory, p.queued).None?;
        return;
      }
      var needed := req.target - Trunc(current);
      var batch := if needed < MaxBatch then needed else MaxBatch;
      assert Decide(req, inventory, p.queued) == Some(batch);
      var ok;
      ok, after := Queue(assemblers, req.id, batch, req.tag, accepted);
      if ok {
        AddQueued(req.id, batch as real);
      }
    }

    /** Walks the catalog, ordering every entry that is short and not already queued. */
    method ManageProduction(assemblers: seq<Assembler>, accepted: set<string>) returns (after: seq<Assembler>)
      modifies this`queuedCounts
      ensures Plant(after, queuedCounts) == Pass(Plant(assemblers, old(queuedCounts)), catalog, inventory, accepted)
    {
      ghost var start := Plant(assemblers, queuedCounts);
      after := assemblers;
      for k := 0 to |catalog|
        invariant Plant(after, queuedCounts) == Pass(start, catalog[..k], inventory, accepted)
      {
        PassNext(start, catalog, k, inventory, accepted);
        after := Produce(after, catalog[k], accepted);
      }
      assert catalog[..|catalog|] == catalog;
    }

    /** RESET: ClearQueue on every member of every group, and an empty queued map. */
    method Reset(assemblers: seq<Assembler>) returns (after: seq<Assembler>)
      modifies this`queuedCounts
      ensures after == ClearGroups(assemblers) && queuedCounts == map[]
    {
      after := assemblers;
      for g := 0 to |GroupTags|
        invariant |after| == |assemblers|
        invariant forall i :: 0 <= i < |after| ==> after[i] == Cleared(assemblers[i], GroupTags[..g])
      {
        var tag := GroupTags[g];
        assert GroupTags[..g + 1][..g] == GroupTags[..g];
        for k := 0 to |after|
          invariant |after| == |assemblers|
          invariant forall i :: 0 <= i < k ==> after[i] == Cleared(assemblers[i], GroupTags[..g + 1])
          invariant forall i :: k <= i < |after| ==> after[i] == Cleared(assemblers[i], GroupTags[..g])
        {
          if InGroup(after[k], tag) {
            after := after[k := after[k].(queue := [])];
          }
        }
      }
      assert GroupTags[..|GroupTags|] == GroupTags;
      queuedCounts := map[];
    }

    /** The debug panel: clamps the stored page to the current entry count and
        lists that page of the stock keys in `order`; nothing happens without the panel. */
    method UpdateDebugDisplay(debugLcd: bool, order: map<string, Amount> -> seq<string>) returns (rows: seq<DebugRow>)
      requires ListsKeys(order)
      modifies this`debugPage
      ensures debugPage == if debugLcd then ClampPage(old(debugPage), |inventory|) else old(debugPage)
      ensures !debugLcd ==> rows == []
      ensures debugLcd ==> rows == DebugPage(inventory, order(inventory), debugPage)
    {
      if !debugLcd {
        return [];
      }
      var allItems := order(inventory);
      ListedKeysCount(order, inventory);
      var totalPages := TotalPages(|allItems|);
      if debugPage >= totalPages {
        debugPage := 0;
      }
      rows := ListPage(inventory, allItems, debugPage);
    }

    /** The counter step and, every ReinitInterval runs, block discovery. */
    method Rediscover(found: seq<nat>, foundStorage: seq<nat>, grid: nat -> Assembler, blocks: nat -> World.Block)
      modifies this`cycle, this`members, this`storage
      ensures cycle == old(cycle) + 1
      ensures members == if cycle % ReinitInterval == 0 then Discover(found, grid) else old(members)
      ensures storage == if cycle % ReinitInterval == 0 then World.WithInventoryIds(foundStorage, blocks) else old(storage)
    {
      cycle := cycle + 1;
      if cycle % ReinitInterval == 0 {
        Init(found, foundStorage, grid, blocks);
      }
    }

    /** Both scans, through the cached references: stock from what the storage
        blocks hold now, queued amounts from the assemblers' current queues. */
    method Scan(grid: nat -> Assembler, blocks: nat -> World.Block)
      modifies this`inventory, this`queuedCounts
      ensures inventory == InventoryOf(World.Stacks(World.Read(storage, blocks)))
      ensures queuedCounts == QueuedOf(Live(members, grid))
    {
      ScanInventory(blocks);
      ScanQueues(Live(members, grid));
    }

    /** The counter step, the periodic re-discovery, both scans and the periodic production pass. */
    method Refresh(found: seq<nat>, foundStorage: seq<nat>, grid: nat -> Assembler, blocks: nat -> World.Block,
                   accepted: set<string>)
      returns (after: seq<Assembler>)
      modifies this`cycle, this`members, this`storage, this`inventory, this`queuedCounts
      ensures cycle == old(cycle) + 1
      ensures members == if cycle % ReinitInterval == 0 then Discover(found, grid) else old(members)
      ensures storage == if cycle % ReinitInterval == 0 then World.WithInventoryIds(foundStorage, blocks) else old(storage)
      ensures inventory == InventoryOf(World.Stacks(World.Read(storage, blocks)))
      ensures var live := Live(members, grid);
        var scanned := Plant(live, QueuedOf(live));
        Plant(after, queuedCounts)
        == if cycle % CheckInterval == 0 then Pass(scanned, catalog, inventory, accepted) else scanned
    {
      Rediscover(found, foundStorage, grid, blocks);
      Scan(grid, blocks);
      after := Live(members, grid);
      if cycle % CheckInterval == 0 {
        after := ManageProduction(after, accepted);
      }
    }

    /** The page timer and both panels. */
    method Render(statusLcd: bool, debugLcd: bool, order: map<string, Amount> -> seq<string>)
      returns (low: seq<ItemReq>, rows: seq<DebugRow>)
      requires debugTimer <= PageTicks
      requires ListsKeys(order)
      modifies this`debugTimer, this`debugPage
      ensures var ticked := Tick(Pager(old(debugTimer), old(debugPage)));
        debugTimer == ticked.timer
        && debugPage == if debugLcd then ClampPage(ticked.page, |inventory|) else ticked.page
      ensures low == if statusLcd then LowStock(catalog, inventory) else []
      ensures rows == if debugLcd then DebugPage(inventory, order(inventory), debugPage) else []
    {
      debugTimer := debugTimer + 1;
      if debugTimer > PageTicks {
        debugTimer := 0;
        debugPage := debugPage + 1;
      }
      low := if statusLcd then LowStock(catalog, inventory) else [];
      rows := UpdateDebugDisplay(debugLcd, order);
    }

    /** One run of the script. */
    method Execute(argument: string, found: seq<nat>, foundStorage: seq<nat>,
                   grid: nat -> Assembler, blocks: nat -> World.Block, accepted: set<string>,
                   statusLcd: bool, debugLcd: bool, order: map<string, Amount> -> seq<string>)
      returns (after: seq<Assembler>, low: seq<ItemReq>, rows: seq<DebugRow>)
      requires Valid() && ListsKeys(order)
      modifies this
      ensures Valid()
      ensures ToUpper(argument) == "RESET" ==>
        after == ClearGroups(Live(members, grid)) && queuedCounts == map[]
        && members == old(members) && storage == old(storage) && inventory == old(inventory)
        && cycle == old(cycle) && debugTimer == old(debugTimer) && debugPage == old(debugPage)
        && low == [] && rows == []
      ensures ToUpper(argument) != "RESET" ==>
        cycle == old(cycle) + 1
        && members == (if cycle % ReinitInterval == 0 then Discover(found, grid) else old(members))
        && storage == (if cycle % ReinitInterval == 0 then World.WithInventoryIds(foundStorage, blocks) else old(storage))
        && inventory == InventoryOf(World.Stacks(World.Read(storage, blocks)))
      ensures ToUpper(argument) != "RESET" ==>
        var live := Live(members, grid);
        var scanned := Plant(live, QueuedOf(live));
        Plant(after, queuedCounts)
        == (if cycle % CheckInterval == 0 then Pass(scanned, catalog, inventory, accepted) else scanned)
      ensures ToUpper(argument) != "RESET" ==>
        var ticked := Tick(Pager(old(debugTimer), old(debugPage)));
        debugTimer == ticked.timer
        && debugPage == (if debugLcd then ClampPage(ticked.page, |inventory|) else ticked.page)
      ensures ToUpper(argument) != "RESET" ==>
        low == (if statusLcd then LowStock(catalog, inventory) else [])
        && rows == (if debugLcd then DebugPage(inventory, order(inventory), debugPage) else [])
    {
      if ToUpper(argument) == "RESET" {
        after := Reset(Live(members, grid));
        return after, [], [];
      }
      after := Refresh(found, foundStorage, grid, blocks, accepted);
      low, rows := Render(statusLcd, debugLcd, order);
    }
  }
}
