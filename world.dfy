/**
  The host world as plain data: blocks with inventories of item stacks. What the
  scripts obtain from the grid terminal system is passed in as values of these types.
 */
module World {
  import opened Tally

  /** MyInventoryItem: type id (e.g. "MyObjectBuilder_Ore"), subtype id (e.g. "Iron"), amount. */
  datatype Stack = Stack(typeId: string, subtypeId: string, amount: Amount)

  /** IMyInventory, read at one instant. */
  datatype Inventory = Inventory(items: seq<Stack>, volume: Amount, maxVolume: Amount, full: bool)

  /** The block interfaces the scripts test with `is`. */
  datatype Kind =
    | PowerProducer | Refinery | Assembler | LargeTurret
    | UserControllableGun | GasGenerator | GasTank

  /** IMyTerminalBlock: display name, implemented interfaces, inventories in index order. */
  datatype Block = Block(name: string, kinds: set<Kind>, inventories: seq<Inventory>)

  predicate HasInventory(b: Block) {
    |b.inventories| > 0
  }

  /** The stacks of the given inventories, inventory by inventory. */
  function InvItems(invs: seq<Inventory>): seq<Stack> {
    if |invs| == 0 then [] else InvItems(invs[..|invs| - 1]) + invs[|invs| - 1].items
  }

  /** The stacks of the given blocks, block by block and inventory by inventory. */
  function Stacks(blocks: seq<Block>): seq<Stack> {
    if |blocks| == 0 then []
    else Stacks(blocks[..|blocks| - 1]) + InvItems(blocks[|blocks| - 1].inventories)
  }

  lemma InvItemsStep(invs: seq<Inventory>, i: nat)
    requires i < |invs|
    ensures InvItems(invs[..i + 1]) == InvItems(invs[..i]) + invs[i].items
  {
    assert invs[..i + 1][..i] == invs[..i];
  }

  lemma StacksStep(blocks: seq<Block>, b: nat)
    requires b < |blocks|
    ensures Stacks(blocks[..b + 1]) == Stacks(blocks[..b]) + InvItems(blocks[b].inventories)
  {
    assert blocks[..b + 1][..b] == blocks[..b];
  }

  /** GetBlocksOfType with the HasInventory filter: the blocks that have an
      inventory, in order. Dropping the others loses no stack. */
  function WithInventory(blocks: seq<Block>): (r: seq<Block>)
    ensures forall b :: b in r <==> b in blocks && HasInventory(b)
    ensures Stacks(r) == Stacks(blocks)
  {
    if |blocks| == 0 then []
    else
      var init := blocks[..|blocks| - 1];
      var b := blocks[|blocks| - 1];
      assert blocks == init + [b];
      var rest := WithInventory(init);
      if HasInventory(b) then
        assert (rest + [b])[..|rest|] == rest;
        rest + [b]
      else rest
  }

  /** The blocks behind the given references, as they are at this instant: a cached
      reference reads its block's current name, inventories and contents. */
  function Read(ids: seq<nat>, now: nat -> Block): seq<Block> {
    seq(|ids|, i requires 0 <= i < |ids| => now(ids[i]))
  }

  /** Discovery of storage by reference: the found blocks that have an inventory at
      this instant, in order. Read at once, they are what the value filter keeps. */
  function WithInventoryIds(found: seq<nat>, now: nat -> Block): (r: seq<nat>)
    ensures forall id :: id in r <==> id in found && HasInventory(now(id))
    ensures Read(r, now) == WithInventory(Read(found, now))
  {
    if |found| == 0 then []
    else
      var init := found[..|found| - 1];
      var id := found[|found| - 1];
      assert found == init + [id];
      assert Read(found, now)[..|found| - 1] == Read(init, now);
      var rest := WithInventoryIds(init, now);
      if HasInventory(now(id)) then
        assert Read(rest + [id], now) == Read(rest, now) + [now(id)];
        rest + [id]
      else rest
  }

  /** Each stack's amount under its subtype id, stack by stack. */
  function SubtypeEntries(stacks: seq<Stack>): seq<Entry> {
    if |stacks| == 0 then []
    else
      var last := stacks[|stacks| - 1];
      SubtypeEntries(stacks[..|stacks| - 1]) + [Entry(last.subtypeId, last.amount)]
  }

  /** Entries of concatenated stacks are the concatenated entries. */
  lemma {:induction false} SubtypeEntriesAppend(a: seq<Stack>, b: seq<Stack>)
    ensures SubtypeEntries(a + b) == SubtypeEntries(a) + SubtypeEntries(b)
    decreases |b|
  {
    if |b| == 0 {
      assert a + b == a;
    } else {
      assert (a + b)[..|a + b| - 1] == a + b[..|b| - 1];
      SubtypeEntriesAppend(a, b[..|b| - 1]);
    }
  }

  /** One more stack adds its entry at the end. */
  lemma SubtypeEntriesSnoc(items: seq<Stack>, j: nat)
    requires j < |items|
    ensures SubtypeEntries(items[..j + 1]) == SubtypeEntries(items[..j]) + [Entry(items[j].subtypeId, items[j].amount)]
  {
    assert items[..j + 1][..j] == items[..j];
  }
}
