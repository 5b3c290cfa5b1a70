/**
  The logistics core's decisions as pure functions of a world snapshot: which
  blocks form each tagged group, which blocks are sorted, where an item is
  routed, which transfers one sorting run and one vacuum run make, the
  display-mode toggle and the manifest rows. The host's TransferItemTo is the
  oracle `transfer`, which says whether an attempted move succeeds.
 */
module Routing {
  import opened Wrappers
  import opened Text
  import opened Tally
  import opened World
  import opened Ranking

  const TagOre := "[Ore]"
  const TagIngot := "[Ingot]"
  const TagComp := "[Comp]"
  const TagAmmo := "[Ammo]"
  const TagTool := "[Tool]"
  const TagIce := "[Ice]"
  const TagFuel := "[Fuel]"
  const TagIgnore := "[Ignore]"
  /** Assemblers with this in their name are never vacuumed. */
  const TagFuelAssembly := "[FuelAssembly]"

  /** Successful moves after which one sorting run stops. */
  const ItemsPerTick: nat := 25
  /** DASHBOARD and MANIFEST. */
  const DisplayModeCount: nat := 2
  const ManifestRows: nat := 14
  const NameWidth: nat := 20

  /** One call of TransferItemTo: slot `slot` of inventory `inventory` of block
      `source` into inventory 0 of block `dest` (blocks and slots by index). */
  datatype Attempt = Attempt(source: nat, inventory: nat, slot: nat, dest: nat)

  // ---------------------------------------------------------------------------
  // Display mode (CYCLE)

  function NextMode(mode: nat): (r: nat)
    requires mode < DisplayModeCount
    ensures r < DisplayModeCount && r != mode
  {
    if mode + 1 >= DisplayModeCount then 0 else mode + 1
  }

  /** Two CYCLE commands bring the display back to the mode it started in. */
  lemma CycleTwiceRestores(mode: nat)
    requires mode < DisplayModeCount
    ensures NextMode(NextMode(mode)) == mode
  {
  }

  // ---------------------------------------------------------------------------
  // Block lists

  /** The filters the script hands to GetBlocksOfType. */
  datatype Filter =
    | Tagged(tag: string)  // GetContainersWithTag: has an inventory, name contains the tag
    | SortSource           // SortInventory's sources: has an inventory and is sortable
    | AnAssembler          // every IMyAssembler

  predicate Passes(f: Filter, b: Block) {
    match f
    case Tagged(tag) => HasInventory(b) && Contains(b.name, tag)
    case SortSource => HasInventory(b) && IsSortable(b)
    case AnAssembler => Assembler in b.kinds
  }

  /** GetBlocksOfType with a filter: the indices of the blocks that pass, in order. */
  function Select(w: seq<Block>, f: Filter): seq<nat> {
    if |w| == 0 then []
    else
      var rest := Select(w[..|w| - 1], f);
      if Passes(f, w[|w| - 1]) then rest + [|w| - 1] else rest
  }

  /** Exactly the blocks that pass are selected, each once, in grid order. */
  lemma {:induction false} SelectIff(w: seq<Block>, f: Filter)
    ensures forall i :: i in Select(w, f) <==> 0 <= i < |w| && Passes(f, w[i])
    ensures forall a, b :: 0 <= a < b < |Select(w, f)| ==> Select(w, f)[a] < Select(w, f)[b]
  {
    if |w| > 0 {
      var init := w[..|w| - 1];
      SelectIff(init, f);
      var rest := Select(init, f);
      assert forall i :: 0 <= i < |init| ==> init[i] == w[i];
      forall a | 0 <= a < |rest|
        ensures rest[a] < |w| - 1
      {
        assert rest[a] in rest;
      }
    }
  }

  /** GetContainersWithTag. */
  function GroupOf(w: seq<Block>, tag: string): seq<nat> {
    Select(w, Tagged(tag))
  }

  /** A tagged group holds exactly the blocks with an inventory whose name contains the tag. */
  lemma GroupOfIff(w: seq<Block>, tag: string)
    ensures forall i :: i in GroupOf(w, tag) <==> 0 <= i < |w| && HasInventory(w[i]) && Contains(w[i].name, tag)
  {
    SelectIff(w, Tagged(tag));
  }

  /** The block interfaces whose blocks are never emptied by sorting. */
  const Unsortable: set<Kind> :=
    {PowerProducer, Refinery, Assembler, LargeTurret, UserControllableGun, GasGenerator, GasTank}

  predicate IsSortable(b: Block) {
    if Contains(b.name, TagIgnore) then false
    else if Contains(b.name, "Charger") then false
    else if PowerProducer in b.kinds then false
    else if Refinery in b.kinds then false
    else if Assembler in b.kinds then false
    else if LargeTurret in b.kinds then false
    else if UserControllableGun in b.kinds then false
    else if GasGenerator in b.kinds then false
    else if GasTank in b.kinds then false
    else true
  }

  /** A block is sorted exactly when its name has neither "[Ignore]" nor "Charger"
      and it implements none of the excluded interfaces. */
  lemma IsSortableIff(b: Block)
    ensures IsSortable(b) <==> !Contains(b.name, TagIgnore) && !Contains(b.name, "Charger") && b.kinds !! Unsortable
  {
    if b.kinds !! Unsortable {
      assert forall k :: k in Unsortable ==> k !in b.kinds;
    }
  }

  /** The blocks SortInventory empties. */
  function Sources(w: seq<Block>): (r: seq<nat>)
    ensures forall t :: t in r ==> t < |w|
  {
    SelectIff(w, SortSource);
    Select(w, SortSource)
  }

  // ---------------------------------------------------------------------------
  // Classification

  datatype Category = Fuel | Ice | Ore | Ingot | Comp | Ammo | Tool

  function TagOf(c: Category): string {
    match c
    case Fuel => TagFuel
    case Ice => TagIce
    case Ore => TagOre
    case Ingot => TagIngot
    case Comp => TagComp
    case Ammo => TagAmmo
    case Tool => TagTool
  }

  const Categories: seq<Category> := [Fuel, Ice, Ore, Ingot, Comp, Ammo, Tool]

  lemma CategoriesComplete(c: Category)
    ensures c in Categories
  {
    match c
    case Fuel => assert Categories[0] == c;
    case Ice => assert Categories[1] == c;
    case Ore => assert Categories[2] == c;
    case Ingot => assert Categories[3] == c;
    case Comp => assert Categories[4] == c;
    case Ammo => assert Categories[5] == c;
    case Tool => assert Categories[6] == c;
  }

  /** The categories whose tagged group is not empty. */
  function Present(w: seq<Block>): set<Category> {
    set c | c in Categories && |GroupOf(w, TagOf(c))| > 0
  }

  /** A category is present exactly when its group has a member. */
  lemma PresentIff(w: seq<Block>, c: Category)
    ensures c in Present(w) <==> |GroupOf(w, TagOf(c))| > 0
  {
    CategoriesComplete(c);
  }

  predicate Protected(subtypeId: string) {
    Contains(subtypeId, "Powerbank_")
  }

  predicate FuelName(subtypeId: string) {
    Contains(subtypeId, "Petroleum") || Contains(subtypeId, "Petrol") || Contains(subtypeId, "Kerosene")
    || Contains(subtypeId, "Oil") || Contains(subtypeId, "Fuel") || Contains(subtypeId, "Diesel")
  }

  predicate ToolType(typeId: string) {
    EndsWith(typeId, "PhysicalGunObject") || EndsWith(typeId, "GasContainerObject")
    || EndsWith(typeId, "OxygenContainerObject")
  }

  /** The group SortInventory tries for an item, or None when it leaves the item alone. */
  function Route(typeId: string, subtypeId: string, present: set<Category>): (r: Option<Category>)
    ensures Protected(subtypeId) ==> r.None?
    ensures r.Some? ==> r.value in present
    ensures r == Some(Fuel) <==> !Protected(subtypeId) && FuelName(subtypeId) && Fuel in present
    ensures r == Some(Ice) ==> EndsWith(typeId, "Ore") && subtypeId == "Ice"
    ensures r == Some(Ore) ==> EndsWith(typeId, "Ore") && !(subtypeId == "Ice" && Ice in present)
    ensures r == Some(Ingot) ==> EndsWith(typeId, "Ingot")
    ensures r == Some(Comp) ==> EndsWith(typeId, "Component")
    ensures r == Some(Ammo) ==> EndsWith(typeId, "AmmoMagazine")
    ensures r == Some(Tool) ==> ToolType(typeId)
  {
    if Protected(subtypeId) then None
    else if FuelName(subtypeId) && Fuel in present then Some(Fuel)
    else if EndsWith(typeId, "Ore") then
      if subtypeId == "Ice" && Ice in present then Some(Ice)
      else if Ore in present then Some(Ore)
      else None
    else if EndsWith(typeId, "Ingot") then (if Ingot in present then Some(Ingot) else None)
    else if EndsWith(typeId, "Component") then (if Comp in present then Some(Comp) else None)
    else if EndsWith(typeId, "AmmoMagazine") then (if Ammo in present then Some(Ammo) else None)
    else if ToolType(typeId) then (if Tool in present then Some(Tool) else None)
    else None
  }

  /** A fuel-named item without any [Fuel] container falls through to the type
      rules; an ore goes to [Ice] when it is Ice and [Ice] exists, else to [Ore]. */
  lemma RouteOreRule(typeId: string, subtypeId: string, present: set<Category>)
    requires !Protected(subtypeId) && !(FuelName(subtypeId) && Fuel in present)
    requires EndsWith(typeId, "Ore")
    ensures Route(typeId, subtypeId, present)
            == if subtypeId == "Ice" && Ice in present then Some(Ice)
               else if Ore in present then Some(Ore)
               else None
  {
  }

  /** Past the protected, fuel and ore rules, the first type suffix that matches
      decides: an ingot goes to [Ingot], a component to [Components], a magazine to
      [Ammo], a tool to [Tools], each only when such a container exists; an item
      with none of these types stays where it is. */
  lemma RouteTypeRule(typeId: string, subtypeId: string, present: set<Category>)
    requires !Protected(subtypeId) && !(FuelName(subtypeId) && Fuel in present)
    requires !EndsWith(typeId, "Ore")
    ensures EndsWith(typeId, "Ingot") ==>
      Route(typeId, subtypeId, present) == if Ingot in present then Some(Ingot) else None
    ensures !EndsWith(typeId, "Ingot") && EndsWith(typeId, "Component") ==>
      Route(typeId, subtypeId, present) == if Comp in present then Some(Comp) else None
    ensures !EndsWith(typeId, "Ingot") && !EndsWith(typeId, "Component") && EndsWith(typeId, "AmmoMagazine") ==>
      Route(typeId, subtypeId, present) == if Ammo in present then Some(Ammo) else None
    ensures !EndsWith(typeId, "Ingot") && !EndsWith(typeId, "Component") && !EndsWith(typeId, "AmmoMagazine")
            && ToolType(typeId) ==>
      Route(typeId, subtypeId, present) == if Tool in present then Some(Tool) else None
    ensures !EndsWith(typeId, "Ingot") && !EndsWith(typeId, "Component") && !EndsWith(typeId, "AmmoMagazine")
            && !ToolType(typeId) ==>
      Route(typeId, subtypeId, present) == None
  {
  }

  // ---------------------------------------------------------------------------
  // TryMove

  /** The block has an inventory 0 to receive items. */
  predicate Receiver(w: seq<Block>, d: nat) {
    d < |w| && HasInventory(w[d])
  }

  /** TryMove's test for one target: it is not full and the transfer succeeds. */
  predicate Open(w: seq<Block>, transfer: Attempt -> bool, a: Attempt)
    requires Receiver(w, a.dest)
  {
    !w[a.dest].inventories[0].full && transfer(a)
  }

  /** The first position from `k` on whose target takes the item. */
  function FirstOpen(w: seq<Block>, transfer: Attempt -> bool, s: nat, i: nat, j: nat,
                     targets: seq<nat>, k: nat): (r: Option<nat>)
    requires forall t :: t in targets ==> Receiver(w, t)
    requires k <= |targets|
    ensures r.Some? ==>
      k <= r.value < |targets| && Open(w, transfer, Attempt(s, i, j, targets[r.value]))
      && forall q :: k <= q < r.value ==> !Open(w, transfer, Attempt(s, i, j, targets[q]))
    ensures r.None? ==> forall q :: k <= q < |targets| ==> !Open(w, transfer, Attempt(s, i, j, targets[q]))
    decreases |targets| - k
  {
    if k == |targets| then None
    else if Open(w, transfer, Attempt(s, i, j, targets[k])) then Some(k)
    else FirstOpen(w, transfer, s, i, j, targets, k + 1)
  }

  /** TryMove: the position of the target that received the item, or None. An item
      whose block already carries the target tag is never moved; otherwise the
      first target that is not full and accepts the transfer receives it. */
  function TryMove(w: seq<Block>, transfer: Attempt -> bool, s: nat, i: nat, j: nat,
                   targets: seq<nat>, tag: string): (r: Option<nat>)
    requires s < |w|
    requires forall t :: t in targets ==> Receiver(w, t)
    ensures Contains(w[s].name, tag) ==> r.None?
    ensures r.Some? ==>
      r.value < |targets| && Open(w, transfer, Attempt(s, i, j, targets[r.value]))
      && forall q :: 0 <= q < r.value ==> !Open(w, transfer, Attempt(s, i, j, targets[q]))
    ensures r.None? && !Contains(w[s].name, tag) ==>
      forall q :: 0 <= q < |targets| ==> !Open(w, transfer, Attempt(s, i, j, targets[q]))
  {
    if Contains(w[s].name, tag) then None
    else FirstOpen(w, transfer, s, i, j, targets, 0)
  }

  // ---------------------------------------------------------------------------
  // One sorting run (SortInventory)

  /** Slot `j` of inventory `i` of block `s` exists. */
  predicate SlotOf(w: seq<Block>, s: nat, i: nat, j: nat) {
    s < |w| && i < |w[s].inventories| && j < |w[s].inventories[i].items|
  }

  /** The move SortInventory makes for one item, if any; `present` is the set of
      categories whose destination group exists, looked up once per run. */
  function ItemMove(w: seq<Block>, transfer: Attempt -> bool, present: set<Category>, s: nat, i: nat, j: nat): Option<Attempt>
    requires SlotOf(w, s, i, j)
  {
    var item := w[s].inventories[i].items[j];
    match Route(item.typeId, item.subtypeId, present)
    case None => None
    case Some(c) =>
      var targets := GroupOf(w, TagOf(c));
      GroupOfIff(w, TagOf(c));
      match TryMove(w, transfer, s, i, j, targets, TagOf(c))
      case None => None
      case Some(q) => Some(Attempt(s, i, j, targets[q]))
  }

  function Moves(m: Option<Attempt>): seq<Attempt> {
    if m.Some? then [m.value] else []
  }

  // The outcomes of a run are laid out as tables: per inventory, the outcome of
  // each slot; per block, one such row per inventory; per run, one block table
  // per source block. A table is tied to ItemMove only through these predicates.

  /** `outs` holds the outcome of every slot of inventory `i` of block `s`. */
  predicate SlotTable(w: seq<Block>, transfer: Attempt -> bool, present: set<Category>, s: nat, i: nat,
                      outs: seq<Option<Attempt>>) {
    s < |w| && i < |w[s].inventories| && |outs| == |w[s].inventories[i].items|
    && forall j {:trigger ItemMove(w, transfer, present, s, i, j)} ::
         0 <= j < |outs| ==> outs[j] == ItemMove(w, transfer, present, s, i, j)
  }

  /** `t` holds the slot table of every inventory of block `s`. */
  predicate BlockTable(w: seq<Block>, transfer: Attempt -> bool, present: set<Category>, s: nat,
                       t: seq<seq<Option<Attempt>>>) {
    s < |w| && |t| == |w[s].inventories|
    && forall i :: 0 <= i < |t| ==> SlotTable(w, transfer, present, s, i, t[i])
  }

  /** `plan` holds the block table of every source block, in order. */
  predicate PassTable(w: seq<Block>, transfer: Attempt -> bool, present: set<Category>, srcs: seq<nat>,
                      plan: seq<seq<seq<Option<Attempt>>>>) {
    |plan| == |srcs| && forall p :: 0 <= p < |plan| ==> BlockTable(w, transfer, present, srcs[p], plan[p])
  }

  function Outcomes(w: seq<Block>, transfer: Attempt -> bool, present: set<Category>, s: nat, i: nat)
    : (r: seq<Option<Attempt>>)
    requires s < |w| && i < |w[s].inventories|
    ensures SlotTable(w, transfer, present, s, i, r)
  {
    seq(|w[s].inventories[i].items|, j requires 0 <= j < |w[s].inventories[i].items| =>
      ItemMove(w, transfer, present, s, i, j))
  }

  function BlockOutcomes(w: seq<Block>, transfer: Attempt -> bool, present: set<Category>, s: nat)
    : (r: seq<seq<Option<Attempt>>>)
    requires s < |w|
    ensures BlockTable(w, transfer, present, s, r)
  {
    seq(|w[s].inventories|, i requires 0 <= i < |w[s].inventories| => Outcomes(w, transfer, present, s, i))
  }

  function Plan(w: seq<Block>, transfer: Attempt -> bool, present: set<Category>, srcs: seq<nat>)
    : (r: seq<seq<seq<Option<Attempt>>>>)
    requires forall t :: t in srcs ==> t < |w|
    ensures PassTable(w, transfer, present, srcs, r)
  {
    seq(|srcs|, p requires 0 <= p < |srcs| =>
      assert srcs[p] in srcs;
      BlockOutcomes(w, transfer, present, srcs[p]))
  }

  /** The moves for slots |outs|-1 down to `j`, in the order the script makes them. */
  function SlotsFrom(outs: seq<Option<Attempt>>, j: nat): seq<Attempt>
    requires j <= |outs|
    decreases |outs| - j
  {
    if j == |outs| then [] else SlotsFrom(outs, j + 1) + Moves(outs[j])
  }

  lemma {:induction false} SlotsFromMembers(outs: seq<Option<Attempt>>, j: nat)
    requires j <= |outs|
    ensures forall m :: m in SlotsFrom(outs, j) ==> exists k :: j <= k < |outs| && outs[k] == Some(m)
    decreases |outs| - j
  {
    if j < |outs| {
      SlotsFromMembers(outs, j + 1);
    }
  }

  lemma {:induction false} SlotsFromGrows(outs: seq<Option<Attempt>>, j: nat)
    requires j <= |outs|
    ensures SlotsFrom(outs, j) <= SlotsFrom(outs, 0)
    decreases j
  {
    if j > 0 {
      SlotsFromGrows(outs, j - 1);
    }
  }

  /** The moves of the first `i` inventories of a block table, each inventory last slot first. */
  function InvMoves(t: seq<seq<Option<Attempt>>>, i: nat): seq<Attempt>
    requires i <= |t|
  {
    if i == 0 then [] else InvMoves(t, i - 1) + SlotsFrom(t[i - 1], 0)
  }

  lemma {:induction false} InvMovesGrows(t: seq<seq<Option<Attempt>>>, i: nat)
    requires i <= |t|
    ensures InvMoves(t, i) <= InvMoves(t, |t|)
    decreases |t| - i
  {
    if i < |t| {
      InvMovesGrows(t, i + 1);
    }
  }

  lemma InvMovesNext(t: seq<seq<Option<Attempt>>>, i: nat)
    requires i < |t|
    ensures InvMoves(t, i + 1) == InvMoves(t, i) + SlotsFrom(t[i], 0)
    ensures InvMoves(t, i + 1) <= InvMoves(t, |t|)
  {
    InvMovesGrows(t, i + 1);
  }

  /** The moves of the first `p` blocks of a run's table. */
  function PassMoves(plan: seq<seq<seq<Option<Attempt>>>>, p: nat): seq<Attempt>
    requires p <= |plan|
  {
    if p == 0 then [] else PassMoves(plan, p - 1) + InvMoves(plan[p - 1], |plan[p - 1]|)
  }

  lemma {:induction false} PassMovesGrows(plan: seq<seq<seq<Option<Attempt>>>>, p: nat)
    requires p <= |plan|
    ensures PassMoves(plan, p) <= PassMoves(plan, |plan|)
    decreases |plan| - p
  {
    if p < |plan| {
      PassMovesGrows(plan, p + 1);
    }
  }

  lemma PassMovesNext(plan: seq<seq<seq<Option<Attempt>>>>, p: nat)
    requires p < |plan|
    ensures PassMoves(plan, p + 1) == PassMoves(plan, p) + InvMoves(plan[p], |plan[p]|)
    ensures PassMoves(plan, p + 1) <= PassMoves(plan, |plan|)
  {
    PassMovesGrows(plan, p + 1);
  }

  /** Every successful move one unbudgeted sorting pass would make, in order. */
  function SortMoves(w: seq<Block>, transfer: Attempt -> bool): seq<Attempt> {
    PassMoves(Plan(w, transfer, Present(w), Sources(w)), |Sources(w)|)
  }

  /** The run stops right after its 25th successful move. */
  function Budget(moves: seq<Attempt>): (r: seq<Attempt>)
    ensures |r| <= ItemsPerTick && r <= moves
    ensures |moves| <= ItemsPerTick ==> r == moves
  {
    if |moves| <= ItemsPerTick then moves else moves[..ItemsPerTick]
  }

  /** What a sorting move may be: out of a sortable block, along the item's route,
      never out of a block already carrying the destination tag, into a member of
      the destination group that is not full, by a transfer that succeeded. */
  predicate LegalMove(w: seq<Block>, transfer: Attempt -> bool, m: Attempt) {
    SlotOf(w, m.source, m.inventory, m.slot)
    && HasInventory(w[m.source]) && IsSortable(w[m.source])
    && var item := w[m.source].inventories[m.inventory].items[m.slot];
       var c := Route(item.typeId, item.subtypeId, Present(w));
       c.Some?
       && !Contains(w[m.source].name, TagOf(c.value))
       && m.dest in GroupOf(w, TagOf(c.value))
       && Receiver(w, m.dest)
       && !w[m.dest].inventories[0].full
       && transfer(m)
  }

  lemma ItemMoveLegal(w: seq<Block>, transfer: Attempt -> bool, s: nat, i: nat, j: nat)
    requires SlotOf(w, s, i, j) && HasInventory(w[s]) && IsSortable(w[s])
    ensures var m := ItemMove(w, transfer, Present(w), s, i, j);
      m.Some? ==> LegalMove(w, transfer, m.value) && m.value.source == s
  {
    var item := w[s].inventories[i].items[j];
    var c := Route(item.typeId, item.subtypeId, Present(w));
    if c.Some? {
      var targets := GroupOf(w, TagOf(c.value));
      GroupOfIff(w, TagOf(c.value));
      var q := TryMove(w, transfer, s, i, j, targets, TagOf(c.value));
      if q.Some? {
        assert targets[q.value] in targets;
      }
    }
  }

  lemma SlotMovesLegal(w: seq<Block>, transfer: Attempt -> bool, s: nat, i: nat, outs: seq<Option<Attempt>>)
    requires SlotTable(w, transfer, Present(w), s, i, outs) && HasInventory(w[s]) && IsSortable(w[s])
    ensures forall m :: m in SlotsFrom(outs, 0) ==> LegalMove(w, transfer, m) && m.source == s
  {
    SlotsFromMembers(outs, 0);
    forall m | m in SlotsFrom(outs, 0)
      ensures LegalMove(w, transfer, m) && m.source == s
    {
      var j :| 0 <= j < |outs| && outs[j] == Some(m);
      ItemMoveLegal(w, transfer, s, i, j);
    }
  }

  lemma {:induction false} InvMovesLegal(w: seq<Block>, transfer: Attempt -> bool, s: nat,
                                         t: seq<seq<Option<Attempt>>>, i: nat)
    requires BlockTable(w, transfer, Present(w), s, t) && HasInventory(w[s]) && IsSortable(w[s])
    requires i <= |t|
    ensures forall m :: m in InvMoves(t, i) ==> LegalMove(w, transfer, m) && m.source == s
  {
    if i > 0 {
      InvMovesLegal(w, transfer, s, t, i - 1);
      SlotMovesLegal(w, transfer, s, i - 1, t[i - 1]);
    }
  }

  lemma {:induction false} PassMovesLegal(w: seq<Block>, transfer: Attempt -> bool,
                                          plan: seq<seq<seq<Option<Attempt>>>>, p: nat)
    requires PassTable(w, transfer, Present(w), Sources(w), plan)
    requires p <= |plan|
    ensures forall m :: m in PassMoves(plan, p) ==> LegalMove(w, transfer, m)
  {
    if p > 0 {
      var srcs := Sources(w);
      SelectIff(w, SortSource);
      assert srcs[p - 1] in srcs;
      PassMovesLegal(w, transfer, plan, p - 1);
      InvMovesLegal(w, transfer, srcs[p - 1], plan[p - 1], |plan[p - 1]|);
    }
  }

  /** Every move of a sorting run is legal, and a run makes at most 25 of them. */
  lemma SortRunLegal(w: seq<Block>, transfer: Attempt -> bool)
    ensures |Budget(SortMoves(w, transfer))| <= ItemsPerTick
    ensures forall m :: m in Budget(SortMoves(w, transfer)) ==> LegalMove(w, transfer, m)
  {
    SelectIff(w, SortSource);
    PassMovesLegal(w, transfer, Plan(w, transfer, Present(w), Sources(w)), |Sources(w)|);
    var all := SortMoves(w, transfer);
    assert forall m :: m in Budget(all) ==> m in all;
  }

  // ---------------------------------------------------------------------------
  // One vacuum run (VacuumAssemblers)

  /** Every assembler has an input inventory (GetInventory(0)). */
  predicate AssemblersHaveInventory(w: seq<Block>) {
    forall i :: 0 <= i < |w| && Assembler in w[i].kinds ==> HasInventory(w[i])
  }

  /** CurrentVolume / MaxVolume > 0.8, compared without division. */
  predicate Overfull(inv: Inventory) {
    inv.volume * 5.0 > inv.maxVolume * 4.0
  }

  predicate Reclaimable(item: Stack) {
    EndsWith(item.typeId, "Ingot") || EndsWith(item.typeId, "Ore")
  }

  /** The first position from `k` on whose target takes the item; full targets are tried too. */
  function FirstTaker(transfer: Attempt -> bool, a: nat, j: nat, targets: seq<nat>, k: nat): (r: Option<nat>)
    requires k <= |targets|
    ensures r.Some? ==>
      k <= r.value < |targets| && transfer(Attempt(a, 0, j, targets[r.value]))
      && forall q :: k <= q < r.value ==> !transfer(Attempt(a, 0, j, targets[q]))
    ensures r.None? ==> forall q :: k <= q < |targets| ==> !transfer(Attempt(a, 0, j, targets[q]))
    decreases |targets| - k
  {
    if k == |targets| then None
    else if transfer(Attempt(a, 0, j, targets[k])) then Some(k)
    else FirstTaker(transfer, a, j, targets, k + 1)
  }

  /** The moves for the first `n` items of assembler `a`'s input inventory. */
  function InputMoves(w: seq<Block>, transfer: Attempt -> bool, a: nat, targets: seq<nat>, n: nat): seq<Attempt>
    requires a < |w| && HasInventory(w[a]) && n <= |w[a].inventories[0].items|
  {
    if n == 0 then []
    else
      var rest := InputMoves(w, transfer, a, targets, n - 1);
      if !Reclaimable(w[a].inventories[0].items[n - 1]) then rest
      else
        match FirstTaker(transfer, a, n - 1, targets, 0)
        case None => rest
        case Some(q) => rest + [Attempt(a, 0, n - 1, targets[q])]
  }

  /** The moves out of one assembler: none for fuel assemblies, none unless forced or over 80% full. */
  function AssemblerMoves(w: seq<Block>, transfer: Attempt -> bool, a: nat, targets: seq<nat>, force: bool): seq<Attempt>
    requires a < |w| && HasInventory(w[a])
  {
    if Contains(w[a].name, TagFuelAssembly) then []
    else if force || Overfull(w[a].inventories[0]) then
      InputMoves(w, transfer, a, targets, |w[a].inventories[0].items|)
    else []
  }

  function AssemblerList(w: seq<Block>): (r: seq<nat>)
    ensures forall t :: t in r ==> t < |w| && Assembler in w[t].kinds
  {
    SelectIff(w, AnAssembler);
    Select(w, AnAssembler)
  }

  /** The moves out of the first `n` assemblers of `asms`. */
  function AssemblersMoves(w: seq<Block>, transfer: Attempt -> bool, asms: seq<nat>, targets: seq<nat>,
                           force: bool, n: nat): seq<Attempt>
    requires forall t :: t in asms ==> t < |w| && HasInventory(w[t])
    requires n <= |asms|
  {
    if n == 0 then []
    else
      assert asms[n - 1] in asms;
      AssemblersMoves(w, transfer, asms, targets, force, n - 1) + AssemblerMoves(w, transfer, asms[n - 1], targets, force)
  }

  lemma AssemblerListHaveInventory(w: seq<Block>)
    requires AssemblersHaveInventory(w)
    ensures forall t :: t in AssemblerList(w) ==> t < |w| && HasInventory(w[t])
  {
  }

  lemma AssemblersMovesNext(w: seq<Block>, transfer: Attempt -> bool, asms: seq<nat>, targets: seq<nat>,
                            force: bool, k: nat)
    requires forall t :: t in asms ==> t < |w| && HasInventory(w[t])
    requires k < |asms|
    ensures asms[k] < |w| && HasInventory(w[asms[k]])
    ensures AssemblersMoves(w, transfer, asms, targets, force, k + 1)
         == AssemblersMoves(w, transfer, asms, targets, force, k) + AssemblerMoves(w, transfer, asms[k], targets, force)
  {
    assert asms[k] in asms;
  }

  /** Every move one vacuum run makes, in order. */
  function VacuumMoves(w: seq<Block>, transfer: Attempt -> bool, force: bool): seq<Attempt>
    requires AssemblersHaveInventory(w)
  {
    var targets := GroupOf(w, TagIngot);
    if |targets| == 0 then []
    else
      var asms := AssemblerList(w);
      SelectIff(w, AnAssembler);
      AssemblersMoves(w, transfer, asms, targets, force, |asms|)
  }

  /** What a vacuum move may be: an ingot or ore out of the input inventory of an
      assembler that is not a fuel assembly and is forced or over 80% full, into
      an [Ingot] container, by a transfer that succeeded. */
  predicate VacuumLegal(w: seq<Block>, transfer: Attempt -> bool, force: bool, m: Attempt) {
    m.source < |w| && Assembler in w[m.source].kinds && HasInventory(w[m.source])
    && !Contains(w[m.source].name, TagFuelAssembly)
    && m.inventory == 0 && m.slot < |w[m.source].inventories[0].items|
    && Reclaimable(w[m.source].inventories[0].items[m.slot])
    && (force || Overfull(w[m.source].inventories[0]))
    && m.dest in GroupOf(w, TagIngot)
    && transfer(m)
  }

  lemma {:induction false} InputMovesLegal(w: seq<Block>, transfer: Attempt -> bool, force: bool, a: nat, n: nat)
    requires a < |w| && Assembler in w[a].kinds && HasInventory(w[a]) && n <= |w[a].inventories[0].items|
    requires !Contains(w[a].name, TagFuelAssembly) && (force || Overfull(w[a].inventories[0]))
    ensures forall m :: m in InputMoves(w, transfer, a, GroupOf(w, TagIngot), n) ==> VacuumLegal(w, transfer, force, m)
  {
    if n > 0 {
      InputMovesLegal(w, transfer, force, a, n - 1);
    }
  }

  lemma {:induction false} AssemblersMovesLegal(w: seq<Block>, transfer: Attempt -> bool, force: bool, n: nat)
    requires AssemblersHaveInventory(w) && n <= |AssemblerList(w)|
    ensures forall m :: m in AssemblersMoves(w, transfer, AssemblerList(w), GroupOf(w, TagIngot), force, n)
                        ==> VacuumLegal(w, transfer, force, m)
  {
    if n > 0 {
      var asms := AssemblerList(w);
      assert asms[n - 1] in asms;
      SelectIff(w, AnAssembler);
      AssemblersMovesLegal(w, transfer, force, n - 1);
      var a := asms[n - 1];
      if !Contains(w[a].name, TagFuelAssembly) && (force || Overfull(w[a].inventories[0])) {
        InputMovesLegal(w, transfer, force, a, |w[a].inventories[0].items|);
      }
    }
  }

  /** Every vacuum move is legal; hence a run without any [Ingot] container moves
      nothing, and fuel assemblies and output inventories are never touched. */
  lemma VacuumRunLegal(w: seq<Block>, transfer: Attempt -> bool, force: bool)
    requires AssemblersHaveInventory(w)
    ensures forall m :: m in VacuumMoves(w, transfer, force) ==> VacuumLegal(w, transfer, force, m)
    ensures |GroupOf(w, TagIngot)| == 0 ==> VacuumMoves(w, transfer, force) == []
  {
    if |GroupOf(w, TagIngot)| > 0 {
      SelectIff(w, AnAssembler);
      AssemblersMovesLegal(w, transfer, force, |AssemblerList(w)|);
    }
  }

  // ---------------------------------------------------------------------------
  // Manifest

  datatype ManifestRow = ManifestRow(name: string, quantity: Amount)

  /** key.PadRight(20).Substring(0, 20). */
  function NameColumn(key: string): (r: string)
    ensures |r| == NameWidth
    ensures |key| >= NameWidth ==> r == key[..NameWidth]
    ensures |key| < NameWidth ==> r[..|key|] == key && forall i :: |key| <= i < NameWidth ==> r[i] == ' '
  {
    PadRight(key, NameWidth)[..NameWidth]
  }

  /** Each key of `order` keyed by its negated amount, in order. */
  function KeyedBy(order: seq<string>, counts: map<string, Amount>): seq<Keyed<string>>
    requires forall k :: k in order ==> k in counts
  {
    seq(|order|, i requires 0 <= i < |order| => Keyed(-(counts[order[i]] as real), order[i]))
  }

  /** OrderByDescending on the amounts: the keys of `order`, each keyed by its
      negated amount, rearranged so the largest amount comes first. */
  function ByQuantity(order: seq<string>, counts: map<string, Amount>): (r: seq<Keyed<string>>)
    requires forall k :: k in order ==> k in counts
    ensures Ascending(r) && |r| == |order|
    ensures multiset(r) == multiset(KeyedBy(order, counts))
    ensures forall i :: 0 <= i < |r| ==> r[i].item in order && r[i].key == -(counts[r[i].item] as real)
  {
    var keyed := KeyedBy(order, counts);
    var sorted := Sort(keyed);
    forall i | 0 <= i < |sorted|
      ensures sorted[i] in keyed
    {
      assert sorted[i] in multiset(sorted);
    }
    sorted
  }

  /** The keys the manifest shows: the first fourteen of the ranking. */
  function Shown(order: seq<string>, counts: map<string, Amount>): (s: seq<string>)
    requires forall k :: k in order ==> k in counts
    ensures |s| == if |order| < ManifestRows then |order| else ManifestRows
  {
    var ranked := ByQuantity(order, counts);
    var n := if |ranked| < ManifestRows then |ranked| else ManifestRows;
    seq(n, i requires 0 <= i < n => ranked[i].item)
  }

  /** The manifest rows: the fourteen largest amounts, largest first, with fixed-width names. */
  function Manifest(order: seq<string>, counts: map<string, Amount>): (rows: seq<ManifestRow>)
    requires forall k :: k in order ==> k in counts
    ensures |rows| == if |order| < ManifestRows then |order| else ManifestRows
    ensures forall i, j :: 0 <= i < j < |rows| ==> rows[i].quantity >= rows[j].quantity
    ensures forall i :: 0 <= i < |rows| ==> |rows[i].name| == NameWidth
  {
    var ranked := ByQuantity(order, counts);
    var n := if |ranked| < ManifestRows then |ranked| else ManifestRows;
    seq(n, i requires 0 <= i < n => ManifestRow(NameColumn(ranked[i].item), counts[ranked[i].item]))
  }

  /** Row `i` names the `i`-th shown key, a key of the tally, and carries its amount. */
  lemma ManifestRowsRanked(order: seq<string>, counts: map<string, Amount>)
    requires forall k :: k in order ==> k in counts
    ensures var rows := Manifest(order, counts);
      var shown := Shown(order, counts);
      |rows| == |shown|
      && forall i :: 0 <= i < |rows| ==>
           shown[i] in order && rows[i] == ManifestRow(NameColumn(shown[i]), counts[shown[i]])
  {
  }

  /** Every key of the tally is ranked: it stands somewhere in the ranking. */
  lemma RankedSomewhere(order: seq<string>, counts: map<string, Amount>, k: string)
    requires forall k :: k in order ==> k in counts
    requires k in order
    ensures exists p :: 0 <= p < |order| && ByQuantity(order, counts)[p].item == k
  {
    var keyed := KeyedBy(order, counts);
    var ranked := ByQuantity(order, counts);
    var j :| 0 <= j < |order| && order[j] == k;
    assert keyed[j] in multiset(keyed);
    assert keyed[j] in ranked;
  }

  /** No key of the tally that the manifest leaves out has a larger amount than a row shown. */
  lemma ManifestShowsLargest(order: seq<string>, counts: map<string, Amount>)
    requires forall k :: k in order ==> k in counts
    ensures var rows := Manifest(order, counts);
      forall k, i :: k in order && k !in Shown(order, counts) && 0 <= i < |rows| ==> counts[k] <= rows[i].quantity
  {
    var rows := Manifest(order, counts);
    var ranked := ByQuantity(order, counts);
    var shown := Shown(order, counts);
    PrefixRanksFirst(ranked, |rows|);
    forall j | 0 <= j < |shown|
      ensures ranked[j].item in shown
    {
      assert shown[j] == ranked[j].item;
    }
    forall k, i | k in order && k !in shown && 0 <= i < |rows|
      ensures counts[k] <= rows[i].quantity
    {
      RankedSomewhere(order, counts, k);
      var p :| 0 <= p < |order| && ranked[p].item == k;
      assert ranked[i] in ranked[..|rows|];
      assert ranked[p] in ranked[|rows|..];
    }
  }

  /** The manifest of a list of entries: per key, the summed amount, in
      first-seen order before ranking. */
  function EntriesManifest(e: seq<Entry>): (rows: seq<ManifestRow>) {
    AddAllCounts(map[], e, "");
    Manifest(FirstSeen(e), AddAll(map[], e))
  }

  /** The manifest of a world: the manifest of every stack of every inventory. */
  function ManifestOf(w: seq<Block>): (rows: seq<ManifestRow>) {
    EntriesManifest(SubtypeEntries(Stacks(w)))
  }

  /** The manifest shows min(14, number of distinct subtypes) rows, largest first,
      each the total amount of one subtype (for a world, `e` is
      `SubtypeEntries(Stacks(w))`). */
  lemma ManifestTotals(e: seq<Entry>)
    ensures var rows := EntriesManifest(e);
      |rows| == (if |FirstSeen(e)| < ManifestRows then |FirstSeen(e)| else ManifestRows)
      && (forall i, j :: 0 <= i < j < |rows| ==> rows[i].quantity >= rows[j].quantity)
      && forall i :: 0 <= i < |rows| ==>
           exists k :: k in KeysOf(e) && rows[i] == ManifestRow(NameColumn(k), Total(e, k))
  {
    var counts := AddAll(map[], e);
    AddAllCounts(map[], e, "");
    var order := FirstSeen(e);
    ManifestRowsRanked(order, counts);
    var rows := EntriesManifest(e);
    var ranked := ByQuantity(order, counts);
    forall i | 0 <= i < |rows|
      ensures exists k :: k in KeysOf(e) && rows[i] == ManifestRow(NameColumn(k), Total(e, k))
    {
      var k := ranked[i].item;
      AddAllCounts(map[], e, k);
      assert rows[i] == ManifestRow(NameColumn(k), Total(e, k));
    }
  }

  // ---------------------------------------------------------------------------
  // The LCD

  /** What UpdateDisplay writes, without the text: the header's moved count and,
      in MANIFEST mode, the rows. The dashboard's capacity bars are not modelled. */
  datatype Screen = Dashboard(moved: nat) | ManifestScreen(moved: nat, rows: seq<ManifestRow>)

  /** The screen for a world, whether the LCD exists, the mode and the moved total. */
  function View(w: seq<Block>, lcd: bool, mode: nat, moved: nat): (r: Option<Screen>)
    requires mode < DisplayModeCount
    ensures r.None? <==> !lcd
    ensures r.Some? ==> r.value.moved == moved
    ensures r.Some? && mode == 0 ==> r.value.Dashboard?
    ensures r.Some? && mode == 1 ==> r.value == ManifestScreen(moved, ManifestOf(w))
  {
    if !lcd then None
    else if mode == 0 then Some(Dashboard(moved))
    else Some(ManifestScreen(moved, ManifestOf(w)))
  }
}
