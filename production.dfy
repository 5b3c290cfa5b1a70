/**
  The production manager of the base heartbeat script: the catalog, the stock
  and queue snapshots it rebuilds every tick, the choice of assembler for an
  order, and one production pass over the catalog, as pure functions.
  The imperative loops that compute these live in module Heartbeat.
 */
module Production {
  import opened Wrappers
  import opened Text
  import opened Tally
  import World

  /** ManageProduction runs on ticks whose counter is a multiple of this. */
  const CheckInterval: nat := 60
  /** Init re-discovers the blocks on ticks whose counter is a multiple of this. */
  const ReinitInterval: nat := 300
  /** The largest order a single pass places for one entry. */
  const MaxBatch: nat := 100
  /** An entry with more than this already queued is not ordered again. */
  const PendingLimit: real := 10.0
  /** int.MaxValue: the initial "shortest queue so far" of the assembler scan. */
  const IntMax: int := 0x7fff_ffff

  /** A catalog row: inventory id (also used as the blueprint name), target stock, assembler group. */
  datatype ItemReq = ItemReq(id: string, target: int, tag: string)

  const Catalog: seq<ItemReq> := [
      ItemReq("SteelPlate",          10000, "[AutoAssembler]"),
      ItemReq("InteriorPlate",        6000, "[AutoAssembler]"),
      ItemReq("SmallTube",            5000, "[AutoAssembler]"),
      ItemReq("LargeTube",            2000, "[AutoAssembler]"),
      ItemReq("MetalGrid",            4000, "[AutoAssembler]"),
      ItemReq("Girder",               2000, "[AutoAssembler]"),
      ItemReq("SteelGirder",          1500, "[AutoAssembler]"),
      ItemReq("BulletproofGlass",     2000, "[AutoAssembler]"),
      ItemReq("Construction",         8000, "[AutoAssembler]"),
      ItemReq("Steel",                5000, "[AutoSlave]"),
      ItemReq("Motor",                3000, "[AutoSlave]"),
      ItemReq("Computer",             2000, "[AutoSlave]"),
      ItemReq("RadioCommunication",    100, "[AutoSlave]"),
      ItemReq("Detector",             1000, "[AutoSlave]"),
      ItemReq("Display",              1500, "[AutoSlave]"),
      ItemReq("Explosives",            100, "[AutoSlave]"),
      ItemReq("Thrust",               1000, "[AutoSlave]"),
      ItemReq("Reactor",               500, "[AutoSlave]"),
      ItemReq("GravityGenerator",      500, "[AutoSlave]"),
      ItemReq("Medical",                50, "[AutoSlave]"),
      ItemReq("SolarCell",            1500, "[AutoSlave]"),
      ItemReq("PowerCell",             250, "[AutoSlave]"),
      ItemReq("TitaniumPlate",        5000, "[AutoSlave]"),
      ItemReq("CompositePlate",       3000, "[AutoSlave]"),
      ItemReq("TitaniumTube",         2000, "[AutoSlave]"),
      ItemReq("OctocoreComponent",     500, "[AutoSlave]"),
      ItemReq("AdvancedMotor",        2000, "[AutoSlave]"),
      ItemReq("Circuit",              1000, "[AutoSlave]"),
      ItemReq("CPU",                   500, "[AutoSlave]"),
      ItemReq("Magnet",                500, "[AutoSlave]"),
      ItemReq("Superconductor",        450, "[AutoSlave]"),
      ItemReq("UltraConductor",        150, "[AutoSlave]"),
      ItemReq("Heatsink",              300, "[AutoSlave]"),
      ItemReq("LED",                   200, "[AutoSlave]"),
      ItemReq("Kevlar",                200, "[AutoSlave]"),
      ItemReq("Nylon",                 300, "[AutoSlave]"),
      ItemReq("Polycarbonate",         500, "[AutoSlave]"),
      ItemReq("Tyre",                  500, "[AutoSlave]"),
      ItemReq("SiTyre",                 50, "[AutoSlave]"),
      ItemReq("CopperWire",           1000, "[AutoSlave]"),
      ItemReq("GoldWire",             1000, "[AutoSlave]"),
      ItemReq("SteelWire",             400, "[AutoSlave]"),
      ItemReq("Optic",                 200, "[AutoSlave]"),
      ItemReq("OilToPlastic",         2000, "[AutoSlave]"),
      ItemReq("OilToRubber",          2000, "[AutoSlave]"),
      ItemReq("IceToPerchlorate",     3000, "[AutoSlave]"),
      ItemReq("Kerosene",             2000, "[FuelAssembly]"),
      ItemReq("Gunpowder",           10000, "[FuelAssembly]"),
      ItemReq("Flashpowder",         10000, "[FuelAssembly]")
    ]

  /** Raw inventory ids that also count towards a catalog id. */
  const Aliases: map<string, string> := map[
      "Plastic" := "OilToPlastic",
      "Rubber" := "OilToRubber",
      "PotassiumPerchlorate" := "IceToPerchlorate",
      "Nitre" := "IceToPerchlorate",
      "AdvancedCircuit" := "Circuit",
      "NeodymiumMagnet" := "Magnet",
      "FlashPowder" := "Flashpowder",
      "10GHzCPU" := "OctocoreComponent",
      "SuitPowerbank" := "SuitPowerbank_2",
      "Powerbank" := "SuitPowerbank_2"
    ]

  /** The assembler groups, in the order Init creates them (and ScanQueues enumerates them). */
  const GroupTags: seq<string> := ["[AutoAssembler]", "[AutoSlave]", "[FuelAssembly]"]

  /** MyProductionItem: blueprint subtype name and amount. */
  datatype QueueItem = QueueItem(blueprint: string, amount: Amount)

  /** IMyAssembler as the production manager sees it. */
  datatype Assembler = Assembler(name: string, working: bool, functional: bool, queue: seq<QueueItem>)

  /** An assembler as Init caches it: a reference to the block (its id) and the name
      it had then. The group lists are filtered by that name once, at discovery. */
  datatype Member = Member(id: nat, name: string)

  /** Init's assembler discovery: each found assembler with its current name. */
  function Discover(found: seq<nat>, grid: nat -> Assembler): seq<Member> {
    seq(|found|, i requires 0 <= i < |found| => Member(found[i], grid(found[i]).name))
  }

  /** The cached assemblers as a run sees them through their references: current
      flags and queue, in the groups their cached names put them in. */
  function Live(members: seq<Member>, grid: nat -> Assembler): seq<Assembler> {
    seq(|members|, i requires 0 <= i < |members| => grid(members[i].id).(name := members[i].name))
  }

  /** Read at the moment of discovery, the cache is exactly the assemblers found. */
  lemma DiscoveredAsFound(found: seq<nat>, grid: nat -> Assembler)
    ensures Live(Discover(found, grid), grid) == seq(|found|, i requires 0 <= i < |found| => grid(found[i]))
  {
  }

  /** A run's view depends on the current state of the cached blocks alone: blocks
      added or changed elsewhere are not seen until the next discovery, and a renamed
      member keeps the groups it had. */
  lemma LiveSeesCachedOnly(members: seq<Member>, a: nat -> Assembler, b: nat -> Assembler)
    requires forall m :: m in members ==>
               a(m.id).working == b(m.id).working && a(m.id).functional == b(m.id).functional
               && a(m.id).queue == b(m.id).queue
    ensures Live(members, a) == Live(members, b)
  {
    assert forall i :: 0 <= i < |members| ==> members[i] in members;
  }

  predicate UniqueIds(reqs: seq<ItemReq>) {
    forall i, j :: 0 <= i < j < |reqs| ==> reqs[i].id != reqs[j].id
  }

  // ---------------------------------------------------------------------------
  // Stock snapshot (ScanInventory / AddInv)

  /** The additions one stack makes: its id, its alias, and its "Component" variant. */
  function Credit(s: World.Stack): seq<Entry> {
    [Entry(s.subtypeId, s.amount)]
    + (if s.subtypeId in Aliases then [Entry(Aliases[s.subtypeId], s.amount)] else [])
    + (if EndsWith(s.subtypeId, "Component") then [] else [Entry(s.subtypeId + "Component", s.amount)])
  }

  function Contributions(stacks: seq<World.Stack>): seq<Entry> {
    if |stacks| == 0 then []
    else Contributions(stacks[..|stacks| - 1]) + Credit(stacks[|stacks| - 1])
  }

  /** The stock map after scanning `stacks` from an empty map. */
  function InventoryOf(stacks: seq<World.Stack>): map<string, Amount> {
    AddAll(map[], Contributions(stacks))
  }

  lemma {:induction false} ContributionsAppend(a: seq<World.Stack>, b: seq<World.Stack>)
    ensures Contributions(a + b) == Contributions(a) + Contributions(b)
  {
    if |b| > 0 {
      assert (a + b)[..|a + b| - 1] == a + b[..|b| - 1];
      ContributionsAppend(a, b[..|b| - 1]);
    } else {
      assert a + b == a;
    }
  }

  /** Scanning `a` and then `b` is continuing the map of `a` with `b`'s additions. */
  lemma InventoryOfAppend(a: seq<World.Stack>, b: seq<World.Stack>)
    ensures InventoryOf(a + b) == AddAll(InventoryOf(a), Contributions(b))
  {
    ContributionsAppend(a, b);
    AddAllAppend(map[], Contributions(a), Contributions(b));
  }

  /** Whether stack `s` is credited to key `k`. */
  predicate Credits(s: World.Stack, k: string) {
    s.subtypeId == k
    || (s.subtypeId in Aliases && Aliases[s.subtypeId] == k)
    || (!EndsWith(s.subtypeId, "Component") && s.subtypeId + "Component" == k)
  }

  /** How much of key `k` stack `s` is credited with, counting each rule that applies. */
  function CreditFor(s: World.Stack, k: string): Amount {
    (if s.subtypeId == k then s.amount else 0.0)
    + (if s.subtypeId in Aliases && Aliases[s.subtypeId] == k then s.amount else 0.0)
    + (if !EndsWith(s.subtypeId, "Component") && s.subtypeId + "Component" == k then s.amount else 0.0)
  }

  lemma InventoryAppend(stacks: seq<World.Stack>, s: World.Stack)
    ensures InventoryOf(stacks + [s]) == AddAll(InventoryOf(stacks), Credit(s))
  {
    assert (stacks + [s])[..|stacks|] == stacks;
    AddAllAppend(map[], Contributions(stacks), Credit(s));
  }

  /** The amount entry `e` holds for `k`. */
  function Part(e: Entry, k: string): Amount {
    if e.key == k then e.amount else 0.0
  }

  /** The total of at most one entry. */
  lemma TotalOptional(b: seq<Entry>, k: string)
    requires |b| <= 1
    ensures Total(b, k) == if |b| == 1 then Part(b[0], k) else 0.0
  {
    if |b| == 1 {
      TotalSingle(b[0], k);
    }
  }

  /** Totals and keys of one entry followed by two optional ones. */
  lemma ThreeParts(x: Entry, b: seq<Entry>, c: seq<Entry>, k: string)
    requires |b| <= 1 && |c| <= 1
    ensures Total([x] + b + c, k)
            == Part(x, k) + (if |b| == 1 then Part(b[0], k) else 0.0) + (if |c| == 1 then Part(c[0], k) else 0.0)
    ensures KeysOf([x] + b + c) == {x.key} + KeysOf(b) + KeysOf(c)
  {
    var xb := [x] + b;
    TotalAppend(xb, c, k);
    TotalAppend([x], b, k);
    TotalOptional([x], k);
    TotalOptional(b, k);
    TotalOptional(c, k);
    KeysOfAppend(xb, c);
    KeysOfAppend([x], b);
  }

  /** The total a stack's additions hold for `k` is what the stack credits to `k`. */
  lemma TotalCredit(s: World.Stack, k: string)
    ensures Total(Credit(s), k) == CreditFor(s, k)
    ensures k in KeysOf(Credit(s)) <==> Credits(s, k)
  {
    var b := if s.subtypeId in Aliases then [Entry(Aliases[s.subtypeId], s.amount)] else [];
    var c := if EndsWith(s.subtypeId, "Component") then [] else [Entry(s.subtypeId + "Component", s.amount)];
    ThreeParts(Entry(s.subtypeId, s.amount), b, c, k);
  }

  /** Scanning one more stack changes each key by exactly what that stack credits
      to it, and creates exactly the keys it is credited to. */
  lemma {:induction false} InventoryStep(stacks: seq<World.Stack>, s: World.Stack, k: string)
    ensures Get(InventoryOf(stacks + [s]), k) == Get(InventoryOf(stacks), k) + CreditFor(s, k)
    ensures k in InventoryOf(stacks + [s]) <==> k in InventoryOf(stacks) || Credits(s, k)
  {
    InventoryAppend(stacks, s);
    AddAllCounts(InventoryOf(stacks), Credit(s), k);
    TotalCredit(s, k);
  }

  /** An aliased stack counts in full both under its own id and under the catalog id it aliases. */
  lemma AliasFolding(stacks: seq<World.Stack>, s: World.Stack)
    requires s.subtypeId in Aliases
    ensures Get(InventoryOf(stacks + [s]), s.subtypeId) >= Get(InventoryOf(stacks), s.subtypeId) + s.amount
    ensures Get(InventoryOf(stacks + [s]), Aliases[s.subtypeId])
            >= Get(InventoryOf(stacks), Aliases[s.subtypeId]) + s.amount
  {
    InventoryStep(stacks, s, s.subtypeId);
    InventoryStep(stacks, s, Aliases[s.subtypeId]);
  }

  // ---------------------------------------------------------------------------
  // Queue snapshot (ScanQueues)

  /** Group membership: the tag occurs in the assembler's name. */
  predicate InGroup(a: Assembler, tag: string) {
    Contains(a.name, tag)
  }

  function QueueEntries(q: seq<QueueItem>): seq<Entry> {
    if |q| == 0 then []
    else QueueEntries(q[..|q| - 1]) + [Entry(q[|q| - 1].blueprint, q[|q| - 1].amount)]
  }

  /** Tallying one more queue item is one more insert-or-increment. */
  lemma QueueEntriesNext(m: map<string, Amount>, q: seq<QueueItem>, j: nat)
    requires j < |q|
    ensures AddAll(m, QueueEntries(q[..j + 1])) == Add(AddAll(m, QueueEntries(q[..j])), q[j].blueprint, q[j].amount)
  {
    assert q[..j + 1][..j] == q[..j];
    AddAllSnoc(m, QueueEntries(q[..j]), Entry(q[j].blueprint, q[j].amount));
  }

  /** The queue items of the working members of one group, in list order. */
  function GroupEntries(all: seq<Assembler>, tag: string): seq<Entry> {
    if |all| == 0 then []
    else
      var a := all[|all| - 1];
      GroupEntries(all[..|all| - 1], tag) + (if InGroup(a, tag) && a.working then QueueEntries(a.queue) else [])
  }

  function TagsEntries(all: seq<Assembler>, tags: seq<string>): seq<Entry> {
    if |tags| == 0 then []
    else TagsEntries(all, tags[..|tags| - 1]) + GroupEntries(all, tags[|tags| - 1])
  }

  /** The queued-amount map ScanQueues rebuilds from an empty map. */
  function QueuedOf(all: seq<Assembler>): map<string, Amount> {
    AddAll(map[], TagsEntries(all, GroupTags))
  }

  /** `a` and `b` differ at most in the queues of assemblers that are not working. */
  predicate SameWorkingQueues(a: seq<Assembler>, b: seq<Assembler>) {
    |a| == |b|
    && forall i :: 0 <= i < |a| ==>
         a[i].name == b[i].name && a[i].working == b[i].working && (a[i].working ==> a[i].queue == b[i].queue)
  }

  lemma {:induction false} GroupEntriesIgnoreIdle(a: seq<Assembler>, b: seq<Assembler>, tag: string)
    requires SameWorkingQueues(a, b)
    ensures GroupEntries(a, tag) == GroupEntries(b, tag)
  {
    if |a| > 0 {
      GroupEntriesIgnoreIdle(a[..|a| - 1], b[..|b| - 1], tag);
    }
  }

  lemma {:induction false} TagsEntriesIgnoreIdle(a: seq<Assembler>, b: seq<Assembler>, tags: seq<string>)
    requires SameWorkingQueues(a, b)
    ensures TagsEntries(a, tags) == TagsEntries(b, tags)
  {
    if |tags| > 0 {
      TagsEntriesIgnoreIdle(a, b, tags[..|tags| - 1]);
      GroupEntriesIgnoreIdle(a, b, tags[|tags| - 1]);
    }
  }

  /** Assemblers that are not working contribute nothing to the queue snapshot. */
  lemma IdleAssemblersIgnored(a: seq<Assembler>, b: seq<Assembler>)
    requires SameWorkingQueues(a, b)
    ensures QueuedOf(a) == QueuedOf(b)
  {
    TagsEntriesIgnoreIdle(a, b, GroupTags);
  }

  // ---------------------------------------------------------------------------
  // RESET

  /** Whether the assembler belongs to one of `tags`' groups. */
  predicate InAnyGroup(a: Assembler, tags: seq<string>) {
    |tags| > 0 && (InAnyGroup(a, tags[..|tags| - 1]) || InGroup(a, tags[|tags| - 1]))
  }

  /** An assembler after ClearQueue has run for every group in `tags` that lists it. */
  function Cleared(a: Assembler, tags: seq<string>): Assembler {
    if InAnyGroup(a, tags) then a.(queue := []) else a
  }

  /** All assemblers after RESET. */
  function ClearGroups(all: seq<Assembler>): seq<Assembler> {
    seq(|all|, i requires 0 <= i < |all| => Cleared(all[i], GroupTags))
  }

  lemma {:induction false} InAnyGroupOf(a: Assembler, tags: seq<string>, g: nat)
    requires g < |tags| && InGroup(a, tags[g])
    ensures InAnyGroup(a, tags)
    decreases |tags|
  {
    if g < |tags| - 1 {
      assert tags[..|tags| - 1][g] == tags[g];
      InAnyGroupOf(a, tags[..|tags| - 1], g);
    }
  }

  lemma {:induction false} GroupEntriesOfEmptyQueues(all: seq<Assembler>, tag: string)
    requires forall i :: 0 <= i < |all| && InGroup(all[i], tag) ==> all[i].queue == []
    ensures GroupEntries(all, tag) == []
  {
    if |all| > 0 {
      GroupEntriesOfEmptyQueues(all[..|all| - 1], tag);
    }
  }

  lemma {:induction false} TagsEntriesAfterClear(all: seq<Assembler>, n: nat)
    requires n <= |GroupTags|
    ensures TagsEntries(ClearGroups(all), GroupTags[..n]) == []
  {
    if n > 0 {
      var cleared := ClearGroups(all);
      assert GroupTags[..n][..n - 1] == GroupTags[..n - 1];
      TagsEntriesAfterClear(all, n - 1);
      forall i | 0 <= i < |cleared| && InGroup(cleared[i], GroupTags[n - 1])
        ensures cleared[i].queue == []
      {
        InAnyGroupOf(all[i], GroupTags, n - 1);
      }
      GroupEntriesOfEmptyQueues(cleared, GroupTags[n - 1]);
    }
  }

  /** After RESET the queue snapshot is empty: every queue it reads was cleared. */
  lemma ResetEmptiesBacklog(all: seq<Assembler>)
    ensures QueuedOf(ClearGroups(all)) == map[]
  {
    TagsEntriesAfterClear(all, |GroupTags|);
    assert GroupTags[..|GroupTags|] == GroupTags;
  }

  // ---------------------------------------------------------------------------
  // Choosing an assembler (Queue)

  predicate Eligible(a: Assembler) {
    a.working && a.functional
  }

  /** Assembler `j` is a working, functional member of `tag`'s group. */
  predicate Candidate(all: seq<Assembler>, tag: string, j: nat)
    requires j < |all|
  {
    InGroup(all[j], tag) && Eligible(all[j])
  }

  /** The state of Queue's scan: the assembler chosen so far and its queue length. */
  datatype Pick = Pick(best: Option<nat>, minQ: int)

  /** Queue's scan over the first `n` assemblers: the first candidate with the
      shortest queue, where only queues shorter than int.MaxValue qualify. */
  function ScanShortest(all: seq<Assembler>, tag: string, n: nat): (p: Pick)
    requires n <= |all|
    ensures p.best.None? ==>
      p.minQ == IntMax && forall j :: 0 <= j < n && Candidate(all, tag, j) ==> |all[j].queue| >= IntMax
    ensures p.best.Some? ==>
      var i := p.best.value;
      i < n && Candidate(all, tag, i) && p.minQ == |all[i].queue| < IntMax
      && (forall j :: 0 <= j < n && Candidate(all, tag, j) ==> |all[i].queue| <= |all[j].queue|)
      && (forall j :: 0 <= j < i && Candidate(all, tag, j) ==> |all[i].queue| < |all[j].queue|)
  {
    if n == 0 then Pick(None, IntMax)
    else
      var p := ScanShortest(all, tag, n - 1);
      if Candidate(all, tag, n - 1) && |all[n - 1].queue| < p.minQ then Pick(Some(n - 1), |all[n - 1].queue|)
      else p
  }

  function Shortest(all: seq<Assembler>, tag: string): Option<nat> {
    ScanShortest(all, tag, |all|).best
  }

  /** Queue's decision: the index of the assembler that receives the order, or None
      when it returns false. `accepted` holds the blueprint names the host can parse
      and queue. */
  function TryQueue(all: seq<Assembler>, name: string, tag: string, accepted: set<string>): (r: Option<nat>)
    ensures r.Some? ==>
      var i := r.value;
      tag in GroupTags && name in accepted && i < |all| && Candidate(all, tag, i)
      && (forall j :: 0 <= j < |all| && Candidate(all, tag, j) ==> |all[i].queue| <= |all[j].queue|)
      && (forall j :: 0 <= j < i && Candidate(all, tag, j) ==> |all[i].queue| < |all[j].queue|)
    ensures r.None? <==>
      tag !in GroupTags || name !in accepted
      || forall j :: 0 <= j < |all| && Candidate(all, tag, j) ==> |all[j].queue| >= IntMax
  {
    if tag !in GroupTags then None
    else
      match Shortest(all, tag)
      case None => None
      case Some(i) => if name in accepted then Some(i) else None
  }

  /** AddQueueItem on assembler `i`. */
  function Enqueue(all: seq<Assembler>, i: nat, name: string, amount: Amount): (r: seq<Assembler>)
    requires i < |all|
    ensures |r| == |all|
    ensures r[i].name == all[i].name && r[i].working == all[i].working && r[i].functional == all[i].functional
    ensures r[i].queue == all[i].queue + [QueueItem(name, amount)]
    ensures forall j :: 0 <= j < |r| && j != i ==> r[j] == all[j]
  {
    all[i := all[i].(queue := all[i].queue + [QueueItem(name, amount)])]
  }

  // ---------------------------------------------------------------------------
  // One production pass (ManageProduction)

  /** (int) of a non-negative double: truncation, which is the floor here. */
  function Trunc(x: Amount): int {
    x.Floor
  }

  /** The batch ManageProduction orders for `req`, or None when it skips the entry. */
  function Decide(req: ItemReq, inventory: map<string, Amount>, queued: map<string, Amount>): (r: Option<nat>)
    ensures r.None? <==> Get(inventory, req.id) >= req.target as real || Get(queued, req.id) > PendingLimit
    ensures r.Some? ==> 1 <= r.value <= MaxBatch
    ensures r.Some? ==> Get(inventory, req.id) + r.value as real < req.target as real + 1.0
    ensures r.Some? && r.value < MaxBatch ==> Get(inventory, req.id) + r.value as real >= req.target as real
  {
    var current := Get(inventory, req.id);
    if current >= req.target as real then None
    else if Get(queued, req.id) > PendingLimit then None
    else
      var needed := req.target - Trunc(current);
      Some(if needed < MaxBatch then needed else MaxBatch)
  }

  /** The assemblers and the queued-amount map, which a pass updates together. */
  datatype Plant = Plant(assemblers: seq<Assembler>, queued: map<string, Amount>)

  /** One catalog entry of ManageProduction. */
  function Step(p: Plant, req: ItemReq, inventory: map<string, Amount>, accepted: set<string>): Plant {
    match Decide(req, inventory, p.queued)
    case None => p
    case Some(batch) =>
      match TryQueue(p.assemblers, req.id, req.tag, accepted)
      case None => p
      case Some(i) => Plant(Enqueue(p.assemblers, i, req.id, batch as real), Add(p.queued, req.id, batch as real))
  }

  /** ManageProduction over `reqs`, in order. */
  function Pass(p: Plant, reqs: seq<ItemReq>, inventory: map<string, Amount>, accepted: set<string>): Plant {
    if |reqs| == 0 then p
    else Step(Pass(p, reqs[..|reqs| - 1], inventory, accepted), reqs[|reqs| - 1], inventory, accepted)
  }

  /** The pass over one more catalog entry is one more step. */
  lemma PassNext(p: Plant, reqs: seq<ItemReq>, k: nat, inventory: map<string, Amount>, accepted: set<string>)
    requires k < |reqs|
    ensures Pass(p, reqs[..k + 1], inventory, accepted) == Step(Pass(p, reqs[..k], inventory, accepted), reqs[k], inventory, accepted)
  {
    assert reqs[..k + 1][..k] == reqs[..k];
  }

  /** The amount of blueprint `k` on the queues of all assemblers. */
  function Backlog(all: seq<Assembler>, k: string): Amount {
    if |all| == 0 then 0.0
    else Backlog(all[..|all| - 1], k) + Total(QueueEntries(all[|all| - 1].queue), k)
  }

  lemma {:induction false} BacklogEnqueue(all: seq<Assembler>, i: nat, name: string, amount: Amount, k: string)
    requires i < |all|
    ensures Backlog(Enqueue(all, i, name, amount), k) == Backlog(all, k) + (if name == k then amount else 0.0)
  {
    var r := Enqueue(all, i, name, amount);
    var last := |all| - 1;
    assert r[..last] == (if i == last then all[..last] else Enqueue(all[..last], i, name, amount));
    if i == last {
      var q := all[i].queue;
      assert (q + [QueueItem(name, amount)])[..|q|] == q;
    } else {
      BacklogEnqueue(all[..last], i, name, amount, k);
    }
  }

  /** One entry moves the queued map and the assemblers' queues together: the
      amount recorded for a key grows by exactly what was put on a queue under
      that key, and no key but the entry's own changes. */
  lemma StepAccounting(p: Plant, req: ItemReq, inventory: map<string, Amount>, accepted: set<string>, k: string)
    ensures var s := Step(p, req, inventory, accepted);
      Get(s.queued, k) - Get(p.queued, k) == Backlog(s.assemblers, k) - Backlog(p.assemblers, k)
      && (k != req.id ==> Get(s.queued, k) == Get(p.queued, k))
      && s.queued.Keys <= p.queued.Keys + {req.id}
      && |s.assemblers| == |p.assemblers|
  {
    var d := Decide(req, inventory, p.queued);
    var t := TryQueue(p.assemblers, req.id, req.tag, accepted);
    if d.Some? && t.Some? {
      BacklogEnqueue(p.assemblers, t.value, req.id, d.value as real, k);
    }
  }

  /** The same accounting over a whole pass. */
  lemma {:induction false} PassAccounting(p: Plant, reqs: seq<ItemReq>, inventory: map<string, Amount>,
                                          accepted: set<string>, k: string)
    ensures var s := Pass(p, reqs, inventory, accepted);
      Get(s.queued, k) - Get(p.queued, k) == Backlog(s.assemblers, k) - Backlog(p.assemblers, k)
      && ((forall r :: r in reqs ==> r.id != k) ==> Get(s.queued, k) == Get(p.queued, k))
      && Get(s.queued, k) >= Get(p.queued, k)
  {
    if |reqs| > 0 {
      var init := reqs[..|reqs| - 1];
      PassAccounting(p, init, inventory, accepted, k);
      StepAccounting(Pass(p, init, inventory, accepted), reqs[|reqs| - 1], inventory, accepted, k);
      assert forall r :: r in init ==> r in reqs;
    }
  }

  /** With distinct ids, no entry before the last shares the last one's id. */
  lemma EarlierIdsDiffer(reqs: seq<ItemReq>)
    requires UniqueIds(reqs) && |reqs| > 0
    ensures forall r :: r in reqs[..|reqs| - 1] ==> r.id != reqs[|reqs| - 1].id
  {
    forall r | r in reqs[..|reqs| - 1]
      ensures r.id != reqs[|reqs| - 1].id
    {
      var j :| 0 <= j < |reqs| - 1 && reqs[..|reqs| - 1][j] == r;
      assert reqs[j] == r;
    }
  }

  /** An id whose entry comes last in a pass grows at most by that entry's batch. */
  lemma LastEntryGrowth(p: Plant, reqs: seq<ItemReq>, inventory: map<string, Amount>, accepted: set<string>)
    requires UniqueIds(reqs) && |reqs| > 0
    ensures var last := reqs[|reqs| - 1];
      var s := Pass(p, reqs, inventory, accepted);
      var d := Decide(last, inventory, p.queued);
      Get(s.queued, last.id) == Get(p.queued, last.id)
      || (d.Some? && Get(s.queued, last.id) == Get(p.queued, last.id) + d.value as real)
  {
    var init := reqs[..|reqs| - 1];
    var last := reqs[|reqs| - 1];
    var mid := Pass(p, init, inventory, accepted);
    EarlierIdsDiffer(reqs);
    PassAccounting(p, init, inventory, accepted, last.id);
    StepAccounting(mid, last, inventory, accepted, last.id);
    assert Decide(last, inventory, mid.queued) == Decide(last, inventory, p.queued);
  }

  /** Over a pass with distinct ids, an id's queued amount grows by nothing or by
      exactly the batch its entry asks for in the state the pass started from. */
  lemma {:induction false} PassGrowth(p: Plant, reqs: seq<ItemReq>, inventory: map<string, Amount>,
                                      accepted: set<string>, id: string)
    requires UniqueIds(reqs)
    ensures var s := Pass(p, reqs, inventory, accepted);
      Get(s.queued, id) == Get(p.queued, id)
      || exists k :: 0 <= k < |reqs| && reqs[k].id == id && Decide(reqs[k], inventory, p.queued).Some?
                     && Get(s.queued, id) == Get(p.queued, id) + Decide(reqs[k], inventory, p.queued).value as real
  {
    if |reqs| > 0 {
      var init := reqs[..|reqs| - 1];
      var last := reqs[|reqs| - 1];
      var mid := Pass(p, init, inventory, accepted);
      var s := Pass(p, reqs, inventory, accepted);
      if last.id == id {
        LastEntryGrowth(p, reqs, inventory, accepted);
      } else {
        StepAccounting(mid, last, inventory, accepted, id);
        assert Get(s.queued, id) == Get(mid.queued, id);
        PassGrowth(p, init, inventory, accepted, id);
        if Get(mid.queued, id) != Get(p.queued, id) {
          var k :| 0 <= k < |init| && init[k].id == id && Decide(init[k], inventory, p.queued).Some?
                   && Get(mid.queued, id) == Get(p.queued, id) + Decide(init[k], inventory, p.queued).value as real;
          assert reqs[k] == init[k];
        }
      }
    }
  }

  /** Two passes in immediate succession, with no rescan between them, order at
      most one batch cap of any entry: a batch above the pending limit suppresses
      the second order, and a smaller batch can only be repeated once. */
  lemma TwoPassesWithinCap(p: Plant, reqs: seq<ItemReq>, inventory: map<string, Amount>,
                           accepted: set<string>, id: string)
    requires UniqueIds(reqs)
    ensures var once := Pass(p, reqs, inventory, accepted);
      var twice := Pass(once, reqs, inventory, accepted);
      Get(twice.queued, id) <= Get(p.queued, id) + MaxBatch as real
      && (Get(once.queued, id) > Get(p.queued, id) + PendingLimit ==> Get(twice.queued, id) == Get(once.queued, id))
  {
    var once := Pass(p, reqs, inventory, accepted);
    var twice := Pass(once, reqs, inventory, accepted);
    PassGrowth(p, reqs, inventory, accepted, id);
    PassGrowth(once, reqs, inventory, accepted, id);
    if Get(once.queued, id) != Get(p.queued, id) && Get(twice.queued, id) != Get(once.queued, id) {
      var k :| 0 <= k < |reqs| && reqs[k].id == id && Decide(reqs[k], inventory, p.queued).Some?
               && Get(once.queued, id) == Get(p.queued, id) + Decide(reqs[k], inventory, p.queued).value as real;
      var k2 :| 0 <= k2 < |reqs| && reqs[k2].id == id && Decide(reqs[k2], inventory, once.queued).Some?
                && Get(twice.queued, id) == Get(once.queued, id) + Decide(reqs[k2], inventory, once.queued).value as real;
      assert k == k2;
    }
  }

  // ---------------------------------------------------------------------------
  // What a pass leaves short

  /** The assemblers keep their names and flags, and each queue grows by at most one item per entry. */
  predicate Grown(a: seq<Assembler>, b: seq<Assembler>, n: nat) {
    |a| == |b|
    && forall i :: 0 <= i < |a| ==>
         b[i].name == a[i].name && b[i].working == a[i].working && b[i].functional == a[i].functional
         && |b[i].queue| <= |a[i].queue| + n
  }

  lemma {:induction false} PassShape(p: Plant, reqs: seq<ItemReq>, inventory: map<string, Amount>, accepted: set<string>)
    ensures Grown(p.assemblers, Pass(p, reqs, inventory, accepted).assemblers, |reqs|)
  {
    if |reqs| > 0 {
      PassShape(p, reqs[..|reqs| - 1], inventory, accepted);
    }
  }

  /** After a pass, every entry whose queues were not saturated is stocked, queued
      beyond the pending limit, without a producer able to take it, or was ordered:
      its queued amount grew. */
  lemma {:induction false} PassCoversShortfalls(p: Plant, reqs: seq<ItemReq>, inventory: map<string, Amount>,
                                                accepted: set<string>, k: nat)
    requires k < |reqs|
    requires forall i :: 0 <= i < |p.assemblers| ==> |p.assemblers[i].queue| + |reqs| < IntMax
    ensures var r := reqs[k];
      var s := Pass(p, reqs, inventory, accepted);
      Get(inventory, r.id) >= r.target as real
      || Get(s.queued, r.id) > PendingLimit
      || r.tag !in GroupTags || r.id !in accepted
      || (forall j :: 0 <= j < |p.assemblers| ==> !Candidate(p.assemblers, r.tag, j))
      || Get(s.queued, r.id) > Get(p.queued, r.id)
  {
    var r := reqs[k];
    var init := reqs[..|reqs| - 1];
    var mid := Pass(p, init, inventory, accepted);
    var s := Pass(p, reqs, inventory, accepted);
    StepAccounting(mid, reqs[|reqs| - 1], inventory, accepted, r.id);
    PassAccounting(p, init, inventory, accepted, r.id);
    if k < |reqs| - 1 {
      assert init[k] == r;
      PassCoversShortfalls(p, init, inventory, accepted, k);
    } else {
      PassShape(p, init, inventory, accepted);
      var d := Decide(r, inventory, mid.queued);
      var t := TryQueue(mid.assemblers, r.id, r.tag, accepted);
      if d.Some? && t.None? && r.tag in GroupTags && r.id in accepted {
        forall j | 0 <= j < |p.assemblers|
          ensures !Candidate(p.assemblers, r.tag, j)
        {
          assert InGroup(p.assemblers[j], r.tag) == InGroup(mid.assemblers[j], r.tag);
        }
      }
    }
  }

  // ---------------------------------------------------------------------------
  // Worked scenarios

  /** A lone eligible member of the group receives every order the host accepts. */
  lemma LoneMemberTakesOrder(asm: Assembler, name: string, tag: string, accepted: set<string>)
    requires tag in GroupTags && name in accepted
    requires InGroup(asm, tag) && Eligible(asm) && |asm.queue| < IntMax
    ensures TryQueue([asm], name, tag, accepted) == Some(0)
  {
    assert Candidate([asm], tag, 0);
  }

  /** 1200 of a 5000-target item (the catalog's SmallTube row, say) in stock,
      nothing queued, one idle assembler in the group: exactly one order of 100
      goes to that assembler and the queued map records 100 at once. */
  lemma ShortfallScenario(req: ItemReq, asm: Assembler)
    requires req.target == 5000 && req.tag in GroupTags
    requires InGroup(asm, req.tag) && Eligible(asm) && asm.queue == []
    ensures var s := Step(Plant([asm], map[]), req, map[req.id := 1200.0], {req.id});
      s.assemblers == [asm.(queue := [QueueItem(req.id, 100.0)])]
      && s.queued == map[req.id := 100.0]
  {
    LoneMemberTakesOrder(asm, req.id, req.tag, {req.id});
    assert Decide(req, map[req.id := 1200.0], map[]) == Some(100);
    assert asm.queue + [QueueItem(req.id, 100.0)] == [QueueItem(req.id, 100.0)];
  }

  /** The same shortfall with 15 already queued is not ordered again. */
  lemma SaturatedScenario(req: ItemReq, asm: Assembler)
    requires req.target == 5000
    ensures var p := Plant([asm], map[req.id := 15.0]);
      Step(p, req, map[req.id := 1200.0], {req.id}) == p
  {
  }
}
