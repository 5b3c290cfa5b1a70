/**
  The logistics router as a stateful object: the running total of moved items
  and the display mode, and the loops that sort, vacuum and count. The world is
  passed in as a snapshot; `transfer` says which TransferItemTo calls succeed;
  `lcd` whether the display exists.
 */
module Logistics {
  import opened Wrappers
  import opened Text
  import opened Tally
  import opened World
  import opened Routing

  /** Where a sorting loop ends, given the moves `done` before it and the moves
      `part` it would make without a budget: either the budget was spent and the
      result is the first 25 moves, or everything was made and fewer than 25. */
  predicate Budgeted(moved: seq<Attempt>, stop: bool, done: seq<Attempt>, part: seq<Attempt>) {
    if stop then ItemsPerTick <= |done + part| && moved == (done + part)[..ItemsPerTick]
    else moved == done + part && |moved| < ItemsPerTick
  }

  /** Once 25 moves are made, later moves do not change the first 25. */
  lemma CutPrefix(done: seq<Attempt>, a: seq<Attempt>, b: seq<Attempt>)
    requires a <= b && ItemsPerTick <= |done + a|
    ensures (done + b)[..ItemsPerTick] == (done + a)[..ItemsPerTick]
  {
    assert forall k :: 0 <= k < ItemsPerTick ==> (done + b)[k] == (done + a)[k];
  }

  /** A loop step that budgets part `b` after the parts `a` before it budgets
      `next == a + b`; once the budget is spent, the rest of `total` does not matter. */
  lemma BudgetStep(done: seq<Attempt>, a: seq<Attempt>, b: seq<Attempt>, next: seq<Attempt>, total: seq<Attempt>,
                   moved: seq<Attempt>, stop: bool)
    requires Budgeted(moved, stop, done + a, b)
    requires next == a + b && next <= total
    ensures stop ==> Budgeted(moved, stop, done, total)
    ensures !stop ==> moved == done + next && |moved| < ItemsPerTick
  {
    assert done + a + b == done + next;
    if stop {
      CutPrefix(done, next, total);
    }
  }

  /** The outermost loop's step: budgeting block moves `b` after the moves `a`
      of the blocks before it; a spent budget is the whole run's budget. */
  lemma RunStep(a: seq<Attempt>, b: seq<Attempt>, next: seq<Attempt>, total: seq<Attempt>, moved: seq<Attempt>, stop: bool)
    requires Budgeted(moved, stop, a, b)
    requires next == a + b && next <= total
    ensures stop ==> moved == Budget(total)
    ensures !stop ==> moved == next && |moved| < ItemsPerTick
  {
    if stop {
      assert moved == next[..ItemsPerTick] == total[..ItemsPerTick];
    }
  }

  /** One item of SortSlots' loop: a move, if any, extends the moves made so far. */
  lemma SlotStep(done: seq<Attempt>, outs: seq<Option<Attempt>>, j: nat, moved: seq<Attempt>, m: Option<Attempt>)
    requires j < |outs| && m == outs[j]
    requires moved == done + SlotsFrom(outs, j + 1)
    ensures (if m.Some? then moved + [m.value] else moved) == done + SlotsFrom(outs, j)
  {
  }

  /** SortSlots stops on the 25th move: those are the first 25 of the unbudgeted moves. */
  lemma SlotsStop(done: seq<Attempt>, outs: seq<Option<Attempt>>, j: nat, moved: seq<Attempt>)
    requires j <= |outs| && moved == done + SlotsFrom(outs, j) && |moved| == ItemsPerTick
    ensures Budgeted(moved, true, done, SlotsFrom(outs, 0))
  {
    SlotsFromGrows(outs, j);
    CutPrefix(done, SlotsFrom(outs, j), SlotsFrom(outs, 0));
  }

  /** Counting one more stack: its key joins the order exactly when it is new,
      and the tally grows by one Add. */
  lemma CountStep(seen: seq<Entry>, e: Entry, order: seq<string>, counts: map<string, Amount>)
    requires order == FirstSeen(seen) && counts == AddAll(map[], seen)
    ensures (if e.key in counts then order else order + [e.key]) == FirstSeen(seen + [e])
    ensures Add(counts, e.key, e.amount) == AddAll(map[], seen + [e])
  {
    AddAllCounts(map[], seen, e.key);
    FirstSeenSnoc(seen, e);
    AddAllSnoc(map[], seen, e);
  }

  /** The entries of one more inventory follow those already scanned. */
  lemma EntriesStep(pre: seq<Stack>, invs: seq<Inventory>, i: nat)
    requires i < |invs|
    ensures SubtypeEntries(pre + InvItems(invs[..i + 1]))
         == SubtypeEntries(pre + InvItems(invs[..i])) + SubtypeEntries(invs[i].items)
  {
    InvItemsStep(invs, i);
    assert pre + InvItems(invs[..i + 1]) == (pre + InvItems(invs[..i])) + invs[i].items;
    SubtypeEntriesAppend(pre + InvItems(invs[..i]), invs[i].items);
  }

  /** The entries scanned after one more stack of the same inventory. */
  lemma EntriesNext(seen: seq<Entry>, items: seq<Stack>, j: nat)
    requires j < |items|
    ensures seen + SubtypeEntries(items[..j + 1])
         == (seen + SubtypeEntries(items[..j])) + [Entry(items[j].subtypeId, items[j].amount)]
  {
    SubtypeEntriesSnoc(items, j);
  }

  class Program {
    var totalMoved: nat
    var displayMode: nat

    ghost predicate Valid()
      reads this
    {
      displayMode < DisplayModeCount
    }

    constructor ()
      ensures Valid() && totalMoved == 0 && displayMode == 0
    {
      totalMoved := 0;
      displayMode := 0;
    }

    /** TryMove's loop over the targets, proved against Routing.TryMove. */
    method TryMove(w: seq<Block>, transfer: Attempt -> bool, s: nat, i: nat, j: nat,
                   targets: seq<nat>, tag: string) returns (q: Option<nat>)
      requires s < |w|
      requires forall t :: t in targets ==> Receiver(w, t)
      ensures q == Routing.TryMove(w, transfer, s, i, j, targets, tag)
    {
      if Contains(w[s].name, tag) {
        return None;
      }
      var k := 0;
      while k < |targets|
        invariant k <= |targets|
        invariant FirstOpen(w, transfer, s, i, j, targets, 0) == FirstOpen(w, transfer, s, i, j, targets, k)
      {
        assert targets[k] in targets;
        var dest := w[targets[k]].inventories[0];
        if !dest.full {
          if transfer(Attempt(s, i, j, targets[k])) {
            return Some(k);
          }
        }
        k := k + 1;
      }
      return None;
    }

    /** The body of SortInventory's innermost loop for one item. */
    method SortItem(w: seq<Block>, transfer: Attempt -> bool, present: set<Category>, s: nat, i: nat, j: nat)
      returns (m: Option<Attempt>)
      requires SlotOf(w, s, i, j)
      ensures m == ItemMove(w, transfer, present, s, i, j)
    {
      var item := w[s].inventories[i].items[j];
      var c := Route(item.typeId, item.subtypeId, present);
      if c.None? {
        return None;
      }
      var targets := GroupOf(w, TagOf(c.value));
      GroupOfIff(w, TagOf(c.value));
      var q := TryMove(w, transfer, s, i, j, targets, TagOf(c.value));
      m := if q.Some? then Some(Attempt(s, i, j, targets[q.value])) else None;
    }

    /** SortInventory's loop over the items of one inventory, last to first.
        `stop` says the run's budget was spent, which ends the whole run. */
    method SortSlots(w: seq<Block>, transfer: Attempt -> bool, present: set<Category>, s: nat, i: nat,
                     ghost outs: seq<Option<Attempt>>, done: seq<Attempt>) returns (moved: seq<Attempt>, stop: bool)
      requires SlotTable(w, transfer, present, s, i, outs)
      requires |done| < ItemsPerTick
      modifies this`totalMoved
      ensures totalMoved + |done| == old(totalMoved) + |moved|
      ensures Budgeted(moved, stop, done, SlotsFrom(outs, 0))
    {
      var items := w[s].inventories[i].items;
      moved, stop := done, false;
      var j: nat := |items|;
      while j > 0
        invariant j <= |items|
        invariant moved == done + SlotsFrom(outs, j)
        invariant |moved| < ItemsPerTick
        invariant totalMoved + |done| == old(totalMoved) + |moved|
      {
        j := j - 1;
        var m := SortItem(w, transfer, present, s, i, j);
        SlotStep(done, outs, j, moved, m);
        if m.Some? {
          moved := moved + [m.value];
          totalMoved := totalMoved + 1;
        }
        if |moved| >= ItemsPerTick {
          SlotsStop(done, outs, j, moved);
          return moved, true;
        }
      }
    }

    /** SortInventory's loop over the inventories of one block. */
    method SortBlock(w: seq<Block>, transfer: Attempt -> bool, present: set<Category>, s: nat,
                     ghost t: seq<seq<Option<Attempt>>>, done: seq<Attempt>) returns (moved: seq<Attempt>, stop: bool)
      requires BlockTable(w, transfer, present, s, t)
      requires |done| < ItemsPerTick
      modifies this`totalMoved
      ensures totalMoved + |done| == old(totalMoved) + |moved|
      ensures Budgeted(moved, stop, done, InvMoves(t, |t|))
    {
      moved, stop := done, false;
      var i := 0;
      while i < |w[s].inventories|
        invariant i <= |t|
        invariant moved == done + InvMoves(t, i)
        invariant |moved| < ItemsPerTick
        invariant totalMoved + |done| == old(totalMoved) + |moved|
      {
        moved, stop := SortSlots(w, transfer, present, s, i, t[i], moved);
        InvMovesNext(t, i);
        BudgetStep(done, InvMoves(t, i), SlotsFrom(t[i], 0), InvMoves(t, i + 1), InvMoves(t, |t|), moved, stop);
        if stop {
          return;
        }
        i := i + 1;
      }
    }

    /** SortInventory's loop over the source blocks. */
    method SortSources(w: seq<Block>, transfer: Attempt -> bool, present: set<Category>, srcs: seq<nat>,
                       ghost plan: seq<seq<seq<Option<Attempt>>>>) returns (moved: seq<Attempt>)
      requires PassTable(w, transfer, present, srcs, plan)
      modifies this`totalMoved
      ensures moved == Budget(PassMoves(plan, |plan|))
      ensures totalMoved == old(totalMoved) + |moved|
    {
      moved := [];
      var p := 0;
      while p < |srcs|
        invariant p <= |plan|
        invariant moved == PassMoves(plan, p)
        invariant |moved| < ItemsPerTick
        invariant totalMoved == old(totalMoved) + |moved|
      {
        ghost var before := moved;
        var stop;
        moved, stop := SortBlock(w, transfer, present, srcs[p], plan[p], moved);
        PassMovesNext(plan, p);
        RunStep(before, InvMoves(plan[p], |plan[p]|), PassMoves(plan, p + 1), PassMoves(plan, |plan|), moved, stop);
        if stop {
          return;
        }
        p := p + 1;
      }
    }

    /** One sorting run: the destination groups and the sortable sources are
        looked up once, then every source, every inventory, items last to first,
        stopping right after the 25th successful move. */
    method SortInventory(w: seq<Block>, transfer: Attempt -> bool) returns (moved: seq<Attempt>)
      modifies this`totalMoved
      ensures moved == Budget(SortMoves(w, transfer))
      ensures totalMoved == old(totalMoved) + |moved|
    {
      var present := Present(w);
      var srcs := Sources(w);
      moved := SortSources(w, transfer, present, srcs, Plan(w, transfer, present, srcs));
    }

    /** Tries the [Ingot] containers in order, full ones included, until one takes the item. */
    method FindTaker(transfer: Attempt -> bool, a: nat, j: nat, targets: seq<nat>) returns (q: Option<nat>)
      ensures q == FirstTaker(transfer, a, j, targets, 0)
    {
      var k := 0;
      while k < |targets|
        invariant k <= |targets|
        invariant FirstTaker(transfer, a, j, targets, 0) == FirstTaker(transfer, a, j, targets, k)
      {
        if transfer(Attempt(a, 0, j, targets[k])) {
          return Some(k);
        }
        k := k + 1;
      }
      return None;
    }

    /** Empties ingots and ores out of one assembler's input inventory. */
    method VacuumAssembler(w: seq<Block>, transfer: Attempt -> bool, a: nat, targets: seq<nat>)
      returns (moved: seq<Attempt>)
      requires a < |w| && HasInventory(w[a])
      ensures moved == InputMoves(w, transfer, a, targets, |w[a].inventories[0].items|)
    {
      var items := w[a].inventories[0].items;
      moved := [];
      for n := 0 to |items|
        invariant moved == InputMoves(w, transfer, a, targets, n)
      {
        if Reclaimable(items[n]) {
          var q := FindTaker(transfer, a, n, targets);
          if q.Some? {
            moved := moved + [Attempt(a, 0, n, targets[q.value])];
          }
        }
      }
    }

    /** VacuumAssemblers: nothing without an [Ingot] container; otherwise every
        assembler except fuel assemblies, when forced or over 80% full. */
    method VacuumAssemblers(w: seq<Block>, transfer: Attempt -> bool, force: bool) returns (moved: seq<Attempt>)
      requires AssemblersHaveInventory(w)
      ensures moved == VacuumMoves(w, transfer, force)
    {
      var targets := GroupOf(w, TagIngot);
      if |targets| == 0 {
        return [];
      }
      var asms := AssemblerList(w);
      AssemblerListHaveInventory(w);
      moved := [];
      for k := 0 to |asms|
        invariant moved == AssemblersMoves(w, transfer, asms, targets, force, k)
      {
        var a := asms[k];
        AssemblersMovesNext(w, transfer, asms, targets, force, k);
        if Contains(w[a].name, TagFuelAssembly) {
          continue;
        }
        if force || Overfull(w[a].inventories[0]) {
          var more := VacuumAssembler(w, transfer, a, targets);
          moved := moved + more;
        }
      }
    }

    /** The dictionary update for one stack: a new key is inserted (and so
        enumerated last), a known one incremented. */
    method CountOne(e: Entry, order0: seq<string>, counts0: map<string, Amount>, ghost done: seq<Entry>)
      returns (order: seq<string>, counts: map<string, Amount>)
      requires order0 == FirstSeen(done) && counts0 == AddAll(map[], done)
      ensures order == FirstSeen(done + [e]) && counts == AddAll(map[], done + [e])
    {
      CountStep(done, e, order0, counts0);
      order := if e.key in counts0 then order0 else order0 + [e.key];
      counts := Add(counts0, e.key, e.amount);
    }

    /** Adds the stacks of one inventory to the manifest tally. */
    method CountItems(items: seq<Stack>, order0: seq<string>, counts0: map<string, Amount>, ghost seen: seq<Entry>)
      returns (order: seq<string>, counts: map<string, Amount>)
      requires order0 == FirstSeen(seen) && counts0 == AddAll(map[], seen)
      ensures order == FirstSeen(seen + SubtypeEntries(items)) && counts == AddAll(map[], seen + SubtypeEntries(items))
    {
      order, counts := order0, counts0;
      ghost var done := seen;
      assert seen + SubtypeEntries(items[..0]) == seen;
      for j := 0 to |items|
        invariant done == seen + SubtypeEntries(items[..j])
        invariant order == FirstSeen(done) && counts == AddAll(map[], done)
      {
        var e := Entry(items[j].subtypeId, items[j].amount);
        order, counts := CountOne(e, order, counts, done);
        EntriesNext(seen, items, j);
        done := done + [e];
      }
      assert items[..|items|] == items;
    }

    /** Adds the stacks of every inventory of one block to the manifest tally. */
    method CountBlock(invs: seq<Inventory>, order0: seq<string>, counts0: map<string, Amount>, ghost pre: seq<Stack>)
      returns (order: seq<string>, counts: map<string, Amount>)
      requires order0 == FirstSeen(SubtypeEntries(pre)) && counts0 == AddAll(map[], SubtypeEntries(pre))
      ensures order == FirstSeen(SubtypeEntries(pre + InvItems(invs)))
      ensures counts == AddAll(map[], SubtypeEntries(pre + InvItems(invs)))
    {
      order, counts := order0, counts0;
      ghost var done := SubtypeEntries(pre);
      assert pre + InvItems(invs[..0]) == pre;
      for i := 0 to |invs|
        invariant done == SubtypeEntries(pre + InvItems(invs[..i]))
        invariant order == FirstSeen(done) && counts == AddAll(map[], done)
      {
        EntriesStep(pre, invs, i);
        order, counts := CountItems(invs[i].items, order, counts, done);
        done := done + SubtypeEntries(invs[i].items);
      }
      assert invs[..|invs|] == invs;
    }

    /** The manifest's quick scan: per subtype id, the summed amount, keys in the
        order they were first met. */
    method CountStock(w: seq<Block>) returns (order: seq<string>, counts: map<string, Amount>)
      ensures var e := SubtypeEntries(Stacks(w));
        order == FirstSeen(e) && counts == AddAll(map[], e)
    {
      var storage := WithInventory(w);
      order := [];
      counts := map[];
      for b := 0 to |storage|
        invariant order == FirstSeen(SubtypeEntries(Stacks(storage[..b])))
        invariant counts == AddAll(map[], SubtypeEntries(Stacks(storage[..b])))
      {
        StacksStep(storage, b);
        order, counts := CountBlock(storage[b].inventories, order, counts, Stacks(storage[..b]));
      }
      assert storage[..|storage|] == storage;
    }

    /** UpdateDisplay, without the text layout. */
    method UpdateDisplay(w: seq<Block>, lcd: bool) returns (screen: Option<Screen>)
      requires Valid()
      ensures screen == View(w, lcd, displayMode, totalMoved)
    {
      if !lcd {
        return None;
      }
      if displayMode == 0 {
        return Some(Dashboard(totalMoved));
      }
      var order, counts := CountStock(w);
      AddAllCounts(map[], SubtypeEntries(Stacks(w)), "");
      screen := Some(ManifestScreen(totalMoved, Manifest(order, counts)));
    }

    /** One run. CYCLE turns the display to the other mode and redraws; FLUSH
        vacuums every assembler regardless of fill; anything else sorts, vacuums
        gently on an even second, and redraws. `after` is the world as the host
        reports it once the sort's transfers are done. */
    method Execute(argument: string, w: seq<Block>, after: seq<Block>, transfer: Attempt -> bool,
                evenSecond: bool, lcd: bool)
      returns (moved: seq<Attempt>, vacuumed: seq<Attempt>, screen: Option<Screen>)
      requires Valid() && AssemblersHaveInventory(w) && AssemblersHaveInventory(after)
      modifies this
      ensures Valid()
      ensures ToUpper(argument) == "CYCLE" ==>
        displayMode == NextMode(old(displayMode)) && totalMoved == old(totalMoved)
        && moved == [] && vacuumed == [] && screen == View(w, lcd, displayMode, totalMoved)
      ensures ToUpper(argument) == "FLUSH" ==>
        displayMode == old(displayMode) && totalMoved == old(totalMoved)
        && moved == [] && vacuumed == VacuumMoves(w, transfer, true) && screen == None
      ensures ToUpper(argument) != "CYCLE" && ToUpper(argument) != "FLUSH" ==>
        displayMode == old(displayMode)
        && moved == Budget(SortMoves(w, transfer)) && totalMoved == old(totalMoved) + |moved|
        && vacuumed == (if evenSecond then VacuumMoves(after, transfer, false) else [])
        && screen == View(after, lcd, displayMode, totalMoved)
    {
      var command := ToUpper(argument);
      moved, vacuumed, screen := [], [], None;
      if command == "CYCLE" {
        displayMode := displayMode + 1;
        if displayMode >= DisplayModeCount {
          displayMode := 0;
        }
        screen := UpdateDisplay(w, lcd);
        return;
      }
      if command == "FLUSH" {
        vacuumed := VacuumAssemblers(w, transfer, true);
        return;
      }
      moved := SortInventory(w, transfer);
      if evenSecond {
        vacuumed := VacuumAssemblers(after, transfer, false);
      }
      screen := UpdateDisplay(after, lcd);
    }
  }
}
