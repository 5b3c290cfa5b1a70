/**
  The auditor script as a stateful object: five per-category dictionaries that
  each run clears and refills from every inventory on the construct, and the
  scroll cursor of the inventory panel. `w` is what block discovery yields on
  the run, `lcd` whether the panel exists, and `order` the host's OrderBy on a
  dictionary's keys.
 */
module Auditor {
  import opened Tally
  import opened World
  import opened Audit

  /** The rows of `m` in the order `keys` gives, appended to `lines`. */
  method AppendRows(lines: seq<Line>, keys: seq<string>, m: map<string, Amount>) returns (r: seq<Line>)
    ensures r == lines + Rows(keys, m)
  {
    r := lines;
    for j := 0 to |keys|
      invariant r == lines + Rows(keys[..j], m)
    {
      RowsSnoc(keys, m, j);
      r := r + [Row(keys[j], Get(m, keys[j]))];
    }
    assert keys[..|keys|] == keys;
  }

  /** The banner, lines `scroll` up to `scroll + 34` as far as the list goes, and
      the footer when the list is longer than the panel. */
  method Cut(lines: seq<Line>, scroll: nat) returns (view: seq<Line>)
    ensures view == View(lines, scroll)
  {
    var maxLines := |lines|;
    var hi := if scroll + VisibleLines < maxLines then scroll + VisibleLines else maxLines;
    ghost var window := Window(lines, scroll);
    view := [Banner];
    var i := scroll;
    while i < hi
      invariant scroll <= i && i - scroll <= |window|
      invariant view == [Banner] + window[..i - scroll]
    {
      assert window[..i + 1 - scroll] == window[..i - scroll] + [lines[i]];
      view := view + [lines[i]];
      i := i + 1;
    }
    assert window[..i - scroll] == window;
    if maxLines > VisibleLines {
      view := view + [Footer(scroll, maxLines - VisibleLines)];
    }
  }

  class Program {
    var comps: map<string, Amount>
    var ingots: map<string, Amount>
    var ores: map<string, Amount>
    var ammo: map<string, Amount>
    var tools: map<string, Amount>
    var scrollLine: nat
    var maxLines: nat

    /** The dictionary of bucket `b`. */
    function Dict(b: Bucket): map<string, Amount>
      reads this
    {
      match b
      case Components => comps
      case Ingots => ingots
      case Ores => ores
      case Ammo => ammo
      case Tools => tools
    }

    /** Every dictionary holds what a scan of `stacks` from empty puts in it. */
    ghost predicate Counted(stacks: seq<Stack>)
      reads this
    {
      forall b :: Dict(b) == BucketTally(stacks, b)
    }

    constructor ()
      ensures forall b :: Dict(b) == map[]
      ensures scrollLine == 0 && maxLines == 0
    {
      comps, ingots, ores, ammo, tools := map[], map[], map[], map[], map[];
      scrollLine, maxLines := 0, 0;
    }

    /** Insert-or-increment of one key of dictionary `b`; the other four are untouched. */
    method AddTo(b: Bucket, key: string, val: Amount)
      modifies this`comps, this`ingots, this`ores, this`ammo, this`tools
      ensures Dict(b) == Add(old(Dict(b)), key, val)
      ensures forall c :: c != b ==> Dict(c) == old(Dict(c))
    {
      var d := Dict(b);
      if key in d {
        d := d[key := d[key] + val];
      } else {
        d := d[key := val];
      }
      match b
      case Components => comps := d;
      case Ingots => ingots := d;
      case Ores => ores := d;
      case Ammo => ammo := d;
      case Tools => tools := d;
    }

    /** The body of the item loop: one stack into the bucket its type id picks. */
    method ScanItem(s: Stack, ghost done: seq<Stack>)
      requires Counted(done)
      modifies this`comps, this`ingots, this`ores, this`ammo, this`tools
      ensures Counted(done + [s])
    {
      AddTo(BucketOf(s.typeId), s.subtypeId, s.amount);
      forall b
        ensures Dict(b) == BucketTally(done + [s], b)
      {
        BucketTallySnoc(done, s, b);
      }
    }

    /** The item loop over one inventory. */
    method ScanItems(items: seq<Stack>, ghost pre: seq<Stack>)
      requires Counted(pre)
      modifies this`comps, this`ingots, this`ores, this`ammo, this`tools
      ensures Counted(pre + items)
    {
      assert pre + items[..0] == pre;
      for j := 0 to |items|
        invariant Counted(pre + items[..j])
      {
        assert pre + items[..j + 1] == (pre + items[..j]) + [items[j]];
        ScanItem(items[j], pre + items[..j]);
      }
      assert items[..|items|] == items;
    }

    /** The inventory loop over one block. */
    method ScanBlock(invs: seq<Inventory>, ghost pre: seq<Stack>)
      requires Counted(pre)
      modifies this`comps, this`ingots, this`ores, this`ammo, this`tools
      ensures Counted(pre + InvItems(invs))
    {
      assert pre + InvItems(invs[..0]) == pre;
      for i := 0 to |invs|
        invariant Counted(pre + InvItems(invs[..i]))
      {
        InvItemsStep(invs, i);
        assert pre + InvItems(invs[..i + 1]) == (pre + InvItems(invs[..i])) + invs[i].items;
        ScanItems(invs[i].items, pre + InvItems(invs[..i]));
      }
      assert invs[..|invs|] == invs;
    }

    /** Clears the five dictionaries and counts every stack of every block that
        has an inventory into the dictionary of its category. */
    method ScanInventory(w: seq<Block>)
      modifies this`comps, this`ingots, this`ores, this`ammo, this`tools
      ensures forall b :: Dict(b) == BucketTally(Stacks(w), b)
    {
      comps, ingots, ores, ammo, tools := map[], map[], map[], map[], map[];
      var blocks := WithInventory(w);
      for k := 0 to |blocks|
        invariant Counted(Stacks(blocks[..k]))
      {
        StacksStep(blocks, k);
        ScanBlock(blocks[k].inventories, Stacks(blocks[..k]));
      }
      assert blocks[..|blocks|] == blocks;
    }

    /** The full list, section by section. */
    method BuildList(order: map<string, Amount> -> seq<string>) returns (lines: seq<Line>)
      ensures lines == Listing(ores, ingots, comps, ammo, tools, order)
    {
      lines := [Heading("=== ORES ===")];
      lines := AppendRows(lines, order(ores), ores);
      lines := lines + [Blank];
      lines := lines + [Heading("=== INGOTS ===")];
      lines := AppendRows(lines, order(ingots), ingots);
      lines := lines + [Blank];
      lines := lines + [Heading("=== COMPONENTS ===")];
      lines := AppendRows(lines, order(comps), comps);
      lines := lines + [Blank];
      lines := lines + [Heading("=== AMMO & TOOLS ===")];
      lines := AppendRows(lines, order(ammo), ammo);
      lines := AppendRows(lines, order(tools), tools);
      lines := lines + [Blank];
    }

    /** The cursor step for a list of `maxLines` lines. */
    method Scroll()
      modifies this`scrollLine
      ensures scrollLine == NextScroll(old(scrollLine), maxLines)
    {
      if maxLines > VisibleLines {
        scrollLine := scrollLine + ScrollSpeed;
        if scrollLine > maxLines - VisibleLines {
          scrollLine := 0;
        }
      } else {
        scrollLine := 0;
      }
    }

    /** Builds the list, advances the cursor and cuts the window; nothing happens
        without the panel. */
    method UpdateDisplay(lcd: bool, order: map<string, Amount> -> seq<string>) returns (view: seq<Line>)
      modifies this`scrollLine, this`maxLines
      ensures !lcd ==> view == [] && scrollLine == old(scrollLine) && maxLines == old(maxLines)
      ensures lcd ==>
        var lines := Listing(ores, ingots, comps, ammo, tools, order);
        maxLines == |lines|
        && scrollLine == NextScroll(old(scrollLine), maxLines)
        && view == View(lines, scrollLine)
    {
      if !lcd {
        return [];
      }
      var lines := BuildList(order);
      maxLines := |lines|;
      Scroll();
      view := Cut(lines, scrollLine);
    }

    /** One run: a fresh scan, then the panel. */
    method Execute(w: seq<Block>, lcd: bool, order: map<string, Amount> -> seq<string>) returns (view: seq<Line>)
      modifies this
      ensures forall b :: Dict(b) == BucketTally(Stacks(w), b)
      ensures !lcd ==> view == [] && scrollLine == old(scrollLine)
      ensures lcd ==>
        var lines := Listing(ores, ingots, comps, ammo, tools, order);
        maxLines == |lines|
        && scrollLine == NextScroll(old(scrollLine), maxLines)
        && view == View(lines, scrollLine)
    {
      ScanInventory(w);
      view := UpdateDisplay(lcd, order);
    }
  }
}
