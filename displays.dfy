/**
  What the base heartbeat script decides for its two LCD panels: the debug
  panel's page cursor and page slice, the page-turn timer, the status panel's
  low-stock selection, and the bar drawing.
 */
module Displays {
  import opened Text
  import opened Tally
  import opened Ranking
  import opened Production

  /** Entries per debug page. */
  const PageSize: nat := 18
  /** The page turns when the tick timer would pass this value. */
  const PageTicks: nat := 40
  /** Rows of the low-stock list. */
  const LowStockRows: nat := 6
  /** An entry is low when its stock is below this fraction of its target. */
  const Threshold: real := 0.4
  /** Width of a name on the debug panel. */
  const DebugNameWidth: nat := 18

  // ---------------------------------------------------------------------------
  // Debug paging

  /** Math.Ceiling(n / 18.0). */
  function TotalPages(n: nat): (r: nat)
    ensures n <= r * PageSize < n + PageSize
  {
    (n + PageSize - 1) / PageSize
  }

  /** The page shown for `n` entries: the stored page, or 0 once it is past the last page. */
  function ClampPage(page: nat, n: nat): (r: nat)
    ensures n > 0 ==> r < TotalPages(n)
    ensures n == 0 ==> r == 0
    ensures r == page || r == 0
  {
    if page >= TotalPages(n) then 0 else page
  }

  /** How many of `n` entries page `page` holds. */
  function PageLength(n: nat, page: nat): nat {
    if page * PageSize >= n then 0
    else if n - page * PageSize < PageSize then n - page * PageSize
    else PageSize
  }

  /** Skip(page * 18).Take(18). */
  function PageSlice<T>(items: seq<T>, page: nat): (r: seq<T>)
    ensures |r| == PageLength(|items|, page) && |r| <= PageSize
    ensures forall i :: 0 <= i < |r| ==> r[i] == items[page * PageSize + i]
  {
    var start := page * PageSize;
    if start >= |items| then []
    else if start + PageSize <= |items| then items[start..start + PageSize]
    else items[start..]
  }

  /** Whatever the stored page and however far the entry count shrank, the page
      shown after clamping starts inside the list, so it is never empty when
      there are entries. */
  lemma ClampedPageInRange(page: nat, n: nat)
    requires n > 0
    ensures ClampPage(page, n) * PageSize < n
    ensures 1 <= PageLength(n, ClampPage(page, n)) <= PageSize
  {
    var r := ClampPage(page, n);
    var t := TotalPages(n);
    assert r <= t - 1;
    assert (t - 1) * PageSize < n;
    assert r * PageSize <= (t - 1) * PageSize;
  }

  /** One debug-panel row: the (truncated) key and its stock. */
  datatype DebugRow = DebugRow(name: string, amount: Amount)

  /** The debug panel's rows for page `page` of the stock keys listed in `keys`: each
      key of the page, in order, cut to the panel width, with its stock. */
  function DebugPage(inventory: map<string, Amount>, keys: seq<string>, page: nat): (r: seq<DebugRow>)
    requires forall k :: k in keys ==> k in inventory
    ensures |r| == PageLength(|keys|, page)
    ensures forall i :: 0 <= i < |r| ==>
      r[i] == DebugRow(Truncate(keys[page * PageSize + i], DebugNameWidth), inventory[keys[page * PageSize + i]])
  {
    var p := PageSlice(keys, page);
    seq(|p|, i requires 0 <= i < |p| => DebugRow(Truncate(p[i], DebugNameWidth), inventory[p[i]]))
  }

  /** Position `j` of page `page` lies on that page, so a position on another page is a different one. */
  lemma OtherPagePosition(page: nat, j: nat, i: nat)
    requires j < PageSize && page != i / PageSize
    ensures page * PageSize + j != i
  {
  }

  /** Paging through a list of distinct keys shows every key, on exactly one page:
      the one its position selects, within the page count. */
  lemma EveryKeyOnOnePage(keys: seq<string>, i: nat)
    requires Distinct(keys)
    requires i < |keys|
    ensures i / PageSize < TotalPages(|keys|)
    ensures keys[i] == PageSlice(keys, i / PageSize)[i % PageSize]
    ensures forall page: nat :: page != i / PageSize ==> keys[i] !in PageSlice(keys, page)
  {
    forall page: nat | page != i / PageSize
      ensures keys[i] !in PageSlice(keys, page)
    {
      var p := PageSlice(keys, page);
      forall j | 0 <= j < |p|
        ensures p[j] != keys[i]
      {
        OtherPagePosition(page, j, i);
      }
    }
  }

  // ---------------------------------------------------------------------------
  // Page-turn timer

  datatype Pager = Pager(timer: nat, page: nat)

  /** One tick: the timer counts up and, when it would pass 40, restarts at 0 and turns the page. */
  function Tick(s: Pager): (r: Pager)
    requires s.timer <= PageTicks
    ensures r.timer <= PageTicks
    ensures r.page == s.page + 1 <==> s.timer == PageTicks
    ensures r.page == s.page || r.page == s.page + 1
  {
    if s.timer + 1 > PageTicks then Pager(0, s.page + 1) else Pager(s.timer + 1, s.page)
  }

  /** `n` ticks. */
  function Run(s: Pager, n: nat): (r: Pager)
    requires s.timer <= PageTicks
    ensures r.timer <= PageTicks
  {
    if n == 0 then s else Tick(Run(s, n - 1))
  }

  lemma {:induction false} RunQuiet(s: Pager, n: nat)
    requires s.timer + n <= PageTicks
    ensures Run(s, n) == Pager(s.timer + n, s.page)
  {
    if n > 0 {
      RunQuiet(s, n - 1);
    }
  }

  /** From a fresh timer the page stays put for 40 ticks and turns on the 41st. */
  lemma PageTurnPeriod(page: nat)
    ensures forall n :: 0 <= n <= PageTicks ==> Run(Pager(0, page), n) == Pager(n, page)
    ensures Run(Pager(0, page), PageTicks + 1) == Pager(0, page + 1)
  {
    forall n | 0 <= n <= PageTicks
      ensures Run(Pager(0, page), n) == Pager(n, page)
    {
      RunQuiet(Pager(0, page), n);
    }
  }

  // ---------------------------------------------------------------------------
  // Low-stock selection

  predicate Low(req: ItemReq, inventory: map<string, Amount>) {
    Get(inventory, req.id) < req.target as real * Threshold
  }

  /** The ordering key: stock over target (asked only of low entries, whose target is positive). */
  function Ratio(req: ItemReq, inventory: map<string, Amount>): real
    requires req.target > 0
  {
    Get(inventory, req.id) / req.target as real
  }

  /** The low entries of the catalog, in catalog order, each keyed by its ratio. */
  function LowCandidates(catalog: seq<ItemReq>, inventory: map<string, Amount>): (r: seq<Keyed<ItemReq>>)
    ensures forall x :: x in r <==>
      x.item in catalog && Low(x.item, inventory) && x.item.target > 0 && x.key == Ratio(x.item, inventory)
  {
    if |catalog| == 0 then []
    else
      var init := catalog[..|catalog| - 1];
      var c := catalog[|catalog| - 1];
      assert catalog == init + [c];
      var rest := LowCandidates(init, inventory);
      if Low(c, inventory) then rest + [Keyed(Ratio(c, inventory), c)] else rest
  }

  /** The low entries ordered by ratio, lowest first (OrderBy). */
  function Ranked(catalog: seq<ItemReq>, inventory: map<string, Amount>): (r: seq<Keyed<ItemReq>>)
    ensures Ascending(r)
    ensures multiset(r) == multiset(LowCandidates(catalog, inventory))
    ensures forall i :: 0 <= i < |r| ==>
      r[i].item in catalog && Low(r[i].item, inventory) && r[i].item.target > 0
      && r[i].key == Ratio(r[i].item, inventory)
  {
    var cands := LowCandidates(catalog, inventory);
    var sorted := Sort(cands);
    forall i | 0 <= i < |sorted|
      ensures sorted[i] in cands
    {
      assert sorted[i] in multiset(sorted);
    }
    sorted
  }

  /** The CRITICAL LOW STOCK rows: low entries, lowest ratio first, at most six. */
  function LowStock(catalog: seq<ItemReq>, inventory: map<string, Amount>): (r: seq<ItemReq>)
    ensures |r| <= LowStockRows
    ensures forall x :: x in r ==> x in catalog && Low(x, inventory) && x.target > 0
    ensures forall i, j :: 0 <= i < j < |r| ==> Ratio(r[i], inventory) <= Ratio(r[j], inventory)
  {
    var ranked := Ranked(catalog, inventory);
    var n := if |ranked| < LowStockRows then |ranked| else LowStockRows;
    var r := seq(n, i requires 0 <= i < n => ranked[i].item);
    TopRows(catalog, inventory, ranked, r);
    r
  }

  /** Leading rows of the ranking are low catalog entries in ascending ratio. */
  lemma TopRows(catalog: seq<ItemReq>, inventory: map<string, Amount>, ranked: seq<Keyed<ItemReq>>, r: seq<ItemReq>)
    requires ranked == Ranked(catalog, inventory)
    requires |r| <= |ranked| && forall i :: 0 <= i < |r| ==> r[i] == ranked[i].item
    ensures forall x :: x in r ==> x in catalog && Low(x, inventory) && x.target > 0
    ensures forall i, j :: 0 <= i < j < |r| ==> Ratio(r[i], inventory) <= Ratio(r[j], inventory)
  {
    forall x | x in r
      ensures x in catalog && Low(x, inventory) && x.target > 0
    {
      var i :| 0 <= i < |r| && r[i] == x;
      assert ranked[i].item == x;
    }
    forall i, j | 0 <= i < j < |r|
      ensures Ratio(r[i], inventory) <= Ratio(r[j], inventory)
    {
      assert ranked[i].key <= ranked[j].key;
    }
  }

  /** A low entry is left off the list only when the list is full, and then every
      row shown is at least as short of its target as that entry. */
  lemma LowStockWorstFirst(catalog: seq<ItemReq>, inventory: map<string, Amount>, c: ItemReq)
    requires c in catalog && Low(c, inventory)
    requires c !in LowStock(catalog, inventory)
    ensures |LowStock(catalog, inventory)| == LowStockRows
    ensures forall x :: x in LowStock(catalog, inventory) ==> Ratio(x, inventory) <= Ratio(c, inventory)
  {
    var ranked := Ranked(catalog, inventory);
    var r := LowStock(catalog, inventory);
    var n := |r|;
    var kc := Keyed(Ratio(c, inventory), c);
    assert kc in multiset(LowCandidates(catalog, inventory));
    assert kc in multiset(ranked);
    var p :| 0 <= p < |ranked| && ranked[p] == kc;
    assert forall i :: 0 <= i < n ==> r[i] == ranked[i].item;
    assert p >= n;
  }

  // ---------------------------------------------------------------------------
  // Bars

  /** "[" + bars of '|' padded with '.' to ten + "]", for a whole percentage. */
  function DrawBar(pct: nat): (r: string)
    ensures |r| == 2 + (if pct / 10 > 10 then pct / 10 else 10)
    ensures r[0] == '[' && r[|r| - 1] == ']'
    ensures forall i :: 1 <= i <= pct / 10 ==> r[i] == '|'
    ensures forall i :: pct / 10 < i < |r| - 1 ==> r[i] == '.'
  {
    var bars := pct / 10;
    "[" + seq(bars, _ => '|') + seq(if bars < 10 then 10 - bars else 0, _ => '.') + "]"
  }
}
