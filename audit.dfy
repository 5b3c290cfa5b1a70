/**
  The auditor's pure rules: the category a stack is listed under, the listing
  of the five category tallies, the auto-scroll cursor and the visible window,
  and the status tags of the assembler diagnostic.
 */
module Audit {
  import opened Text
  import opened Tally
  import opened World

  // ---------------------------------------------------------------------------
  // Categories

  /** The five dictionaries a stack can be counted in. */
  datatype Bucket = Components | Ingots | Ores | Ammo | Tools

  /** The type-id suffixes ScanInventory checks, in the order it checks them. */
  const Suffixes: seq<string> := ["Component", "Ingot", "Ore", "AmmoMagazine"]

  /** The bucket belonging to suffix `i`. */
  function SuffixBucket(i: nat): Bucket
    requires i < |Suffixes|
  {
    [Components, Ingots, Ores, Ammo][i]
  }

  /** The first suffix the type id ends with picks the bucket; with none, the
      stack counts as a tool. */
  function BucketOf(typeId: string): (b: Bucket)
    ensures b == Tools <==> forall i :: 0 <= i < |Suffixes| ==> !EndsWith(typeId, Suffixes[i])
    ensures b != Tools ==>
      exists i :: 0 <= i < |Suffixes| && b == SuffixBucket(i) && EndsWith(typeId, Suffixes[i])
                  && forall j :: 0 <= j < i ==> !EndsWith(typeId, Suffixes[j])
  {
    if EndsWith(typeId, "Component") then
      assert EndsWith(typeId, Suffixes[0]);
      Components
    else if EndsWith(typeId, "Ingot") then
      assert EndsWith(typeId, Suffixes[1]);
      Ingots
    else if EndsWith(typeId, "Ore") then
      assert EndsWith(typeId, Suffixes[2]);
      Ores
    else if EndsWith(typeId, "AmmoMagazine") then
      assert EndsWith(typeId, Suffixes[3]);
      Ammo
    else Tools
  }

  /** The tally entries of the stacks counted in bucket `b`, stack by stack. */
  function BucketEntries(stacks: seq<Stack>, b: Bucket): seq<Entry> {
    if |stacks| == 0 then []
    else
      var last := stacks[|stacks| - 1];
      BucketEntries(stacks[..|stacks| - 1], b)
      + (if BucketOf(last.typeId) == b then [Entry(last.subtypeId, last.amount)] else [])
  }

  /** Dictionary `b` after a scan of `stacks` from empty. */
  function BucketTally(stacks: seq<Stack>, b: Bucket): map<string, Amount> {
    AddAll(map[], BucketEntries(stacks, b))
  }

  lemma BucketEntriesSnoc(done: seq<Stack>, s: Stack, b: Bucket)
    ensures BucketEntries(done + [s], b)
            == BucketEntries(done, b) + (if BucketOf(s.typeId) == b then [Entry(s.subtypeId, s.amount)] else [])
  {
    assert (done + [s])[..|done|] == done;
  }

  /** One more stack adds to its own bucket's dictionary and leaves the other four alone. */
  lemma BucketTallySnoc(done: seq<Stack>, s: Stack, b: Bucket)
    ensures BucketTally(done + [s], b)
            == if BucketOf(s.typeId) == b then Add(BucketTally(done, b), s.subtypeId, s.amount)
               else BucketTally(done, b)
  {
    BucketEntriesSnoc(done, s, b);
    if BucketOf(s.typeId) == b {
      AddAllSnoc(map[], BucketEntries(done, b), Entry(s.subtypeId, s.amount));
    } else {
      assert BucketEntries(done + [s], b) == BucketEntries(done, b);
    }
  }

  /** The sum over the five buckets of their entries' totals for `k`. */
  function AcrossBuckets(stacks: seq<Stack>, k: string): Amount {
    Total(BucketEntries(stacks, Components), k) + Total(BucketEntries(stacks, Ingots), k)
    + Total(BucketEntries(stacks, Ores), k) + Total(BucketEntries(stacks, Ammo), k)
    + Total(BucketEntries(stacks, Tools), k)
  }

  /** The amount stack `s` holds for key `k`. */
  function AmountFor(s: Stack, k: string): Amount {
    if s.subtypeId == k then s.amount else 0.0
  }

  lemma TotalStep(stacks: seq<Stack>, b: Bucket, k: string)
    requires |stacks| > 0
    ensures var last := stacks[|stacks| - 1];
      Total(BucketEntries(stacks, b), k)
      == Total(BucketEntries(stacks[..|stacks| - 1], b), k) + (if BucketOf(last.typeId) == b then AmountFor(last, k) else 0.0)
  {
    var last := stacks[|stacks| - 1];
    var own := if BucketOf(last.typeId) == b then [Entry(last.subtypeId, last.amount)] else [];
    TotalAppend(BucketEntries(stacks[..|stacks| - 1], b), own, k);
    if own != [] {
      TotalSingle(own[0], k);
    }
  }

  lemma SubtypeTotalStep(stacks: seq<Stack>, k: string)
    requires |stacks| > 0
    ensures Total(SubtypeEntries(stacks), k)
            == Total(SubtypeEntries(stacks[..|stacks| - 1]), k) + AmountFor(stacks[|stacks| - 1], k)
  {
    var last := stacks[|stacks| - 1];
    TotalAppend(SubtypeEntries(stacks[..|stacks| - 1]), [Entry(last.subtypeId, last.amount)], k);
    TotalSingle(Entry(last.subtypeId, last.amount), k);
  }

  /** Each stack's amount for `k` lands in exactly one bucket. */
  lemma {:induction false} BucketTotals(stacks: seq<Stack>, k: string)
    ensures AcrossBuckets(stacks, k) == Total(SubtypeEntries(stacks), k)
  {
    if |stacks| > 0 {
      BucketTotals(stacks[..|stacks| - 1], k);
      SubtypeTotalStep(stacks, k);
      TotalStep(stacks, Components, k);
      TotalStep(stacks, Ingots, k);
      TotalStep(stacks, Ores, k);
      TotalStep(stacks, Ammo, k);
      TotalStep(stacks, Tools, k);
    }
  }

  /** Nothing is lost or counted twice: for every subtype id, the amounts the
      five dictionaries hold add up to the amount of that id over all stacks,
      and an id is a key of some dictionary exactly when some stack has it. */
  lemma BucketsConserve(stacks: seq<Stack>, k: string)
    ensures Get(BucketTally(stacks, Components), k) + Get(BucketTally(stacks, Ingots), k)
            + Get(BucketTally(stacks, Ores), k) + Get(BucketTally(stacks, Ammo), k)
            + Get(BucketTally(stacks, Tools), k)
            == Total(SubtypeEntries(stacks), k)
    ensures (k in BucketTally(stacks, Components) || k in BucketTally(stacks, Ingots)
             || k in BucketTally(stacks, Ores) || k in BucketTally(stacks, Ammo)
             || k in BucketTally(stacks, Tools))
            <==> k in KeysOf(SubtypeEntries(stacks))
  {
    AddAllCounts(map[], BucketEntries(stacks, Components), k);
    AddAllCounts(map[], BucketEntries(stacks, Ingots), k);
    AddAllCounts(map[], BucketEntries(stacks, Ores), k);
    AddAllCounts(map[], BucketEntries(stacks, Ammo), k);
    AddAllCounts(map[], BucketEntries(stacks, Tools), k);
    BucketTotals(stacks, k);
    KeysAcross(stacks, k);
  }

  lemma KeysStep(stacks: seq<Stack>, b: Bucket)
    requires |stacks| > 0
    ensures var last := stacks[|stacks| - 1];
      KeysOf(BucketEntries(stacks, b))
      == KeysOf(BucketEntries(stacks[..|stacks| - 1], b)) + (if BucketOf(last.typeId) == b then {last.subtypeId} else {})
  {
    var last := stacks[|stacks| - 1];
    var own := if BucketOf(last.typeId) == b then [Entry(last.subtypeId, last.amount)] else [];
    KeysOfAppend(BucketEntries(stacks[..|stacks| - 1], b), own);
    assert KeysOf([Entry(last.subtypeId, last.amount)]) == {last.subtypeId};
  }

  /** A key occurs in some bucket's entries exactly when it occurs among all entries. */
  lemma {:induction false} KeysAcross(stacks: seq<Stack>, k: string)
    ensures (k in KeysOf(BucketEntries(stacks, Components)) || k in KeysOf(BucketEntries(stacks, Ingots))
             || k in KeysOf(BucketEntries(stacks, Ores)) || k in KeysOf(BucketEntries(stacks, Ammo))
             || k in KeysOf(BucketEntries(stacks, Tools)))
            <==> k in KeysOf(SubtypeEntries(stacks))
  {
    if |stacks| > 0 {
      var init := stacks[..|stacks| - 1];
      var last := stacks[|stacks| - 1];
      KeysAcross(init, k);
      KeysOfAppend(SubtypeEntries(init), [Entry(last.subtypeId, last.amount)]);
      assert KeysOf([Entry(last.subtypeId, last.amount)]) == {last.subtypeId};
      KeysStep(stacks, Components);
      KeysStep(stacks, Ingots);
      KeysStep(stacks, Ores);
      KeysStep(stacks, Ammo);
      KeysStep(stacks, Tools);
    }
  }

  // ---------------------------------------------------------------------------
  // The listing

  /** One line of the full list (the text the line is rendered as is not modelled). */
  datatype Line =
    | Heading(title: string)
    | Row(key: string, amount: Amount)
    | Blank
    | Banner
    | Footer(position: nat, last: nat)

  /** `rows` lists every key of `m` exactly once, each with its value, and nothing else. */
  predicate ListsEachKeyOnce(rows: seq<Line>, m: map<string, Amount>) {
    (forall i :: 0 <= i < |rows| ==> rows[i].Row? && rows[i].key in m && rows[i].amount == m[rows[i].key])
    && (forall i, j :: 0 <= i < j < |rows| ==> rows[i].key != rows[j].key)
    && (forall k :: k in m ==> Row(k, m[k]) in rows)
  }

  /** One row per key, in the order given, each with its dictionary value; when
      `keys` names every key of `m` once, the rows list the dictionary exactly. */
  function Rows(keys: seq<string>, m: map<string, Amount>): (r: seq<Line>)
    ensures |r| == |keys|
    ensures forall i :: 0 <= i < |r| ==> r[i] == Row(keys[i], Get(m, keys[i]))
    ensures Enumerates(keys, m) ==> ListsEachKeyOnce(r, m)
  {
    var r := seq(|keys|, i requires 0 <= i < |keys| => Row(keys[i], Get(m, keys[i])));
    assert Enumerates(keys, m) ==> forall k :: k in m ==> Row(k, m[k]) in r by {
      if Enumerates(keys, m) {
        forall k | k in m
          ensures Row(k, m[k]) in r
        {
          var i :| 0 <= i < |keys| && keys[i] == k;
          assert r[i] == Row(k, m[k]);
        }
      }
    }
    r
  }

  /** The lines Split('\n') makes of the full list: four headed sections with a
      blank line after each of the first three, ammo and tools sharing the last
      one, and the empty string after the final line break. `order` is the
      host's OrderBy on keys. */
  function Listing(ores: map<string, Amount>, ingots: map<string, Amount>, comps: map<string, Amount>,
                   ammo: map<string, Amount>, tools: map<string, Amount>,
                   order: map<string, Amount> -> seq<string>): seq<Line>
  {
    [Heading("=== ORES ===")] + Rows(order(ores), ores) + [Blank]
    + [Heading("=== INGOTS ===")] + Rows(order(ingots), ingots) + [Blank]
    + [Heading("=== COMPONENTS ===")] + Rows(order(comps), comps) + [Blank]
    + [Heading("=== AMMO & TOOLS ===")] + Rows(order(ammo), ammo) + Rows(order(tools), tools)
    + [Blank]
  }

  lemma RowsSnoc(keys: seq<string>, m: map<string, Amount>, j: nat)
    requires j < |keys|
    ensures Rows(keys[..j + 1], m) == Rows(keys[..j], m) + [Row(keys[j], Get(m, keys[j]))]
  {
  }

  /** An OrderBy that lists every key once has one row per key: the list has
      eight lines more than the five dictionaries have keys. */
  lemma ListingLength(ores: map<string, Amount>, ingots: map<string, Amount>, comps: map<string, Amount>,
                      ammo: map<string, Amount>, tools: map<string, Amount>,
                      order: map<string, Amount> -> seq<string>)
    requires forall m :: |order(m)| == |m|
    ensures |Listing(ores, ingots, comps, ammo, tools, order)|
            == |ores| + |ingots| + |comps| + |ammo| + |tools| + 8
  {
  }

  /** With OrderBy listing every key once, the rows of each section of `Listing`
      (`Rows(order(m), m)` for that section's dictionary `m`) list the dictionary
      exactly: one row per key, with its value, and nothing else. */
  lemma SectionListsDictionary(order: map<string, Amount> -> seq<string>, m: map<string, Amount>)
    requires ListsKeys(order)
    ensures ListsEachKeyOnce(Rows(order(m), m), m)
    ensures |Rows(order(m), m)| == |m|
  {
    ListedKeysCount(order, m);
  }

  // ---------------------------------------------------------------------------
  // Scrolling

  /** Lines that fit on the panel at font size 0.5. */
  const VisibleLines: nat := 34
  /** Lines the cursor advances per run. */
  const ScrollSpeed: nat := 2

  /** The cursor after one run: a list longer than the panel advances it by two
      and sends it back to the top once it would pass the last full window; a
      list that fits puts it at the top. */
  function NextScroll(scroll: nat, lines: nat): (r: nat)
    ensures lines > VisibleLines ==> r <= lines - VisibleLines
    ensures lines <= VisibleLines ==> r == 0
    ensures r == 0 || r == scroll + ScrollSpeed
    ensures lines > VisibleLines && scroll + ScrollSpeed <= lines - VisibleLines ==> r == scroll + ScrollSpeed
  {
    if lines > VisibleLines then
      if scroll + ScrollSpeed > lines - VisibleLines then 0 else scroll + ScrollSpeed
    else 0
  }

  /** The cursor after `n` runs over a list of fixed length. */
  function Scrolled(scroll: nat, lines: nat, n: nat): nat {
    if n == 0 then scroll else NextScroll(Scrolled(scroll, lines, n - 1), lines)
  }

  /** From the top, a long list is swept two lines per run down to its last full
      window, and the run after the one that reaches the last window returns to the top. */
  lemma {:induction false} ScrollSweep(lines: nat, n: nat)
    requires lines > VisibleLines
    ensures n <= (lines - VisibleLines) / ScrollSpeed ==> Scrolled(0, lines, n) == n * ScrollSpeed
    ensures n == (lines - VisibleLines) / ScrollSpeed + 1 ==> Scrolled(0, lines, n) == 0
  {
    if n > 0 {
      ScrollSweep(lines, n - 1);
    }
  }

  /** Lines `scroll` up to `scroll + 34`, as far as the list goes. */
  function Window(lines: seq<Line>, scroll: nat): (r: seq<Line>)
    ensures |r| <= VisibleLines
    ensures scroll + VisibleLines <= |lines| ==> |r| == VisibleLines
    ensures forall i :: 0 <= i < |r| ==> scroll + i < |lines| && r[i] == lines[scroll + i]
  {
    var hi := if scroll + VisibleLines < |lines| then scroll + VisibleLines else |lines|;
    if scroll >= hi then [] else lines[scroll..hi]
  }

  /** The panel: the banner, the window, and the footer exactly when the list scrolls. */
  function View(lines: seq<Line>, scroll: nat): (r: seq<Line>)
    ensures |r| >= 1 && r[0] == Banner
    ensures |lines| > VisibleLines ==>
      |r| == |Window(lines, scroll)| + 2 && r[|r| - 1] == Footer(scroll, |lines| - VisibleLines)
    ensures |lines| <= VisibleLines ==> |r| == |Window(lines, scroll)| + 1
    ensures forall i :: 1 <= i <= |Window(lines, scroll)| ==> r[i] == lines[scroll + i - 1]
  {
    [Banner] + Window(lines, scroll)
    + (if |lines| > VisibleLines then [Footer(scroll, |lines| - VisibleLines)] else [])
  }

  /** After a run, a list that fits is shown whole, and a longer one fills the panel. */
  lemma ViewAfterScroll(lines: seq<Line>, scroll: nat)
    ensures var r := View(lines, NextScroll(scroll, |lines|));
      (|lines| <= VisibleLines ==> r == [Banner] + lines)
      && (|lines| > VisibleLines ==> |r| == VisibleLines + 2)
  {
    var s := NextScroll(scroll, |lines|);
    if |lines| <= VisibleLines {
      assert Window(lines, s) == lines;
    }
  }

  // ---------------------------------------------------------------------------
  // Diagnostic status tags

  datatype Tag = Damaged | Off | LowPower

  /** The tags the diagnostic appends after an assembler's name, in order. */
  function StatusTags(functional: bool, enabled: bool, working: bool): (r: seq<Tag>)
    ensures Damaged in r <==> !functional
    ensures Off in r <==> !enabled
    ensures LowPower in r <==> functional && enabled && !working
    ensures LowPower in r ==> r == [LowPower]
    ensures |r| <= 2
  {
    (if !functional then [Damaged] else [])
    + (if !enabled then [Off] else [])
    + (if !working && enabled && functional then [LowPower] else [])
  }
}
