/**
  Per-key running totals, as the scripts keep them in `Dictionary<string, double>`:
  a key is inserted with its first amount and incremented afterwards.
  `map` models the dictionary when only its contents matter; an association list
  models it where the enumeration (insertion) order is observable.
 */
module Tally {

  /** An item amount (MyFixedPoint) or a sum of them; never negative. */
  type Amount = r: real | 0.0 <= r

  /** One contribution: `amount` more of `key`. */
  datatype Entry = Entry(key: string, amount: Amount)

  /** The value stored under `k`, or 0 when `k` is absent (`ContainsKey ? d[k] : 0`). */
  function Get(m: map<string, Amount>, k: string): Amount {
    if k in m then m[k] else 0.0
  }

  /** Insert-or-increment: the shape of AddInv and AddTo. */
  function Add(m: map<string, Amount>, k: string, v: Amount): (r: map<string, Amount>)
    ensures r.Keys == m.Keys + {k}
    ensures Get(r, k) == Get(m, k) + v
    ensures forall j :: j != k ==> Get(r, j) == Get(m, j)
  {
    if k in m then m[k := m[k] + v] else m[k := v]
  }

  /** Applies `Add` for every entry, first to last. */
  function AddAll(m: map<string, Amount>, items: seq<Entry>): map<string, Amount> {
    if |items| == 0 then m
    else
      var last := items[|items| - 1];
      Add(AddAll(m, items[..|items| - 1]), last.key, last.amount)
  }

  /** The sum of the amounts of the entries for `k`. */
  function Total(items: seq<Entry>, k: string): Amount {
    if |items| == 0 then 0.0
    else
      var last := items[|items| - 1];
      Total(items[..|items| - 1], k) + (if last.key == k then last.amount else 0.0)
  }

  /** The keys the entries mention. */
  function KeysOf(items: seq<Entry>): set<string> {
    set e | e in items :: e.key
  }

  /** Folding entries into a tally adds, for every key, exactly that key's total,
      and creates exactly the keys the entries mention. */
  lemma AddAllCounts(m: map<string, Amount>, items: seq<Entry>, k: string)
    ensures Get(AddAll(m, items), k) == Get(m, k) + Total(items, k)
    ensures AddAll(m, items).Keys == m.Keys + KeysOf(items)
  {
    AddAllGet(m, items, k);
    AddAllKeys(m, items);
  }

  lemma {:induction false} AddAllGet(m: map<string, Amount>, items: seq<Entry>, k: string)
    ensures Get(AddAll(m, items), k) == Get(m, k) + Total(items, k)
  {
    if |items| > 0 {
      AddAllGet(m, items[..|items| - 1], k);
    }
  }

  lemma {:induction false} AddAllKeys(m: map<string, Amount>, items: seq<Entry>)
    ensures AddAll(m, items).Keys == m.Keys + KeysOf(items)
  {
    if |items| > 0 {
      var init := items[..|items| - 1];
      var last := items[|items| - 1];
      AddAllKeys(m, init);
      KeysOfLast(items);
    }
  }

  /** Folding `a + b` is folding `a`, then `b`. */
  lemma {:induction false} AddAllAppend(m: map<string, Amount>, a: seq<Entry>, b: seq<Entry>)
    ensures AddAll(m, a + b) == AddAll(AddAll(m, a), b)
  {
    if |b| == 0 {
      assert a + b == a;
    } else {
      var init := b[..|b| - 1];
      assert (a + b)[..|a + b| - 1] == a + init;
      assert (a + b)[|a + b| - 1] == b[|b| - 1];
      AddAllAppend(m, a, init);
    }
  }

  /** Folding one entry is one `Add`. */
  lemma AddAllSingle(m: map<string, Amount>, e: Entry)
    ensures AddAll(m, [e]) == Add(m, e.key, e.amount)
  {
    assert [e][..0] == [];
  }

  /** Folding one more entry is one more `Add`. */
  lemma AddAllSnoc(m: map<string, Amount>, done: seq<Entry>, e: Entry)
    ensures AddAll(m, done + [e]) == Add(AddAll(m, done), e.key, e.amount)
  {
    AddAllAppend(m, done, [e]);
    AddAllSingle(AddAll(m, done), e);
  }

  lemma TotalSingle(e: Entry, k: string)
    ensures Total([e], k) == if e.key == k then e.amount else 0.0
  {
    assert [e][..0] == [];
  }

  /** Totals distribute over concatenation. */
  lemma {:induction false} TotalAppend(a: seq<Entry>, b: seq<Entry>, k: string)
    ensures Total(a + b, k) == Total(a, k) + Total(b, k)
  {
    if |b| == 0 {
      assert a + b == a;
    } else {
      var init := b[..|b| - 1];
      assert (a + b)[..|a + b| - 1] == a + init;
      assert (a + b)[|a + b| - 1] == b[|b| - 1];
      TotalAppend(a, init, k);
    }
  }

  lemma KeysOfAppend(a: seq<Entry>, b: seq<Entry>)
    ensures KeysOf(a + b) == KeysOf(a) + KeysOf(b)
  {
    assert forall e :: e in a + b <==> e in a || e in b;
  }

  lemma KeysOfLast(s: seq<Entry>)
    requires |s| > 0
    ensures KeysOf(s) == KeysOf(s[..|s| - 1]) + {s[|s| - 1].key}
  {
    var init := s[..|s| - 1];
    forall e | e in s
      ensures e in init || e == s[|s| - 1]
    {
      var i :| 0 <= i < |s| && s[i] == e;
      if i < |s| - 1 {
        assert init[i] == e;
      }
    }
    assert forall e :: e in init ==> e in s;
  }

  // ---------------------------------------------------------------------------
  // Enumeration order of a dictionary that is only ever added to

  predicate Distinct(keys: seq<string>) {
    forall i, j :: 0 <= i < j < |keys| ==> keys[i] != keys[j]
  }

  /** The keys in the order a Dictionary enumerates them after the entries were
      added first to last: the order in which each key was first inserted. */
  function FirstSeen(items: seq<Entry>): (r: seq<string>)
    ensures Distinct(r)
    ensures forall k :: k in r <==> k in KeysOf(items)
  {
    if |items| == 0 then []
    else
      var init := items[..|items| - 1];
      var last := items[|items| - 1];
      KeysOfLast(items);
      var seen := FirstSeen(init);
      if last.key in seen then seen else seen + [last.key]
  }

  /** One more entry appends its key to the first-seen order exactly when the key is new. */
  lemma FirstSeenSnoc(done: seq<Entry>, e: Entry)
    ensures FirstSeen(done + [e]) == if e.key in FirstSeen(done) then FirstSeen(done) else FirstSeen(done) + [e.key]
  {
    assert (done + [e])[..|done|] == done;
  }

  /** `keys` names every key of `m` exactly once, and nothing else. */
  ghost predicate Enumerates(keys: seq<string>, m: map<string, Amount>) {
    Distinct(keys) && forall k :: k in keys <==> k in m
  }

  /** `order` lists the keys of every dictionary, each exactly once: the contract of
      enumerating a Dictionary's keys (or `OrderBy` over them), whatever the order. */
  ghost predicate ListsKeys(order: map<string, Amount> -> seq<string>) {
    forall m :: Enumerates(order(m), m)
  }

  /** A list that names every member of `s` exactly once is as long as `s` is large. */
  lemma {:induction false} DistinctCount(keys: seq<string>, s: set<string>)
    requires Distinct(keys)
    requires forall k :: k in keys <==> k in s
    ensures |keys| == |s|
  {
    if |keys| > 0 {
      var init := keys[..|keys| - 1];
      var last := keys[|keys| - 1];
      assert keys == init + [last];
      forall i | 0 <= i < |init|
        ensures init[i] != last
      {
        assert init[i] == keys[i];
      }
      assert forall k :: k in init <==> k in s - {last};
      DistinctCount(init, s - {last});
    }
  }

  /** The keys of a dictionary listed by an order that lists keys are exactly as many. */
  lemma ListedKeysCount(order: map<string, Amount> -> seq<string>, m: map<string, Amount>)
    requires ListsKeys(order)
    ensures |order(m)| == |m|
    ensures forall k :: k in order(m) ==> k in m
  {
    DistinctCount(order(m), m.Keys);
  }
}
