/** The category breakdown of `drawChart`: records grouped by the key
    `type|category` (an empty category reads "(uncategorized)"), one group per
    key in the order the keys first occur, each group's amounts summed, and a
    colour per group chosen from the type part of its key. */
module Breakdown {
  import opened Records
  import opened Seqs
  import opened Summary

  const UNCATEGORIZED: string := "(uncategorized)"
  const INCOME_PREFIX: string := "income|"
  const EXPENSE_PREFIX: string := "expense|"
  const INCOME_COLOUR: string := "#2ecc71"
  const EXPENSE_COLOUR: string := "#e74c3c"
  const OTHER_COLOUR: string := "#9ca3af"

  /** `t.category || '(uncategorized)'`. */
  function CategoryLabel(category: string): string {
    if category == "" then UNCATEGORIZED else category
  }

  /** `${t.type}|${t.category || '(uncategorized)'}`. */
  function GroupKey(t: Transaction): string {
    t.kind + "|" + CategoryLabel(t.category)
  }

  /** The group key of every record, in order. */
  function Keys(s: seq<Transaction>): seq<string> {
    seq(|s|, i requires 0 <= i < |s| => GroupKey(s[i]))
  }

  /** No key occurs twice. */
  predicate Distinct(ks: seq<string>) {
    forall i, j :: 0 <= i < j < |ks| ==> ks[i] != ks[j]
  }

  /** The distinct keys of `ks` in the order they first occur: the key order
      of a JavaScript `Map` filled from `ks`. */
  function FirstSeen(ks: seq<string>): (r: seq<string>)
    ensures Distinct(r)
    ensures forall k :: k in r <==> k in ks
  {
    if ks == [] then []
    else
      var init := ks[..|ks| - 1];
      assert ks == init + [ks[|ks| - 1]];
      var p := FirstSeen(init);
      if ks[|ks| - 1] in p then p else p + [ks[|ks| - 1]]
  }

  lemma {:induction false} FirstSeenAppend(ks: seq<string>, x: string)
    ensures FirstSeen(ks + [x]) ==
              if x in FirstSeen(ks) then FirstSeen(ks) else FirstSeen(ks) + [x]
  {
    assert (ks + [x])[..|ks|] == ks;
  }

  /** The position where `k` first occurs in `ks`. */
  function FirstIndex(ks: seq<string>, k: string): (r: nat)
    requires k in ks
    ensures r < |ks| && ks[r] == k
  {
    if ks[0] == k then 0 else 1 + FirstIndex(ks[1..], k)
  }

  /** No occurrence of `k` comes before `FirstIndex(ks, k)`. */
  lemma {:induction false} FirstIndexIsFirst(ks: seq<string>, k: string)
    requires k in ks
    ensures forall j :: 0 <= j < FirstIndex(ks, k) ==> ks[j] != k
    decreases |ks|
  {
    if ks[0] != k {
      FirstIndexIsFirst(ks[1..], k);
      forall j | 1 <= j < FirstIndex(ks, k) ensures ks[j] != k {
        assert ks[j] == ks[1..][j - 1];
      }
    }
  }

  /** Appending an element does not move the first occurrence of an earlier one. */
  lemma {:induction false} FirstIndexAppend(ks: seq<string>, x: string, k: string)
    requires k in ks
    ensures FirstIndex(ks + [x], k) == FirstIndex(ks, k)
    decreases |ks|
  {
    if ks[0] != k {
      assert (ks + [x])[1..] == ks[1..] + [x];
      FirstIndexAppend(ks[1..], x, k);
    }
  }

  /** The keys come out in the order of their first occurrence. */
  lemma {:induction false} FirstSeenOrder(ks: seq<string>)
    ensures forall i, j :: 0 <= i < j < |FirstSeen(ks)| ==>
              FirstIndex(ks, FirstSeen(ks)[i]) < FirstIndex(ks, FirstSeen(ks)[j])
    decreases |ks|
  {
    if ks != [] {
      var init, x := ks[..|ks| - 1], ks[|ks| - 1];
      assert ks == init + [x];
      FirstSeenOrder(init);
      var p := FirstSeen(init);
      FirstSeenAppend(init, x);
      FirstIndicesKept(init, x, p);
      if x !in p {
        NewKeyIndex(init, x);
        forall i, j | 0 <= i < j < |p| ensures FirstIndex(ks, p[i]) < FirstIndex(ks, p[j]) {
          assert FirstIndex(init, p[i]) < FirstIndex(init, p[j]);
        }
        OrderAppend(ks, p, x);
      }
    }
  }

  /** A key placed after keys that all first occur before it keeps the
      first-occurrence order. */
  lemma {:induction false} OrderAppend(ks: seq<string>, p: seq<string>, x: string)
    requires x in ks && forall k :: k in p ==> k in ks
    requires forall i, j :: 0 <= i < j < |p| ==> FirstIndex(ks, p[i]) < FirstIndex(ks, p[j])
    requires forall i :: 0 <= i < |p| ==> FirstIndex(ks, p[i]) < FirstIndex(ks, x)
    ensures forall i, j :: 0 <= i < j < |p + [x]| ==>
              FirstIndex(ks, (p + [x])[i]) < FirstIndex(ks, (p + [x])[j])
  {
    var q := p + [x];
    forall i, j | 0 <= i < j < |q| ensures FirstIndex(ks, q[i]) < FirstIndex(ks, q[j]) {
      assert q[i] == p[i];
      if j < |p| {
        assert q[j] == p[j];
      }
    }
  }

  /** Appending `x` moves no first occurrence of a key of `init`. */
  lemma {:induction false} FirstIndicesKept(init: seq<string>, x: string, p: seq<string>)
    requires forall k :: k in p ==> k in init
    ensures forall i :: 0 <= i < |p| ==> FirstIndex(init + [x], p[i]) == FirstIndex(init, p[i])
    ensures forall i :: 0 <= i < |p| ==> FirstIndex(init, p[i]) < |init|
  {
    forall i | 0 <= i < |p| ensures FirstIndex(init + [x], p[i]) == FirstIndex(init, p[i]) {
      FirstIndexAppend(init, x, p[i]);
    }
  }

  /** A key new to `init` first occurs at the end of `init + [x]`. */
  lemma {:induction false} NewKeyIndex(init: seq<string>, x: string)
    requires x !in init
    ensures FirstIndex(init + [x], x) == |init|
  {
  }

  /** The summed amount of the records whose key is `k`, added up left to right. */
  function KeySum(s: seq<Transaction>, k: string): nat {
    if s == [] then 0
    else KeySum(s[..|s| - 1], k) + (if GroupKey(s[|s| - 1]) == k then s[|s| - 1].amount else 0)
  }

  /** The test "the record's group key is `k`". */
  function HasKey(k: string): Transaction -> bool {
    (t: Transaction) => GroupKey(t) == k
  }

  /** A group's sum is the sum of the amounts of exactly the records with its key. */
  lemma {:induction false} KeySumIsFilteredSum(s: seq<Transaction>, k: string)
    ensures KeySum(s, k) == SumAmounts(Keep(s, HasKey(k)))
    decreases |s|
  {
    if s != [] {
      var init, last := s[..|s| - 1], s[|s| - 1];
      KeySumIsFilteredSum(init, k);
      var tail := if GroupKey(last) == k then [last] else [];
      assert Keep(s, HasKey(k)) == Keep(init, HasKey(k)) + tail;
      SumAmountsAppend(Keep(init, HasKey(k)), tail);
      var one: seq<Transaction> := [last];
      assert one[..0] == [];
      assert SumAmounts(tail) == if GroupKey(last) == k then last.amount else 0;
    }
  }

  /** `key.startsWith(prefix)`. */
  predicate StartsWith(key: string, prefix: string) {
    |prefix| <= |key| && key[..|prefix|] == prefix
  }

  /** The slice colour, chosen from the key: green for income, red for
      expense, grey for any other type. */
  function Colour(key: string): string {
    if StartsWith(key, INCOME_PREFIX) then INCOME_COLOUR
    else if StartsWith(key, EXPENSE_PREFIX) then EXPENSE_COLOUR
    else OTHER_COLOUR
  }

  /** One entry of the grouping `Map`: a key and its summed amount. */
  datatype Entry = Entry(key: string, amount: nat)

  /** One slice of the pie: a group and its colour. */
  datatype Slice = Slice(key: string, amount: nat, colour: string)

  /** What `drawChart` shows: the "No data" placeholder for no records, the
      "No amounts" placeholder when the amounts add up to zero, or a pie with
      the grand total and one slice per group. */
  datatype Chart = NoData | NoAmounts | Pie(total: nat, slices: seq<Slice>)

  /** One entry per key of `ks`, with the amounts of `s`. */
  function EntriesOf(ks: seq<string>, s: seq<Transaction>): seq<Entry> {
    seq(|ks|, j requires 0 <= j < |ks| => Entry(ks[j], KeySum(s, ks[j])))
  }

  /** The entries of the grouping `Map` filled from `s`, in its iteration order. */
  function Groups(s: seq<Transaction>): seq<Entry> {
    EntriesOf(FirstSeen(Keys(s)), s)
  }

  /** `entries.reduce((s, e) => s + e[1], 0)`. */
  function SumEntries(es: seq<Entry>): nat {
    if es == [] then 0 else SumEntries(es[..|es| - 1]) + es[|es| - 1].amount
  }

  /** The entries with the colour of each. */
  function Paint(es: seq<Entry>): seq<Slice> {
    seq(|es|, j requires 0 <= j < |es| => Slice(es[j].key, es[j].amount, Colour(es[j].key)))
  }

  /** The summed amounts of the keys `ks`. */
  function SumOver(ks: seq<string>, s: seq<Transaction>): nat {
    if ks == [] then 0 else SumOver(ks[..|ks| - 1], s) + KeySum(s, ks[|ks| - 1])
  }

  lemma {:induction false} KeysAppend(s: seq<Transaction>, t: Transaction)
    ensures Keys(s + [t]) == Keys(s) + [GroupKey(t)]
  {
  }

  lemma {:induction false} KeySumAppend(s: seq<Transaction>, t: Transaction, k: string)
    ensures KeySum(s + [t], k) == KeySum(s, k) + (if GroupKey(t) == k then t.amount else 0)
  {
    assert (s + [t])[..|s|] == s;
  }

  lemma {:induction false} NewKeySum(s: seq<Transaction>, t: Transaction)
    requires GroupKey(t) !in Keys(s)
    ensures KeySum(s + [t], GroupKey(t)) == t.amount
  {
    KeySumAbsent(s, GroupKey(t));
    KeySumAppend(s, t, GroupKey(t));
  }

  /** A key that no record has sums to zero. */
  lemma {:induction false} KeySumAbsent(s: seq<Transaction>, k: string)
    requires k !in Keys(s)
    ensures KeySum(s, k) == 0
    decreases |s|
  {
    if s != [] {
      var init := s[..|s| - 1];
      assert Keys(init) == Keys(s)[..|s| - 1];
      assert Keys(s)[|s| - 1] == GroupKey(s[|s| - 1]);
      KeySumAbsent(init, k);
    }
  }

  lemma {:induction false} SumEntriesOf(ks: seq<string>, s: seq<Transaction>)
    ensures SumEntries(EntriesOf(ks, s)) == SumOver(ks, s)
    decreases |ks|
  {
    if ks != [] {
      var init := ks[..|ks| - 1];
      assert EntriesOf(ks, s)[..|ks| - 1] == EntriesOf(init, s);
      SumEntriesOf(init, s);
    }
  }

  /** One more record adds its amount to the sum over a list of distinct
      keys exactly when its key is among them. */
  lemma {:induction false} SumOverAppend(ks: seq<string>, s: seq<Transaction>, t: Transaction)
    requires Distinct(ks)
    ensures SumOver(ks, s + [t]) == SumOver(ks, s) + (if GroupKey(t) in ks then t.amount else 0)
    decreases |ks|
  {
    if ks != [] {
      var init, k := ks[..|ks| - 1], ks[|ks| - 1];
      assert ks == init + [k];
      SumOverAppend(init, s, t);
      KeySumAppend(s, t, k);
    }
  }

  /** The group sums add up to the sum of all amounts. */
  lemma {:induction false} GroupsSumToTotal(s: seq<Transaction>)
    ensures SumEntries(Groups(s)) == SumAmounts(s)
  {
    SumEntriesOf(FirstSeen(Keys(s)), s);
    GroupKeysSumToTotal(s);
  }

  /** The group sums over the first-seen keys add up to the sum of all amounts. */
  lemma {:induction false} GroupKeysSumToTotal(s: seq<Transaction>)
    ensures SumOver(FirstSeen(Keys(s)), s) == SumAmounts(s)
    decreases |s|
  {
    if s != [] {
      var init, t := s[..|s| - 1], s[|s| - 1];
      assert s == init + [t];
      GroupKeysSumToTotal(init);
      GroupKeysSumStep(init, t);
    }
  }

  /** One more record adds its amount to the group sums, whether its key is
      new or already seen. */
  lemma {:induction false} GroupKeysSumStep(s: seq<Transaction>, t: Transaction)
    ensures SumOver(FirstSeen(Keys(s + [t])), s + [t]) == SumOver(FirstSeen(Keys(s)), s) + t.amount
  {
    KeysAppend(s, t);
    FirstSeenAppend(Keys(s), GroupKey(t));
    var ks := FirstSeen(Keys(s));
    SumOverAppend(ks, s, t);
    if GroupKey(t) !in ks {
      SumOverNewKey(ks, s, t);
    }
  }

  /** A record with a key not seen before adds a group holding just its amount. */
  lemma {:induction false} SumOverNewKey(ks: seq<string>, s: seq<Transaction>, t: Transaction)
    requires GroupKey(t) !in ks
    requires forall k :: k in ks <==> k in Keys(s)
    ensures SumOver(ks + [GroupKey(t)], s + [t]) == SumOver(ks, s + [t]) + t.amount
  {
    assert (ks + [GroupKey(t)])[..|ks|] == ks;
    NewKeySum(s, t);
  }

  /** Within the key `kind|rest`, a prefix that ends in its only `|` can
      match only within `kind|`. */
  lemma {:induction false} StartsWithKey(kind: string, rest: string, prefix: string)
    requires prefix != [] && prefix[|prefix| - 1] == '|'
    requires forall i :: 0 <= i < |prefix| - 1 ==> prefix[i] != '|'
    ensures StartsWith(kind + "|" + rest, prefix) <==> StartsWith(kind + "|", prefix)
  {
    var key := kind + "|" + rest;
    if |prefix| <= |kind| + 1 {
      assert key[..|prefix|] == (kind + "|")[..|prefix|];
    } else {
      assert key[|kind|] == '|' && prefix[|kind|] != '|';
    }
  }

  /** The slice colour depends on the type alone, never on the category. */
  lemma {:induction false} ColourDependsOnlyOnType(kind: string, rest1: string, rest2: string)
    ensures Colour(kind + "|" + rest1) == Colour(kind + "|" + rest2)
  {
    StartsWithKey(kind, rest1, INCOME_PREFIX);
    StartsWithKey(kind, rest2, INCOME_PREFIX);
    StartsWithKey(kind, rest1, EXPENSE_PREFIX);
    StartsWithKey(kind, rest2, EXPENSE_PREFIX);
  }

  /** Income groups are green, expense groups red, and groups of any other
      type without a `|` in it grey. */
  lemma {:induction false} ColourOfType(t: Transaction)
    ensures t.kind == INCOME ==> Colour(GroupKey(t)) == INCOME_COLOUR
    ensures t.kind == EXPENSE ==> Colour(GroupKey(t)) == EXPENSE_COLOUR
    ensures t.kind != INCOME && t.kind != EXPENSE && '|' !in t.kind ==>
              Colour(GroupKey(t)) == OTHER_COLOUR
  {
    var kind := t.kind;
    StartsWithKey(kind, CategoryLabel(t.category), INCOME_PREFIX);
    StartsWithKey(kind, CategoryLabel(t.category), EXPENSE_PREFIX);
    if StartsWith(kind + "|", INCOME_PREFIX) && '|' !in kind {
      assert kind == (kind + "|")[..|kind|];
      assert (kind + "|")[|kind|] == '|';
      assert |kind| == 6;
    }
    if StartsWith(kind + "|", EXPENSE_PREFIX) && '|' !in kind {
      assert (kind + "|")[|kind|] == '|';
      assert |kind| == 7;
    }
  }

  /** For types without a `|`, equal keys mean equal type and equal
      category rest: grouping by key is grouping by the pair. */
  lemma {:induction false} GroupKeyInjective(t1: Transaction, t2: Transaction)
    requires '|' !in t1.kind && '|' !in t2.kind
    requires GroupKey(t1) == GroupKey(t2)
    ensures t1.kind == t2.kind
    ensures CategoryLabel(t1.category) == CategoryLabel(t2.category)
  {
    var key := GroupKey(t1);
    var n1, n2 := |t1.kind|, |t2.kind|;
    assert key == t1.kind + "|" + CategoryLabel(t1.category);
    assert key == t2.kind + "|" + CategoryLabel(t2.category);
    assert key[n1] == '|' && key[n2] == '|';
    assert forall i :: 0 <= i < n1 ==> key[i] == t1.kind[i];
    assert forall i :: 0 <= i < n2 ==> key[i] == t2.kind[i];
    assert n1 == n2;
    assert t1.kind == key[..n1] == t2.kind;
    assert CategoryLabel(t1.category) == key[n1 + 1..] == CategoryLabel(t2.category);
  }

  /** A JavaScript `Map` from keys to amounts: the keys in insertion order
      and the value of each. */
  datatype KeyedSums = KeyedSums(order: seq<string>, sums: map<string, nat>)

  /** The `Map` well formed: its keys are the keys of `order`. */
  ghost predicate WellFormed(m: KeyedSums) {
    forall k :: k in m.sums <==> k in m.order
  }

  /** `map.get(key) || 0`. */
  function GetOrZero(m: KeyedSums, key: string): nat {
    if key in m.sums then m.sums[key] else 0
  }

  /** `map.set(key, v)`: a new key goes to the end of the insertion order,
      an existing key keeps its place. */
  function Set(m: KeyedSums, key: string, v: nat): KeyedSums {
    if key in m.sums then KeyedSums(m.order, m.sums[key := v])
    else KeyedSums(m.order + [key], m.sums[key := v])
  }

  /** `Array.from(map.entries())`. */
  function MapEntries(m: KeyedSums): seq<Entry>
    requires WellFormed(m)
  {
    seq(|m.order|, j requires 0 <= j < |m.order| => Entry(m.order[j], m.sums[m.order[j]]))
  }

  /** `m` is the `Map` the grouping loop has built from the records `s`. */
  ghost predicate GroupedFrom(m: KeyedSums, s: seq<Transaction>) {
    && WellFormed(m)
    && m.order == FirstSeen(Keys(s))
    && (forall k :: k in m.sums ==> m.sums[k] == KeySum(s, k))
  }

  /** Setting the key of a record, whatever the value, extends the
      insertion order as the first-seen keys of the records grow. */
  lemma {:induction false} OrderStep(m: KeyedSums, s: seq<Transaction>, t: Transaction, v: nat)
    requires WellFormed(m) && m.order == FirstSeen(Keys(s))
    ensures WellFormed(Set(m, GroupKey(t), v))
    ensures Set(m, GroupKey(t), v).order == FirstSeen(Keys(s + [t]))
  {
    KeysAppend(s, t);
    FirstSeenAppend(Keys(s), GroupKey(t));
  }

  /** Adding the record's amount to its key keeps every value the sum of its key. */
  lemma {:induction false} SumsStep(m: KeyedSums, s: seq<Transaction>, t: Transaction)
    requires GroupedFrom(m, s)
    ensures forall k :: k in Set(m, GroupKey(t), GetOrZero(m, GroupKey(t)) + t.amount).sums ==>
              Set(m, GroupKey(t), GetOrZero(m, GroupKey(t)) + t.amount).sums[k] == KeySum(s + [t], k)
  {
    var key := GroupKey(t);
    var sums' := Set(m, key, GetOrZero(m, key) + t.amount).sums;
    assert sums' == m.sums[key := GetOrZero(m, key) + t.amount];
    forall k | k in sums' ensures sums'[k] == KeySum(s + [t], k) {
      KeySumAppend(s, t, k);
      if k == key && key !in m.sums {
        NewKeySum(s, t);
      }
    }
  }

  /** One step of the grouping loop, `map.set(key, (map.get(key)||0) + amount)`,
      extends the grouping by one record. */
  lemma {:induction false} GroupStep(m: KeyedSums, s: seq<Transaction>, t: Transaction)
    requires GroupedFrom(m, s)
    ensures GroupedFrom(Set(m, GroupKey(t), GetOrZero(m, GroupKey(t)) + t.amount), s + [t])
  {
    OrderStep(m, s, t, GetOrZero(m, GroupKey(t)) + t.amount);
    SumsStep(m, s, t);
  }

  /** The `Map` built from all records lists exactly their groups. */
  lemma {:induction false} MapEntriesAreGroups(m: KeyedSums, s: seq<Transaction>)
    requires GroupedFrom(m, s)
    ensures MapEntries(m) == Groups(s)
  {
  }

  /** The grouping loop of `drawChart`: fill a `Map` from key to summed
      amount in one pass, then list its entries in insertion order. */
  method GroupByKey(txs: seq<Transaction>) returns (entries: seq<Entry>)
    ensures entries == Groups(txs)
  {
    var m := KeyedSums([], map[]);
    for i := 0 to |txs|
      invariant GroupedFrom(m, txs[..i])
    {
      var t := txs[i];
      assert txs[..i + 1] == txs[..i] + [t];
      GroupStep(m, txs[..i], t);
      var key := GroupKey(t);
      m := Set(m, key, GetOrZero(m, key) + t.amount);
    }
    assert txs[..|txs|] == txs;
    MapEntriesAreGroups(m, txs);
    entries := MapEntries(m);
  }

  /** `drawChart` without the canvas: the placeholder for no records or a
      zero total, otherwise the groups of `txs` in first-seen order with their
      sums and colours, and the total they add up to. */
  method DrawChart(txs: seq<Transaction>) returns (chart: Chart)
    ensures chart == NoData <==> txs == []
    ensures chart == NoAmounts <==> txs != [] && SumAmounts(txs) == 0
    ensures chart.Pie? ==> chart.total == SumAmounts(txs) > 0 && chart.slices == Paint(Groups(txs))
  {
    if |txs| == 0 {
      return NoData;
    }
    var entries := GroupByKey(txs);
    GroupsSumToTotal(txs);
    var total := SumEntries(entries);
    if total == 0 {
      return NoAmounts;
    }
    // colours: income green, expense red, anything else grey
    var slices: seq<Slice> := [];
    for j := 0 to |entries|
      invariant slices == Paint(entries[..j])
    {
      var e := entries[j];
      slices := slices + [Slice(e.key, e.amount, Colour(e.key))];
    }
    assert entries[..|entries|] == entries;
    chart := Pie(total, slices);
  }
}
