/**
 * "Gastos por Categoria": the outgoing transactions are grouped by category name in an
 * insertion-ordered map whose entries carry a running total of absolute amounts and the
 * colour seen first for that name; the entries are then sorted by total, largest first,
 * with a stable sort, and the first six are kept for the pie chart.
 *
 * Amounts are integer cents. The query that selects the user's outgoing transactions (and
 * the optional date filter applied to it) runs on the backend; the model starts from the
 * rows it returns, in the order it returns them.
 */
module Relatorios {
  import opened Wrappers

  /** The joined `categories` row of a transaction. */
  datatype CategoryRef = CategoryRef(name: string, color: string)

  /** One returned transaction: its amount in cents and its category, if any. */
  datatype Tx = Tx(amount: int, category: Option<CategoryRef>)

  /** One slice of the chart. */
  datatype Slice = Slice(name: string, value: nat, color: string)

  const Uncategorised := "Sem categoria"
  const DefaultColor := "#9CA3AF"
  const MaxSlices := 6

  function Abs(x: int): (r: nat)
    ensures r == x || r == -x
  {
    if x < 0 then -x else x
  }

  /** `categories?.name || 'Sem categoria'`: a missing or empty name falls back. */
  function NameOf(t: Tx): (n: string)
    ensures n != ""
    ensures t.category.None? || t.category.value.name == "" ==> n == Uncategorised
    ensures t.category.Some? && t.category.value.name != "" ==> n == t.category.value.name
  {
    if t.category.Some? && t.category.value.name != "" then t.category.value.name else Uncategorised
  }

  /** `categories?.color || '#9CA3AF'`. */
  function ColorOf(t: Tx): (c: string)
    ensures c != ""
    ensures t.category.Some? && t.category.value.color != "" ==> c == t.category.value.color
    ensures t.category.None? || t.category.value.color == "" ==> c == DefaultColor
  {
    if t.category.Some? && t.category.value.color != "" then t.category.value.color else DefaultColor
  }

  predicate Distinct(s: seq<string>) {
    forall i, j :: 0 <= i < j < |s| ==> s[i] != s[j]
  }

  function Init(txs: seq<Tx>): seq<Tx>
    requires txs != []
  {
    txs[..|txs| - 1]
  }

  function Last(txs: seq<Tx>): Tx
    requires txs != []
  {
    txs[|txs| - 1]
  }

  /** Some transaction of `txs` is grouped under `name`. */
  predicate Mentions(txs: seq<Tx>, name: string) {
    exists j :: 0 <= j < |txs| && NameOf(txs[j]) == name
  }

  lemma MentionsSnoc(txs: seq<Tx>, name: string)
    requires txs != []
    ensures Mentions(txs, name) <==> Mentions(Init(txs), name) || NameOf(Last(txs)) == name
  {
    if Mentions(txs, name) {
      var j :| 0 <= j < |txs| && NameOf(txs[j]) == name;
      if j < |txs| - 1 {
        assert Init(txs)[j] == txs[j];
      }
    }
    if Mentions(Init(txs), name) {
      var j :| 0 <= j < |Init(txs)| && NameOf(Init(txs)[j]) == name;
      assert txs[j] == Init(txs)[j];
    }
  }

  // ---------------------------------------------------------------- the grouping, specified

  /** The keys of the map in insertion order: each name once, in order of first appearance. */
  function Names(txs: seq<Tx>): (r: seq<string>)
    ensures Distinct(r)
    ensures forall n :: n in r <==> Mentions(txs, n)
  {
    if txs == [] then []
    else
      var prev := Names(Init(txs));
      var n := NameOf(Last(txs));
      forall m ensures Mentions(txs, m) <==> Mentions(Init(txs), m) || NameOf(Last(txs)) == m {
        MentionsSnoc(txs, m);
      }
      if n in prev then prev else prev + [n]
  }

  /** Index of the first transaction grouped under `name`. */
  function FirstMention(txs: seq<Tx>, name: string): (j: nat)
    requires Mentions(txs, name)
    ensures j < |txs| && NameOf(txs[j]) == name
    ensures forall k :: 0 <= k < j ==> NameOf(txs[k]) != name
  {
    MentionsSnoc(txs, name);
    if Mentions(Init(txs), name) then FirstMention(Init(txs), name) else |txs| - 1
  }

  /** The keys are in order of first appearance: an earlier key was first seen earlier. */
  lemma {:induction false} NamesInFirstAppearanceOrder(txs: seq<Tx>, i: int, j: int)
    requires 0 <= i < j < |Names(txs)|
    ensures FirstMention(txs, Names(txs)[i]) < FirstMention(txs, Names(txs)[j])
  {
    var prev, n := Names(Init(txs)), NameOf(Last(txs));
    var x, y := Names(txs)[i], Names(txs)[j];
    assert Mentions(Init(txs), x) by {
      assert x in prev;
    }
    MentionsSnoc(txs, x);
    assert FirstMention(txs, x) == FirstMention(Init(txs), x) < |txs| - 1;
    if j < |prev| {
      assert y == prev[j] && x == prev[i];
      MentionsSnoc(txs, y);
      NamesInFirstAppearanceOrder(Init(txs), i, j);
    } else {
      assert y == n && n !in prev;
      MentionsSnoc(txs, y);
    }
  }

  /** Sum of the absolute amounts of the transactions grouped under `name`. */
  function TotalFor(txs: seq<Tx>, name: string): nat {
    if txs == [] then 0
    else TotalFor(Init(txs), name) + (if NameOf(Last(txs)) == name then Abs(Last(txs).amount) else 0)
  }

  /** The colour stored with `name`: that of the first transaction grouped under it. */
  function FirstColor(txs: seq<Tx>, name: string): string
    requires Mentions(txs, name)
  {
    MentionsSnoc(txs, name);
    if Mentions(Init(txs), name) then FirstColor(Init(txs), name) else ColorOf(Last(txs))
  }

  /** `Array.from(categoryTotals.entries()).map(...)`: one slice per key, in key order. */
  function Groups(txs: seq<Tx>): (g: seq<Slice>)
    ensures |g| == |Names(txs)|
    ensures forall k :: 0 <= k < |g| ==> g[k].name == Names(txs)[k]
  {
    var ns := Names(txs);
    seq(|ns|, k requires 0 <= k < |ns| => Slice(ns[k], TotalFor(txs, ns[k]), FirstColor(txs, ns[k])))
  }

  // ---------------------------------------------------------------- properties of the grouping

  /** A name no transaction is grouped under has total 0. */
  lemma {:induction false} TotalForUnmentioned(txs: seq<Tx>, name: string)
    requires !Mentions(txs, name)
    ensures TotalFor(txs, name) == 0
  {
    if txs != [] {
      MentionsSnoc(txs, name);
      TotalForUnmentioned(Init(txs), name);
    }
  }

  /** The first transaction grouped under `name` is the one whose colour the group keeps. */
  lemma {:induction false} FirstColorIsFirstSeen(txs: seq<Tx>, name: string)
    requires Mentions(txs, name)
    ensures exists j :: (0 <= j < |txs| && NameOf(txs[j]) == name
                         && (forall i :: 0 <= i < j ==> NameOf(txs[i]) != name)
                         && FirstColor(txs, name) == ColorOf(txs[j]))
  {
    MentionsSnoc(txs, name);
    if Mentions(Init(txs), name) {
      FirstColorIsFirstSeen(Init(txs), name);
      var j :| (0 <= j < |Init(txs)| && NameOf(Init(txs)[j]) == name
                && (forall i :: 0 <= i < j ==> NameOf(Init(txs)[i]) != name)
                && FirstColor(Init(txs), name) == ColorOf(Init(txs)[j]));
      assert txs[j] == Init(txs)[j];
      assert forall i :: 0 <= i < j ==> txs[i] == Init(txs)[i];
    } else {
      var j := |txs| - 1;
      forall i | 0 <= i < j ensures NameOf(txs[i]) != name {
        assert txs[i] == Init(txs)[i];
      }
    }
  }

  /** Transactions without a (named) category all land in one "Sem categoria" group. */
  lemma UncategorisedGroup(txs: seq<Tx>, j: int)
    requires 0 <= j < |txs| && (txs[j].category.None? || txs[j].category.value.name == "")
    ensures Uncategorised in Names(txs)
    ensures forall k :: 0 <= k < |Groups(txs)| && Groups(txs)[k].name == Uncategorised ==>
      Groups(txs)[k].value >= Abs(txs[j].amount)
  {
    assert NameOf(txs[j]) == Uncategorised;
    forall k | 0 <= k < |Groups(txs)| && Groups(txs)[k].name == Uncategorised
      ensures Groups(txs)[k].value >= Abs(txs[j].amount)
    {
      TotalForAtLeast(txs, Uncategorised, j);
    }
  }

  /** Each transaction contributes its absolute amount to the total of its own name. */
  lemma {:induction false} TotalForAtLeast(txs: seq<Tx>, name: string, j: int)
    requires 0 <= j < |txs| && NameOf(txs[j]) == name
    ensures TotalFor(txs, name) >= Abs(txs[j].amount)
  {
    if j < |txs| - 1 {
      assert Init(txs)[j] == txs[j];
      TotalForAtLeast(Init(txs), name, j);
    }
  }

  function SumAbs(txs: seq<Tx>): nat {
    if txs == [] then 0 else SumAbs(Init(txs)) + Abs(Last(txs).amount)
  }

  function SumTotals(txs: seq<Tx>, ns: seq<string>): nat {
    if ns == [] then 0 else TotalFor(txs, ns[0]) + SumTotals(txs, ns[1..])
  }

  function SumValues(g: seq<Slice>): nat {
    if g == [] then 0 else g[0].value + SumValues(g[1..])
  }

  lemma {:induction false} SumTotalsAppend(txs: seq<Tx>, a: seq<string>, b: seq<string>)
    ensures SumTotals(txs, a + b) == SumTotals(txs, a) + SumTotals(txs, b)
  {
    if a == [] {
      assert a + b == b;
    } else {
      assert (a + b)[1..] == a[1..] + b;
      SumTotalsAppend(txs, a[1..], b);
    }
  }

  /** Adding one transaction adds its amount to exactly one total of a list of distinct names that holds its name. */
  lemma {:induction false} SumTotalsSnoc(txs: seq<Tx>, ns: seq<string>)
    requires txs != [] && Distinct(ns)
    ensures SumTotals(txs, ns) == SumTotals(Init(txs), ns) + (if NameOf(Last(txs)) in ns then Abs(Last(txs).amount) else 0)
  {
    if ns != [] {
      assert Distinct(ns[1..]) by {
        forall i, j | 0 <= i < j < |ns[1..]| ensures ns[1..][i] != ns[1..][j] {
          assert ns[1..][i] == ns[i + 1] && ns[1..][j] == ns[j + 1];
        }
      }
      SumTotalsSnoc(txs, ns[1..]);
      if NameOf(Last(txs)) == ns[0] {
        assert NameOf(Last(txs)) !in ns[1..] by {
          forall k | 0 <= k < |ns[1..]| ensures ns[1..][k] != ns[0] {
            assert ns[1..][k] == ns[k + 1];
          }
        }
      } else {
        assert NameOf(Last(txs)) in ns <==> NameOf(Last(txs)) in ns[1..] by {
          assert ns == [ns[0]] + ns[1..];
        }
      }
    }
  }

  /** The group totals over all keys add up to the sum of all absolute amounts: nothing is lost or counted twice. */
  lemma {:induction false} GroupTotalsConserve(txs: seq<Tx>)
    ensures SumTotals(txs, Names(txs)) == SumAbs(txs)
  {
    if txs != [] {
      var prev := Names(Init(txs));
      var n := NameOf(Last(txs));
      GroupTotalsConserve(Init(txs));
      SumTotalsSnoc(txs, Names(txs));
      if n in prev {
        assert Names(txs) == prev;
      } else {
        assert Names(txs) == prev + [n];
        SumTotalsSnoc(txs, prev);
        SumTotalsAppend(Init(txs), prev, [n]);
        MentionsSnoc(txs, n);
        TotalForUnmentioned(Init(txs), n);
        assert SumTotals(Init(txs), [n]) == 0;
      }
    }
  }

  lemma {:induction false} SumValuesIsSumTotals(txs: seq<Tx>, g: seq<Slice>, ns: seq<string>)
    requires |g| == |ns| && forall k :: 0 <= k < |g| ==> g[k].name == ns[k] && g[k].value == TotalFor(txs, ns[k])
    ensures SumValues(g) == SumTotals(txs, ns)
  {
    if g != [] {
      SumValuesIsSumTotals(txs, g[1..], ns[1..]);
    }
  }

  /** The grouped values add up to the total of all absolute amounts. */
  lemma GroupsConserveTotal(txs: seq<Tx>)
    ensures SumValues(Groups(txs)) == SumAbs(txs)
  {
    SumValuesIsSumTotals(txs, Groups(txs), Names(txs));
    GroupTotalsConserve(txs);
  }

  // ---------------------------------------------------------------- the stable descending sort

  predicate SortedDesc(s: seq<Slice>) {
    forall i, j :: 0 <= i < j < |s| ==> s[i].value >= s[j].value
  }

  /** The slices of `s` whose value is `v`, in order. */
  function WithValue(s: seq<Slice>, v: nat): seq<Slice> {
    if s == [] then [] else (if s[0].value == v then [s[0]] else []) + WithValue(s[1..], v)
  }

  /** Place `x` in front of the first slice whose value does not exceed its own. */
  function Insert(x: Slice, s: seq<Slice>): (r: seq<Slice>)
    ensures multiset(r) == multiset(s) + multiset{x}
    ensures |r| == |s| + 1
  {
    if s == [] || x.value >= s[0].value then [x] + s
    else
      assert s == [s[0]] + s[1..];
      [s[0]] + Insert(x, s[1..])
  }

  lemma {:induction false} InsertSorted(x: Slice, s: seq<Slice>)
    requires SortedDesc(s)
    ensures SortedDesc(Insert(x, s))
  {
    if s != [] && x.value < s[0].value {
      var tail := Insert(x, s[1..]);
      InsertSorted(x, s[1..]);
      forall k | 0 <= k < |tail| ensures s[0].value >= tail[k].value {
        assert tail[k] in multiset(s[1..]) + multiset{x};
        if tail[k] != x {
          assert tail[k] in s[1..];
        }
      }
    }
  }

  /** `sort((a, b) => b.value - a.value)`: the stable sort as an insertion sort. */
  function SortDesc(s: seq<Slice>): (r: seq<Slice>)
    ensures SortedDesc(r)
    ensures multiset(r) == multiset(s) && |r| == |s|
  {
    if s == [] then []
    else
      assert s == [s[0]] + s[1..];
      InsertSorted(s[0], SortDesc(s[1..]));
      Insert(s[0], SortDesc(s[1..]))
  }

  lemma {:induction false} InsertKeepsTies(x: Slice, s: seq<Slice>, v: nat)
    ensures WithValue(Insert(x, s), v) == (if x.value == v then [x] else []) + WithValue(s, v)
  {
    if s == [] || x.value >= s[0].value {
      assert ([x] + s)[1..] == s;
    } else {
      var tail := Insert(x, s[1..]);
      InsertKeepsTies(x, s[1..], v);
      assert ([s[0]] + tail)[1..] == tail;
      assert WithValue([s[0]] + tail, v) == (if s[0].value == v then [s[0]] else []) + WithValue(tail, v);
      assert WithValue(s, v) == (if s[0].value == v then [s[0]] else []) + WithValue(s[1..], v);
      if x.value == v {
        assert s[0].value != v;
      }
    }
  }

  /** Stability: among slices of equal value the sorted order is the original order. */
  lemma {:induction false} SortDescIsStable(s: seq<Slice>, v: nat)
    ensures WithValue(SortDesc(s), v) == WithValue(s, v)
  {
    if s != [] {
      SortDescIsStable(s[1..], v);
      InsertKeepsTies(s[0], SortDesc(s[1..]), v);
    }
  }

  predicate DistinctNames(s: seq<Slice>) {
    forall i, j :: 0 <= i < j < |s| ==> s[i].name != s[j].name
  }

  lemma {:induction false} InsertKeepsDistinctNames(x: Slice, s: seq<Slice>)
    requires DistinctNames(s) && forall k :: 0 <= k < |s| ==> s[k].name != x.name
    ensures DistinctNames(Insert(x, s))
  {
    if s != [] && x.value < s[0].value {
      var tail := Insert(x, s[1..]);
      InsertKeepsDistinctNames(x, s[1..]);
      forall k | 0 <= k < |tail| ensures s[0].name != tail[k].name {
        assert tail[k] in multiset(s[1..]) + multiset{x};
        if tail[k] != x {
          var m :| 0 <= m < |s[1..]| && s[1..][m] == tail[k];
          assert s[m + 1] == tail[k];
        }
      }
    }
  }

  /** Sorting permutes the slices, so names that were distinct stay distinct. */
  lemma {:induction false} SortDescKeepsDistinctNames(s: seq<Slice>)
    requires DistinctNames(s)
    ensures DistinctNames(SortDesc(s))
  {
    if s != [] {
      SortDescKeepsDistinctNames(s[1..]);
      var rest := SortDesc(s[1..]);
      forall k | 0 <= k < |rest| ensures rest[k].name != s[0].name {
        assert rest[k] in multiset(s[1..]);
        var m :| 0 <= m < |s[1..]| && s[1..][m] == rest[k];
        assert s[m + 1] == rest[k];
      }
      InsertKeepsDistinctNames(s[0], rest);
    }
  }

  /** `slice(0, 6)`. */
  function Take(s: seq<Slice>, n: nat): (r: seq<Slice>)
    ensures |r| <= n && |r| <= |s| && r == s[..|r|]
    ensures |s| <= n ==> r == s
    ensures |s| > n ==> |r| == n
  {
    if |s| <= n then s else s[..n]
  }

  /** The chart data of a list of transactions. */
  function ChartData(txs: seq<Tx>): seq<Slice> {
    Take(SortDesc(Groups(txs)), MaxSlices)
  }

  /** The slices left off the chart are none larger than any slice on it. */
  lemma TopSlicesAreLargest(txs: seq<Tx>)
    ensures var sorted, shown := SortDesc(Groups(txs)), ChartData(txs);
      forall i, k :: 0 <= i < |shown| <= k < |sorted| ==> sorted[k].value <= shown[i].value
  {
  }

  // ---------------------------------------------------------------- the loop

  /** What one more row does to the insertion-ordered names. */
  lemma GroupStep(prefix: seq<Tx>, t: Tx)
    ensures Names(prefix + [t]) == if NameOf(t) in Names(prefix) then Names(prefix) else Names(prefix) + [NameOf(t)]
  {
    assert Init(prefix + [t]) == prefix;
  }

  /** What one more row does to the entry of one name `k`. */
  lemma GroupStepAt(prefix: seq<Tx>, t: Tx, k: string)
    ensures Mentions(prefix + [t], k) <==> Mentions(prefix, k) || NameOf(t) == k
    ensures TotalFor(prefix + [t], k) == TotalFor(prefix, k) + (if NameOf(t) == k then Abs(t.amount) else 0)
    ensures Mentions(prefix, k) ==> FirstColor(prefix + [t], k) == FirstColor(prefix, k)
    ensures !Mentions(prefix, k) && NameOf(t) == k ==> TotalFor(prefix, k) == 0 && FirstColor(prefix + [t], k) == ColorOf(t)
  {
    var next := prefix + [t];
    assert Init(next) == prefix && Last(next) == t;
    MentionsSnoc(next, k);
    if !Mentions(prefix, k) {
      TotalForUnmentioned(prefix, k);
    }
  }

  /** `keys`, `totals` and `colors` are the insertion-ordered map built from the rows `txs`. */
  ghost predicate MapOf(keys: seq<string>, totals: map<string, nat>, colors: map<string, string>, txs: seq<Tx>) {
    && keys == Names(txs)
    && (forall k :: k in totals <==> k in keys)
    && (forall k :: k in colors <==> k in keys)
    && (forall k :: k in totals ==> totals[k] == TotalFor(txs, k))
    && (forall k :: k in colors ==> Mentions(txs, k) && colors[k] == FirstColor(txs, k))
  }

  /** A row whose name already has an entry adds its amount to that entry. */
  lemma AddToExisting(keys: seq<string>, totals: map<string, nat>, colors: map<string, string>, prefix: seq<Tx>, t: Tx)
    requires MapOf(keys, totals, colors, prefix) && NameOf(t) in totals
    ensures MapOf(keys, totals[NameOf(t) := totals[NameOf(t)] + Abs(t.amount)], colors, prefix + [t])
  {
    var totals' := totals[NameOf(t) := totals[NameOf(t)] + Abs(t.amount)];
    var next := prefix + [t];
    assert keys == Names(next) by {
      assert NameOf(t) in Names(prefix);
      GroupStep(prefix, t);
    }
    assert forall k :: k in totals' ==> totals'[k] == TotalFor(next, k) by {
      forall k | k in totals' ensures totals'[k] == TotalFor(next, k) {
        GroupStepAt(prefix, t, k);
      }
    }
    assert forall k :: k in colors ==> Mentions(next, k) && colors[k] == FirstColor(next, k) by {
      forall k | k in colors ensures Mentions(next, k) && colors[k] == FirstColor(next, k) {
        GroupStepAt(prefix, t, k);
      }
    }
    MapOfIntro(keys, totals', colors, next);
  }

  /** A row with a new name appends the name and starts its entry with the row's amount and colour. */
  lemma AddFirstSeen(keys: seq<string>, totals: map<string, nat>, colors: map<string, string>, prefix: seq<Tx>, t: Tx)
    requires MapOf(keys, totals, colors, prefix) && NameOf(t) !in totals
    ensures MapOf(keys + [NameOf(t)], totals[NameOf(t) := Abs(t.amount)], colors[NameOf(t) := ColorOf(t)], prefix + [t])
  {
    var name := NameOf(t);
    var totals', colors' := totals[name := Abs(t.amount)], colors[name := ColorOf(t)];
    var next := prefix + [t];
    assert keys + [name] == Names(next) by {
      GroupStep(prefix, t);
    }
    assert forall k :: k in totals' ==> totals'[k] == TotalFor(next, k) by {
      forall k | k in totals' ensures totals'[k] == TotalFor(next, k) {
        GroupStepAt(prefix, t, k);
      }
    }
    assert forall k :: k in colors' ==> Mentions(next, k) && colors'[k] == FirstColor(next, k) by {
      forall k | k in colors' ensures Mentions(next, k) && colors'[k] == FirstColor(next, k) {
        GroupStepAt(prefix, t, k);
      }
    }
    MapOfIntro(keys + [name], totals', colors', next);
  }

  /** The five facts that make up `MapOf`, established one by one. */
  lemma MapOfIntro(keys: seq<string>, totals: map<string, nat>, colors: map<string, string>, txs: seq<Tx>)
    requires keys == Names(txs)
    requires forall k :: k in totals <==> k in keys
    requires forall k :: k in colors <==> k in keys
    requires forall k :: k in totals ==> totals[k] == TotalFor(txs, k)
    requires forall k :: k in colors ==> Mentions(txs, k) && colors[k] == FirstColor(txs, k)
    ensures MapOf(keys, totals, colors, txs)
  {
  }


  /** One call of the `forEach` callback: add the row's amount to its name's entry, creating the entry on first sight. */
  method AddRow(keys: seq<string>, totals: map<string, nat>, colors: map<string, string>, ghost prefix: seq<Tx>, t: Tx)
    returns (keys': seq<string>, totals': map<string, nat>, colors': map<string, string>)
    requires MapOf(keys, totals, colors, prefix)
    ensures MapOf(keys', totals', colors', prefix + [t])
  {
    var name := NameOf(t);
    var amount := Abs(t.amount);
    if name in totals {
      AddToExisting(keys, totals, colors, prefix, t);
      keys', totals', colors' := keys, totals[name := totals[name] + amount], colors;
    } else {
      AddFirstSeen(keys, totals, colors, prefix, t);
      keys', totals', colors' := keys + [name], totals[name := amount], colors[name := ColorOf(t)];
    }
  }

  /**
   * The `forEach` of `loadExpensesByCategory`: an insertion-ordered map, kept as its keys in
   * insertion order plus the totals and colours by key, filled one row at a time.
   */
  method GroupByCategory(transactions: seq<Tx>) returns (keys: seq<string>, totals: map<string, nat>, colors: map<string, string>)
    ensures keys == Names(transactions)
    ensures forall k :: k in totals <==> k in keys
    ensures forall k :: k in colors <==> k in keys
    ensures forall k :: k in totals ==> totals[k] == TotalFor(transactions, k)
    ensures forall k :: k in colors ==> Mentions(transactions, k) && colors[k] == FirstColor(transactions, k)
  {
    keys, totals, colors := [], map[], map[];
    var i := 0;
    while i < |transactions|
      invariant 0 <= i <= |transactions|
      invariant MapOf(keys, totals, colors, transactions[..i])
    {
      assert transactions[..i + 1] == transactions[..i] + [transactions[i]];
      keys, totals, colors := AddRow(keys, totals, colors, transactions[..i], transactions[i]);
      i := i + 1;
    }
    assert transactions[..i] == transactions;
  }

  /**
   * `loadExpensesByCategory` after the query: group the rows, turn the map entries into
   * slices, sort them by value (largest first, ties in insertion order) and keep six.
   */
  method ExpensesByCategory(transactions: seq<Tx>) returns (chartData: seq<Slice>)
    ensures chartData == ChartData(transactions)
    ensures |chartData| <= MaxSlices
    ensures SortedDesc(chartData)
    ensures DistinctNames(chartData)
    ensures forall s :: s in chartData ==>
      && Mentions(transactions, s.name)
      && s.value == TotalFor(transactions, s.name)
      && s.color == FirstColor(transactions, s.name)
  {
    var keys, totals, colors := GroupByCategory(transactions);
    ghost var g := Groups(transactions);
    var entries: seq<Slice> := [];
    for k := 0 to |keys|
      invariant entries == g[..k]
    {
      assert g[k] == Slice(keys[k], totals[keys[k]], colors[keys[k]]);
      entries := entries + [Slice(keys[k], totals[keys[k]], colors[keys[k]])];
    }
    assert entries == g;
    GroupsFacts(transactions);
    chartData := Take(SortDesc(entries), MaxSlices);
  }

  /** Every slice of the chart is the group of one of the names, with that name's total and first colour. */
  lemma GroupsFacts(txs: seq<Tx>)
    ensures DistinctNames(ChartData(txs)) && SortedDesc(ChartData(txs))
    ensures forall s :: s in ChartData(txs) ==>
      && Mentions(txs, s.name)
      && s.value == TotalFor(txs, s.name)
      && s.color == FirstColor(txs, s.name)
  {
    var g := Groups(txs);
    var sorted := SortDesc(g);
    var shown := ChartData(txs);
    assert shown == sorted[..|shown|];
    assert DistinctNames(shown) by {
      SortDescKeepsDistinctNames(g);
    }
    forall s | s in shown
      ensures Mentions(txs, s.name) && s.value == TotalFor(txs, s.name) && s.color == FirstColor(txs, s.name)
    {
      assert s in multiset(g) by {
        assert s in sorted;
      }
      var j :| 0 <= j < |g| && g[j] == s;
    }
  }
}
