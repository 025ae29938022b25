/** The consolidation step shared by every engine variant: raw trade rows
    grouped by (Account, Identifier, TaxStatus, Sleeve) with summed shares,
    dollars and gain, the last price and average cost, and the action
    recomputed from the net shares. Groups are kept in the order in which
    their first row appears. */
module Consolidation {
  import opened Options
  import opened Portfolio

  datatype GKey = GKey(account: string, identifier: string, taxStatus: string, sleeve: string)

  function KeyOf(t: Trade): GKey {
    GKey(t.account, t.identifier, t.taxStatus, t.sleeve)
  }

  function ActionFor(shares: real): (a: Action)
    ensures a == Buy <==> shares >= 0.0
  {
    if shares >= 0.0 then Buy else Sell
  }

  /** A raw trade folded into the running row of its group. */
  function Absorb(row: Trade, t: Trade): Trade {
    row.(shares := row.shares + t.shares,
         price := t.price,
         averageCost := t.averageCost,
         deltaDollars := row.deltaDollars + t.deltaDollars,
         capGain := row.capGain + t.capGain,
         action := ActionFor(row.shares + t.shares))
  }

  /** The first row of a new group. */
  function Open(t: Trade): Trade {
    t.(action := ActionFor(t.shares))
  }

  function FindKey(c: seq<Trade>, k: GKey): (r: Option<nat>)
    ensures r.Some? ==> r.value < |c| && KeyOf(c[r.value]) == k
    ensures r.None? ==> forall i :: 0 <= i < |c| ==> KeyOf(c[i]) != k
  {
    if c == [] then None
    else if KeyOf(c[0]) == k then Some(0)
    else
      var r := FindKey(c[1..], k);
      if r.Some? then Some(r.value + 1) else None
  }

  function MergeInto(c: seq<Trade>, t: Trade): seq<Trade> {
    match FindKey(c, KeyOf(t))
    case Some(i) => c[i := Absorb(c[i], t)]
    case None => c + [Open(t)]
  }

  predicate UniqueKeys(c: seq<Trade>) {
    forall i, j :: 0 <= i < j < |c| ==> KeyOf(c[i]) != KeyOf(c[j])
  }

  lemma UniqueIndex(c: seq<Trade>, m: int, i: int)
    requires UniqueKeys(c) && 0 <= m < |c| && 0 <= i < |c| && KeyOf(c[m]) == KeyOf(c[i])
    ensures m == i
  {
  }

  lemma MergeIntoKeeps(c: seq<Trade>, t: Trade)
    requires UniqueKeys(c)
    requires forall i :: 0 <= i < |c| ==> (c[i].action == Buy <==> c[i].shares >= 0.0)
    ensures var d := MergeInto(c, t);
      UniqueKeys(d) && |c| <= |d| <= |c| + 1
      && (forall i :: 0 <= i < |d| ==> (d[i].action == Buy <==> d[i].shares >= 0.0))
      && (forall i :: 0 <= i < |d| ==> KeyOf(d[i]) == KeyOf(t) || (i < |c| && KeyOf(d[i]) == KeyOf(c[i])))
      && (forall i :: 0 <= i < |c| ==> KeyOf(d[i]) == KeyOf(c[i]))
      && exists i :: 0 <= i < |d| && KeyOf(d[i]) == KeyOf(t)
  {
    match FindKey(c, KeyOf(t))
    case Some(i) =>
      assert KeyOf(MergeInto(c, t)[i]) == KeyOf(t);
    case None =>
      assert KeyOf(MergeInto(c, t)[|c|]) == KeyOf(t);
  }

  /** `groupby([...]).agg(...)` followed by the recomputed Action. */
  function Consolidate(ts: seq<Trade>): (c: seq<Trade>)
    ensures UniqueKeys(c)
    ensures |c| <= |ts|
    ensures forall i :: 0 <= i < |c| ==> (c[i].action == Buy <==> c[i].shares >= 0.0)
  {
    if ts == [] then []
    else
      var c0 := Consolidate(ts[..|ts| - 1]);
      MergeIntoKeeps(c0, ts[|ts| - 1]);
      MergeInto(c0, ts[|ts| - 1])
  }

  /** Every consolidated row is the group of some raw trade. */
  lemma {:induction false} ConsolidateFromInput(ts: seq<Trade>, i: int)
    requires 0 <= i < |Consolidate(ts)|
    ensures exists j :: 0 <= j < |ts| && KeyOf(ts[j]) == KeyOf(Consolidate(ts)[i])
    decreases |ts|
  {
    var pre := ts[..|ts| - 1];
    var t := ts[|ts| - 1];
    var c0 := Consolidate(pre);
    MergeIntoKeeps(c0, t);
    if KeyOf(Consolidate(ts)[i]) == KeyOf(t) {
      assert KeyOf(ts[|ts| - 1]) == KeyOf(Consolidate(ts)[i]);
    } else {
      ConsolidateFromInput(pre, i);
      var j :| 0 <= j < |pre| && KeyOf(pre[j]) == KeyOf(c0[i]);
      assert ts[j] == pre[j];
    }
  }

  /** Every raw trade's group has a consolidated row. */
  lemma {:induction false} ConsolidateCovers(ts: seq<Trade>, j: int)
    requires 0 <= j < |ts|
    ensures exists i :: 0 <= i < |Consolidate(ts)| && KeyOf(Consolidate(ts)[i]) == KeyOf(ts[j])
    decreases |ts|
  {
    var pre := ts[..|ts| - 1];
    var t := ts[|ts| - 1];
    var c0 := Consolidate(pre);
    MergeIntoKeeps(c0, t);
    assert Consolidate(ts) == MergeInto(c0, t);
    if j < |pre| {
      ConsolidateCovers(pre, j);
      assert ts[j] == pre[j];
      var i :| 0 <= i < |c0| && KeyOf(c0[i]) == KeyOf(pre[j]);
      assert KeyOf(Consolidate(ts)[i]) == KeyOf(c0[i]);
    }
  }

  // ----- sums -----

  /** Every group-by the reports use is a union of consolidation groups. */
  predicate KeyDetermined(sel: TSel, t: Trade, u: Trade) {
    KeyOf(t) == KeyOf(u) ==> TSelects(sel, t) == TSelects(sel, u)
  }

  predicate Additive(f: TField) {
    f == Shares || f == Dollars || f == Gain
  }

  lemma {:induction false} TSumUpdate(c: seq<Trade>, i: int, x: Trade, sel: TSel, f: TField)
    requires 0 <= i < |c|
    ensures TSum(c[i := x], sel, f) == TSum(c, sel, f)
      - (if TSelects(sel, c[i]) then TGet(c[i], f) else 0.0)
      + (if TSelects(sel, x) then TGet(x, f) else 0.0)
    decreases |c|
  {
    var d := c[i := x];
    if i == |c| - 1 {
      assert d[..|d| - 1] == c[..|c| - 1];
    } else {
      assert d[..|d| - 1] == c[..|c| - 1][i := x];
      TSumUpdate(c[..|c| - 1], i, x, sel, f);
    }
  }

  lemma MergeIntoSum(c: seq<Trade>, t: Trade, sel: TSel, f: TField)
    requires Additive(f)
    ensures TSum(MergeInto(c, t), sel, f) == TSum(c, sel, f) + (if TSelects(sel, t) then TGet(t, f) else 0.0)
  {
    match FindKey(c, KeyOf(t))
    case Some(i) =>
      assert KeyDetermined(sel, c[i], t);
      TSumUpdate(c, i, Absorb(c[i], t), sel, f);
    case None =>
      var d := c + [Open(t)];
      assert d[..|d| - 1] == c;
  }

  /** Consolidation preserves every account, key, group and status total of
      shares, dollars and gains. */
  lemma {:induction false} ConsolidatePreservesSums(ts: seq<Trade>, sel: TSel, f: TField)
    requires Additive(f)
    ensures TSum(Consolidate(ts), sel, f) == TSum(ts, sel, f)
    decreases |ts|
  {
    if ts != [] {
      ConsolidatePreservesSums(ts[..|ts| - 1], sel, f);
      MergeIntoSum(Consolidate(ts[..|ts| - 1]), ts[|ts| - 1], sel, f);
    }
  }

  lemma {:induction false} TSumOnly(c: seq<Trade>, i: int, sel: TSel, f: TField)
    requires 0 <= i < |c| && TSelects(sel, c[i])
    requires forall j :: 0 <= j < |c| && j != i ==> !TSelects(sel, c[j])
    ensures TSum(c, sel, f) == TGet(c[i], f)
    decreases |c|
  {
    if i < |c| - 1 {
      TSumOnly(c[..|c| - 1], i, sel, f);
    } else {
      var pre := c[..|c| - 1];
      forall j | 0 <= j < |pre| ensures !TSelects(sel, pre[j]) {
        assert pre[j] == c[j];
      }
      TSumNone(pre, sel, f);
    }
  }

  /** In a list with unique keys, a row is alone in its group. */
  lemma RowOfUnique(c: seq<Trade>, i: int, f: TField)
    requires UniqueKeys(c) && 0 <= i < |c|
    ensures TSum(c, TGroup(c[i].account, c[i].identifier, c[i].taxStatus, c[i].sleeve), f) == TGet(c[i], f)
  {
    var sel := TGroup(c[i].account, c[i].identifier, c[i].taxStatus, c[i].sleeve);
    forall j | 0 <= j < |c| && j != i ensures !TSelects(sel, c[j]) {
      if TSelects(sel, c[j]) { UniqueIndex(c, j, i); }
    }
    TSumOnly(c, i, sel, f);
  }

  /** Each consolidated row carries its group's summed shares, dollars and
      gain, and is a BUY exactly when the net shares are not negative. */
  lemma ConsolidatedRow(ts: seq<Trade>, i: int)
    requires 0 <= i < |Consolidate(ts)|
    ensures var r := Consolidate(ts)[i];
      r.shares == TSum(ts, TGroup(r.account, r.identifier, r.taxStatus, r.sleeve), Shares)
      && r.deltaDollars == TSum(ts, TGroup(r.account, r.identifier, r.taxStatus, r.sleeve), Dollars)
      && r.capGain == TSum(ts, TGroup(r.account, r.identifier, r.taxStatus, r.sleeve), Gain)
      && (r.action == Buy <==> r.shares >= 0.0)
  {
    var c := Consolidate(ts);
    var sel := TGroup(c[i].account, c[i].identifier, c[i].taxStatus, c[i].sleeve);
    RowOfUnique(c, i, Shares);
    RowOfUnique(c, i, Dollars);
    RowOfUnique(c, i, Gain);
    ConsolidatePreservesSums(ts, sel, Shares);
    ConsolidatePreservesSums(ts, sel, Dollars);
    ConsolidatePreservesSums(ts, sel, Gain);
  }

  /** Merging one raw trade sets the price and average cost of its group's
      row and leaves every other row as it was. */
  lemma MergeIntoLast(c: seq<Trade>, t: Trade, i: int)
    requires UniqueKeys(c)
    requires 0 <= i < |MergeInto(c, t)|
    ensures var d := MergeInto(c, t);
      if KeyOf(d[i]) == KeyOf(t) then d[i].price == t.price && d[i].averageCost == t.averageCost
      else i < |c| && d[i] == c[i]
  {
    match FindKey(c, KeyOf(t))
    case Some(m) =>
      if i != m {
        assert MergeInto(c, t)[i] == c[i];
        assert KeyOf(c[m]) == KeyOf(t);
        if KeyOf(c[i]) == KeyOf(t) {
          UniqueIndex(c, m, i);
        }
      }
    case None =>
  }

  /** A consolidated row takes the price and average cost of the last raw
      row of its group (pandas' "last" aggregation). */
  lemma {:induction false} ConsolidatedLast(ts: seq<Trade>, i: int)
    requires 0 <= i < |Consolidate(ts)|
    ensures var c := Consolidate(ts);
      exists j :: (0 <= j < |ts| && KeyOf(ts[j]) == KeyOf(c[i])
        && c[i].price == ts[j].price && c[i].averageCost == ts[j].averageCost
        && forall j' :: j < j' < |ts| ==> KeyOf(ts[j']) != KeyOf(c[i]))
    decreases |ts|
  {
    var pre := ts[..|ts| - 1];
    var t := ts[|ts| - 1];
    var c0 := Consolidate(pre);
    var c := Consolidate(ts);
    assert c == MergeInto(c0, t);
    MergeIntoLast(c0, t, i);
    if KeyOf(c[i]) == KeyOf(t) {
      var j := |ts| - 1;
      assert KeyOf(ts[j]) == KeyOf(c[i]) && c[i].price == ts[j].price && c[i].averageCost == ts[j].averageCost;
    } else {
      ConsolidatedLast(pre, i);
      var j :| 0 <= j < |pre| && KeyOf(pre[j]) == KeyOf(c0[i])
        && c0[i].price == pre[j].price && c0[i].averageCost == pre[j].averageCost
        && forall j' :: j < j' < |pre| ==> KeyOf(pre[j']) != KeyOf(c0[i]);
      assert ts[j] == pre[j];
      forall j' | j < j' < |ts| ensures KeyOf(ts[j']) != KeyOf(c[i]) {
        if j' < |pre| { assert ts[j'] == pre[j']; }
      }
    }
  }
}
