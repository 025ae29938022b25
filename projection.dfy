/** The after-holdings projection and the residual report that the engines
    in portfolio_trades/engine.py, portfolio_trades/engine_prev.py and
    tools/patch_engine_global.py share: placeholder rows for traded
    positions not yet held, the per-(account, identifier) share deltas, the
    dust filter, the recomputed Value and Cost, and the accounts whose net
    cash flow exceeds the tolerance. */
module Projection {
  import opened Numeric
  import opened Options
  import opened Conventions
  import opened Portfolio
  import opened Classify

  /** The dust threshold below which an after-row is dropped. */
  const Dust: real := 0.000000001

  predicate HeldKey(h: seq<Holding>, a: string, i: string) {
    exists k :: 0 <= k < |h| && h[k].account == a && h[k].symbol == i
  }

  /** The summed share delta of an (account, identifier) key. */
  function KeyDelta(tx: seq<Trade>, a: string, i: string): real {
    TSum(tx, TKey(a, i), Shares)
  }

  /** The traded (account, identifier) keys that no row holds, each once, in
      the order of their first trade. */
  function NewKeys(h: seq<Holding>, tx: seq<Trade>): (keys: seq<(string, string)>)
    ensures forall m :: 0 <= m < |keys| ==> !HeldKey(h, keys[m].0, keys[m].1)
    ensures forall m :: 0 <= m < |keys| ==> exists j :: 0 <= j < |tx| && tx[j].account == keys[m].0 && tx[j].identifier == keys[m].1
    ensures forall j :: 0 <= j < |tx| && !HeldKey(h, tx[j].account, tx[j].identifier) ==> (tx[j].account, tx[j].identifier) in keys
    ensures forall m, n :: 0 <= m < n < |keys| ==> keys[m] != keys[n]
  {
    if tx == [] then []
    else
      var pre := NewKeys(h, tx[..|tx| - 1]);
      var t := tx[|tx| - 1];
      var k := (t.account, t.identifier);
      assert forall j :: 0 <= j < |tx| - 1 ==> tx[j] == tx[..|tx| - 1][j];
      if HeldKey(h, k.0, k.1) || k in pre then pre else pre + [k]
  }

  /** The engine's placeholder row: the sleeve guessed from the inverse proxy
      table, the identifier's median price (1.0 when there is none or it is
      not positive), and zero quantity, cost and value. */
  function EnginePlaceholder(prices: map<string, real>, a: string, i: string): (r: Holding)
    ensures r.account == a && r.symbol == i && r.name == i
    ensures r.quantity == 0.0 && r.value == 0.0 && r.cost == 0.0 && r.averageCost == 0.0
    ensures r.price > 0.0 && (i in prices && prices[i] > 0.0 ==> r.price == prices[i])
    ensures (i in prices && prices[i] > 0.0) || r.price == 1.0
    ensures r.sleeve == (if i in InvProxy then InvProxy[i] else "US_Core")
    ensures r.taxStatus == AssignTaxStatus(Some(a))
  {
    var px := if i in prices && prices[i] > 0.0 then prices[i] else 1.0;
    Holding(a, AssignTaxStatus(Some(a)), i, i, 0.0, px, 0.0, 0.0, 0.0,
            if i in InvProxy then InvProxy[i] else "US_Core")
  }

  function EnginePlaceholders(h: seq<Holding>, tx: seq<Trade>, prices: map<string, real>): (add: seq<Holding>)
    ensures |add| == |NewKeys(h, tx)|
  {
    var keys := NewKeys(h, tx);
    seq(|keys|, m requires 0 <= m < |keys| => EnginePlaceholder(prices, keys[m].0, keys[m].1))
  }

  /** Value = Quantity × Price and Cost = Quantity × AverageCost. */
  predicate Valued(r: Holding) {
    r.value == r.quantity * r.price && r.cost == r.quantity * r.averageCost
  }

  /** The row with Value and Cost recomputed from its quantity. */
  function Revalued(r: Holding): (v: Holding)
    ensures Valued(v) && v.quantity == r.quantity && SameKey(v, r)
    ensures v == r.(value := v.value, cost := v.cost)
  {
    r.(value := r.quantity * r.price, cost := r.quantity * r.averageCost)
  }

  /** A row moved by a share delta, with Value and Cost recomputed (`_apply`). */
  function Bump(r: Holding, sh: real): (v: Holding)
    ensures v.quantity == r.quantity + sh && SameKey(v, r)
  {
    if sh == 0.0 then r else Revalued(r.(quantity := r.quantity + sh))
  }

  predicate SameKey(x: Holding, y: Holding) {
    x.account == y.account && x.symbol == y.symbol
  }

  /** Row k is the first row of its (account, identifier) key. */
  predicate FirstOfKey(rows: seq<Holding>, k: int)
    requires 0 <= k < |rows|
  {
    forall j :: 0 <= j < k ==> !SameKey(rows[j], rows[k])
  }

  /** `_apply` as written: every row of a key receives the key's whole delta. */
  function ApplyDeltaEveryRow(rows: seq<Holding>, tx: seq<Trade>): (out: seq<Holding>)
    ensures |out| == |rows|
  {
    seq(|rows|, k requires 0 <= k < |rows| => Bump(rows[k], KeyDelta(tx, rows[k].account, rows[k].symbol)))
  }

  /** The intended update: a key's delta is applied once, on its first row. */
  function ApplyDeltaOnce(rows: seq<Holding>, tx: seq<Trade>): (out: seq<Holding>)
    ensures |out| == |rows|
    ensures forall k :: 0 <= k < |rows| ==> (SameKey(out[k], rows[k])
      && out[k].price == rows[k].price && out[k].sleeve == rows[k].sleeve
      && out[k].taxStatus == rows[k].taxStatus && out[k].averageCost == rows[k].averageCost)
  {
    seq(|rows|, k requires 0 <= k < |rows| =>
      if FirstOfKey(rows, k) then Bump(rows[k], KeyDelta(tx, rows[k].account, rows[k].symbol)) else rows[k])
  }

  lemma ApplyDeltaOncePrefix(rows: seq<Holding>, tx: seq<Trade>)
    requires rows != []
    ensures ApplyDeltaOnce(rows, tx)[..|rows| - 1] == ApplyDeltaOnce(rows[..|rows| - 1], tx)
  {
    var pre := rows[..|rows| - 1];
    forall k | 0 <= k < |pre| ensures ApplyDeltaOnce(rows, tx)[k] == ApplyDeltaOnce(pre, tx)[k] {
      assert FirstOfKey(rows, k) == FirstOfKey(pre, k);
    }
  }

  /** The last projected row's quantity: the key's delta is added when the
      row is the first of its key. */
  lemma ApplyDeltaOnceLast(rows: seq<Holding>, tx: seq<Trade>)
    requires rows != []
    ensures var x := rows[|rows| - 1];
      ApplyDeltaOnce(rows, tx)[|rows| - 1].quantity
        == x.quantity + (if FirstOfKey(rows, |rows| - 1) then KeyDelta(tx, x.account, x.symbol) else 0.0)
  {
    var n := |rows| - 1;
    var x := rows[n];
    var d := KeyDelta(tx, x.account, x.symbol);
    if FirstOfKey(rows, n) {
      assert ApplyDeltaOnce(rows, tx)[n] == Bump(x, d);
    } else {
      assert ApplyDeltaOnce(rows, tx)[n] == x;
    }
  }

  /** The last row is the first of its key exactly when no earlier row holds the key. */
  lemma FirstOfKeyLast(rows: seq<Holding>)
    requires rows != []
    ensures var x := rows[|rows| - 1];
      FirstOfKey(rows, |rows| - 1) <==> !HeldKey(rows[..|rows| - 1], x.account, x.symbol)
  {
    var pre := rows[..|rows| - 1];
    var x := rows[|rows| - 1];
    if HeldKey(pre, x.account, x.symbol) {
      var j :| 0 <= j < |pre| && pre[j].account == x.account && pre[j].symbol == x.symbol;
      assert SameKey(rows[j], x);
    }
    if !FirstOfKey(rows, |rows| - 1) {
      var j :| 0 <= j < |rows| - 1 && SameKey(rows[j], x);
      assert pre[j] == rows[j];
    }
  }

  /** Adding a row extends HeldKey by that row's key alone. */
  lemma HeldKeyLast(rows: seq<Holding>, a: string, i: string)
    requires rows != []
    ensures HeldKey(rows, a, i) <==> (HeldKey(rows[..|rows| - 1], a, i)
      || (rows[|rows| - 1].account == a && rows[|rows| - 1].symbol == i))
  {
    var pre := rows[..|rows| - 1];
    if HeldKey(rows, a, i) {
      var j :| 0 <= j < |rows| && rows[j].account == a && rows[j].symbol == i;
      if j < |pre| { assert pre[j] == rows[j]; }
    }
    if HeldKey(pre, a, i) {
      var j :| 0 <= j < |pre| && pre[j].account == a && pre[j].symbol == i;
      assert rows[j] == pre[j];
    }
  }

  /** With the intended update, the account's quantity of a held identifier
      moves by exactly the key's delta, and other keys do not move. */
  lemma {:induction false} ApplyDeltaOnceTotal(rows: seq<Holding>, tx: seq<Trade>, a: string, i: string)
    ensures HSum(ApplyDeltaOnce(rows, tx), AcctIdent(a, i), Quantity)
      == HSum(rows, AcctIdent(a, i), Quantity) + (if HeldKey(rows, a, i) then KeyDelta(tx, a, i) else 0.0)
    decreases |rows|
  {
    if rows != [] {
      var pre := rows[..|rows| - 1];
      var x := rows[|rows| - 1];
      var out := ApplyDeltaOnce(rows, tx);
      var sel := AcctIdent(a, i);
      ApplyDeltaOncePrefix(rows, tx);
      ApplyDeltaOnceTotal(pre, tx, a, i);
      ApplyDeltaOnceLast(rows, tx);
      FirstOfKeyLast(rows);
      HeldKeyLast(rows, a, i);
      assert out[..|out| - 1] == ApplyDeltaOnce(pre, tx);
      assert HSum(out, sel, Quantity) == HSum(ApplyDeltaOnce(pre, tx), sel, Quantity)
        + (if HSelects(sel, out[|out| - 1]) then out[|out| - 1].quantity else 0.0);
      assert HSum(rows, sel, Quantity) == HSum(pre, sel, Quantity)
        + (if HSelects(sel, x) then x.quantity else 0.0);
      assert HSelects(sel, out[|out| - 1]) == HSelects(sel, x);
    }
  }

  /** The number of rows of a key. */
  function KeyRows(rows: seq<Holding>, a: string, i: string): nat {
    if rows == [] then 0
    else KeyRows(rows[..|rows| - 1], a, i) + (if rows[|rows| - 1].account == a && rows[|rows| - 1].symbol == i then 1 else 0)
  }

  lemma EveryRowLast(rows: seq<Holding>, tx: seq<Trade>)
    requires rows != []
    ensures var x := rows[|rows| - 1]; var y := ApplyDeltaEveryRow(rows, tx)[|rows| - 1];
      y.quantity == x.quantity + KeyDelta(tx, x.account, x.symbol) && SameKey(x, y)
  {
  }

  /** `d` added `n` times. */
  function Repeat(n: nat, d: real): real {
    if n == 0 then 0.0 else Repeat(n - 1, d) + d
  }

  /** As written, the quantity moves by the delta once per row of the key. */
  lemma {:induction false} ApplyDeltaEveryRowTotal(rows: seq<Holding>, tx: seq<Trade>, a: string, i: string)
    ensures HSum(ApplyDeltaEveryRow(rows, tx), AcctIdent(a, i), Quantity)
      == HSum(rows, AcctIdent(a, i), Quantity) + Repeat(KeyRows(rows, a, i), KeyDelta(tx, a, i))
    decreases |rows|
  {
    if rows != [] {
      var pre := rows[..|rows| - 1];
      var x := rows[|rows| - 1];
      var sel := AcctIdent(a, i);
      ApplyDeltaEveryRowTotal(pre, tx, a, i);
      var out := ApplyDeltaEveryRow(rows, tx);
      assert out[..|out| - 1] == ApplyDeltaEveryRow(pre, tx);
      EveryRowLast(rows, tx);
      EveryRowStep(rows, out, a, i, KeyDelta(tx, a, i));
    }
  }

  /** One row of ApplyDeltaEveryRowTotal's induction: the last row moves the
      key's sum by `d` exactly when it is a row of the key. */
  lemma EveryRowStep(rows: seq<Holding>, out: seq<Holding>, a: string, i: string, d: real)
    requires rows != [] && |out| == |rows|
    requires HSum(out[..|out| - 1], AcctIdent(a, i), Quantity)
      == HSum(rows[..|rows| - 1], AcctIdent(a, i), Quantity) + Repeat(KeyRows(rows[..|rows| - 1], a, i), d)
    requires var x := rows[|rows| - 1]; var y := out[|out| - 1];
      SameKey(x, y) && (x.account == a && x.symbol == i ==> y.quantity == x.quantity + d)
    ensures HSum(out, AcctIdent(a, i), Quantity)
      == HSum(rows, AcctIdent(a, i), Quantity) + Repeat(KeyRows(rows, a, i), d)
  {
  }

  /** Two lots of 10 shares and one SELL of 15: as written the position ends
      at -10 shares instead of 5. */
  lemma DoubleCountExample()
    ensures var lot := Holding("A", "Taxable", "X", "X", 10.0, 1.0, 1.0, 10.0, 10.0, "US_Core");
      var tx := [Trade("A", "Taxable", "X", "US_Core", Sell, -15.0, 1.0, 1.0, -15.0, 0.0)];
      HSum(ApplyDeltaEveryRow([lot, lot], tx), AcctIdent("A", "X"), Quantity) == -10.0
      && HSum(ApplyDeltaOnce([lot, lot], tx), AcctIdent("A", "X"), Quantity) == 5.0
  {
    var lot := Holding("A", "Taxable", "X", "X", 10.0, 1.0, 1.0, 10.0, 10.0, "US_Core");
    var tx := [Trade("A", "Taxable", "X", "US_Core", Sell, -15.0, 1.0, 1.0, -15.0, 0.0)];
    var rows := [lot, lot];
    TwoLots(lot, tx);
    assert Repeat(2, -15.0) == -30.0;
    ApplyDeltaEveryRowTotal(rows, tx, "A", "X");
    ApplyDeltaOnceTotal(rows, tx, "A", "X");
  }

  /** The inputs of DoubleCountExample: the key holds 20 shares in two rows
      and its delta is -15. */
  lemma TwoLots(lot: Holding, tx: seq<Trade>)
    requires lot == Holding("A", "Taxable", "X", "X", 10.0, 1.0, 1.0, 10.0, 10.0, "US_Core")
    requires tx == [Trade("A", "Taxable", "X", "US_Core", Sell, -15.0, 1.0, 1.0, -15.0, 0.0)]
    ensures KeyDelta(tx, "A", "X") == -15.0
    ensures HSum([lot, lot], AcctIdent("A", "X"), Quantity) == 20.0
    ensures KeyRows([lot, lot], "A", "X") == 2 && HeldKey([lot, lot], "A", "X")
  {
    var rows := [lot, lot];
    var sel := AcctIdent("A", "X");
    assert tx[..0] == [];
    assert TSelects(TKey("A", "X"), tx[0]) && TGet(tx[0], Shares) == -15.0;
    assert TSum(tx, TKey("A", "X"), Shares) == -15.0;
    assert rows[..1] == [lot] && [lot][..0] == [];
    assert HSelects(sel, lot);
    assert HSum([lot], sel, Quantity) == 10.0;
    assert KeyRows([lot], "A", "X") == 1;
    assert rows[0].account == "A" && rows[0].symbol == "X";
  }

  /** `after[after["Quantity"].abs() > eps]`. */
  function DropDust(rows: seq<Holding>, eps: real): (out: seq<Holding>)
    ensures forall k :: 0 <= k < |out| ==> Abs(out[k].quantity) > eps && out[k] in rows
    ensures forall k :: 0 <= k < |rows| && Abs(rows[k].quantity) > eps ==> rows[k] in out
    ensures |out| <= |rows|
  {
    if rows == [] then []
    else
      var pre := DropDust(rows[..|rows| - 1], eps);
      var x := rows[|rows| - 1];
      assert forall k :: 0 <= k < |rows| - 1 ==> rows[k] == rows[..|rows| - 1][k];
      if Abs(x.quantity) > eps then pre + [x] else pre
  }

  /** Value = Quantity × Price and Cost = Quantity × AverageCost on every row. */
  function Revalue(rows: seq<Holding>): (out: seq<Holding>)
    ensures |out| == |rows|
    ensures forall k :: 0 <= k < |rows| ==> Valued(out[k]) && out[k].quantity == rows[k].quantity
    ensures forall k :: 0 <= k < |rows| ==> out[k] == rows[k].(value := out[k].value, cost := out[k].cost)
  {
    seq(|rows|, k requires 0 <= k < |rows| => Revalued(rows[k]))
  }

  /** A held key has at least one row. */
  lemma {:induction false} HeldKeyRows(rows: seq<Holding>, a: string, i: string)
    requires HeldKey(rows, a, i)
    ensures KeyRows(rows, a, i) >= 1
    decreases |rows|
  {
    var x := rows[|rows| - 1];
    if !(x.account == a && x.symbol == i) {
      var pre := rows[..|rows| - 1];
      var k :| 0 <= k < |rows| && rows[k].account == a && rows[k].symbol == i;
      assert pre[k] == rows[k];
      HeldKeyRows(pre, a, i);
    }
  }

  /** The after-holdings of engine.py:284-300 as written: every row of a
      traded key moves by the key's delta. */
  function AfterHoldingsAsWritten(df: seq<Holding>, tx: seq<Trade>, prices: map<string, real>): seq<Holding> {
    Revalue(DropDust(ApplyDeltaEveryRow(df + EnginePlaceholders(df, tx, prices), tx), Dust))
  }

  /** As written, every after-row is above the dust threshold and valued. */
  lemma AfterHoldingsAsWrittenRows(df: seq<Holding>, tx: seq<Trade>, prices: map<string, real>)
    ensures var after := AfterHoldingsAsWritten(df, tx, prices);
      forall k :: 0 <= k < |after| ==> Abs(after[k].quantity) > Dust && Valued(after[k])
  {
  }

  /** As written, a traded key has at least one row, and its quantity ends
      at what the account held plus the key's delta once per row. */
  lemma AfterHoldingsAsWrittenKeyTotal(df: seq<Holding>, tx: seq<Trade>, prices: map<string, real>, j: int)
    requires 0 <= j < |tx|
    ensures var all := df + EnginePlaceholders(df, tx, prices);
      var a := tx[j].account; var i := tx[j].identifier;
      KeyRows(all, a, i) >= 1
      && HSum(ApplyDeltaEveryRow(all, tx), AcctIdent(a, i), Quantity)
        == HSum(df, AcctIdent(a, i), Quantity) + Repeat(KeyRows(all, a, i), KeyDelta(tx, a, i))
  {
    var a := tx[j].account;
    var i := tx[j].identifier;
    var add := EnginePlaceholders(df, tx, prices);
    var all := df + add;
    ApplyDeltaEveryRowTotal(all, tx, a, i);
    HSumAppend(df, add, AcctIdent(a, i), Quantity);
    PlaceholdersHoldNothing(df, tx, prices, a, i);
    TradedKeyHeld(df, tx, prices, j);
    HeldKeyRows(all, a, i);
  }

  /** The after-holdings of engine.py with the intended one-row update (the
      corrected half of the double-count finding), which every pipeline uses. */
  function AfterHoldings(df: seq<Holding>, tx: seq<Trade>, prices: map<string, real>): seq<Holding> {
    Revalue(DropDust(ApplyDeltaOnce(df + EnginePlaceholders(df, tx, prices), tx), Dust))
  }

  /** Every after-row is above the dust threshold and valued at Q × P with
      cost Q × AverageCost. */
  lemma AfterHoldingsRows(df: seq<Holding>, tx: seq<Trade>, prices: map<string, real>)
    ensures var after := AfterHoldings(df, tx, prices);
      forall k :: 0 <= k < |after| ==> Abs(after[k].quantity) > Dust && Valued(after[k])
  {
  }

  /** Every traded (account, identifier) key has a row in the projected rows,
      and its quantity there is what the account held plus the key's delta. */
  lemma AfterHoldingsKeyTotal(df: seq<Holding>, tx: seq<Trade>, prices: map<string, real>, j: int)
    requires 0 <= j < |tx|
    ensures var rows := ApplyDeltaOnce(df + EnginePlaceholders(df, tx, prices), tx);
      var a := tx[j].account; var i := tx[j].identifier;
      HSum(rows, AcctIdent(a, i), Quantity) == HSum(df, AcctIdent(a, i), Quantity) + KeyDelta(tx, a, i)
  {
    var a := tx[j].account;
    var i := tx[j].identifier;
    var add := EnginePlaceholders(df, tx, prices);
    var all := df + add;
    ApplyDeltaOnceTotal(all, tx, a, i);
    HSumAppend(df, add, AcctIdent(a, i), Quantity);
    PlaceholdersHoldNothing(df, tx, prices, a, i);
    TradedKeyHeld(df, tx, prices, j);
  }

  /** With the placeholders added, every traded key has a row. */
  lemma TradedKeyHeld(df: seq<Holding>, tx: seq<Trade>, prices: map<string, real>, j: int)
    requires 0 <= j < |tx|
    ensures HeldKey(df + EnginePlaceholders(df, tx, prices), tx[j].account, tx[j].identifier)
  {
    var a := tx[j].account;
    var i := tx[j].identifier;
    var add := EnginePlaceholders(df, tx, prices);
    var all := df + add;
    if HeldKey(df, a, i) {
      var k :| 0 <= k < |df| && df[k].account == a && df[k].symbol == i;
      assert all[k] == df[k];
    } else {
      var keys := NewKeys(df, tx);
      assert (a, i) in keys;
      var m :| 0 <= m < |keys| && keys[m] == (a, i);
      assert all[|df| + m] == add[m];
    }
  }

  lemma PlaceholdersHoldNothing(df: seq<Holding>, tx: seq<Trade>, prices: map<string, real>, a: string, i: string)
    ensures HSum(EnginePlaceholders(df, tx, prices), AcctIdent(a, i), Quantity) == 0.0
  {
    var add := EnginePlaceholders(df, tx, prices);
    ZeroQuantities(add, AcctIdent(a, i));
  }

  lemma {:induction false} ZeroQuantities(rows: seq<Holding>, sel: HSel)
    requires forall k :: 0 <= k < |rows| ==> rows[k].quantity == 0.0
    ensures HSum(rows, sel, Quantity) == 0.0
    decreases |rows|
  {
    if rows != [] {
      ZeroQuantities(rows[..|rows| - 1], sel);
    }
  }

  /** Rows of keys that were not traded keep their quantity. */
  lemma UntradedRowsKeep(rows: seq<Holding>, tx: seq<Trade>, k: int)
    requires 0 <= k < |rows|
    requires forall j :: 0 <= j < |tx| ==> !(tx[j].account == rows[k].account && tx[j].identifier == rows[k].symbol)
    ensures ApplyDeltaOnce(rows, tx)[k] == rows[k]
  {
    TSumNone(tx, TKey(rows[k].account, rows[k].symbol), Shares);
  }

  // ----- residuals -----

  function TradedAccounts(tx: seq<Trade>): set<string> {
    set t | t in tx :: t.account
  }

  /** Net dollars of an account's trades. */
  function Flow(tx: seq<Trade>, a: string): real {
    TSum(tx, TAccount(a), Dollars)
  }

  /** `{acct: v for acct, v in flow.items() if abs(v) > cash_tolerance}`. */
  function Residuals(tx: seq<Trade>, tol: real): (r: map<string, real>)
    ensures forall a :: a in r <==> a in TradedAccounts(tx) && Abs(Flow(tx, a)) > tol
    ensures forall a :: a in r ==> r[a] == Flow(tx, a)
  {
    map a | a in TradedAccounts(tx) && Abs(Flow(tx, a)) > tol :: Flow(tx, a)
  }
}
