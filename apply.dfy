/** portfolio_trades/apply.py: `apply_trades_to_holdings`, the projection
    of the holdings after a trade list. Traded positions that no row holds
    get a zero placeholder row, each (account, identifier) key's summed
    share delta is applied, dust rows are dropped and Value is recomputed;
    Cost is left as it was. */
module ApplyTrades {
  import opened Numeric
  import opened Portfolio
  import opened Projection

  /** The dust threshold of the filter (`abs() > 1e-6`). */
  const ApplyDust: real := 0.000001

  /** The placeholder of a traded key no row holds: no tax status, sleeve
      US_Core, the identifier as name and symbol, and zero quantity, price,
      mean cost and value. */
  function Placeholder(a: string, i: string): (r: Holding)
    ensures r.account == a && r.symbol == i && r.name == i
    ensures r.taxStatus == "" && r.sleeve == "US_Core"
    ensures r.quantity == 0.0 && r.price == 0.0 && r.averageCost == 0.0 && r.value == 0.0
  {
    Holding(a, "", i, i, 0.0, 0.0, 0.0, 0.0, 0.0, "US_Core")
  }

  /** The loop over `need`: one placeholder per traded key that no row
      holds, in the order of the key's first trade. */
  method NeededPlaceholders(h: seq<Holding>, tx: seq<Trade>) returns (add: seq<Holding>)
    ensures |add| == |NewKeys(h, tx)|
    ensures forall m :: 0 <= m < |add| ==> add[m] == Placeholder(NewKeys(h, tx)[m].0, NewKeys(h, tx)[m].1)
  {
    var need := NewKeys(h, tx);
    add := [];
    var m := 0;
    while m < |need|
      invariant 0 <= m <= |need|
      invariant |add| == m
      invariant forall n :: 0 <= n < m ==> add[n] == Placeholder(need[n].0, need[n].1)
    {
      add := add + [Placeholder(need[m].0, need[m].1)];
      m := m + 1;
    }
  }

  /** The placeholder rows, as a list. */
  function Placeholders(h: seq<Holding>, tx: seq<Trade>): (add: seq<Holding>)
    ensures |add| == |NewKeys(h, tx)|
    ensures forall m :: 0 <= m < |add| ==> add[m] == Placeholder(NewKeys(h, tx)[m].0, NewKeys(h, tx)[m].1)
  {
    var keys := NewKeys(h, tx);
    seq(|keys|, m requires 0 <= m < |keys| => Placeholder(keys[m].0, keys[m].1))
  }

  /** `apply_delta` on one row: Quantity moves by `sh` and Value is
      recomputed when `sh` is not 0; Cost is not touched. */
  function Shift(r: Holding, sh: real): (v: Holding)
    ensures v.quantity == r.quantity + sh && SameKey(v, r)
    ensures v == r.(quantity := v.quantity, value := v.value)
  {
    if sh == 0.0 then r else r.(quantity := r.quantity + sh, value := (r.quantity + sh) * r.price)
  }

  /** `apply_delta` as written: every row of a key receives the key's whole delta. */
  function ShiftEveryRow(rows: seq<Holding>, tx: seq<Trade>): (out: seq<Holding>)
    ensures |out| == |rows|
  {
    seq(|rows|, k requires 0 <= k < |rows| => Shift(rows[k], KeyDelta(tx, rows[k].account, rows[k].symbol)))
  }

  /** The intended update: a key's delta is applied once, on its first row. */
  function ShiftOnce(rows: seq<Holding>, tx: seq<Trade>): (out: seq<Holding>)
    ensures |out| == |rows|
  {
    seq(|rows|, k requires 0 <= k < |rows| =>
      if FirstOfKey(rows, k) then Shift(rows[k], KeyDelta(tx, rows[k].account, rows[k].symbol)) else rows[k])
  }

  /** Value = Quantity × Price. */
  predicate AtPrice(r: Holding) {
    r.value == r.quantity * r.price
  }

  /** The row with Value recomputed as Quantity × Price. */
  function ValueRecomputed(r: Holding): (v: Holding)
    ensures v == r.(value := v.value) && AtPrice(v)
    ensures AtPrice(r) ==> v == r
  {
    r.(value := r.quantity * r.price)
  }

  /** The dust filter, then Value = Quantity × Price on every surviving row. */
  function Settle(rows: seq<Holding>): (out: seq<Holding>)
    ensures |out| == |DropDust(rows, ApplyDust)|
    ensures forall k :: 0 <= k < |out| ==> out[k] == ValueRecomputed(DropDust(rows, ApplyDust)[k])
  {
    var kept := DropDust(rows, ApplyDust);
    seq(|kept|, k requires 0 <= k < |kept| => ValueRecomputed(kept[k]))
  }

  /** `apply_trades_to_holdings` with the intended once-per-key update. */
  function Applied(h: seq<Holding>, tx: seq<Trade>): seq<Holding> {
    if tx == [] then h else Settle(ShiftOnce(h + Placeholders(h, tx), tx))
  }

  /** `apply_trades_to_holdings` as written. */
  function AppliedAsWritten(h: seq<Holding>, tx: seq<Trade>): seq<Holding> {
    if tx == [] then h else Settle(ShiftEveryRow(h + Placeholders(h, tx), tx))
  }

  /** The projection: an empty trade list returns the holdings as they are;
      otherwise every row is above the dust threshold and valued at Q × P. */
  method ApplyTradesToHoldings(h: seq<Holding>, tx: seq<Trade>) returns (out: seq<Holding>)
    ensures out == Applied(h, tx)
    ensures tx == [] ==> out == h
    ensures tx != [] ==> forall k :: 0 <= k < |out| ==> Abs(out[k].quantity) > ApplyDust && AtPrice(out[k])
  {
    if tx == [] {
      return h;
    }
    var add := NeededPlaceholders(h, tx);
    assert add == Placeholders(h, tx);
    var rows := ShiftOnce(h + add, tx);
    out := Settle(rows);
    var kept := DropDust(rows, ApplyDust);
    forall k | 0 <= k < |out|
      ensures Abs(out[k].quantity) > ApplyDust && AtPrice(out[k])
    {
      assert out[k] == ValueRecomputed(kept[k]);
    }
  }

  // ----- quantities per key -----

  /** Two row lists that agree row by row on key and quantity. */
  predicate SameQuantities(xs: seq<Holding>, ys: seq<Holding>) {
    |xs| == |ys| && forall k :: 0 <= k < |xs| ==> SameKey(xs[k], ys[k]) && xs[k].quantity == ys[k].quantity
  }

  lemma {:induction false} SameQuantitiesSum(xs: seq<Holding>, ys: seq<Holding>, a: string, i: string)
    requires SameQuantities(xs, ys)
    ensures HSum(xs, AcctIdent(a, i), Quantity) == HSum(ys, AcctIdent(a, i), Quantity)
  {
    if xs != [] {
      var n := |xs| - 1;
      assert SameQuantities(xs[..n], ys[..n]);
      SameQuantitiesSum(xs[..n], ys[..n], a, i);
    }
  }

  /** The shift moves quantities as the engines' update does (which also
      recomputes Cost). */
  lemma ShiftOnceAsEngine(rows: seq<Holding>, tx: seq<Trade>)
    ensures SameQuantities(ShiftOnce(rows, tx), ApplyDeltaOnce(rows, tx))
  {
    var xs := ShiftOnce(rows, tx);
    var ys := ApplyDeltaOnce(rows, tx);
    forall k | 0 <= k < |rows| ensures SameKey(xs[k], ys[k]) && xs[k].quantity == ys[k].quantity {
      var d := KeyDelta(tx, rows[k].account, rows[k].symbol);
      if FirstOfKey(rows, k) {
        assert xs[k] == Shift(rows[k], d) && ys[k] == Bump(rows[k], d);
      } else {
        assert xs[k] == rows[k] && ys[k] == rows[k];
      }
    }
  }

  lemma ShiftEveryRowAsEngine(rows: seq<Holding>, tx: seq<Trade>)
    ensures SameQuantities(ShiftEveryRow(rows, tx), ApplyDeltaEveryRow(rows, tx))
  {
    var xs := ShiftEveryRow(rows, tx);
    var ys := ApplyDeltaEveryRow(rows, tx);
    forall k | 0 <= k < |rows| ensures SameKey(xs[k], ys[k]) && xs[k].quantity == ys[k].quantity {
      var d := KeyDelta(tx, rows[k].account, rows[k].symbol);
      assert xs[k] == Shift(rows[k], d) && ys[k] == Bump(rows[k], d);
    }
  }

  /** The placeholder rows hold no shares. */
  lemma PlaceholdersEmpty(h: seq<Holding>, tx: seq<Trade>, a: string, i: string)
    ensures HSum(Placeholders(h, tx), AcctIdent(a, i), Quantity) == 0.0
  {
    ZeroQuantities(Placeholders(h, tx), AcctIdent(a, i));
  }

  /** Every traded key is held by a row of the holdings or of the placeholders. */
  lemma TradedKeyHeld(h: seq<Holding>, tx: seq<Trade>, j: int)
    requires 0 <= j < |tx|
    ensures HeldKey(h + Placeholders(h, tx), tx[j].account, tx[j].identifier)
  {
    var a := tx[j].account;
    var i := tx[j].identifier;
    var add := Placeholders(h, tx);
    var all := h + add;
    if HeldKey(h, a, i) {
      var k :| 0 <= k < |h| && h[k].account == a && h[k].symbol == i;
      assert all[k] == h[k];
    } else {
      var keys := NewKeys(h, tx);
      assert (a, i) in keys;
      var m :| 0 <= m < |keys| && keys[m] == (a, i);
      assert all[|h| + m] == add[m];
    }
  }

  /** Before the dust filter, a traded key's quantity is what the account held
      plus the key's summed share delta, placeholders included. */
  lemma TradedKeyTotal(h: seq<Holding>, tx: seq<Trade>, j: int)
    requires 0 <= j < |tx|
    ensures var a := tx[j].account; var i := tx[j].identifier;
      HSum(ShiftOnce(h + Placeholders(h, tx), tx), AcctIdent(a, i), Quantity)
        == HSum(h, AcctIdent(a, i), Quantity) + KeyDelta(tx, a, i)
  {
    var a := tx[j].account;
    var i := tx[j].identifier;
    var all := h + Placeholders(h, tx);
    ShiftOnceAsEngine(all, tx);
    SameQuantitiesSum(ShiftOnce(all, tx), ApplyDeltaOnce(all, tx), a, i);
    ApplyDeltaOnceTotal(all, tx, a, i);
    TradedKeyHeld(h, tx, j);
    HSumAppend(h, Placeholders(h, tx), AcctIdent(a, i), Quantity);
    PlaceholdersEmpty(h, tx, a, i);
  }

  /** A row whose key no trade names is left as it was. */
  lemma UntradedRowKept(rows: seq<Holding>, tx: seq<Trade>, k: int)
    requires 0 <= k < |rows|
    requires forall j :: 0 <= j < |tx| ==> !(tx[j].account == rows[k].account && tx[j].identifier == rows[k].symbol)
    ensures ShiftOnce(rows, tx)[k] == rows[k] && ShiftEveryRow(rows, tx)[k] == rows[k]
  {
    TSumNone(tx, TKey(rows[k].account, rows[k].symbol), Shares);
  }

  // ----- zero deltas -----

  lemma {:induction false} ZeroSharesZeroDelta(tx: seq<Trade>, a: string, i: string)
    requires forall j :: 0 <= j < |tx| ==> tx[j].shares == 0.0
    ensures KeyDelta(tx, a, i) == 0.0
  {
    if tx != [] {
      var pre := tx[..|tx| - 1];
      assert forall j :: 0 <= j < |pre| ==> pre[j] == tx[j];
      ZeroSharesZeroDelta(pre, a, i);
    }
  }

  lemma {:induction false} DropDustZeros(rows: seq<Holding>, add: seq<Holding>)
    requires forall m :: 0 <= m < |add| ==> add[m].quantity == 0.0
    ensures DropDust(rows + add, ApplyDust) == DropDust(rows, ApplyDust)
    decreases |add|
  {
    if add == [] {
      assert rows + add == rows;
    } else {
      var pre := add[..|add| - 1];
      assert (rows + add)[..|rows + add| - 1] == rows + pre;
      assert (rows + add)[|rows + add| - 1] == add[|add| - 1];
      assert forall m :: 0 <= m < |pre| ==> pre[m] == add[m];
      DropDustZeros(rows, pre);
    }
  }

  /** A trade list whose deltas are all 0 moves nothing: the result is the
      holdings, less their dust rows, with Value recomputed; the placeholder
      rows are dropped again. */
  lemma ZeroDeltasKeepHoldings(h: seq<Holding>, tx: seq<Trade>)
    requires tx != [] && forall j :: 0 <= j < |tx| ==> tx[j].shares == 0.0
    ensures Applied(h, tx) == Settle(h)
  {
    var all := h + Placeholders(h, tx);
    forall k | 0 <= k < |all| ensures ShiftOnce(all, tx)[k] == all[k] {
      ZeroSharesZeroDelta(tx, all[k].account, all[k].symbol);
    }
    assert ShiftOnce(all, tx) == all;
    DropDustZeros(h, Placeholders(h, tx));
  }

  /** Rows already valued at Q × P keep their quantity and value when the
      deltas are all 0. */
  lemma ZeroDeltasKeepValues(h: seq<Holding>, tx: seq<Trade>)
    requires tx != [] && forall j :: 0 <= j < |tx| ==> tx[j].shares == 0.0
    requires forall k :: 0 <= k < |h| ==> AtPrice(h[k])
    ensures forall k :: 0 <= k < |Applied(h, tx)| ==> Applied(h, tx)[k] in h
  {
    ZeroDeltasKeepHoldings(h, tx);
    var kept := DropDust(h, ApplyDust);
    var out := Settle(h);
    forall k | 0 <= k < |out| ensures out[k] in h {
      var r := kept[k];
      assert r in h;
      assert out[k] == ValueRecomputed(r);
    }
  }

  // ----- the every-row delta -----

  /** Two lots of 10 shares and a SELL of 15: as written both rows move by
      -15 and the position ends at -10 shares; applied once it ends at 5. */
  lemma ApplyDoubleCount()
    ensures var lot := Holding("A", "Taxable", "X", "X", 10.0, 1.0, 1.0, 10.0, 10.0, "US_Core");
      var tx := [Trade("A", "Taxable", "X", "US_Core", Sell, -15.0, 1.0, 1.0, -15.0, 0.0)];
      HSum(ShiftEveryRow([lot, lot], tx), AcctIdent("A", "X"), Quantity) == -10.0
      && HSum(ShiftOnce([lot, lot], tx), AcctIdent("A", "X"), Quantity) == 5.0
  {
    var lot := Holding("A", "Taxable", "X", "X", 10.0, 1.0, 1.0, 10.0, 10.0, "US_Core");
    var tx := [Trade("A", "Taxable", "X", "US_Core", Sell, -15.0, 1.0, 1.0, -15.0, 0.0)];
    DoubleCountExample();
    ShiftEveryRowAsEngine([lot, lot], tx);
    SameQuantitiesSum(ShiftEveryRow([lot, lot], tx), ApplyDeltaEveryRow([lot, lot], tx), "A", "X");
    ShiftOnceAsEngine([lot, lot], tx);
    SameQuantitiesSum(ShiftOnce([lot, lot], tx), ApplyDeltaOnce([lot, lot], tx), "A", "X");
  }

  /** As written, a key's quantity moves by its delta once per row of the key. */
  lemma EveryRowTotal(rows: seq<Holding>, tx: seq<Trade>, a: string, i: string)
    ensures HSum(ShiftEveryRow(rows, tx), AcctIdent(a, i), Quantity)
      == HSum(rows, AcctIdent(a, i), Quantity) + Repeat(KeyRows(rows, a, i), KeyDelta(tx, a, i))
  {
    ShiftEveryRowAsEngine(rows, tx);
    SameQuantitiesSum(ShiftEveryRow(rows, tx), ApplyDeltaEveryRow(rows, tx), a, i);
    ApplyDeltaEveryRowTotal(rows, tx, a, i);
  }
}
