/** The two tables every engine works on: holdings rows and trade rows, and
    the group-by sums over them (pandas `groupby(...).sum()` restricted to
    one group). */
module Portfolio {
  import opened Numeric
  import opened Conventions
  import opened Options

  /** One holdings row. `symbol` doubles as the row's trading identifier
      (the engines' `_ident` column is `Symbol` as a string). */
  datatype Holding = Holding(
    account: string, taxStatus: string, name: string, symbol: string,
    quantity: real, price: real, averageCost: real, value: real, cost: real,
    sleeve: string)

  datatype Action = Buy | Sell

  /** One trade row; `shares` is signed (negative for a sell). */
  datatype Trade = Trade(
    account: string, taxStatus: string, identifier: string, sleeve: string,
    action: Action, shares: real, price: real, averageCost: real,
    deltaDollars: real, capGain: real)

  // ----- group-by sums over holdings -----

  /** The row groups the engines sum over. */
  datatype HSel =
    | AllRows
    | InAccount(a: string)
    | AcctSleeve(a: string, s: string)
    | AcctIdent(a: string, i: string)
    | AcctSleeveIdent(a: string, s: string, i: string)
    | AcctIlliquid(a: string)
    | IlliquidRows
    | LiquidInSleeve(s: string)
    | InSleeve(s: string)
    | SleeveIdent(s: string, i: string)

  predicate HSelects(sel: HSel, x: Holding) {
    match sel
    case AllRows => true
    case InAccount(a) => x.account == a
    case AcctSleeve(a, s) => x.account == a && x.sleeve == s
    case AcctIdent(a, i) => x.account == a && x.symbol == i
    case AcctSleeveIdent(a, s, i) => x.account == a && x.sleeve == s && x.symbol == i
    case AcctIlliquid(a) => x.account == a && IsAutomattic(x.symbol, x.name)
    case IlliquidRows => IsAutomattic(x.symbol, x.name)
    case LiquidInSleeve(s) => !IsAutomattic(x.symbol, x.name) && x.sleeve == s
    case InSleeve(s) => x.sleeve == s
    case SleeveIdent(s, i) => x.sleeve == s && x.symbol == i
  }

  /** Value, Quantity, and AverageCost × Quantity. */
  datatype HField = Value | Quantity | CostBasis

  function HGet(x: Holding, f: HField): real {
    match f
    case Value => x.value
    case Quantity => x.quantity
    case CostBasis => x.averageCost * x.quantity
  }

  /** The sum of field `f` over the rows that `sel` selects. */
  function HSum(h: seq<Holding>, sel: HSel, f: HField): real {
    if h == [] then 0.0
    else HSum(h[..|h| - 1], sel, f) + (if HSelects(sel, h[|h| - 1]) then HGet(h[|h| - 1], f) else 0.0)
  }

  /** A sum over no selected row is 0. */
  lemma {:induction false} HSumNone(h: seq<Holding>, sel: HSel, f: HField)
    requires forall k :: 0 <= k < |h| ==> !HSelects(sel, h[k])
    ensures HSum(h, sel, f) == 0.0
  {
    if h != [] {
      HSumNone(h[..|h| - 1], sel, f);
    }
  }

  lemma {:induction false} HSumAppend(a: seq<Holding>, b: seq<Holding>, sel: HSel, f: HField)
    ensures HSum(a + b, sel, f) == HSum(a, sel, f) + HSum(b, sel, f)
    decreases |b|
  {
    if b == [] {
      assert a + b == a;
    } else {
      assert (a + b)[..|a + b| - 1] == a + b[..|b| - 1];
      HSumAppend(a, b[..|b| - 1], sel, f);
    }
  }

  /** The quantity-weighted average cost of an account's position in an
      identifier, and 0 when the account holds no positive quantity of it. */
  function AvgCost(h: seq<Holding>, acct: string, ident: string): real {
    var q := HSum(h, AcctIdent(acct, ident), Quantity);
    if q > 0.0 then HSum(h, AcctIdent(acct, ident), CostBasis) / q else 0.0
  }

  /** The average cost times the held quantity is the cost basis; it is 0
      when nothing is held. */
  lemma AvgCostFacts(h: seq<Holding>, acct: string, ident: string)
    ensures var q := HSum(h, AcctIdent(acct, ident), Quantity);
      q > 0.0 ==> AvgCost(h, acct, ident) * q == HSum(h, AcctIdent(acct, ident), CostBasis)
    ensures HSum(h, AcctIdent(acct, ident), Quantity) <= 0.0 ==> AvgCost(h, acct, ident) == 0.0
  {
  }

  /** `g["TaxStatus"].iloc[0]`: the status on the first row of the account
      ("" when the account has no row). */
  function FirstStatus(h: seq<Holding>, acct: string): string {
    if h == [] then ""
    else if h[0].account == acct then h[0].taxStatus
    else FirstStatus(h[1..], acct)
  }

  /** FirstStatus is the status of the first row of the account. */
  lemma {:induction false} FirstStatusIsFirst(h: seq<Holding>, acct: string, k: int)
    requires 0 <= k < |h| && h[k].account == acct
    ensures exists j :: (0 <= j <= k && h[j].account == acct && h[j].taxStatus == FirstStatus(h, acct)
      && forall i :: 0 <= i < j ==> h[i].account != acct)
  {
    if h[0].account != acct {
      FirstStatusIsFirst(h[1..], acct, k - 1);
      var j :| 0 <= j <= k - 1 && h[1..][j].account == acct && h[1..][j].taxStatus == FirstStatus(h[1..], acct)
        && forall i :: 0 <= i < j ==> h[1..][i].account != acct;
      assert h[j + 1] == h[1..][j];
      forall i | 0 <= i < j + 1 ensures h[i].account != acct {
        if i > 0 { assert h[i] == h[1..][i - 1]; }
      }
    }
  }

  /** The account names of the rows, in row order (with repeats). */
  function RowAccounts(h: seq<Holding>): (r: seq<string>)
    ensures |r| == |h| && forall k :: 0 <= k < |h| ==> r[k] == h[k].account
  {
    seq(|h|, k requires 0 <= k < |h| => h[k].account)
  }

  // ----- group-by sums over trades -----

  /** The trade groups the engines and reports sum over. */
  datatype TSel =
    | AllTrades
    | TAccount(a: string)
    | TKey(a: string, i: string)
    | TGroup(a: string, i: string, st: string, sl: string)
    | TStatus(st: string)
    | TAcctStatus(a: string, st: string)

  predicate TSelects(sel: TSel, t: Trade) {
    match sel
    case AllTrades => true
    case TAccount(a) => t.account == a
    case TKey(a, i) => t.account == a && t.identifier == i
    case TGroup(a, i, st, sl) => t.account == a && t.identifier == i && t.taxStatus == st && t.sleeve == sl
    case TStatus(st) => t.taxStatus == st
    case TAcctStatus(a, st) => t.account == a && t.taxStatus == st
  }

  /** Shares_Delta, Delta_Dollars, CapGain_Dollars, and the report columns
      Buy_$ (dollars on BUY rows) and Sell_$ (minus dollars on SELL rows). */
  datatype TField = Shares | Dollars | Gain | BuyDollars | SellDollars

  function TGet(t: Trade, f: TField): real {
    match f
    case Shares => t.shares
    case Dollars => t.deltaDollars
    case Gain => t.capGain
    case BuyDollars => if t.action == Buy then t.deltaDollars else 0.0
    case SellDollars => if t.action == Sell then -t.deltaDollars else 0.0
  }

  function TSum(ts: seq<Trade>, sel: TSel, f: TField): real {
    if ts == [] then 0.0
    else TSum(ts[..|ts| - 1], sel, f) + (if TSelects(sel, ts[|ts| - 1]) then TGet(ts[|ts| - 1], f) else 0.0)
  }

  /** A sum over no selected trade is 0. */
  lemma {:induction false} TSumNone(ts: seq<Trade>, sel: TSel, f: TField)
    requires forall k :: 0 <= k < |ts| ==> !TSelects(sel, ts[k])
    ensures TSum(ts, sel, f) == 0.0
  {
    if ts != [] {
      TSumNone(ts[..|ts| - 1], sel, f);
    }
  }

  lemma {:induction false} TSumAppend(a: seq<Trade>, b: seq<Trade>, sel: TSel, f: TField)
    ensures TSum(a + b, sel, f) == TSum(a, sel, f) + TSum(b, sel, f)
    decreases |b|
  {
    if b == [] {
      assert a + b == a;
    } else {
      assert (a + b)[..|a + b| - 1] == a + b[..|b| - 1];
      TSumAppend(a, b[..|b| - 1], sel, f);
    }
  }

  /** The trades as a list of one optional element. */
  function OptTrade(o: Option<Trade>): (r: seq<Trade>)
    ensures (o.None? ==> r == []) && (o.Some? ==> r == [o.value])
  {
    if o.Some? then [o.value] else []
  }

  /** Appending an optional trade, as the loops of the engines do. */
  lemma AppendOpt(xs: seq<Trade>, ys: seq<Trade>, o: Option<Trade>)
    ensures (xs + ys) + OptTrade(o) == xs + (ys + OptTrade(o))
    ensures o.Some? ==> (xs + ys) + [o.value] == xs + (ys + OptTrade(o))
    ensures o.None? ==> xs + ys == xs + (ys + OptTrade(o))
  {
    assert ys + [] == ys;
  }

  // The invariants every raw trade list of the engines keeps.

  /** The gain a SELL of `shares` realises: (price − average cost) × |shares|. */
  function GainOn(price: real, averageCost: real, shares: real): real {
    (price - averageCost) * Abs(shares)
  }

  /** Delta_Dollars = Shares_Delta × Price. */
  predicate PricedAtShares(t: Trade) {
    t.deltaDollars == t.shares * t.price
  }

  /** A BUY has positive shares and a SELL negative ones; SELLs alone may carry a gain. */
  predicate WellSigned(t: Trade) {
    t.shares != 0.0
    && (t.action == Buy <==> t.shares > 0.0)
    && (t.action == Buy ==> t.capGain == 0.0)
  }
}
