/** `build_trades_and_afterholdings` of portfolio_trades/engine.py: per
    account, per sleeve trades toward the portfolio-wide weights, one cash
    trade per account that offsets its net flow, consolidation by (Account,
    Identifier, TaxStatus, Sleeve), the after-holdings and the residuals. */
module Engine {
  import opened Text
  import opened Numeric
  import opened Options
  import opened Conventions
  import opened Portfolio
  import opened Classify
  import opened Consolidation
  import opened Projection
  import opened Sizing

  /** What the account loop reads: the enriched holdings, `acct_sleeve_ident`,
      the target weights, the median price per identifier and the cash
      tolerance. */
  datatype Env = Env(df: seq<Holding>, canon: Canon, w: Weights, prices: map<string, real>, tol: real)

  /** The loop's inputs for enriched holdings `df`. */
  function EnvOf(df: seq<Holding>, w: Weights, prices: map<string, real>, tol: real): Env {
    Env(df, CanonTable(df), w, prices, tol)
  }

  /** `W_inv.sum()`: the sum of the weights without the illiquid sleeve. */
  function Denom(w: Weights): real {
    WSum(Tradable(w))
  }

  /** `tgt - cur` for one sleeve: its normalised weight times the investable
      pool, less what the account holds in it. */
  function SleeveDelta(e: Env, a: string, s: string): real
    requires Denom(e.w) != 0.0
  {
    WeightOf(Tradable(e.w), s) / Denom(e.w) * Investable(e.df, a) - CurVal(e.df, a, s)
  }

  /** `acct_sleeve_ident.get((acct, sleeve)) or FALLBACK_PROXY.get(sleeve)`. */
  function EngineIdent(canon: Canon, a: string, s: string): (r: Option<string>)
    ensures (a, s) in canon && canon[(a, s)] != "" ==> r == Some(canon[(a, s)])
    ensures ((a, s) !in canon || canon[(a, s)] == "") ==> r == Lookup(FallbackProxy, s)
  {
    if (a, s) in canon && canon[(a, s)] != "" then Some(canon[(a, s)]) else Lookup(FallbackProxy, s)
  }

  /** The sized leg of one sleeve. */
  function SleeveLeg(e: Env, a: string, s: string): Option<Trade>
    requires Denom(e.w) > 0.0
  {
    SizedLeg(e.df, e.prices, a, s, EngineIdent(e.canon, a, s), SleeveDelta(e, a, s))
  }

  /** The sleeve legs of one account over the given sleeves, in order. */
  function Legs(e: Env, a: string, ss: seq<string>): seq<Trade>
    requires Denom(e.w) > 0.0
  {
    if ss == [] then [] else Legs(e, a, ss[..|ss| - 1]) + OptTrade(SleeveLeg(e, a, ss[|ss| - 1]))
  }

  /** Every leg belongs to the account, to one of the sleeves, and is a
      well-formed sleeve leg: priced, signed, sell-capped, with its gain. */
  lemma {:induction false} LegsOk(e: Env, a: string, ss: seq<string>, j: int)
    requires Denom(e.w) > 0.0 && 0 <= j < |Legs(e, a, ss)|
    ensures var t := Legs(e, a, ss)[j];
      t.account == a && t.sleeve in ss && SleeveLegOk(e.df, e.prices, t)
    decreases |ss|
  {
    var pre := ss[..|ss| - 1];
    var s := ss[|ss| - 1];
    if j < |Legs(e, a, pre)| {
      LegsOk(e, a, pre, j);
      assert Legs(e, a, pre)[j].sleeve in pre;
    } else {
      SizedLegOk(e.df, e.prices, a, s, EngineIdent(e.canon, a, s), SleeveDelta(e, a, s));
    }
  }

  /** The sleeve legs all belong to the account. */
  lemma {:induction false} LegsOwn(e: Env, a: string, ss: seq<string>, j: int)
    requires Denom(e.w) > 0.0 && 0 <= j < |Legs(e, a, ss)|
    ensures Legs(e, a, ss)[j].account == a
    decreases |ss|
  {
    var pre := ss[..|ss| - 1];
    if j < |Legs(e, a, pre)| {
      LegsOwn(e, a, pre, j);
    } else {
      var s := ss[|ss| - 1];
      SizedLegOk(e.df, e.prices, a, s, EngineIdent(e.canon, a, s), SleeveDelta(e, a, s));
    }
  }

  // ----- cash balancing -----

  /** `acct_sleeve_ident.get((acct, "Cash")) or FALLBACK_PROXY.get("Cash", "BIL")`. */
  function CashIdent(canon: Canon, a: string): (r: string)
    ensures (a, "Cash") in canon && canon[(a, "Cash")] != "" ==> r == canon[(a, "Cash")]
    ensures ((a, "Cash") !in canon || canon[(a, "Cash")] == "") ==> r == "BIL"
  {
    if (a, "Cash") in canon && canon[(a, "Cash")] != "" then canon[(a, "Cash")]
    else
      assert FallbackProxy["Cash"] == "BIL";
      Get(FallbackProxy, "Cash", "BIL")
  }

  /** `price_map.get(cash_ident, 1.0)`, replaced by 1.0 when not positive. */
  function CashPrice(e: Env, a: string): (r: real)
    ensures r > 0.0
    ensures CashIdent(e.canon, a) in e.prices && e.prices[CashIdent(e.canon, a)] > 0.0 ==>
      r == e.prices[CashIdent(e.canon, a)]
    ensures r != 1.0 ==> CashIdent(e.canon, a) in e.prices && r == e.prices[CashIdent(e.canon, a)]
  {
    var p := Get(e.prices, CashIdent(e.canon, a), 1.0);
    if p <= 0.0 then 1.0 else p
  }

  /** The decimals of the cash trade. */
  function CashPlaces(e: Env, a: string): Places {
    PlacesFor(CashIdent(e.canon, a))
  }

  /** What the cash leg satisfies: the account's cash identifier at the cash
      price, no average cost and no gain. */
  predicate CashLegOk(e: Env, t: Trade) {
    t.sleeve == "Cash" && t.identifier == CashIdent(e.canon, t.account)
    && t.price == CashPrice(e, t.account)
    && t.averageCost == 0.0 && t.capGain == 0.0
    && t.taxStatus == FirstStatus(e.df, t.account)
    && PricedAtShares(t) && WellSigned(t)
  }

  function DollarsOf(o: Option<Trade>): real {
    if o.Some? then o.value.deltaDollars else 0.0
  }

  /** The cash trade of an account with net flow `net` in identifier `id` at
      price `px`: none when the net is within the tolerance or rounds to no
      shares; otherwise it leaves the net within half a share step of `px`. */
  function CashLeg(df: seq<Holding>, a: string, id: string, px: real, k: Places, net: real, tol: real): (r: Option<Trade>)
    requires px > 0.0
    ensures Abs(net) <= tol ==> r.None?
    ensures r.Some? ==> (r.value.account == a && r.value.sleeve == "Cash" && r.value.identifier == id
      && r.value.price == px && r.value.averageCost == 0.0 && r.value.capGain == 0.0
      && r.value.taxStatus == FirstStatus(df, a) && PricedAtShares(r.value) && WellSigned(r.value))
    ensures Abs(net) > tol ==> Abs(net + DollarsOf(r)) <= px * HalfStep(k)
  {
    if Abs(net) <= tol then None else Offset(df, a, id, px, k, net)
  }

  /** The trade of `-net` dollars in an identifier; None when it rounds to no shares. */
  function Offset(df: seq<Holding>, a: string, id: string, px: real, k: Places, net: real): (r: Option<Trade>)
    requires px > 0.0
    ensures r.Some? ==> (r.value.account == a && r.value.sleeve == "Cash" && r.value.identifier == id
      && r.value.price == px && r.value.averageCost == 0.0 && r.value.capGain == 0.0
      && r.value.taxStatus == FirstStatus(df, a) && PricedAtShares(r.value) && WellSigned(r.value))
    ensures Abs(net + DollarsOf(r)) <= px * HalfStep(k)
  {
    var sh := RoundTo(-net, px, k);
    if sh == 0.0 then None
    else Some(Trade(a, FirstStatus(df, a), id, "Cash", if sh > 0.0 then Buy else Sell, sh, px, 0.0, sh * px, 0.0))
  }

  /** The account's cash leg for net flow `net`. */
  function AccountCash(e: Env, a: string, net: real): Option<Trade> {
    CashLeg(e.df, a, CashIdent(e.canon, a), CashPrice(e, a), CashPlaces(e, a), net, e.tol)
  }

  // ----- the raw trade list -----

  /** Net dollars of an account's trades. */
  function AcctNet(ts: seq<Trade>, a: string): real {
    TSum(ts, TAccount(a), Dollars)
  }

  /** What every raw trade of the engine satisfies. */
  predicate EngineTradeOk(e: Env, t: Trade) {
    AcctTotal(e.df, t.account) > 0.0 && Denom(e.w) > 0.0 && t.sleeve != IlliquidSleeve
    && (SleeveLegOk(e.df, e.prices, t) || CashLegOk(e, t))
  }

  /** The trades of one account: none when its total or the tradable weights
      are not positive; else its sleeve legs, then the cash leg. */
  function AccountTrades(e: Env, a: string): seq<Trade> {
    if AcctTotal(e.df, a) <= 0.0 || Denom(e.w) <= 0.0 then []
    else
      var legs := Legs(e, a, AcctSleeves(e.df, e.w, a));
      legs + OptTrade(AccountCash(e, a, AcctNet(legs, a)))
  }

  /** An account trades nothing when its total or the tradable weights are
      not positive; otherwise each of its trades is a sleeve leg or its cash leg. */
  lemma AccountTradesOk(e: Env, a: string, j: int)
    requires 0 <= j < |AccountTrades(e, a)|
    ensures AcctTotal(e.df, a) > 0.0 && Denom(e.w) > 0.0
    ensures var t := AccountTrades(e, a)[j]; t.account == a && EngineTradeOk(e, t)
  {
    var legs := Legs(e, a, AcctSleeves(e.df, e.w, a));
    if j < |legs| {
      LegsOk(e, a, AcctSleeves(e.df, e.w, a), j);
    }
  }

  lemma AccountTradesOwn(e: Env, a: string, j: int)
    requires 0 <= j < |AccountTrades(e, a)|
    ensures AccountTrades(e, a)[j].account == a
  {
    var legs := Legs(e, a, AcctSleeves(e.df, e.w, a));
    if j < |legs| {
      LegsOwn(e, a, AcctSleeves(e.df, e.w, a), j);
    }
  }

  /** The trades of the listed accounts, account after account. */
  function RawOver(e: Env, accts: seq<string>): seq<Trade> {
    if accts == [] then [] else RawOver(e, accts[..|accts| - 1]) + AccountTrades(e, accts[|accts| - 1])
  }

  /** The raw trade list of the account loop, accounts in ascending order. */
  function RawTrades(e: Env): seq<Trade> {
    RawOver(e, Accounts(e.df))
  }

  /** Every trade over the listed accounts is a trade of one of them. */
  lemma {:induction false} RawOverOk(e: Env, accts: seq<string>, j: int)
    requires 0 <= j < |RawOver(e, accts)|
    ensures RawOver(e, accts)[j].account in accts && EngineTradeOk(e, RawOver(e, accts)[j])
    decreases |accts|
  {
    var pre := accts[..|accts| - 1];
    var p := RawOver(e, pre);
    if j < |p| {
      RawOverOk(e, pre, j);
      assert p[j].account in pre;
    } else {
      AccountTradesOk(e, accts[|accts| - 1], j - |p|);
    }
  }

  /** Every raw trade names an account of the holdings whose total is
      positive; it is not in the illiquid sleeve; Delta_Dollars is shares ×
      price; a BUY has positive shares and no gain. A sleeve SELL is capped
      at the account's shares and carries (price − average cost) × |shares|;
      otherwise the trade is the account's cash leg. */
  lemma RawTradeFacts(e: Env, j: int)
    requires 0 <= j < |RawTrades(e)|
    ensures var t := RawTrades(e)[j];
      (exists k :: 0 <= k < |e.df| && e.df[k].account == t.account)
      && AcctTotal(e.df, t.account) > 0.0 && Denom(e.w) > 0.0
      && t.sleeve != IlliquidSleeve && PricedAtShares(t) && WellSigned(t)
      && (SleeveLegOk(e.df, e.prices, t) || CashLegOk(e, t))
  {
    RawOverOk(e, Accounts(e.df), j);
  }

  /** An account's flow over the trades of sorted accounts is its own trades' flow. */
  lemma {:induction false} RawOverFlow(e: Env, accts: seq<string>, a: string)
    requires StrictlySorted(accts)
    ensures AcctNet(RawOver(e, accts), a) == if a in accts then AcctNet(AccountTrades(e, a), a) else 0.0
    decreases |accts|
  {
    if accts != [] {
      var pre := accts[..|accts| - 1];
      var x := accts[|accts| - 1];
      assert StrictlySorted(pre);
      RawOverFlow(e, pre, a);
      var p := RawOver(e, pre);
      var q := AccountTrades(e, x);
      TSumAppend(p, q, TAccount(a), Dollars);
      assert a in accts <==> a in pre || a == x;
      if a == x {
        assert a !in pre by {
          forall i | 0 <= i < |pre| ensures pre[i] != x {
            StrictlySortedDistinct(accts, i, |accts| - 1);
          }
        }
      } else {
        forall i | 0 <= i < |q| ensures !TSelects(TAccount(a), q[i]) {
          AccountTradesOwn(e, x, i);
        }
        TSumNone(q, TAccount(a), Dollars);
      }
    }
  }

  /** After cash balancing an account's own trades net to within the
      tolerance, or to within half a share step of its cash price. */
  lemma AccountBalanced(e: Env, a: string)
    ensures var f := AcctNet(AccountTrades(e, a), a);
      Abs(f) <= e.tol || Abs(f) <= CashPrice(e, a) * HalfStep(CashPlaces(e, a))
  {
    if AcctTotal(e.df, a) > 0.0 && Denom(e.w) > 0.0 {
      var legs := Legs(e, a, AcctSleeves(e.df, e.w, a));
      var c := AccountCash(e, a, AcctNet(legs, a));
      TSumAppend(legs, OptTrade(c), TAccount(a), Dollars);
      if c.Some? {
        assert OptTrade(c)[..0] == [];
      }
      assert AcctNet(OptTrade(c), a) == DollarsOf(c);
    }
  }

  /** The same bound over the whole raw trade list. */
  lemma RawBalanced(e: Env, a: string)
    ensures var f := AcctNet(RawTrades(e), a);
      Abs(f) <= e.tol || Abs(f) <= CashPrice(e, a) * HalfStep(CashPlaces(e, a))
  {
    RawOverFlow(e, Accounts(e.df), a);
    AccountBalanced(e, a);
  }

  // ----- the imperative account loop -----

  /** `sum(t["Delta_Dollars"] for t in trades if t["Account"] == acct)`. */
  method AccountNet(trades: seq<Trade>, a: string) returns (net: real)
    ensures net == AcctNet(trades, a)
  {
    net := 0.0;
    var k := 0;
    while k < |trades|
      invariant 0 <= k <= |trades|
      invariant net == AcctNet(trades[..k], a)
    {
      assert trades[..k + 1][..k] == trades[..k];
      if trades[k].account == a {
        net := net + trades[k].deltaDollars;
      }
      k := k + 1;
    }
    assert trades[..|trades|] == trades;
  }

  /** The sleeve loop: appends the sized leg of each sleeve in turn. */
  method AppendLegs(e: Env, a: string, sleeves: seq<string>, done: seq<Trade>) returns (trades: seq<Trade>)
    requires Denom(e.w) > 0.0
    ensures trades == done + Legs(e, a, sleeves)
  {
    trades := done;
    var j := 0;
    while j < |sleeves|
      invariant 0 <= j <= |sleeves|
      invariant trades == done + Legs(e, a, sleeves[..j])
    {
      assert sleeves[..j + 1][..j] == sleeves[..j];
      var leg := SleeveLeg(e, a, sleeves[j]);
      AppendOpt(done, Legs(e, a, sleeves[..j]), leg);
      if leg.Some? {
        trades := trades + [leg.value];
      }
      j := j + 1;
    }
    assert sleeves[..|sleeves|] == sleeves;
  }

  /** One account of the account loop: its legs, then the cash leg sized
      from the account's net over the whole list so far. */
  method AccountStep(e: Env, a: string, done: seq<Trade>) returns (trades: seq<Trade>)
    requires AcctNet(done, a) == 0.0
    ensures trades == done + AccountTrades(e, a)
  {
    trades := done;
    var total := AcctTotal(e.df, a);
    var denom := Denom(e.w);
    if total > 0.0 && denom > 0.0 {
      var sleeves := AcctSleeves(e.df, e.w, a);
      trades := AppendLegs(e, a, sleeves, done);
      var net := AccountNet(trades, a);
      TSumAppend(done, Legs(e, a, sleeves), TAccount(a), Dollars);
      var cash := AccountCash(e, a, net);
      AppendOpt(done, Legs(e, a, sleeves), cash);
      if cash.Some? {
        trades := trades + [cash.value];
      }
    }
  }

  /** The trades of the accounts before the i-th carry no flow of the i-th. */
  lemma EarlierAccountsOnly(e: Env, accts: seq<string>, i: int)
    requires StrictlySorted(accts) && 0 <= i < |accts|
    ensures AcctNet(RawOver(e, accts[..i]), accts[i]) == 0.0
  {
    var pre := accts[..i];
    assert StrictlySorted(pre);
    assert accts[i] !in pre by {
      forall m | 0 <= m < i ensures pre[m] != accts[i] {
        StrictlySortedDistinct(accts, m, i);
      }
    }
    RawOverFlow(e, pre, accts[i]);
  }

  /** The account loop of `build_trades_and_afterholdings`: appends each
      account's sleeve legs, then its cash leg, to one trade list. */
  method BuildRawTrades(e: Env) returns (trades: seq<Trade>)
    ensures trades == RawTrades(e)
  {
    var accts := Accounts(e.df);
    trades := [];
    var i := 0;
    while i < |accts|
      invariant 0 <= i <= |accts|
      invariant trades == RawOver(e, accts[..i])
    {
      assert accts[..i + 1][..i] == accts[..i];
      EarlierAccountsOnly(e, accts, i);
      trades := AccountStep(e, accts[i], trades);
      i := i + 1;
    }
    assert accts[..|accts|] == accts;
  }

  // ----- the whole pipeline -----

  /** The engine's three results. */
  datatype Outcome = Outcome(trades: seq<Trade>, after: seq<Holding>, residuals: map<string, real>)

  /** The results for enriched holdings and their raw trade list. */
  function Finish(df: seq<Holding>, raw: seq<Trade>, prices: map<string, real>, tol: real): Outcome {
    if raw == [] then Outcome([], df, map[])
    else
      var tx := Consolidate(raw);
      Outcome(tx, AfterHoldings(df, tx, prices), Residuals(tx, tol))
  }

  /** `build_trades_and_afterholdings` on holdings `h`, weights `w`, the
      median price per identifier and the cash tolerance. */
  function Build(h: seq<Holding>, w: Weights, prices: map<string, real>, tol: real): Outcome {
    var df := Enrich(h);
    Finish(df, RawTrades(EnvOf(df, w, prices, tol)), prices, tol)
  }

  /** The pipeline as the source runs it: enrichment, the account loop, then
      consolidation, the after-holdings and the residuals. */
  method BuildTradesAndAfterHoldings(h: seq<Holding>, w: Weights, prices: map<string, real>, tol: real)
    returns (tx: seq<Trade>, after: seq<Holding>, residuals: map<string, real>)
    ensures Outcome(tx, after, residuals) == Build(h, w, prices, tol)
  {
    var df := Enrich(h);
    var raw := BuildRawTrades(EnvOf(df, w, prices, tol));
    tx, after, residuals := FinishTrades(df, raw, prices, tol);
  }

  /** No trade leaves the holdings as they are; otherwise the raw trades are
      consolidated, applied to the holdings, and their residuals taken. */
  method FinishTrades(df: seq<Holding>, raw: seq<Trade>, prices: map<string, real>, tol: real)
    returns (tx: seq<Trade>, after: seq<Holding>, residuals: map<string, real>)
    ensures Outcome(tx, after, residuals) == Finish(df, raw, prices, tol)
  {
    if raw == [] {
      return [], df, map[];
    }
    tx := Consolidate(raw);
    after := AfterHoldings(df, tx, prices);
    residuals := Residuals(tx, tol);
  }

  /** No trade at all leaves the holdings as enriched and no residuals. */
  lemma BuildNoTrades(h: seq<Holding>, w: Weights, prices: map<string, real>, tol: real)
    requires RawTrades(EnvOf(Enrich(h), w, prices, tol)) == []
    ensures Build(h, w, prices, tol) == Outcome([], Enrich(h), map[])
  {
  }

  /** Every consolidated trade has one row per group with the group's summed
      shares, dollars and gain, is BUY exactly when its net shares are not
      negative, names an account with a positive total, and is never in the
      illiquid sleeve. */
  lemma FinishTradeRows(e: Env, i: int)
    requires 0 <= i < |Finish(e.df, RawTrades(e), e.prices, e.tol).trades|
    ensures var raw := RawTrades(e);
      var r := Finish(e.df, raw, e.prices, e.tol).trades[i];
      r.shares == TSum(raw, TGroup(r.account, r.identifier, r.taxStatus, r.sleeve), Shares)
      && r.deltaDollars == TSum(raw, TGroup(r.account, r.identifier, r.taxStatus, r.sleeve), Dollars)
      && r.capGain == TSum(raw, TGroup(r.account, r.identifier, r.taxStatus, r.sleeve), Gain)
      && (r.action == Buy <==> r.shares >= 0.0)
      && r.sleeve != IlliquidSleeve && AcctTotal(e.df, r.account) > 0.0
  {
    var raw := RawTrades(e);
    ConsolidatedRow(raw, i);
    ConsolidateFromInput(raw, i);
    var j :| 0 <= j < |raw| && KeyOf(raw[j]) == KeyOf(Consolidate(raw)[i]);
    RawTradeFacts(e, j);
  }

  /** Consolidation keeps every account's net flow. */
  lemma ConsolidatedFlow(raw: seq<Trade>, a: string)
    ensures AcctNet(Consolidate(raw), a) == AcctNet(raw, a)
  {
    ConsolidatePreservesSums(raw, TAccount(a), Dollars);
  }

  /** The accounts of the consolidated trades are those of the raw trades. */
  lemma ConsolidatedAccounts(raw: seq<Trade>)
    ensures TradedAccounts(Consolidate(raw)) == TradedAccounts(raw)
  {
    var c := Consolidate(raw);
    forall a | a in TradedAccounts(c) ensures a in TradedAccounts(raw) {
      var t :| t in c && t.account == a;
      var i :| 0 <= i < |c| && c[i] == t;
      ConsolidateFromInput(raw, i);
      var j :| 0 <= j < |raw| && KeyOf(raw[j]) == KeyOf(c[i]);
      assert raw[j] in raw;
    }
    forall a | a in TradedAccounts(raw) ensures a in TradedAccounts(c) {
      var t :| t in raw && t.account == a;
      var j :| 0 <= j < |raw| && raw[j] == t;
      ConsolidateCovers(raw, j);
      var i :| 0 <= i < |c| && KeyOf(c[i]) == KeyOf(raw[j]);
      assert c[i] in c;
    }
  }

  /** The residuals are exactly the traded accounts whose net flow exceeds
      the tolerance, with that flow; after cash balancing such a flow is
      still within half a share step of the account's cash price. */
  lemma FinishResiduals(e: Env, a: string)
    ensures var raw := RawTrades(e);
      var res := Finish(e.df, raw, e.prices, e.tol).residuals;
      (a in res <==> a in TradedAccounts(raw) && Abs(AcctNet(raw, a)) > e.tol)
      && (a in res ==> (res[a] == AcctNet(raw, a)
          && Abs(res[a]) <= CashPrice(e, a) * HalfStep(CashPlaces(e, a))))
  {
    var raw := RawTrades(e);
    RawBalanced(e, a);
    if raw != [] {
      ConsolidatedFlow(raw, a);
      ConsolidatedAccounts(raw);
    }
  }

  /** Every after-row is above the dust threshold with Value = Q × Price and
      Cost = Q × AverageCost. */
  lemma FinishAfterRows(df: seq<Holding>, raw: seq<Trade>, prices: map<string, real>, tol: real)
    requires raw != []
    ensures var after := Finish(df, raw, prices, tol).after;
      forall k :: 0 <= k < |after| ==> Abs(after[k].quantity) > Dust && Valued(after[k])
  {
    AfterHoldingsRows(df, Consolidate(raw), prices);
  }

  /** A traded position ends at what the account held plus its net shares
      over the raw trades. */
  lemma FinishKeyTotal(df: seq<Holding>, raw: seq<Trade>, prices: map<string, real>, tol: real, j: int)
    requires 0 <= j < |Finish(df, raw, prices, tol).trades|
    ensures var tx := Finish(df, raw, prices, tol).trades;
      var a := tx[j].account; var i := tx[j].identifier;
      HSum(ApplyDeltaOnce(df + EnginePlaceholders(df, tx, prices), tx), AcctIdent(a, i), Quantity)
        == HSum(df, AcctIdent(a, i), Quantity) + TSum(raw, TKey(a, i), Shares)
  {
    var tx := Consolidate(raw);
    AfterHoldingsKeyTotal(df, tx, prices, j);
    ConsolidatePreservesSums(raw, TKey(tx[j].account, tx[j].identifier), Shares);
  }

  /** As written (engine.py:291-295), a traded position ends at what the
      account held plus its net shares over the raw trades once per row of
      the key. */
  lemma FinishKeyTotalAsWritten(df: seq<Holding>, raw: seq<Trade>, prices: map<string, real>, tol: real, j: int)
    requires 0 <= j < |Finish(df, raw, prices, tol).trades|
    ensures var tx := Finish(df, raw, prices, tol).trades;
      var all := df + EnginePlaceholders(df, tx, prices);
      var a := tx[j].account; var i := tx[j].identifier;
      KeyRows(all, a, i) >= 1
      && HSum(ApplyDeltaEveryRow(all, tx), AcctIdent(a, i), Quantity)
        == HSum(df, AcctIdent(a, i), Quantity) + Repeat(KeyRows(all, a, i), TSum(raw, TKey(a, i), Shares))
  {
    var tx := Consolidate(raw);
    AfterHoldingsAsWrittenKeyTotal(df, tx, prices, j);
    ConsolidatePreservesSums(raw, TKey(tx[j].account, tx[j].identifier), Shares);
  }
}
