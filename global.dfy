/** The portfolio-wide ordered planner that tools/patch_engine_global.py
    installs as `build_trades_and_afterholdings`. Targets are computed once
    for the whole portfolio; a sleeve that needs buying is bought entirely
    in the single best account, and a sleeve that needs selling is sold
    account by account in order of tax rate and per-share gain until the
    need is met. Cash balancing follows, then the consolidation,
    after-holdings and residuals of the live engine. */
module GlobalPlanner {
  import opened Text
  import opened Numeric
  import opened Options
  import opened Conventions
  import opened Portfolio
  import opened Classify
  import opened Consolidation
  import opened Projection
  import opened Sizing
  import opened Engine
  import opened EnginePrev
  import opened Ranking

  // ----- enrichment and tax rates -----

  /** The planner's first step. TaxStatus is filled from the account name
      only when the input has no TaxStatus column or every entry of it is
      missing (`statusGiven` false); a column of empty strings is kept.
      Sleeve is computed from the symbol and name only when the input has
      no Sleeve column (`sleeveGiven` false). */
  function PlannerEnrich(h: seq<Holding>, statusGiven: bool, sleeveGiven: bool): (df: seq<Holding>)
    ensures |df| == |h|
    ensures forall k :: 0 <= k < |h| ==>
      df[k].account == h[k].account && df[k].symbol == h[k].symbol && df[k].name == h[k].name
      && df[k].quantity == h[k].quantity && df[k].price == h[k].price
      && df[k].averageCost == h[k].averageCost && df[k].value == h[k].value && df[k].cost == h[k].cost
    ensures forall k :: 0 <= k < |h| ==>
      df[k].taxStatus == (if statusGiven then h[k].taxStatus else AssignTaxStatus(Some(h[k].account)))
      && df[k].sleeve == (if sleeveGiven then h[k].sleeve else MapSleeve(h[k].symbol, h[k].name))
  {
    seq(|h|, k requires 0 <= k < |h| =>
      h[k].(sleeve := if sleeveGiven then h[k].sleeve else MapSleeve(h[k].symbol, h[k].name),
            taxStatus := if statusGiven then h[k].taxStatus else AssignTaxStatus(Some(h[k].account))))
  }

  /** With no Sleeve column the planner enriches as the engine does, except
      on a TaxStatus column that is present but entirely empty strings: the
      engine fills it, the planner fills only an absent or all-missing one. */
  lemma PlannerEnrichAsEngine(h: seq<Holding>, statusGiven: bool)
    requires statusGiven <==> !NoStatuses(h)
    ensures PlannerEnrich(h, statusGiven, false) == Enrich(h)
  {
    var df, e := PlannerEnrich(h, statusGiven, false), Enrich(h);
    forall k | 0 <= k < |h| ensures df[k] == e[k] { }
  }

  /** On a present TaxStatus column of empty strings the planner keeps the
      empty statuses that the engine replaces with assigned ones. */
  lemma PlannerKeepsEmptyStatuses(h: seq<Holding>, sleeveGiven: bool, k: int)
    requires NoStatuses(h) && 0 <= k < |h|
    ensures PlannerEnrich(h, true, sleeveGiven)[k].taxStatus == ""
    ensures Enrich(h)[k].taxStatus == AssignTaxStatus(Some(h[k].account)) != ""
  {
  }

  /** `tax_rate_for_status`: a case-insensitive substring test in which
      "hsa" and "roth" come first, then "trust", then "taxable". This is the
      corrected function: it reads the rate table, a parameter, as if
      `EST_TAX_RATE` were imported. TaxRateForStatusAsWritten is the
      function as installed. */
  function TaxRateForStatus(rates: map<string, real>, status: string): real {
    var s := Lower(status);
    if Contains(s, "hsa") || Contains(s, "roth") then 0.0
    else if Contains(s, "trust") then Get(rates, "Trust", 0.20)
    else if Contains(s, "taxable") then Get(rates, "Taxable", 0.15)
    else 0.0
  }

  /** On the Roth and HSA statuses the engine assigns the planner's rate is
      the table's 0; a Roth trust pays no tax because "roth" is tested first. */
  lemma TaxRateExempt(rates: map<string, real>)
    ensures TaxRateForStatus(rates, "ROTH IRA") == EstTaxRate["ROTH IRA"] == 0.0
    ensures TaxRateForStatus(rates, "HSA") == EstTaxRate["HSA"] == 0.0
    ensures TaxRateForStatus(rates, "Roth Trust") == 0.0
  {
    TaxTables();
    assert Lower("ROTH IRA") == "roth ira" && OccursAt("roth ira", "roth", 0);
    assert Lower("HSA") == "hsa" && OccursAt("hsa", "hsa", 0);
    assert Lower("Roth Trust") == "roth trust" && OccursAt("roth trust", "roth", 0);
  }

  /** With the engine's own rate table the Trust status pays the table's rate. */
  lemma TaxRateTrust()
    ensures TaxRateForStatus(EstTaxRate, "Trust") == EstTaxRate["Trust"] == 0.20
  {
    TaxTables();
    var t := Lower("Trust");
    assert t == "trust" && OccursAt(t, "trust", 0);
    NoPairNoOccurrence(t, "hsa");
    NoPairNoOccurrence(t, "roth");
  }

  /** With the engine's own rate table the Taxable status pays the table's rate. */
  lemma TaxRateTaxable()
    ensures TaxRateForStatus(EstTaxRate, "Taxable") == EstTaxRate["Taxable"] == 0.15
  {
    TaxTables();
    var x := Lower("Taxable");
    assert x == "taxable" && OccursAt(x, "taxable", 0);
    NoPairNoOccurrence(x, "hsa");
    NoPairNoOccurrence(x, "roth");
    NoPairNoOccurrence(x, "trust");
  }

  /** The planner's rate does not depend on the letter case of the status. */
  lemma TaxRateForStatusIgnoresCase(rates: map<string, real>, status: string)
    ensures TaxRateForStatus(rates, Upper(status)) == TaxRateForStatus(rates, status)
  {
    LowerOfUpper(status);
  }

  /** `tax_rate_for_status` as installed into engine.py, which imports no
      `EST_TAX_RATE`: the "trust" and "taxable" branches raise NameError.
      None stands for that error, Some for the rate returned. */
  function TaxRateForStatusAsWritten(status: string): (r: Option<real>)
    ensures var s := Lower(status);
      r.None? <==> !Contains(s, "hsa") && !Contains(s, "roth") && (Contains(s, "trust") || Contains(s, "taxable"))
  {
    var s := Lower(status);
    if Contains(s, "hsa") || Contains(s, "roth") then Some(0.0)
    else if Contains(s, "trust") || Contains(s, "taxable") then None
    else Some(0.0)
  }

  /** Wherever the installed function returns, it returns the corrected
      rate, whatever the table; it fails exactly where the corrected one
      reads the table. */
  lemma TaxRateAsWrittenAgrees(rates: map<string, real>, status: string)
    ensures TaxRateForStatusAsWritten(status).Some? ==>
      TaxRateForStatusAsWritten(status).value == TaxRateForStatus(rates, status) == 0.0
    ensures TaxRateForStatusAsWritten(status).None? ==>
      TaxRateForStatus(rates, status) in {Get(rates, "Trust", 0.20), Get(rates, "Taxable", 0.15)}
  {
  }

  /** Of the four statuses the engine assigns, Trust and Taxable (the
      default) make the installed function fail; ROTH IRA and HSA do not. */
  lemma TaxRateAsWrittenOnStatuses()
    ensures TaxRateForStatusAsWritten("Trust").None?
    ensures TaxRateForStatusAsWritten(DefaultTaxStatus).None?
    ensures TaxRateForStatusAsWritten("ROTH IRA") == Some(0.0)
    ensures TaxRateForStatusAsWritten("HSA") == Some(0.0)
  {
    var t := Lower("Trust");
    assert t == "trust" && OccursAt(t, "trust", 0);
    NoPairNoOccurrence(t, "hsa");
    NoPairNoOccurrence(t, "roth");
    var x := Lower(DefaultTaxStatus);
    assert x == "taxable" && OccursAt(x, "taxable", 0);
    NoPairNoOccurrence(x, "hsa");
    NoPairNoOccurrence(x, "roth");
    assert Lower("ROTH IRA") == "roth ira" && OccursAt("roth ira", "roth", 0);
    assert Lower("HSA") == "hsa" && OccursAt("hsa", "hsa", 0);
  }

  // ----- the portfolio-wide targets -----

  /** What the planner's loops read: the enriched holdings, the canonical
      identifier per (account, sleeve), the weights, the median price per
      identifier, the cash tolerance and the tax-rate table. */
  datatype Plan = Plan(df: seq<Holding>, canon: Canon, w: Weights, prices: map<string, real>,
                       tol: real, rates: map<string, real>)

  function PlanOf(df: seq<Holding>, w: Weights, prices: map<string, real>, tol: real,
                  rates: map<string, real>): Plan {
    Plan(df, CanonTable(df), w, prices, tol, rates)
  }

  /** The portfolio's value less its Automattic value, never below zero. */
  function InvestableTotal(df: seq<Holding>): (r: real)
    ensures r >= 0.0 && r >= HSum(df, AllRows, Value) - HSum(df, IlliquidRows, Value)
    ensures r == 0.0 || r == HSum(df, AllRows, Value) - HSum(df, IlliquidRows, Value)
  {
    Max(0.0, HSum(df, AllRows, Value) - HSum(df, IlliquidRows, Value))
  }

  /** A sleeve's normalised weight times the investable total; the weights
      keep their values when they sum to 0. */
  function SleeveTarget(p: Plan, s: string): real {
    WeightOf(Tradable(p.w), s) / PrevDivisor(p.w) * InvestableTotal(p.df)
  }

  /** The sleeve's target less its current non-illiquid value. */
  function GlobalDelta(p: Plan, s: string): real {
    SleeveTarget(p, s) - HSum(p.df, LiquidInSleeve(s), Value)
  }

  /** When every tradable weight is 0 each sleeve is to be sold down fully. */
  lemma GlobalZeroWeights(p: Plan, s: string)
    requires forall k :: 0 <= k < |Tradable(p.w)| ==> Tradable(p.w)[k].1 == 0.0
    ensures GlobalDelta(p, s) == -HSum(p.df, LiquidInSleeve(s), Value)
  {
    var dv := PrevDivisor(p.w);
    var it := InvestableTotal(p.df);
    assert SleeveTarget(p, s) == 0.0 by {
      WeightZero(Tradable(p.w), s);
      assert SleeveTarget(p, s) == 0.0 / dv * it;
    }
  }

  lemma WeightZero(t: Weights, s: string)
    requires forall k :: 0 <= k < |t| ==> t[k].1 == 0.0
    ensures WeightOf(t, s) == 0.0
  {
    WeightOfFound(t, s);
    if exists k :: 0 <= k < |t| && t[k].0 == s {
      var r := WeightOf(t, s);
      assert (s, r) in t;
      var k :| 0 <= k < |t| && t[k] == (s, r);
    }
  }

  /** The distinct elements of a list in order of first appearance (the keys
      of `net_delta_by_sleeve`). */
  function Distinct(xs: seq<string>): (r: seq<string>)
    ensures forall x :: x in r <==> x in xs
    ensures forall i, j :: 0 <= i < j < |r| ==> r[i] != r[j]
  {
    if xs == [] then []
    else
      var pre := Distinct(xs[..|xs| - 1]);
      assert forall x :: x in xs <==> x in xs[..|xs| - 1] || x == xs[|xs| - 1] by {
        assert xs == xs[..|xs| - 1] + [xs[|xs| - 1]];
      }
      if xs[|xs| - 1] in pre then pre else pre + [xs[|xs| - 1]]
  }

  /** The sleeves the planner visits: those of the tradable weights, in order. */
  function PlanSleeves(w: Weights): (r: seq<string>)
    ensures forall s :: s in r <==> s in WeightSleeves(Tradable(w))
    ensures IlliquidSleeve !in r
    ensures forall i, j :: 0 <= i < j < |r| ==> r[i] != r[j]
  {
    var ls := WeightSleeves(Tradable(w));
    TradableFacts(w);
    assert forall s :: s in ls ==> s != IlliquidSleeve by {
      forall s | s in ls ensures s != IlliquidSleeve {
        var k :| 0 <= k < |ls| && ls[k] == s;
        assert Tradable(w)[k] in Tradable(w);
      }
    }
    Distinct(ls)
  }

  // ----- identifiers -----

  /** `canon_global[sleeve]`: the identifier of largest summed Value among
      all rows of the sleeve, else the sleeve's fallback proxy (or None). */
  function GlobalCanon(df: seq<Holding>, s: string): (r: Option<string>)
    ensures (exists k :: 0 <= k < |df| && df[k].sleeve == s) ==> r.Some? && r == CanonIdent(df, AcrossSleeve(s))
    ensures (forall k :: 0 <= k < |df| ==> df[k].sleeve != s) ==> r == Lookup(FallbackProxy, s)
  {
    var c := CanonIdent(df, AcrossSleeve(s));
    if c.Some? then c else Lookup(FallbackProxy, s)
  }

  /** `acct_sleeve_ident.get((acct, sleeve), canon_global.get(sleeve))`. */
  function PlanIdent(p: Plan, a: string, s: string): (r: Option<string>)
    ensures (a, s) in p.canon ==> r == Some(p.canon[(a, s)])
    ensures (a, s) !in p.canon ==> r == GlobalCanon(p.df, s)
  {
    if (a, s) in p.canon then Some(p.canon[(a, s)]) else GlobalCanon(p.df, s)
  }

  /** The current value per (account, sleeve), `cur_val_acct_sleeve`. */
  type Held = map<(string, string), real>

  function CurTable(df: seq<Holding>): Held {
    var pairs := set k | 0 <= k < |df| :: (df[k].account, df[k].sleeve);
    map q | q in pairs :: CurVal(df, q.0, q.1)
  }

  /** The table's `.get((a, s), 0.0)` is the account's value in the sleeve. */
  lemma CurTableGet(df: seq<Holding>, a: string, s: string)
    ensures Get(CurTable(df), (a, s), 0.0) == CurVal(df, a, s)
  {
    if (a, s) !in CurTable(df) {
      assert forall k :: 0 <= k < |df| ==> (df[k].account, df[k].sleeve) != (a, s);
      HSumNone(df, AcctSleeve(a, s), Value);
    }
  }

  /** The account's rate: that of the status on its first row. */
  function AcctRate(p: Plan, a: string): real {
    TaxRateForStatus(p.rates, FirstStatus(p.df, a))
  }

  // ----- buys -----

  /** `key(a)` of `acct_order_for_buy`: tax rate, holders first, larger
      existing exposure first, larger accounts first. */
  function BuyKey(p: Plan, held: Held, a: string, s: string): (k: Key)
    ensures |k| == 4
  {
    var ex := Get(held, (a, s), 0.0);
    [AcctRate(p, a), -1.0 * (if ex > 0.0 then 1.0 else 0.0), -ex, -AcctTotal(p.df, a)]
  }

  function BuyRanks(p: Plan, held: Held, s: string, accts: seq<string>): (r: seq<Ranked<string>>)
    ensures |r| == |accts| && KeysOfLength(r, 4)
    ensures forall i :: 0 <= i < |accts| ==> r[i] == Ranked(BuyKey(p, held, accts[i], s), accts[i], accts[i])
  {
    seq(|accts|, i requires 0 <= i < |accts| => Ranked(BuyKey(p, held, accts[i], s), accts[i], accts[i]))
  }

  /** `sorted(accounts, key=key)` with its keys. */
  function BuySorted(p: Plan, held: Held, s: string): (r: seq<Ranked<string>>)
    ensures Ordered(r) && KeysOfLength(r, 4)
    ensures multiset(r) == multiset(BuyRanks(p, held, s, Accounts(p.df)))
  {
    Sort(BuyRanks(p, held, s, Accounts(p.df)), 4)
  }

  /** Every entry of the buy order is an account of the holdings with its own key. */
  lemma BuySortedEntry(p: Plan, held: Held, s: string, m: int)
    requires 0 <= m < |BuySorted(p, held, s)|
    ensures var x := BuySorted(p, held, s)[m];
      x == Ranked(BuyKey(p, held, x.name, s), x.name, x.name) && x.name in Accounts(p.df)
  {
    var sorted := BuySorted(p, held, s);
    var rk := BuyRanks(p, held, s, Accounts(p.df));
    assert sorted[m] in multiset(rk);
    var i :| 0 <= i < |rk| && rk[i] == sorted[m];
  }

  /** The BUY of the whole delta `d` in account `a`: none when it has no
      identifier for the sleeve, the price is not positive, or the shares
      round to 0. */
  function BuyTrade(p: Plan, s: string, a: string, d: real): (r: Option<Trade>)
    requires d > 0.0
    ensures r.Some? ==> r.value.account == a && BuyOk(p, s, d, r.value)
  {
    var id := PlanIdent(p, a, s);
    if id.None? then None
    else
      var px := Get(p.prices, id.value, 0.0);
      if px <= 0.0 then None
      else BuyAt(p.df, s, a, id.value, px, d)
  }

  /** The BUY of `d` dollars of `id` at price `px` in account `a`: none when
      the shares round to 0. */
  function BuyAt(df: seq<Holding>, s: string, a: string, id: string, px: real, d: real): (r: Option<Trade>)
    requires d > 0.0 && px > 0.0
    ensures r.Some? ==> r.value.account == a && r.value.identifier == id && r.value.price == px
    ensures r.Some? ==> r.value.sleeve == s && r.value.action == Buy
    ensures r.Some? ==> r.value.taxStatus == FirstStatus(df, a) && r.value.averageCost == AvgCost(df, a, id)
    ensures r.Some? ==> BuyShape(d, r.value)
  {
    var sh := RoundShares(d, px, id);
    if sh == 0.0 then None
    else Some(MakeLeg(df, a, id, s, sh, px))
  }

  /** What the planner's BUY in sleeve `s` for delta `d` satisfies: the
      account's identifier for the sleeve at its positive price, positive
      shares, no gain, and dollars within half a share step of `d`. */
  predicate BuyOk(p: Plan, s: string, d: real, t: Trade) {
    BuyOrigin(p, s, t) && BuyShape(d, t)
  }

  predicate BuyOrigin(p: Plan, s: string, t: Trade) {
    t.sleeve == s && t.action == Buy && PlanIdent(p, t.account, s) == Some(t.identifier)
    && t.price == Get(p.prices, t.identifier, 0.0) && t.price > 0.0
    && t.taxStatus == FirstStatus(p.df, t.account) && t.averageCost == AvgCost(p.df, t.account, t.identifier)
  }

  predicate BuyShape(d: real, t: Trade) {
    PricedAtShares(t) && WellSigned(t)
    && Abs(t.deltaDollars - d) <= t.price * HalfStep(PlacesFor(t.identifier))
  }

  /** The position of the first account in `order` that can take the BUY. */
  function FirstUsable(p: Plan, s: string, d: real, order: seq<string>): (j: nat)
    requires d > 0.0
    ensures j <= |order|
    ensures forall i :: 0 <= i < j ==> BuyTrade(p, s, order[i], d).None?
    ensures j < |order| ==> BuyTrade(p, s, order[j], d).Some?
    decreases |order|
  {
    if order == [] then 0
    else if BuyTrade(p, s, order[0], d).Some? then 0
    else
      var j := FirstUsable(p, s, d, order[1..]);
      assert forall i :: 1 <= i < |order| ==> order[i] == order[1..][i - 1];
      1 + j
  }

  /** The account that takes a positive delta: the first usable one of the buy order. */
  function BuyChoice(p: Plan, held: Held, s: string, d: real): (c: Option<string>)
    requires d > 0.0
    ensures c.Some? ==> c.value in Accounts(p.df) && BuyTrade(p, s, c.value, d).Some?
  {
    var sorted := BuySorted(p, held, s);
    var order := Names(sorted);
    var j := FirstUsable(p, s, d, order);
    if j < |order| then
      BuySortedEntry(p, held, s, j);
      Some(order[j])
    else None
  }

  /** A positive delta: one BUY in the first usable account of the buy order, if any. */
  function BuyRows(p: Plan, held: Held, s: string, d: real): (r: seq<Trade>)
    requires d > 0.0
    ensures |r| <= 1
    ensures forall k :: 0 <= k < |r| ==> BuyOk(p, s, d, r[k]) && r[k].account in Accounts(p.df)
  {
    var c := BuyChoice(p, held, s, d);
    if c.Some? then [BuyTrade(p, s, c.value, d).value] else []
  }

  /** The BUY goes to an account that no other usable account precedes in
      the buy order, and there is one whenever some account is usable. */
  lemma BuyGoesToBest(p: Plan, held: Held, s: string, d: real, b: string)
    requires d > 0.0 && b in Accounts(p.df) && BuyTrade(p, s, b, d).Some?
    ensures var c := BuyChoice(p, held, s, d);
      c.Some? && !Before(Ranked(BuyKey(p, held, b, s), b, b), Ranked(BuyKey(p, held, c.value, s), c.value, c.value))
  {
    var sorted := BuySorted(p, held, s);
    var order := Names(sorted);
    var m := BuyPosition(p, held, s, b);
    var j := FirstUsable(p, s, d, order);
    assert j <= m;
    BuySortedEntry(p, held, s, j);
    BuySortedEntry(p, held, s, m);
    EarlierNotAfter(sorted, j, m);
  }

  /** Every account of the holdings has a place in the buy order. */
  lemma BuyPosition(p: Plan, held: Held, s: string, b: string) returns (m: int)
    requires b in Accounts(p.df)
    ensures 0 <= m < |BuySorted(p, held, s)| && BuySorted(p, held, s)[m].name == b
  {
    var sorted := BuySorted(p, held, s);
    var accts := Accounts(p.df);
    var rk := BuyRanks(p, held, s, accts);
    var ib :| 0 <= ib < |accts| && accts[ib] == b;
    assert rk[ib] in multiset(sorted);
    m :| 0 <= m < |sorted| && sorted[m] == rk[ib];
  }

  /** The BUY row, when there is one, is in the chosen account. */
  lemma BuyRowsInChoice(p: Plan, held: Held, s: string, d: real)
    requires d > 0.0
    ensures var c := BuyChoice(p, held, s, d);
      |BuyRows(p, held, s, d)| == (if c.Some? then 1 else 0)
      && (c.Some? ==> BuyRows(p, held, s, d)[0].account == c.value)
  {
  }

  // ----- sells -----

  /** One entry of `acct_order_for_sell`: the account, its identifier for
      the sleeve, the price, the average cost, the value it holds in the
      sleeve, the quantity it holds of the identifier, and the decimals the
      identifier's shares are rounded to. */
  datatype Seller = Seller(account: string, ident: string, px: real, avgc: real, heldVal: real, qty: real, k: Places)

  /** The account's seller entry for the sleeve: none when it holds no
      positive value there, has no identifier, holds no row of the
      identifier, sees no positive price, or holds no positive quantity. */
  function SellCandidate(p: Plan, held: Held, a: string, s: string): (r: Option<Seller>)
    ensures r.Some? <==> (Get(held, (a, s), 0.0) > 0.0 && PlanIdent(p, a, s).Some?
      && HeldKey(p.df, a, PlanIdent(p, a, s).value)
      && Get(p.prices, PlanIdent(p, a, s).value, 0.0) > 0.0
      && HeldQty(p.df, a, PlanIdent(p, a, s).value) > 0.0)
    ensures r.Some? ==> r.value.account == a && r.value.heldVal == Get(held, (a, s), 0.0)
    ensures r.Some? ==> Some(r.value.ident) == PlanIdent(p, a, s) && r.value.px == Get(p.prices, r.value.ident, 0.0)
    ensures r.Some? ==> r.value.qty == HeldQty(p.df, a, r.value.ident) && r.value.avgc == AvgCost(p.df, a, r.value.ident)
    ensures r.Some? ==> r.value.k == PlacesFor(r.value.ident)
  {
    var hv := Get(held, (a, s), 0.0);
    var id := PlanIdent(p, a, s);
    if hv <= 0.0 || id.None? then None
    else
      var px := Get(p.prices, id.value, 0.0);
      if !HeldKey(p.df, a, id.value) || px <= 0.0 then None
      else
        var q := HeldQty(p.df, a, id.value);
        if q <= 0.0 then None
        else Some(Seller(a, id.value, px, HSum(p.df, AcctIdent(a, id.value), CostBasis) / q, hv, q, PlacesFor(id.value)))
  }

  /** `(tax rate, per-share gain, -held value)`. */
  function SellKey(p: Plan, x: Seller): (k: Key)
    ensures |k| == 3
  {
    [AcctRate(p, x.account), x.px - x.avgc, -x.heldVal]
  }

  /** The seller entries of the holdings' accounts, in account order. */
  function Candidates(p: Plan, held: Held, s: string): (r: seq<Ranked<Seller>>)
    ensures KeysOfLength(r, 3)
    ensures forall i :: 0 <= i < |r| ==>
      r[i].name in Accounts(p.df) && SellCandidate(p, held, r[i].name, s) == Some(r[i].item) && r[i].key == SellKey(p, r[i].item)
    ensures forall a :: a in Accounts(p.df) && SellCandidate(p, held, a, s).Some? ==>
      exists i :: 0 <= i < |r| && r[i].name == a
  {
    Collect(Accounts(p.df), a => SellCandidate(p, held, a, s), x => SellKey(p, x))
  }

  /** The seller entries sorted by their keys, account name breaking ties. */
  function SellSorted(p: Plan, held: Held, s: string): (r: seq<Ranked<Seller>>)
    ensures Ordered(r) && KeysOfLength(r, 3)
  {
    Sort(Candidates(p, held, s), 3)
  }

  /** The order in which the planner sells from the accounts. */
  function SellOrder(p: Plan, held: Held, s: string): seq<Seller> {
    Items(SellSorted(p, held, s))
  }

  /** Each entry of the sell order is its account's seller entry. */
  lemma SellOrderEntry(p: Plan, held: Held, s: string, m: int)
    requires 0 <= m < |SellOrder(p, held, s)|
    ensures var x := SellOrder(p, held, s)[m];
      x.account in Accounts(p.df) && SellCandidate(p, held, x.account, s) == Some(x)
      && SellSorted(p, held, s)[m] == Ranked(SellKey(p, x), x.account, x)
  {
    SortedFrom(Candidates(p, held, s), 3, m);
  }

  /** Every account with a seller entry is in the sell order. */
  lemma SellOrderComplete(p: Plan, held: Held, s: string, a: string)
    requires a in Accounts(p.df) && SellCandidate(p, held, a, s).Some?
    ensures SellCandidate(p, held, a, s).value in SellOrder(p, held, s)
  {
    NamedItemIn(Candidates(p, held, s), 3, a, SellCandidate(p, held, a, s).value);
  }

  /** The sell order goes by tax rate, then per-share gain, then larger
      holdings first, then account name. */
  lemma SellOrderRanked(p: Plan, held: Held, s: string, i: int, j: int)
    requires 0 <= i < j < |SellOrder(p, held, s)|
    ensures var o := SellOrder(p, held, s);
      !Before(Ranked(SellKey(p, o[j]), o[j].account, o[j]), Ranked(SellKey(p, o[i]), o[i].account, o[i]))
  {
    SellOrderEntry(p, held, s, i);
    SellOrderEntry(p, held, s, j);
  }

  /** The shares sold for at most `md` dollars: `_round_shares` of `-md`
      at `k` decimals, made negative, then capped at the quantity held. */
  function SellShares(md: real, px: real, k: Places, qty: real): (sh: real)
    ensures sh <= 0.0 && Abs(sh) <= Abs(qty)
    ensures px <= 0.0 ==> sh == 0.0
  {
    var sh0 := RoundTo(-md, px, k);
    -Min(Abs(-Abs(sh0)), Abs(qty))
  }

  /** The dollars of those shares: negative when any are sold, and no more
      than `md` up to half a share step. */
  lemma SellSharesDollars(md: real, px: real, k: Places, qty: real)
    ensures SoldWithin(SellShares(md, px, k, qty), px, md, HalfStep(k))
  {
    var sh0 := RoundTo(-md, px, k);
    RoundToWithin(-md, px, k);
    CapSold(sh0, px, md, HalfStep(k), qty);
  }

  /** Selling `sh` shares at `px` is a negative amount of no more than
      `md` dollars, up to `hs` shares. */
  predicate SoldWithin(sh: real, px: real, md: real, hs: real) {
    (px > 0.0 && md >= 0.0 ==> -(sh * px) <= md + px * hs)
    && (px > 0.0 && sh < 0.0 ==> sh * px < 0.0)
  }

  /** The arithmetic of the sell cap: `-min(abs(-abs(sh0)), abs(qty))` sells
      no more than `md` dollars up to the rounding of `sh0`. */
  lemma CapSold(sh0: real, px: real, md: real, hs: real, qty: real)
    requires px <= 0.0 ==> sh0 == 0.0
    requires px > 0.0 && md >= 0.0 ==> sh0 <= 0.0 && RoundedWithin(sh0, px, -md, hs)
    ensures SoldWithin(-Min(Abs(-Abs(sh0)), Abs(qty)), px, md, hs)
  {
    var sh := -Min(Abs(-Abs(sh0)), Abs(qty));
    if px > 0.0 && md >= 0.0 {
      SellScaled(sh, sh0, px, -md, hs);
    }
    NegScaled(sh, px);
  }

  lemma NegScaled(sh: real, px: real)
    ensures px > 0.0 && sh < 0.0 ==> sh * px < 0.0
  {
  }

  /** One SELL of the sell loop: at most the remaining need, at most the
      value held, never more shares than held; none when that rounds to 0. */
  function SellLeg(p: Plan, s: string, x: Seller, need: real): Option<Trade> {
    SellRow(p, s, x, SellShares(Min(need, x.heldVal), x.px, x.k, x.qty))
  }

  /** The SELL row of `sh` shares for a seller entry; none for 0 shares. */
  function SellRow(p: Plan, s: string, x: Seller, sh: real): (r: Option<Trade>)
    requires sh <= 0.0 && Abs(sh) <= Abs(x.qty) && (x.px <= 0.0 ==> sh == 0.0)
    ensures r.Some? ==> r.value.account == x.account && r.value.identifier == x.ident && r.value.sleeve == s
    ensures r.Some? ==> r.value.action == Sell && r.value.price == x.px && x.px > 0.0 && r.value.shares == sh
    ensures r.Some? ==> r.value.taxStatus == FirstStatus(p.df, x.account) && r.value.averageCost == x.avgc
    ensures r.Some? ==> PricedAtShares(r.value) && WellSigned(r.value)
    ensures r.Some? ==> Abs(r.value.shares) <= Abs(x.qty)
    ensures r.Some? ==> r.value.capGain == GainOn(x.px, x.avgc, r.value.shares)
  {
    if sh == 0.0 then None
    else Some(Trade(x.account, FirstStatus(p.df, x.account), x.ident, s, Sell, sh, x.px, x.avgc,
                    sh * x.px, GainOn(x.px, x.avgc, sh)))
  }

  /** A SELL brings in dollars, and no more than the need or the value held
      allow, up to half a share step. */
  lemma SellLegDollars(p: Plan, s: string, x: Seller, need: real)
    ensures var r := SellLeg(p, s, x, need);
      r.Some? ==> r.value.deltaDollars < 0.0
    ensures var r := SellLeg(p, s, x, need);
      r.Some? && need >= 0.0 && x.heldVal >= 0.0 ==> -r.value.deltaDollars <= Min(need, x.heldVal) + x.px * HalfStep(x.k)
  {
    SellSharesDollars(Min(need, x.heldVal), x.px, x.k, x.qty);
  }

  /** A greedy loop over candidates: each one yields at most one trade for
      the remaining need, which shrinks by the trade's dollars, until the
      candidates run out or the need is met. */
  function Fill<X>(xs: seq<X>, need: real, leg: (X, real) -> Option<Trade>): seq<Trade>
    decreases |xs|
  {
    if xs == [] || need <= 0.0 then []
    else
      var t := leg(xs[0], need);
      if t.None? then Fill(xs[1..], need, leg)
      else [t.value] + Fill(xs[1..], need - Abs(t.value.deltaDollars), leg)
  }

  /** A property of every trade a candidate can yield holds of every trade of the loop. */
  lemma {:induction false} FillOk<X>(xs: seq<X>, need: real, leg: (X, real) -> Option<Trade>, ok: Trade -> bool, j: int)
    requires forall i, n :: 0 <= i < |xs| && leg(xs[i], n).Some? ==> ok(leg(xs[i], n).value)
    requires 0 <= j < |Fill(xs, need, leg)|
    ensures ok(Fill(xs, need, leg)[j])
    decreases |xs|
  {
    var t := leg(xs[0], need);
    assert forall i, n :: 0 <= i < |xs[1..]| && leg(xs[1..][i], n).Some? ==> ok(leg(xs[1..][i], n).value) by {
      forall i | 0 <= i < |xs[1..]| ensures xs[1..][i] == xs[i + 1] { }
    }
    if t.None? {
      FillOk(xs[1..], need, leg, ok, j);
    } else if j > 0 {
      FillOk(xs[1..], need - Abs(t.value.deltaDollars), leg, ok, j - 1);
    }
  }

  /** Dollars sold by a list of trades. */
  function Sold(ts: seq<Trade>): real {
    TSum(ts, AllTrades, SellDollars)
  }

  lemma SoldCons(t: Trade, ts: seq<Trade>)
    ensures Sold([t] + ts) == TGet(t, SellDollars) + Sold(ts)
  {
    TSumAppend([t], ts, AllTrades, SellDollars);
    assert [t][..0] == [];
  }

  /** Every trade a candidate yields for a positive need is a SELL bringing
      in dollars, at most the need plus its slack. */
  ghost predicate LegsBounded<X>(xs: seq<X>, leg: (X, real) -> Option<Trade>, slack: Trade -> real) {
    forall i, n :: 0 <= i < |xs| && n > 0.0 && leg(xs[i], n).Some? ==>
      leg(xs[i], n).value.action == Sell && leg(xs[i], n).value.deltaDollars < 0.0
      && -leg(xs[i], n).value.deltaDollars <= n + slack(leg(xs[i], n).value)
  }

  lemma LegsBoundedTail<X>(xs: seq<X>, leg: (X, real) -> Option<Trade>, slack: Trade -> real)
    requires xs != [] && LegsBounded(xs, leg, slack)
    ensures LegsBounded(xs[1..], leg, slack)
  {
    forall i | 0 <= i < |xs[1..]| ensures xs[1..][i] == xs[i + 1] { }
  }

  /** When every trade is a SELL that brings in dollars and overshoots the
      need it was sized for by at most its slack, the loop stops as soon as
      the need is met: every trade but the last leaves some need, and the
      last overshoots it by at most its slack. */
  lemma {:induction false} FillBound<X>(xs: seq<X>, need: real, leg: (X, real) -> Option<Trade>, slack: Trade -> real)
    requires LegsBounded(xs, leg, slack)
    ensures var r := Fill(xs, need, leg);
      r != [] ==> Sold(r[..|r| - 1]) < need && Sold(r) <= need + slack(r[|r| - 1])
    decreases |xs|
  {
    var r := Fill(xs, need, leg);
    if xs != [] && need > 0.0 {
      var t := leg(xs[0], need);
      LegsBoundedTail(xs, leg, slack);
      if t.None? {
        FillBound(xs[1..], need, leg, slack);
      } else {
        var u := t.value;
        var need2 := need - Abs(u.deltaDollars);
        var rest := Fill(xs[1..], need2, leg);
        assert r == [u] + rest;
        FillBound(xs[1..], need2, leg, slack);
        SoldBoundCons(u, rest, need, slack);
      }
    }
  }

  /** The bound of the greedy loop carries over to one more SELL in front. */
  lemma SoldBoundCons(u: Trade, rest: seq<Trade>, need: real, slack: Trade -> real)
    requires u.action == Sell && u.deltaDollars < 0.0 && -u.deltaDollars <= need + slack(u)
    requires var need2 := need - Abs(u.deltaDollars);
      rest != [] ==> need2 > 0.0 && Sold(rest[..|rest| - 1]) < need2 && Sold(rest) <= need2 + slack(rest[|rest| - 1])
    requires need > 0.0
    ensures var r := [u] + rest;
      Sold(r[..|r| - 1]) < need && Sold(r) <= need + slack(r[|r| - 1])
  {
    var r := [u] + rest;
    SoldCons(u, rest);
    assert TGet(u, SellDollars) == Abs(u.deltaDollars);
    if rest == [] {
      assert r[..|r| - 1] == [];
      assert r[|r| - 1] == u;
    } else {
      assert r[..|r| - 1] == [u] + rest[..|rest| - 1];
      SoldCons(u, rest[..|rest| - 1]);
      assert r[|r| - 1] == rest[|rest| - 1];
    }
  }

  /** The sell loop: sells from each account in order until the need is met. */
  function SellLoop(p: Plan, s: string, xs: seq<Seller>, need: real): seq<Trade> {
    Fill(xs, need, (x, n) => SellLeg(p, s, x, n))
  }

  /** What a SELL of the planner satisfies: the account's identifier for the
      sleeve at its positive price, the status of the account, its average
      cost, no more shares than it holds, and the gain over that cost. */
  predicate SellOk(p: Plan, s: string, t: Trade) {
    t.sleeve == s && t.action == Sell && PlanIdent(p, t.account, s) == Some(t.identifier)
    && t.account in Accounts(p.df) && SleeveLegOk(p.df, p.prices, t)
  }

  /** Seller entries of accounts of the holdings. */
  predicate SellersOk(p: Plan, held: Held, s: string, xs: seq<Seller>) {
    forall i :: 0 <= i < |xs| ==> xs[i].account in Accounts(p.df) && SellCandidate(p, held, xs[i].account, s) == Some(xs[i])
  }

  lemma SellOrderOk(p: Plan, held: Held, s: string)
    ensures SellersOk(p, held, s, SellOrder(p, held, s))
  {
    forall m | 0 <= m < |SellOrder(p, held, s)|
      ensures SellOrder(p, held, s)[m].account in Accounts(p.df)
      ensures SellCandidate(p, held, SellOrder(p, held, s)[m].account, s) == Some(SellOrder(p, held, s)[m])
    {
      SellOrderEntry(p, held, s, m);
    }
  }

  lemma SellLegOk(p: Plan, held: Held, s: string, x: Seller, need: real)
    requires s != IlliquidSleeve && x.account in Accounts(p.df) && SellCandidate(p, held, x.account, s) == Some(x)
    ensures SellLeg(p, s, x, need).Some? ==> SellOk(p, s, SellLeg(p, s, x, need).value)
  {
    assert SellerFacts(p, s, x);
    SellRowOk(p, s, x, SellShares(Min(need, x.heldVal), x.px, x.k, x.qty));
  }

  /** What a seller entry records of its account's holding in the sleeve. */
  predicate SellerFacts(p: Plan, s: string, x: Seller) {
    x.account in Accounts(p.df) && PlanIdent(p, x.account, s) == Some(x.ident)
    && x.px == Get(p.prices, x.ident, 0.0) && x.qty == HeldQty(p.df, x.account, x.ident)
    && x.avgc == AvgCost(p.df, x.account, x.ident)
  }

  /** A SELL row of a seller entry of the sleeve is a planner SELL. */
  lemma SellRowOk(p: Plan, s: string, x: Seller, sh: real)
    requires s != IlliquidSleeve && SellerFacts(p, s, x)
    requires sh <= 0.0 && Abs(sh) <= Abs(x.qty) && (x.px <= 0.0 ==> sh == 0.0)
    ensures SellRow(p, s, x, sh).Some? ==> SellOk(p, s, SellRow(p, s, x, sh).value)
  {
    var r := SellRow(p, s, x, sh);
    if r.Some? {
      var t := r.value;
      assert t.identifier == x.ident && t.account == x.account && t.price == x.px;
      assert t.capGain == GainOn(t.price, t.averageCost, t.shares);
    }
  }

  /** Every row of the sell loop over seller entries is a planner SELL. */
  lemma SellLoopOk(p: Plan, held: Held, s: string, xs: seq<Seller>, need: real, j: int)
    requires s != IlliquidSleeve && SellersOk(p, held, s, xs)
    requires 0 <= j < |SellLoop(p, s, xs, need)|
    ensures SellOk(p, s, SellLoop(p, s, xs, need)[j])
  {
    var leg := (x, n) => SellLeg(p, s, x, n);
    var ok := t => SellOk(p, s, t);
    forall i, n | 0 <= i < |xs| && leg(xs[i], n).Some? ensures ok(leg(xs[i], n).value) {
      SellLegOk(p, held, s, xs[i], n);
    }
    FillOk(xs, need, leg, ok, j);
  }

  /** The greedy stop of `acct_order_for_sell`'s loop: every SELL but the
      last leaves some need, and the last overshoots it by at most half a
      share step of its price at its identifier's decimals. */
  lemma SellLoopBound(p: Plan, held: Held, s: string, xs: seq<Seller>, need: real)
    requires SellersOk(p, held, s, xs)
    ensures var r := SellLoop(p, s, xs, need);
      r != [] ==> Sold(r[..|r| - 1]) < need && Sold(r) <= need + Slack(r[|r| - 1])
  {
    var leg := (x, n) => SellLeg(p, s, x, n);
    forall i, n | 0 <= i < |xs| && n > 0.0 && leg(xs[i], n).Some?
      ensures leg(xs[i], n).value.action == Sell && leg(xs[i], n).value.deltaDollars < 0.0
      ensures -leg(xs[i], n).value.deltaDollars <= n + Slack(leg(xs[i], n).value)
    {
      assert SellCandidate(p, held, xs[i].account, s) == Some(xs[i]);
      SellLegBound(p, s, xs[i], n);
    }
    assert LegsBounded(xs, leg, Slack);
    FillBound(xs, need, leg, Slack);
  }

  /** Half a share step of a trade's price at its identifier's decimals. */
  function Slack(t: Trade): real {
    t.price * HalfStep(PlacesFor(t.identifier))
  }

  /** One SELL brings in dollars and no more than the need plus half a share
      step of its price. */
  lemma SellLegBound(p: Plan, s: string, x: Seller, n: real)
    requires x.k == PlacesFor(x.ident) && x.heldVal >= 0.0 && n > 0.0
    ensures var r := SellLeg(p, s, x, n);
      r.Some? ==> r.value.action == Sell && r.value.deltaDollars < 0.0 && -r.value.deltaDollars <= n + Slack(r.value)
  {
    SellLegDollars(p, s, x, n);
    var r := SellLeg(p, s, x, n);
    if r.Some? {
      assert Slack(r.value) == x.px * HalfStep(x.k);
      assert Min(n, x.heldVal) <= n;
    }
  }

  // ----- one sleeve -----

  /** The rows for one sleeve. */
  function SleeveRows(p: Plan, held: Held, s: string): seq<Trade> {
    DeltaRows(p, held, s, GlobalDelta(p, s))
  }

  /** The rows for a sleeve whose delta is `d`: none for the illiquid sleeve
      or a delta under one dollar in size; a positive delta is bought, a
      negative one sold. */
  function DeltaRows(p: Plan, held: Held, s: string, d: real): seq<Trade> {
    if s == IlliquidSleeve || Abs(d) < 1.0 then []
    else if d > 0.0 then BuyRows(p, held, s, d)
    else SellLoop(p, s, SellOrder(p, held, s), -d)
  }

  /** Every row of a sleeve is in that sleeve and an account of the
      holdings, and is the planner's BUY of the whole delta when the delta is
      positive and one of its SELLs when it is negative; there are rows only
      when the delta is at least one dollar in size. */
  lemma DeltaRowsOk(p: Plan, held: Held, s: string, d: real, j: int)
    requires 0 <= j < |DeltaRows(p, held, s, d)|
    ensures var t := DeltaRows(p, held, s, d)[j];
      s != IlliquidSleeve && Abs(d) >= 1.0 && t.sleeve == s && t.account in Accounts(p.df)
      && (d > 0.0 ==> BuyOk(p, s, d, t)) && (d < 0.0 ==> SellOk(p, s, t))
  {
    if d <= 0.0 {
      SellOrderOk(p, held, s);
      SellLoopOk(p, held, s, SellOrder(p, held, s), -d, j);
    }
  }

  /** A positive delta gives at most one row; a negative one sells until the
      need is met, overshooting by at most half a share step of the last price. */
  lemma DeltaRowsSize(p: Plan, held: Held, s: string, d: real)
    ensures d > 0.0 ==> |DeltaRows(p, held, s, d)| <= 1
    ensures var r := DeltaRows(p, held, s, d);
      d < 0.0 && r != [] ==> Sold(r[..|r| - 1]) < -d && Sold(r) <= -d + Slack(r[|r| - 1])
  {
    if d < 0.0 {
      var r := DeltaRows(p, held, s, d);
      if r != [] {
        assert r == SellLoop(p, s, SellOrder(p, held, s), -d);
        SellOrderOk(p, held, s);
        SellLoopBound(p, held, s, SellOrder(p, held, s), -d);
      }
    }
  }

  /** The rows of a sleeve depend on the current values of that sleeve only. */
  lemma DeltaRowsAgree(p: Plan, h1: Held, h2: Held, s: string, d: real)
    requires forall a :: Get(h1, (a, s), 0.0) == Get(h2, (a, s), 0.0)
    ensures DeltaRows(p, h1, s, d) == DeltaRows(p, h2, s, d)
  {
    if s == IlliquidSleeve || Abs(d) < 1.0 {
    } else if d > 0.0 {
      BuyRowsAgree(p, h1, h2, s, d);
    } else {
      SellOrderAgree(p, h1, h2, s);
    }
  }

  lemma BuyRowsAgree(p: Plan, h1: Held, h2: Held, s: string, d: real)
    requires d > 0.0 && forall a :: Get(h1, (a, s), 0.0) == Get(h2, (a, s), 0.0)
    ensures BuyRows(p, h1, s, d) == BuyRows(p, h2, s, d)
  {
    BuySortedAgree(p, h1, h2, s);
  }

  lemma BuySortedAgree(p: Plan, h1: Held, h2: Held, s: string)
    requires forall a :: Get(h1, (a, s), 0.0) == Get(h2, (a, s), 0.0)
    ensures BuySorted(p, h1, s) == BuySorted(p, h2, s)
  {
    var accts := Accounts(p.df);
    var r1, r2 := BuyRanks(p, h1, s, accts), BuyRanks(p, h2, s, accts);
    forall i | 0 <= i < |accts| ensures r1[i] == r2[i] {
      assert Get(h1, (accts[i], s), 0.0) == Get(h2, (accts[i], s), 0.0);
    }
    assert r1 == r2;
  }

  lemma SellOrderAgree(p: Plan, h1: Held, h2: Held, s: string)
    requires forall a :: Get(h1, (a, s), 0.0) == Get(h2, (a, s), 0.0)
    ensures SellOrder(p, h1, s) == SellOrder(p, h2, s)
  {
    CollectAgree(Accounts(p.df), a => SellCandidate(p, h1, a, s), a => SellCandidate(p, h2, a, s), x => SellKey(p, x));
  }

  /** Entries collected with two functions that agree on the names are the same. */
  lemma {:induction false} CollectAgree<T>(names: seq<string>, f: string -> Option<T>, g: string -> Option<T>, key: T -> Key)
    requires forall a :: a in names ==> f(a) == g(a)
    ensures Collect(names, f, key) == Collect(names, g, key)
  {
    if names != [] {
      CollectAgree(names[..|names| - 1], f, g, key);
    }
  }

  // ----- the sleeve loop -----

  /** `cur_val_acct_sleeve[(acct, sleeve)] += sh * px` for each row in turn. */
  function Credit(held: Held, ts: seq<Trade>): Held {
    if ts == [] then held
    else
      var h := Credit(held, ts[..|ts| - 1]);
      var t := ts[|ts| - 1];
      h[(t.account, t.sleeve) := Get(h, (t.account, t.sleeve), 0.0) + t.deltaDollars]
  }

  /** Crediting one more row updates that row's account and sleeve. */
  lemma CreditSnoc(held: Held, ts: seq<Trade>, t: Trade, h: Held)
    requires h == Credit(held, ts)
    ensures Credit(held, ts + [t]) == h[(t.account, t.sleeve) := Get(h, (t.account, t.sleeve), 0.0) + t.deltaDollars]
  {
    assert (ts + [t])[..|ts|] == ts;
  }

  /** Crediting the rows of one sleeve leaves the values of every other sleeve alone. */
  lemma {:induction false} CreditOff(held: Held, ts: seq<Trade>, s: string, s2: string, a: string)
    requires forall k :: 0 <= k < |ts| ==> ts[k].sleeve == s
    requires s2 != s
    ensures Get(Credit(held, ts), (a, s2), 0.0) == Get(held, (a, s2), 0.0)
  {
    if ts != [] {
      CreditOff(held, ts[..|ts| - 1], s, s2, a);
    }
  }

  /** The sleeve loop as the source runs it: each sleeve's rows are computed
      from the current values, which its rows then update. */
  function PlanOver(p: Plan, held: Held, ss: seq<string>): seq<Trade>
    decreases |ss|
  {
    if ss == [] then []
    else
      var r := SleeveRows(p, held, ss[0]);
      r + PlanOver(p, Credit(held, r), ss[1..])
  }

  /** Every sleeve's rows from one and the same table of values. */
  function RowsFrom(p: Plan, held: Held, ss: seq<string>): seq<Trade>
    decreases |ss|
  {
    if ss == [] then [] else SleeveRows(p, held, ss[0]) + RowsFrom(p, held, ss[1..])
  }

  /** Two tables that agree on the listed sleeves give the same rows for them. */
  lemma {:induction false} RowsFromAgree(p: Plan, h1: Held, h2: Held, ss: seq<string>)
    requires forall a, s :: s in ss ==> Get(h1, (a, s), 0.0) == Get(h2, (a, s), 0.0)
    ensures RowsFrom(p, h1, ss) == RowsFrom(p, h2, ss)
    decreases |ss|
  {
    if ss != [] {
      DeltaRowsAgree(p, h1, h2, ss[0], GlobalDelta(p, ss[0]));
      RowsFromAgree(p, h1, h2, ss[1..]);
    }
  }

  /** Since every sleeve is visited once and its rows only change its own
      values, the updates of `cur_val_acct_sleeve` never change a later
      sleeve's rows: the loop gives every sleeve's rows from the starting values. */
  lemma {:induction false} PlanOverFixed(p: Plan, held: Held, ss: seq<string>)
    requires forall i, j :: 0 <= i < j < |ss| ==> ss[i] != ss[j]
    ensures PlanOver(p, held, ss) == RowsFrom(p, held, ss)
    decreases |ss|
  {
    if ss != [] {
      var r := SleeveRows(p, held, ss[0]);
      var rest := ss[1..];
      assert forall i, j :: 0 <= i < j < |rest| ==> rest[i] != rest[j] by {
        forall i, j | 0 <= i < j < |rest| ensures rest[i] != rest[j] {
          assert rest[i] == ss[i + 1] && rest[j] == ss[j + 1];
        }
      }
      PlanOverFixed(p, Credit(held, r), rest);
      forall k | 0 <= k < |r| ensures r[k].sleeve == ss[0] {
        DeltaRowsOk(p, held, ss[0], GlobalDelta(p, ss[0]), k);
      }
      forall a, s2 | s2 in rest ensures Get(Credit(held, r), (a, s2), 0.0) == Get(held, (a, s2), 0.0) {
        var i :| 0 <= i < |rest| && rest[i] == s2;
        assert ss[i + 1] == s2;
        CreditOff(held, r, ss[0], s2, a);
      }
      RowsFromAgree(p, Credit(held, r), held, rest);
    }
  }

  /** The planner's sleeve rows: the sleeves of the tradable weights from the
      holdings' values. */
  function PlanRows(p: Plan): seq<Trade> {
    PlanOver(p, CurTable(p.df), PlanSleeves(p.w))
  }

  /** Every row of a list of sleeves is a row of one of them. */
  lemma {:induction false} RowsFromOk(p: Plan, held: Held, ss: seq<string>, j: int)
    requires 0 <= j < |RowsFrom(p, held, ss)|
    ensures exists s :: s in ss && RowsFrom(p, held, ss)[j] in SleeveRows(p, held, s)
    decreases |ss|
  {
    var r := SleeveRows(p, held, ss[0]);
    if j < |r| {
      assert RowsFrom(p, held, ss)[j] == r[j];
    } else {
      RowsFromOk(p, held, ss[1..], j - |r|);
      var s :| s in ss[1..] && RowsFrom(p, held, ss[1..])[j - |r|] in SleeveRows(p, held, s);
      assert s in ss;
    }
  }

  /** Each planner row is a row of one tradable sleeve from the holdings' values. */
  lemma PlanRowsOk(p: Plan, j: int)
    requires 0 <= j < |PlanRows(p)|
    ensures exists s :: s in WeightSleeves(Tradable(p.w)) && PlanRows(p)[j] in SleeveRows(p, CurTable(p.df), s)
  {
    PlanOverFixed(p, CurTable(p.df), PlanSleeves(p.w));
    RowsFromOk(p, CurTable(p.df), PlanSleeves(p.w), j);
  }

  /** What every planner row satisfies: an account of the holdings, a
      tradable sleeve whose delta is at least one dollar in size, the BUY of
      the whole delta when it is positive and a SELL when it is negative. */
  predicate PlanRowOk(p: Plan, t: Trade) {
    var d := GlobalDelta(p, t.sleeve);
    t.account in Accounts(p.df) && t.sleeve in WeightSleeves(Tradable(p.w)) && t.sleeve != IlliquidSleeve
    && Abs(d) >= 1.0 && (d > 0.0 ==> BuyOk(p, t.sleeve, d, t)) && (d < 0.0 ==> SellOk(p, t.sleeve, t))
  }

  lemma PlanRowFacts(p: Plan, j: int)
    requires 0 <= j < |PlanRows(p)|
    ensures PlanRowOk(p, PlanRows(p)[j])
  {
    PlanRowsOk(p, j);
    var held := CurTable(p.df);
    var s :| s in WeightSleeves(Tradable(p.w)) && PlanRows(p)[j] in SleeveRows(p, held, s);
    var k :| 0 <= k < |SleeveRows(p, held, s)| && SleeveRows(p, held, s)[k] == PlanRows(p)[j];
    DeltaRowsOk(p, held, s, GlobalDelta(p, s), k);
  }

  // ----- cash balancing -----

  /** The accounts of a list of trades, in trade order. */
  function TradeAccountList(ts: seq<Trade>): (r: seq<string>)
    ensures |r| == |ts| && forall k :: 0 <= k < |ts| ==> r[k] == ts[k].account
  {
    seq(|ts|, k requires 0 <= k < |ts| => ts[k].account)
  }

  /** The accounts of `tx.groupby("Account")`: distinct and ascending. */
  function FlowAccounts(ts: seq<Trade>): (r: seq<string>)
    ensures StrictlySorted(r)
    ensures forall a :: a in r <==> a in TradedAccounts(ts)
    ensures ts == [] ==> r == []
  {
    var xs := TradeAccountList(ts);
    var r := SortedDistinct(xs);
    assert forall a :: a in TradedAccounts(ts) ==> a in xs by {
      forall a | a in TradedAccounts(ts) ensures a in xs {
        var t :| t in ts && t.account == a;
        var k :| 0 <= k < |ts| && ts[k] == t;
        assert xs[k] == a;
      }
    }
    r
  }

  /** The first identifier among the account's rows, in row order, that is cash-like. */
  function FirstCashlike(df: seq<Holding>, a: string): (r: Option<string>)
    ensures r.Some? ==> IsCashlike(r.value)
    ensures r.Some? ==> exists k :: (0 <= k < |df| && df[k].account == a && df[k].symbol == r.value
      && forall j :: 0 <= j < k ==> !(df[j].account == a && IsCashlike(df[j].symbol)))
    ensures r.None? ==> forall k :: 0 <= k < |df| && df[k].account == a ==> !IsCashlike(df[k].symbol)
    decreases |df|
  {
    if df == [] then None
    else if df[0].account == a && IsCashlike(df[0].symbol) then
      assert df[0].account == a && df[0].symbol == df[0].symbol;
      Some(df[0].symbol)
    else
      var r := FirstCashlike(df[1..], a);
      assert forall k :: 1 <= k < |df| ==> df[k] == df[1..][k - 1];
      if r.Some? then
        var k :| 0 <= k < |df[1..]| && df[1..][k].account == a && df[1..][k].symbol == r.value
          && forall j :: 0 <= j < k ==> !(df[1..][j].account == a && IsCashlike(df[1..][j].symbol));
        assert df[k + 1].account == a && df[k + 1].symbol == r.value;
        r
      else r
  }

  /** `pick_cash_ident`: the account's first cash-like identifier, else the
      Cash proxy. */
  function PickCashIdent(df: seq<Holding>, a: string): (r: string)
    ensures FirstCashlike(df, a).Some? ==> r == FirstCashlike(df, a).value
    ensures FirstCashlike(df, a).None? ==> r == "BIL"
  {
    var c := FirstCashlike(df, a);
    if c.Some? then c.value
    else
      assert FallbackProxy["Cash"] == "BIL";
      Get(FallbackProxy, "Cash", "BIL")
  }

  /** `price_map.get(cident, 1.0)`: unlike the live engine, a price that is
      not positive is kept, and then no shares are bought. */
  function CashPx(p: Plan, a: string): real {
    Get(p.prices, PickCashIdent(p.df, a), 1.0)
  }

  /** The cash row of an account with net flow over the tolerance: the
      offsetting trade in its cash identifier; none when the flow is within
      the tolerance, the price is not positive or the shares round to 0. */
  function CashRow(p: Plan, rows: seq<Trade>, a: string): (r: Option<Trade>)
    ensures r.Some? ==> r.value.account == a && r.value.sleeve == "Cash"
    ensures r.Some? ==> r.value.identifier == PickCashIdent(p.df, a) && r.value.price == CashPx(p, a) && CashPx(p, a) > 0.0
    ensures r.Some? ==> r.value.averageCost == 0.0 && r.value.capGain == 0.0
    ensures r.Some? ==> r.value.taxStatus == FirstStatus(p.df, a) && PricedAtShares(r.value) && WellSigned(r.value)
    ensures Abs(AcctNet(rows, a)) <= p.tol || CashPx(p, a) <= 0.0 ==> r.None?
    ensures Abs(AcctNet(rows, a)) > p.tol && CashPx(p, a) > 0.0 ==>
      Abs(AcctNet(rows, a) + DollarsOf(r)) <= CashPx(p, a) * HalfStep(PlacesFor(PickCashIdent(p.df, a)))
  {
    CashRowAt(p, a, AcctNet(rows, a), PickCashIdent(p.df, a))
  }

  /** The cash row for net flow `amt` in identifier `id`, at
      `price_map.get(id, 1.0)`. */
  function CashRowAt(p: Plan, a: string, amt: real, id: string): (r: Option<Trade>)
    ensures r.Some? ==> r.value.account == a && r.value.sleeve == "Cash"
    ensures r.Some? ==> r.value.identifier == id && r.value.price == Get(p.prices, id, 1.0) && Get(p.prices, id, 1.0) > 0.0
    ensures r.Some? ==> r.value.averageCost == 0.0 && r.value.capGain == 0.0
    ensures r.Some? ==> r.value.taxStatus == FirstStatus(p.df, a) && PricedAtShares(r.value) && WellSigned(r.value)
    ensures Abs(amt) <= p.tol || Get(p.prices, id, 1.0) <= 0.0 ==> r.None?
    ensures Abs(amt) > p.tol && Get(p.prices, id, 1.0) > 0.0 ==>
      Abs(amt + DollarsOf(r)) <= Get(p.prices, id, 1.0) * HalfStep(PlacesFor(id))
  {
    var px := Get(p.prices, id, 1.0);
    if Abs(amt) <= p.tol || px <= 0.0 then None
    else Offset(p.df, a, id, px, PlacesFor(id), amt)
  }

  /** The cash rows of the listed accounts, in order. */
  function CashOver(p: Plan, rows: seq<Trade>, accts: seq<string>): seq<Trade> {
    if accts == [] then [] else CashOver(p, rows, accts[..|accts| - 1]) + OptTrade(CashRow(p, rows, accts[|accts| - 1]))
  }

  /** Each cash row is its account's, for one of the listed accounts. */
  lemma {:induction false} CashOverOk(p: Plan, rows: seq<Trade>, accts: seq<string>, j: int)
    requires 0 <= j < |CashOver(p, rows, accts)|
    ensures var t := CashOver(p, rows, accts)[j];
      t.account in accts && CashRow(p, rows, t.account) == Some(t)
    decreases |accts|
  {
    var pre := accts[..|accts| - 1];
    var c := CashOver(p, rows, pre);
    if j < |c| {
      CashOverOk(p, rows, pre, j);
      assert c[j].account in pre;
    }
  }

  /** Over distinct accounts, an account's cash dollars are those of its own cash row. */
  lemma {:induction false} CashOverNet(p: Plan, rows: seq<Trade>, accts: seq<string>, a: string)
    requires forall i, j :: 0 <= i < j < |accts| ==> accts[i] != accts[j]
    ensures AcctNet(CashOver(p, rows, accts), a) == if a in accts then DollarsOf(CashRow(p, rows, a)) else 0.0
    decreases |accts|
  {
    if accts != [] {
      var pre := accts[..|accts| - 1];
      var b := accts[|accts| - 1];
      var o := CashRow(p, rows, b);
      CashOverNet(p, rows, pre, a);
      TSumAppend(CashOver(p, rows, pre), OptTrade(o), TAccount(a), Dollars);
      NetOfOpt(o, a);
      DistinctLast(accts);
    }
  }

  /** The last of distinct names is not among the ones before it. */
  lemma DistinctLast(xs: seq<string>)
    requires xs != [] && forall i, j :: 0 <= i < j < |xs| ==> xs[i] != xs[j]
    ensures xs[|xs| - 1] !in xs[..|xs| - 1]
    ensures forall x :: x in xs <==> x in xs[..|xs| - 1] || x == xs[|xs| - 1]
  {
    var pre := xs[..|xs| - 1];
    assert xs == pre + [xs[|xs| - 1]];
    forall i | 0 <= i < |pre| ensures pre[i] != xs[|xs| - 1] {
      assert pre[i] == xs[i];
    }
  }

  lemma NetOfOpt(o: Option<Trade>, a: string)
    ensures AcctNet(OptTrade(o), a) == if o.Some? && o.value.account == a then o.value.deltaDollars else 0.0
  {
    if o.Some? {
      var t := o.value;
      assert OptTrade(o) == [t] && [t][..0] == [];
      assert TSum([t], TAccount(a), Dollars) == if TSelects(TAccount(a), t) then TGet(t, Dollars) else 0.0;
    } else {
      assert OptTrade(o) == [];
    }
  }

  /** The cash rows for a list of sleeve rows. */
  function CashRows(p: Plan, rows: seq<Trade>): seq<Trade> {
    CashOver(p, rows, FlowAccounts(rows))
  }

  /** Sleeve rows followed by their cash rows. */
  function WithCash(p: Plan, rows: seq<Trade>): seq<Trade> {
    rows + CashRows(p, rows)
  }

  /** The raw trade list: the planner's sleeve rows, then their cash rows. */
  function GlobalRaw(p: Plan): seq<Trade> {
    WithCash(p, PlanRows(p))
  }

  /** An account's raw net flow is its sleeve flow plus its cash row. */
  lemma WithCashNet(p: Plan, rows: seq<Trade>, a: string)
    ensures AcctNet(WithCash(p, rows), a)
      == AcctNet(rows, a) + (if a in TradedAccounts(rows) then DollarsOf(CashRow(p, rows, a)) else 0.0)
    ensures a !in TradedAccounts(rows) ==> AcctNet(WithCash(p, rows), a) == 0.0
  {
    var accts := FlowAccounts(rows);
    forall i, j | 0 <= i < j < |accts| ensures accts[i] != accts[j] {
      StrictlySortedDistinct(accts, i, j);
    }
    CashOverNet(p, rows, accts, a);
    TSumAppend(rows, CashRows(p, rows), TAccount(a), Dollars);
    if a !in TradedAccounts(rows) {
      forall k | 0 <= k < |rows| ensures !TSelects(TAccount(a), rows[k]) {
        assert rows[k] in rows;
      }
      TSumNone(rows, TAccount(a), Dollars);
    }
  }

  /** After cash balancing an account's raw flow is 0, within the
      tolerance, or within half a share step of its cash price; only a cash
      price that is not positive leaves it where the sleeve rows put it. */
  lemma CashBalanced(p: Plan, rows: seq<Trade>, a: string)
    ensures Settled(AcctNet(WithCash(p, rows), a), p.tol, CashPx(p, a),
                    HalfStep(PlacesFor(PickCashIdent(p.df, a))), AcctNet(rows, a))
  {
    WithCashNet(p, rows, a);
    CashRowDollars(p, rows, a);
    CashCases(AcctNet(WithCash(p, rows), a), AcctNet(rows, a), DollarsOf(CashRow(p, rows, a)), a in TradedAccounts(rows),
              p.tol, CashPx(p, a), HalfStep(PlacesFor(PickCashIdent(p.df, a))));
  }

  /** The dollars of the cash row: none when the flow is within the
      tolerance or the price is not positive, else within half a share step
      of offsetting the flow. */
  lemma CashRowDollars(p: Plan, rows: seq<Trade>, a: string)
    ensures var c := DollarsOf(CashRow(p, rows, a));
      Abs(AcctNet(rows, a)) <= p.tol || CashPx(p, a) <= 0.0 ==> c == 0.0
    ensures var c := DollarsOf(CashRow(p, rows, a));
      Abs(AcctNet(rows, a)) > p.tol && CashPx(p, a) > 0.0 ==>
        Abs(AcctNet(rows, a) + c) <= CashPx(p, a) * HalfStep(PlacesFor(PickCashIdent(p.df, a)))
  {
  }

  /** The arithmetic of the balancing bound. */
  lemma CashCases(f: real, amt: real, c: real, traded: bool, tol: real, px: real, hs: real)
    requires f == amt + (if traded then c else 0.0)
    requires !traded ==> f == 0.0
    requires Abs(amt) <= tol || px <= 0.0 ==> c == 0.0
    requires Abs(amt) > tol && px > 0.0 ==> Abs(amt + c) <= px * hs
    ensures Settled(f, tol, px, hs, amt)
  {
  }

  /** A flow `f` that is 0, within the tolerance, within `px * hs` at a
      positive price, or, at a price that is not positive, the flow `amt`. */
  predicate Settled(f: real, tol: real, px: real, hs: real, amt: real) {
    f == 0.0 || Abs(f) <= tol || (px > 0.0 && Abs(f) <= px * hs) || (px <= 0.0 && f == amt)
  }

  // ----- the raw trade list and the results -----

  /** What a cash row satisfies: the Cash sleeve, the account's cash
      identifier at its positive price, no average cost and no gain. */
  predicate CashRowOk(p: Plan, t: Trade) {
    t.sleeve == "Cash" && t.identifier == PickCashIdent(p.df, t.account)
    && t.price == CashPx(p, t.account) && t.price > 0.0
    && t.averageCost == 0.0 && t.capGain == 0.0
    && t.taxStatus == FirstStatus(p.df, t.account) && PricedAtShares(t) && WellSigned(t)
  }

  /** Sleeve rows of accounts of the holdings. */
  predicate RowsOk(p: Plan, rows: seq<Trade>) {
    forall k :: 0 <= k < |rows| ==> PlanRowOk(p, rows[k])
  }

  lemma PlanRowsAllOk(p: Plan)
    ensures RowsOk(p, PlanRows(p))
  {
    forall k | 0 <= k < |PlanRows(p)| ensures PlanRowOk(p, PlanRows(p)[k]) {
      PlanRowFacts(p, k);
    }
  }

  /** Every raw trade is a planner sleeve row or the cash row of an account
      that the sleeve rows trade in; either way an account of the holdings,
      never in the illiquid sleeve. */
  lemma WithCashOk(p: Plan, rows: seq<Trade>, j: int)
    requires RowsOk(p, rows) && 0 <= j < |WithCash(p, rows)|
    ensures var t := WithCash(p, rows)[j];
      t.account in Accounts(p.df) && t.sleeve != IlliquidSleeve && (PlanRowOk(p, t) || CashRowOk(p, t))
  {
    var raw := WithCash(p, rows);
    if j >= |rows| {
      CashOverOk(p, rows, FlowAccounts(rows), j - |rows|);
      var t := raw[j];
      assert t == CashRows(p, rows)[j - |rows|];
      var u :| u in rows && u.account == t.account;
      var k :| 0 <= k < |rows| && rows[k] == u;
      assert PlanRowOk(p, rows[k]);
    }
  }

  /** Each consolidated row carries its group's sums, is a BUY exactly when
      its net shares are not negative, names an account of the holdings and
      is never in the illiquid sleeve. */
  lemma WithCashTradeRows(p: Plan, rows: seq<Trade>, i: int)
    requires RowsOk(p, rows) && 0 <= i < |Finish(p.df, WithCash(p, rows), p.prices, p.tol).trades|
    ensures var raw := WithCash(p, rows);
      var r := Finish(p.df, raw, p.prices, p.tol).trades[i];
      r.shares == TSum(raw, TGroup(r.account, r.identifier, r.taxStatus, r.sleeve), Shares)
      && r.deltaDollars == TSum(raw, TGroup(r.account, r.identifier, r.taxStatus, r.sleeve), Dollars)
      && r.capGain == TSum(raw, TGroup(r.account, r.identifier, r.taxStatus, r.sleeve), Gain)
      && (r.action == Buy <==> r.shares >= 0.0)
      && r.sleeve != IlliquidSleeve && r.account in Accounts(p.df)
  {
    var raw := WithCash(p, rows);
    ConsolidatedRow(raw, i);
    ConsolidateFromInput(raw, i);
    var j :| 0 <= j < |raw| && KeyOf(raw[j]) == KeyOf(Consolidate(raw)[i]);
    WithCashOk(p, rows, j);
  }

  /** The residuals are exactly the traded accounts whose raw net flow
      exceeds the tolerance, with that flow; at a positive cash price such a
      flow is within half a share step of it, and at a price that is not
      positive it is the sleeve rows' flow. */
  lemma WithCashResiduals(p: Plan, rows: seq<Trade>, a: string)
    ensures var raw := WithCash(p, rows);
      ResidualsWithin(Finish(p.df, raw, p.prices, p.tol).residuals, raw, a, p.tol,
                      CashPx(p, a), HalfStep(PlacesFor(PickCashIdent(p.df, a))))
  {
    CashBalanced(p, rows, a);
    var hs := HalfStep(PlacesFor(PickCashIdent(p.df, a)));
    assert hs > 0.0;
    ResidualBound(p.df, WithCash(p, rows), p.prices, p.tol, a, CashPx(p, a), hs, AcctNet(rows, a));
  }

  /** `a` is among the residuals `res` of `raw` exactly when it is traded and
      its net flow exceeds `tol`, with that flow, within `px * hs` at a
      positive price `px`. */
  predicate ResidualsWithin(res: map<string, real>, raw: seq<Trade>, a: string, tol: real, px: real, hs: real) {
    (a in res <==> a in TradedAccounts(raw) && Abs(AcctNet(raw, a)) > tol)
    && (a in res ==> res[a] == AcctNet(raw, a))
    && (a in res && px > 0.0 ==> Abs(res[a]) <= px * hs)
  }

  /** The residual of a balanced account is within its rounding bound. */
  lemma ResidualBound(df: seq<Holding>, raw: seq<Trade>, prices: map<string, real>, tol: real, a: string,
                      px: real, hs: real, amt: real)
    requires hs > 0.0
    requires Settled(AcctNet(raw, a), tol, px, hs, amt)
    ensures ResidualsWithin(Finish(df, raw, prices, tol).residuals, raw, a, tol, px, hs)
  {
    FinishResidualsOf(df, raw, prices, tol, a);
    ResidualCases(AcctNet(raw, a), tol, px, hs, amt);
  }

  /** The arithmetic of the residual bound. */
  lemma ResidualCases(f: real, tol: real, px: real, hs: real, amt: real)
    requires hs > 0.0
    requires Settled(f, tol, px, hs, amt)
    ensures Abs(f) > tol && px > 0.0 ==> Abs(f) <= px * hs
  {
    if px > 0.0 { assert px * hs > 0.0; }
  }

  /** The residuals of the results are the traded accounts whose raw net
      flow exceeds the tolerance, with that flow. */
  lemma FinishResidualsOf(df: seq<Holding>, raw: seq<Trade>, prices: map<string, real>, tol: real, a: string)
    ensures var res := Finish(df, raw, prices, tol).residuals;
      (a in res <==> a in TradedAccounts(raw) && Abs(AcctNet(raw, a)) > tol)
      && (a in res ==> res[a] == AcctNet(raw, a))
  {
    if raw != [] {
      ConsolidatedFlow(raw, a);
      ConsolidatedAccounts(raw);
    }
  }

  // ----- the pipeline -----

  /** The planner's `build_trades_and_afterholdings` on holdings `h` (with
      or without a usable TaxStatus column and a Sleeve column), weights `w`, the median price per
      identifier, the cash tolerance and the tax-rate table. */
  function GlobalBuild(h: seq<Holding>, statusGiven: bool, sleeveGiven: bool, w: Weights, prices: map<string, real>,
                       tol: real, rates: map<string, real>): Outcome {
    var df := PlannerEnrich(h, statusGiven, sleeveGiven);
    Finish(df, GlobalRaw(PlanOf(df, w, prices, tol, rates)), prices, tol)
  }

  /** The installed planner maps `tax_rate_for_status` over every account's
      first status before it builds any trade, so it fails when one of them
      fails. */
  predicate PlannerRaises(df: seq<Holding>) {
    exists a | a in Accounts(df) :: TaxRateForStatusAsWritten(FirstStatus(df, a)).None?
  }

  /** The planner as installed: None for the NameError, otherwise the
      outcome, in which no rate was read from a table. */
  function GlobalBuildAsWritten(h: seq<Holding>, statusGiven: bool, sleeveGiven: bool, w: Weights,
                                prices: map<string, real>, tol: real): Option<Outcome> {
    var df := PlannerEnrich(h, statusGiven, sleeveGiven);
    if PlannerRaises(df) then None else Some(GlobalBuild(h, statusGiven, sleeveGiven, w, prices, tol, EstTaxRate))
  }

  /** When the planner assigns the statuses itself, it fails exactly when
      some account is assigned Trust or Taxable, the default. */
  lemma PlannerFailsExactly(h: seq<Holding>, sleeveGiven: bool, w: Weights,
                            prices: map<string, real>, tol: real)
    ensures GlobalBuildAsWritten(h, false, sleeveGiven, w, prices, tol).None?
      <==> exists k :: 0 <= k < |h| && AssignTaxStatus(Some(h[k].account)) in {"Trust", "Taxable"}
  {
    AssignedStatusRaises(h, sleeveGiven);
  }

  lemma AssignedStatusRaises(h: seq<Holding>, sleeveGiven: bool)
    ensures PlannerRaises(PlannerEnrich(h, false, sleeveGiven))
      <==> exists k :: 0 <= k < |h| && AssignTaxStatus(Some(h[k].account)) in {"Trust", "Taxable"}
  {
    var df := PlannerEnrich(h, false, sleeveGiven);
    assert forall k :: 0 <= k < |df| ==> df[k].taxStatus == AssignTaxStatus(Some(h[k].account));
    StatusesRaise(df);
  }

  /** Over rows whose statuses are the engine's, one per account, the
      installed planner fails exactly when some row is Trust or Taxable. */
  lemma StatusesRaise(df: seq<Holding>)
    requires forall k :: 0 <= k < |df| ==> df[k].taxStatus in {"ROTH IRA", "HSA", "Trust", "Taxable"}
    requires forall i, k :: 0 <= i < |df| && 0 <= k < |df| && df[i].account == df[k].account ==>
      df[i].taxStatus == df[k].taxStatus
    ensures PlannerRaises(df) <==> exists k :: 0 <= k < |df| && df[k].taxStatus in {"Trust", "Taxable"}
  {
    if PlannerRaises(df) {
      var a :| a in Accounts(df) && TaxRateForStatusAsWritten(FirstStatus(df, a)).None?;
      var k :| 0 <= k < |df| && df[k].account == a;
      var j := FirstRowOf(df, a, k);
      RaisingStatus(df[j].taxStatus);
    }
    if exists k :: 0 <= k < |df| && df[k].taxStatus in {"Trust", "Taxable"} {
      var k :| 0 <= k < |df| && df[k].taxStatus in {"Trust", "Taxable"};
      var a := df[k].account;
      var j := FirstRowOf(df, a, k);
      RaisingStatus(df[j].taxStatus);
      RaisingStatus(df[k].taxStatus);
      assert a in Accounts(df);
    }
  }

  /** On the engine's statuses the installed function fails exactly on
      Trust and Taxable. */
  lemma RaisingStatus(st: string)
    requires st in {"ROTH IRA", "HSA", "Trust", "Taxable"}
    ensures TaxRateForStatusAsWritten(st).None? <==> st in {"Trust", "Taxable"}
  {
    TaxRateAsWrittenOnStatuses();
  }

  /** A row of the account whose status is the account's first status. */
  lemma FirstRowOf(df: seq<Holding>, a: string, k: int) returns (j: int)
    requires 0 <= k < |df| && df[k].account == a
    ensures 0 <= j < |df| && df[j].account == a && df[j].taxStatus == FirstStatus(df, a)
  {
    FirstStatusIsFirst(df, a, k);
    j :| 0 <= j <= k && df[j].account == a && df[j].taxStatus == FirstStatus(df, a)
      && forall i :: 0 <= i < j ==> df[i].account != a;
  }

  /** When the installed planner does not fail, every account's rate is 0
      whatever the table, so supplying the conventions table changes nothing. */
  lemma AsWrittenRatesUnused(df: seq<Holding>, w: Weights, prices: map<string, real>, tol: real,
                             rates: map<string, real>, a: string)
    requires !PlannerRaises(df) && a in Accounts(df)
    ensures AcctRate(PlanOf(df, w, prices, tol, rates), a) == AcctRate(PlanOf(df, w, prices, tol, EstTaxRate), a) == 0.0
  {
    TaxRateAsWrittenAgrees(rates, FirstStatus(df, a));
    TaxRateAsWrittenAgrees(EstTaxRate, FirstStatus(df, a));
  }

  /** The planner's consolidated trades: group sums, BUY exactly when the
      net shares are not negative, accounts of the holdings, never illiquid. */
  lemma GlobalTradeRows(p: Plan, i: int)
    requires 0 <= i < |Finish(p.df, GlobalRaw(p), p.prices, p.tol).trades|
    ensures var raw := GlobalRaw(p);
      var r := Finish(p.df, raw, p.prices, p.tol).trades[i];
      r.shares == TSum(raw, TGroup(r.account, r.identifier, r.taxStatus, r.sleeve), Shares)
      && r.deltaDollars == TSum(raw, TGroup(r.account, r.identifier, r.taxStatus, r.sleeve), Dollars)
      && (r.action == Buy <==> r.shares >= 0.0)
      && r.sleeve != IlliquidSleeve && r.account in Accounts(p.df)
  {
    PlanRowsAllOk(p);
    WithCashTradeRows(p, PlanRows(p), i);
  }

  /** Every raw trade of the planner is a sleeve row or a cash row. */
  lemma GlobalRawOk(p: Plan, j: int)
    requires 0 <= j < |GlobalRaw(p)|
    ensures var t := GlobalRaw(p)[j];
      t.account in Accounts(p.df) && t.sleeve != IlliquidSleeve && (PlanRowOk(p, t) || CashRowOk(p, t))
  {
    PlanRowsAllOk(p);
    WithCashOk(p, PlanRows(p), j);
  }

  /** The planner's residuals: the accounts whose flow exceeds the
      tolerance, with that flow, which cash balancing has brought within
      half a share step of a positive cash price. */
  lemma GlobalResiduals(p: Plan, a: string)
    ensures var raw := GlobalRaw(p);
      var res := Finish(p.df, raw, p.prices, p.tol).residuals;
      (a in res <==> a in TradedAccounts(raw) && Abs(AcctNet(raw, a)) > p.tol)
      && (a in res ==> res[a] == AcctNet(raw, a))
    ensures var res := Finish(p.df, GlobalRaw(p), p.prices, p.tol).residuals;
      a in res && CashPx(p, a) > 0.0 ==> Abs(res[a]) <= CashPx(p, a) * HalfStep(PlacesFor(PickCashIdent(p.df, a)))
  {
    WithCashResiduals(p, PlanRows(p), a);
  }

  // ----- the imperative loops -----

  /** A position that satisfies `FirstUsable`'s contract is that position. */
  lemma FirstUsableIs(p: Plan, s: string, d: real, order: seq<string>, i: int)
    requires d > 0.0 && 0 <= i <= |order|
    requires forall k :: 0 <= k < i ==> BuyTrade(p, s, order[k], d).None?
    requires i < |order| ==> BuyTrade(p, s, order[i], d).Some?
    ensures FirstUsable(p, s, d, order) == i
  {
  }

  /** The buy goes to the first usable account of the order. */
  lemma BuyFromAt(p: Plan, s: string, d: real, order: seq<string>, i: int)
    requires d > 0.0 && 0 <= i < |order|
    requires forall k :: 0 <= k < i ==> BuyTrade(p, s, order[k], d).None?
    requires BuyTrade(p, s, order[i], d).Some?
    ensures BuyFrom(p, s, d, order) == [BuyTrade(p, s, order[i], d).value]
  {
    FirstUsableIs(p, s, d, order, i);
  }

  /** No buy when no account of the order is usable. */
  lemma BuyFromNone(p: Plan, s: string, d: real, order: seq<string>)
    requires d > 0.0
    requires forall k :: 0 <= k < |order| ==> BuyTrade(p, s, order[k], d).None?
    ensures BuyFrom(p, s, d, order) == []
  {
    FirstUsableIs(p, s, d, order, |order|);
  }

  /** Crediting a single row. */
  lemma CreditOne(held: Held, t: Trade)
    ensures Credit(held, [t]) == held[(t.account, t.sleeve) := Get(held, (t.account, t.sleeve), 0.0) + t.deltaDollars]
  {
    assert [t][..0] == [];
  }

  /** The BUY branch: walks the buy order and buys the whole delta in the
      first account that has an identifier, a positive price and a nonzero
      share count, crediting the account's value in the sleeve. */
  method BuySleeve(p: Plan, cur: Held, s: string, d: real) returns (rows: seq<Trade>, cur2: Held)
    requires d > 0.0
    ensures rows == BuyRows(p, cur, s, d)
    ensures cur2 == Credit(cur, rows)
  {
    rows, cur2 := BuyWalk(p, cur, s, d, Names(BuySorted(p, cur, s)));
  }

  /** The buy from the first usable account of `order`, if any. */
  function BuyFrom(p: Plan, s: string, d: real, order: seq<string>): (r: seq<Trade>)
    requires d > 0.0
  {
    var j := FirstUsable(p, s, d, order);
    if j < |order| then [BuyTrade(p, s, order[j], d).value] else []
  }

  /** The loop of the BUY branch over a given order. */
  method BuyWalk(p: Plan, cur: Held, s: string, d: real, order: seq<string>) returns (rows: seq<Trade>, cur2: Held)
    requires d > 0.0
    ensures rows == BuyFrom(p, s, d, order)
    ensures cur2 == Credit(cur, rows)
  {
    var i := 0;
    while i < |order| && BuyTrade(p, s, order[i], d).None?
      invariant 0 <= i <= |order|
      invariant forall k :: 0 <= k < i ==> BuyTrade(p, s, order[k], d).None?
    {
      i := i + 1;
    }
    if i == |order| {
      BuyFromNone(p, s, d, order);
      return [], cur;
    }
    var t := BuyTrade(p, s, order[i], d).value;
    BuyFromAt(p, s, d, order, i);
    CreditOne(cur, t);
    rows := [t];
    cur2 := cur[(t.account, t.sleeve) := Get(cur, (t.account, t.sleeve), 0.0) + t.deltaDollars];
  }

  /** The SELL branch: walks the sell order while some need remains, sells
      at most the need and the value held, capped at the shares held, and
      credits each sale to the account's value in the sleeve. */
  method SellSleeve(p: Plan, cur: Held, s: string, need0: real) returns (rows: seq<Trade>, cur2: Held)
    ensures rows == SellLoop(p, s, SellOrder(p, cur, s), need0)
    ensures cur2 == Credit(cur, rows)
  {
    rows, cur2 := SellWalk(p, cur, s, SellOrder(p, cur, s), need0);
  }

  /** The loop of the SELL branch over a given order of sellers. */
  method SellWalk(p: Plan, cur: Held, s: string, sellers: seq<Seller>, need0: real) returns (rows: seq<Trade>, cur2: Held)
    ensures rows == SellLoop(p, s, sellers, need0)
    ensures cur2 == Credit(cur, rows)
  {
    rows, cur2 := FillWalk(sellers, need0, (x, n) => SellLeg(p, s, x, n), cur);
  }

  /** The greedy loop: while some need remains, takes each candidate's
      trade, if any, lowers the need by its dollars and credits its account
      and sleeve. */
  method FillWalk<X>(xs: seq<X>, need0: real, leg: (X, real) -> Option<Trade>, cur: Held)
    returns (rows: seq<Trade>, cur2: Held)
    ensures rows == Fill(xs, need0, leg)
    ensures cur2 == Credit(cur, rows)
  {
    rows := [];
    cur2 := cur;
    var need := need0;
    var i := 0;
    while i < |xs| && need > 0.0
      invariant 0 <= i <= |xs|
      invariant rows + Fill(xs[i..], need, leg) == Fill(xs, need0, leg)
      invariant cur2 == Credit(cur, rows)
      decreases |xs| - i
    {
      var t := leg(xs[i], need);
      FillAdvance(xs, i, need, leg, rows);
      if t.Some? {
        var u := t.value;
        CreditSnoc(cur, rows, u, cur2);
        cur2 := cur2[(u.account, u.sleeve) := Get(cur2, (u.account, u.sleeve), 0.0) + u.deltaDollars];
        rows := rows + [u];
        need := need - Abs(u.deltaDollars);
      }
      i := i + 1;
    }
    FillDone(xs, i, need, leg, rows);
  }

  /** The rows so far and the rows still to come, after candidate `i`. */
  lemma FillAdvance<X>(xs: seq<X>, i: int, need: real, leg: (X, real) -> Option<Trade>, rows: seq<Trade>)
    requires 0 <= i < |xs| && need > 0.0
    ensures leg(xs[i], need).None? ==> rows + Fill(xs[i..], need, leg) == rows + Fill(xs[i + 1..], need, leg)
    ensures leg(xs[i], need).Some? ==>
      rows + Fill(xs[i..], need, leg) ==
      (rows + [leg(xs[i], need).value]) + Fill(xs[i + 1..], need - Abs(leg(xs[i], need).value.deltaDollars), leg)
  {
    FillStep(xs, i, need, leg);
    var t := leg(xs[i], need);
    if t.Some? {
      var rest := Fill(xs[i + 1..], need - Abs(t.value.deltaDollars), leg);
      assert rows + [t.value] + rest == rows + ([t.value] + rest);
    }
  }

  /** Once the candidates run out or the need is met, no rows are to come. */
  lemma FillDone<X>(xs: seq<X>, i: int, need: real, leg: (X, real) -> Option<Trade>, rows: seq<Trade>)
    requires 0 <= i <= |xs| && (i == |xs| || need <= 0.0)
    ensures rows + Fill(xs[i..], need, leg) == rows
  {
    assert Fill(xs[i..], need, leg) == [];
    assert rows + [] == rows;
  }

  /** One step of the greedy loop from position `i` while some need remains. */
  lemma FillStep<X>(xs: seq<X>, i: int, need: real, leg: (X, real) -> Option<Trade>)
    requires 0 <= i < |xs| && need > 0.0
    ensures leg(xs[i], need).None? ==> Fill(xs[i..], need, leg) == Fill(xs[i + 1..], need, leg)
    ensures leg(xs[i], need).Some? ==>
      Fill(xs[i..], need, leg) ==
      [leg(xs[i], need).value] + Fill(xs[i + 1..], need - Abs(leg(xs[i], need).value.deltaDollars), leg)
  {
    assert xs[i..][1..] == xs[i + 1..];
  }

  /** One sleeve of the planner: skips the illiquid sleeve and a delta under
      one dollar in size, buys a positive delta and sells a negative one. */
  method DeltaStep(p: Plan, cur: Held, s: string, d: real) returns (rows: seq<Trade>, cur2: Held)
    ensures rows == DeltaRows(p, cur, s, d)
    ensures cur2 == Credit(cur, rows)
  {
    if s == IlliquidSleeve || Abs(d) < 1.0 {
      return [], cur;
    }
    if d > 0.0 {
      rows, cur2 := BuySleeve(p, cur, s, d);
    } else {
      rows, cur2 := SellSleeve(p, cur, s, -d);
    }
  }

  /** One step of the planner's sleeve loop from position `i`. */
  lemma PlanOverStep(p: Plan, held: Held, ss: seq<string>, i: int)
    requires 0 <= i < |ss|
    ensures PlanOver(p, held, ss[i..]) ==
      SleeveRows(p, held, ss[i]) + PlanOver(p, Credit(held, SleeveRows(p, held, ss[i])), ss[i + 1..])
  {
    assert ss[i..][1..] == ss[i + 1..];
  }

  /** The rows so far and the rows still to come, once sleeve `i` is done. */
  lemma PlanOverAfter(p: Plan, rows: seq<Trade>, held: Held, ss: seq<string>, i: int, r: seq<Trade>)
    requires 0 <= i < |ss| && r == SleeveRows(p, held, ss[i])
    ensures rows + PlanOver(p, held, ss[i..]) == (rows + r) + PlanOver(p, Credit(held, r), ss[i + 1..])
  {
    PlanOverStep(p, held, ss, i);
  }

  /** The sleeve loop of the planner, with `cur_val_acct_sleeve` as a
      table that each sleeve's rows update. */
  method PlanAll(p: Plan) returns (rows: seq<Trade>)
    ensures rows == PlanRows(p)
  {
    var ss := PlanSleeves(p.w);
    var cur := CurTable(p.df);
    rows := [];
    var i := 0;
    while i < |ss|
      invariant 0 <= i <= |ss|
      invariant rows + PlanOver(p, cur, ss[i..]) == PlanOver(p, CurTable(p.df), ss)
    {
      var r, cur2 := DeltaStep(p, cur, ss[i], GlobalDelta(p, ss[i]));
      PlanOverAfter(p, rows, cur, ss, i, r);
      rows := rows + r;
      cur := cur2;
      i := i + 1;
    }
    assert ss[i..] == [];
  }

  /** `pick_cash_ident` as a loop over the account's rows. */
  method PickCash(df: seq<Holding>, a: string) returns (ident: string)
    ensures ident == PickCashIdent(df, a)
  {
    var k := 0;
    while k < |df|
      invariant 0 <= k <= |df|
      invariant forall j :: 0 <= j < k ==> !(df[j].account == a && IsCashlike(df[j].symbol))
    {
      if df[k].account == a && IsCashlike(df[k].symbol) {
        return df[k].symbol;
      }
      k := k + 1;
    }
    ident := Get(FallbackProxy, "Cash", "BIL");
  }

  /** The cash step: for every traded account, in ascending order, whose net
      flow exceeds the tolerance, the trade in its cash identifier that
      offsets the flow. */
  method CashStep(p: Plan, rows: seq<Trade>) returns (cash: seq<Trade>)
    ensures cash == CashRows(p, rows)
  {
    var accts := FlowAccounts(rows);
    cash := [];
    var i := 0;
    while i < |accts|
      invariant 0 <= i <= |accts|
      invariant cash == CashOver(p, rows, accts[..i])
      decreases |accts| - i
    {
      var a := accts[i];
      var amt := AccountNet(rows, a);
      var cident := PickCash(p.df, a);
      var t := CashRowAt(p, a, amt, cident);
      assert t == CashRow(p, rows, a);
      CashAdvance(p, rows, accts, i, cash, t);
      if t.Some? {
        cash := cash + [t.value];
      }
      i := i + 1;
    }
    assert accts[..|accts|] == accts;
  }

  /** One step of CashStep: the account's cash row, if any, extends the list. */
  lemma CashAdvance(p: Plan, rows: seq<Trade>, accts: seq<string>, i: int, cash: seq<Trade>, t: Option<Trade>)
    requires 0 <= i < |accts| && cash == CashOver(p, rows, accts[..i]) && t == CashRow(p, rows, accts[i])
    ensures t.Some? ==> cash + [t.value] == CashOver(p, rows, accts[..i + 1])
    ensures t.None? ==> cash == CashOver(p, rows, accts[..i + 1])
  {
    assert accts[..i + 1][..i] == accts[..i];
    assert cash + [] == cash;
  }

  /** Every account the sleeve rows trade in has rows in the holdings, so
      the cash step's `assign_tax_status(acct)` fallback is never taken. */
  lemma AccountHasRows(p: Plan, rows: seq<Trade>, a: string)
    requires RowsOk(p, rows) && a in TradedAccounts(rows)
    ensures a in RowAccounts(p.df)
  {
    var t :| t in rows && t.account == a;
    var k :| 0 <= k < |rows| && rows[k] == t;
    assert PlanRowOk(p, rows[k]);
    var j :| 0 <= j < |p.df| && p.df[j].account == a;
    assert RowAccounts(p.df)[j] == a;
  }

  /** The whole of the planner's `build_trades_and_afterholdings`. */
  method BuildGlobalTradesAndAfterHoldings(h: seq<Holding>, statusGiven: bool, sleeveGiven: bool, w: Weights, prices: map<string, real>,
                                          tol: real, rates: map<string, real>)
    returns (tx: seq<Trade>, after: seq<Holding>, residuals: map<string, real>)
    ensures Outcome(tx, after, residuals) == GlobalBuild(h, statusGiven, sleeveGiven, w, prices, tol, rates)
  {
    var df := PlannerEnrich(h, statusGiven, sleeveGiven);
    var p := PlanOf(df, w, prices, tol, rates);
    var raw := GlobalRawTrades(p);
    tx, after, residuals := FinishTrades(df, raw, prices, tol);
  }

  /** The sleeve loop, then the cash rows when it yielded any trade. */
  method GlobalRawTrades(p: Plan) returns (raw: seq<Trade>)
    ensures raw == GlobalRaw(p)
  {
    var rows := PlanAll(p);
    raw := rows;
    if rows != [] {
      var cash := CashStep(p, rows);
      raw := rows + cash;
    } else {
      assert FlowAccounts(rows) == [];
      assert rows + CashRows(p, rows) == [];
    }
  }

}
