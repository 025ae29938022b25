/** `build_trades_and_afterholdings` of portfolio_trades/engine_prev.py, the
    earlier per-account engine: the same sizing and sell cap as the live
    engine, but a weight divisor that falls back to 1 instead of skipping
    the account, a canonical identifier used even when it is empty, and no
    cash balancing, so the residuals are simply the accounts whose net flow
    exceeds the tolerance. Consolidation, the placeholders and the
    after-holdings are those of the live engine. */
module EnginePrev {
  import opened Text
  import opened Numeric
  import opened Options
  import opened Conventions
  import opened Portfolio
  import opened Classify
  import opened Consolidation
  import opened Projection
  import opened Sizing
  import opened Engine

  /** `W_inv.sum() if W_inv.sum() > 0 else 1.0`. */
  function PrevDivisor(w: Weights): (r: real)
    ensures r > 0.0
    ensures Denom(w) > 0.0 ==> r == Denom(w)
    ensures Denom(w) <= 0.0 ==> r == 1.0
  {
    if Denom(w) > 0.0 then Denom(w) else 1.0
  }

  /** `tgt - cur` for one sleeve with the fallback divisor. */
  function PrevDelta(e: Env, a: string, s: string): real {
    WeightOf(Tradable(e.w), s) / PrevDivisor(e.w) * Investable(e.df, a) - CurVal(e.df, a, s)
  }

  /** When every tradable weight is 0 the targets are all 0, so each
      sleeve's delta is minus what the account holds in it. */
  lemma ZeroWeightsSellDown(e: Env, a: string, s: string)
    requires forall k :: 0 <= k < |Tradable(e.w)| ==> Tradable(e.w)[k].1 == 0.0
    ensures PrevDelta(e, a, s) == -CurVal(e.df, a, s)
  {
    var t := Tradable(e.w);
    WeightOfFound(t, s);
    if exists k :: 0 <= k < |t| && t[k].0 == s {
      var r := WeightOf(t, s);
      assert (s, r) in t;
      var k :| 0 <= k < |t| && t[k] == (s, r);
    }
  }

  /** `acct_sleeve_ident.get((acct, sleeve))`, else `FALLBACK_PROXY.get(sleeve)`:
      unlike the live engine, an empty canonical identifier is kept. */
  function PrevIdent(canon: Canon, a: string, s: string): (r: Option<string>)
    ensures (a, s) in canon ==> r == Some(canon[(a, s)])
    ensures (a, s) !in canon ==> r == Lookup(FallbackProxy, s)
  {
    if (a, s) in canon then Some(canon[(a, s)]) else Lookup(FallbackProxy, s)
  }

  /** The two engines pick the same identifier except for an empty canonical one. */
  lemma PrevIdentAgrees(canon: Canon, a: string, s: string)
    ensures (a, s) !in canon || canon[(a, s)] != "" ==> PrevIdent(canon, a, s) == EngineIdent(canon, a, s)
    ensures (a, s) in canon && canon[(a, s)] == "" ==> PrevIdent(canon, a, s) == Some("")
  {
  }

  function PrevLeg(e: Env, a: string, s: string): Option<Trade> {
    SizedLeg(e.df, e.prices, a, s, PrevIdent(e.canon, a, s), PrevDelta(e, a, s))
  }

  /** The sleeve legs of one account over the given sleeves, in order. */
  function PrevLegs(e: Env, a: string, ss: seq<string>): seq<Trade> {
    if ss == [] then [] else PrevLegs(e, a, ss[..|ss| - 1]) + OptTrade(PrevLeg(e, a, ss[|ss| - 1]))
  }

  /** Every leg belongs to the account and to one of the sleeves, and is a
      well-formed sleeve leg: priced, signed, sell-capped, with its gain. */
  lemma {:induction false} PrevLegsOk(e: Env, a: string, ss: seq<string>, j: int)
    requires 0 <= j < |PrevLegs(e, a, ss)|
    ensures var t := PrevLegs(e, a, ss)[j];
      t.account == a && t.sleeve in ss && SleeveLegOk(e.df, e.prices, t)
    decreases |ss|
  {
    var pre := ss[..|ss| - 1];
    var s := ss[|ss| - 1];
    if j < |PrevLegs(e, a, pre)| {
      PrevLegsOk(e, a, pre, j);
      assert PrevLegs(e, a, pre)[j].sleeve in pre;
    } else {
      SizedLegOk(e.df, e.prices, a, s, PrevIdent(e.canon, a, s), PrevDelta(e, a, s));
    }
  }

  /** An account's trades: none when its total is not positive. */
  function PrevAccountTrades(e: Env, a: string): seq<Trade> {
    if AcctTotal(e.df, a) <= 0.0 then [] else PrevLegs(e, a, AcctSleeves(e.df, e.w, a))
  }

  lemma PrevAccountTradesOk(e: Env, a: string, j: int)
    requires 0 <= j < |PrevAccountTrades(e, a)|
    ensures AcctTotal(e.df, a) > 0.0
    ensures var t := PrevAccountTrades(e, a)[j];
      t.account == a && t.sleeve != IlliquidSleeve && SleeveLegOk(e.df, e.prices, t)
  {
    PrevLegsOk(e, a, AcctSleeves(e.df, e.w, a), j);
  }

  function PrevRawOver(e: Env, accts: seq<string>): seq<Trade> {
    if accts == [] then [] else PrevRawOver(e, accts[..|accts| - 1]) + PrevAccountTrades(e, accts[|accts| - 1])
  }

  function PrevRawTrades(e: Env): seq<Trade> {
    PrevRawOver(e, Accounts(e.df))
  }

  lemma {:induction false} PrevRawOverOk(e: Env, accts: seq<string>, j: int)
    requires 0 <= j < |PrevRawOver(e, accts)|
    ensures var t := PrevRawOver(e, accts)[j];
      t.account in accts && AcctTotal(e.df, t.account) > 0.0 && SleeveLegOk(e.df, e.prices, t)
    decreases |accts|
  {
    var pre := accts[..|accts| - 1];
    var p := PrevRawOver(e, pre);
    if j < |p| {
      PrevRawOverOk(e, pre, j);
      assert p[j].account in pre;
    } else {
      PrevAccountTradesOk(e, accts[|accts| - 1], j - |p|);
    }
  }

  /** Every raw trade names an account of the holdings whose total is
      positive, is not in the illiquid sleeve, has Delta_Dollars = shares ×
      price and a sign that matches its action; a SELL is capped at the
      account's shares and carries (price − average cost) × |shares|. */
  lemma PrevRawTradeFacts(e: Env, j: int)
    requires 0 <= j < |PrevRawTrades(e)|
    ensures var t := PrevRawTrades(e)[j];
      (exists k :: 0 <= k < |e.df| && e.df[k].account == t.account)
      && AcctTotal(e.df, t.account) > 0.0 && SleeveLegOk(e.df, e.prices, t)
  {
    PrevRawOverOk(e, Accounts(e.df), j);
  }

  // ----- the imperative loops -----

  /** The sleeve loop: appends the sized leg of each sleeve in turn. */
  method AppendPrevLegs(e: Env, a: string, sleeves: seq<string>, done: seq<Trade>) returns (trades: seq<Trade>)
    ensures trades == done + PrevLegs(e, a, sleeves)
  {
    trades := done;
    var j := 0;
    while j < |sleeves|
      invariant 0 <= j <= |sleeves|
      invariant trades == done + PrevLegs(e, a, sleeves[..j])
    {
      assert sleeves[..j + 1][..j] == sleeves[..j];
      var leg := PrevLeg(e, a, sleeves[j]);
      AppendOpt(done, PrevLegs(e, a, sleeves[..j]), leg);
      if leg.Some? {
        trades := trades + [leg.value];
      }
      j := j + 1;
    }
    assert sleeves[..|sleeves|] == sleeves;
  }

  /** The account loop of engine_prev.py. */
  method BuildPrevRawTrades(e: Env) returns (trades: seq<Trade>)
    ensures trades == PrevRawTrades(e)
  {
    var accts := Accounts(e.df);
    trades := [];
    var i := 0;
    while i < |accts|
      invariant 0 <= i <= |accts|
      invariant trades == PrevRawOver(e, accts[..i])
    {
      assert accts[..i + 1][..i] == accts[..i];
      if AcctTotal(e.df, accts[i]) > 0.0 {
        var sleeves := AcctSleeves(e.df, e.w, accts[i]);
        trades := AppendPrevLegs(e, accts[i], sleeves, trades);
      }
      i := i + 1;
    }
    assert accts[..|accts|] == accts;
  }

  // ----- the pipeline -----

  function PrevBuild(h: seq<Holding>, w: Weights, prices: map<string, real>, tol: real): Outcome {
    var df := Enrich(h);
    Finish(df, PrevRawTrades(EnvOf(df, w, prices, tol)), prices, tol)
  }

  /** The whole of engine_prev.py's `build_trades_and_afterholdings`. */
  method BuildPrevTradesAndAfterHoldings(h: seq<Holding>, w: Weights, prices: map<string, real>, tol: real)
    returns (tx: seq<Trade>, after: seq<Holding>, residuals: map<string, real>)
    ensures Outcome(tx, after, residuals) == PrevBuild(h, w, prices, tol)
  {
    var df := Enrich(h);
    var raw := BuildPrevRawTrades(EnvOf(df, w, prices, tol));
    if raw == [] {
      return [], df, map[];
    }
    tx := Consolidate(raw);
    after := AfterHoldings(df, tx, prices);
    residuals := Residuals(tx, tol);
  }

  /** Each consolidated row carries its group's sums, is a BUY exactly when
      its net shares are not negative, and is never in the illiquid sleeve. */
  lemma PrevTradeRows(e: Env, i: int)
    requires 0 <= i < |Finish(e.df, PrevRawTrades(e), e.prices, e.tol).trades|
    ensures var raw := PrevRawTrades(e);
      var r := Finish(e.df, raw, e.prices, e.tol).trades[i];
      r.shares == TSum(raw, TGroup(r.account, r.identifier, r.taxStatus, r.sleeve), Shares)
      && r.deltaDollars == TSum(raw, TGroup(r.account, r.identifier, r.taxStatus, r.sleeve), Dollars)
      && r.capGain == TSum(raw, TGroup(r.account, r.identifier, r.taxStatus, r.sleeve), Gain)
      && (r.action == Buy <==> r.shares >= 0.0)
      && r.sleeve != IlliquidSleeve && AcctTotal(e.df, r.account) > 0.0
  {
    var raw := PrevRawTrades(e);
    ConsolidatedRow(raw, i);
    ConsolidateFromInput(raw, i);
    var j :| 0 <= j < |raw| && KeyOf(raw[j]) == KeyOf(Consolidate(raw)[i]);
    PrevRawTradeFacts(e, j);
  }

  /** Without cash balancing, the residuals are exactly the traded accounts
      whose raw net flow exceeds the tolerance, with that flow. */
  lemma PrevResiduals(e: Env, a: string)
    ensures var raw := PrevRawTrades(e);
      var res := Finish(e.df, raw, e.prices, e.tol).residuals;
      (a in res <==> a in TradedAccounts(raw) && Abs(AcctNet(raw, a)) > e.tol)
      && (a in res ==> res[a] == AcctNet(raw, a))
  {
    var raw := PrevRawTrades(e);
    if raw != [] {
      ConsolidatedFlow(raw, a);
      ConsolidatedAccounts(raw);
    }
  }
}
