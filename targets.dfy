/** portfolio_trades/targets.py: the canonical identifiers that
    portfolio_trades/trades.py trades in (`account_canon_ident`) and the
    per-account target value of every sleeve (`per_account_target_values`).
    The fallback proxy table is a parameter, which callers fill with the
    table of portfolio_trades/conventions.py. */
module Targets {
  import opened Text
  import opened Numeric
  import opened Options
  import opened Conventions
  import opened Portfolio
  import opened Classify
  import opened Sizing
  import GlobalPlanner
  import Trades

  // ----- account_canon_ident -----

  /** `canon_acct`: every (account, sleeve) pair with a row, mapped to the
      identifier of largest summed Value among the pair's rows. */
  function CanonAcct(h: seq<Holding>): (m: Canon)
    ensures forall a, s :: (a, s) in m <==> exists k :: 0 <= k < |h| && h[k].account == a && h[k].sleeve == s
    ensures forall p :: p in m ==> exists k :: 0 <= k < |h| && InGroup(h[k], InAcctSleeve(p.0, p.1)) && h[k].symbol == m[p]
    ensures forall p, k :: p in m && 0 <= k < |h| && InGroup(h[k], InAcctSleeve(p.0, p.1)) ==>
      IdentValue(h, InAcctSleeve(p.0, p.1), h[k].symbol) <= IdentValue(h, InAcctSleeve(p.0, p.1), m[p])
  {
    var m := CanonTable(h);
    forall p | p in m
      ensures exists k :: 0 <= k < |h| && InGroup(h[k], InAcctSleeve(p.0, p.1)) && h[k].symbol == m[p]
      ensures forall k :: 0 <= k < |h| && InGroup(h[k], InAcctSleeve(p.0, p.1)) ==>
        IdentValue(h, InAcctSleeve(p.0, p.1), h[k].symbol) <= IdentValue(h, InAcctSleeve(p.0, p.1), m[p])
    {
      assert CanonIdent(h, InAcctSleeve(p.0, p.1)) == Some(m[p]);
    }
    m
  }

  /** The sleeves that hold at least one row. */
  function HeldSleeveSet(h: seq<Holding>): set<string> {
    set k | 0 <= k < |h| :: h[k].sleeve
  }

  /** What `canon_global` holds for a sleeve: the identifier of largest
      summed Value across all accounts when the sleeve has rows, else the
      sleeve's proxy, if any. */
  function GlobalCanonFrom(h: seq<Holding>, proxy: map<string, string>, s: string): (r: Option<string>)
    ensures s in HeldSleeveSet(h) ==> r.Some? && r == CanonIdent(h, AcrossSleeve(s))
    ensures s !in HeldSleeveSet(h) ==> r == Lookup(proxy, s)
  {
    var c := CanonIdent(h, AcrossSleeve(s));
    if c.Some? then c else Lookup(proxy, s)
  }

  /** With the conventions proxy table this is the planner's `canon_global`
      of tools/patch_engine_global.py. */
  lemma GlobalCanonFromConventions(h: seq<Holding>, s: string)
    ensures GlobalCanonFrom(h, FallbackProxy, s) == GlobalPlanner.GlobalCanon(h, s)
  {
  }

  /** The sleeve loop of `canon_global`: every held sleeve, mapped to its
      identifier of largest summed Value across all accounts. */
  method SleeveCanon(h: seq<Holding>) returns (cg: map<string, string>)
    ensures cg.Keys == HeldSleeveSet(h)
    ensures forall s :: s in cg ==> Some(cg[s]) == CanonIdent(h, AcrossSleeve(s))
  {
    cg := map[];
    var todo := HeldSleeveSet(h);
    while todo != {}
      invariant todo <= HeldSleeveSet(h)
      invariant forall s :: s in cg <==> s in HeldSleeveSet(h) && s !in todo
      invariant forall s :: s in cg ==> Some(cg[s]) == CanonIdent(h, AcrossSleeve(s))
      decreases todo
    {
      var s :| s in todo;
      var c := CanonIdent(h, AcrossSleeve(s));
      assert exists k :: 0 <= k < |h| && h[k].sleeve == s;
      cg := cg[s := c.value];
      todo := todo - {s};
    }
  }

  /** `for s, proxy in table.items(): m.setdefault(s, proxy)`: the table's
      entries are added where `m` has no entry, and no entry is overridden. */
  method SetDefaults(m: map<string, string>, table: map<string, string>) returns (r: map<string, string>)
    ensures r.Keys == m.Keys + table.Keys
    ensures forall s :: s in m ==> r[s] == m[s]
    ensures forall s :: s in table && s !in m ==> r[s] == table[s]
  {
    r := m;
    var rest := table.Keys;
    while rest != {}
      invariant rest <= table.Keys
      invariant forall s :: s in r <==> s in m || (s in table && s !in rest)
      invariant forall s :: s in m ==> r[s] == m[s]
      invariant forall s :: s in table && s !in rest && s !in m ==> r[s] == table[s]
      decreases rest
    {
      var s :| s in rest;
      if s !in r {
        r := r[s := table[s]];
      }
      rest := rest - {s};
    }
  }

  /** `canon_global`: the sleeve loop, then `setdefault` from the proxy
      table, which never overrides a held sleeve. */
  method CanonGlobal(h: seq<Holding>, proxy: map<string, string>) returns (cg: map<string, string>)
    ensures cg.Keys == HeldSleeveSet(h) + proxy.Keys
    ensures forall s :: Lookup(cg, s) == GlobalCanonFrom(h, proxy, s)
  {
    var held := SleeveCanon(h);
    cg := SetDefaults(held, proxy);
    forall s ensures Lookup(cg, s) == GlobalCanonFrom(h, proxy, s) {
      if s in held {
        assert Some(cg[s]) == CanonIdent(h, AcrossSleeve(s));
      }
    }
  }

  // ----- per_account_target_values -----

  /** `illq`: the account's Value in the sleeve named Illiquid_Automattic. */
  function IlliquidValue(h: seq<Holding>, a: string): real {
    HSum(h, AcctSleeve(a, IlliquidSleeve), Value)
  }

  /** `investable_total`: the account's Value less its illiquid-sleeve Value, never below zero. */
  function InvestableBySleeve(h: seq<Holding>, a: string): (r: real)
    ensures r >= 0.0 && r >= AcctTotal(h, a) - IlliquidValue(h, a)
    ensures r == 0.0 || r == AcctTotal(h, a) - IlliquidValue(h, a)
  {
    Max(0.0, AcctTotal(h, a) - IlliquidValue(h, a))
  }

  /** Every row is in the illiquid sleeve exactly when it is an Automattic holding. */
  predicate SleeveMarksIlliquid(df: seq<Holding>) {
    forall k :: 0 <= k < |df| ==> (df[k].sleeve == IlliquidSleeve <==> IsAutomattic(df[k].symbol, df[k].name))
  }

  lemma {:induction false} IlliquidValueIsAutomattic(df: seq<Holding>, a: string)
    requires SleeveMarksIlliquid(df)
    ensures IlliquidValue(df, a) == HSum(df, AcctIlliquid(a), Value)
  {
    if df != [] {
      var pre := df[..|df| - 1];
      assert forall k :: 0 <= k < |pre| ==> pre[k] == df[k];
      IlliquidValueIsAutomattic(pre, a);
    }
  }

  /** On enriched holdings the sleeve test picks out the Automattic rows, so
      the investable total is the engines' (portfolio_trades/engine.py). */
  lemma InvestableAsEngine(h: seq<Holding>, a: string)
    ensures InvestableBySleeve(Enrich(h), a) == Investable(Enrich(h), a)
  {
    var df := Enrich(h);
    forall k | 0 <= k < |df|
      ensures df[k].sleeve == IlliquidSleeve <==> IsAutomattic(df[k].symbol, df[k].name)
    {
      EnrichIlliquid(h, k);
    }
    IlliquidValueIsAutomattic(df, a);
  }

  /** Each entry's weight divided by `d`. */
  function DivBy(w: Weights, d: real): (r: Weights)
    requires d != 0.0
    ensures |r| == |w| && forall k :: 0 <= k < |w| ==> r[k].0 == w[k].0 && r[k].1 == w[k].1 / d
  {
    seq(|w|, k requires 0 <= k < |w| => (w[k].0, w[k].1 / d))
  }

  /** `W_inv`: the tradable weights, divided by their sum when it is positive. */
  function NormWeights(w: Weights): Weights {
    var t := Tradable(w);
    if WSum(t) > 0.0 then DivBy(t, WSum(t)) else t
  }

  lemma {:induction false} WeightOfDivBy(w: Weights, d: real, s: string)
    requires d != 0.0
    ensures WeightOf(DivBy(w, d), s) == WeightOf(w, s) / d
  {
    if w != [] && w[0].0 != s {
      WeightOfDivBy(w[1..], d, s);
      assert DivBy(w, d)[1..] == DivBy(w[1..], d);
    }
  }

  lemma {:induction false} WSumDivBy(w: Weights, d: real)
    requires d != 0.0
    ensures WSum(DivBy(w, d)) == WSum(w) / d
  {
    if w != [] {
      WSumDivBy(w[..|w| - 1], d);
      assert DivBy(w, d)[..|w| - 1] == DivBy(w[..|w| - 1], d);
      DivAdd(WSum(w[..|w| - 1]), w[|w| - 1].1, d);
    }
  }

  lemma DivAdd(x: real, y: real, d: real)
    requires d != 0.0
    ensures (x + y) / d == x / d + y / d
  {
  }

  /** Once normalised, the tradable weights add up to one. */
  lemma NormalisedSumsToOne(w: Weights)
    requires WSum(Tradable(w)) > 0.0
    ensures WSum(NormWeights(w)) == 1.0
  {
    var t := Tradable(w);
    var d := WSum(t);
    assert NormWeights(w) == DivBy(t, d);
    WSumDivBy(t, d);
    DivSelf(d);
  }

  /** The target value of one sleeve: its normalised tradable weight times
      the investable total (`(W_inv * investable_total).reindex(...).fillna(0.0)`). */
  function TargetValue(h: seq<Holding>, w: Weights, a: string, s: string): real {
    Scale(WeightOf(NormWeights(w), s), InvestableBySleeve(h, a))
  }

  /** A weight applied to a dollar total. */
  function Scale(wt: real, c: real): real {
    wt * c
  }

  /** A sleeve outside the tradable weights, the illiquid one among them, has target 0. */
  lemma TargetOutsideZero(h: seq<Holding>, w: Weights, a: string, s: string)
    requires s !in WeightSleeves(Tradable(w))
    ensures TargetValue(h, w, a, s) == 0.0
  {
    var t := Tradable(w);
    WeightOfAbsent(t, s);
    if WSum(t) > 0.0 {
      var d := WSum(t);
      assert NormWeights(w) == DivBy(t, d);
      WeightOfDivBy(t, d, s);
      ZeroOver(d);
    }
    assert WeightOf(NormWeights(w), s) == 0.0;
  }

  lemma ZeroOver(d: real)
    requires d != 0.0
    ensures 0.0 / d == 0.0
  {
  }

  /** With a positive tradable total a sleeve gets its share of that total
      times the investable total. */
  lemma TargetShare(h: seq<Holding>, w: Weights, a: string, s: string)
    requires WSum(Tradable(w)) > 0.0
    ensures TargetValue(h, w, a, s) == WeightOf(Tradable(w), s) / WSum(Tradable(w)) * InvestableBySleeve(h, a)
  {
    var t := Tradable(w);
    var d := WSum(t);
    assert NormWeights(w) == DivBy(t, d);
    WeightOfDivBy(t, d, s);
  }

  /** Otherwise the weights are not normalised: a sleeve gets its raw
      weight times the investable total. */
  lemma TargetRaw(h: seq<Holding>, w: Weights, a: string, s: string)
    requires WSum(Tradable(w)) <= 0.0
    ensures TargetValue(h, w, a, s) == WeightOf(Tradable(w), s) * InvestableBySleeve(h, a)
  {
    assert NormWeights(w) == Tradable(w);
  }

  lemma WeightOfAbsent(w: Weights, s: string)
    requires s !in WeightSleeves(w)
    ensures WeightOf(w, s) == 0.0
  {
    WeightOfFound(w, s);
  }

  /** The illiquid sleeve is dropped from the weights, so its target is 0:
      the account's Automattic value is not held at its current value. */
  lemma IlliquidTargetZero(h: seq<Holding>, w: Weights, a: string)
    ensures TargetValue(h, w, a, IlliquidSleeve) == 0.0
  {
    TradableFacts(w);
    assert IlliquidSleeve !in WeightSleeves(Tradable(w));
    TargetOutsideZero(h, w, a, IlliquidSleeve);
  }

  lemma DivSelf(d: real)
    requires d != 0.0
    ensures d / d == 1.0
  {
  }

  /** Every sleeve of `ss`, valued at its weight in `n` times `c`. */
  function Valued(ss: seq<string>, n: Weights, c: real): (r: Weights)
    ensures |r| == |ss|
    ensures forall k :: 0 <= k < |ss| ==> r[k].0 == ss[k] && r[k].1 == Scale(WeightOf(n, ss[k]), c)
  {
    if ss == [] then []
    else
      var pre := ss[..|ss| - 1];
      assert forall k :: 0 <= k < |pre| ==> pre[k] == ss[k];
      Valued(pre, n, c) + [(ss[|ss| - 1], Scale(WeightOf(n, ss[|ss| - 1]), c))]
  }

  /** `tgt`: the held and the tradable sleeves of the account, ascending,
      each valued at its normalised weight times the investable total. */
  function TargetSeries(h: seq<Holding>, w: Weights, a: string): Weights {
    Valued(AcctSleeves(h, w, a), NormWeights(w), InvestableBySleeve(h, a))
  }

  /** The target index is the account's sleeve union. */
  lemma TargetSeriesIndex(h: seq<Holding>, w: Weights, a: string)
    ensures WeightSleeves(TargetSeries(h, w, a)) == AcctSleeves(h, w, a)
  {
    var ss := AcctSleeves(h, w, a);
    var r := TargetSeries(h, w, a);
    assert |WeightSleeves(r)| == |ss|;
    assert forall k :: 0 <= k < |ss| ==> WeightSleeves(r)[k] == ss[k];
  }

  /** The target index is the union of the held and the tradable sleeves,
      ascending and without repeats. */
  lemma TargetSeriesFacts(h: seq<Holding>, w: Weights, a: string)
    ensures StrictlySorted(WeightSleeves(TargetSeries(h, w, a)))
    ensures forall s :: s in WeightSleeves(TargetSeries(h, w, a)) <==> s in HeldSleeves(h, a) || s in WeightSleeves(Tradable(w))
  {
    TargetSeriesIndex(h, w, a);
  }

  /** Every entry of the target series is its sleeve's target value. */
  lemma TargetSeriesEntry(h: seq<Holding>, w: Weights, a: string, k: int)
    requires 0 <= k < |TargetSeries(h, w, a)|
    ensures TargetSeries(h, w, a)[k].1 == TargetValue(h, w, a, TargetSeries(h, w, a)[k].0)
  {
    var ss := AcctSleeves(h, w, a);
    var n := NormWeights(w);
    var inv := InvestableBySleeve(h, a);
    var r := Valued(ss, n, inv);
    assert TargetSeries(h, w, a) == r;
  }

  /** `per_account_target_values`: the account loop, in `groupby("Account")` order. */
  method PerAccountTargetValues(h: seq<Holding>, w: Weights) returns (out: Trades.Targets)
    ensures |out| == |Accounts(h)|
    ensures forall k :: 0 <= k < |out| ==> out[k].0 == Accounts(h)[k] && out[k].1 == TargetSeries(h, w, out[k].0)
  {
    var accts := Accounts(h);
    out := [];
    var i := 0;
    while i < |accts|
      invariant 0 <= i <= |accts|
      invariant |out| == i
      invariant forall k :: 0 <= k < i ==> out[k].0 == accts[k] && out[k].1 == TargetSeries(h, w, out[k].0)
    {
      var a := accts[i];
      var illq := IlliquidValue(h, a);
      var investable := Max(0.0, AcctTotal(h, a) - illq);
      assert investable == InvestableBySleeve(h, a);
      var wInv := NormWeights(w);
      var tgt := Valued(AcctSleeves(h, w, a), wInv, investable);
      assert tgt == TargetSeries(h, w, a);
      out := out + [(a, tgt)];
      i := i + 1;
    }
  }

  // ----- the targets add up to the investable total -----

  /** No sleeve appears twice in the weights' index. */
  predicate DistinctKeys(w: Weights) {
    forall i, j :: 0 <= i < j < |w| ==> w[i].0 != w[j].0
  }

  /** The weights of `ss`'s sleeves, summed. */
  function ColSum(ss: seq<string>, w: Weights): real {
    if ss == [] then 0.0 else ColSum(ss[..|ss| - 1], w) + WeightOf(w, ss[|ss| - 1])
  }

  /** `v` summed over the occurrences of `x` in `ss`. */
  function Hits(ss: seq<string>, x: string, v: real): real {
    if ss == [] then 0.0 else Hits(ss[..|ss| - 1], x, v) + (if ss[|ss| - 1] == x then v else 0.0)
  }

  lemma {:induction false} WeightOfSnoc(w: Weights, p: (string, real), s: string)
    requires forall k :: 0 <= k < |w| ==> w[k].0 != p.0
    ensures WeightOf(w + [p], s) == WeightOf(w, s) + (if s == p.0 then p.1 else 0.0)
  {
    if w != [] && w[0].0 != s {
      assert (w + [p])[1..] == w[1..] + [p];
      WeightOfSnoc(w[1..], p, s);
    }
  }

  lemma {:induction false} HitsNone(ss: seq<string>, x: string, v: real)
    requires x !in ss
    ensures Hits(ss, x, v) == 0.0
  {
    if ss != [] {
      HitsNone(ss[..|ss| - 1], x, v);
    }
  }

  lemma {:induction false} HitsOnce(ss: seq<string>, x: string, v: real)
    requires StrictlySorted(ss) && x in ss
    ensures Hits(ss, x, v) == v
  {
    var pre := ss[..|ss| - 1];
    assert forall k :: 0 <= k < |pre| ==> pre[k] == ss[k];
    if ss[|ss| - 1] == x {
      forall k | 0 <= k < |pre| ensures pre[k] != x {
        StrictlySortedDistinct(ss, k, |ss| - 1);
      }
      HitsNone(pre, x, v);
    } else {
      assert ss == pre + [ss[|ss| - 1]];
      HitsOnce(pre, x, v);
    }
  }

  lemma {:induction false} ColSumSnoc(ss: seq<string>, w: Weights, p: (string, real))
    requires forall k :: 0 <= k < |w| ==> w[k].0 != p.0
    ensures ColSum(ss, w + [p]) == ColSum(ss, w) + Hits(ss, p.0, p.1)
  {
    if ss != [] {
      ColSumSnoc(ss[..|ss| - 1], w, p);
      WeightOfSnoc(w, p, ss[|ss| - 1]);
    }
  }

  /** Over a list of distinct sleeves that covers the index, the weights sum
      to the weights' total. */
  lemma {:induction false} ColSumCovers(ss: seq<string>, w: Weights)
    requires StrictlySorted(ss) && DistinctKeys(w)
    requires forall k :: 0 <= k < |w| ==> w[k].0 in ss
    ensures ColSum(ss, w) == WSum(w)
  {
    if w == [] {
      ColSumNone(ss);
    } else {
      var pre := w[..|w| - 1];
      var p := w[|w| - 1];
      assert forall k :: 0 <= k < |pre| ==> pre[k] == w[k];
      ColSumCovers(ss, pre);
      assert w == pre + [p];
      ColSumSnoc(ss, pre, p);
      HitsOnce(ss, p.0, p.1);
    }
  }

  lemma {:induction false} ColSumNone(ss: seq<string>)
    ensures ColSum(ss, []) == 0.0
  {
    if ss != [] {
      ColSumNone(ss[..|ss| - 1]);
    }
  }

  lemma {:induction false} WSumValued(ss: seq<string>, n: Weights, c: real)
    ensures WSum(Valued(ss, n, c)) == ColSum(ss, n) * c
  {
    if ss != [] {
      WSumValued(ss[..|ss| - 1], n, c);
    }
  }

  lemma {:induction false} TradableDistinct(w: Weights)
    requires DistinctKeys(w)
    ensures DistinctKeys(Tradable(w))
  {
    if w != [] {
      var pre := w[..|w| - 1];
      assert forall k :: 0 <= k < |pre| ==> pre[k] == w[k];
      TradableDistinct(pre);
      TradableFacts(pre);
      var t := Tradable(pre);
      forall k | 0 <= k < |t| ensures t[k].0 != w[|w| - 1].0 {
        assert t[k] in pre;
      }
    }
  }

  /** With a sleeve index free of repeats and a positive tradable total, an
      account's targets add up to its investable total. */
  lemma TargetsAddUp(h: seq<Holding>, w: Weights, a: string)
    requires DistinctKeys(w) && WSum(Tradable(w)) > 0.0
    ensures WSum(TargetSeries(h, w, a)) == InvestableBySleeve(h, a)
  {
    var t := Tradable(w);
    var n := NormWeights(w);
    var ss := AcctSleeves(h, w, a);
    var inv := InvestableBySleeve(h, a);
    NormalCovers(w, ss);
    assert ColSum(ss, n) == 1.0 by {
      ColSumCovers(ss, n);
      NormalisedSumsToOne(w);
    }
    WSumValued(ss, n, inv);
    assert TargetSeries(h, w, a) == Valued(ss, n, inv);
  }

  /** The normalised weights keep the tradable index, so they are free of
      repeats and every sleeve of theirs is in the account's target index. */
  lemma NormalCovers(w: Weights, ss: seq<string>)
    requires DistinctKeys(w) && WSum(Tradable(w)) > 0.0
    requires forall s :: s in WeightSleeves(Tradable(w)) ==> s in ss
    ensures DistinctKeys(NormWeights(w))
    ensures forall k :: 0 <= k < |NormWeights(w)| ==> NormWeights(w)[k].0 in ss
  {
    var t := Tradable(w);
    TradableDistinct(w);
    assert NormWeights(w) == DivBy(t, WSum(t));
    forall k | 0 <= k < |t| ensures t[k].0 in ss {
      assert t[k].0 == WeightSleeves(t)[k];
    }
  }

  lemma {:induction false} WeightOfZero(w: Weights, s: string)
    requires forall k :: 0 <= k < |w| ==> w[k].1 == 0.0
    ensures WeightOf(w, s) == 0.0
  {
    if w != [] && w[0].0 != s {
      assert forall k :: 0 <= k < |w| - 1 ==> w[1..][k] == w[k + 1];
      WeightOfZero(w[1..], s);
    }
  }

  /** When every weight is 0 every target is 0. */
  lemma ZeroWeightsZeroTargets(h: seq<Holding>, w: Weights, a: string, s: string)
    requires forall k :: 0 <= k < |w| ==> w[k].1 == 0.0
    ensures TargetValue(h, w, a, s) == 0.0
  {
    var t := Tradable(w);
    TradableZero(w);
    var n := NormWeights(w);
    forall k | 0 <= k < |n| ensures n[k].1 == 0.0 {
      if WSum(t) > 0.0 {
        assert n == DivBy(t, WSum(t));
        assert n[k].1 == 0.0 / WSum(t);
      }
    }
    WeightOfZero(n, s);
  }

  lemma {:induction false} TradableZero(w: Weights)
    requires forall k :: 0 <= k < |w| ==> w[k].1 == 0.0
    ensures forall k :: 0 <= k < |Tradable(w)| ==> Tradable(w)[k].1 == 0.0
  {
    if w != [] {
      var pre := w[..|w| - 1];
      assert forall k :: 0 <= k < |pre| ==> pre[k] == w[k];
      TradableZero(pre);
    }
  }
}
