/** The per-account sizing that portfolio_trades/engine.py and
    portfolio_trades/engine_prev.py share: account totals, the investable
    pool, the tradable weights, the canonical identifier of an (account,
    sleeve), and the turning of one sleeve's dollar delta into a share trade
    (engine.py:143-195, engine_prev.py:97-153). */
module Sizing {
  import opened Text
  import opened Numeric
  import opened Options
  import opened Conventions
  import opened Portfolio
  import opened Classify

  /** Target weights by sleeve: a pandas Series indexed by sleeve name. */
  type Weights = seq<(string, real)>

  // ----- accounts -----

  /** The accounts in `groupby("Account")` order: distinct and ascending. */
  function Accounts(df: seq<Holding>): (r: seq<string>)
    ensures StrictlySorted(r)
    ensures forall a :: a in r <==> exists k :: 0 <= k < |df| && df[k].account == a
  {
    var xs := RowAccounts(df);
    SortedDistinct(xs)
  }

  function AcctTotal(df: seq<Holding>, a: string): real {
    HSum(df, InAccount(a), Value)
  }

  /** The account's value less its Automattic value, never below zero. */
  function Investable(df: seq<Holding>, a: string): (r: real)
    ensures r >= 0.0 && r >= AcctTotal(df, a) - HSum(df, AcctIlliquid(a), Value)
    ensures r == 0.0 || r == AcctTotal(df, a) - HSum(df, AcctIlliquid(a), Value)
  {
    Max(0.0, AcctTotal(df, a) - HSum(df, AcctIlliquid(a), Value))
  }

  // ----- weights -----

  /** `W.drop(index="Illiquid_Automattic")`. */
  function Tradable(w: Weights): Weights {
    if w == [] then []
    else
      var pre := Tradable(w[..|w| - 1]);
      if w[|w| - 1].0 == IlliquidSleeve then pre else pre + [w[|w| - 1]]
  }

  /** The tradable weights are the entries of the other sleeves. */
  lemma {:induction false} TradableFacts(w: Weights)
    ensures forall x :: x in Tradable(w) <==> x in w && x.0 != IlliquidSleeve
  {
    if w != [] {
      TradableFacts(w[..|w| - 1]);
      assert w == w[..|w| - 1] + [w[|w| - 1]];
    }
  }

  function WSum(w: Weights): real {
    if w == [] then 0.0 else WSum(w[..|w| - 1]) + w[|w| - 1].1
  }

  /** The weight of a sleeve, 0 when the sleeve is not in the index (`reindex(...).fillna(0.0)`). */
  function WeightOf(w: Weights, s: string): real {
    if w == [] then 0.0
    else if w[0].0 == s then w[0].1
    else WeightOf(w[1..], s)
  }

  /** The weight is 0 for a sleeve not in the index, else one of the sleeve's entries. */
  lemma {:induction false} WeightOfFound(w: Weights, s: string)
    ensures (forall k :: 0 <= k < |w| ==> w[k].0 != s) ==> WeightOf(w, s) == 0.0
    ensures (exists k :: 0 <= k < |w| && w[k].0 == s) ==> (s, WeightOf(w, s)) in w
  {
    if w != [] && w[0].0 != s {
      WeightOfFound(w[1..], s);
      assert forall k :: 1 <= k < |w| ==> w[k] == w[1..][k - 1];
    }
  }

  function WeightSleeves(w: Weights): (r: seq<string>)
    ensures |r| == |w| && forall k :: 0 <= k < |w| ==> r[k] == w[k].0
  {
    seq(|w|, k requires 0 <= k < |w| => w[k].0)
  }

  // ----- held sleeves and identifiers -----

  /** The sleeves of the account's rows (with repeats). */
  function HeldSleeves(df: seq<Holding>, a: string): (r: seq<string>)
    ensures forall s :: s in r <==> exists k :: 0 <= k < |df| && df[k].account == a && df[k].sleeve == s
  {
    if df == [] then []
    else
      var pre := HeldSleeves(df[..|df| - 1], a);
      var x := df[|df| - 1];
      assert forall k :: 0 <= k < |df| - 1 ==> df[k] == df[..|df| - 1][k];
      if x.account == a then pre + [x.sleeve] else pre
  }

  /** `sorted(set(cur_val.index).union(tgt_val.index))`: the held sleeves and
      the tradable weight sleeves, distinct and ascending. */
  function AcctSleeves(df: seq<Holding>, w: Weights, a: string): (r: seq<string>)
    ensures StrictlySorted(r)
    ensures forall s :: s in r <==> (s in HeldSleeves(df, a) || s in WeightSleeves(Tradable(w)))
  {
    var xs := HeldSleeves(df, a) + WeightSleeves(Tradable(w));
    SortedDistinct(xs)
  }

  function CurVal(df: seq<Holding>, a: string, s: string): real {
    HSum(df, AcctSleeve(a, s), Value)
  }

  /** The rows among which a canonical identifier is chosen: one account's
      rows in a sleeve, or a sleeve's rows across all accounts. */
  datatype Where = InAcctSleeve(a: string, s: string) | AcrossSleeve(s: string)

  predicate InGroup(x: Holding, g: Where) {
    match g
    case InAcctSleeve(a, s) => x.account == a && x.sleeve == s
    case AcrossSleeve(s) => x.sleeve == s
  }

  function GroupSel(g: Where, i: string): HSel {
    match g
    case InAcctSleeve(a, s) => AcctSleeveIdent(a, s, i)
    case AcrossSleeve(s) => SleeveIdent(s, i)
  }

  /** The symbols of the group's rows (with repeats). */
  function GroupSymbols(df: seq<Holding>, g: Where): (r: seq<string>)
    ensures forall i :: i in r <==> exists k :: 0 <= k < |df| && InGroup(df[k], g) && df[k].symbol == i
  {
    if df == [] then []
    else
      var pre := GroupSymbols(df[..|df| - 1], g);
      var x := df[|df| - 1];
      assert forall k :: 0 <= k < |df| - 1 ==> df[k] == df[..|df| - 1][k];
      if InGroup(x, g) then pre + [x.symbol] else pre
  }

  /** The summed Value of an identifier's rows in the group. */
  function IdentValue(df: seq<Holding>, g: Where, i: string): real {
    HSum(df, GroupSel(g, i), Value)
  }

  /** The first identifier of largest summed value in an ascending list. */
  function BestIdent(df: seq<Holding>, g: Where, cands: seq<string>): (r: string)
    requires cands != [] && StrictlySorted(cands)
    ensures r in cands
    ensures forall c :: c in cands ==> IdentValue(df, g, c) <= IdentValue(df, g, r)
    ensures forall c :: c in cands && StrLt(c, r) ==> IdentValue(df, g, c) < IdentValue(df, g, r)
  {
    if |cands| == 1 then
      StrLtIrreflexive(cands[0]);
      cands[0]
    else
      var pre := cands[..|cands| - 1];
      var x := cands[|cands| - 1];
      assert forall k :: 0 <= k < |pre| ==> pre[k] == cands[k];
      var b := BestIdent(df, g, pre);
      assert forall c :: c in cands ==> c in pre || c == x;
      if IdentValue(df, g, x) > IdentValue(df, g, b) then
        StrLtIrreflexive(x);
        x
      else
        assert StrLt(b, x);
        assert !StrLt(x, b) by {
          if StrLt(x, b) {
            StrLtTransitive(x, b, x);
            StrLtIrreflexive(x);
          }
        }
        b
  }

  /** Among the group's identifiers, the one of largest summed Value, ties
      going to the smaller identifier; None when the group has no row
      (`sort_values("Value", ascending=False)["_ident"].iloc[0]`). */
  function CanonIdent(df: seq<Holding>, g: Where): (r: Option<string>)
    ensures r.Some? <==> exists k :: 0 <= k < |df| && InGroup(df[k], g)
    ensures r.Some? ==> exists k :: 0 <= k < |df| && InGroup(df[k], g) && df[k].symbol == r.value
    ensures r.Some? ==> forall k :: 0 <= k < |df| && InGroup(df[k], g) ==>
      IdentValue(df, g, df[k].symbol) <= IdentValue(df, g, r.value)
  {
    var xs := GroupSymbols(df, g);
    var cands := SortedDistinct(xs);
    if cands == [] then
      assert forall k :: 0 <= k < |df| && InGroup(df[k], g) ==> df[k].symbol in xs;
      None
    else
      assert cands[0] in xs;
      Some(BestIdent(df, g, cands))
  }

  /** `acct_sleeve_ident` keyed by (account, sleeve). */
  type Canon = map<(string, string), string>

  /** `acct_sleeve_ident`, computed once before the account loop: every
      (account, sleeve) pair with a row, mapped to its canonical identifier. */
  function CanonTable(df: seq<Holding>): (m: Canon)
    ensures forall a, s :: (a, s) in m <==> exists k :: 0 <= k < |df| && df[k].account == a && df[k].sleeve == s
    ensures forall p :: p in m ==> CanonIdent(df, InAcctSleeve(p.0, p.1)) == Some(m[p])
  {
    var pairs := set k | 0 <= k < |df| :: (df[k].account, df[k].sleeve);
    map p | p in pairs :: CanonIdent(df, InAcctSleeve(p.0, p.1)).value
  }

  function HeldQty(df: seq<Holding>, a: string, i: string): real {
    HSum(df, AcctIdent(a, i), Quantity)
  }

  // ----- one sleeve's trade -----

  /** A sleeve trade row: BUY when the shares are positive; a SELL carries
      the gain over the account's average cost. */
  function MakeLeg(df: seq<Holding>, a: string, id: string, s: string, sh: real, px: real): (t: Trade)
    requires sh != 0.0
    ensures t.account == a && t.identifier == id && t.sleeve == s && t.shares == sh && t.price == px
    ensures t.taxStatus == FirstStatus(df, a) && t.averageCost == AvgCost(df, a, id)
    ensures PricedAtShares(t) && WellSigned(t)
    ensures t.action == Sell ==> t.capGain == GainOn(px, t.averageCost, sh)
  {
    var avgc := AvgCost(df, a, id);
    var act := if sh > 0.0 then Buy else Sell;
    Trade(a, FirstStatus(df, a), id, s, act, sh, px, avgc, sh * px,
          if act == Sell then GainOn(px, avgc, sh) else 0.0)
  }

  /** What every sleeve leg satisfies. */
  predicate SleeveLegOk(df: seq<Holding>, prices: map<string, real>, t: Trade) {
    t.sleeve != IlliquidSleeve
    && t.price == Get(prices, t.identifier, 0.0) && t.price > 0.0
    && t.taxStatus == FirstStatus(df, t.account)
    && t.averageCost == AvgCost(df, t.account, t.identifier)
    && PricedAtShares(t) && WellSigned(t)
    && (t.action == Sell ==> Abs(t.shares) <= Abs(HeldQty(df, t.account, t.identifier))
                             && t.capGain == GainOn(t.price, t.averageCost, t.shares))
  }

  /** One sleeve's trade: skipped for the illiquid sleeve, a missing
      identifier, a non-positive price, a delta under one dollar, or a share
      count that rounds or caps to zero. */
  function SizedLeg(df: seq<Holding>, prices: map<string, real>, a: string, s: string,
                    ident: Option<string>, d: real): (r: Option<Trade>)
    ensures s == IlliquidSleeve || ident.None? || Abs(d) < 1.0 ==> r.None?
    ensures ident.Some? && Get(prices, ident.value, 0.0) <= 0.0 ==> r.None?
    ensures r.Some? ==> (ident.Some? && s != IlliquidSleeve && Get(prices, ident.value, 0.0) > 0.0
      && LegFacts(df, a, s, ident.value, Get(prices, ident.value, 0.0), d, PlacesFor(ident.value), r.value))
  {
    if s == IlliquidSleeve || ident.None? then None
    else if Get(prices, ident.value, 0.0) <= 0.0 || Abs(d) < 1.0 then None
    else PricedLeg(df, a, s, ident.value, Get(prices, ident.value, 0.0), d, PlacesFor(ident.value))
  }

  /** A sleeve leg satisfies the invariants of every sleeve trade. */
  lemma SizedLegOk(df: seq<Holding>, prices: map<string, real>, a: string, s: string,
                   ident: Option<string>, d: real)
    ensures var r := SizedLeg(df, prices, a, s, ident, d);
      r.Some? ==> SleeveLegOk(df, prices, r.value) && r.value.account == a && r.value.sleeve == s
  {
    var r := SizedLeg(df, prices, a, s, ident, d);
    if r.Some? {
      LegFactsOk(df, prices, a, s, ident.value, d, PlacesFor(ident.value), r.value);
    }
  }

  lemma LegFactsOk(df: seq<Holding>, prices: map<string, real>, a: string, s: string, id: string,
                   d: real, k: Places, t: Trade)
    requires s != IlliquidSleeve && Get(prices, id, 0.0) > 0.0
    requires LegFacts(df, a, s, id, Get(prices, id, 0.0), d, k, t)
    ensures SleeveLegOk(df, prices, t) && t.account == a && t.sleeve == s
  {
  }

  /** The trade for a delta of at least a dollar at a positive price. */
  function PricedLeg(df: seq<Holding>, a: string, s: string, id: string, px: real, d: real, k: Places): (r: Option<Trade>)
    requires px > 0.0 && Abs(d) >= 1.0
    ensures r.Some? ==> LegFacts(df, a, s, id, px, d, k, r.value)
  {
    var sh := CappedShares(d, px, k, HeldQty(df, a, id));
    if sh == 0.0 then None
    else
      LegShapeHolds(df, a, s, id, px, d, k, sh);
      Some(MakeLeg(df, a, id, s, sh, px))
  }

  /** The leg's account, sleeve, identifier, price, status and average cost;
      BUY exactly for a positive delta; a SELL capped at the held shares with
      its gain over the average cost; the dollars within rounding of the
      delta (a SELL never beyond it). */
  predicate LegFacts(df: seq<Holding>, a: string, s: string, id: string, px: real, d: real, k: Places, t: Trade) {
    t.account == a && t.sleeve == s && t.identifier == id && t.price == px
    && t.taxStatus == FirstStatus(df, a) && t.averageCost == AvgCost(df, a, id)
    && PricedAtShares(t) && WellSigned(t)
    && (t.action == Buy <==> d > 0.0)
    && (t.action == Sell ==> (Abs(t.shares) <= Abs(HeldQty(df, a, id))
          && t.capGain == GainOn(px, t.averageCost, t.shares)
          && d - px * HalfStep(k) <= t.deltaDollars < 0.0))
    && (t.action == Buy ==> Abs(t.deltaDollars - d) <= px * HalfStep(k))
  }

  lemma LegShapeHolds(df: seq<Holding>, a: string, s: string, id: string, px: real, d: real, k: Places, sh: real)
    requires px > 0.0 && Abs(d) >= 1.0 && sh != 0.0
    requires SharesOk(d, px, k, HeldQty(df, a, id), sh)
    ensures LegFacts(df, a, s, id, px, d, k, MakeLeg(df, a, id, s, sh, px))
  {
  }

  /** The rounded share count of a delta, a SELL capped at the held shares
      (engine.py:158-167); 0 means no trade. */
  function CappedShares(d: real, px: real, k: Places, held: real): (sh: real)
    requires px > 0.0
    ensures SharesOk(d, px, k, held, sh)
  {
    var r := RoundTo(d, px, k);
    if d < 0.0 then SellCap(r, held, px, d, HalfStep(k))
    else
      BuyWithin(r, held, px, d, HalfStep(k));
      r
  }

  /** A BUY count within rounding of the delta; a SELL count capped at the
      held shares and never beyond the delta, up to rounding. */
  predicate SharesOk(d: real, px: real, k: Places, held: real, sh: real) {
    SharesWithin(d, px, HalfStep(k), held, sh)
  }

  /** SharesOk for a rounding bound of `hs` shares. */
  predicate SharesWithin(d: real, px: real, hs: real, held: real, sh: real) {
    (d >= 0.0 ==> sh >= 0.0 && Abs(sh * px - d) <= px * hs)
    && (d < 0.0 ==> sh <= 0.0 && Abs(sh) <= Abs(held))
    && (d < 0.0 && sh != 0.0 ==> d - px * hs <= sh * px < 0.0)
  }

  lemma BuyWithin(sh: real, held: real, px: real, d: real, hs: real)
    requires d >= 0.0 && sh >= 0.0 && Abs(sh * px - d) <= px * hs
    ensures SharesWithin(d, px, hs, held, sh)
  {
  }

  /** `-min(abs(sh), abs(held_sh))`, and what it keeps of the rounding bound. */
  function SellCap(sh0: real, held: real, px: real, d: real, hs: real): (sh: real)
    requires px > 0.0 && d < 0.0 && sh0 <= 0.0 && Abs(sh0 * px - d) <= px * hs
    ensures SharesWithin(d, px, hs, held, sh)
    ensures sh0 <= sh
  {
    var sh := -Min(Abs(sh0), Abs(held));
    SellScaled(sh, sh0, px, d, hs);
    sh
  }

  /** Selling at most the rounded count of shares, at a positive price,
      sells no more dollars than the delta asked for, up to rounding. */
  lemma SellScaled(sh: real, sh0: real, px: real, d: real, hs: real)
    requires px > 0.0 && sh0 <= sh <= 0.0 && Abs(sh0 * px - d) <= px * hs
    ensures d - px * hs <= sh * px <= 0.0
    ensures sh < 0.0 ==> sh * px < 0.0
  {
    assert sh0 * px <= sh * px;
  }
}
