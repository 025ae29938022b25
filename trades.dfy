/** portfolio_trades/trades.py: `build_trades`, which turns per-account
    sleeve targets into BUY and SELL rows, tracking per (account,
    identifier) the quantity left after each sell. Its rows carry no tax
    status; the model leaves `taxStatus` empty. */
module Trades {
  import opened Text
  import opened Numeric
  import opened Options
  import opened Conventions
  import opened Portfolio
  import opened Classify
  import opened Sizing

  // ----- share rounding -----

  /** `_round_shares` as written: 0 at a non-positive price; otherwise
      within half a step of the raw count `d / px`, which for a sell is first
      floored at `-cap` (two decimals for a cash-like identifier, one
      otherwise). */
  function RoundSharesAsWritten(d: real, px: real, ident: string, forSell: bool, cap: real): (r: real)
    ensures px <= 0.0 ==> r == 0.0
    ensures px > 0.0 ==> Abs(r - (if forSell then Max(-cap, d / px) else d / px)) <= HalfStep(PlacesFor(ident))
  {
    if px <= 0.0 then 0.0
    else if forSell then RoundNear(Max(-cap, d / px), PlacesFor(ident))
    else
      RoundSharesError(d, px, ident);
      RoundShares(d, px, ident)
  }

  /** `round(x, k)`, within half a step of `x`. */
  function RoundNear(x: real, k: Places): (r: real)
    ensures Abs(r - x) <= HalfStep(k)
  {
    RoundError(x, k);
    Round(x, k)
  }

  lemma NotCashlikeX()
    ensures PlacesFor("X") == Tenths
  {
    assert Upper("X") == "X";
  }

  /** Rounding after the cap can sell more than the cap: with 1.06 shares
      held, a $500 sell at $100 caps the raw count at -1.06, which rounds
      to -1.1. */
  lemma RoundSharesOversells()
    ensures RoundSharesAsWritten(-500.0, 100.0, "X", true, 1.06) == -1.1
    ensures RoundSharesAsWritten(-500.0, 100.0, "X", true, 1.06) < -1.06
  {
    NotCashlikeX();
    assert Max(-1.06, -500.0 / 100.0) == -1.06;
    assert (-1.06 * 10.0 + 0.5).Floor == -11;
  }

  /** As written, a sell of a non-positive delta never goes past the
      holding by more than half a step (0.005 shares for a cash-like
      identifier, 0.05 otherwise); RoundSharesOversells shows the bound is
      reached. */
  lemma RoundSharesAsWrittenBound(d: real, px: real, ident: string, cap: real)
    requires px > 0.0 && cap >= 0.0 && d <= 0.0
    ensures var r := RoundSharesAsWritten(d, px, ident, true, cap);
      -cap - HalfStep(PlacesFor(ident)) <= r <= 0.0
  {
    var x := Max(-cap, d / px);
    assert d / px <= 0.0 by { DivSign(d, px); }
    RoundSign(x, PlacesFor(ident));
  }

  /** `_round_shares` with the cap applied after rounding: a buy's count is
      within rounding of the dollars; a sell's count is never below `-cap`
      and is within rounding of the dollars unless the cap binds. */
  function RoundSharesCapped(d: real, px: real, ident: string, forSell: bool, cap: real): (r: real)
    ensures px <= 0.0 ==> r == 0.0
    ensures px > 0.0 && !forSell ==> RoundedWithin(r, px, d, HalfStep(PlacesFor(ident)))
    ensures px > 0.0 && d >= 0.0 && !forSell ==> r >= 0.0
    ensures px > 0.0 && forSell && d <= 0.0 && cap >= 0.0 ==>
      -cap <= r <= 0.0 && (r == -cap || RoundedWithin(r, px, d, HalfStep(PlacesFor(ident))))
  {
    if px <= 0.0 then 0.0
    else
      RoundToWithin(d, px, PlacesFor(ident));
      var r := RoundShares(d, px, ident);
      CapAfterRounding(r, d, px, HalfStep(PlacesFor(ident)), cap);
      if forSell then Max(-cap, r) else r
  }

  /** Capping a rounded sell count at `-cap` keeps it within `hs` shares
      of the dollars unless the cap binds. */
  lemma CapAfterRounding(r: real, d: real, px: real, hs: real, cap: real)
    requires px > 0.0 && RoundedWithin(r, px, d, hs)
    requires d <= 0.0 ==> r <= 0.0
    ensures d <= 0.0 && cap >= 0.0 ==>
      -cap <= Max(-cap, r) <= 0.0 && (Max(-cap, r) == -cap || RoundedWithin(Max(-cap, r), px, d, hs))
  {
  }

  /** Where the cap does not bind, both roundings agree. */
  lemma RoundingsAgree(d: real, px: real, ident: string, forSell: bool, cap: real)
    requires px > 0.0
    requires forSell ==> d / px >= -cap && Round(d / px, PlacesFor(ident)) >= -cap
    ensures RoundSharesCapped(d, px, ident, forSell, cap) == RoundSharesAsWritten(d, px, ident, forSell, cap)
  {
  }

  // ----- the per-key tables -----

  /** The (account, identifier) pairs that have a holdings row. */
  function HeldKeys(h: seq<Holding>): set<(string, string)> {
    set k | 0 <= k < |h| :: (h[k].account, h[k].symbol)
  }

  /** `_wavg`: the quantity-weighted mean of AverageCost over an (account,
      identifier) group, and 0 when the quantities sum to 0. */
  function WAvg(h: seq<Holding>, a: string, i: string): (r: real)
    ensures var q := HSum(h, AcctIdent(a, i), Quantity);
      (q != 0.0 ==> r * q == HSum(h, AcctIdent(a, i), CostBasis)) && (q == 0.0 ==> r == 0.0)
  {
    var q := HSum(h, AcctIdent(a, i), Quantity);
    if q == 0.0 then 0.0 else HSum(h, AcctIdent(a, i), CostBasis) / q
  }

  /** Every row of the (account, identifier) group has average cost `c`. */
  predicate SameCost(h: seq<Holding>, a: string, i: string, c: real) {
    forall k :: 0 <= k < |h| && h[k].account == a && h[k].symbol == i ==> h[k].averageCost == c
  }

  /** If every row of a group has the same average cost `c`, the cost
      basis of the group is `c` times its quantity. */
  lemma {:induction false} UniformCostBasis(h: seq<Holding>, a: string, i: string, c: real)
    requires SameCost(h, a, i, c)
    ensures HSum(h, AcctIdent(a, i), CostBasis) == c * HSum(h, AcctIdent(a, i), Quantity)
  {
    if h != [] {
      var pre := h[..|h| - 1];
      assert SameCost(pre, a, i, c) by {
        forall k | 0 <= k < |pre| ensures pre[k] == h[k] { }
      }
      UniformCostBasis(pre, a, i, c);
    }
  }

  /** The weighted mean of equal costs is that cost. */
  lemma WAvgOfEqualCosts(h: seq<Holding>, a: string, i: string, c: real)
    requires SameCost(h, a, i, c)
    requires HSum(h, AcctIdent(a, i), Quantity) != 0.0
    ensures WAvg(h, a, i) == c
  {
    UniformCostBasis(h, a, i, c);
    MeanOfEqual(WAvg(h, a, i), HSum(h, AcctIdent(a, i), Quantity), HSum(h, AcctIdent(a, i), CostBasis), c);
  }

  lemma MeanOfEqual(r: real, q: real, cb: real, c: real)
    requires q != 0.0 && r * q == cb && cb == c * q
    ensures r == c
  {
    assert (r - c) * q == 0.0;
  }

  /** A pair without a row has quantity 0, hence mean cost 0. */
  lemma NotHeldIsZero(h: seq<Holding>, p: (string, string))
    requires p !in HeldKeys(h)
    ensures HeldQty(h, p.0, p.1) == 0.0 && WAvg(h, p.0, p.1) == 0.0
  {
    forall k | 0 <= k < |h| ensures !HSelects(AcctIdent(p.0, p.1), h[k]) {
      assert (h[k].account, h[k].symbol) in HeldKeys(h);
    }
    HSumNone(h, AcctIdent(p.0, p.1), Quantity);
  }

  /** For a positive quantity the mean is the engine's average cost; for a
      negative one the engine reports 0 and `_wavg` still divides. */
  lemma WAvgAgainstEngine(h: seq<Holding>, a: string, i: string)
    ensures HSum(h, AcctIdent(a, i), Quantity) > 0.0 ==> WAvg(h, a, i) == AvgCost(h, a, i)
    ensures HSum(h, AcctIdent(a, i), Quantity) < 0.0 ==> AvgCost(h, a, i) == 0.0
  {
  }

  /** The average-cost loop: `_wavg` of every held (account, identifier) pair. */
  method AverageCosts(h: seq<Holding>) returns (avgc: map<(string, string), real>)
    ensures avgc.Keys == HeldKeys(h)
    ensures forall p :: Get(avgc, p, 0.0) == WAvg(h, p.0, p.1)
  {
    avgc := map[];
    var todo := HeldKeys(h);
    while todo != {}
      invariant todo <= HeldKeys(h)
      invariant avgc.Keys == HeldKeys(h) - todo
      invariant forall p :: p in avgc ==> avgc[p] == WAvg(h, p.0, p.1)
      decreases todo
    {
      var p :| p in todo;
      avgc := avgc[p := WAvg(h, p.0, p.1)];
      todo := todo - {p};
    }
    forall p | p !in avgc ensures WAvg(h, p.0, p.1) == 0.0 {
      NotHeldIsZero(h, p);
    }
  }

  /** `groupby(["Account","_ident"])["Quantity"].sum().to_dict()`; a missing
      pair reads as the 0 it holds. */
  function QtyTable(h: seq<Holding>): (m: map<(string, string), real>)
    ensures m.Keys == HeldKeys(h)
    ensures forall p :: Get(m, p, 0.0) == HeldQty(h, p.0, p.1)
  {
    var m := map p | p in HeldKeys(h) :: HeldQty(h, p.0, p.1);
    forall p | p !in m ensures HeldQty(h, p.0, p.1) == 0.0 {
      NotHeldIsZero(h, p);
    }
    m
  }

  // ----- one sleeve -----

  /** What the account loop reads: the holdings with their sleeves,
      `canon_acct`, `canon_global`, the price per identifier and the
      fallback proxy per sleeve. */
  datatype Env = Env(h: seq<Holding>, canonAcct: Canon, canonGlobal: map<string, string>,
                     prices: map<string, real>, proxy: map<string, string>)

  /** The rows so far and the tracked quantity per (account, identifier). */
  datatype Book = Book(rows: seq<Trade>, qty: map<(string, string), real>)

  /** `owned_ident if owned_ident else canon_global.get(sleeve)`. */
  function Ident(e: Env, a: string, s: string): (r: Option<string>)
    ensures (a, s) in e.canonAcct && e.canonAcct[(a, s)] != "" ==> r == Some(e.canonAcct[(a, s)])
    ensures ((a, s) !in e.canonAcct || e.canonAcct[(a, s)] == "") ==> r == Lookup(e.canonGlobal, s)
  {
    var owned := Lookup(e.canonAcct, (a, s));
    if owned.Some? && owned.value != "" then owned else Lookup(e.canonGlobal, s)
  }

  /** The identifier to trade and its price, after the retry at the
      sleeve's fallback proxy when the identifier has no positive price. */
  function Priced(e: Env, s: string, id: string): (r: (string, real))
    ensures Get(e.prices, id, 0.0) > 0.0 ==> r == (id, Get(e.prices, id, 0.0))
    ensures Get(e.prices, id, 0.0) <= 0.0 && s in e.proxy && Get(e.prices, e.proxy[s], 0.0) > 0.0 ==>
      r == (e.proxy[s], Get(e.prices, e.proxy[s], 0.0))
    ensures r.1 > 0.0 ==> r.1 == Get(e.prices, r.0, 0.0)
    ensures r.1 <= 0.0 ==> r.0 == id
    ensures r.0 == id || (s in e.proxy && r.0 == e.proxy[s])
  {
    var px := Get(e.prices, id, 0.0);
    if px <= 0.0 && s in e.proxy then
      var alt := Get(e.prices, e.proxy[s], 0.0);
      if alt > 0.0 then (e.proxy[s], alt) else (id, alt)
    else (id, px)
  }

  /** A SELL row: Delta_$ and CapGain_$ rounded to cents. */
  function SellRow(a: string, id: string, s: string, sh: real, px: real, avgc: real): Trade {
    Trade(a, "", id, s, Sell, sh, px, avgc, Round(sh * px, Hundredths), Round(GainOn(px, avgc, sh), Hundredths))
  }

  /** A BUY row: Delta_$ rounded to cents, no gain. */
  function BuyRow(a: string, id: string, s: string, sh: real, px: real, avgc: real): Trade {
    Trade(a, "", id, s, Buy, sh, px, avgc, Round(sh * px, Hundredths), 0.0)
  }

  /** The body of the sleeve loop for sleeve `s` with delta `d`. */
  function SleeveStep(e: Env, a: string, s: string, d: real, b: Book): Book {
    var ident := Ident(e, a, s);
    if s == IlliquidSleeve || ident.None? then b
    else
      var pr := Priced(e, s, ident.value);
      if pr.1 <= 0.0 || Abs(d) < 5.0 then b
      else if d < 0.0 then SellStep(e, a, s, d, pr.1, b)
      else BuyStep(e, a, s, d, pr.0, pr.1, b)
  }

  /** A sell at price `px`: only of the account's own identifier for the
      sleeve, only with a positive tracked quantity, capped at it. */
  function SellStep(e: Env, a: string, s: string, d: real, px: real, b: Book): Book {
    var owned := Lookup(e.canonAcct, (a, s));
    if owned.None? then b
    else
      var key := (a, owned.value);
      var have := Get(b.qty, key, 0.0);
      if have <= 0.0 then b
      else
        var sh := RoundSharesCapped(d, px, owned.value, true, have);
        if sh == 0.0 then b
        else Book(b.rows + [SellRow(a, owned.value, s, sh, px, WAvg(e.h, a, owned.value))], b.qty[key := have + sh])
  }

  /** A buy of `id` at price `px`. */
  function BuyStep(e: Env, a: string, s: string, d: real, id: string, px: real, b: Book): Book {
    var sh := RoundSharesCapped(d, px, id, false, 0.0);
    if sh == 0.0 then b
    else Book(b.rows + [BuyRow(a, id, s, sh, px, WAvg(e.h, a, id))], b.qty)
  }

  /** A SELL is priced at its own identifier, at the sleeve's portfolio-wide
      identifier when its own is empty, or at the sleeve's proxy. */
  predicate SellPrice(e: Env, t: Trade) {
    t.price == Get(e.prices, t.identifier, 0.0)
    || (t.identifier == "" && t.sleeve in e.canonGlobal && t.price == Get(e.prices, e.canonGlobal[t.sleeve], 0.0))
    || (t.sleeve in e.proxy && t.price == Get(e.prices, e.proxy[t.sleeve], 0.0))
  }

  /** What every row of build_trades satisfies: it is not in the illiquid
      sleeve, it has a positive price and non-zero shares, BUY exactly when
      the shares are positive, Delta_$ is shares times price rounded to
      cents, a BUY has no gain and is priced at its own identifier, a SELL
      is of the account's own identifier for the sleeve with the gain over
      the mean cost rounded to cents. */
  predicate RowOk(e: Env, t: Trade) {
    t.sleeve != IlliquidSleeve && t.taxStatus == ""
    && t.price > 0.0 && t.shares != 0.0
    && (t.action == Buy <==> t.shares > 0.0)
    && t.deltaDollars == Round(t.shares * t.price, Hundredths)
    && t.averageCost == WAvg(e.h, t.account, t.identifier)
    && (t.action == Buy ==> t.capGain == 0.0 && t.price == Get(e.prices, t.identifier, 0.0))
    && (t.action == Sell ==>
          Lookup(e.canonAcct, (t.account, t.sleeve)) == Some(t.identifier)
          && t.capGain == Round(GainOn(t.price, t.averageCost, t.shares), Hundredths)
          && SellPrice(e, t))
  }

  /** The step left the book as it was. */
  predicate Kept(b: Book, r: Book) {
    r == b
  }

  /** The step appended a BUY row for the account and sleeve, tracking no change. */
  predicate Bought(e: Env, a: string, s: string, d: real, b: Book, r: Book) {
    |r.rows| == |b.rows| + 1 && r.rows[..|b.rows|] == b.rows && r.qty == b.qty
    && var t := r.rows[|b.rows|];
    t.action == Buy && t.account == a && t.sleeve == s && d >= 5.0 && RowOk(e, t)
  }

  /** The step appended a SELL row for the account and sleeve, of no more
      than the tracked positive quantity, and took it off that quantity. */
  predicate Sold(e: Env, a: string, s: string, d: real, b: Book, r: Book) {
    |r.rows| == |b.rows| + 1 && r.rows[..|b.rows|] == b.rows
    && var t := r.rows[|b.rows|];
    t.action == Sell && t.account == a && t.sleeve == s && d <= -5.0 && RowOk(e, t)
    && var have := Get(b.qty, (a, t.identifier), 0.0);
    have > 0.0 && -have <= t.shares < 0.0
    && r.qty == b.qty[(a, t.identifier) := have + t.shares]
  }

  lemma CentsError(x: real)
    ensures Abs(Round(x, Hundredths) - x) <= 0.005
  {
    RoundError(x, Hundredths);
  }

  /** The price of a sleeve's trading identifier, when positive, is a
      SELL's price. */
  lemma PricedSell(e: Env, a: string, s: string)
    requires (a, s) in e.canonAcct && Ident(e, a, s).Some?
    ensures var px := Priced(e, s, Ident(e, a, s).value).1;
      px > 0.0 ==> SellPriceOf(e, e.canonAcct[(a, s)], s, px)
  {
  }

  predicate SellPriceOf(e: Env, id: string, s: string, px: real) {
    px == Get(e.prices, id, 0.0)
    || (id == "" && s in e.canonGlobal && px == Get(e.prices, e.canonGlobal[s], 0.0))
    || (s in e.proxy && px == Get(e.prices, e.proxy[s], 0.0))
  }

  /** A SELL row of the account's own identifier, at a positive price, is well formed. */
  lemma SellRowOk(e: Env, a: string, s: string, id: string, sh: real, px: real)
    requires s != IlliquidSleeve && px > 0.0 && sh < 0.0 && Lookup(e.canonAcct, (a, s)) == Some(id)
    requires SellPriceOf(e, id, s, px)
    ensures RowOk(e, SellRow(a, id, s, sh, px, WAvg(e.h, a, id)))
  {
    var t := SellRow(a, id, s, sh, px, WAvg(e.h, a, id));
    assert t.shares * t.price == sh * px;
    assert t.deltaDollars == Round(t.shares * t.price, Hundredths);
    assert GainOn(t.price, t.averageCost, t.shares) == GainOn(px, WAvg(e.h, a, id), sh);
    assert t.capGain == Round(GainOn(t.price, t.averageCost, t.shares), Hundredths);
    assert t.account == a && t.sleeve == s && t.identifier == id && t.price == px;
    assert SellPrice(e, t);
    assert RowOk(e, t);
  }

  /** A sell step that changes the book appends a covered SELL. */
  lemma SellShape(e: Env, a: string, s: string, d: real, px: real, b: Book)
    requires s != IlliquidSleeve && px > 0.0 && d <= -5.0 && SellStep(e, a, s, d, px, b) != b
    requires (a, s) in e.canonAcct ==> SellPriceOf(e, e.canonAcct[(a, s)], s, px)
    ensures Sold(e, a, s, d, b, SellStep(e, a, s, d, px, b))
  {
    var r := SellStep(e, a, s, d, px, b);
    var id := e.canonAcct[(a, s)];
    var have := Get(b.qty, (a, id), 0.0);
    var sh := RoundSharesCapped(d, px, id, true, have);
    var t := SellRow(a, id, s, sh, px, WAvg(e.h, a, id));
    assert r == Book(b.rows + [t], b.qty[(a, id) := have + sh]);
    assert (b.rows + [t])[..|b.rows|] == b.rows;
    assert -have <= sh < 0.0;
    SellRowOk(e, a, s, id, sh, px);
  }

  /** A buy step that changes the book appends a BUY. */
  lemma BuyShape(e: Env, a: string, s: string, d: real, id: string, px: real, b: Book)
    requires s != IlliquidSleeve && px > 0.0 && d >= 5.0 && px == Get(e.prices, id, 0.0)
    requires BuyStep(e, a, s, d, id, px, b) != b
    ensures Bought(e, a, s, d, b, BuyStep(e, a, s, d, id, px, b))
  {
    var sh := RoundSharesCapped(d, px, id, false, 0.0);
    var t := BuyRow(a, id, s, sh, px, WAvg(e.h, a, id));
    assert (b.rows + [t])[..|b.rows|] == b.rows;
    assert t.shares == sh && t.price == px && t.deltaDollars == Round(sh * px, Hundredths);
    RowCents(t, sh, px);
    assert RowOk(e, t);
    assert BuyStep(e, a, s, d, id, px, b) == Book(b.rows + [t], b.qty);
  }

  /** A row whose dollars are its shares times its price, rounded to cents. */
  lemma RowCents(t: Trade, sh: real, px: real)
    requires t.shares == sh && t.price == px && t.deltaDollars == Round(sh * px, Hundredths)
    ensures t.deltaDollars == Round(t.shares * t.price, Hundredths)
  {
    assert t.shares * t.price == sh * px;
  }

  /** Every step keeps the book, appends one well-formed BUY, or appends one
      well-formed SELL that the tracked quantity covers. */
  lemma StepShape(e: Env, a: string, s: string, d: real, b: Book)
    ensures var r := SleeveStep(e, a, s, d, b);
      Kept(b, r) || Bought(e, a, s, d, b, r) || Sold(e, a, s, d, b, r)
  {
    if SleeveStep(e, a, s, d, b) != b {
      var pr := Priced(e, s, Ident(e, a, s).value);
      if d < 0.0 {
        if (a, s) in e.canonAcct {
          PricedSell(e, a, s);
        }
        SellShape(e, a, s, d, pr.1, b);
      } else {
        BuyShape(e, a, s, d, pr.0, pr.1, b);
      }
    }
  }

  /** The loop's skips: the illiquid sleeve, a sleeve without identifier, a
      price still not positive after the proxy retry, a delta under $5, and
      a sell without an owned identifier or with no tracked quantity. */
  lemma SkippedSleeves(e: Env, a: string, s: string, d: real, b: Book)
    ensures s == IlliquidSleeve ==> SleeveStep(e, a, s, d, b) == b
    ensures Ident(e, a, s).None? ==> SleeveStep(e, a, s, d, b) == b
    ensures Abs(d) < 5.0 ==> SleeveStep(e, a, s, d, b) == b
    ensures Ident(e, a, s).Some? && Priced(e, s, Ident(e, a, s).value).1 <= 0.0 ==> SleeveStep(e, a, s, d, b) == b
    ensures d < 0.0 && Lookup(e.canonAcct, (a, s)).None? ==> SleeveStep(e, a, s, d, b) == b
    ensures d < 0.0 && (a, s) in e.canonAcct && Get(b.qty, (a, e.canonAcct[(a, s)]), 0.0) <= 0.0 ==>
      SleeveStep(e, a, s, d, b) == b
  {
  }

  // ----- the account loop -----

  /** `delta = tgt - cur`: a sleeve's target less the account's value in it. */
  function Delta(e: Env, a: string, s: string, tv: real): real {
    tv - CurVal(e.h, a, s)
  }

  /** The sleeve loop of one account, over its target entries in order. */
  function AccountSteps(e: Env, a: string, tgt: Weights, b: Book): Book {
    if tgt == [] then b
    else
      var p := tgt[|tgt| - 1];
      SleeveStep(e, a, p.0, Delta(e, a, p.0, p.1), AccountSteps(e, a, tgt[..|tgt| - 1], b))
  }

  /** The per-account targets, in the dict's order. */
  type Targets = seq<(string, Weights)>

  /** The account loop over the targets, from the grouped quantities. */
  function AllSteps(e: Env, targets: Targets): Book {
    if targets == [] then Book([], QtyTable(e.h))
    else
      var p := targets[|targets| - 1];
      AccountSteps(e, p.0, p.1, AllSteps(e, targets[..|targets| - 1]))
  }

  /** build_trades' rows. */
  function TradeRows(e: Env, targets: Targets): seq<Trade> {
    AllSteps(e, targets).rows
  }

  // ----- what the loops keep -----

  /** Signed shares sold so far from an (account, identifier) pair. */
  function SoldAt(rows: seq<Trade>, k: (string, string)): real {
    if rows == [] then 0.0
    else
      var t := rows[|rows| - 1];
      SoldAt(rows[..|rows| - 1], k) + (if t.action == Sell && t.account == k.0 && t.identifier == k.1 then t.shares else 0.0)
  }

  /** The tracked quantity is the grouped quantity plus the signed shares
      sold, and it has not gone negative where anything was sold. */
  ghost predicate Tracked(q0: map<(string, string), real>, b: Book) {
    forall k :: Get(b.qty, k, 0.0) == Get(q0, k, 0.0) + SoldAt(b.rows, k)
      && (SoldAt(b.rows, k) == 0.0 || Get(b.qty, k, 0.0) >= 0.0)
  }

  /** Every row is well formed and belongs to a listed account and sleeve. */
  predicate RowsOk(e: Env, targets: Targets, rows: seq<Trade>) {
    forall j :: 0 <= j < |rows| ==> RowOk(e, rows[j]) && RowFrom(targets, rows[j])
  }

  /** The row's account has a target entry for the row's sleeve. */
  predicate RowFrom(targets: Targets, t: Trade) {
    exists i :: 0 <= i < |targets| && targets[i].0 == t.account && t.sleeve in WeightSleeves(targets[i].1)
  }

  lemma SoldAtSnoc(rows: seq<Trade>, t: Trade, k: (string, string))
    ensures SoldAt(rows + [t], k) == SoldAt(rows, k) + (if t.action == Sell && t.account == k.0 && t.identifier == k.1 then t.shares else 0.0)
  {
    assert (rows + [t])[..|rows|] == rows;
  }

  /** One step keeps the tracking. */
  lemma StepTracks(e: Env, a: string, s: string, d: real, b: Book, q0: map<(string, string), real>)
    requires Tracked(q0, b)
    ensures Tracked(q0, SleeveStep(e, a, s, d, b))
  {
    var r := SleeveStep(e, a, s, d, b);
    StepShape(e, a, s, d, b);
    if r != b {
      var t := r.rows[|b.rows|];
      assert r.rows == b.rows + [t];
      forall k ensures Get(r.qty, k, 0.0) == Get(q0, k, 0.0) + SoldAt(r.rows, k)
        && (SoldAt(r.rows, k) == 0.0 || Get(r.qty, k, 0.0) >= 0.0)
      {
        SoldAtSnoc(b.rows, t, k);
      }
    }
  }

  /** The sleeve loop keeps the tracking. */
  lemma {:induction false} AccountTracks(e: Env, a: string, tgt: Weights, b: Book, q0: map<(string, string), real>)
    requires Tracked(q0, b)
    ensures Tracked(q0, AccountSteps(e, a, tgt, b))
  {
    if tgt != [] {
      var p := tgt[|tgt| - 1];
      AccountTracks(e, a, tgt[..|tgt| - 1], b, q0);
      StepTracks(e, a, p.0, Delta(e, a, p.0, p.1), AccountSteps(e, a, tgt[..|tgt| - 1], b), q0);
    }
  }

  /** The sleeve loop keeps the rows so far and appends rows of the account
      and of its target sleeves, each well formed. */
  lemma {:induction false} AccountRowsOk(e: Env, a: string, tgt: Weights, b: Book)
    ensures var r := AccountSteps(e, a, tgt, b);
      |r.rows| >= |b.rows| && r.rows[..|b.rows|] == b.rows
      && forall j :: |b.rows| <= j < |r.rows| ==>
           RowOk(e, r.rows[j]) && r.rows[j].account == a && r.rows[j].sleeve in WeightSleeves(tgt)
  {
    if tgt != [] {
      var pre := tgt[..|tgt| - 1];
      var p := tgt[|tgt| - 1];
      var m := AccountSteps(e, a, pre, b);
      AccountRowsOk(e, a, pre, b);
      StepShape(e, a, p.0, Delta(e, a, p.0, p.1), m);
      var r := SleeveStep(e, a, p.0, Delta(e, a, p.0, p.1), m);
      assert forall x :: x in WeightSleeves(pre) ==> x in WeightSleeves(tgt) by {
        forall x | x in WeightSleeves(pre) ensures x in WeightSleeves(tgt) {
          var k :| 0 <= k < |pre| && WeightSleeves(pre)[k] == x;
          assert WeightSleeves(tgt)[k] == x;
        }
      }
      assert WeightSleeves(tgt)[|tgt| - 1] == p.0;
      assert r.rows[..|m.rows|] == m.rows;
      assert r.rows[..|b.rows|] == m.rows[..|b.rows|];
    }
  }

  /** The account loop's rows are all well formed and each comes from a
      listed account and one of its target sleeves. */
  lemma {:induction false} AllRowsOk(e: Env, targets: Targets)
    ensures RowsOk(e, targets, AllSteps(e, targets).rows)
  {
    if targets != [] {
      var pre := targets[..|targets| - 1];
      var p := targets[|targets| - 1];
      var m := AllSteps(e, pre);
      AllRowsOk(e, pre);
      AccountRowsOk(e, p.0, p.1, m);
      var r := AccountSteps(e, p.0, p.1, m);
      forall j | 0 <= j < |r.rows| ensures RowOk(e, r.rows[j]) && RowFrom(targets, r.rows[j]) {
        if j < |m.rows| {
          assert r.rows[j] == m.rows[j];
          var i :| 0 <= i < |pre| && pre[i].0 == m.rows[j].account && m.rows[j].sleeve in WeightSleeves(pre[i].1);
          assert targets[i] == pre[i];
        } else {
          assert targets[|targets| - 1] == p;
        }
      }
    }
  }

  /** The account loop keeps the tracking from the grouped quantities. */
  lemma {:induction false} AllTracks(e: Env, targets: Targets)
    ensures Tracked(QtyTable(e.h), AllSteps(e, targets))
  {
    if targets != [] {
      var p := targets[|targets| - 1];
      AllTracks(e, targets[..|targets| - 1]);
      AccountTracks(e, p.0, p.1, AllSteps(e, targets[..|targets| - 1]), QtyTable(e.h));
    }
  }

  /** After the loops, the tracked quantity of every (account, identifier)
      is its held quantity less the shares sold from it, and no pair sells
      more than the positive quantity it holds. */
  lemma NeverOversold(e: Env, targets: Targets, k: (string, string))
    ensures Get(AllSteps(e, targets).qty, k, 0.0) == HeldQty(e.h, k.0, k.1) + SoldAt(TradeRows(e, targets), k)
    ensures -SoldAt(TradeRows(e, targets), k) <= Max(0.0, HeldQty(e.h, k.0, k.1))
  {
    AllTracks(e, targets);
  }

  /** Delta_$ is within half a cent of shares times price, and a SELL
      realises the rounded gain over the mean cost. */
  predicate DollarsNear(t: Trade) {
    Abs(t.deltaDollars - t.shares * t.price) <= 0.005
    && (t.action == Buy ==> t.capGain == 0.0 && t.deltaDollars >= 0.0)
    && (t.action == Sell ==>
          t.deltaDollars <= 0.0 && Abs(t.capGain - (t.price - t.averageCost) * -t.shares) <= 0.005)
  }

  lemma RowOkDollars(e: Env, t: Trade)
    requires RowOk(e, t)
    ensures DollarsNear(t)
  {
    CentsFigures(t);
  }

  /** A row whose dollar and gain figures are rounded to cents from its
      shares, price and average cost lies within half a cent of the exact
      figures. */
  lemma CentsFigures(t: Trade)
    requires t.price > 0.0 && t.shares != 0.0 && (t.action == Buy <==> t.shares > 0.0)
    requires t.deltaDollars == Round(t.shares * t.price, Hundredths)
    requires t.action == Buy ==> t.capGain == 0.0
    requires t.action == Sell ==> t.capGain == Round(GainOn(t.price, t.averageCost, t.shares), Hundredths)
    ensures DollarsNear(t)
  {
    CentsNear(t.shares * t.price, t.deltaDollars);
    SharesTimesPrice(t.shares, t.price);
    if t.action == Sell {
      var g := GainOn(t.price, t.averageCost, t.shares);
      assert g == (t.price - t.averageCost) * -t.shares;
      CentsNear(g, t.capGain);
    }
  }

  /** Rounding to cents moves a value by at most half a cent and keeps its sign. */
  lemma CentsNear(x: real, d: real)
    requires d == Round(x, Hundredths)
    ensures Abs(d - x) <= 0.005
    ensures x > 0.0 ==> d >= 0.0
    ensures x < 0.0 ==> d <= 0.0
  {
    CentsError(x);
    RoundSign(x, Hundredths);
  }

  /** Shares times a positive price has the sign of the shares. */
  lemma SharesTimesPrice(sh: real, px: real)
    requires px > 0.0
    ensures sh > 0.0 ==> sh * px > 0.0
    ensures sh < 0.0 ==> sh * px < 0.0
  {
  }

  lemma RowDollars(e: Env, targets: Targets, j: int)
    requires 0 <= j < |TradeRows(e, targets)|
    ensures DollarsNear(TradeRows(e, targets)[j])
  {
    AllRowsOk(e, targets);
    RowOkDollars(e, TradeRows(e, targets)[j]);
  }

  /** Without targets there are no rows. */
  lemma NoTargetsNoRows(e: Env)
    ensures TradeRows(e, []) == []
  {
  }

  // ----- the imperative loops -----

  /** One pass of the sleeve loop, on the rows and the tracked quantities,
      reading the mean costs from `avgc`. */
  method SleeveTrade(e: Env, avgc: map<(string, string), real>, a: string, s: string, d: real,
                     rows: seq<Trade>, qty: map<(string, string), real>)
    returns (rows': seq<Trade>, qty': map<(string, string), real>)
    requires forall p :: Get(avgc, p, 0.0) == WAvg(e.h, p.0, p.1)
    ensures Book(rows', qty') == SleeveStep(e, a, s, d, Book(rows, qty))
  {
    rows', qty' := rows, qty;
    if s == IlliquidSleeve {
      return;
    }
    var owned := Lookup(e.canonAcct, (a, s));
    var ident := if owned.Some? && owned.value != "" then owned else Lookup(e.canonGlobal, s);
    if ident.None? {
      return;
    }
    var id := ident.value;
    var px := Get(e.prices, id, 0.0);
    if px <= 0.0 && s in e.proxy {
      var proxy := e.proxy[s];
      px := Get(e.prices, proxy, 0.0);
      if px > 0.0 {
        id := proxy;
      }
    }
    assert (id, px) == Priced(e, s, Ident(e, a, s).value);
    if px <= 0.0 || Abs(d) < 5.0 {
      return;
    }
    if d < 0.0 {
      rows', qty' := SellTrade(e, avgc, a, s, d, px, rows, qty);
    } else {
      var sh := RoundSharesCapped(d, px, id, false, 0.0);
      if sh == 0.0 {
        return;
      }
      var c := Get(avgc, (a, id), 0.0);
      assert c == WAvg(e.h, a, id);
      rows' := rows + [BuyRow(a, id, s, sh, px, c)];
    }
  }

  /** The SELL branch of the sleeve loop. */
  method SellTrade(e: Env, avgc: map<(string, string), real>, a: string, s: string, d: real, px: real,
                   rows: seq<Trade>, qty: map<(string, string), real>)
    returns (rows': seq<Trade>, qty': map<(string, string), real>)
    requires forall p :: Get(avgc, p, 0.0) == WAvg(e.h, p.0, p.1)
    ensures Book(rows', qty') == SellStep(e, a, s, d, px, Book(rows, qty))
  {
    rows', qty' := rows, qty;
    var owned := Lookup(e.canonAcct, (a, s));
    if owned.None? {
      return;
    }
    var have := Get(qty, (a, owned.value), 0.0);
    if have <= 0.0 {
      return;
    }
    var sh := RoundSharesCapped(d, px, owned.value, true, have);
    if sh == 0.0 {
      return;
    }
    var c := Get(avgc, (a, owned.value), 0.0);
    assert c == WAvg(e.h, a, owned.value);
    rows' := rows + [SellRow(a, owned.value, s, sh, px, c)];
    qty' := qty[(a, owned.value) := have + sh];
  }

  /** The sleeve loop of one account. */
  method AccountTrades(e: Env, avgc: map<(string, string), real>, a: string, tgt: Weights,
                       rows: seq<Trade>, qty: map<(string, string), real>)
    returns (rows': seq<Trade>, qty': map<(string, string), real>)
    requires forall p :: Get(avgc, p, 0.0) == WAvg(e.h, p.0, p.1)
    ensures Book(rows', qty') == AccountSteps(e, a, tgt, Book(rows, qty))
  {
    rows', qty' := rows, qty;
    var j := 0;
    while j < |tgt|
      invariant 0 <= j <= |tgt|
      invariant Book(rows', qty') == AccountSteps(e, a, tgt[..j], Book(rows, qty))
    {
      assert tgt[..j + 1][..j] == tgt[..j];
      var s, tv := tgt[j].0, tgt[j].1;
      var cur := CurVal(e.h, a, s);
      rows', qty' := SleeveTrade(e, avgc, a, s, tv - cur, rows', qty');
      j := j + 1;
    }
    assert tgt[..|tgt|] == tgt;
  }

  /** build_trades: the grouped quantities and the mean costs, then for each
      account in turn, for each of its target sleeves in turn, one pass of
      the sleeve loop. */
  method BuildTrades(h: seq<Holding>, targets: Targets, canonAcct: Canon,
                     canonGlobal: map<string, string>, prices: map<string, real>, proxy: map<string, string>)
    returns (rows: seq<Trade>)
    ensures rows == TradeRows(Env(h, canonAcct, canonGlobal, prices, proxy), targets)
  {
    var e := Env(h, canonAcct, canonGlobal, prices, proxy);
    var qty := QtyTable(h);
    var avgc := AverageCosts(h);
    rows := [];
    var i := 0;
    while i < |targets|
      invariant 0 <= i <= |targets|
      invariant Book(rows, qty) == AllSteps(e, targets[..i])
    {
      assert targets[..i + 1][..i] == targets[..i];
      rows, qty := AccountTrades(e, avgc, targets[i].0, targets[i].1, rows, qty);
      i := i + 1;
    }
    assert targets[..|targets|] == targets;
  }
}
