/** The consolidation pass that tools/apply_consolidation_patch.py (and its
    near-copy tools/apply_consolidation_patch_v2.py) is written to splice
    into `build_trades_and_afterholdings` of portfolio_trades/engine.py.
    Both replace everything in the account loop from the per-sleeve loop
    on (the sleeve legs and the per-account cash leg) by a block that only
    records each sleeve's dollar delta, and aim two passes at the point
    just before the trade table is built: SELLs stay in the accounts whose
    delta is negative, and all positive deltas of a sleeve are pooled into
    one BUY in a preferred account (Roth/HSA first). PatchedBuild is the
    engine with the passes at that point; consolidation, the after-holdings
    and the residuals are those of the engine.

    Neither tool puts them there. The first stops at its anchor for
    `tx = pd.DataFrame(trades)`, which needs the line unindented. `_v2`
    looks for the end of the account loop as the first later line indented
    less than the loop; there is none, so it appends the passes after
    `return tx, after, residuals`, where they never run. InstalledBuild is
    the engine `_v2` leaves behind. */
module ConsolidationPass {
  import opened Text
  import opened Numeric
  import opened Options
  import opened Conventions
  import opened Portfolio
  import opened Classify
  import opened Ranking
  import opened Consolidation
  import opened Projection
  import opened Sizing
  import opened Engine

  // ----- insertion-ordered dictionaries -----

  /** A Python dict with string keys: its entries in insertion order. */
  type Dict<V> = seq<(string, V)>

  function Keys<V>(d: Dict<V>): (ks: seq<string>)
    ensures |ks| == |d| && forall i :: 0 <= i < |d| ==> ks[i] == d[i].0
  {
    seq(|d|, i requires 0 <= i < |d| => d[i].0)
  }

  predicate DistinctKeys<V>(d: Dict<V>) {
    forall i, j :: 0 <= i < j < |d| ==> d[i].0 != d[j].0
  }

  /** `d.get(k)`. */
  function Find<V>(d: Dict<V>, k: string): (r: Option<V>)
    ensures r.Some? ==> (k, r.value) in d
    ensures r.None? ==> k !in Keys(d)
    decreases |d|
  {
    if d == [] then None
    else if d[0].0 == k then Some(d[0].1)
    else
      var r := Find(d[1..], k);
      assert Keys(d) == [d[0].0] + Keys(d[1..]);
      r
  }

  /** In a dict with distinct keys, the lookup of an entry's key is its value. */
  lemma {:induction false} FindAt<V>(d: Dict<V>, i: int)
    requires DistinctKeys(d) && 0 <= i < |d|
    ensures Find(d, d[i].0) == Some(d[i].1)
    decreases |d|
  {
    if i > 0 {
      assert d[1..][i - 1] == d[i];
      FindAt(d[1..], i - 1);
    }
  }

  /** `d[k] = v`: a present key keeps its place and takes the new value, a
      new key goes at the end. */
  function Put<V>(d: Dict<V>, k: string, v: V): Dict<V>
    decreases |d|
  {
    if d == [] then [(k, v)]
    else if d[0].0 == k then [(k, v)] + d[1..]
    else [d[0]] + Put(d[1..], k, v)
  }

  /** After `d[k] = v`, `k` maps to `v` and every other key is unchanged. */
  lemma {:induction false} PutFind<V>(d: Dict<V>, k: string, v: V, j: string)
    ensures Find(Put(d, k, v), j) == if j == k then Some(v) else Find(d, j)
    decreases |d|
  {
    if d != [] && d[0].0 != k {
      assert Put(d, k, v)[1..] == Put(d[1..], k, v);
      PutFind(d[1..], k, v, j);
    }
  }

  /** The keys after `d[k] = v`: the same keys when `k` is present, else
      `k` appended. */
  lemma {:induction false} PutKeys<V>(d: Dict<V>, k: string, v: V)
    ensures Keys(Put(d, k, v)) == if k in Keys(d) then Keys(d) else Keys(d) + [k]
    decreases |d|
  {
    if d == [] {
    } else if d[0].0 == k {
      assert Keys(Put(d, k, v)) == Keys(d);
    } else {
      PutKeys(d[1..], k, v);
      assert Keys(d) == [d[0].0] + Keys(d[1..]);
      assert Keys(Put(d, k, v)) == [d[0].0] + Keys(Put(d[1..], k, v));
    }
  }

  /** Every entry after `d[k] = v` is an old entry or the new one. */
  lemma {:induction false} PutEntries<V>(d: Dict<V>, k: string, v: V, i: int)
    requires 0 <= i < |Put(d, k, v)|
    ensures Put(d, k, v)[i] in d || Put(d, k, v)[i] == (k, v)
    decreases |d|
  {
    if d != [] && d[0].0 != k && i > 0 {
      PutEntries(d[1..], k, v, i - 1);
      assert Put(d, k, v)[i] == Put(d[1..], k, v)[i - 1];
    }
  }

  /** Assignment keeps the keys distinct. */
  lemma PutDistinct<V>(d: Dict<V>, k: string, v: V)
    requires DistinctKeys(d)
    ensures DistinctKeys(Put(d, k, v))
  {
    PutKeys(d, k, v);
    var r := Put(d, k, v);
    forall i, j | 0 <= i < j < |r| ensures r[i].0 != r[j].0 {
      assert r[i].0 == Keys(r)[i] && r[j].0 == Keys(r)[j];
      if j == |d| {
        assert Keys(r)[i] == Keys(d)[i];
      }
    }
  }

  // ----- the accumulation block -----

  /** `___acct_deltas`: sleeve → account → dollar delta. */
  type Deltas = Dict<Dict<real>>

  /** `___acct_deltas[sleeve][acct]`, None when either key is missing. */
  function DeltaOf(dd: Deltas, s: string, a: string): Option<real> {
    var inner := Find(dd, s);
    if inner.None? then None else Find(inner.value, a)
  }

  /** The keys of the outer dict and of every inner dict are distinct. */
  predicate WellKeyed(dd: Deltas) {
    DistinctKeys(dd) && forall i :: 0 <= i < |dd| ==> DistinctKeys(dd[i].1)
  }

  /** One entry of the accumulation loop: the illiquid sleeve is skipped,
      else `___acct_deltas.setdefault(sleeve, {})[acct] = d`. */
  function Record(dd: Deltas, s: string, a: string, d: real): Deltas {
    if s == IlliquidSleeve then dd
    else Put(dd, s, Put(Find(dd, s).GetOr([]), a, d))
  }

  /** Recording sets exactly the (sleeve, account) entry, unless the sleeve is illiquid. */
  lemma RecordDelta(dd: Deltas, s: string, a: string, d: real, s2: string, a2: string)
    ensures DeltaOf(Record(dd, s, a, d), s2, a2) ==
      if s2 == s && a2 == a && s != IlliquidSleeve then Some(d) else DeltaOf(dd, s2, a2)
  {
    if s != IlliquidSleeve {
      var inner := Find(dd, s).GetOr([]);
      PutFind(dd, s, Put(inner, a, d), s2);
      if s2 == s {
        PutFind(inner, a, d, a2);
      }
    }
  }

  /** Recording keeps every key distinct and never adds the illiquid sleeve. */
  lemma RecordKeys(dd: Deltas, s: string, a: string, d: real)
    requires WellKeyed(dd)
    ensures WellKeyed(Record(dd, s, a, d))
    ensures IlliquidSleeve in Keys(Record(dd, s, a, d)) ==> IlliquidSleeve in Keys(dd)
  {
    if s != IlliquidSleeve {
      var inner := Find(dd, s).GetOr([]);
      if Find(dd, s).Some? {
        var m :| 0 <= m < |dd| && dd[m] == (s, inner);
      }
      PutDistinct(inner, a, d);
      var r := Put(dd, s, Put(inner, a, d));
      PutDistinct(dd, s, Put(inner, a, d));
      forall i | 0 <= i < |r| ensures DistinctKeys(r[i].1) {
        PutEntries(dd, s, Put(inner, a, d), i);
        if r[i] in dd {
          var m :| 0 <= m < |dd| && dd[m] == r[i];
        }
      }
      PutKeys(dd, s, Put(inner, a, d));
    }
  }

  /** The sleeve loop of one account over its sleeves `ss`, with the
      account's delta of each sleeve given by `delta`. */
  function RecordSleeves(delta: string -> real, a: string, dd: Deltas, ss: seq<string>): Deltas {
    if ss == [] then dd
    else
      var n := |ss| - 1;
      Record(RecordSleeves(delta, a, dd, ss[..n]), ss[n], a, delta(ss[n]))
  }

  /** After one account's sleeve loop its entries are its deltas for the
      sleeves other than the illiquid one; all other entries are unchanged. */
  lemma {:induction false} RecordSleevesDelta(delta: string -> real, a: string, dd: Deltas, ss: seq<string>, s: string, b: string)
    ensures DeltaOf(RecordSleeves(delta, a, dd, ss), s, b) ==
      if b == a && s in ss && s != IlliquidSleeve then Some(delta(s)) else DeltaOf(dd, s, b)
    decreases |ss|
  {
    if ss != [] {
      var n := |ss| - 1;
      RecordSleevesDelta(delta, a, dd, ss[..n], s, b);
      RecordDelta(RecordSleeves(delta, a, dd, ss[..n]), ss[n], a, delta(ss[n]), s, b);
      assert ss == ss[..n] + [ss[n]];
    }
  }

  lemma {:induction false} RecordSleevesKeys(delta: string -> real, a: string, dd: Deltas, ss: seq<string>)
    requires WellKeyed(dd) && IlliquidSleeve !in Keys(dd)
    ensures WellKeyed(RecordSleeves(delta, a, dd, ss)) && IlliquidSleeve !in Keys(RecordSleeves(delta, a, dd, ss))
    decreases |ss|
  {
    if ss != [] {
      var n := |ss| - 1;
      RecordSleevesKeys(delta, a, dd, ss[..n]);
      RecordKeys(RecordSleeves(delta, a, dd, ss[..n]), ss[n], a, delta(ss[n]));
    }
  }

  /** Whether the account loop reaches the sleeve deltas of an account: its
      total and the tradable weights are positive. */
  predicate Reached(e: Env, a: string) {
    AcctTotal(e.df, a) > 0.0 && Denom(e.w) > 0.0
  }

  /** The sleeve deltas of a reached account. */
  function DeltasOf(e: Env, a: string): string -> real
    requires Denom(e.w) > 0.0
  {
    s => SleeveDelta(e, a, s)
  }

  /** One turn of the account loop, on what the earlier turns recorded. */
  function RecordAccount(e: Env, pre: Deltas, a: string): Deltas {
    if Reached(e, a) then RecordSleeves(DeltasOf(e, a), a, pre, AcctSleeves(e.df, e.w, a)) else pre
  }

  lemma RecordAccountDelta(e: Env, pre: Deltas, a: string, s: string, b: string)
    ensures DeltaOf(RecordAccount(e, pre, a), s, b) ==
      if b == a && Reached(e, a) && s in AcctSleeves(e.df, e.w, a) && s != IlliquidSleeve
      then Some(SleeveDelta(e, a, s)) else DeltaOf(pre, s, b)
  {
    if Reached(e, a) {
      RecordSleevesDelta(DeltasOf(e, a), a, pre, AcctSleeves(e.df, e.w, a), s, b);
    }
  }

  lemma RecordAccountKeys(e: Env, pre: Deltas, a: string)
    requires WellKeyed(pre) && IlliquidSleeve !in Keys(pre)
    ensures WellKeyed(RecordAccount(e, pre, a)) && IlliquidSleeve !in Keys(RecordAccount(e, pre, a))
  {
    if Reached(e, a) {
      RecordSleevesKeys(DeltasOf(e, a), a, pre, AcctSleeves(e.df, e.w, a));
    }
  }

  /** The accumulation over the listed accounts, in order. */
  function RecordAccounts(e: Env, accts: seq<string>): Deltas {
    if accts == [] then []
    else RecordAccount(e, RecordAccounts(e, accts[..|accts| - 1]), accts[|accts| - 1])
  }

  /** `___acct_deltas` after the account loop. */
  function Accumulate(e: Env): Deltas {
    RecordAccounts(e, Accounts(e.df))
  }

  lemma {:induction false} RecordAccountsDelta(e: Env, accts: seq<string>, s: string, a: string)
    ensures DeltaOf(RecordAccounts(e, accts), s, a) ==
      if a in accts && Reached(e, a) && s in AcctSleeves(e.df, e.w, a) && s != IlliquidSleeve
      then Some(SleeveDelta(e, a, s)) else None
    decreases |accts|
  {
    if accts != [] {
      var pre := accts[..|accts| - 1];
      var b := accts[|accts| - 1];
      RecordAccountsDelta(e, pre, s, a);
      RecordAccountDelta(e, RecordAccounts(e, pre), b, s, a);
      assert accts == pre + [b];
    }
  }

  lemma {:induction false} RecordAccountsKeys(e: Env, accts: seq<string>)
    ensures WellKeyed(RecordAccounts(e, accts)) && IlliquidSleeve !in Keys(RecordAccounts(e, accts))
    decreases |accts|
  {
    if accts != [] {
      RecordAccountsKeys(e, accts[..|accts| - 1]);
      RecordAccountKeys(e, RecordAccounts(e, accts[..|accts| - 1]), accts[|accts| - 1]);
    }
  }

  /** The accumulation records exactly one delta per (sleeve, account): the
      account's sleeve delta, for every account the loop reaches and every
      sleeve of its delta index other than the illiquid one, and nothing else. */
  lemma AccumulateDelta(e: Env, s: string, a: string)
    ensures DeltaOf(Accumulate(e), s, a) ==
      if a in Accounts(e.df) && Reached(e, a) && s in AcctSleeves(e.df, e.w, a) && s != IlliquidSleeve
      then Some(SleeveDelta(e, a, s)) else None
  {
    RecordAccountsDelta(e, Accounts(e.df), s, a);
  }

  /** The sleeves and the accounts of each sleeve are distinct, and the
      illiquid sleeve is never a key. */
  lemma AccumulateKeys(e: Env)
    ensures WellKeyed(Accumulate(e)) && IlliquidSleeve !in Keys(Accumulate(e))
  {
    RecordAccountsKeys(e, Accounts(e.df));
  }

  // ----- PASS 1: sells where they originate -----

  /** The SELL of a delta `d` of account `a` in sleeve `s`: none for a delta
      that is not negative, a missing identifier, a price that is not
      positive or no positive held quantity; else the capped sell. */
  function SellFor(e: Env, s: string, a: string, d: real): (r: Option<Trade>)
    ensures d >= 0.0 ==> r.None?
  {
    if d >= 0.0 then None
    else
      var id := EngineIdent(e.canon, a, s);
      if id.None? then None
      else
        var px := Get(e.prices, id.value, 0.0);
        if px <= 0.0 then None
        else if HeldQty(e.df, a, id.value) <= 0.0 then None
        else CappedSell(e.df, a, s, id.value, px, d)
  }

  /** `_round_shares` of a negative delta capped at the held shares, as a
      SELL row with its gain over the average cost; none when that is 0. */
  function CappedSell(df: seq<Holding>, a: string, s: string, id: string, px: real, d: real): (r: Option<Trade>)
    requires px > 0.0 && d < 0.0
    ensures r.Some? ==> SellFacts(df, a, s, id, px, d, r.value)
  {
    var sh := CappedShares(d, px, PlacesFor(id), HeldQty(df, a, id));
    if sh == 0.0 then None
    else Some(MakeLeg(df, a, id, s, sh, px))
  }

  /** A SELL of `id` in account `a` and sleeve `s` at `px`: capped at the
      held shares, with the account's status, average cost and the gain over
      it, selling no more dollars than `-d` up to half a share step. */
  predicate SellFacts(df: seq<Holding>, a: string, s: string, id: string, px: real, d: real, t: Trade) {
    t.account == a && t.sleeve == s && t.identifier == id && t.price == px
    && t.action == Sell && t.shares < 0.0 && Abs(t.shares) <= Abs(HeldQty(df, a, id))
    && t.taxStatus == FirstStatus(df, a) && t.averageCost == AvgCost(df, a, id)
    && t.capGain == GainOn(px, t.averageCost, t.shares) && PricedAtShares(t)
    && d - px * HalfStep(PlacesFor(id)) <= t.deltaDollars
  }

  /** What every SELL of the pass satisfies: the account's identifier for the
      sleeve (canonical, else the sleeve's proxy) at its positive price, a
      positive held quantity that the shares never exceed, the account's
      first status and average cost, and the gain over that cost. */
  predicate PassSellOk(e: Env, t: Trade) {
    t.action == Sell && t.shares < 0.0
    && EngineIdent(e.canon, t.account, t.sleeve) == Some(t.identifier)
    && t.price == Get(e.prices, t.identifier, 0.0) && t.price > 0.0
    && HeldQty(e.df, t.account, t.identifier) > 0.0 && Abs(t.shares) <= HeldQty(e.df, t.account, t.identifier)
    && t.taxStatus == FirstStatus(e.df, t.account) && t.averageCost == AvgCost(e.df, t.account, t.identifier)
    && t.capGain == GainOn(t.price, t.averageCost, t.shares) && PricedAtShares(t)
  }

  /** A SELL comes only from a negative delta, is a pass SELL for its
      account and sleeve, and sells no more dollars than the delta up to
      half a share step. */
  lemma SellForOk(e: Env, s: string, a: string, d: real)
    ensures var r := SellFor(e, s, a, d);
      r.Some? ==>
        d < 0.0 && r.value.account == a && r.value.sleeve == s && PassSellOk(e, r.value)
        && SellsAtMost(r.value, d)
  {
    var r := SellFor(e, s, a, d);
    if r.Some? {
      var id := EngineIdent(e.canon, a, s).value;
      SellFactsPass(e, a, s, id, d, r.value);
    }
  }

  lemma SellFactsPass(e: Env, a: string, s: string, id: string, d: real, t: Trade)
    requires EngineIdent(e.canon, a, s) == Some(id) && Get(e.prices, id, 0.0) > 0.0 && HeldQty(e.df, a, id) > 0.0
    requires SellFacts(e.df, a, s, id, Get(e.prices, id, 0.0), d, t)
    ensures PassSellOk(e, t) && SellsAtMost(t, d)
  {
  }

  /** PASS 1 over the accounts of one sleeve, in insertion order, with the
      SELL of each delta given by `sell`. */
  function SellsOf(sell: (string, string, real) -> Option<Trade>, s: string, per: Dict<real>): seq<Trade> {
    if per == [] then []
    else
      var n := |per| - 1;
      SellsOf(sell, s, per[..n]) + OptTrade(sell(s, per[n].0, per[n].1))
  }

  /** PASS 1 over the sleeves, in insertion order. */
  function SellPass(sell: (string, string, real) -> Option<Trade>, dd: Deltas): seq<Trade> {
    if dd == [] then []
    else
      var n := |dd| - 1;
      SellPass(sell, dd[..n]) + SellsOf(sell, dd[n].0, dd[n].1)
  }

  /** The SELL rule of the pass. */
  function SellOf(e: Env): (string, string, real) -> Option<Trade> {
    (s, a, d) => SellFor(e, s, a, d)
  }

  /** Every row of a sleeve's sells is the SELL of one of its entries. */
  lemma {:induction false} SellsOfFrom(sell: (string, string, real) -> Option<Trade>, s: string, per: Dict<real>, j: int)
    returns (k: int)
    requires 0 <= j < |SellsOf(sell, s, per)|
    ensures 0 <= k < |per| && sell(s, per[k].0, per[k].1) == Some(SellsOf(sell, s, per)[j])
    decreases |per|
  {
    var n := |per| - 1;
    var pre := SellsOf(sell, s, per[..n]);
    if j < |pre| {
      k := SellsOfFrom(sell, s, per[..n], j);
      assert per[..n][k] == per[k];
    } else {
      k := n;
    }
  }

  /** Every row of PASS 1 is the SELL of one recorded entry. */
  lemma {:induction false} SellPassFrom(sell: (string, string, real) -> Option<Trade>, dd: Deltas, j: int)
    returns (m: int, k: int)
    requires 0 <= j < |SellPass(sell, dd)|
    ensures 0 <= m < |dd| && 0 <= k < |dd[m].1|
    ensures sell(dd[m].0, dd[m].1[k].0, dd[m].1[k].1) == Some(SellPass(sell, dd)[j])
    decreases |dd|
  {
    var n := |dd| - 1;
    var pre := SellPass(sell, dd[..n]);
    if j < |pre| {
      m, k := SellPassFrom(sell, dd[..n], j);
      assert dd[..n][m] == dd[m];
    } else {
      m := n;
      k := SellsOfFrom(sell, dd[n].0, dd[n].1, j - |pre|);
    }
  }

  /** Every row of PASS 1 is a pass SELL of a recorded negative delta of its
      sleeve and account, selling at most that delta up to half a share step. */
  lemma SellPassOk(e: Env, dd: Deltas, j: int)
    requires WellKeyed(dd) && 0 <= j < |SellPass(SellOf(e), dd)|
    ensures var t := SellPass(SellOf(e), dd)[j];
      PassSellOk(e, t) && DeltaOf(dd, t.sleeve, t.account).Some? && DeltaOf(dd, t.sleeve, t.account).value < 0.0
      && SellsAtMost(t, DeltaOf(dd, t.sleeve, t.account).value)
  {
    var m, k := SellPassFrom(SellOf(e), dd, j);
    var s := dd[m].0;
    var per := dd[m].1;
    SellForOk(e, s, per[k].0, per[k].1);
    FindAt(dd, m);
    FindAt(per, k);
  }

  /** PASS 1 yields only SELLs. */
  lemma SellPassSells(e: Env, dd: Deltas)
    ensures forall j :: 0 <= j < |SellPass(SellOf(e), dd)| ==> SellPass(SellOf(e), dd)[j].action == Sell
  {
    forall j | 0 <= j < |SellPass(SellOf(e), dd)| ensures SellPass(SellOf(e), dd)[j].action == Sell {
      var m, k := SellPassFrom(SellOf(e), dd, j);
      SellForOk(e, dd[m].0, dd[m].1[k].0, dd[m].1[k].1);
    }
  }

  // ----- the preferred account -----

  /** `("roth" in st) or ("hsa" in st)` for the lower-cased status `st`. */
  predicate RothOrHsaText(st: string) {
    Contains(Lower(st), "roth") || Contains(Lower(st), "hsa")
  }

  /** The Roth/HSA test of the status that `assign_tax_status` gives the
      account name. */
  predicate RothOrHsa(a: string) {
    RothOrHsaText(AssignTaxStatus(Some(a)))
  }

  lemma RothIraText()
    ensures RothOrHsaText("ROTH IRA")
  {
    assert Lower("ROTH IRA") == "roth ira";
    assert OccursAt(Lower("ROTH IRA"), "roth", 0);
  }

  lemma HsaText()
    ensures RothOrHsaText("HSA")
  {
    assert Lower("HSA") == "hsa";
    assert OccursAt(Lower("HSA"), "hsa", 0);
  }

  lemma TrustText()
    ensures !RothOrHsaText("Trust")
  {
    assert Lower("Trust") == "trust";
    NoPairNoOccurrence("trust", "roth");
    NoPairNoOccurrence("trust", "hsa");
  }

  lemma TaxableText()
    ensures !RothOrHsaText("Taxable")
  {
    assert Lower("Taxable") == "taxable";
    NoPairNoOccurrence("taxable", "roth");
    NoPairNoOccurrence("taxable", "hsa");
  }

  /** The Roth/HSA group is exactly the accounts that `assign_tax_status`
      names ROTH IRA or HSA. */
  lemma RothOrHsaStatus(a: string)
    ensures RothOrHsa(a) <==> AssignTaxStatus(Some(a)) in {"ROTH IRA", "HSA"}
  {
    RothIraText();
    HsaText();
    TrustText();
    TaxableText();
  }

  /** The sort key `(sleeve dollars, account total)` with `reverse=True`:
      negated, so that the ascending stable sort puts the largest first. */
  function PrefKey(df: seq<Holding>, s: string, a: string): (k: Key)
    ensures |k| == 2
  {
    [-CurVal(df, a, s), -AcctTotal(df, a)]
  }

  /** The Roth/HSA test as a function of the account name. */
  const RothHsaTest: string -> bool := a => RothOrHsa(a)

  /** The entry of an account of the group `roth` (by the test `isRoth`). */
  function InGroupOf(isRoth: string -> bool, roth: bool, a: string): Option<string> {
    if isRoth(a) == roth then Some(a) else None
  }

  /** The entries of the group `roth` among the listed accounts, in order. */
  function GroupOver(df: seq<Holding>, s: string, isRoth: string -> bool, roth: bool, names: seq<string>): (r: seq<Ranked<string>>)
    ensures forall i :: 0 <= i < |r| ==>
      r[i] == Ranked(PrefKey(df, s, r[i].name), r[i].name, r[i].name) && r[i].name in names && isRoth(r[i].name) == roth
    ensures forall a :: a in names && isRoth(a) == roth ==> exists i :: 0 <= i < |r| && r[i].name == a
  {
    var r := Collect(names, a => InGroupOf(isRoth, roth, a), a => PrefKey(df, s, a));
    assert forall i :: 0 <= i < |r| ==> InGroupOf(isRoth, roth, r[i].name) == Some(r[i].item);
    assert forall a :: a in names && isRoth(a) == roth ==> InGroupOf(isRoth, roth, a).Some?;
    r
  }

  /** One more account appends its entry when it is of the group. */
  lemma GroupOverSnoc(df: seq<Holding>, s: string, isRoth: string -> bool, roth: bool, names: seq<string>, a: string)
    ensures GroupOver(df, s, isRoth, roth, names + [a]) ==
      GroupOver(df, s, isRoth, roth, names) + (if isRoth(a) == roth then [Ranked(PrefKey(df, s, a), a, a)] else [])
  {
    CollectSnoc(names, a, b => InGroupOf(isRoth, roth, b), b => PrefKey(df, s, b));
  }

  /** `roth_hsa` (when `roth`) or `taxable_trust`, in account order. */
  function Group(df: seq<Holding>, s: string, isRoth: string -> bool, roth: bool): (r: seq<Ranked<string>>)
    ensures KeysOfLength(r, 2)
  {
    GroupOver(df, s, isRoth, roth, Accounts(df))
  }

  /** The group holds each of its accounts once with its key, and only those. */
  lemma GroupFacts(df: seq<Holding>, s: string, isRoth: string -> bool, roth: bool)
    ensures var r := Group(df, s, isRoth, roth);
      forall i :: 0 <= i < |r| ==>
        r[i] == Ranked(PrefKey(df, s, r[i].name), r[i].name, r[i].name) && r[i].name in Accounts(df) && isRoth(r[i].name) == roth
    ensures var r := Group(df, s, isRoth, roth);
      forall a :: a in Accounts(df) && isRoth(a) == roth ==> exists i :: 0 <= i < |r| && r[i].name == a
  {
    assert Group(df, s, isRoth, roth) == GroupOver(df, s, isRoth, roth, Accounts(df));
  }

  /** The first of the sorted Roth/HSA list, else the first of the sorted
      taxable/trust list, else None. */
  function PreferredBy(df: seq<Holding>, s: string, isRoth: string -> bool): Option<string> {
    var rh := Sort(Group(df, s, isRoth, true), 2);
    var tt := Sort(Group(df, s, isRoth, false), 2);
    if rh != [] then Some(rh[0].name)
    else if tt != [] then Some(tt[0].name)
    else None
  }

  /** `_preferred_acct_for_sleeve`; when both lists are empty there is no
      account, so the `acct_total_val` fallback yields None. */
  function Preferred(df: seq<Holding>, s: string): Option<string> {
    PreferredBy(df, s, RothHsaTest)
  }

  /** The first entry of the sorted group is an account of the group that
      no other account of the group ranks ahead of. */
  lemma GroupFirst(df: seq<Holding>, s: string, isRoth: string -> bool, roth: bool, b: string)
    requires b in Accounts(df) && isRoth(b) == roth
    ensures var r := Sort(Group(df, s, isRoth, roth), 2);
      r != [] && r[0].name in Accounts(df) && isRoth(r[0].name) == roth
      && !Before(Ranked(PrefKey(df, s, b), b, b), Ranked(PrefKey(df, s, r[0].name), r[0].name, r[0].name))
  {
    var g := Group(df, s, isRoth, roth);
    GroupFacts(df, s, isRoth, roth);
    var i :| 0 <= i < |g| && g[i].name == b;
    var k := SortedHeadAt(g, 2, i);
    var h := Sort(g, 2)[0];
    assert g[i] == Ranked(PrefKey(df, s, b), b, b);
    assert h == Ranked(PrefKey(df, s, h.name), h.name, h.name);
  }

  /** A nonempty sorted group starts with an account of the group. */
  lemma GroupHead(df: seq<Holding>, s: string, isRoth: string -> bool, roth: bool)
    requires Sort(Group(df, s, isRoth, roth), 2) != []
    ensures var r := Sort(Group(df, s, isRoth, roth), 2);
      r[0].name in Accounts(df) && isRoth(r[0].name) == roth
  {
    GroupFacts(df, s, isRoth, roth);
    SortedFrom(Group(df, s, isRoth, roth), 2, 0);
  }

  lemma PreferredByFacts(df: seq<Holding>, s: string, isRoth: string -> bool)
    ensures PreferredBy(df, s, isRoth).None? <==> Accounts(df) == []
    ensures PreferredBy(df, s, isRoth).Some? ==> PreferredBy(df, s, isRoth).value in Accounts(df)
    ensures (exists a :: a in Accounts(df) && isRoth(a)) ==>
      PreferredBy(df, s, isRoth).Some? && isRoth(PreferredBy(df, s, isRoth).value)
  {
    var rh := Sort(Group(df, s, isRoth, true), 2);
    var tt := Sort(Group(df, s, isRoth, false), 2);
    if Accounts(df) != [] {
      var a0 := Accounts(df)[0];
      GroupFirst(df, s, isRoth, isRoth(a0), a0);
    }
    if exists a :: a in Accounts(df) && isRoth(a) {
      var a :| a in Accounts(df) && isRoth(a);
      GroupFirst(df, s, isRoth, true, a);
    }
    if rh != [] {
      GroupHead(df, s, isRoth, true);
    } else if tt != [] {
      GroupHead(df, s, isRoth, false);
    }
  }

  lemma PreferredByBeats(df: seq<Holding>, s: string, isRoth: string -> bool)
    requires PreferredBy(df, s, isRoth).Some?
    ensures forall b :: b in Accounts(df) && isRoth(b) == isRoth(PreferredBy(df, s, isRoth).value) ==>
      PrefBeats(df, s, PreferredBy(df, s, isRoth).value, b)
  {
    var rh := Sort(Group(df, s, isRoth, true), 2);
    var p := PreferredBy(df, s, isRoth).value;
    var roth := rh != [];
    if roth { GroupHead(df, s, isRoth, true); } else { GroupHead(df, s, isRoth, false); }
    assert p == Sort(Group(df, s, isRoth, roth), 2)[0].name;
    forall b | b in Accounts(df) && isRoth(b) == isRoth(p) ensures PrefBeats(df, s, p, b) {
      GroupFirst(df, s, isRoth, roth, b);
      NotBeforeBeats(df, s, p, b);
    }
  }

  /** The preferred account of a sleeve: there is one exactly when there is
      an account; it is a Roth/HSA account whenever one exists; and no
      account of its group has more dollars in the sleeve, or as many and a
      larger total, or as many of both and a smaller name. */
  lemma PreferredFacts(df: seq<Holding>, s: string)
    ensures Preferred(df, s).None? <==> Accounts(df) == []
    ensures Preferred(df, s).Some? ==> Preferred(df, s).value in Accounts(df)
    ensures (exists a :: a in Accounts(df) && RothOrHsa(a)) ==> Preferred(df, s).Some? && RothOrHsa(Preferred(df, s).value)
    ensures Preferred(df, s).Some? ==> forall b :: b in Accounts(df) && RothOrHsa(b) == RothOrHsa(Preferred(df, s).value) ==>
      PrefBeats(df, s, Preferred(df, s).value, b)
  {
    PreferredByFacts(df, s, RothHsaTest);
    if Preferred(df, s).Some? {
      PreferredByBeats(df, s, RothHsaTest);
    }
  }

  /** `p` ranks at least as high as `b`: more dollars in the sleeve, or as
      many and a larger or equal total, with the smaller name on a full tie. */
  predicate PrefBeats(df: seq<Holding>, s: string, p: string, b: string) {
    CurVal(df, b, s) <= CurVal(df, p, s)
    && (CurVal(df, b, s) == CurVal(df, p, s) ==> AcctTotal(df, b) <= AcctTotal(df, p))
    && (CurVal(df, b, s) == CurVal(df, p, s) && AcctTotal(df, b) == AcctTotal(df, p) ==> b == p || StrLt(p, b))
  }

  lemma NotBeforeBeats(df: seq<Holding>, s: string, p: string, b: string)
    requires !Before(Ranked(PrefKey(df, s, b), b, b), Ranked(PrefKey(df, s, p), p, p))
    ensures PrefBeats(df, s, p, b)
  {
    var kb := PrefKey(df, s, b);
    var kp := PrefKey(df, s, p);
    KeyLtPair(kb, kp);
    if CurVal(df, b, s) == CurVal(df, p, s) && AcctTotal(df, b) == AcctTotal(df, p) {
      assert kb == kp;
      StrLtTotal(b, p);
    }
  }

  // ----- PASS 2: one pooled buy per sleeve -----

  /** `sum(v for v in per_acct.values() if v > 0)`. */
  function TotalBuy(per: Dict<real>): (r: real)
    ensures r >= 0.0
  {
    if per == [] then 0.0
    else
      var n := |per| - 1;
      TotalBuy(per[..n]) + (if per[n].1 > 0.0 then per[n].1 else 0.0)
  }

  /** The plain sum of the deltas. */
  function NetDelta(per: Dict<real>): real {
    if per == [] then 0.0 else NetDelta(per[..|per| - 1]) + per[|per| - 1].1
  }

  /** The pooled buy is not netted against the sells: it is at least the
      net delta and at least every single positive delta, and equals the net
      delta exactly when no delta is negative. */
  lemma {:induction false} TotalBuyNotNetted(per: Dict<real>)
    ensures TotalBuy(per) >= NetDelta(per)
    ensures forall i :: 0 <= i < |per| ==> TotalBuy(per) >= per[i].1
    ensures (forall i :: 0 <= i < |per| ==> per[i].1 >= 0.0) ==> TotalBuy(per) == NetDelta(per)
    ensures (exists i :: 0 <= i < |per| && per[i].1 < 0.0) ==> TotalBuy(per) > NetDelta(per)
    decreases |per|
  {
    if per != [] {
      var n := |per| - 1;
      TotalBuyNotNetted(per[..n]);
      assert forall i :: 0 <= i < n ==> per[..n][i] == per[i];
    }
  }

  /** The pooled BUY of a sleeve, given its preferred account `pref`: none
      when no delta is positive, there is no preferred account, it has no
      identifier, the price is not positive or the shares round to 0. */
  function BuyFor(e: Env, s: string, per: Dict<real>, pref: Option<string>): (r: Option<Trade>)
    ensures TotalBuy(per) <= 0.0 || pref.None? ==> r.None?
  {
    var total := TotalBuy(per);
    if total <= 0.0 then None
    else if pref.None? then None
    else PooledBuy(e, s, pref.value, total)
  }

  /** The BUY of `total` dollars in account `a`. */
  function PooledBuy(e: Env, s: string, a: string, total: real): Option<Trade>
    requires total > 0.0
  {
    var id := EngineIdent(e.canon, a, s);
    if id.None? then None
    else
      var px := Get(e.prices, id.value, 0.0);
      if px <= 0.0 then None
      else BuyRow(e.df, a, s, id.value, px, PlacesFor(id.value), total)
  }

  /** `_round_shares(total_buy, px, ident)`, with `k` the identifier's
      decimal places, as a BUY row; none when that is 0. */
  function BuyRow(df: seq<Holding>, a: string, s: string, id: string, px: real, k: Places, total: real): (r: Option<Trade>)
    requires px > 0.0 && total > 0.0
    ensures r.Some? ==> BuyFacts(df, a, s, id, px, k, total, r.value)
  {
    var sh := RoundTo(total, px, k);
    if sh == 0.0 then None
    else Some(Trade(a, FirstStatus(df, a), id, s, Buy, sh, px, AvgCost(df, a, id), sh * px, 0.0))
  }

  /** A BUY of `id` in account `a` and sleeve `s` at `px`: positive shares,
      no gain, the account's status and average cost, and dollars within
      half a share step of `total`. */
  predicate BuyFacts(df: seq<Holding>, a: string, s: string, id: string, px: real, k: Places, total: real, t: Trade) {
    t.account == a && t.sleeve == s && t.identifier == id && t.price == px
    && t.action == Buy && t.shares > 0.0 && t.capGain == 0.0
    && t.taxStatus == FirstStatus(df, a) && t.averageCost == AvgCost(df, a, id) && PricedAtShares(t)
    && Abs(t.deltaDollars - total) <= px * HalfStep(k)
  }

  /** What every BUY of the pass satisfies: the account's identifier for the
      sleeve at its positive price, positive shares, no gain. */
  predicate PassBuyOk(e: Env, t: Trade) {
    t.action == Buy && t.shares > 0.0 && t.capGain == 0.0
    && EngineIdent(e.canon, t.account, t.sleeve) == Some(t.identifier)
    && t.price == Get(e.prices, t.identifier, 0.0) && t.price > 0.0
    && t.taxStatus == FirstStatus(e.df, t.account) && t.averageCost == AvgCost(e.df, t.account, t.identifier)
    && PricedAtShares(t)
  }

  /** The row's dollars are `total` up to half a share step at its price. */
  predicate BuysAbout(t: Trade, total: real) {
    Abs(t.deltaDollars - total) <= t.price * HalfStep(PlacesFor(t.identifier))
  }

  /** The row brings in at most `-d` dollars, up to half a share step at its price. */
  predicate SellsAtMost(t: Trade, d: real) {
    -t.deltaDollars <= -d + t.price * HalfStep(PlacesFor(t.identifier))
  }

  /** A positive pooled amount buys in `a` that amount up to half a share step. */
  lemma PooledBuyOk(e: Env, s: string, a: string, total: real)
    requires total > 0.0
    ensures var r := PooledBuy(e, s, a, total);
      r.Some? ==>
        r.value.sleeve == s && r.value.account == a && PassBuyOk(e, r.value)
        && BuysAbout(r.value, total)
  {
    var r := PooledBuy(e, s, a, total);
    if r.Some? {
      BuyFactsPass(e, a, s, EngineIdent(e.canon, a, s).value, total, r.value);
    }
  }

  lemma BuyFactsPass(e: Env, a: string, s: string, id: string, total: real, t: Trade)
    requires EngineIdent(e.canon, a, s) == Some(id) && Get(e.prices, id, 0.0) > 0.0
    requires BuyFacts(e.df, a, s, id, Get(e.prices, id, 0.0), PlacesFor(id), total, t)
    ensures PassBuyOk(e, t) && BuysAbout(t, total)
  {
  }

  /** The pooled BUY goes to the preferred account and buys the sum of the
      positive deltas up to half a share step. */
  lemma BuyForOk(e: Env, s: string, per: Dict<real>, pref: Option<string>)
    ensures var r := BuyFor(e, s, per, pref);
      r.Some? ==>
        r.value.sleeve == s && pref == Some(r.value.account) && PassBuyOk(e, r.value)
        && BuysAbout(r.value, TotalBuy(per))
  {
    if TotalBuy(per) > 0.0 && pref.Some? {
      PooledBuyOk(e, s, pref.value, TotalBuy(per));
    }
  }

  /** PASS 2 over the sleeves, in insertion order, with the BUY of each
      sleeve given by `buy`. */
  function BuyPass(buy: (string, Dict<real>) -> Option<Trade>, dd: Deltas): seq<Trade> {
    if dd == [] then []
    else
      var n := |dd| - 1;
      BuyPass(buy, dd[..n]) + OptTrade(buy(dd[n].0, dd[n].1))
  }

  /** `_preferred_acct_for_sleeve` as a function of the sleeve. */
  function PrefOf(df: seq<Holding>): string -> Option<string> {
    s => Preferred(df, s)
  }

  /** The BUY rule of the pass with the preferred accounts `pref`. */
  function BuyWith(e: Env, pref: string -> Option<string>): (string, Dict<real>) -> Option<Trade> {
    (s, per) => BuyFor(e, s, per, pref(s))
  }

  /** Row `j` of PASS 2 is the BUY of the entry `m` whose predecessors
      yielded exactly `j` rows. */
  lemma {:induction false} BuyPassFrom(buy: (string, Dict<real>) -> Option<Trade>, dd: Deltas, j: int) returns (m: int)
    requires 0 <= j < |BuyPass(buy, dd)|
    ensures 0 <= m < |dd| && j == |BuyPass(buy, dd[..m])|
    ensures buy(dd[m].0, dd[m].1) == Some(BuyPass(buy, dd)[j])
    decreases |dd|
  {
    var n := |dd| - 1;
    var pre := BuyPass(buy, dd[..n]);
    if j < |pre| {
      m := BuyPassFrom(buy, dd[..n], j);
      assert dd[..n][m] == dd[m];
      assert dd[..n][..m] == dd[..m];
    } else {
      m := n;
    }
  }

  /** Every row of PASS 2 is the pooled BUY of a recorded sleeve, in that
      sleeve's preferred account, for the sum of its positive deltas. */
  lemma BuyPassOk(e: Env, pref: string -> Option<string>, dd: Deltas, j: int)
    requires WellKeyed(dd) && 0 <= j < |BuyPass(BuyWith(e, pref), dd)|
    ensures var t := BuyPass(BuyWith(e, pref), dd)[j];
      t.sleeve in Keys(dd) && pref(t.sleeve) == Some(t.account) && PassBuyOk(e, t)
      && BuysAbout(t, TotalBuy(Find(dd, t.sleeve).GetOr([])))
  {
    var m := BuyPassFrom(BuyWith(e, pref), dd, j);
    var s, per := dd[m].0, dd[m].1;
    var t := BuyPass(BuyWith(e, pref), dd)[j];
    assert BuyFor(e, s, per, pref(s)) == Some(t) by {
      assert BuyWith(e, pref)(s, per) == BuyFor(e, s, per, pref(s));
    }
    BuyForOk(e, s, per, pref(s));
    FindAt(dd, m);
    assert Find(dd, t.sleeve).GetOr([]) == per;
    assert Keys(dd)[m] == s;
  }

  /** No two rows are in the same sleeve. */
  predicate SleevesDistinct(ts: seq<Trade>) {
    forall i, j :: 0 <= i < j < |ts| ==> ts[i].sleeve != ts[j].sleeve
  }

  /** Each sleeve gets at most one BUY from PASS 2. */
  lemma BuyPassOnePerSleeve(e: Env, pref: string -> Option<string>, dd: Deltas)
    requires DistinctKeys(dd)
    ensures SleevesDistinct(BuyPass(BuyWith(e, pref), dd))
  {
    var bp := BuyPass(BuyWith(e, pref), dd);
    forall i, j | 0 <= i < j < |bp| ensures bp[i].sleeve != bp[j].sleeve {
      var mi := BuyPassFrom(BuyWith(e, pref), dd, i);
      var mj := BuyPassFrom(BuyWith(e, pref), dd, j);
      BuyForOk(e, dd[mi].0, dd[mi].1, pref(dd[mi].0));
      BuyForOk(e, dd[mj].0, dd[mj].1, pref(dd[mj].0));
    }
  }

  /** SELLs followed by BUYs in distinct sleeves have at most one BUY per sleeve. */
  lemma OneBuyPerSleeveAfterSells(sp: seq<Trade>, bp: seq<Trade>, i: int, j: int)
    requires forall k :: 0 <= k < |sp| ==> sp[k].action == Sell
    requires SleevesDistinct(bp)
    requires 0 <= i < j < |sp + bp| && (sp + bp)[i].action == Buy && (sp + bp)[j].action == Buy
    ensures (sp + bp)[i].sleeve != (sp + bp)[j].sleeve
  {
    assert i >= |sp|;
    assert (sp + bp)[i] == bp[i - |sp|] && (sp + bp)[j] == bp[j - |sp|];
  }

  // ----- the patched engine -----

  /** The trade list the passes build: PASS 1's SELLs, then PASS 2's BUYs. */
  function PassTrades(e: Env): seq<Trade> {
    var dd := Accumulate(e);
    SellPass(SellOf(e), dd) + BuyPass(BuyWith(e, PrefOf(e.df)), dd)
  }

  /** The patched `build_trades_and_afterholdings` with the pass where both
      tools aim it, before the trade table; the after-holdings are those of
      the corrected once-per-key update. */
  function PatchedBuild(h: seq<Holding>, w: Weights, prices: map<string, real>, tol: real): Outcome {
    var df := Enrich(h);
    Finish(df, PassTrades(EnvOf(df, w, prices, tol)), prices, tol)
  }

  /** Every row of the pass is a pass SELL of a negative recorded delta of
      its account and sleeve, or the pooled BUY of a sleeve in its preferred
      account; never in the illiquid sleeve. */
  lemma PassTradesOk(e: Env, j: int)
    requires 0 <= j < |PassTrades(e)|
    ensures var t := PassTrades(e)[j];
      t.sleeve != IlliquidSleeve
      && (t.action == Sell ==> PassSellOk(e, t) && DeltaOf(Accumulate(e), t.sleeve, t.account).Some?
                               && DeltaOf(Accumulate(e), t.sleeve, t.account).value < 0.0)
      && (t.action == Buy ==> PassBuyOk(e, t) && Preferred(e.df, t.sleeve) == Some(t.account))
  {
    var dd := Accumulate(e);
    AccumulateKeys(e);
    var sp := SellPass(SellOf(e), dd);
    var t := PassTrades(e)[j];
    if j < |sp| {
      SellPassOk(e, dd, j);
      assert t == sp[j];
      AccumulateDelta(e, t.sleeve, t.account);
    } else {
      BuyPassOk(e, PrefOf(e.df), dd, j - |sp|);
      assert t == BuyPass(BuyWith(e, PrefOf(e.df)), dd)[j - |sp|];
    }
  }

  /** Each sleeve gets at most one BUY from the pass. */
  lemma PassOneBuyPerSleeve(e: Env, i: int, j: int)
    requires 0 <= i < j < |PassTrades(e)|
    requires PassTrades(e)[i].action == Buy && PassTrades(e)[j].action == Buy
    ensures PassTrades(e)[i].sleeve != PassTrades(e)[j].sleeve
  {
    var dd := Accumulate(e);
    AccumulateKeys(e);
    SellPassSells(e, dd);
    BuyPassOnePerSleeve(e, PrefOf(e.df), dd);
    OneBuyPerSleeveAfterSells(SellPass(SellOf(e), dd), BuyPass(BuyWith(e, PrefOf(e.df)), dd), i, j);
  }

  /** Each consolidated row carries its group's sums and is a BUY exactly
      when its net shares are not negative; it is never in the illiquid sleeve. */
  lemma PatchedTradeRows(e: Env, i: int)
    requires 0 <= i < |Finish(e.df, PassTrades(e), e.prices, e.tol).trades|
    ensures var raw := PassTrades(e);
      var r := Finish(e.df, raw, e.prices, e.tol).trades[i];
      r.shares == TSum(raw, TGroup(r.account, r.identifier, r.taxStatus, r.sleeve), Shares)
      && r.deltaDollars == TSum(raw, TGroup(r.account, r.identifier, r.taxStatus, r.sleeve), Dollars)
      && r.capGain == TSum(raw, TGroup(r.account, r.identifier, r.taxStatus, r.sleeve), Gain)
      && (r.action == Buy <==> r.shares >= 0.0)
      && r.sleeve != IlliquidSleeve
  {
    var raw := PassTrades(e);
    ConsolidatedRow(raw, i);
    ConsolidateFromInput(raw, i);
    var j :| 0 <= j < |raw| && KeyOf(raw[j]) == KeyOf(Consolidate(raw)[i]);
    PassTradesOk(e, j);
  }

  /** With the per-account cash leg cut out, the residuals are exactly the
      traded accounts whose net flow exceeds the tolerance, with that flow. */
  lemma PatchedResiduals(e: Env, a: string)
    ensures var raw := PassTrades(e);
      var res := Finish(e.df, raw, e.prices, e.tol).residuals;
      (a in res <==> a in TradedAccounts(raw) && Abs(AcctNet(raw, a)) > e.tol)
      && (a in res ==> res[a] == AcctNet(raw, a))
  {
    var raw := PassTrades(e);
    if raw != [] {
      ConsolidatedFlow(raw, a);
      ConsolidatedAccounts(raw);
    }
  }

  // ----- the imperative code -----

  /** The accumulation block inside the account loop. */
  method AccumulateDeltas(e: Env) returns (dd: Deltas)
    ensures dd == Accumulate(e)
  {
    var accts := Accounts(e.df);
    dd := [];
    var i := 0;
    while i < |accts|
      invariant 0 <= i <= |accts|
      invariant dd == RecordAccounts(e, accts[..i])
    {
      assert accts[..i + 1][..i] == accts[..i];
      var a := accts[i];
      if AcctTotal(e.df, a) > 0.0 && Denom(e.w) > 0.0 {
        dd := RecordSleevesLoop(e, a, dd, AcctSleeves(e.df, e.w, a));
      }
      i := i + 1;
    }
    assert accts[..|accts|] == accts;
  }

  /** The accumulation block for one account's sleeves. */
  method RecordSleevesLoop(e: Env, a: string, pre: Deltas, sleeves: seq<string>) returns (dd: Deltas)
    requires Reached(e, a)
    ensures dd == RecordSleeves(DeltasOf(e, a), a, pre, sleeves)
  {
    dd := pre;
    var j := 0;
    while j < |sleeves|
      invariant 0 <= j <= |sleeves|
      invariant dd == RecordSleeves(DeltasOf(e, a), a, pre, sleeves[..j])
    {
      assert sleeves[..j + 1][..j] == sleeves[..j];
      var s := sleeves[j];
      if s != IlliquidSleeve {
        var per := Find(dd, s).GetOr([]);
        dd := Put(dd, s, Put(per, a, SleeveDelta(e, a, s)));
      }
      assert DeltasOf(e, a)(s) == SleeveDelta(e, a, s);
      j := j + 1;
    }
    assert sleeves[..|sleeves|] == sleeves;
  }

  /** The loop of `_preferred_acct_for_sleeve` that splits the accounts
      into the Roth/HSA list and the taxable/trust list, by the test `isRoth`. */
  method SplitGroups(df: seq<Holding>, s: string, isRoth: string -> bool)
    returns (rothHsa: seq<Ranked<string>>, taxableTrust: seq<Ranked<string>>)
    ensures rothHsa == Group(df, s, isRoth, true) && taxableTrust == Group(df, s, isRoth, false)
  {
    var accts := Accounts(df);
    rothHsa := [];
    taxableTrust := [];
    var i := 0;
    while i < |accts|
      invariant 0 <= i <= |accts|
      invariant rothHsa == GroupOver(df, s, isRoth, true, accts[..i])
      invariant taxableTrust == GroupOver(df, s, isRoth, false, accts[..i])
      decreases |accts| - i
    {
      var a := accts[i];
      GroupAdvance(df, s, isRoth, accts, i);
      var entry := Ranked(PrefKey(df, s, a), a, a);
      if isRoth(a) {
        rothHsa := rothHsa + [entry];
      } else {
        taxableTrust := taxableTrust + [entry];
      }
      i := i + 1;
    }
    assert accts[..|accts|] == accts;
  }

  /** One step of SplitGroups: the account's entry joins the group of its test. */
  lemma GroupAdvance(df: seq<Holding>, s: string, isRoth: string -> bool, accts: seq<string>, i: int)
    requires 0 <= i < |accts|
    ensures var a := accts[i]; var entry := Ranked(PrefKey(df, s, a), a, a);
      GroupOver(df, s, isRoth, isRoth(a), accts[..i + 1]) == GroupOver(df, s, isRoth, isRoth(a), accts[..i]) + [entry]
      && GroupOver(df, s, isRoth, !isRoth(a), accts[..i + 1]) == GroupOver(df, s, isRoth, !isRoth(a), accts[..i])
  {
    var a := accts[i];
    assert accts[..i + 1] == accts[..i] + [a];
    GroupOverSnoc(df, s, isRoth, true, accts[..i], a);
    GroupOverSnoc(df, s, isRoth, false, accts[..i], a);
    assert GroupOver(df, s, isRoth, false, accts[..i]) + [] == GroupOver(df, s, isRoth, false, accts[..i]);
    assert GroupOver(df, s, isRoth, true, accts[..i]) + [] == GroupOver(df, s, isRoth, true, accts[..i]);
  }

  /** `_preferred_acct_for_sleeve`: sorts each list and takes the first. */
  method PreferredAccount(df: seq<Holding>, s: string) returns (acct: Option<string>)
    ensures acct == Preferred(df, s)
  {
    var rothHsa, taxableTrust := SplitGroups(df, s, RothHsaTest);
    var rh := Sort(rothHsa, 2);
    var tt := Sort(taxableTrust, 2);
    if rh != [] {
      return Some(rh[0].name);
    }
    if tt != [] {
      return Some(tt[0].name);
    }
    return None;
  }

  /** PASS 1: for each sleeve and each of its accounts, the capped SELL of a
      negative delta. */
  method SellLoop(e: Env, dd: Deltas) returns (trades: seq<Trade>)
    ensures trades == SellPass(SellOf(e), dd)
  {
    trades := [];
    var m := 0;
    while m < |dd|
      invariant 0 <= m <= |dd|
      invariant trades == SellPass(SellOf(e), dd[..m])
    {
      assert dd[..m + 1][..m] == dd[..m];
      var s := dd[m].0;
      var per := dd[m].1;
      var start := trades;
      var k := 0;
      while k < |per|
        invariant 0 <= k <= |per|
        invariant trades == start + SellsOf(SellOf(e), s, per[..k])
      {
        assert per[..k + 1][..k] == per[..k];
        var t := SellFor(e, s, per[k].0, per[k].1);
        assert t == SellOf(e)(s, per[k].0, per[k].1);
        AppendOpt(start, SellsOf(SellOf(e), s, per[..k]), t);
        if t.Some? {
          trades := trades + [t.value];
        }
        k := k + 1;
      }
      assert per[..|per|] == per;
      m := m + 1;
    }
    assert dd[..|dd|] == dd;
  }

  /** `sum(v for v in per_acct.values() if v > 0)` as a loop. */
  method SumPositive(per: Dict<real>) returns (total: real)
    ensures total == TotalBuy(per)
  {
    total := 0.0;
    var k := 0;
    while k < |per|
      invariant 0 <= k <= |per|
      invariant total == TotalBuy(per[..k])
    {
      assert per[..k + 1][..k] == per[..k];
      if per[k].1 > 0.0 {
        total := total + per[k].1;
      }
      k := k + 1;
    }
    assert per[..|per|] == per;
  }

  /** The body of PASS 2 for one sleeve. */
  method BuyStep(e: Env, s: string, per: Dict<real>) returns (t: Option<Trade>)
    ensures t == BuyFor(e, s, per, Preferred(e.df, s))
  {
    var total := SumPositive(per);
    t := None;
    if total > 0.0 {
      var acct := PreferredAccount(e.df, s);
      if acct.Some? {
        t := PooledBuy(e, s, acct.value, total);
      }
    }
  }

  /** PASS 2: for each sleeve, the pooled BUY of its positive deltas in its
      preferred account, appended after `done`. */
  method BuyLoop(e: Env, dd: Deltas, done: seq<Trade>) returns (trades: seq<Trade>)
    ensures trades == done + BuyPass(BuyWith(e, PrefOf(e.df)), dd)
  {
    ghost var buy := BuyWith(e, PrefOf(e.df));
    trades := done;
    var m := 0;
    while m < |dd|
      invariant 0 <= m <= |dd|
      invariant trades == done + BuyPass(buy, dd[..m])
      decreases |dd| - m
    {
      var t := BuyStep(e, dd[m].0, dd[m].1);
      assert t == buy(dd[m].0, dd[m].1);
      BuyPassAdvance(buy, dd, m, done, trades, t);
      if t.Some? {
        trades := trades + [t.value];
      }
      m := m + 1;
    }
    assert dd[..|dd|] == dd;
  }

  /** One step of BuyLoop: the entry's BUY, if any, extends the pass. */
  lemma BuyPassAdvance(buy: (string, Dict<real>) -> Option<Trade>, dd: Deltas, m: int, done: seq<Trade>,
                       trades: seq<Trade>, t: Option<Trade>)
    requires 0 <= m < |dd| && trades == done + BuyPass(buy, dd[..m]) && t == buy(dd[m].0, dd[m].1)
    ensures t.Some? ==> trades + [t.value] == done + BuyPass(buy, dd[..m + 1])
    ensures t.None? ==> trades == done + BuyPass(buy, dd[..m + 1])
  {
    assert dd[..m + 1][..m] == dd[..m];
    AppendOpt(done, BuyPass(buy, dd[..m]), t);
  }

  /** The patched engine with the passes where both tools aim them:
      enrichment, the account loop that only records deltas, the two
      passes, then consolidation, the after-holdings and the residuals. */
  method BuildConsolidatedTradesAndAfterHoldings(h: seq<Holding>, w: Weights, prices: map<string, real>, tol: real)
    returns (tx: seq<Trade>, after: seq<Holding>, residuals: map<string, real>)
    ensures Outcome(tx, after, residuals) == PatchedBuild(h, w, prices, tol)
  {
    var df := Enrich(h);
    var e := EnvOf(df, w, prices, tol);
    var dd := AccumulateDeltas(e);
    var sells := SellLoop(e, dd);
    var raw := BuyLoop(e, dd, sells);
    tx, after, residuals := FinishTrades(df, raw, prices, tol);
  }

  // ----- the engine as tools/apply_consolidation_patch_v2.py installs it -----

  /** The installed engine: the account loop only records deltas, the passes
      sit after the final `return`, so the trade table is built from an
      empty `trades` list and the early return for no trades is taken. */
  function InstalledBuild(h: seq<Holding>, w: Weights, prices: map<string, real>, tol: real): Outcome {
    var df := Enrich(h);
    Finish(df, [], prices, tol)
  }

  /** The installed engine run as written: the accumulation loop, then the
      trade table from the list nobody appended to. It never trades: no
      trades, the enriched holdings and no residuals. */
  method BuildInstalledTradesAndAfterHoldings(h: seq<Holding>, w: Weights, prices: map<string, real>, tol: real)
    returns (tx: seq<Trade>, after: seq<Holding>, residuals: map<string, real>)
    ensures Outcome(tx, after, residuals) == InstalledBuild(h, w, prices, tol)
    ensures tx == [] && after == Enrich(h) && residuals == map[]
  {
    var df := Enrich(h);
    var e := EnvOf(df, w, prices, tol);
    var dd := AccumulateDeltas(e);
    var trades: seq<Trade> := [];
    tx, after, residuals := FinishTrades(df, trades, prices, tol);
  }

  /** Wherever the intended pass yields a trade, the intended engine reports
      trades and the installed one reports none. */
  lemma InstalledLosesPassTrades(h: seq<Holding>, w: Weights, prices: map<string, real>, tol: real)
    requires PassTrades(EnvOf(Enrich(h), w, prices, tol)) != []
    ensures PatchedBuild(h, w, prices, tol).trades != []
    ensures InstalledBuild(h, w, prices, tol).trades == []
  {
    var raw := PassTrades(EnvOf(Enrich(h), w, prices, tol));
    ConsolidateCovers(raw, 0);
  }
}
