/** The trade summaries of portfolio_trades/summarize.py and of the report
    step of portfolio_trades/cli.py (lines 101-131): per (Account,
    TaxStatus) and per TaxStatus, the total BUY dollars, the total SELL
    dollars (as a positive amount), the net capital gain and an estimated
    tax of rate × net gain. The two differ only in the rate: summarize.py
    looks the status up in the conventions table with a 0.15 default, cli.py
    uses its keyword search. Groups come in pandas' group-key order. */
module Summaries {
  import opened Text
  import opened Options
  import opened Portfolio
  import Conventions
  import TaxRates

  /** Total_Buys, Total_Sells, Net_CapGain and Est_Tax of one group. */
  datatype Totals = Totals(buys: real, sells: real, netGain: real, estTax: real)

  /** The totals of the trades that `sel` selects, taxed at `rate`. */
  function TotalsOver(tx: seq<Trade>, sel: TSel, rate: real): (r: Totals)
    ensures r.buys - r.sells == TSum(tx, sel, Dollars)
    ensures r.buys == TSum(tx, sel, BuyDollars) && r.sells == TSum(tx, sel, SellDollars)
    ensures r.netGain == TSum(tx, sel, Gain) && r.estTax == rate * r.netGain
  {
    BuysLessSells(tx, sel);
    Totals(TSum(tx, sel, BuyDollars), TSum(tx, sel, SellDollars), TSum(tx, sel, Gain), rate * TSum(tx, sel, Gain))
  }

  /** Buy_$ − Sell_$ is Delta_$ row by row, so the bought less the sold
      dollars of a group are its net dollars. */
  lemma {:induction false} BuysLessSells(tx: seq<Trade>, sel: TSel)
    ensures TSum(tx, sel, BuyDollars) - TSum(tx, sel, SellDollars) == TSum(tx, sel, Dollars)
  {
    if tx != [] {
      BuysLessSells(tx[..|tx| - 1], sel);
    }
  }

  // ----- group keys -----

  function TradeStatuses(tx: seq<Trade>): (r: seq<string>)
    ensures |r| == |tx| && forall k :: 0 <= k < |tx| ==> r[k] == tx[k].taxStatus
  {
    seq(|tx|, k requires 0 <= k < |tx| => tx[k].taxStatus)
  }

  function TradeAccountNames(tx: seq<Trade>): (r: seq<string>)
    ensures |r| == |tx| && forall k :: 0 <= k < |tx| ==> r[k] == tx[k].account
  {
    seq(|tx|, k requires 0 <= k < |tx| => tx[k].account)
  }

  /** The statuses of one account's trades (with repeats). */
  function AcctStatuses(tx: seq<Trade>, a: string): (r: seq<string>)
    ensures forall st :: st in r <==> exists j :: 0 <= j < |tx| && tx[j].account == a && tx[j].taxStatus == st
  {
    if tx == [] then []
    else
      var pre := AcctStatuses(tx[..|tx| - 1], a);
      var t := tx[|tx| - 1];
      assert forall j :: 0 <= j < |tx| - 1 ==> tx[j] == tx[..|tx| - 1][j];
      if t.account == a then pre + [t.taxStatus] else pre
  }

  /** `groupby("TaxStatus")` keys: the distinct statuses, ascending. */
  function StatusKeys(tx: seq<Trade>): (r: seq<string>)
    ensures StrictlySorted(r)
    ensures forall st :: st in r <==> exists j :: 0 <= j < |tx| && tx[j].taxStatus == st
  {
    var xs := TradeStatuses(tx);
    assert forall st :: st in xs <==> exists j :: 0 <= j < |tx| && tx[j].taxStatus == st by {
      forall st | st in xs ensures exists j :: 0 <= j < |tx| && tx[j].taxStatus == st {
        var j :| 0 <= j < |xs| && xs[j] == st;
        assert tx[j].taxStatus == st;
      }
    }
    SortedDistinct(xs)
  }

  /** Pairs ordered by account, then status. */
  predicate PairLt(p: (string, string), q: (string, string)) {
    StrLt(p.0, q.0) || (p.0 == q.0 && StrLt(p.1, q.1))
  }

  predicate PairsSorted(ps: seq<(string, string)>) {
    forall i, j :: 0 <= i < j < |ps| ==> PairLt(ps[i], ps[j])
  }

  predicate DistinctKeys<K(==)>(ks: seq<K>) {
    forall i, j :: 0 <= i < j < |ks| ==> ks[i] != ks[j]
  }

  /** The (account, status) pairs of one account, statuses ascending. */
  function AcctBlock(a: string, sts: seq<string>): (r: seq<(string, string)>)
    ensures |r| == |sts| && forall k :: 0 <= k < |sts| ==> r[k] == (a, sts[k])
  {
    seq(|sts|, k requires 0 <= k < |sts| => (a, sts[k]))
  }

  /** The pairs of the listed accounts, account by account. */
  function PairsFor(tx: seq<Trade>, accts: seq<string>): (r: seq<(string, string)>)
    requires StrictlySorted(accts)
    ensures forall k :: 0 <= k < |r| ==> r[k].0 in accts
    ensures forall p :: p in r <==> p.0 in accts && exists j :: 0 <= j < |tx| && tx[j].account == p.0 && tx[j].taxStatus == p.1
    ensures PairsSorted(r) && DistinctKeys(r)
  {
    if accts == [] then []
    else
      var pre := accts[..|accts| - 1];
      var a := accts[|accts| - 1];
      var head := PairsFor(tx, pre);
      var sts := SortedDistinct(AcctStatuses(tx, a));
      var block := AcctBlock(a, sts);
      assert forall b :: b in accts <==> b in pre || b == a by {
        assert accts == pre + [a];
      }
      forall k | 0 <= k < |head| ensures StrLt(head[k].0, a) {
        var m :| 0 <= m < |pre| && pre[m] == head[k].0;
        assert accts[m] == head[k].0;
      }
      forall k | 0 <= k < |block| ensures block[k] !in head {
        if block[k] in head {
          var m :| 0 <= m < |head| && head[m] == block[k];
          StrLtIrreflexive(a);
        }
      }
      AcctBlockFacts(tx, a);
      PairsJoin(head, block, a);
      head + block
  }

  /** One account's block is sorted, distinct, and holds exactly that
      account's pairs. */
  lemma AcctBlockFacts(tx: seq<Trade>, a: string)
    ensures var block := AcctBlock(a, SortedDistinct(AcctStatuses(tx, a)));
      (forall i, j :: 0 <= i < j < |block| ==> PairLt(block[i], block[j]) && block[i] != block[j])
      && (forall p: (string, string) :: p in block <==> p.0 == a && p.1 in AcctStatuses(tx, a))
  {
    var sts := SortedDistinct(AcctStatuses(tx, a));
    var block := AcctBlock(a, sts);
    forall i, j | 0 <= i < j < |block| ensures PairLt(block[i], block[j]) && block[i] != block[j] {
      StrictlySortedDistinct(sts, i, j);
    }
    forall p: (string, string) ensures p in block <==> p.0 == a && p.1 in AcctStatuses(tx, a) {
      if p in block {
        var k :| 0 <= k < |block| && block[k] == p;
        assert sts[k] in sts;
      }
      if p.0 == a && p.1 in AcctStatuses(tx, a) {
        var k :| 0 <= k < |sts| && sts[k] == p.1;
        assert block[k] == p;
      }
    }
  }

  /** Joining the pairs of earlier accounts with a later account's block
      keeps the list sorted and distinct. */
  lemma PairsJoin(head: seq<(string, string)>, block: seq<(string, string)>, a: string)
    requires PairsSorted(head) && DistinctKeys(head)
    requires forall k :: 0 <= k < |head| ==> StrLt(head[k].0, a)
    requires forall k :: 0 <= k < |block| ==> block[k].0 == a && block[k] !in head
    requires forall i, j :: 0 <= i < j < |block| ==> PairLt(block[i], block[j]) && block[i] != block[j]
    ensures PairsSorted(head + block) && DistinctKeys(head + block)
  {
    var r := head + block;
    forall i, j | 0 <= i < j < |r| ensures PairLt(r[i], r[j]) && r[i] != r[j] {
      if j >= |head| {
        assert r[j] == block[j - |head|];
        if i < |head| {
          assert r[i] == head[i];
          assert r[i] in head;
        } else {
          assert r[i] == block[i - |head|];
        }
      }
    }
  }

  /** `groupby(["Account","TaxStatus"])` keys: the distinct (account, status)
      pairs, ascending by account, then status. */
  function PairKeys(tx: seq<Trade>): (r: seq<(string, string)>)
    ensures PairsSorted(r) && DistinctKeys(r)
    ensures forall p :: p in r <==> exists j :: 0 <= j < |tx| && tx[j].account == p.0 && tx[j].taxStatus == p.1
  {
    var xs := TradeAccountNames(tx);
    var accts := SortedDistinct(xs);
    var r := PairsFor(tx, accts);
    forall p: (string, string) | (exists j :: 0 <= j < |tx| && tx[j].account == p.0 && tx[j].taxStatus == p.1) ensures p in r {
      var j :| 0 <= j < |tx| && tx[j].account == p.0 && tx[j].taxStatus == p.1;
      assert xs[j] == p.0;
    }
    r
  }

  // ----- the summary rows -----

  datatype StatusRow = StatusRow(taxStatus: string, totals: Totals)

  datatype AccountRow = AccountRow(account: string, taxStatus: string, totals: Totals)

  function StatusRows(tx: seq<Trade>, keys: seq<string>, rate: string -> real): (r: seq<StatusRow>)
    ensures |r| == |keys|
    ensures forall i :: 0 <= i < |r| ==> r[i].taxStatus == keys[i]
  {
    if keys == [] then []
    else
      var st := keys[|keys| - 1];
      StatusRows(tx, keys[..|keys| - 1], rate) + [StatusRow(st, TotalsOver(tx, TStatus(st), rate(st)))]
  }

  function AccountRows(tx: seq<Trade>, keys: seq<(string, string)>, rate: string -> real): (r: seq<AccountRow>)
    ensures |r| == |keys|
    ensures forall i :: 0 <= i < |r| ==> r[i].account == keys[i].0 && r[i].taxStatus == keys[i].1
  {
    if keys == [] then []
    else
      var p := keys[|keys| - 1];
      AccountRows(tx, keys[..|keys| - 1], rate) + [AccountRow(p.0, p.1, TotalsOver(tx, TAcctStatus(p.0, p.1), rate(p.1)))]
  }

  /** A status row holds the totals of that status's trades. */
  lemma {:induction false} StatusRowTotals(tx: seq<Trade>, keys: seq<string>, rate: string -> real, i: int)
    requires 0 <= i < |keys|
    ensures StatusRows(tx, keys, rate)[i].totals == TotalsOver(tx, TStatus(keys[i]), rate(keys[i]))
  {
    if i < |keys| - 1 {
      StatusRowTotals(tx, keys[..|keys| - 1], rate, i);
    }
  }

  /** An account row holds the totals of that (account, status) pair's trades. */
  lemma {:induction false} AccountRowTotals(tx: seq<Trade>, keys: seq<(string, string)>, rate: string -> real, i: int)
    requires 0 <= i < |keys|
    ensures AccountRows(tx, keys, rate)[i].totals == TotalsOver(tx, TAcctStatus(keys[i].0, keys[i].1), rate(keys[i].1))
  {
    if i < |keys| - 1 {
      AccountRowTotals(tx, keys[..|keys| - 1], rate, i);
    }
  }

  /** summarize.by_tax_status_summary with the status's rate. */
  function ByTaxStatus(tx: seq<Trade>, rate: string -> real): (r: seq<StatusRow>)
    ensures |r| == |StatusKeys(tx)|
  {
    StatusRows(tx, StatusKeys(tx), rate)
  }

  /** summarize.per_account_summary with the status's rate. */
  function PerAccount(tx: seq<Trade>, rate: string -> real): (r: seq<AccountRow>)
    ensures |r| == |PairKeys(tx)|
  {
    AccountRows(tx, PairKeys(tx), rate)
  }

  /** `EST_TAX_RATE.get(status, 0.15)`, summarize.py's rate. */
  function SummarizeRate(st: string): (r: real)
    ensures r == TaxRates.TaxRateFor(st)
  {
    TaxRates.TaxRateForIsConventions(st);
    Get(Conventions.EstTaxRate, st, 0.15)
  }

  /** cli.py's rate, `_tax_rate_from_status`. */
  function CliRate(st: string): real {
    TaxRates.CliTaxRate(Some(st))
  }

  /** portfolio_trades/summarize.py. */
  function PerAccountSummary(tx: seq<Trade>): seq<AccountRow> {
    PerAccount(tx, SummarizeRate)
  }

  function ByTaxStatusSummary(tx: seq<Trade>): seq<StatusRow> {
    ByTaxStatus(tx, SummarizeRate)
  }

  /** The report step of portfolio_trades/cli.py: no summaries when there is
      no trade, else the account and status summaries at the cli rate. */
  function CliSummaries(tx: seq<Trade>): (r: Option<(seq<AccountRow>, seq<StatusRow>)>)
    ensures r.None? <==> tx == []
  {
    if tx == [] then None else Some((PerAccount(tx, CliRate), ByTaxStatus(tx, CliRate)))
  }

  // ----- what the summaries promise -----

  /** A status row is a status of some trade, with the totals of that
      status's trades taxed at the status's rate. */
  lemma ByTaxStatusRow(tx: seq<Trade>, rate: string -> real, i: int)
    requires 0 <= i < |ByTaxStatus(tx, rate)|
    ensures exists j :: 0 <= j < |tx| && tx[j].taxStatus == ByTaxStatus(tx, rate)[i].taxStatus
    ensures var st := ByTaxStatus(tx, rate)[i].taxStatus;
      ByTaxStatus(tx, rate)[i].totals == TotalsOver(tx, TStatus(st), rate(st))
  {
    var keys := StatusKeys(tx);
    var rows := StatusRows(tx, keys, rate);
    assert rows == ByTaxStatus(tx, rate);
    StatusRowTotals(tx, keys, rate, i);
    assert rows[i].taxStatus == keys[i] && keys[i] in keys;
  }

  /** The status rows come in ascending status order. */
  lemma ByTaxStatusOrdered(tx: seq<Trade>, rate: string -> real, i: int, k: int)
    requires 0 <= i < k < |ByTaxStatus(tx, rate)|
    ensures StrLt(ByTaxStatus(tx, rate)[i].taxStatus, ByTaxStatus(tx, rate)[k].taxStatus)
  {
    var keys := StatusKeys(tx);
    assert StatusRows(tx, keys, rate) == ByTaxStatus(tx, rate);
  }

  /** Every status of a trade has its row. */
  lemma ByTaxStatusComplete(tx: seq<Trade>, rate: string -> real, j: int) returns (i: int)
    requires 0 <= j < |tx|
    ensures 0 <= i < |ByTaxStatus(tx, rate)| && ByTaxStatus(tx, rate)[i].taxStatus == tx[j].taxStatus
  {
    var keys := StatusKeys(tx);
    assert tx[j].taxStatus in keys;
    i :| 0 <= i < |keys| && keys[i] == tx[j].taxStatus;
  }

  /** An account row is the (account, status) pair of some trade, with
      the totals of that pair's trades taxed at the status's rate. */
  lemma PerAccountRow(tx: seq<Trade>, rate: string -> real, i: int)
    requires 0 <= i < |PerAccount(tx, rate)|
    ensures exists j :: 0 <= j < |tx| && (tx[j].account, tx[j].taxStatus) == (PerAccount(tx, rate)[i].account, PerAccount(tx, rate)[i].taxStatus)
    ensures var row := PerAccount(tx, rate)[i];
      row.totals == TotalsOver(tx, TAcctStatus(row.account, row.taxStatus), rate(row.taxStatus))
  {
    var keys := PairKeys(tx);
    var rows := AccountRows(tx, keys, rate);
    assert rows == PerAccount(tx, rate);
    AccountRowTotals(tx, keys, rate, i);
    assert rows[i].account == keys[i].0 && rows[i].taxStatus == keys[i].1 && keys[i] in keys;
  }

  /** The account rows come in ascending (account, status) order. */
  lemma PerAccountOrdered(tx: seq<Trade>, rate: string -> real, i: int, k: int)
    requires 0 <= i < k < |PerAccount(tx, rate)|
    ensures PairLt((PerAccount(tx, rate)[i].account, PerAccount(tx, rate)[i].taxStatus),
                   (PerAccount(tx, rate)[k].account, PerAccount(tx, rate)[k].taxStatus))
  {
    var keys := PairKeys(tx);
    var rows := AccountRows(tx, keys, rate);
    assert rows == PerAccount(tx, rate);
    assert (rows[i].account, rows[i].taxStatus) == keys[i] && (rows[k].account, rows[k].taxStatus) == keys[k];
  }

  /** Every (account, status) pair of a trade has its row. */
  lemma PerAccountComplete(tx: seq<Trade>, rate: string -> real, j: int) returns (i: int)
    requires 0 <= j < |tx|
    ensures 0 <= i < |PerAccount(tx, rate)|
    ensures PerAccount(tx, rate)[i].account == tx[j].account && PerAccount(tx, rate)[i].taxStatus == tx[j].taxStatus
  {
    var keys := PairKeys(tx);
    assert (tx[j].account, tx[j].taxStatus) in keys;
    i :| 0 <= i < |keys| && keys[i] == (tx[j].account, tx[j].taxStatus);
  }

  /** An empty trade list has empty summaries. */
  lemma EmptySummaries(rate: string -> real)
    ensures ByTaxStatus([], rate) == [] && PerAccount([], rate) == []
  {
  }

  /** There is no floor on the estimate: a net loss at a positive rate is a
      negative tax. */
  lemma NegativeTax(tx: seq<Trade>, rate: string -> real, i: int)
    requires 0 <= i < |ByTaxStatus(tx, rate)|
    requires ByTaxStatus(tx, rate)[i].totals.netGain < 0.0 && rate(ByTaxStatus(tx, rate)[i].taxStatus) > 0.0
    ensures ByTaxStatus(tx, rate)[i].totals.estTax < 0.0
  {
    ByTaxStatusRow(tx, rate, i);
  }

  // ----- the groups partition the trades -----

  /** The sum of a column over the groups of `keys`. */
  function SumOver<K>(tx: seq<Trade>, keys: seq<K>, sel: K -> TSel, f: TField): real {
    if keys == [] then 0.0 else SumOver(tx, keys[..|keys| - 1], sel, f) + TSum(tx, sel(keys[|keys| - 1]), f)
  }

  /** What one trade adds to the groups of `keys`. */
  function Hits<K>(t: Trade, keys: seq<K>, sel: K -> TSel, f: TField): real {
    if keys == [] then 0.0
    else Hits(t, keys[..|keys| - 1], sel, f) + (if TSelects(sel(keys[|keys| - 1]), t) then TGet(t, f) else 0.0)
  }

  lemma {:induction false} SumOverSnoc<K>(tx: seq<Trade>, t: Trade, keys: seq<K>, sel: K -> TSel, f: TField)
    ensures SumOver(tx + [t], keys, sel, f) == SumOver(tx, keys, sel, f) + Hits(t, keys, sel, f)
  {
    if keys != [] {
      SumOverSnoc(tx, t, keys[..|keys| - 1], sel, f);
      assert (tx + [t])[..|tx|] == tx;
    }
  }

  lemma {:induction false} HitsNone<K>(t: Trade, keys: seq<K>, sel: K -> TSel, f: TField)
    requires forall i :: 0 <= i < |keys| ==> !TSelects(sel(keys[i]), t)
    ensures Hits(t, keys, sel, f) == 0.0
  {
    if keys != [] {
      HitsNone(t, keys[..|keys| - 1], sel, f);
    }
  }

  /** A trade that exactly one group selects adds its value once. */
  lemma {:induction false} HitsOnce<K>(t: Trade, keys: seq<K>, sel: K -> TSel, f: TField, m: int)
    requires 0 <= m < |keys| && TSelects(sel(keys[m]), t)
    requires forall i :: 0 <= i < |keys| && i != m ==> !TSelects(sel(keys[i]), t)
    ensures Hits(t, keys, sel, f) == TGet(t, f)
  {
    var pre := keys[..|keys| - 1];
    if m == |keys| - 1 {
      HitsNone(t, pre, sel, f);
    } else {
      HitsOnce(t, pre, sel, f, m);
    }
  }

  function StatusSel(st: string): TSel {
    TStatus(st)
  }

  function PairSel(p: (string, string)): TSel {
    TAcctStatus(p.0, p.1)
  }

  /** Exactly one group of `keys` selects the trade. */
  predicate OnlyGroup<K>(t: Trade, keys: seq<K>, sel: K -> TSel) {
    exists m :: 0 <= m < |keys| && TSelects(sel(keys[m]), t) && OnlyAt(t, keys, sel, m)
  }

  predicate OnlyAt<K>(t: Trade, keys: seq<K>, sel: K -> TSel, m: int) {
    forall i :: 0 <= i < |keys| && i != m ==> !TSelects(sel(keys[i]), t)
  }

  /** Each trade is selected by exactly one group of `keys`. */
  predicate Partitions<K>(tx: seq<Trade>, keys: seq<K>, sel: K -> TSel) {
    forall j :: 0 <= j < |tx| ==> OnlyGroup(tx[j], keys, sel)
  }

  /** Summed over groups that partition the trades, a column sums to its total. */
  lemma {:induction false} PartitionSum<K>(tx: seq<Trade>, keys: seq<K>, sel: K -> TSel, f: TField)
    requires Partitions(tx, keys, sel)
    ensures SumOver(tx, keys, sel, f) == TSum(tx, AllTrades, f)
  {
    if tx == [] {
      forall i | 0 <= i < |keys| ensures TSum([], sel(keys[i]), f) == 0.0 { }
      SumOverEmpty(keys, sel, f);
    } else {
      var pre, t := tx[..|tx| - 1], tx[|tx| - 1];
      assert pre + [t] == tx;
      assert Partitions(pre, keys, sel) by {
        forall j | 0 <= j < |pre| ensures pre[j] == tx[j] { }
      }
      PartitionSum(pre, keys, sel, f);
      SumOverSnoc(pre, t, keys, sel, f);
      assert OnlyGroup(t, keys, sel);
      var m :| 0 <= m < |keys| && TSelects(sel(keys[m]), t) && OnlyAt(t, keys, sel, m);
      HitsOnce(t, keys, sel, f, m);
    }
  }

  lemma {:induction false} SumOverEmpty<K>(keys: seq<K>, sel: K -> TSel, f: TField)
    ensures SumOver([], keys, sel, f) == 0.0
  {
    if keys != [] {
      SumOverEmpty(keys[..|keys| - 1], sel, f);
    }
  }

  /** The status groups partition the trades. */
  lemma StatusesPartition(tx: seq<Trade>)
    ensures Partitions(tx, StatusKeys(tx), StatusSel)
  {
    var keys := StatusKeys(tx);
    forall j | 0 <= j < |tx| ensures OnlyGroup(tx[j], keys, StatusSel) {
      assert tx[j].taxStatus in keys;
      var m :| 0 <= m < |keys| && keys[m] == tx[j].taxStatus;
      forall i | 0 <= i < |keys| && i != m ensures keys[i] != keys[m] {
        StrictlySortedDistinct(keys, i, m);
      }
      assert OnlyAt(tx[j], keys, StatusSel, m);
    }
  }

  /** Every trade's (account, status) pair is a key. */
  lemma PairKeysHas(tx: seq<Trade>, j: int) returns (m: int)
    requires 0 <= j < |tx|
    ensures 0 <= m < |PairKeys(tx)| && PairKeys(tx)[m] == (tx[j].account, tx[j].taxStatus)
  {
    var keys := PairKeys(tx);
    assert (tx[j].account, tx[j].taxStatus) in keys;
    m :| 0 <= m < |keys| && keys[m] == (tx[j].account, tx[j].taxStatus);
  }

  /** Distinct pairs select disjoint trades. */
  lemma PairOnlyAt(t: Trade, keys: seq<(string, string)>, m: int)
    requires DistinctKeys(keys) && 0 <= m < |keys| && keys[m] == (t.account, t.taxStatus)
    ensures TSelects(PairSel(keys[m]), t) && OnlyAt(t, keys, PairSel, m)
  {
    forall i | 0 <= i < |keys| && i != m ensures !TSelects(PairSel(keys[i]), t) {
      assert keys[i] != keys[m];
    }
  }

  /** The (account, status) groups partition the trades. */
  lemma PairsPartition(tx: seq<Trade>)
    ensures Partitions(tx, PairKeys(tx), PairSel)
  {
    var keys := PairKeys(tx);
    forall j | 0 <= j < |tx| ensures OnlyGroup(tx[j], keys, PairSel) {
      var m := PairKeysHas(tx, j);
      PairOnlyAt(tx[j], keys, m);
    }
  }

  /** The summed column of the summary rows. */
  function StatusColumn(rows: seq<StatusRow>, c: TField): real {
    if rows == [] then 0.0
    else StatusColumn(rows[..|rows| - 1], c) + Column(rows[|rows| - 1].totals, c)
  }

  function AccountColumn(rows: seq<AccountRow>, c: TField): real {
    if rows == [] then 0.0
    else AccountColumn(rows[..|rows| - 1], c) + Column(rows[|rows| - 1].totals, c)
  }

  /** Total_Buys, Total_Sells and Net_CapGain as the trade column they sum;
      no other column is summarised. */
  function Column(t: Totals, c: TField): real {
    match c
    case BuyDollars => t.buys
    case SellDollars => t.sells
    case Gain => t.netGain
    case _ => 0.0
  }

  predicate Summed(c: TField) {
    c == BuyDollars || c == SellDollars || c == Gain
  }

  lemma {:induction false} StatusColumnIsSumOver(tx: seq<Trade>, keys: seq<string>, rate: string -> real, c: TField)
    requires Summed(c)
    ensures StatusColumn(StatusRows(tx, keys, rate), c) == SumOver(tx, keys, StatusSel, c)
  {
    if keys != [] {
      var pre := keys[..|keys| - 1];
      var st := keys[|keys| - 1];
      StatusColumnIsSumOver(tx, pre, rate, c);
      var row := StatusRow(st, TotalsOver(tx, TStatus(st), rate(st)));
      assert StatusRows(tx, keys, rate) == StatusRows(tx, pre, rate) + [row];
      ColumnOfTotals(tx, TStatus(st), rate(st), c);
      assert (StatusRows(tx, pre, rate) + [row])[..|pre|] == StatusRows(tx, pre, rate);
    }
  }

  /** A summarised column of a group's totals is that column's sum over the group. */
  lemma ColumnOfTotals(tx: seq<Trade>, sel: TSel, rate: real, c: TField)
    requires Summed(c)
    ensures Column(TotalsOver(tx, sel, rate), c) == TSum(tx, sel, c)
  {
  }

  lemma {:induction false} AccountColumnIsSumOver(tx: seq<Trade>, keys: seq<(string, string)>, rate: string -> real, c: TField)
    requires Summed(c)
    ensures AccountColumn(AccountRows(tx, keys, rate), c) == SumOver(tx, keys, PairSel, c)
  {
    if keys != [] {
      var pre := keys[..|keys| - 1];
      var p := keys[|keys| - 1];
      AccountColumnIsSumOver(tx, pre, rate, c);
      var row := AccountRow(p.0, p.1, TotalsOver(tx, TAcctStatus(p.0, p.1), rate(p.1)));
      assert AccountRows(tx, keys, rate) == AccountRows(tx, pre, rate) + [row];
      ColumnOfTotals(tx, TAcctStatus(p.0, p.1), rate(p.1), c);
      assert (AccountRows(tx, pre, rate) + [row])[..|pre|] == AccountRows(tx, pre, rate);
    }
  }

  /** Over the status rows, Total_Buys, Total_Sells and Net_CapGain add up to
      the totals of all trades, whatever the rate. */
  lemma ByTaxStatusAddsUp(tx: seq<Trade>, rate: string -> real, c: TField)
    requires Summed(c)
    ensures StatusColumn(ByTaxStatus(tx, rate), c) == TSum(tx, AllTrades, c)
  {
    StatusColumnIsSumOver(tx, StatusKeys(tx), rate, c);
    StatusesPartition(tx);
    PartitionSum(tx, StatusKeys(tx), StatusSel, c);
  }

  /** Over the account rows the same columns add up to the same totals. */
  lemma PerAccountAddsUp(tx: seq<Trade>, rate: string -> real, c: TField)
    requires Summed(c)
    ensures AccountColumn(PerAccount(tx, rate), c) == TSum(tx, AllTrades, c)
  {
    AccountColumnIsSumOver(tx, PairKeys(tx), rate, c);
    PairsPartition(tx);
    PartitionSum(tx, PairKeys(tx), PairSel, c);
  }

  /** cli.py and summarize.py produce the same groups and totals; only the
      estimated tax can differ, and it agrees on a status of the tax table. */
  lemma CliMatchesSummarize(tx: seq<Trade>, i: int)
    requires tx != [] && 0 <= i < |ByTaxStatusSummary(tx)|
    ensures var cli := CliSummaries(tx).value.1;
      |cli| == |ByTaxStatusSummary(tx)| && cli[i].taxStatus == ByTaxStatusSummary(tx)[i].taxStatus
      && cli[i].totals.(estTax := 0.0) == ByTaxStatusSummary(tx)[i].totals.(estTax := 0.0)
      && (cli[i].taxStatus in TaxRates.EstTaxRate ==> cli[i].totals == ByTaxStatusSummary(tx)[i].totals)
  {
    var keys := StatusKeys(tx);
    StatusRowTotals(tx, keys, CliRate, i);
    StatusRowTotals(tx, keys, SummarizeRate, i);
    if keys[i] in TaxRates.EstTaxRate {
      TaxRates.CliAgreesOnEngineStatuses(keys[i]);
    }
  }
}
