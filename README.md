# TradeList rebalancing core in Dafny

TradeList turns a holdings table and a vector of target weights by sleeve
into a list of trades per account, the holdings after those trades, and
the accounts whose net cash flow is left out of balance. This project models
that core and proves properties of the model:

- the classification of holdings: tax status from the account name, sleeve
  from symbol and name, the Automattic illiquid position, cash-like
  identifiers, and share rounding;
- the per-account engine (`portfolio_trades/engine.py`) and its predecessor
  (`portfolio_trades/engine_prev.py`);
- the portfolio-wide planner that `tools/patch_engine_global.py` installs;
- the consolidation pass that `tools/apply_consolidation_patch.py` and its
  `_v2` aim at the engine, and the engine that `_v2` actually leaves behind;
- the modular pipeline: targets, trades, apply, plus the helpers in
  mapping, sleeves, summarize and tax;
- the tax-rate function and summary arithmetic of `portfolio_trades/cli.py`.

Money, prices and shares are `real`. A DataFrame is a `seq` of row
datatypes (`Portfolio.Holding`, `Portfolio.Trade`). Grouped sums are
recursive sums over a row selector (`Portfolio.HSum`, `Portfolio.TSum`). A
pandas Series indexed by sleeve is a `seq<(string, real)>`
(`Sizing.Weights`).

Loops that append to a trade list or update a dictionary are methods with
loop invariants. Each is proved equal to a function, and the lemmas are
stated about that function.

Some choices about how the model reads the code:

- The keys of `groupby("Account")`, of the summaries and of `sorted(...)` come out ascending
  (`Text.StrLt`, an ordinal string order). The consolidation's four-key groups are the exception:
  see `Consolidation.Consolidate` under "Left out".
- Ties in a descending `sort_values` go to the first entry in group order.
- Python's `round(x, k)` is modelled as half-up rounding at `k` decimals
  (`Numeric.Round`). Only its half-step error bound and its sign are used.
- A regular expression of the tax-status rules is modelled as an ordered
  list of alternatives over ASCII text: a word `\bw\b`, a substring, or
  `\ba\b.*\bb\b` (`Conventions.Alt`).
- In `EnginePrev`, the field `Holding.cost` stands for the `CostTotal` column that
  `engine_prev.py` documents and writes (engine_prev.py:29-32, 196, 209, 216);
  the other modules call that column `Cost`.

The median price per identifier is an input: a `map<string, real>` passed
to every engine (`prices`). `portfolio_trades/config.py`, which `mapping.py`,
`targets.py`, `trades.py` and `summarize.py` read, defines `MAP_TO_SLEEVE` and
`FALLBACK_PROXY` only as placeholder literals (`{...}`), and its own copies of
the tax-status rules, the default status and the rate table, equal to those of
`portfolio_trades/conventions.py`. The model takes every table from
`conventions.py` (module `Conventions`) and passes it as a parameter where a
module reads it from `config`.

Where a file disagrees with another (two `is_automattic` tests, two sleeve
tables, two tax-rate lookups), each file is modelled as written and the
differences are proved as lemmas (`Mapping.MarkerInsideSymbol`,
`Sleeves.CashSymbolDiffers`, `TaxRates.CliDiffersFromTable`).

## Model

| member | source | states |
|---|---|---|
| Conventions.TableKeys | portfolio_trades/conventions.py:25-36 | The symbol table's keys are exactly the listed symbols. |
| Conventions.FirstMatch | portfolio_trades/engine.py:27-29 | None exactly when no rule's pattern is found; otherwise the status of a matching rule with no earlier matching rule. |
| Conventions.ProxyInjective | portfolio_trades/conventions.py:17-22 | No two sleeves share a fallback proxy, so the inverse table of engine.py:258 is a function. |
| Conventions.ProxyKeys | portfolio_trades/conventions.py:17-22 | The proxy table has exactly the thirteen listed sleeves. |
| Conventions.InvProxyInverts | portfolio_trades/engine.py:258 | `{v: k for k, v in FALLBACK_PROXY.items()}` sends every sleeve's proxy back to that sleeve. |
| Conventions.InvProxyKeys | portfolio_trades/engine.py:258 | The inverse table knows exactly the proxies. |
| Conventions.InvProxyCore | portfolio_trades/engine.py:258 | The inverse table sends the US_Core and US_Value proxies back to their sleeves. |
| Conventions.InvProxyStyle | portfolio_trades/engine.py:258 | The same for US_SmallValue and US_Growth. |
| Conventions.InvProxyGlobal | portfolio_trades/engine.py:258 | The same for Intl_DM, EM and Energy. |
| Conventions.InvProxyBonds | portfolio_trades/engine.py:258 | The same for IG_Core, Treasuries and TIPS. |
| Conventions.InvProxyOther | portfolio_trades/engine.py:258 | The same for EM_USD, IG_Intl_Hedged and Cash. |
| Conventions.ProxiesMapBackCore | portfolio_trades/conventions.py:17-36 | The US_Core and US_Value proxies are in the symbol table under their own sleeve. |
| Conventions.ProxiesMapBackStyle | portfolio_trades/conventions.py:17-36 | The same for US_SmallValue and US_Growth. |
| Conventions.ProxiesMapBackGlobal | portfolio_trades/conventions.py:17-36 | The same for Intl_DM, EM and Energy. |
| Conventions.ProxiesMapBackIncome | portfolio_trades/conventions.py:17-36 | The same for IG_Core, EM_USD, IG_Intl_Hedged and Cash. |
| Conventions.ProxiesNotInTable | portfolio_trades/conventions.py:17-36 | The Treasuries and TIPS proxies (IEF, TIP) are not in the symbol table. |
| Conventions.CashSleeveSymbolsAreCashlike | portfolio_trades/conventions.py:25-50 | Every symbol the table sends to the Cash sleeve is cash-like. |
| Conventions.IsCashlikeIgnoresCase | portfolio_trades/conventions.py:49-50 | The cash-like test gives the same answer on the lower-cased and upper-cased symbol. |
| Conventions.IsAutomatticIgnoresCaseAndSpace | portfolio_trades/conventions.py:52-54 | The Automattic test ignores letter case and surrounding spaces. |
| Conventions.TaxTables | portfolio_trades/conventions.py:38-47 | The rule order ROTH IRA, HSA, Trust; the default Taxable; the four rates, with 0 for Roth and HSA. |
| Conventions.TrustRuleIsWordTrust | portfolio_trades/conventions.py:42 | The Trust pattern matches exactly when the word "trust" occurs: the `wing … trust` alternative adds nothing. |
| Classify.AssignTaxStatus | portfolio_trades/engine.py:23-30 | The status is one of the four. Each status holds exactly when its rule matches and no earlier rule does. A missing name, or one matching no rule, is Taxable. |
| Classify.AssignTaxStatusIgnoresCase | portfolio_trades/engine.py:26-29 | Upper- or lower-casing the account name does not change its status. |
| Classify.IsAutomatticNormalised | portfolio_trades/engine.py:34-36 | Normalising symbol and name before the Automattic test does not change it. |
| Classify.MapSleeve | portfolio_trades/engine.py:33-44 | Illiquid exactly for Automattic holdings. Otherwise: the table entry of the normalised symbol; else TIPS for INFLATION; else Treasuries for UST/TREAS/STRIP; else US_Core. |
| Classify.TableHasNoIlliquid | portfolio_trades/conventions.py:25-36 | No table entry is the illiquid sleeve. |
| Classify.MapSleeveIgnoresCaseAndSpace | portfolio_trades/engine.py:34-35 | The sleeve ignores letter case and surrounding spaces. |
| Classify.RoundTo | portfolio_trades/engine.py:47-50 | 0 at a non-positive price. Otherwise shares × price is within half a step × price of the dollars, with the sign of the dollars. |
| Classify.RoundShares | portfolio_trades/engine.py:47-50 | `_round_shares`: the same bounds, at two decimals for a cash-like identifier and one otherwise. |
| Classify.RoundSharesError | portfolio_trades/engine.py:47-50 | The rounded count is within 0.005 (cash-like) or 0.05 shares of dollars / price. |
| Classify.Enrich | portfolio_trades/engine.py:79-85 | Same rows. Sleeve recomputed by map_sleeve. TaxStatus assigned from the account only when every row's status is empty; other fields kept. |
| Classify.EnrichIlliquid | portfolio_trades/engine.py:84-115 | After enrichment a row is in the illiquid sleeve exactly when it is an Automattic holding. |
| Portfolio.AvgCostFacts | portfolio_trades/engine.py:169-177 | Average cost × held quantity is the held cost basis when the quantity is positive, and the average is 0 otherwise. |
| Portfolio.AvgCost | portfolio_trades/engine.py:169-177 | The quantity-weighted average cost of an account's identifier, 0 without a positive quantity; AvgCostFacts proves cost basis = average × quantity, and Trades.WAvgAgainstEngine ties it to trades.py's `_wavg`. |
| Portfolio.FirstStatusIsFirst | portfolio_trades/engine.py:185 | `g["TaxStatus"].iloc[0]` is the status of the account's first row. |
| Portfolio.FirstStatus | portfolio_trades/engine.py:185 | The status on the account's first row; FirstStatusIsFirst proves some row of the account before every other one carries it. |
| Sizing.Accounts | portfolio_trades/engine.py:107 | The `groupby("Account")` keys: strictly ascending, and exactly the accounts of some row. |
| Sizing.Investable | portfolio_trades/engine.py:108-117 | Never negative, and the account total less its Automattic value whenever that is positive. |
| Sizing.TradableFacts | portfolio_trades/engine.py:120-122 | The tradable weights are exactly the entries of the non-illiquid sleeves. |
| Sizing.WeightOfFound | portfolio_trades/engine.py:131-133 | `reindex(...).fillna(0.0)`: 0 for a sleeve not in the index, else one of the sleeve's entries. |
| Sizing.HeldSleeves | portfolio_trades/engine.py:129 | Exactly the sleeves of the account's rows. |
| Sizing.AcctSleeves | portfolio_trades/engine.py:131 | `sorted(set(cur).union(tgt))`: strictly ascending, exactly the held and the tradable sleeves. |
| Sizing.BestIdent | portfolio_trades/engine.py:88-96 | A candidate whose summed value no candidate exceeds, and that every candidate before it falls short of. |
| Sizing.CanonIdent | portfolio_trades/engine.py:88-96 | Some exactly when the group has a row. The result is the symbol of a group row whose summed value no other group identifier exceeds. |
| Sizing.CanonTable | portfolio_trades/engine.py:88-96 | `acct_sleeve_ident`: keyed by exactly the held (account, sleeve) pairs, each mapped to its canonical identifier. |
| Sizing.MakeLeg | portfolio_trades/engine.py:169-195 | The trade row: account, identifier, sleeve, shares, price, first status, average cost; Delta_Dollars = shares × price. BUY exactly for positive shares; a SELL carries (price − average cost) × abs(shares). |
| Sizing.SizedLeg | portfolio_trades/engine.py:143-167 | No trade for the illiquid sleeve, a missing identifier, a non-positive price or a delta under one dollar; a trade is priced at the identifier's price. |
| Sizing.SizedLegOk | portfolio_trades/engine.py:143-195 | Every sleeve leg is of its account and sleeve and satisfies the leg invariants. |
| Sizing.LegFactsOk | portfolio_trades/engine.py:169-195 | A leg built from the leg facts satisfies the leg invariants. |
| Sizing.PricedLeg | portfolio_trades/engine.py:154-195 | A trade, when there is one, has the leg facts: sign of the delta, price, cap, gain. |
| Sizing.LegShapeHolds | portfolio_trades/engine.py:169-195 | A row built from a capped count has the leg facts. |
| Sizing.CappedShares | portfolio_trades/engine.py:158-167 | A BUY count within rounding of the delta. A SELL count never beyond the held shares, nor beyond the delta up to rounding. |
| Sizing.SellCap | portfolio_trades/engine.py:165 | `-min(abs(sh), abs(held))` keeps the rounding bound and never sells more than the rounded count. |
| Sizing.SellScaled | portfolio_trades/engine.py:162-167 | Such a SELL brings in no more dollars than the delta asked for, up to rounding, and some dollars when it sells shares. |
| Consolidation.ActionFor | portfolio_trades/engine.py:241 | BUY exactly when the net shares are not negative. |
| Consolidation.Consolidate | portfolio_trades/engine.py:230-241 | One row per (account, identifier, status, sleeve) group, at most as many rows as trades, BUY exactly for non-negative net shares. |
| Consolidation.ConsolidateFromInput | portfolio_trades/engine.py:230-240 | Every consolidated row is the group of some raw trade. |
| Consolidation.ConsolidateCovers | portfolio_trades/engine.py:230-240 | Every raw trade's group has a consolidated row. |
| Consolidation.ConsolidatePreservesSums | portfolio_trades/engine.py:230-240 | Under every grouping the reports use, summed shares, dollars and gains are unchanged. |
| Consolidation.ConsolidatedRow | portfolio_trades/engine.py:230-241 | Each row carries its group's summed shares, dollars and gain. |
| Consolidation.ConsolidatedLast | portfolio_trades/engine.py:234-235 | Each row carries the price and average cost of the last raw trade of its group. |
| Projection.NewKeys | portfolio_trades/engine.py:254-256 | Exactly the traded keys no row holds, each once, in first-trade order. |
| Projection.EnginePlaceholder | portfolio_trades/engine.py:258-281 | Zero quantity, value, cost and average cost; the inverse-proxy sleeve, else US_Core; the identifier's positive price, else 1.0; `assign_tax_status(acct)`. |
| Projection.EnginePlaceholders | portfolio_trades/engine.py:257-282 | One placeholder per new key. |
| Projection.PlaceholdersHoldNothing | portfolio_trades/engine.py:266-281 | The placeholders hold no shares of any key. |
| Projection.Revalued | portfolio_trades/engine.py:299-300 | Value and Cost are recomputed from Quantity; nothing else changes. |
| Projection.Bump | portfolio_trades/engine.py:291-295 | Quantity moves by the delta; the key is kept. |
| Projection.ApplyDeltaEveryRow | portfolio_trades/engine.py:284-297 | `_apply` as written: same number of rows. |
| Projection.ApplyDeltaOnce | portfolio_trades/engine.py:284-297 | The corrected update: same rows and keys; a key's first row moves by its delta, every other row is unchanged. |
| Projection.ApplyDeltaOnceTotal | portfolio_trades/engine.py:243-297 | The corrected update moves each account's quantity of a held identifier by exactly the key's summed delta. |
| Projection.ApplyDeltaEveryRowTotal | portfolio_trades/engine.py:284-297 | As written, the quantity moves by the key's delta once per row of the key. |
| Projection.DoubleCountExample | portfolio_trades/engine.py:284-297 | Two lots of 10 and a SELL of 15 end at −10 shares as written, and at 5 with the corrected update. |
| Projection.DropDust | portfolio_trades/engine.py:298 | Keeps exactly the rows whose abs(quantity) exceeds the threshold; no new rows. |
| Projection.Revalue | portfolio_trades/engine.py:299-300 | Every row revalued at Quantity × Price and Quantity × AverageCost, everything else kept. |
| Projection.AfterHoldingsRows | portfolio_trades/engine.py:297-300 | Every after-row is above the 1e-9 threshold, valued at Q × Price and Q × AverageCost. |
| Projection.AfterHoldings | portfolio_trades/engine.py:243-300 | The after-holdings under the corrected once-per-key update: AfterHoldingsRows (above the dust threshold, revalued), AfterHoldingsKeyTotal (held + delta) and UntradedRowsKeep; the as-written update is AfterHoldingsAsWritten. |
| Projection.AfterHoldingsKeyTotal | portfolio_trades/engine.py:243-297 | Under the corrected update, every traded key has a row, and its quantity is what the account held plus the key's net shares. |
| Projection.AfterHoldingsAsWrittenRows | portfolio_trades/engine.py:284-300 | As written, every after-row is above the 1e-9 threshold and valued. |
| Projection.AfterHoldingsAsWrittenKeyTotal | portfolio_trades/engine.py:284-297 | As written, a traded key has at least one row, and its quantity is what the account held plus the key's net shares once per row. |
| Projection.UntradedRowsKeep | portfolio_trades/engine.py:288-290 | A row of an untraded key is unchanged. |
| Projection.Residuals | portfolio_trades/engine.py:302-304 | Exactly the traded accounts whose net dollars exceed the tolerance in size, with that net. |
| Engine.EngineIdent | portfolio_trades/engine.py:146 | The non-empty canonical identifier, else the sleeve's proxy, else none. |
| Engine.CashIdent | portfolio_trades/engine.py:200-202 | The account's non-empty canonical Cash identifier, else BIL. |
| Engine.CashPrice | portfolio_trades/engine.py:203-205 | Positive: the cash identifier's positive price, else 1.0. |
| Engine.CashLeg | portfolio_trades/engine.py:197-221 | No cash trade within the tolerance. Otherwise a Cash-sleeve trade in the cash identifier that leaves the net within half a share step of the price. |
| Engine.Offset | portfolio_trades/engine.py:206-221 | The offsetting trade leaves the net within half a share step of the price. |
| Engine.LegsOk | portfolio_trades/engine.py:143-195 | Every leg is of the account and one of its sleeves: priced, signed, sell-capped, with its gain. |
| Engine.LegsOwn | portfolio_trades/engine.py:143-195 | Every leg belongs to the account. |
| Engine.AccountTradesOk | portfolio_trades/engine.py:107-221 | No trades unless the account total and the tradable weight sum are positive; each trade is a sleeve leg or the cash leg. |
| Engine.AccountTradesOwn | portfolio_trades/engine.py:107-221 | All of an account's trades belong to it. |
| Engine.RawOverOk | portfolio_trades/engine.py:104-221 | Every raw trade belongs to a listed account and is an engine trade. |
| Engine.RawTradeFacts | portfolio_trades/engine.py:104-195 | Every raw trade: an account with positive total; never illiquid; dollars = shares × price; BUY with positive shares and no gain; a SELL capped, with its gain. |
| Engine.RawOverFlow | portfolio_trades/engine.py:198 | An account's net over the trade list is the net of its own trades. |
| Engine.AccountBalanced | portfolio_trades/engine.py:197-221 | After the cash leg an account's net is within the tolerance, or within half a share step of its cash price. |
| Engine.RawBalanced | portfolio_trades/engine.py:198-221 | The same bound over the whole raw trade list. |
| Engine.AccountNet | portfolio_trades/engine.py:198 | The loop's sum is the account's net dollars. |
| Engine.AppendLegs | portfolio_trades/engine.py:143-195 | The sleeve loop appends exactly the sized legs, in sleeve order. |
| Engine.AccountStep | portfolio_trades/engine.py:107-221 | One account's turn appends exactly its trades. |
| Engine.EarlierAccountsOnly | portfolio_trades/engine.py:198 | The trades of earlier accounts carry none of a later account's flow. |
| Engine.BuildRawTrades | portfolio_trades/engine.py:104-221 | The account loop yields the raw trade list. |
| Engine.BuildTradesAndAfterHoldings | portfolio_trades/engine.py:56-306 | The method yields the engine's trades and residuals, with after-holdings from the corrected once-per-key update. |
| Engine.Build | portfolio_trades/engine.py:56-306 | The engine's outcome: FinishTradeRows, FinishResiduals, FinishAfterRows and FinishKeyTotal state its trades, residuals and after-holdings, BuildNoTrades its early return, and BuildTradesAndAfterHoldings computes it. |
| Engine.Finish | portfolio_trades/engine.py:223-304 | The tail after the account loop: no trades give the holdings unchanged and no residuals; otherwise the consolidated trades, their after-holdings and residuals (FinishTradeRows, ConsolidatedFlow, ConsolidatedAccounts, FinishResiduals). |
| Engine.FinishTrades | portfolio_trades/engine.py:225-306 | No raw trade leaves the holdings unchanged with no residuals; otherwise the consolidated trades, their after-holdings under the corrected update, and residuals. |
| Engine.BuildNoTrades | portfolio_trades/engine.py:223-227 | With no trade: no trades, the enriched holdings, no residuals. |
| Engine.FinishTradeRows | portfolio_trades/engine.py:229-241 | Each reported trade: its group's sums; BUY exactly for non-negative net shares; an account with positive total; never illiquid. |
| Engine.ConsolidatedFlow | portfolio_trades/engine.py:229-241 | Consolidation keeps every account's net flow. |
| Engine.ConsolidatedAccounts | portfolio_trades/engine.py:229-241 | Consolidation keeps the set of traded accounts. |
| Engine.FinishResiduals | portfolio_trades/engine.py:302-304 | The residuals are the accounts over the tolerance, with their flow, each within half a share step of its cash price. |
| Engine.FinishAfterRows | portfolio_trades/engine.py:297-300 | Every after-row is above the dust threshold and valued. |
| Engine.FinishKeyTotal | portfolio_trades/engine.py:243-297 | Under the corrected update, a traded position ends at the held quantity plus its net raw shares. |
| Engine.FinishKeyTotalAsWritten | portfolio_trades/engine.py:284-297 | As written, a traded position ends at the held quantity plus its net raw shares once per row of the key. |
| EnginePrev.PrevDivisor | portfolio_trades/engine_prev.py:82 | The weight sum when positive, else 1.0; always positive. |
| EnginePrev.ZeroWeightsSellDown | portfolio_trades/engine_prev.py:79-95 | With all tradable weights 0, each sleeve's delta is minus the account's holding in it. |
| EnginePrev.PrevIdent | portfolio_trades/engine_prev.py:102-106 | The canonical identifier, even an empty one, else the proxy. |
| EnginePrev.PrevIdentAgrees | portfolio_trades/engine_prev.py:102-106 | Agrees with engine.py:146 except on an empty canonical identifier. |
| EnginePrev.PrevLegsOk | portfolio_trades/engine_prev.py:97-153 | Every leg is of the account and one of its sleeves, and well formed. |
| EnginePrev.PrevAccountTradesOk | portfolio_trades/engine_prev.py:70-153 | No trades for a non-positive total; each trade a well-formed leg. |
| EnginePrev.PrevRawOverOk | portfolio_trades/engine_prev.py:70-153 | Every raw trade is a leg of a listed account. |
| EnginePrev.PrevRawTradeFacts | portfolio_trades/engine_prev.py:70-153 | Positive-total account; not illiquid; dollars = shares × price; sign matches the action; a SELL capped, with its gain. |
| EnginePrev.AppendPrevLegs | portfolio_trades/engine_prev.py:97-153 | The sleeve loop appends exactly the legs. |
| EnginePrev.BuildPrevRawTrades | portfolio_trades/engine_prev.py:70-153 | The account loop yields the raw trade list. |
| EnginePrev.BuildPrevTradesAndAfterHoldings | portfolio_trades/engine_prev.py:24-222 | The method yields the engine's trades and residuals, with after-holdings from the corrected once-per-key update. |
| EnginePrev.PrevTradeRows | portfolio_trades/engine_prev.py:161-172 | Each reported trade: group sums, BUY exactly for non-negative net shares, never illiquid. |
| EnginePrev.PrevResiduals | portfolio_trades/engine_prev.py:218-220 | With no cash balancing, the residuals are the accounts whose raw net exceeds the tolerance, with that net. |
| Ranking.KeyLtTransitive | tools/patch_engine_global.py:99-100 | Tuple order is transitive. |
| Ranking.KeyLtTotal | tools/patch_engine_global.py:99-100 | Tuple order is total. |
| Ranking.Sort | tools/patch_engine_global.py:100-121 | A stable sort by key: ordered, and a permutation of its input. |
| Ranking.SortedHead | tools/patch_engine_global.py:100-121 | The head is an input entry that no input entry sorts before. |
| Ranking.Collect | tools/patch_engine_global.py:103-120 | The entries yielded for the listed names, in order, each with its key; every yielding name appears. |
| GlobalPlanner.PlannerEnrich | tools/patch_engine_global.py:25-31 | TaxStatus assigned from the account name exactly when the column is absent or entirely missing; Sleeve computed exactly when the input has no Sleeve column; every other field kept. |
| GlobalPlanner.PlannerEnrichAsEngine | tools/patch_engine_global.py:25-31 | With no Sleeve column, the planner enriches as engine.py:79-84 does whenever the engine's all-empty test and the planner's all-missing test agree. |
| GlobalPlanner.PlannerKeepsEmptyStatuses | tools/patch_engine_global.py:25-26 | A present column of empty statuses is kept by the planner and replaced by assigned statuses in the engine. |
| GlobalPlanner.TaxRateExempt | tools/patch_engine_global.py:33-41 | ROTH IRA, HSA and "Roth Trust" pay 0. |
| GlobalPlanner.TaxRateForStatus | tools/patch_engine_global.py:33-41 | The corrected rate, reading the table: 0 for "hsa" or "roth", else the Trust entry, else the Taxable entry, else 0 (TaxRateExempt, TaxRateTrust, TaxRateTaxable, TaxRateForStatusIgnoresCase; TaxRates.CliMatchesPlanner ties it to cli.py). |
| GlobalPlanner.TaxRateTrust | tools/patch_engine_global.py:37-38 | Trust pays the table's 0.20. |
| GlobalPlanner.TaxRateTaxable | tools/patch_engine_global.py:39-40 | Taxable pays the table's 0.15. |
| GlobalPlanner.TaxRateForStatusIgnoresCase | tools/patch_engine_global.py:34 | The rate ignores the status's letter case. |
| GlobalPlanner.TaxRateForStatusAsWritten | tools/patch_engine_global.py:33-41 | As installed, the function fails (NameError: engine.py imports no `EST_TAX_RATE`) exactly when the lower-cased status contains "trust" or "taxable" but neither "hsa" nor "roth". |
| GlobalPlanner.TaxRateAsWrittenAgrees | tools/patch_engine_global.py:33-41 | Where the installed function returns, it returns 0, the corrected rate for every table; where it fails, the corrected rate is the table's Trust or Taxable entry. |
| GlobalPlanner.TaxRateAsWrittenOnStatuses | tools/patch_engine_global.py:33-41 | Trust and the default Taxable make the installed function fail; ROTH IRA and HSA give 0. |
| GlobalPlanner.RaisingStatus | tools/patch_engine_global.py:33-41 | Among the engine's four statuses, exactly Trust and Taxable make it fail. |
| GlobalPlanner.InvestableTotal | tools/patch_engine_global.py:43-46 | Never negative; the portfolio value less its Automattic value whenever that is positive. |
| GlobalPlanner.GlobalZeroWeights | tools/patch_engine_global.py:48-61 | With all tradable weights 0, each sleeve is sold down fully. |
| GlobalPlanner.Distinct | tools/patch_engine_global.py:61 | The distinct entries in first-appearance order. |
| GlobalPlanner.PlanSleeves | tools/patch_engine_global.py:124-126 | Exactly the tradable sleeves, each once; never the illiquid one. |
| GlobalPlanner.GlobalCanon | tools/patch_engine_global.py:74-82 | A held sleeve: its largest identifier across accounts. Otherwise its proxy. |
| GlobalPlanner.PlanIdent | tools/patch_engine_global.py:132 | The account's canonical identifier, else the sleeve's global one. |
| GlobalPlanner.CurTableGet | tools/patch_engine_global.py:88-90 | `cur_val_acct_sleeve.get((a, s), 0.0)` is the account's value in the sleeve. |
| GlobalPlanner.BuyKey | tools/patch_engine_global.py:94-99 | A four-part key. |
| GlobalPlanner.BuySorted | tools/patch_engine_global.py:94-100 | The accounts sorted by the buy key, ordered. |
| GlobalPlanner.BuySortedEntry | tools/patch_engine_global.py:94-100 | Each entry of the buy order is an account of the holdings with its own key. |
| GlobalPlanner.BuyTrade | tools/patch_engine_global.py:132-154 | None without an identifier, at a non-positive price, or at zero shares. Else a BUY of the whole delta at the identifier's price. |
| GlobalPlanner.BuyAt | tools/patch_engine_global.py:138-154 | A BUY row of positive shares, no gain, dollars within half a share step. |
| GlobalPlanner.FirstUsable | tools/patch_engine_global.py:131-140 | The first position of the buy order whose account can take the BUY. |
| GlobalPlanner.BuyChoice | tools/patch_engine_global.py:130-157 | The first usable account of the buy order, if any. |
| GlobalPlanner.BuyRows | tools/patch_engine_global.py:130-157 | A positive delta gives at most one BUY, in the chosen account. |
| GlobalPlanner.BuyGoesToBest | tools/patch_engine_global.py:130-157 | The BUY goes to a usable account that no usable account precedes, and there is one whenever some account is usable. |
| GlobalPlanner.BuyPosition | tools/patch_engine_global.py:92-100 | Every account has a place in the buy order. |
| GlobalPlanner.SellCandidate | tools/patch_engine_global.py:104-120 | None unless the account holds positive value, has an identifier with rows and a positive price, and holds positive quantity. Else its entry. |
| GlobalPlanner.SellKey | tools/patch_engine_global.py:121 | A three-part key: tax rate, per-share gain, minus held value. |
| GlobalPlanner.Candidates | tools/patch_engine_global.py:103-120 | The accounts' seller entries, in account order. |
| GlobalPlanner.SellSorted | tools/patch_engine_global.py:121 | The seller entries sorted by key. |
| GlobalPlanner.SellOrderEntry | tools/patch_engine_global.py:102-122 | Each sell-order entry is its account's seller entry. |
| GlobalPlanner.SellOrder | tools/patch_engine_global.py:102-122 | The sell order: SellOrderEntry, SellOrderComplete and SellOrderRanked prove it holds exactly the seller entries, ascending by rate, per-share gain, −held value, then account. |
| GlobalPlanner.SellOrderComplete | tools/patch_engine_global.py:102-122 | Every account with a seller entry is in the sell order. |
| GlobalPlanner.SellOrderRanked | tools/patch_engine_global.py:121 | The sell order ascends by tax rate, then gain, then held value descending, then name. |
| GlobalPlanner.SellShares | tools/patch_engine_global.py:165-168 | A non-positive count no larger in size than the quantity held. |
| GlobalPlanner.SellSharesDollars | tools/patch_engine_global.py:165-168 | The SELL's dollars are non-positive and no larger in size than the need, up to half a share step. |
| GlobalPlanner.SellRow | tools/patch_engine_global.py:169-183 | No row for 0 shares; else a SELL row with the gain over the average cost. |
| GlobalPlanner.SellLegDollars | tools/patch_engine_global.py:165-185 | A SELL brings in dollars, no more than the need or the held value allow, up to half a share step. |
| GlobalPlanner.FillOk | tools/patch_engine_global.py:162-185 | A property of every candidate's trade holds of every trade of the greedy loop. |
| GlobalPlanner.FillBound | tools/patch_engine_global.py:162-185 | The greedy loop stops once the need is met: each SELL but the last leaves some need, the last overshoots by at most its slack. |
| GlobalPlanner.SellRowOk | tools/patch_engine_global.py:169-183 | A SELL row of a seller entry is a planner SELL. |
| GlobalPlanner.SellLoopOk | tools/patch_engine_global.py:160-185 | Every row of the sell loop is a planner SELL. |
| GlobalPlanner.SellLoopBound | tools/patch_engine_global.py:160-185 | The sell loop's stop: the last SELL overshoots the need by at most half a share step. |
| GlobalPlanner.SellLegBound | tools/patch_engine_global.py:165-185 | One SELL brings in dollars, at most the need plus half a share step. |
| GlobalPlanner.DeltaRowsOk | tools/patch_engine_global.py:124-185 | Rows are in the sleeve and of an account. A positive delta gives the BUY of the whole delta, a negative one SELLs. No rows below one dollar or for the illiquid sleeve. |
| GlobalPlanner.DeltaRowsSize | tools/patch_engine_global.py:124-185 | At most one BUY; SELLs until the need is met. |
| GlobalPlanner.DeltaRowsAgree | tools/patch_engine_global.py:124-185 | A sleeve's rows depend only on that sleeve's current values. |
| GlobalPlanner.CreditOff | tools/patch_engine_global.py:155-184 | Crediting one sleeve's rows leaves every other sleeve's values alone. |
| GlobalPlanner.PlanOverFixed | tools/patch_engine_global.py:124-185 | The in-loop updates never change a later sleeve's rows: the loop equals computing every sleeve from the start values. |
| GlobalPlanner.PlanRowsOk | tools/patch_engine_global.py:124-185 | Each planner row is a row of a tradable sleeve. |
| GlobalPlanner.PlanRowFacts | tools/patch_engine_global.py:124-185 | Every planner row: an account of the holdings; a tradable sleeve with delta of at least a dollar; BUY of a positive delta or SELL of a negative one. |
| GlobalPlanner.FlowAccounts | tools/patch_engine_global.py:190-201 | `groupby("Account")` keys of the trades: strictly ascending, exactly the traded accounts. |
| GlobalPlanner.FirstCashlike | tools/patch_engine_global.py:193-197 | A cash-like identifier of the account with no cash-like row before it; none when no row is cash-like. |
| GlobalPlanner.PickCashIdent | tools/patch_engine_global.py:193-198 | The first cash-like identifier, else BIL. |
| GlobalPlanner.CashRow | tools/patch_engine_global.py:201-221 | None within the tolerance or at a non-positive price. Else a Cash trade in the picked identifier, no cost or gain, offsetting the flow within half a share step. |
| GlobalPlanner.CashRowAt | tools/patch_engine_global.py:206-221 | The offsetting row for a net in an identifier. |
| GlobalPlanner.CashOverNet | tools/patch_engine_global.py:200-221 | Over distinct accounts, an account's cash dollars are its own cash row's. |
| GlobalPlanner.WithCashNet | tools/patch_engine_global.py:189-223 | An account's raw flow is its sleeve flow plus its cash row. |
| GlobalPlanner.CashBalanced | tools/patch_engine_global.py:189-223 | The flow is then within the tolerance or half a share step, unless the cash price is not positive. |
| GlobalPlanner.CashRowDollars | tools/patch_engine_global.py:201-221 | The cash row's dollars: none within tolerance or at a bad price, else offsetting within half a step. |
| GlobalPlanner.WithCashOk | tools/patch_engine_global.py:124-223 | Every raw trade is a planner row or a traded account's cash row; never illiquid. |
| GlobalPlanner.WithCashTradeRows | tools/patch_engine_global.py:229-237 | Each reported trade: group sums, BUY exactly for non-negative net, account of the holdings, never illiquid. |
| GlobalPlanner.WithCashResiduals | tools/patch_engine_global.py:268-269 | Residuals: the accounts over the tolerance with their flow, bounded as CashBalanced says. |
| GlobalPlanner.GlobalTradeRows | tools/patch_engine_global.py:229-237 | The planner's reported trades, as above. |
| GlobalPlanner.GlobalBuild | tools/patch_engine_global.py:9-271 | The planner's outcome with a supplied rate table: GlobalTradeRows, GlobalRawOk and GlobalResiduals state its trades and residuals; BuildGlobalTradesAndAfterHoldings computes it. |
| GlobalPlanner.GlobalBuildAsWritten | tools/patch_engine_global.py:63 | The planner as installed: None when some account's first status makes `tax_rate_for_status` fail (PlannerFailsExactly), otherwise the outcome, whose rates are all 0 (AsWrittenRatesUnused). |
| GlobalPlanner.PlannerRaises | tools/patch_engine_global.py:63 | Line 63's map over first statuses fails; StatusesRaise and AssignedStatusRaises say exactly when. |
| GlobalPlanner.GlobalRawOk | tools/patch_engine_global.py:124-223 | Every raw trade is a sleeve row or a cash row. |
| GlobalPlanner.GlobalResiduals | tools/patch_engine_global.py:268-269 | The planner's residuals, within half a share step of a positive cash price. |
| GlobalPlanner.AccountHasRows | tools/patch_engine_global.py:212 | Every traded account has rows, so the `assign_tax_status` fallback is never taken. |
| GlobalPlanner.BuySleeve | tools/patch_engine_global.py:130-157 | The BUY branch yields BuyRows and credits them to the current values. |
| GlobalPlanner.BuyWalk | tools/patch_engine_global.py:131-157 | The BUY loop over an order yields the buy from its first usable account. |
| GlobalPlanner.SellSleeve | tools/patch_engine_global.py:159-185 | The SELL branch yields the sell loop over the sell order and credits it. |
| GlobalPlanner.SellWalk | tools/patch_engine_global.py:162-185 | The SELL loop over a seller order. |
| GlobalPlanner.FillWalk | tools/patch_engine_global.py:162-185 | The greedy loop yields the greedy fill and credits every row. |
| GlobalPlanner.DeltaStep | tools/patch_engine_global.py:124-185 | One sleeve's turn yields DeltaRows and credits them. |
| GlobalPlanner.PlanAll | tools/patch_engine_global.py:124-185 | The sleeve loop with its in-place value table yields the planner rows. |
| GlobalPlanner.PickCash | tools/patch_engine_global.py:193-198 | The loop returns PickCashIdent. |
| GlobalPlanner.CashStep | tools/patch_engine_global.py:189-223 | The cash loop yields the cash rows. |
| GlobalPlanner.GlobalRawTrades | tools/patch_engine_global.py:124-223 | The sleeve loop then, when it traded, the cash loop yields the raw trade list. |
| GlobalPlanner.BuildGlobalTradesAndAfterHoldings | tools/patch_engine_global.py:9-271 | The method yields the planner's trades and residuals, with after-holdings from the corrected once-per-key update and the conventions rate table supplied. |
| GlobalPlanner.PlannerFailsExactly | tools/patch_engine_global.py:63 | When the planner assigns the statuses, the installed planner fails exactly when some account is assigned Trust or Taxable, the default. |
| GlobalPlanner.AssignedStatusRaises | tools/patch_engine_global.py:63 | Some account's first assigned status fails exactly when some row's account is assigned Trust or Taxable. |
| GlobalPlanner.StatusesRaise | tools/patch_engine_global.py:63 | With one engine status per account, the map over first statuses fails exactly when some row is Trust or Taxable. |
| GlobalPlanner.AsWrittenRatesUnused | tools/patch_engine_global.py:33-63 | When the installed planner does not fail, every account's rate is 0, whatever the table. |
| ConsolidationPass.PutFind | tools/apply_consolidation_patch.py:63-64 | After `d[k] = v`, `k` maps to `v` and no other key changes. |
| ConsolidationPass.PutKeys | tools/apply_consolidation_patch.py:63-64 | The keys are unchanged for a present key; a new key is appended. |
| ConsolidationPass.RecordDelta | tools/apply_consolidation_patch.py:60-64 | Recording sets exactly the (sleeve, account) entry, except for the illiquid sleeve. |
| ConsolidationPass.RecordKeys | tools/apply_consolidation_patch.py:60-64 | Recording keeps keys distinct and never adds the illiquid sleeve. |
| ConsolidationPass.RecordSleevesDelta | tools/apply_consolidation_patch.py:60-64 | After an account's sleeve loop its entries are its non-illiquid sleeve deltas; all else unchanged. |
| ConsolidationPass.AccumulateDelta | tools/apply_consolidation_patch.py:56-65 | `___acct_deltas` holds exactly each reached account's delta for each non-illiquid sleeve, and nothing else. |
| ConsolidationPass.AccumulateKeys | tools/apply_consolidation_patch.py:56-65 | Distinct sleeves, distinct accounts per sleeve, never the illiquid sleeve. |
| ConsolidationPass.SellFor | tools/apply_consolidation_patch.py:127-162 | None for a non-negative delta, no identifier, a bad price or no held shares. Else the capped SELL. |
| ConsolidationPass.CappedSell | tools/apply_consolidation_patch.py:140-162 | The capped SELL row with its gain, none for zero shares. |
| ConsolidationPass.SellForOk | tools/apply_consolidation_patch.py:127-162 | A SELL only from a negative delta; a pass SELL selling at most the delta up to half a share step. |
| ConsolidationPass.SellPassOk | tools/apply_consolidation_patch.py:125-162 | Every PASS 1 row is a pass SELL of a recorded negative delta of its account and sleeve. |
| ConsolidationPass.SellPassSells | tools/apply_consolidation_patch.py:125-162 | PASS 1 yields only SELLs. |
| ConsolidationPass.RothOrHsaStatus | tools/apply_consolidation_patch.py:99-106 | The Roth/HSA group is exactly the accounts assigned ROTH IRA or HSA. |
| ConsolidationPass.PrefKey | tools/apply_consolidation_patch.py:108-109 | The negated (sleeve dollars, total) key, so the stable ascending sort puts the largest first. |
| ConsolidationPass.GroupFacts | tools/apply_consolidation_patch.py:97-106 | Each group holds each of its accounts once with its key, and only those. |
| ConsolidationPass.PreferredFacts | tools/apply_consolidation_patch.py:89-115 | Some exactly when there is an account. Roth/HSA whenever one exists. No group member ranks higher. |
| ConsolidationPass.Preferred | tools/apply_consolidation_patch.py:89-115 | `_preferred_acct_for_sleeve`: PreferredFacts proves it is Some exactly when there is an account, Roth/HSA whenever one exists, with no member of its group ranking higher. |
| ConsolidationPass.TotalBuy | tools/apply_consolidation_patch.py:166 | The sum of the positive deltas: never negative. |
| ConsolidationPass.TotalBuyNotNetted | tools/apply_consolidation_patch.py:166 | The pooled BUY is never below the net delta or any single positive delta; it equals the net exactly when no delta is negative. |
| ConsolidationPass.BuyFor | tools/apply_consolidation_patch.py:165-199 | None without positive deltas, a preferred account, an identifier, a positive price or non-zero shares. Else the pooled BUY in the preferred account. |
| ConsolidationPass.BuyRow | tools/apply_consolidation_patch.py:178-199 | The BUY row of the rounded total; none for zero shares. |
| ConsolidationPass.PooledBuyOk | tools/apply_consolidation_patch.py:172-199 | A pooled BUY buys its total up to half a share step. |
| ConsolidationPass.BuyForOk | tools/apply_consolidation_patch.py:165-199 | The pooled BUY is in the preferred account and buys the sum of the positive deltas. |
| ConsolidationPass.BuyPassOk | tools/apply_consolidation_patch.py:164-199 | Every PASS 2 row is a recorded sleeve's pooled BUY in its preferred account. |
| ConsolidationPass.BuyPassOnePerSleeve | tools/apply_consolidation_patch.py:164-199 | PASS 2 gives each sleeve at most one BUY. |
| ConsolidationPass.PassTradesOk | tools/apply_consolidation_patch.py:125-199 | Every trade is a pass SELL of a negative delta or a pooled BUY; never illiquid. |
| ConsolidationPass.PassTrades | tools/apply_consolidation_patch.py:125-199 | PASS 1 then PASS 2 over the accumulated deltas: PassTradesOk, PassOneBuyPerSleeve and TotalBuyNotNetted state its rows. |
| ConsolidationPass.PassOneBuyPerSleeve | tools/apply_consolidation_patch.py:164-199 | Each sleeve gets at most one BUY from the pass. |
| ConsolidationPass.PatchedTradeRows | tools/apply_consolidation_patch.py:74-80 | Each reported trade carries group sums, BUY exactly for non-negative net, never illiquid. |
| ConsolidationPass.PatchedBuild | tools/apply_consolidation_patch_v2.py:62-211 | The engine with the pass where both tools aim it, before the trade table: PatchedTradeRows and PatchedResiduals state its trades and residuals; not what `_v2` installs (see InstalledBuild). |
| ConsolidationPass.PatchedResiduals | tools/apply_consolidation_patch.py:45-72 | With the cash leg cut out, the residuals are the accounts whose net exceeds the tolerance, with that net. |
| ConsolidationPass.AccumulateDeltas | tools/apply_consolidation_patch.py:56-65 | The accumulation loop yields Accumulate. |
| ConsolidationPass.RecordSleevesLoop | tools/apply_consolidation_patch.py:60-64 | One reached account's sleeve loop yields RecordSleeves on the deltas so far. |
| ConsolidationPass.SplitGroups | tools/apply_consolidation_patch.py:97-106 | The split loop yields the two groups. |
| ConsolidationPass.PreferredAccount | tools/apply_consolidation_patch.py:89-115 | The method yields Preferred. |
| ConsolidationPass.SellLoop | tools/apply_consolidation_patch.py:125-162 | PASS 1 as a loop yields SellPass. |
| ConsolidationPass.SumPositive | tools/apply_consolidation_patch.py:166 | The loop yields TotalBuy. |
| ConsolidationPass.BuyStep | tools/apply_consolidation_patch.py:166-199 | One sleeve of PASS 2 yields BuyFor with the preferred account. |
| ConsolidationPass.BuyLoop | tools/apply_consolidation_patch.py:164-199 | PASS 2 as a loop appends BuyPass. |
| ConsolidationPass.BuildConsolidatedTradesAndAfterHoldings | tools/apply_consolidation_patch_v2.py:62-211 | The engine with the pass where both tools aim it yields PatchedBuild: its trades and residuals, with after-holdings from the corrected once-per-key update. `_v2` actually installs InstalledBuild. |
| ConsolidationPass.InstalledBuild | tools/apply_consolidation_patch_v2.py:84-94 | The engine `_v2` leaves behind: its dedent search finds no line below the loop's indent, so the pass follows the final `return` and the engine returns no trades, the enriched holdings and no residuals. |
| ConsolidationPass.BuildInstalledTradesAndAfterHoldings | tools/apply_consolidation_patch_v2.py:73-213 | The installed engine run as written yields no trades, the enriched holdings and no residuals, for every input. |
| ConsolidationPass.InstalledLosesPassTrades | tools/apply_consolidation_patch_v2.py:84-94 | Wherever the intended pass yields a trade, the intended engine reports trades and the installed one none. |
| Targets.CanonAcct | portfolio_trades/targets.py:6-8 | Keyed by exactly the held (account, sleeve) pairs; each value is a pair row's symbol whose summed value no other identifier of the pair exceeds. |
| Targets.GlobalCanonFrom | portfolio_trades/targets.py:9-14 | A held sleeve maps to its largest identifier across all accounts; an unheld one to its proxy, if any. |
| Targets.SleeveCanon | portfolio_trades/targets.py:10-12 | The loop maps exactly the held sleeves to their largest identifiers. |
| Targets.SetDefaults | portfolio_trades/targets.py:13-14 | `setdefault`: keys are the union; existing entries are kept; table entries fill only absent keys. |
| Targets.CanonGlobal | portfolio_trades/targets.py:9-14 | Keys are the held sleeves plus the proxy sleeves; every lookup is GlobalCanonFrom. |
| Targets.InvestableBySleeve | portfolio_trades/targets.py:23-24 | Never negative; the account value less its illiquid-sleeve value whenever that is positive. |
| Targets.IlliquidValueIsAutomattic | portfolio_trades/targets.py:23 | When the sleeve marks exactly the Automattic rows, the illiquid sleeve's sum is the Automattic sum. |
| Targets.InvestableAsEngine | portfolio_trades/targets.py:23-24 | On enriched holdings the investable total is the engines'. |
| Targets.DivBy | portfolio_trades/targets.py:26 | Same sleeves, each weight divided by `d`. |
| Targets.NormalisedSumsToOne | portfolio_trades/targets.py:25-26 | A positive tradable sum normalises to one. |
| Targets.NormWeights | portfolio_trades/targets.py:25-26 | `W_inv`: the tradable weights, divided by their sum when it is positive; NormalisedSumsToOne, TargetShare and TargetRaw state the result. |
| Targets.TargetOutsideZero | portfolio_trades/targets.py:27 | A sleeve outside the tradable weights has target 0. |
| Targets.TargetShare | portfolio_trades/targets.py:25-27 | With a positive tradable sum: weight / sum × investable. |
| Targets.TargetRaw | portfolio_trades/targets.py:26-27 | With a non-positive sum: raw weight × investable. |
| Targets.IlliquidTargetZero | portfolio_trades/targets.py:19-27 | The illiquid sleeve's target is 0, not its held value. |
| Targets.Valued | portfolio_trades/targets.py:27 | The listed sleeves, in order, each with its weight times `c`. |
| Targets.TargetSeriesIndex | portfolio_trades/targets.py:27 | The target index is the account's sleeve union. |
| Targets.TargetSeries | portfolio_trades/targets.py:22-27 | `tgt`: TargetSeriesIndex, TargetSeriesFacts and TargetSeriesEntry state its index and entries; TargetsAddUp and ZeroWeightsZeroTargets its totals. |
| Targets.TargetSeriesFacts | portfolio_trades/targets.py:27 | The index is ascending, without repeats, exactly the held and tradable sleeves. |
| Targets.TargetSeriesEntry | portfolio_trades/targets.py:27 | Every entry is its sleeve's target value. |
| Targets.PerAccountTargetValues | portfolio_trades/targets.py:18-29 | One entry per account in groupby order, each that account's target series. |
| Targets.ColSumCovers | portfolio_trades/targets.py:27 | Over distinct sleeves covering the index, the weights sum to their total. |
| Targets.TargetsAddUp | portfolio_trades/targets.py:24-27 | With distinct sleeves and a positive tradable sum, the targets add up to the investable total. |
| Targets.ZeroWeightsZeroTargets | portfolio_trades/targets.py:25-27 | All weights 0 gives all targets 0. |
| Trades.RoundSharesAsWritten | portfolio_trades/trades.py:6-10 | 0 at a non-positive price. Otherwise within half a step of the raw count dollars / price, which for a sell is first floored at −cap. |
| Trades.RoundSharesOversells | portfolio_trades/trades.py:9-10 | With 1.06 held, a $500 sell at $100 rounds to −1.1, beyond the cap. |
| Trades.RoundSharesAsWrittenBound | portfolio_trades/trades.py:6-10 | As written, a SELL of a non-positive delta is never positive and goes past the holding by at most half a step. |
| Trades.RoundSharesCapped | portfolio_trades/trades.py:6-10 | The corrected rounding: a sell is never below −cap, and within rounding of the dollars unless the cap binds. |
| Trades.RoundingsAgree | portfolio_trades/trades.py:6-10 | Both roundings agree where the cap does not bind. |
| Trades.WAvg | portfolio_trades/trades.py:17-20 | 0 when the quantities sum to 0; otherwise mean × quantity is the cost basis. |
| Trades.UniformCostBasis | portfolio_trades/trades.py:17-20 | Equal costs give a cost basis of cost × quantity. |
| Trades.WAvgOfEqualCosts | portfolio_trades/trades.py:17-20 | The mean of equal costs is that cost. |
| Trades.NotHeldIsZero | portfolio_trades/trades.py:15-22 | An unheld pair has quantity and mean cost 0. |
| Trades.WAvgAgainstEngine | portfolio_trades/trades.py:17-20 | For a positive quantity `_wavg` is the engine's average cost (engine.py:169-177). |
| Trades.AverageCosts | portfolio_trades/trades.py:16-22 | The loop's keys are the held pairs; every lookup is `_wavg`. |
| Trades.QtyTable | portfolio_trades/trades.py:15 | Keyed by the held pairs, each the group's summed quantity. |
| Trades.Ident | portfolio_trades/trades.py:31-33 | The owned identifier when non-empty, else `canon_global`'s. |
| Trades.Priced | portfolio_trades/trades.py:35-39 | The identifier's price, or the proxy and its price when that is positive and the first was not. |
| Trades.PricedSell | portfolio_trades/trades.py:35-47 | A positive price of the trading identifier is a valid SELL price. |
| Trades.SellRowOk | portfolio_trades/trades.py:47-55 | A SELL row of the owned identifier at a positive price is well formed. |
| Trades.SellShape | portfolio_trades/trades.py:43-56 | With the corrected rounding, a sell step that changes the book appends a covered SELL and lowers the tracked quantity by its shares. |
| Trades.BuyShape | portfolio_trades/trades.py:57-65 | A buy step that changes the book appends a BUY. |
| Trades.StepShape | portfolio_trades/trades.py:29-65 | With the corrected rounding, every step keeps the book, appends one BUY, or appends one covered SELL. |
| Trades.SkippedSleeves | portfolio_trades/trades.py:30-46 | No row for the illiquid sleeve, no identifier, no positive price, a delta under $5, or a sell with no owned identifier or tracked quantity. |
| Trades.AccountTracks | portfolio_trades/trades.py:29-65 | With the corrected rounding, the sleeve loop keeps the tracked quantity equal to held plus shares sold. |
| Trades.AccountRowsOk | portfolio_trades/trades.py:29-65 | The sleeve loop keeps earlier rows and appends well-formed rows of the account's sleeves. |
| Trades.AllRowsOk | portfolio_trades/trades.py:24-65 | Every row is well formed and from a listed account and one of its target sleeves. |
| Trades.TradeRows | portfolio_trades/trades.py:12-69 | build_trades' rows: AllRowsOk, NeverOversold, RowDollars and NoTargetsNoRows state them, and BuildTrades computes them. |
| Trades.AllTracks | portfolio_trades/trades.py:15-65 | With the corrected rounding, the account loop keeps the tracking from the grouped quantities. |
| Trades.NeverOversold | portfolio_trades/trades.py:45-56 | With the corrected rounding, the tracked quantity is held less sold, and no pair sells more than its positive holding. |
| Trades.RowDollars | portfolio_trades/trades.py:53-64 | Delta_$ is within half a cent of shares × price; a SELL's gain is the rounded gain over the mean cost. |
| Trades.NoTargetsNoRows | portfolio_trades/trades.py:24-69 | No targets give no rows. |
| Trades.SleeveTrade | portfolio_trades/trades.py:29-65 | One pass of the sleeve loop equals SleeveStep, whose SELL rounds with RoundSharesCapped. |
| Trades.SellTrade | portfolio_trades/trades.py:43-56 | The SELL branch equals SellStep, which rounds with RoundSharesCapped. |
| Trades.AccountTrades | portfolio_trades/trades.py:25-65 | The sleeve loop equals AccountSteps, the corrected steps. |
| Trades.BuildTrades | portfolio_trades/trades.py:12-69 | The method yields TradeRows, with the SELL counts of the corrected rounding. |
| ApplyTrades.Placeholder | portfolio_trades/apply.py:18-22 | Empty status, US_Core, identifier as name and symbol, zero quantity, price, cost and value. |
| ApplyTrades.NeededPlaceholders | portfolio_trades/apply.py:12-22 | One placeholder per new key, in first-trade order. |
| ApplyTrades.Placeholders | portfolio_trades/apply.py:12-23 | One placeholder per new key. |
| ApplyTrades.Shift | portfolio_trades/apply.py:28-34 | A zero delta leaves the row; otherwise quantity moves by it at the same price and Value is recomputed. |
| ApplyTrades.ShiftEveryRow | portfolio_trades/apply.py:25-36 | As written: every row moves by its key's delta. |
| ApplyTrades.ShiftOnce | portfolio_trades/apply.py:25-36 | Corrected: only a key's first row moves; all else unchanged. |
| ApplyTrades.ValueRecomputed | portfolio_trades/apply.py:38 | Only Value changes, to Quantity × Price; an already-valued row is unchanged. |
| ApplyTrades.Settle | portfolio_trades/apply.py:37-38 | Keeps exactly the rows above 1e-6, each valued at Q × P. |
| ApplyTrades.ApplyTradesToHoldings | portfolio_trades/apply.py:3-39 | No trades: the holdings. Otherwise the corrected once-per-key update, with rows above the threshold, valued at Q × P. |
| ApplyTrades.ShiftOnceAsEngine | portfolio_trades/apply.py:25-36 | The shift moves quantities as the engines' update does. |
| ApplyTrades.ShiftEveryRowAsEngine | portfolio_trades/apply.py:25-36 | The as-written shift moves quantities as the engines' as-written update. |
| ApplyTrades.PlaceholdersEmpty | portfolio_trades/apply.py:20 | The placeholders hold no shares. |
| ApplyTrades.TradedKeyHeld | portfolio_trades/apply.py:12-23 | Every traded key is held by a row or a placeholder. |
| ApplyTrades.TradedKeyTotal | portfolio_trades/apply.py:8-36 | Before the filter, a traded key's quantity is held plus its summed delta. |
| ApplyTrades.UntradedRowKept | portfolio_trades/apply.py:28-34 | A row of an untraded key is kept. |
| ApplyTrades.ZeroDeltasKeepHoldings | portfolio_trades/apply.py:25-38 | All-zero deltas: the result is Settle of the holdings. |
| ApplyTrades.ZeroDeltasKeepValues | portfolio_trades/apply.py:25-38 | All-zero deltas keep every valued row as it is. |
| ApplyTrades.ApplyDoubleCount | portfolio_trades/apply.py:25-36 | Two lots of 10 and a SELL of 15 end at −10 as written, and at 5 applied once. |
| ApplyTrades.EveryRowTotal | portfolio_trades/apply.py:25-36 | As written, a key moves by its delta once per row. |
| Mapping.OrEmpty | portfolio_trades/mapping.py:5-18 | `(x or "")`: the string, or "" when missing. |
| Mapping.IsAutomatticEither | portfolio_trades/mapping.py:4-6 | The marker is in the joined text exactly when it is in the upper symbol or upper name. |
| Mapping.IsAutomattic | portfolio_trades/mapping.py:4-6 | The marker in the upper symbol, a space and the upper name: IsAutomatticEither, ConventionsMarkerIsMarker and MarkerInsideSymbol relate it to the engine's test. |
| Mapping.ConventionsMarkerIsMarker | portfolio_trades/mapping.py:4-6 | Whatever conventions.is_automattic accepts, this accepts. |
| Mapping.MarkerInsideSymbol | portfolio_trades/mapping.py:4-6 | A symbol merely containing the marker is illiquid here, not for the engine. |
| Mapping.MapSleeve | portfolio_trades/mapping.py:8-15 | Illiquid for the marker; else the table, keywords, US_Core. |
| Mapping.MapSleeveMatchesEngine | portfolio_trades/mapping.py:8-15 | Agrees with engine.map_sleeve where both Automattic tests agree. |
| Mapping.EngineIlliquidIsIlliquid | portfolio_trades/mapping.py:11 | Engine-illiquid is illiquid here. |
| Mapping.MapSleeveIgnoresCase | portfolio_trades/mapping.py:9-10 | The sleeve ignores letter case. |
| Mapping.MapSleeveMissing | portfolio_trades/mapping.py:9-15 | Missing symbol and name give US_Core. |
| Mapping.AssignTaxStatus | portfolio_trades/mapping.py:17-21 | The status of the first matching rule, else Taxable; one of the four. |
| Mapping.AssignTaxStatusMissing | portfolio_trades/mapping.py:18-21 | A missing name is Taxable, as in the engine. |
| Mapping.IsCashlikeFacts | portfolio_trades/mapping.py:23-24 | Missing is not cash-like; otherwise the engine's answer, whatever the case. |
| Mapping.IsCashlike | portfolio_trades/mapping.py:23-24 | IsCashlikeFacts: missing is not cash-like; otherwise the engine's answer, whatever the case. |
| Sleeves.TableSleeve | portfolio_trades/sleeves.py:9-21 | The engine table's entry, or an extra symbol's. |
| Sleeves.FallbackProxyAsConventions | portfolio_trades/sleeves.py:26-31 | The proxy table is that of conventions.py. |
| Sleeves.ExtraSymbolsAreNew | portfolio_trades/sleeves.py:9-20 | The extra symbols are not in the engine table. |
| Sleeves.SleeveForIlliquid | portfolio_trades/sleeves.py:5-24 | Illiquid exactly when the upper name contains the marker or the upper symbol is it; no table entry names that sleeve. |
| Sleeves.SleeveFor | portfolio_trades/sleeves.py:5-24 | sleeve_for: SleeveForIlliquid, SleeveForMatchesEngine, CashSymbolDiffers, SleeveForMissing, SleeveForIgnoresCaseAndSpace and InflationBeatsTreasury state it. |
| Sleeves.TreasurIsTreas | portfolio_trades/sleeves.py:23 | TREASUR adds nothing to TREAS. |
| Sleeves.SleeveForMatchesEngine | portfolio_trades/sleeves.py:5-24 | Outside the extra symbols, sleeve_for decides as engine.map_sleeve. |
| Sleeves.CashSymbolDiffers | portfolio_trades/sleeves.py:19 | CASH is Cash here and US_Core for the engine. |
| Sleeves.SleeveForMissing | portfolio_trades/sleeves.py:6-24 | Missing symbol and name give US_Core. |
| Sleeves.SleeveForIgnoresCaseAndSpace | portfolio_trades/sleeves.py:6-7 | The sleeve ignores case and surrounding spaces. |
| Sleeves.InflationBeatsTreasury | portfolio_trades/sleeves.py:22-23 | INFLATION wins over treasury keywords. |
| TaxRates.TaxRateFor | portfolio_trades/tax.py:8-9 | The table's rate for an exact status, else 0.15. |
| TaxRates.TaxRateForIsConventions | portfolio_trades/tax.py:1-6 | The table is conventions.py's. |
| TaxRates.TaxRateForValues | portfolio_trades/tax.py:1-9 | HSA and ROTH IRA 0; Trust 0.20; Taxable 0.15; a differently cased or empty status 0.15. |
| TaxRates.KeywordRate | portfolio_trades/cli.py:33-38 | The rate is 0, 0.15 or 0.20. |
| TaxRates.CliTaxRate | portfolio_trades/cli.py:27-38 | `_tax_rate_from_status`: 0, 0.15 or 0.20 (KeywordRate); 0 when missing; blind to case and space; equal to the corrected planner rate (CliMatchesPlanner). |
| TaxRates.CliMatchesPlanner | portfolio_trades/cli.py:27-38 | `_tax_rate_from_status` equals the planner's rate under the conventions table. |
| TaxRates.CliTaxRateMissing | portfolio_trades/cli.py:31 | A missing or empty status pays 0. |
| TaxRates.CliTaxRateIgnoresCase | portfolio_trades/cli.py:31 | The rate ignores letter case. |
| TaxRates.CliTaxRateIgnoresSpace | portfolio_trades/cli.py:31 | The rate ignores surrounding spaces. |
| TaxRates.CliAgreesOnEngineStatuses | portfolio_trades/cli.py:27-38 | On the four engine statuses it agrees with tax.py. |
| TaxRates.CliRothTrust | portfolio_trades/cli.py:32-33 | "Roth Trust" pays 0. |
| TaxRates.CliDiffersFromTable | portfolio_trades/cli.py:27-38 | "Other" and "roth ira" pay 0 here and 0.15 in tax.py. |
| Summaries.TotalsOver | portfolio_trades/summarize.py:9-17 | Buys, sells, gain of the selected trades; tax = rate × gain. |
| Summaries.BuysLessSells | portfolio_trades/summarize.py:9-10 | Bought less sold dollars are the group's net dollars. |
| Summaries.StatusKeys | portfolio_trades/summarize.py:26 | Strictly ascending, exactly the trades' statuses. |
| Summaries.PairKeys | portfolio_trades/summarize.py:11 | Strictly ascending (account, status) pairs, exactly the trades'. |
| Summaries.ByTaxStatus | portfolio_trades/summarize.py:20-33 | One row per status key. |
| Summaries.PerAccount | portfolio_trades/summarize.py:5-18 | One row per pair key. |
| Summaries.SummarizeRate | portfolio_trades/summarize.py:17-32 | The table's rate, else 0.15. |
| Summaries.CliSummaries | portfolio_trades/cli.py:101-131 | No trades: none; else both summaries at the cli rate. |
| Summaries.ByTaxStatusRow | portfolio_trades/summarize.py:26-32 | A row is a trade's status with that status's totals at its rate. |
| Summaries.ByTaxStatusOrdered | portfolio_trades/summarize.py:26 | Rows ascend by status. |
| Summaries.ByTaxStatusComplete | portfolio_trades/summarize.py:26 | Every trade's status has its row. |
| Summaries.PerAccountRow | portfolio_trades/summarize.py:11-17 | A row is a trade's pair with that pair's totals at its rate. |
| Summaries.PerAccountOrdered | portfolio_trades/summarize.py:11 | Rows ascend by (account, status). |
| Summaries.PerAccountComplete | portfolio_trades/summarize.py:11 | Every trade's pair has its row. |
| Summaries.EmptySummaries | portfolio_trades/summarize.py:6-22 | No trades give empty summaries. |
| Summaries.NegativeTax | portfolio_trades/summarize.py:17-32 | A net loss at a positive rate is a negative tax. |
| Summaries.PartitionSum | portfolio_trades/summarize.py:11-16 | Over partitioning groups a column sums to its total. |
| Summaries.StatusesPartition | portfolio_trades/summarize.py:26 | The status groups partition the trades. |
| Summaries.PairsPartition | portfolio_trades/summarize.py:11 | The pair groups partition the trades. |
| Summaries.ByTaxStatusAddsUp | portfolio_trades/summarize.py:20-33 | Status rows' buys, sells and gain add up to all trades', at any rate. |
| Summaries.PerAccountAddsUp | portfolio_trades/summarize.py:5-18 | Account rows add up the same. |
| Summaries.CliMatchesSummarize | portfolio_trades/cli.py:101-131 | Same groups and totals as summarize.py; tax agrees on the table's statuses. |

## Left out

- Reading and writing files: loading holdings and targets (`io_utils.py`, `io_utils_prev.py`), the PDF report and fonts, argument parsing and printing in `cli.py`, and the tools that list URLs or anonymise holdings. They are I/O.
- The patching machinery of the three tools (regular-expression splicing, file backup, `py_compile`). Only the code they install is modelled. The two consolidation patches embed the same code, so one module models it. As written, the first patch cannot install it into this engine: its Step B anchor `\ntx\s*=` (tools/apply_consolidation_patch.py:75) needs `tx` at the start of a line, and engine.py:223 indents it, so the tool stops with its failure message. `_v2` does not look for that line: it places the pass after the line that ends the account loop, and finds none (see the third "## Findings" row).
- The median price per identifier (`price_map`). It is an input map, because a median of floats adds nothing to the properties proved.
- NaN, `np.isfinite` and `pd.to_numeric(errors="coerce")`: reals are finite. The finite-price guards become the positive-price guards they accompany.
- Floating-point arithmetic: sums, products and divisions are exact.
- Classify.RoundTo: Python's `round` rounds half to even on binary floats. The model rounds half up, and only the half-step error bound and the sign are proved.
- Trades.SellRow and Trades.BuyRow: trades.py:53-64 round Delta_$ and CapGain_$ to cents with `round(..., 2)`, half to even on floats. The model uses the half-up Numeric.Round, and Trades.RowDollars states only the half-cent bound.
- Regular-expression details beyond the alternatives that the tax-status rules use (`\b` word boundaries over ASCII word characters, substring, `.*` between two words).
- Non-ASCII letter case. Upper- and lower-casing are ASCII only.
- pandas sort stability and the row order of `groupby(...).apply`. Ties between identifiers of equal summed value go to the first in ascending order. Rows come out in input order.
- Consolidation.Consolidate: the groups come out in the order in which each group's first raw trade appears. engine.py:231's `groupby([...], as_index=False)` sorts them by account, identifier, status and sleeve. No contract states an order, and every pipeline reports its trades in first-occurrence order.
- Projection.AfterHoldings: uses the corrected once-per-key update (ApplyDeltaOnce), the corrected half of the double-count finding. engine.py:291-295 adds the delta to every row of the key. That behaviour is Projection.AfterHoldingsAsWritten, with Projection.AfterHoldingsAsWrittenKeyTotal.
- Projection.AfterHoldingsKeyTotal: states held + delta under the corrected update. As written the total is held + rows × delta (Projection.AfterHoldingsAsWrittenKeyTotal).
- Engine.FinishTrades: its after-holdings are those of Projection.AfterHoldings, the corrected update.
- Engine.Finish: its after-holdings are Projection.AfterHoldings', the corrected once-per-key update, not engine.py:284-297's every-row update.
- Engine.Build: its after-holdings come from Engine.Finish, so they are the corrected once-per-key update, not engine.py:284-297's every-row update.
- Engine.FinishKeyTotal: states held + net shares under the corrected update. As written the total is held + rows × net shares (Engine.FinishKeyTotalAsWritten).
- Engine.BuildTradesAndAfterHoldings: its after-holdings use the corrected update, not engine.py:284-297's every-row update.
- EnginePrev.BuildPrevTradesAndAfterHoldings: its after-holdings use the corrected update, not engine_prev.py:200-213's every-row update.
- GlobalPlanner.BuildGlobalTradesAndAfterHoldings: its after-holdings use the corrected update, not patch_engine_global.py:262's every-row update.
- GlobalPlanner.GlobalBuild: its after-holdings are Projection.AfterHoldings', the corrected once-per-key update, not patch_engine_global.py:262's every-row update.
- GlobalPlanner.GlobalBuildAsWritten: its Some outcome is GlobalBuild's, so it models the missing import as written but its after-holdings are the corrected once-per-key update, not patch_engine_global.py:262's every-row update.
- GlobalPlanner.TaxRateForStatus: reads the rate table as if `EST_TAX_RATE` were imported, the corrected half of the missing-import finding. As installed, engine.py:10-17 imports no `EST_TAX_RATE`, so patch_engine_global.py:38 and :40 raise NameError (GlobalPlanner.TaxRateForStatusAsWritten).
- GlobalPlanner.BuildGlobalTradesAndAfterHoldings: it is given a rate table (Conventions.EstTaxRate) and always returns trades. As installed, the planner raises NameError at patch_engine_global.py:63 whenever an account's first status contains "trust" or "taxable" and neither "hsa" nor "roth" (GlobalPlanner.GlobalBuildAsWritten, GlobalPlanner.PlannerFailsExactly).
- ConsolidationPass.BuildConsolidatedTradesAndAfterHoldings: its after-holdings use the corrected update, not the every-row update that the patched engine keeps.
- ConsolidationPass.PatchedBuild: places the pass before the trade table, where both tools aim it, not after `return` where `_v2` appends it (see ConsolidationPass.InstalledBuild); its after-holdings are Projection.AfterHoldings', the corrected once-per-key update, not engine.py:284-297's every-row update.
- ConsolidationPass.BuildConsolidatedTradesAndAfterHoldings: runs the pass just before `tx = pd.DataFrame(trades)`, where both tools aim it (PatchedBuild). That is not what `_v2` installs: its search for the end of the account loop finds no line indented less than the loop, so the pass is appended after `return tx, after, residuals` and never runs. The installed engine returns no trades for every input (ConsolidationPass.InstalledBuild, ConsolidationPass.BuildInstalledTradesAndAfterHoldings).
- ApplyTrades.ApplyTradesToHoldings: returns Applied, the corrected once-per-key update (ShiftOnce). apply.py:30-31 shifts every row of the key. That is ApplyTrades.AppliedAsWritten, with ApplyTrades.EveryRowTotal and ApplyTrades.ApplyDoubleCount.
- Trades.BuildTrades: its SELL counts use RoundSharesCapped, the corrected half of the rounding finding. trades.py:47 rounds after the cap (RoundSharesAsWritten) and can sell up to half a share step past `have` (Trades.RoundSharesAsWrittenBound, Trades.RoundSharesOversells).
- Trades.SellTrade: rounds the SELL with RoundSharesCapped, not with trades.py:47's cap-then-round.
- Trades.TradeRows: its SELLs use RoundSharesCapped, not trades.py:47's cap-then-round, so it is the corrected half of the rounding finding.
- Trades.SleeveTrade: equals SleeveStep, whose SELL uses the corrected rounding.
- Trades.AccountTrades: the sleeve loop of the corrected steps.
- Trades.SellShape: "covered" (−have ≤ shares) holds for the corrected rounding. As written a SELL may go past `have` by half a step (Trades.RoundSharesAsWrittenBound).
- Trades.StepShape: its SELL case is covered only under the corrected rounding.
- Trades.AccountTracks: the tracked quantity stays non-negative only under the corrected rounding. As written it can fall below zero by up to half a step.
- Trades.AllTracks: the same non-negativity holds only under the corrected rounding.
- Trades.NeverOversold: proved of the corrected TradeRows. As written a pair can oversell by up to half a step per SELL (Trades.RoundSharesAsWrittenBound).
- Projection.NewKeys: placeholders are added in first-trade order. engine.py iterates a Python set, whose order is unspecified.
- ApplyTrades.NeededPlaceholders: placeholders are added in first-trade order. apply.py iterates a Python set, whose order is unspecified.
- The `"||"` key join and `split("||", 1)`. Keys are pairs in the model. The source mis-splits an account name containing `"||"`.
- ApplyTrades.Placeholder: the source leaves Cost missing (NaN) on placeholder rows; the model puts 0.
- ApplyTrades.ApplyTradesToHoldings: `apply(..., include_groups=False)` may drop the Account and `_ident` columns from the groups it returns, depending on the pandas version. The model keeps them.
- Trades.BuildTrades: its rows carry no TaxStatus column, so the model puts "" there. The commented-out cash nudge of trades.py:67-68 is not code.
- GlobalPlanner.PlannerEnrich: `pd.to_numeric` coercion and the `Value`/`Cost` defaults of patch_engine_global.py:17-23 are left out. Holdings rows always carry both fields. A status is a string, so NaN cannot be told from "" inside a row. The flag `statusGiven` says whether the column is absent or all missing, and a column that mixes missing and present statuses is outside the model.
- Required-column checks that exit the program (engine.py:74-77, patch_engine_global.py:12-15): rows in the model always have every column.
- `config.py` placeholders, and the test file `tests/test_engine_synth.py`.
- Concurrency: there is none in the source.

## Findings

| source | as written | input that shows it | evidently intended | confidence | as-written member | corrected member |
|---|---|---|---|---|---|---|
| portfolio_trades/engine.py:284-297 (also engine_prev.py:200-213, tools/patch_engine_global.py:262, portfolio_trades/apply.py:25-36) | The summed share delta of an (account, identifier) key is added to every row of that key. | An account holding two lots of 10 shares of X, and a SELL of 15 X: both lots drop to −5, so the position ends at −10 shares. | The key's position moves by its delta once, ending at 5 shares. | not executed | Projection.DoubleCountExample, Projection.AfterHoldingsAsWrittenKeyTotal, ApplyTrades.ApplyDoubleCount | Projection.ApplyDeltaOnceTotal, ApplyTrades.TradedKeyTotal |
| portfolio_trades/trades.py:9-10 | A SELL's raw share count is floored at −held and then rounded, so rounding can push it beyond the holding. | A delta of −$500 at price $100 with 1.06 shares held: the capped raw −1.06 rounds to −1.1 shares. | A SELL never sells more than the shares held: round, then cap. | not executed | Trades.RoundSharesOversells, Trades.RoundSharesAsWrittenBound | Trades.RoundSharesCapped, Trades.NeverOversold |
| tools/patch_engine_global.py:33-41 (with portfolio_trades/engine.py:10-17) | The installed `tax_rate_for_status` reads `EST_TAX_RATE`, which the engine module never imports, so its "trust" and "taxable" branches raise NameError; line 63 calls it for every account's first status before any trade is built. | Holdings with one account named "Brokerage" and no TaxStatus column: the account is assigned the default Taxable, and the planner stops with NameError. | Import `EST_TAX_RATE` from conventions, so Trust pays 0.20 and Taxable 0.15. | not executed | GlobalPlanner.TaxRateForStatusAsWritten, GlobalPlanner.TaxRateAsWrittenOnStatuses, GlobalPlanner.PlannerFailsExactly | GlobalPlanner.TaxRateTrust, GlobalPlanner.TaxRateTaxable, GlobalPlanner.TaxRateAsWrittenAgrees |
| tools/apply_consolidation_patch_v2.py:84-94 (with tools/apply_consolidation_patch_v2.py:213) | Step C takes the end of the account loop to be the first later line indented less than the loop. Every later line of the function is indented at least as deep, so the search falls back to the end of the file, and the pass is appended after `return tx, after, residuals`. Step B has already replaced the sleeve legs and the cash leg, so `trades` stays empty. | One account "A Roth" holding $1000 of SCHB and $1000 of VTV, with all weight on US_Core: the installed engine returns no trades, where the pass would SELL VTV and BUY SCHB. | The pass runs before the trade table is built, so SELLs stay in their accounts and each sleeve's positive deltas are pooled into one BUY. | not executed | ConsolidationPass.InstalledBuild, ConsolidationPass.BuildInstalledTradesAndAfterHoldings, ConsolidationPass.InstalledLosesPassTrades | ConsolidationPass.PatchedBuild, ConsolidationPass.PassTradesOk, ConsolidationPass.TotalBuyNotNetted |
