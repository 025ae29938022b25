/** The row classifiers of portfolio_trades/engine.py (`assign_tax_status`,
    `map_sleeve`, `_round_shares`) and the enrichment step that the engine
    applies to the holdings before sizing. engine_prev.py carries the same
    three helpers; they are modelled by these functions too. */
module Classify {
  import opened Text
  import opened Options
  import opened Numeric
  import opened Conventions
  import opened Portfolio

  /** `assign_tax_status`: None yields the default; otherwise the first rule
      whose pattern is found in the lower-cased name decides. */
  function AssignTaxStatus(acct: Option<string>): (r: string)
    ensures r in {"ROTH IRA", "HSA", "Trust", "Taxable"}
    ensures r == "ROTH IRA" <==> acct.Some? && RuleFound(TaxStatusRules[0], Lower(acct.value))
    ensures r == "HSA" <==> (acct.Some? && !RuleFound(TaxStatusRules[0], Lower(acct.value))
      && RuleFound(TaxStatusRules[1], Lower(acct.value)))
    ensures r == "Trust" <==> (acct.Some? && !RuleFound(TaxStatusRules[0], Lower(acct.value))
      && !RuleFound(TaxStatusRules[1], Lower(acct.value)) && HasWord(Lower(acct.value), "trust"))
    ensures r == DefaultTaxStatus <==> (acct.None?
      || forall i :: 0 <= i < |TaxStatusRules| ==> !RuleFound(TaxStatusRules[i], Lower(acct.value)))
  {
    match acct
    case None => DefaultTaxStatus
    case Some(a) =>
      var low := Lower(a);
      TrustRuleIsWordTrust(low);
      var m := FirstMatch(TaxStatusRules, low);
      if m.Some? then
        assert m.value in {"ROTH IRA", "HSA", "Trust"} by {
          var i :| 0 <= i < |TaxStatusRules| && RuleFound(TaxStatusRules[i], low)
            && TaxStatusRules[i].status == m.value && forall j :: 0 <= j < i ==> !RuleFound(TaxStatusRules[j], low);
        }
        m.value
      else DefaultTaxStatus
  }

  /** The tax status does not depend on the letter case of the account name. */
  lemma AssignTaxStatusIgnoresCase(a: string)
    ensures AssignTaxStatus(Some(Upper(a))) == AssignTaxStatus(Some(a))
    ensures AssignTaxStatus(Some(Lower(a))) == AssignTaxStatus(Some(a))
  {
    LowerOfUpper(a);
    LowerOfLower(a);
  }

  lemma {:induction false} StripIdempotent(s: string)
    ensures Strip(Strip(s)) == Strip(s)
  {
    var x := TrimLeft(s);
    var y := TrimRight(x);
    TrimRightPrefix(x);
    assert y != [] ==> y[0] == x[0];
    assert TrimLeft(y) == y;
  }

  /** Normalising the symbol and name first does not change the Automattic test. */
  lemma IsAutomatticNormalised(sym: string, name: string)
    ensures IsAutomattic(Strip(Upper(sym)), Strip(Upper(name))) == IsAutomattic(sym, name)
  {
    UpperStrip(sym);
    UpperStrip(name);
    UpperOfUpper(Strip(sym));
    UpperOfUpper(Strip(name));
    UpperStrip(Upper(sym));
    UpperStrip(Upper(name));
    StripIdempotent(Upper(sym));
    StripIdempotent(Upper(name));
  }

  predicate TreasuryWord(n: string) {
    Contains(n, "UST") || Contains(n, "TREAS") || Contains(n, "STRIP")
  }

  /** The decision of map_sleeve on the upper-cased, stripped symbol and name. */
  function SleeveOf(s: string, n: string): string {
    if IsAutomattic(s, n) then IlliquidSleeve
    else if s in MapToSleeve then MapToSleeve[s]
    else if Contains(n, "INFLATION") then "TIPS"
    else if TreasuryWord(n) then "Treasuries"
    else "US_Core"
  }

  /** engine.map_sleeve: the Automattic marker first, then the symbol table,
      then the INFLATION keyword, then the treasury keywords, else US_Core. */
  function MapSleeve(sym: string, name: string): (r: string)
    ensures r == IlliquidSleeve <==> IsAutomattic(sym, name)
    ensures !IsAutomattic(sym, name) && Strip(Upper(sym)) in MapToSleeve ==> r == MapToSleeve[Strip(Upper(sym))]
    ensures !IsAutomattic(sym, name) && Strip(Upper(sym)) !in MapToSleeve ==>
      r == (if Contains(Strip(Upper(name)), "INFLATION") then "TIPS"
            else if TreasuryWord(Strip(Upper(name))) then "Treasuries"
            else "US_Core")
  {
    IsAutomatticNormalised(sym, name);
    TableHasNoIlliquid();
    SleeveOf(Strip(Upper(sym)), Strip(Upper(name)))
  }

  /** The symbol table never names the illiquid sleeve. */
  lemma TableHasNoIlliquid()
    ensures forall s :: s in MapToSleeve ==> MapToSleeve[s] != IlliquidSleeve
  {
    assert forall s :: s in MapToSleeve ==> |MapToSleeve[s]| <= 14;
  }

  /** The sleeve ignores letter case and surrounding whitespace. */
  lemma MapSleeveIgnoresCaseAndSpace(sym: string, name: string)
    ensures MapSleeve(Lower(sym), Lower(name)) == MapSleeve(sym, name)
    ensures MapSleeve(" " + sym + " ", " " + name + " ") == MapSleeve(sym, name)
  {
    UpperOfLower(sym);
    UpperOfLower(name);
    UpperConcat(" ", sym);
    UpperConcat(" " + sym, " ");
    UpperConcat(" ", name);
    UpperConcat(" " + name, " ");
    assert Upper(" ") == " ";
    StripPadded(Upper(sym));
    StripPadded(Upper(name));
  }

  /** Two decimals for cash-like identifiers, one otherwise. */
  function PlacesFor(ident: string): Places {
    if IsCashlike(ident) then Hundredths else Tenths
  }

  /** A dollar amount in shares at a price, rounded to `k` decimals; 0 at a
      non-positive price. */
  function RoundTo(dollars: real, px: real, k: Places): (r: real)
    ensures px <= 0.0 ==> r == 0.0
    ensures px > 0.0 ==> Abs(r * px - dollars) <= px * HalfStep(k)
    ensures dollars >= 0.0 ==> r >= 0.0
    ensures dollars <= 0.0 ==> r <= 0.0
  {
    if px <= 0.0 then 0.0
    else
      DivSign(dollars, px);
      RoundSign(dollars / px, k);
      RoundedValueError(dollars, px, k);
      Round(dollars / px, k)
  }

  /** `sh` shares at `px` come within `hs` shares of `d` dollars. */
  predicate RoundedWithin(sh: real, px: real, d: real, hs: real) {
    Abs(sh * px - d) <= px * hs
  }

  /** RoundTo's bounds, with the dollar bound as RoundedWithin. */
  lemma RoundToWithin(d: real, px: real, k: Places)
    ensures px <= 0.0 ==> RoundTo(d, px, k) == 0.0
    ensures px > 0.0 ==> RoundedWithin(RoundTo(d, px, k), px, d, HalfStep(k))
    ensures d >= 0.0 ==> RoundTo(d, px, k) >= 0.0
    ensures d <= 0.0 ==> RoundTo(d, px, k) <= 0.0
  {
  }

  /** `_round_shares`: the share count for a dollar amount at a price, 0 at a
      non-positive price, else rounded to two decimals for a cash-like
      identifier and one otherwise. */
  function RoundShares(dollars: real, px: real, ident: string): (r: real)
    ensures px <= 0.0 ==> r == 0.0
    ensures px > 0.0 ==> Abs(r * px - dollars) <= px * HalfStep(PlacesFor(ident))
    ensures dollars >= 0.0 ==> r >= 0.0
    ensures dollars <= 0.0 ==> r <= 0.0
  {
    RoundTo(dollars, px, PlacesFor(ident))
  }

  /** The rounded share count is within half a step of the exact quotient:
      0.005 for a cash-like identifier, 0.05 otherwise. */
  lemma RoundSharesError(dollars: real, px: real, ident: string)
    requires px > 0.0
    ensures Abs(RoundShares(dollars, px, ident) - dollars / px) <= HalfStep(PlacesFor(ident))
    ensures IsCashlike(ident) ==> Abs(RoundShares(dollars, px, ident) - dollars / px) <= 0.005
    ensures !IsCashlike(ident) ==> Abs(RoundShares(dollars, px, ident) - dollars / px) <= 0.05
  {
    RoundError(dollars / px, PlacesFor(ident));
  }

  /** True when no row carries a tax status (the engine then assigns them all). */
  predicate NoStatuses(h: seq<Holding>) {
    forall k :: 0 <= k < |h| ==> h[k].taxStatus == ""
  }

  /** The engine's first step: the Sleeve column is always recomputed, the
      TaxStatus column is filled from the account name when it is entirely empty. */
  function Enrich(h: seq<Holding>): (df: seq<Holding>)
    ensures |df| == |h|
    ensures forall k :: 0 <= k < |h| ==>
      df[k] == h[k].(sleeve := MapSleeve(h[k].symbol, h[k].name),
                     taxStatus := if NoStatuses(h) then AssignTaxStatus(Some(h[k].account)) else h[k].taxStatus)
  {
    var fill := NoStatuses(h);
    seq(|h|, k requires 0 <= k < |h| =>
      h[k].(sleeve := MapSleeve(h[k].symbol, h[k].name),
            taxStatus := if fill then AssignTaxStatus(Some(h[k].account)) else h[k].taxStatus))
  }

  /** After enrichment a row is in the illiquid sleeve exactly when it is an Automattic holding. */
  lemma EnrichIlliquid(h: seq<Holding>, k: int)
    requires 0 <= k < |h|
    ensures Enrich(h)[k].sleeve == IlliquidSleeve <==> IsAutomattic(h[k].symbol, h[k].name)
    ensures Enrich(h)[k].symbol == h[k].symbol && Enrich(h)[k].name == h[k].name
      && Enrich(h)[k].account == h[k].account
  {
  }
}
