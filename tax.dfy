/** The two tax-rate lookups outside the engines: portfolio_trades/tax.py's
    exact-match table lookup, and portfolio_trades/cli.py's
    `_tax_rate_from_status`, which searches the lower-cased, stripped status
    for keywords. */
module TaxRates {
  import opened Text
  import opened Options
  import Conventions
  import Mapping
  import GlobalPlanner

  /** tax.EST_TAX_RATE. */
  const EstTaxRate: map<string, real> := map["HSA" := 0.00, "ROTH IRA" := 0.00, "Trust" := 0.20, "Taxable" := 0.15]

  /** tax.tax_rate_for: the table's rate for the exact status, else 0.15. */
  function TaxRateFor(status: string): (r: real)
    ensures status in EstTaxRate ==> r == EstTaxRate[status]
    ensures status !in EstTaxRate ==> r == 0.15
  {
    Get(EstTaxRate, status, 0.15)
  }

  /** tax.py's table is the one of portfolio_trades/conventions.py (also
      used by portfolio_trades/summarize.py), so both lookups agree. */
  lemma TaxRateForIsConventions(status: string)
    ensures TaxRateFor(status) == Get(Conventions.EstTaxRate, status, 0.15)
  {
    assert EstTaxRate == Conventions.EstTaxRate;
  }

  /** HSA and ROTH IRA are exempt, Trust pays 0.20, Taxable 0.15, and the
      match is exact: a differently cased status gets the 0.15 default. */
  lemma TaxRateForValues()
    ensures TaxRateFor("HSA") == 0.0 && TaxRateFor("ROTH IRA") == 0.0
    ensures TaxRateFor("Trust") == 0.20 && TaxRateFor("Taxable") == 0.15
    ensures TaxRateFor("roth ira") == 0.15 && TaxRateFor("hsa") == 0.15 && TaxRateFor("") == 0.15
  {
    assert "roth ira" !in EstTaxRate && "hsa" !in EstTaxRate && "" !in EstTaxRate;
  }

  /** `_tax_rate_from_status`: 0 when the lower-cased, stripped status holds
      "roth" or "hsa", else 0.20 for "trust", else 0.15 for "taxable", else
      0; a missing status is read as "". */
  function CliTaxRate(status: Option<string>): real {
    KeywordRate(Lower(Strip(Mapping.OrEmpty(status))))
  }

  /** The keyword search on the normalised status. */
  function KeywordRate(s: string): (r: real)
    ensures r == 0.0 || r == 0.15 || r == 0.20
  {
    if Contains(s, "roth") || Contains(s, "hsa") then 0.0
    else if Contains(s, "trust") then 0.20
    else if Contains(s, "taxable") then 0.15
    else 0.0
  }

  lemma KeywordsHaveNoSpace()
    ensures forall k :: 0 <= k < |"roth"| ==> !IsSpace("roth"[k])
    ensures forall k :: 0 <= k < |"hsa"| ==> !IsSpace("hsa"[k])
    ensures forall k :: 0 <= k < |"trust"| ==> !IsSpace("trust"[k])
    ensures forall k :: 0 <= k < |"taxable"| ==> !IsSpace("taxable"[k])
  {
  }

  /** Stripping changes nothing, since no keyword holds whitespace: the
      command-line rate is the rate of the planner of
      tools/patch_engine_global.py under the conventions table. */
  lemma CliMatchesPlanner(s: string)
    ensures CliTaxRate(Some(s)) == GlobalPlanner.TaxRateForStatus(Conventions.EstTaxRate, s)
  {
    LowerStrip(s);
    KeywordsHaveNoSpace();
    StripKeepsNeedle(Lower(s), "roth");
    StripKeepsNeedle(Lower(s), "hsa");
    StripKeepsNeedle(Lower(s), "trust");
    StripKeepsNeedle(Lower(s), "taxable");
    Conventions.TaxTables();
  }

  /** A missing or empty status pays nothing. */
  lemma CliTaxRateMissing()
    ensures CliTaxRate(None) == 0.0 && CliTaxRate(Some("")) == 0.0
  {
    assert Strip("") == "" && Lower("") == "";
  }

  /** The rate ignores letter case and surrounding whitespace. */
  lemma CliTaxRateIgnoresCase(s: string)
    ensures CliTaxRate(Some(Upper(s))) == CliTaxRate(Some(s))
    ensures CliTaxRate(Some(Lower(s))) == CliTaxRate(Some(s))
  {
    var n := Strip(s);
    assert Lower(Strip(Upper(s))) == Lower(n) by {
      Conventions.UpperStrip(s);
      LowerOfUpper(n);
    }
    assert Lower(Strip(Lower(s))) == Lower(n) by {
      LowerStrip(s);
      LowerOfLower(n);
    }
  }

  lemma CliTaxRateIgnoresSpace(s: string)
    ensures CliTaxRate(Some(" " + s + " ")) == CliTaxRate(Some(s))
  {
    Conventions.StripPadded(s);
  }

  /** On the four statuses the engines assign, the command-line rate is the
      table's. */
  lemma CliAgreesOnEngineStatuses(st: string)
    requires st in EstTaxRate
    ensures CliTaxRate(Some(st)) == TaxRateFor(st)
  {
    CliMatchesPlanner(st);
    assert st == "HSA" || st == "ROTH IRA" || st == "Trust" || st == "Taxable";
    if st == "Trust" {
      GlobalPlanner.TaxRateTrust();
    } else if st == "Taxable" {
      GlobalPlanner.TaxRateTaxable();
    } else {
      GlobalPlanner.TaxRateExempt(Conventions.EstTaxRate);
    }
  }

  /** "roth" is tested first, so a Roth trust pays nothing. */
  lemma CliRothTrust()
    ensures CliTaxRate(Some("Roth Trust")) == 0.0
  {
    CliMatchesPlanner("Roth Trust");
    GlobalPlanner.TaxRateExempt(Conventions.EstTaxRate);
  }

  lemma OtherHasNoKeyword()
    ensures Lower(Strip("Other")) == "other"
    ensures !Contains("other", "roth") && !Contains("other", "hsa")
    ensures !Contains("other", "trust") && !Contains("other", "taxable")
  {
    assert Strip("Other") == "Other";
    NoPairNoOccurrence("other", "roth");
    NoPairNoOccurrence("other", "hsa");
    NoPairNoOccurrence("other", "trust");
    NoPairNoOccurrence("other", "taxable");
  }

  lemma LowerRothIra()
    ensures Lower(Strip("roth ira")) == "roth ira" && Contains("roth ira", "roth")
  {
    assert Strip("roth ira") == "roth ira";
    assert OccursAt("roth ira", "roth", 0);
  }

  /** Elsewhere the two lookups part: an unknown status pays 0 on the command
      line and 0.15 in tax.py, and so does a lower-cased "roth ira". */
  lemma CliDiffersFromTable()
    ensures CliTaxRate(Some("Other")) == 0.0 && TaxRateFor("Other") == 0.15
    ensures CliTaxRate(Some("roth ira")) == 0.0 && TaxRateFor("roth ira") == 0.15
  {
    OtherHasNoKeyword();
    LowerRothIra();
    assert "Other" !in EstTaxRate && "roth ira" !in EstTaxRate;
  }
}
