/** The constant tables and the two symbol predicates in
    portfolio_trades/conventions.py. */
module Conventions {
  import opened Text
  import opened Options

  /** Per-account cash tolerance in dollars. */
  const DefaultCashTol: real := 100.0

  /** The sleeve of the illiquid Automattic position, which is never traded. */
  const IlliquidSleeve: string := "Illiquid_Automattic"

  /** The identifier bought for a sleeve that an account does not hold. */
  const FallbackProxy: map<string, string> := map[
    "US_Core" := "SCHB", "US_Value" := "VTV", "US_SmallValue" := "VBR", "US_Growth" := "IVW",
    "Intl_DM" := "VXUS", "EM" := "VWO", "Energy" := "XLE",
    "IG_Core" := "AGG", "Treasuries" := "IEF", "TIPS" := "TIP",
    "EM_USD" := "VWOB", "IG_Intl_Hedged" := "BNDX", "Cash" := "BIL"
  ]

  /** Direct symbol to sleeve table. */
  const MapToSleeve: map<string, string> := map[
    "IVW" := "US_Growth", "VOOG" := "US_Growth", "AMZN" := "US_Growth",
    "SCHB" := "US_Core", "DFAU" := "US_Core", "SCHM" := "US_Core",
    "SCHA" := "US_SmallValue", "VBR" := "US_SmallValue",
    "IUSV" := "US_Value", "VTV" := "US_Value", "VOOV" := "US_Value", "MGV" := "US_Value",
    "VXUS" := "Intl_DM", "VPL" := "Intl_DM", "FNDF" := "Intl_DM", "FNDC" := "Intl_DM",
    "VWO" := "EM", "EMXC" := "EM", "FNDE" := "EM", "TSM" := "EM",
    "XLE" := "Energy", "VDE" := "Energy",
    "AGG" := "IG_Core", "SCHZ" := "IG_Core",
    "VWOB" := "EM_USD", "BNDX" := "IG_Intl_Hedged",
    "SPAXX" := "Cash", "FDRXX" := "Cash", "VMFXX" := "Cash", "BIL" := "Cash"
  ]

  const TableSymbols: set<string> := {
    "IVW", "VOOG", "AMZN", "SCHB", "DFAU", "SCHM", "SCHA", "VBR",
    "IUSV", "VTV", "VOOV", "MGV", "VXUS", "VPL", "FNDF", "FNDC",
    "VWO", "EMXC", "FNDE", "TSM", "XLE", "VDE", "AGG", "SCHZ",
    "VWOB", "BNDX", "SPAXX", "FDRXX", "VMFXX", "BIL"}

  lemma TableKeys()
    ensures MapToSleeve.Keys == TableSymbols
  {
  }

  const CashSymbols: set<string> := {"SPAXX", "VMFXX", "FDRXX", "BIL", "CASH"}

  /** One alternative of a tax-status regular expression: `\bw\b`, a plain
      substring, or `\ba\b.*\bb\b`. */
  datatype Alt = Word(w: string) | Lit(lit: string) | WordThenWord(first: string, second: string)

  /** A tax-status rule: the alternatives of its pattern and the status it assigns. */
  datatype TaxRule = TaxRule(alts: seq<Alt>, status: string)

  /** The ordered rules; the first rule whose pattern is found in the
      lower-cased account name decides its tax status. */
  const TaxStatusRules: seq<TaxRule> := [
    TaxRule([Word("roth"), Word("roth ira"), Lit("vanguard roth"), Lit("schwab roth")], "ROTH IRA"),
    TaxRule([Word("hsa"), Lit("fidelity hsa")], "HSA"),
    TaxRule([WordThenWord("wing", "trust"), Word("trust")], "Trust")
  ]

  const DefaultTaxStatus: string := "Taxable"

  /** Flat estimated long-term capital-gains rate by tax status. */
  const EstTaxRate: map<string, real> := map["HSA" := 0.0, "ROTH IRA" := 0.0, "Trust" := 0.20, "Taxable" := 0.15]

  predicate AltFound(a: Alt, s: string) {
    match a
    case Word(w) => HasWord(s, w)
    case Lit(l) => Contains(s, l)
    case WordThenWord(x, y) => HasWordThenWord(s, x, y)
  }

  /** `re.search(pattern, s)` succeeds for a pattern made of these alternatives. */
  predicate RuleFound(r: TaxRule, s: string) {
    exists i | 0 <= i < |r.alts| :: AltFound(r.alts[i], s)
  }

  /** The status of the first rule found in `s`, if any. */
  function FirstMatch(rules: seq<TaxRule>, s: string): (r: Option<string>)
    ensures r.None? <==> forall i :: 0 <= i < |rules| ==> !RuleFound(rules[i], s)
    ensures r.Some? ==> exists i :: (0 <= i < |rules| && RuleFound(rules[i], s)
      && rules[i].status == r.value && forall j :: 0 <= j < i ==> !RuleFound(rules[j], s))
  {
    if rules == [] then None
    else if RuleFound(rules[0], s) then Some(rules[0].status)
    else
      var rest := FirstMatch(rules[1..], s);
      assert forall i :: 1 <= i < |rules| ==> rules[i] == rules[1..][i - 1];
      if rest.Some? then
        var k :| 0 <= k < |rules[1..]| && RuleFound(rules[1..][k], s)
          && rules[1..][k].status == rest.value && forall j :: 0 <= j < k ==> !RuleFound(rules[1..][j], s);
        assert RuleFound(rules[k + 1], s) && rules[k + 1].status == rest.value;
        rest
      else rest
  }

  /** conventions.is_cashlike: the upper-cased symbol is a money-market or cash symbol. */
  predicate IsCashlike(sym: string) {
    Upper(sym) in CashSymbols
  }

  /** conventions.is_automattic: the trimmed upper-cased name contains the
      marker, or the trimmed upper-cased symbol is the marker. */
  predicate IsAutomattic(sym: string, name: string) {
    Contains(Upper(Strip(name)), "AUTOMATTIC") || Upper(Strip(sym)) == "AUTOMATTIC"
  }

  /** The inverse of the proxy table (proxy identifier to sleeve), as the
      engines build it; it is a function because no two sleeves share a proxy. */
  const InvProxy: map<string, string> := map[
    "SCHB" := "US_Core", "VTV" := "US_Value", "VBR" := "US_SmallValue", "IVW" := "US_Growth",
    "VXUS" := "Intl_DM", "VWO" := "EM", "XLE" := "Energy",
    "AGG" := "IG_Core", "IEF" := "Treasuries", "TIP" := "TIPS",
    "VWOB" := "EM_USD", "BNDX" := "IG_Intl_Hedged", "BIL" := "Cash"
  ]

  // ----- properties of the tables -----

  /** No two sleeves have the same fallback proxy. */
  lemma ProxyInjective()
    ensures forall a, b :: a in FallbackProxy && b in FallbackProxy && a != b ==> FallbackProxy[a] != FallbackProxy[b]
  {
  }

  const ProxySleeves: set<string> := {
    "US_Core", "US_Value", "US_SmallValue", "US_Growth", "Intl_DM", "EM", "Energy",
    "IG_Core", "Treasuries", "TIPS", "EM_USD", "IG_Intl_Hedged", "Cash"}

  lemma ProxyKeys()
    ensures FallbackProxy.Keys == ProxySleeves
  {
  }

  lemma InvProxyCore()
    ensures InvProxy[FallbackProxy["US_Core"]] == "US_Core" && InvProxy[FallbackProxy["US_Value"]] == "US_Value"
    ensures FallbackProxy["US_Core"] in InvProxy && FallbackProxy["US_Value"] in InvProxy
  {
    assert FallbackProxy["US_Core"] == "SCHB" && FallbackProxy["US_Value"] == "VTV";
  }

  lemma InvProxyStyle()
    ensures InvProxy[FallbackProxy["US_SmallValue"]] == "US_SmallValue" && InvProxy[FallbackProxy["US_Growth"]] == "US_Growth"
    ensures FallbackProxy["US_SmallValue"] in InvProxy && FallbackProxy["US_Growth"] in InvProxy
  {
    assert FallbackProxy["US_SmallValue"] == "VBR" && FallbackProxy["US_Growth"] == "IVW";
  }

  lemma InvProxyGlobal()
    ensures InvProxy[FallbackProxy["Intl_DM"]] == "Intl_DM" && InvProxy[FallbackProxy["EM"]] == "EM" && InvProxy[FallbackProxy["Energy"]] == "Energy"
    ensures FallbackProxy["Intl_DM"] in InvProxy && FallbackProxy["EM"] in InvProxy && FallbackProxy["Energy"] in InvProxy
  {
    assert FallbackProxy["Intl_DM"] == "VXUS" && FallbackProxy["EM"] == "VWO" && FallbackProxy["Energy"] == "XLE";
    assert MapToSleeve["VXUS"] == "Intl_DM";
    assert MapToSleeve["VWO"] == "EM";
    assert MapToSleeve["XLE"] == "Energy";
  }

  lemma InvProxyBonds()
    ensures InvProxy[FallbackProxy["IG_Core"]] == "IG_Core" && InvProxy[FallbackProxy["Treasuries"]] == "Treasuries" && InvProxy[FallbackProxy["TIPS"]] == "TIPS"
    ensures FallbackProxy["IG_Core"] in InvProxy && FallbackProxy["Treasuries"] in InvProxy && FallbackProxy["TIPS"] in InvProxy
  {
    assert FallbackProxy["IG_Core"] == "AGG" && FallbackProxy["Treasuries"] == "IEF" && FallbackProxy["TIPS"] == "TIP";
  }

  lemma InvProxyOther()
    ensures InvProxy[FallbackProxy["EM_USD"]] == "EM_USD" && InvProxy[FallbackProxy["IG_Intl_Hedged"]] == "IG_Intl_Hedged" && InvProxy[FallbackProxy["Cash"]] == "Cash"
    ensures FallbackProxy["EM_USD"] in InvProxy && FallbackProxy["IG_Intl_Hedged"] in InvProxy && FallbackProxy["Cash"] in InvProxy
  {
    assert FallbackProxy["EM_USD"] == "VWOB" && FallbackProxy["IG_Intl_Hedged"] == "BNDX" && FallbackProxy["Cash"] == "BIL";
  }

  /** InvProxy is `{v: k for k, v in FALLBACK_PROXY.items()}`: it sends each
      proxy back to its sleeve. */
  lemma InvProxyInverts()
    ensures forall s :: s in FallbackProxy ==> FallbackProxy[s] in InvProxy && InvProxy[FallbackProxy[s]] == s
  {
    forall s | s in FallbackProxy
      ensures FallbackProxy[s] in InvProxy && InvProxy[FallbackProxy[s]] == s
    {
      ProxySleeveCases(s);
      if s == "US_Core" || s == "US_Value" {
        InvProxyCore();
      } else if s == "US_SmallValue" || s == "US_Growth" {
        InvProxyStyle();
      } else if s == "Intl_DM" || s == "EM" || s == "Energy" {
        InvProxyGlobal();
      } else if s == "IG_Core" || s == "Treasuries" || s == "TIPS" {
        InvProxyBonds();
      } else {
        InvProxyOther();
      }
    }
  }

  /** The sleeves of the proxy table, one by one. */
  lemma ProxySleeveCases(s: string)
    requires s in FallbackProxy
    ensures s == "US_Core" || s == "US_Value" || s == "US_SmallValue" || s == "US_Growth"
      || s == "Intl_DM" || s == "EM" || s == "Energy" || s == "IG_Core" || s == "Treasuries" || s == "TIPS"
      || s == "EM_USD" || s == "IG_Intl_Hedged" || s == "Cash"
  {
  }

  /** InvProxy knows no identifier other than the proxies. */
  lemma InvProxyKeys()
    ensures InvProxy.Keys == FallbackProxy.Values
  {
    ProxyKeys();
    forall v | v in FallbackProxy.Values ensures v in InvProxy {
      var s :| s in FallbackProxy && FallbackProxy[s] == v;
      assert s in ProxySleeves;
    }
    assert FallbackProxy["US_Core"] == "SCHB" && FallbackProxy["US_Value"] == "VTV";
  }

  /** Every proxy that the symbol table knows maps back to the sleeve it
      stands for, group by group; the Treasuries and TIPS proxies are not
      in the table. */
  lemma ProxiesMapBackCore()
    ensures MapToSleeve[FallbackProxy["US_Core"]] == "US_Core" && MapToSleeve[FallbackProxy["US_Value"]] == "US_Value"
  {
    assert FallbackProxy["US_Core"] == "SCHB" && FallbackProxy["US_Value"] == "VTV";
  }

  lemma ProxiesMapBackStyle()
    ensures MapToSleeve[FallbackProxy["US_SmallValue"]] == "US_SmallValue" && MapToSleeve[FallbackProxy["US_Growth"]] == "US_Growth"
  {
    assert FallbackProxy["US_SmallValue"] == "VBR" && FallbackProxy["US_Growth"] == "IVW";
    assert MapToSleeve["VBR"] == "US_SmallValue";
    assert MapToSleeve["IVW"] == "US_Growth";
  }

  lemma ProxiesMapBackGlobal()
    ensures MapToSleeve[FallbackProxy["Intl_DM"]] == "Intl_DM" && MapToSleeve[FallbackProxy["EM"]] == "EM" && MapToSleeve[FallbackProxy["Energy"]] == "Energy"
  {
    assert FallbackProxy["Intl_DM"] == "VXUS" && FallbackProxy["EM"] == "VWO" && FallbackProxy["Energy"] == "XLE";
    assert MapToSleeve["VXUS"] == "Intl_DM";
    assert MapToSleeve["VWO"] == "EM";
    assert MapToSleeve["XLE"] == "Energy";
  }

  lemma ProxiesMapBackIncome()
    ensures MapToSleeve[FallbackProxy["IG_Core"]] == "IG_Core" && MapToSleeve[FallbackProxy["EM_USD"]] == "EM_USD" && MapToSleeve[FallbackProxy["IG_Intl_Hedged"]] == "IG_Intl_Hedged" && MapToSleeve[FallbackProxy["Cash"]] == "Cash"
  {
    assert FallbackProxy["IG_Core"] == "AGG" && FallbackProxy["EM_USD"] == "VWOB" && FallbackProxy["IG_Intl_Hedged"] == "BNDX" && FallbackProxy["Cash"] == "BIL";
  }

  lemma ProxiesNotInTable()
    ensures FallbackProxy["Treasuries"] == "IEF" && FallbackProxy["TIPS"] == "TIP"
    ensures "IEF" !in MapToSleeve && "TIP" !in MapToSleeve
  {
  }

  lemma UpperFixesUpperCase(s: string)
    requires forall i :: 0 <= i < |s| ==> !('a' <= s[i] <= 'z')
    ensures Upper(s) == s
  {
  }

  /** Every symbol that the table sends to the Cash sleeve is cash-like. */
  lemma CashSleeveSymbolsAreCashlike()
    ensures forall sym :: sym in MapToSleeve && MapToSleeve[sym] == "Cash" ==> IsCashlike(sym)
  {
    forall sym | sym in MapToSleeve && MapToSleeve[sym] == "Cash" ensures IsCashlike(sym) {
      assert sym in CashSymbols;
      UpperFixesUpperCase(sym);
    }
  }

  /** The cash-like test ignores case. */
  lemma IsCashlikeIgnoresCase(sym: string)
    ensures IsCashlike(Lower(sym)) == IsCashlike(sym)
    ensures IsCashlike(Upper(sym)) == IsCashlike(sym)
  {
    UpperOfLower(sym);
    UpperOfUpper(sym);
  }

  /** The Automattic test ignores case and surrounding whitespace. */
  lemma IsAutomatticIgnoresCaseAndSpace(sym: string, name: string)
    ensures IsAutomattic(Lower(sym), Lower(name)) == IsAutomattic(sym, name)
    ensures IsAutomattic(" " + sym + " ", " " + name + " ") == IsAutomattic(sym, name)
  {
    UpperStrip(sym);
    UpperStrip(name);
    UpperStrip(Lower(sym));
    UpperStrip(Lower(name));
    UpperOfLower(sym);
    UpperOfLower(name);
    StripPadded(sym);
    StripPadded(name);
  }

  lemma UpperCharSpace(c: char)
    ensures IsSpace(UpperChar(c)) == IsSpace(c)
  {
  }

  lemma {:induction false} UpperTrimLeft(s: string)
    ensures Upper(TrimLeft(s)) == TrimLeft(Upper(s))
    decreases |s|
  {
    if s != [] {
      assert Upper(s)[1..] == Upper(s[1..]);
      UpperCharSpace(s[0]);
      assert Upper(s)[0] == UpperChar(s[0]);
      if IsSpace(s[0]) {
        UpperTrimLeft(s[1..]);
      }
    }
  }

  lemma {:induction false} UpperTrimRight(s: string)
    ensures Upper(TrimRight(s)) == TrimRight(Upper(s))
    decreases |s|
  {
    if s != [] {
      assert Upper(s)[..|s| - 1] == Upper(s[..|s| - 1]);
      UpperCharSpace(s[|s| - 1]);
      assert Upper(s)[|s| - 1] == UpperChar(s[|s| - 1]);
      if IsSpace(s[|s| - 1]) {
        UpperTrimRight(s[..|s| - 1]);
      }
    }
  }

  lemma UpperStrip(s: string)
    ensures Upper(Strip(s)) == Strip(Upper(s))
  {
    UpperTrimLeft(s);
    UpperTrimRight(TrimLeft(s));
  }

  lemma {:induction false} TrimRightPadded(s: string)
    ensures TrimRight(s + " ") == TrimRight(s)
  {
    assert (s + " ")[..|s|] == s;
  }

  lemma StripPadded(s: string)
    ensures Strip(" " + s + " ") == Strip(s)
  {
    assert (" " + s + " ")[1..] == s + " ";
    assert TrimLeft(" " + s + " ") == TrimLeft(s + " ");
    TrimLeftPadded(s);
    TrimRightPadded(TrimLeft(s));
  }

  /** Trimming the left of `s + " "` keeps the trailing space unless all of `s` is blank. */
  lemma {:induction false} TrimLeftPadded(s: string)
    ensures TrimRight(TrimLeft(s + " ")) == TrimRight(TrimLeft(s))
    decreases |s|
  {
    if s == [] {
      assert TrimLeft(" ") == TrimLeft([]) by { assert " "[1..] == []; }
    } else if IsSpace(s[0]) {
      assert (s + " ")[1..] == s[1..] + " ";
      TrimLeftPadded(s[1..]);
    } else {
      assert TrimLeft(s + " ") == s + " ";
      TrimRightPadded(s);
    }
  }

  /** The rules are tried in the order ROTH IRA, HSA, Trust; unmatched
      names are Taxable; Roth and HSA accounts carry no estimated tax. */
  lemma TaxTables()
    ensures |TaxStatusRules| == 3
    ensures TaxStatusRules[0].status == "ROTH IRA" && TaxStatusRules[1].status == "HSA"
      && TaxStatusRules[2].status == "Trust"
    ensures DefaultTaxStatus == "Taxable"
    ensures EstTaxRate.Keys == {"HSA", "ROTH IRA", "Trust", "Taxable"}
    ensures EstTaxRate["HSA"] == 0.0 && EstTaxRate["ROTH IRA"] == 0.0
      && EstTaxRate["Trust"] == 0.20 && EstTaxRate["Taxable"] == 0.15
  {
  }

  /** The `\bwing\b.*\btrust\b` alternative adds nothing to `\btrust\b`, so
      the Trust rule is exactly "the word trust occurs". */
  lemma TrustRuleIsWordTrust(s: string)
    ensures RuleFound(TaxStatusRules[2], s) <==> HasWord(s, "trust")
  {
    var r := TaxStatusRules[2];
    if RuleFound(r, s) {
      var i :| 0 <= i < |r.alts| && AltFound(r.alts[i], s);
      if i == 0 {
        var a, b :| 0 <= a <= |s| && 0 <= b <= |s| && WordAt(s, "wing", a) && WordAt(s, "trust", b)
          && a + 4 <= b && NoNewline(s, a + 4, b);
        assert WordAt(s, "trust", b);
      }
    }
    if HasWord(s, "trust") {
      assert AltFound(r.alts[1], s);
    }
  }
}
