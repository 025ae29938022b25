/** portfolio_trades/sleeves.py: `sleeve_for`, a variant of the engine's
    map_sleeve with its own symbol table (four more symbols) and one more
    treasury keyword, and its own copy of the fallback proxy table. */
module Sleeves {
  import opened Text
  import opened Options
  import Conventions
  import Classify
  import Mapping

  /** The symbols sleeve_for's table adds to the engine's, with their sleeves. */
  const ExtraEntries: map<string, string> := map["VB" := "US_Core", "VONG" := "US_Core", "SCHV" := "US_Value", "CASH" := "Cash"]

  const ExtraSymbols: set<string> := ExtraEntries.Keys

  /** A lookup in the symbol table of sleeve_for, which holds entry for
      entry the engine's table (portfolio_trades/conventions.py) and the
      four extra symbols. */
  function TableSleeve(s: string): (r: Option<string>)
    ensures s in ExtraEntries ==> r == Some(ExtraEntries[s])
    ensures s !in ExtraEntries ==> r == Lookup(Conventions.MapToSleeve, s)
  {
    if s in ExtraEntries then Some(ExtraEntries[s]) else Lookup(Conventions.MapToSleeve, s)
  }

  /** sleeves.FALLBACK_PROXY. */
  const FallbackProxy: map<string, string> := map[
    "US_Core" := "SCHB", "US_Value" := "VTV", "US_SmallValue" := "VBR", "US_Growth" := "IVW",
    "Intl_DM" := "VXUS", "EM" := "VWO", "Energy" := "XLE",
    "IG_Core" := "AGG", "Treasuries" := "IEF", "TIPS" := "TIP",
    "EM_USD" := "VWOB", "IG_Intl_Hedged" := "BNDX", "Cash" := "BIL"
  ]

  /** The proxy table is the one of portfolio_trades/conventions.py. */
  lemma FallbackProxyAsConventions()
    ensures FallbackProxy == Conventions.FallbackProxy
  {
  }

  lemma ExtraNotInEngineTable()
    ensures "VB" !in Conventions.MapToSleeve && "VONG" !in Conventions.MapToSleeve
    ensures "SCHV" !in Conventions.MapToSleeve && "CASH" !in Conventions.MapToSleeve
  {
    VbNotInEngineTable();
    VongNotInEngineTable();
    SchvNotInEngineTable();
    CashNotInEngineTable();
  }

  lemma VbNotInEngineTable()
    ensures "VB" !in Conventions.MapToSleeve
  {
  }

  lemma VongNotInEngineTable()
    ensures "VONG" !in Conventions.MapToSleeve
  {
  }

  lemma SchvNotInEngineTable()
    ensures "SCHV" !in Conventions.MapToSleeve
  {
  }

  /** None of the extra symbols is in the engine's table, so the table keeps
      every entry of the engine's and adds VB, VONG (US_Core), SCHV (US_Value)
      and CASH (Cash). */
  lemma ExtraSymbolsAreNew()
    ensures forall s :: s in ExtraSymbols ==> s !in Conventions.MapToSleeve && TableSleeve(s) == Some(ExtraEntries[s])
    ensures forall s :: s in Conventions.MapToSleeve ==> TableSleeve(s) == Some(Conventions.MapToSleeve[s])
    ensures forall s :: TableSleeve(s).Some? <==> s in Conventions.MapToSleeve || s in ExtraSymbols
  {
    ExtraNotInEngineTable();
  }

  /** The empty symbol is in neither table. */
  lemma EmptyNotInTables()
    ensures TableSleeve("").None? && "" !in Conventions.MapToSleeve
  {
    assert "" !in Conventions.MapToSleeve;
  }

  predicate TreasuryKeyword(n: string) {
    Contains(n, "UST") || Contains(n, "TREAS") || Contains(n, "STRIP") || Contains(n, "TREASUR")
  }

  /** sleeve_for's decision on the upper-cased, stripped symbol `s` and name `n`. */
  function SleeveOf(s: string, n: string): string {
    if Contains(n, "AUTOMATTIC") || s == "AUTOMATTIC" then Conventions.IlliquidSleeve
    else if TableSleeve(s).Some? then TableSleeve(s).value
    else if Contains(n, "INFLATION") then "TIPS"
    else if TreasuryKeyword(n) then "Treasuries"
    else "US_Core"
  }

  /** sleeve_for on a possibly missing symbol and name: the Automattic
      marker in the name or as the exact symbol, then the table, then
      INFLATION, then the treasury keywords, else US_Core. */
  function SleeveFor(symbol: Option<string>, name: Option<string>): (r: string)
  {
    SleeveOf(Strip(Upper(Mapping.OrEmpty(symbol))), Strip(Upper(Mapping.OrEmpty(name))))
  }

  /** No entry of sleeve_for's table names the illiquid sleeve. */
  lemma TableNeverIlliquid(s: string)
    ensures TableSleeve(s).Some? ==> TableSleeve(s).value != Conventions.IlliquidSleeve
  {
    if s in ExtraEntries {
      assert |ExtraEntries[s]| <= 8;
    } else {
      Classify.TableHasNoIlliquid();
    }
  }

  /** sleeve_for answers the illiquid sleeve exactly when the Automattic
      marker decides. */
  lemma SleeveForIlliquid(symbol: Option<string>, name: Option<string>)
    ensures SleeveFor(symbol, name) == Conventions.IlliquidSleeve <==>
      Contains(Strip(Upper(Mapping.OrEmpty(name))), "AUTOMATTIC") || Strip(Upper(Mapping.OrEmpty(symbol))) == "AUTOMATTIC"
  {
    SleeveOfIlliquid(Strip(Upper(Mapping.OrEmpty(symbol))), Strip(Upper(Mapping.OrEmpty(name))));
  }

  lemma SleeveOfIlliquid(s: string, n: string)
    ensures SleeveOf(s, n) == Conventions.IlliquidSleeve <==> Contains(n, "AUTOMATTIC") || s == "AUTOMATTIC"
  {
    TableNeverIlliquid(s);
    assert |Conventions.IlliquidSleeve| == 19;
  }

  /** TREASUR adds nothing to TREAS: every name containing it contains TREAS. */
  lemma TreasurIsTreas(n: string)
    ensures TreasuryKeyword(n) <==> Classify.TreasuryWord(n)
  {
    if Contains(n, "TREASUR") {
      assert OccursAt("TREASUR", "TREAS", 0);
      ContainsTransitive(n, "TREASUR", "TREAS");
    }
  }

  /** For every symbol outside the four extra ones, sleeve_for decides as
      the engine's map_sleeve does. */
  lemma SleeveForMatchesEngine(sym: string, name: string)
    requires Strip(Upper(sym)) !in ExtraSymbols
    ensures SleeveFor(Some(sym), Some(name)) == Classify.MapSleeve(sym, name)
  {
    Conventions.UpperStrip(sym);
    Conventions.UpperStrip(name);
    TreasurIsTreas(Strip(Upper(name)));
  }

  /** A non-empty string of no lower-case letter and no outer space is its own
      upper-cased, stripped form. */
  lemma NormalFixed(s: string)
    requires s != [] && !IsSpace(s[0]) && !IsSpace(s[|s| - 1])
    requires forall i :: 0 <= i < |s| ==> !('a' <= s[i] <= 'z')
    ensures Strip(Upper(s)) == s && Upper(Strip(s)) == s
  {
    Conventions.UpperFixesUpperCase(s);
    assert TrimLeft(s) == s && TrimRight(s) == s;
  }

  lemma EmptyNormal()
    ensures Strip(Upper("")) == "" && Upper(Strip("")) == ""
    ensures !Contains("", "AUTOMATTIC") && !Contains("", "INFLATION") && !TreasuryKeyword("") && !Classify.TreasuryWord("")
  {
    assert Upper("") == "" && Strip("") == "";
  }

  lemma CashExtra()
    ensures TableSleeve("CASH") == Some("Cash")
  {
    assert "CASH" in ExtraEntries;
  }

  /** The table decides once the marker does not. */
  lemma SleeveOfTable(s: string, n: string)
    requires !Contains(n, "AUTOMATTIC") && s != "AUTOMATTIC" && TableSleeve(s).Some?
    ensures SleeveOf(s, n) == TableSleeve(s).value
  {
  }

  /** sleeve_for decides on the normalised symbol and name. */
  lemma SleeveForNormalised(sym: string, name: string, s: string, n: string)
    requires Strip(Upper(sym)) == s && Strip(Upper(name)) == n
    ensures SleeveFor(Some(sym), Some(name)) == SleeveOf(s, n)
  {
  }

  lemma CashSleeveOf()
    ensures SleeveOf("CASH", "") == "Cash"
  {
    CashExtra();
    EmptyNormal();
    SleeveOfTable("CASH", "");
  }

  lemma CashSleeveFor()
    ensures SleeveFor(Some("CASH"), Some("")) == "Cash"
  {
    NormalFixed("CASH");
    EmptyNormal();
    CashSleeveOf();
    SleeveForNormalised("CASH", "", "CASH", "");
  }

  lemma CashNotInEngineTable()
    ensures "CASH" !in Conventions.MapToSleeve
  {
  }

  /** The engine's map_sleeve sends CASH, with an empty name, to US_Core. */
  lemma EngineCash()
    ensures Classify.MapSleeve("CASH", "") == "US_Core"
  {
    CashNotInEngineTable();
    NormalFixed("CASH");
    EmptyNormal();
  }

  /** The extra symbols make a difference: CASH is Cash here and US_Core for the engine. */
  lemma CashSymbolDiffers()
    ensures SleeveFor(Some("CASH"), Some("")) == "Cash"
    ensures Classify.MapSleeve("CASH", "") == "US_Core"
  {
    CashSleeveFor();
    EngineCash();
  }

  /** A missing symbol and name are read as empty strings, and yield US_Core. */
  lemma SleeveForMissing()
    ensures SleeveFor(None, None) == "US_Core"
    ensures SleeveFor(None, None) == SleeveFor(Some(""), Some(""))
  {
    EmptyNormal();
    EmptyNotInTables();
  }

  /** The sleeve ignores letter case and surrounding whitespace. */
  lemma SleeveForIgnoresCaseAndSpace(sym: string, name: string)
    ensures SleeveFor(Some(Lower(sym)), Some(Lower(name))) == SleeveFor(Some(sym), Some(name))
    ensures SleeveFor(Some(" " + sym + " "), Some(" " + name + " ")) == SleeveFor(Some(sym), Some(name))
  {
    UpperOfLower(sym);
    UpperOfLower(name);
    UpperConcat(" ", sym);
    UpperConcat(" " + sym, " ");
    UpperConcat(" ", name);
    UpperConcat(" " + name, " ");
    assert Upper(" ") == " ";
    Conventions.StripPadded(Upper(sym));
    Conventions.StripPadded(Upper(name));
  }

  lemma InflationInName()
    ensures Contains("TREASURY INFLATION", "INFLATION")
  {
    assert "TREASURY INFLATION"[9..18] == "INFLATION";
    assert OccursAt("TREASURY INFLATION", "INFLATION", 9);
  }

  lemma NoMarkerInName()
    ensures !Contains("TREASURY INFLATION", "AUTOMATTIC")
  {
    NoPairNoOccurrence("TREASURY INFLATION", "AUTOMATTIC");
  }

  /** "TREASURY INFLATION" is normalised, holds INFLATION and no Automattic marker. */
  lemma TreasuryInflationName()
    ensures Strip(Upper("TREASURY INFLATION")) == "TREASURY INFLATION"
    ensures Contains("TREASURY INFLATION", "INFLATION") && !Contains("TREASURY INFLATION", "AUTOMATTIC")
  {
    NormalFixed("TREASURY INFLATION");
    InflationInName();
    NoMarkerInName();
  }

  /** The INFLATION keyword decides once the marker and the table do not. */
  lemma SleeveOfInflation(s: string, n: string)
    requires !Contains(n, "AUTOMATTIC") && s != "AUTOMATTIC" && TableSleeve(s).None?
    requires Contains(n, "INFLATION")
    ensures SleeveOf(s, n) == "TIPS"
  {
  }

  lemma XNotInTables()
    ensures TableSleeve("X").None? && "X" != "AUTOMATTIC"
  {
    assert "X" !in Conventions.MapToSleeve;
  }

  /** INFLATION wins over the treasury keywords: a name holding both, with
      a symbol outside the table, is TIPS. */
  lemma InflationBeatsTreasury(sym: string, name: string)
    requires Strip(Upper(sym)) != "AUTOMATTIC" && TableSleeve(Strip(Upper(sym))).None?
    requires !Contains(Strip(Upper(name)), "AUTOMATTIC")
    requires Contains(Strip(Upper(name)), "INFLATION") && Classify.TreasuryWord(Strip(Upper(name)))
    ensures SleeveFor(Some(sym), Some(name)) == "TIPS"
  {
    SleeveOfInflation(Strip(Upper(sym)), Strip(Upper(name)));
  }

  lemma XNormal()
    ensures Strip(Upper("X")) == "X" && TableSleeve("X").None?
  {
    NormalFixed("X");
    XNotInTables();
  }

}
