/** portfolio_trades/mapping.py: classifiers that accept a missing symbol,
    name or account name (Python's None, read as ""). Its own
    Automattic test looks for the marker anywhere in the upper-cased symbol
    and name; the symbol table is a parameter, which callers fill with the
    table of portfolio_trades/conventions.py. */
module Mapping {
  import opened Text
  import opened Options
  import Conventions
  import Classify

  /** `(x or "")`. */
  function OrEmpty(x: Option<string>): (r: string)
    ensures x.None? ==> r == ""
    ensures x.Some? ==> r == x.value
  {
    x.GetOr("")
  }

  /** mapping.is_automattic: the marker occurs in the upper-cased symbol,
      a space and the upper-cased name, unstripped. */
  predicate IsAutomattic(sym: Option<string>, name: Option<string>) {
    Contains(Upper(OrEmpty(sym)) + " " + Upper(OrEmpty(name)), "AUTOMATTIC")
  }

  /** The marker has no space, so the joined test is "the marker is in the
      symbol or in the name"; a symbol that merely contains it counts. */
  lemma IsAutomatticEither(sym: Option<string>, name: Option<string>)
    ensures IsAutomattic(sym, name) <==>
      Contains(Upper(OrEmpty(sym)), "AUTOMATTIC") || Contains(Upper(OrEmpty(name)), "AUTOMATTIC")
  {
    ContainsAcrossSpace(Upper(OrEmpty(sym)), Upper(OrEmpty(name)), "AUTOMATTIC");
  }

  /** A string contains its stripped form. */
  lemma ContainsStripped(x: string)
    ensures Contains(x, Strip(x))
  {
    var t := TrimLeft(x);
    var i := |x| - |t|;
    var m := |Strip(x)|;
    TrimLeftSuffix(x);
    TrimRightPrefix(t);
    assert t[..m] == x[i..i + m];
    assert OccursAt(x, Strip(x), i);
  }

  /** What the upper-cased stripped string contains, the upper-cased string contains. */
  lemma StrippedContains(x: string, needle: string)
    requires Contains(Upper(Strip(x)), needle)
    ensures Contains(Upper(x), needle)
  {
    Conventions.UpperStrip(x);
    ContainsStripped(Upper(x));
    ContainsTransitive(Upper(x), Strip(Upper(x)), needle);
  }

  /** The upper-cased string contains its upper-cased stripped form. */
  lemma StrippedIs(x: string, needle: string)
    requires Upper(Strip(x)) == needle
    ensures Contains(Upper(x), needle)
  {
    Conventions.UpperStrip(x);
    ContainsStripped(Upper(x));
  }

  /** Whatever the engine's Automattic test (portfolio_trades/conventions.py)
      accepts, this one accepts too. */
  lemma ConventionsMarkerIsMarker(sym: string, name: string)
    requires Conventions.IsAutomattic(sym, name)
    ensures IsAutomattic(Some(sym), Some(name))
  {
    IsAutomatticEither(Some(sym), Some(name));
    if Contains(Upper(Strip(name)), "AUTOMATTIC") {
      StrippedContains(name, "AUTOMATTIC");
    } else {
      StrippedIs(sym, "AUTOMATTIC");
    }
  }

  /** The converse fails: a symbol that only contains the marker is
      illiquid here and not for the engine. */
  lemma MarkerInsideSymbol()
    ensures IsAutomattic(Some("XAUTOMATTIC"), Some(""))
    ensures !Conventions.IsAutomattic("XAUTOMATTIC", "")
  {
    var s := "XAUTOMATTIC";
    Conventions.UpperFixesUpperCase(s);
    assert OccursAt(s + " " + Upper(""), "AUTOMATTIC", 1);
    assert !IsSpace(s[0]) && !IsSpace(s[|s| - 1]);
    assert TrimLeft(s) == s && TrimRight(s) == s;
    assert Upper(Strip(s)) != "AUTOMATTIC" by { assert |Upper(Strip(s))| == 11; }
    assert Strip("") == "";
    assert !Contains(Upper(Strip("")), "AUTOMATTIC");
  }

  /** What map_sleeve decides after the marker test: the table, then the
      INFLATION keyword, then the treasury keywords, then US_Core. */
  function TableOrKeywords(table: map<string, string>, s: string, n: string): string {
    if s in table then table[s]
    else if Contains(n, "INFLATION") then "TIPS"
    else if Classify.TreasuryWord(n) then "Treasuries"
    else "US_Core"
  }

  /** mapping.map_sleeve over the upper-cased, stripped symbol and name. */
  function MapSleeve(table: map<string, string>, sym: Option<string>, name: Option<string>): (r: string)
    ensures IsAutomattic(sym, name) ==> r == Conventions.IlliquidSleeve
    ensures !IsAutomattic(sym, name) && Strip(Upper(OrEmpty(sym))) in table ==> r == table[Strip(Upper(OrEmpty(sym)))]
  {
    if IsAutomattic(sym, name) then Conventions.IlliquidSleeve
    else TableOrKeywords(table, Strip(Upper(OrEmpty(sym))), Strip(Upper(OrEmpty(name))))
  }

  /** With the conventions table, map_sleeve agrees with the engine's
      map_sleeve wherever the two Automattic tests agree. */
  lemma MapSleeveMatchesEngine(sym: string, name: string)
    requires Conventions.IsAutomattic(sym, name) == IsAutomattic(Some(sym), Some(name))
    ensures MapSleeve(Conventions.MapToSleeve, Some(sym), Some(name)) == Classify.MapSleeve(sym, name)
  {
  }

  /** Every holding the engine calls illiquid is illiquid here too. */
  lemma EngineIlliquidIsIlliquid(sym: string, name: string)
    requires Classify.MapSleeve(sym, name) == Conventions.IlliquidSleeve
    ensures MapSleeve(Conventions.MapToSleeve, Some(sym), Some(name)) == Conventions.IlliquidSleeve
  {
    ConventionsMarkerIsMarker(sym, name);
  }

  /** The sleeve ignores the letter case of symbol and name. */
  lemma MapSleeveIgnoresCase(table: map<string, string>, sym: string, name: string)
    ensures MapSleeve(table, Some(Lower(sym)), Some(Lower(name))) == MapSleeve(table, Some(sym), Some(name))
  {
    UpperOfLower(sym);
    UpperOfLower(name);
  }

  /** A missing symbol and name are read as empty strings, which the
      conventions table sends to US_Core. */
  lemma MapSleeveMissing()
    ensures MapSleeve(Conventions.MapToSleeve, None, None) == "US_Core"
    ensures MapSleeve(Conventions.MapToSleeve, None, None) == MapSleeve(Conventions.MapToSleeve, Some(""), Some(""))
  {
    assert Upper("") == "" && Strip("") == "";
    assert !Contains(" ", "AUTOMATTIC");
    assert "" !in Conventions.MapToSleeve;
    assert !Contains("", "INFLATION") && !Classify.TreasuryWord("");
  }

  /** mapping.assign_tax_status: the first rule found in the lower-cased name. */
  function AssignTaxStatus(acct: Option<string>): (r: string)
    ensures r == Classify.AssignTaxStatus(Some(OrEmpty(acct)))
  {
    var m := Conventions.FirstMatch(Conventions.TaxStatusRules, Lower(OrEmpty(acct)));
    if m.Some? then m.value else Conventions.DefaultTaxStatus
  }

  /** No rule matches the empty name, so a missing account name gets the
      default status, as in the engine. */
  lemma AssignTaxStatusMissing()
    ensures AssignTaxStatus(None) == Conventions.DefaultTaxStatus
    ensures AssignTaxStatus(None) == Classify.AssignTaxStatus(None)
  {
    var rules := Conventions.TaxStatusRules;
    forall i | 0 <= i < |rules| ensures !Conventions.RuleFound(rules[i], "") {
      forall j | 0 <= j < |rules[i].alts| ensures !Conventions.AltFound(rules[i].alts[j], "") {
        assert forall k :: 0 <= k <= 0 ==> !OccursAt("", "roth", k);
      }
    }
    assert Lower("") == "";
  }

  /** mapping.is_cashlike: the upper-cased symbol is a cash symbol. */
  predicate IsCashlike(sym: Option<string>) {
    Upper(OrEmpty(sym)) in Conventions.CashSymbols
  }

  /** A missing symbol is not cash-like; a present one is cash-like exactly
      when the engine says so, whatever its letter case. */
  lemma IsCashlikeFacts(sym: string)
    ensures !IsCashlike(None)
    ensures IsCashlike(Some(sym)) == Conventions.IsCashlike(sym)
    ensures IsCashlike(Some(Lower(sym))) == IsCashlike(Some(sym))
  {
    assert Upper("") == "";
    UpperOfLower(sym);
  }
}
