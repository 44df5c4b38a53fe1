/**
 * Building the comparison rows of one member inside `searchPlans`
 * (src/InsurancePortal.tsx:1472-1606): which table plans are listed, what
 * premium they show, the copay/network/display-name derivation, the id, and
 * the manual plans appended after them.
 */
module Rows {
  import opened Wrappers
  import opened Text
  import opened Records
  import opened Plans
  import opened Rates
  import opened Eligibility
  import opened Overrides
  import opened Benefits
  import Assoc

  /** Copay detection (src/InsurancePortal.tsx:1521-1523). */
  function Copay(planName: string): string {
    if EndsWith(planName, "_0") then "0%"
    else if EndsWith(planName, "_10") then "10%"
    else if EndsWith(planName, "_20") then "20%"
    else "Variable"
  }

  /** The three copay suffixes exclude each other, so each copay label means exactly its suffix. */
  lemma CopaySpec(planName: string)
    ensures Copay(planName) == "0%" <==> EndsWith(planName, "_0")
    ensures Copay(planName) == "10%" <==> EndsWith(planName, "_10")
    ensures Copay(planName) == "20%" <==> EndsWith(planName, "_20")
    ensures Copay(planName) == "Variable" <==>
      !EndsWith(planName, "_0") && !EndsWith(planName, "_10") && !EndsWith(planName, "_20")
  {
    var n := |planName|;
    if EndsWith(planName, "_10") {
      assert planName[n - 2] == '1';
    }
    if EndsWith(planName, "_20") {
      assert planName[n - 2] == '2';
    }
  }

  datatype Labels = Labels(network: string, displayName: string)

  /**
   * One step of the plan-name chain: a plan name containing `pattern` is on
   * `network`, shown as `name` (or as its own words when `name` is None).
   */
  datatype Rule = Rule(pattern: string, network: string, name: Option<string>)

  /** The plan-name tests of src/InsurancePortal.tsx:1525-1548, in the order they are tried. */
  const NameRules: seq<Rule> := [
    Rule("MEDNET_SILKROAD", "MEDNET", Some("SilkRoad")),
    Rule("MEDNET_PEARL", "MEDNET", Some("Pearl")),
    Rule("MEDNET_EMERALD", "MEDNET", Some("Emerald")),
    Rule("MEDNET_GREEN", "MEDNET", Some("Green")),
    Rule("MEDNET_SILVER_CLASSIC", "MEDNET", Some("Silver Classic")),
    Rule("MEDNET_SILVER_PREMIUM", "MEDNET", Some("Silver Premium")),
    Rule("MEDNET_GOLD", "MEDNET", Some("Gold")),
    Rule("NEXTCARE_PCP", "NEXTCARE", Some("PCP")),
    Rule("NEXTCARE_RN3", "NEXTCARE", Some("RN3")),
    Rule("NEXTCARE_RN2", "NEXTCARE", Some("RN2")),
    Rule("NEXTCARE_RN_", "NEXTCARE", Some("RN")),
    Rule("NEXTCARE_GN_LIMITED", "NEXTCARE", Some("GN Limited")),
    Rule("NEXTCARE_GN_PLUS", "NEXTCARE", Some("GN+")),
    Rule("NEXTCARE_GN_", "NEXTCARE", Some("GN")),
    Rule("NAS_VN_", "NAS", Some("VN")),
    Rule("NAS_WN_", "NAS", Some("WN")),
    Rule("NAS_SRN_", "NAS", Some("SRN")),
    Rule("NAS_RN_", "NAS", Some("RN")),
    Rule("NAS_GN_", "NAS", Some("GN")),
    Rule("NAS_CN_", "NAS", Some("CN")),
    Rule("MEDNET", "MEDNET", None),
    Rule("NAS", "NAS", None),
    Rule("NEXTCARE", "NEXTCARE", None)
  ]

  /** The first rule whose pattern occurs in `planName`. */
  function FirstRule(planName: string, rules: seq<Rule>): (r: Option<nat>)
    ensures r.None? <==> forall i :: 0 <= i < |rules| ==> !Contains(planName, rules[i].pattern)
    ensures r.Some? ==> r.value < |rules| && Contains(planName, rules[r.value].pattern)
    ensures r.Some? ==> forall i :: 0 <= i < r.value ==> !Contains(planName, rules[i].pattern)
  {
    if rules == [] then None
    else if Contains(planName, rules[0].pattern) then Some(0)
    else
      var r := FirstRule(planName, rules[1..]);
      if r.None? then None else Some(r.value + 1)
  }

  /** Network and display name detection (src/InsurancePortal.tsx:1516-1555). */
  function NetworkAndName(provider: string, planName: string): Labels {
    var plain := ReplaceAllChar(planName, '_', ' ');
    var hit := FirstRule(planName, NameRules);
    if hit.Some? then
      var rule := NameRules[hit.value];
      Labels(rule.network, rule.name.GetOr(plain))
    else if provider == "FIDELITY" && Contains(planName, "NE") then Labels("AAFIA TPA", plain)
    else if provider == "UFIC" then Labels("UFIC Network", plain)
    else if Contains(provider, "WATANIA") && !Contains(provider, "MEDNET") && !Contains(provider, "NAS")
    then Labels("NAS/Mednet TPA", plain)
    else if Contains(provider, "ORIENT") && !Contains(provider, "MEDNET") && !Contains(provider, "NEXTCARE")
    then Labels("Orient/Nextcare", plain)
    else if provider == "TAKAFUL_EMARAT" then Labels("NEXTCARE", plain)
    else Labels("Standard", plain)
  }

  /** Every rule's network is one of the three networks named by plan names. */
  lemma RuleNetworks()
    ensures forall i :: 0 <= i < |NameRules| ==> NameRules[i].network in {"MEDNET", "NEXTCARE", "NAS"}
  {
  }

  /** The network is always one of eight labels. */
  lemma NetworkLabels(provider: string, planName: string)
    ensures NetworkAndName(provider, planName).network in
      {"MEDNET", "NEXTCARE", "NAS", "AAFIA TPA", "UFIC Network", "NAS/Mednet TPA", "Orient/Nextcare", "Standard"}
  {
    RuleNetworks();
  }

  /** Every rule's pattern begins with the name of its network. */
  lemma RulesStartWithNetwork()
    ensures forall i :: 0 <= i < |NameRules| ==> NameRules[i].network <= NameRules[i].pattern
  {
  }

  /** A rule whose pattern starts with a network name misses a plan name that names no network. */
  lemma RuleMisses(planName: string, rule: Rule)
    requires rule.network in {"MEDNET", "NEXTCARE", "NAS"} && rule.network <= rule.pattern
    requires !Contains(planName, "MEDNET") && !Contains(planName, "NAS") && !Contains(planName, "NEXTCARE")
    ensures !Contains(planName, rule.pattern)
  {
    ContainsAt(rule.pattern, rule.network, 0);
    if Contains(planName, rule.pattern) {
      ContainsTrans(planName, rule.pattern, rule.network);
    }
  }

  /**
   * A plan name naming none of the three networks matches no rule, so it
   * keeps its own words as display name and falls to the provider tests.
   */
  lemma PlainDisplayName(provider: string, planName: string)
    requires !Contains(planName, "MEDNET") && !Contains(planName, "NAS") && !Contains(planName, "NEXTCARE")
    ensures FirstRule(planName, NameRules).None?
    ensures NetworkAndName(provider, planName).displayName == ReplaceAllChar(planName, '_', ' ')
  {
    RuleNetworks();
    RulesStartWithNetwork();
    forall i | 0 <= i < |NameRules| ensures !Contains(planName, NameRules[i].pattern) {
      RuleMisses(planName, NameRules[i]);
    }
  }

  /** The display provider name: the network suffixes removed once each, then '_' shown as ' ' (src/InsurancePortal.tsx:1558). */
  function CleanProviderName(provider: string): (r: string)
    ensures '_' !in r
  {
    ReplaceAllChar(ReplaceFirst(ReplaceFirst(ReplaceFirst(provider, "_MEDNET", ""), "_NEXTCARE", ""), "_NAS", ""), '_', ' ')
  }

  /** `s.replace(pat, rep)` where `pat` starts with a character `s` lacks: the pattern appended to `s` is the first occurrence. */
  lemma {:induction false} ReplaceAppended(s: string, pat: string, rep: string)
    requires |pat| > 0 && pat[0] !in s
    ensures ReplaceFirst(s + pat, pat, rep) == s + rep
    decreases |s|
  {
    if s == [] {
      assert s + pat == pat && pat <= pat && pat[|pat|..] == [];
      assert s + rep == rep;
    } else {
      var t := s + pat;
      assert t[0] == s[0] && s[0] != pat[0];
      assert !(pat <= t);
      assert t[1..] == s[1..] + pat;
      ReplaceAppended(s[1..], pat, rep);
      assert ReplaceFirst(t, pat, rep) == [s[0]] + (s[1..] + rep);
      assert [s[0]] + (s[1..] + rep) == s + rep;
    }
  }

  lemma ReplaceAllCharAbsent(s: string, a: char, b: char)
    requires a !in s
    ensures ReplaceAllChar(s, a, b) == s
  {
  }

  /** A pattern starting with a character `word` lacks, and absent from `suffix`, leaves `word + suffix` unchanged. */
  lemma {:induction false} ReplacePastWord(word: string, suffix: string, pat: string, rep: string)
    requires |pat| > 0 && pat[0] !in word && !Contains(suffix, pat)
    ensures ReplaceFirst(word + suffix, pat, rep) == word + suffix
    decreases |word|
  {
    if word == [] {
      assert word + suffix == suffix;
      ReplaceFirstAbsent(suffix, pat, rep);
    } else {
      var t := word + suffix;
      assert t[0] == word[0] && word[0] != pat[0];
      assert !(pat <= t);
      assert t[1..] == word[1..] + suffix;
      ReplacePastWord(word[1..], suffix, pat, rep);
      assert ReplaceFirst(t, pat, rep) == [word[0]] + (word[1..] + suffix);
      assert [word[0]] + (word[1..] + suffix) == t;
    }
  }

  /** Removing a network suffix that `word` cannot contain leaves `word` alone. */
  lemma RemoveAbsentSuffix(word: string, pat: string)
    requires '_' !in word && |pat| > 0 && pat[0] == '_'
    ensures ReplaceFirst(word, pat, "") == word
  {
    MissingCharNotContained(word, pat, '_');
    ReplaceFirstAbsent(word, pat, "");
  }

  /** `ORIENT_MEDNET` is shown as `ORIENT`. */
  lemma CleanProviderStripsMednet(word: string)
    requires '_' !in word
    ensures CleanProviderName(word + "_MEDNET") == word
  {
    ReplaceAppended(word, "_MEDNET", "");
    assert word + "" == word;
    RemoveAbsentSuffix(word, "_NEXTCARE");
    RemoveAbsentSuffix(word, "_NAS");
    ReplaceAllCharAbsent(word, '_', ' ');
  }

  /** `ORIENT_NEXTCARE` is shown as `ORIENT`. */
  lemma CleanProviderStripsNextcare(word: string)
    requires '_' !in word
    ensures CleanProviderName(word + "_NEXTCARE") == word
  {
    MissingCharNotContained("_NEXTCARE", "_MEDNET", 'M');
    ReplacePastWord(word, "_NEXTCARE", "_MEDNET", "");
    ReplaceAppended(word, "_NEXTCARE", "");
    assert word + "" == word;
    RemoveAbsentSuffix(word, "_NAS");
    ReplaceAllCharAbsent(word, '_', ' ');
  }

  /** `WATANIA_NAS` is shown as `WATANIA`. */
  lemma CleanProviderStripsNas(word: string)
    requires '_' !in word
    ensures CleanProviderName(word + "_NAS") == word
  {
    MissingCharNotContained("_NAS", "_MEDNET", 'M');
    MissingCharNotContained("_NAS", "_NEXTCARE", 'E');
    ReplacePastWord(word, "_NAS", "_MEDNET", "");
    ReplacePastWord(word, "_NAS", "_NEXTCARE", "");
    ReplaceAppended(word, "_NAS", "");
    assert word + "" == word;
    ReplaceAllCharAbsent(word, '_', ' ');
  }

  /** A provider key made of one word and a network suffix shows just the word. */
  lemma CleanProviderStripsNetwork(word: string, suffix: string)
    requires '_' !in word && suffix in {"_MEDNET", "_NEXTCARE", "_NAS"}
    ensures CleanProviderName(word + suffix) == word
  {
    if suffix == "_MEDNET" {
      CleanProviderStripsMednet(word);
    } else if suffix == "_NEXTCARE" {
      CleanProviderStripsNextcare(word);
    } else {
      CleanProviderStripsNas(word);
    }
  }

  /** `${provider}_${planName}` */
  function PlanId(provider: string, planName: string): string {
    provider + "_" + planName
  }

  /** `planLocation` of a table plan. */
  function PlanLocation(planName: string): string {
    if IsDubaiPlan(planName) then "Dubai" else "Northern Emirates"
  }

  /** `salaryCategory` of a table plan. */
  function SalaryCategory(planName: string): string {
    if Contains(planName, "_LSB") then "Below 4K"
    else if Contains(planName, "_NLSB") then "Above 4K"
    else "All"
  }

  /** An `_NLSB` name has no `_LSB` in it... unless it says `_LSB` elsewhere: `_NLSB` alone reads 'Above 4K'. */
  lemma SalaryCategorySpec(planName: string)
    ensures SalaryCategory(planName) == "Below 4K" <==> Contains(planName, "_LSB")
    ensures SalaryCategory(planName) == "Above 4K" <==> Contains(planName, "_NLSB") && !Contains(planName, "_LSB")
  {
  }

  /** Premium and `needsManualRate` of a listed table plan (src/InsurancePortal.tsx:1497-1514). */
  datatype Pricing = Pricing(premium: real, needsManualRate: bool)

  function Price(db: RateTable, provider: string, planName: string, band: BandResult, g: Gender): (r: Pricing)
    requires !band.Missing?
  {
    if band.NoRate? then Pricing(0.0, true)
    else
      var cell := RateFor(db, provider, planName, band.key, g);
      if cell.Some? && cell.value != 0.0 then Pricing(cell.value, false) else Pricing(0.0, true)
  }

  /**
   * A plan needs a manual rate exactly when no band holds the age or the
   * band's cell for the gender is missing or 0; otherwise it shows that
   * cell, which is the first matching band's.
   */
  lemma PriceSpec(db: RateTable, provider: string, planName: string, age: int, g: Gender)
    requires !FindAgeBand(db, age, provider, planName).Missing?
    ensures var band := FindAgeBand(db, age, provider, planName);
      var r := Price(db, provider, planName, band, g);
      (r.needsManualRate <==> band.NoRate? || RateFor(db, provider, planName, band.key, g) in {None, Some(0.0)})
      && (r.needsManualRate ==> r.premium == 0.0)
      && (!r.needsManualRate ==> r.premium != 0.0 && Some(r.premium) == RateFor(db, provider, planName, band.key, g))
  {
  }

  /** The member data a table row depends on. */
  datatype Applicant = Applicant(age: int, gender: Gender, sponsorship: string)

  /** The row of table plan `planName` of `provider` for one member, if it is listed. */
  function TableRow(db: RateTable, t: Templates, ov: Overlay, s: Settings, a: Applicant,
                    provider: string, planName: string): Option<Plan>
  {
    if !IsCandidate(provider, planName, a.sponsorship, s) then None
    else
      var band := FindAgeBand(db, a.age, provider, planName);
      if band.Missing? then None
      else
        var price := Price(db, provider, planName, band, a.gender);
        var labels := NetworkAndName(provider, planName);
        var id := PlanId(provider, planName);
        var base := Plan(
          id, CleanProviderName(provider), labels.displayName, labels.network, Copay(planName),
          price.premium, false, NoStatus,
          GetPlanBenefits(provider, planName, id, ov.localBenefitsEdits, ov.cloudBenefits, t),
          false, None, Some(PlanLocation(planName)), Some(SalaryCategory(planName)), price.needsManualRate);
        Some(ApplyLocalEdits(base, None, ov))
  }

  /**
   * A table row is listed exactly when the plan is a candidate and the rate
   * table has it. Its id is `${provider}_${planName}`, it starts unselected
   * with no status, it is not manual, and with no premium edit under its
   * bare id it is an N/A row exactly when it needs a manual rate.
   */
  lemma TableRowSpec(db: RateTable, t: Templates, ov: Overlay, s: Settings, a: Applicant,
                     provider: string, planName: string)
    ensures TableRow(db, t, ov, s, a, provider, planName).Some? <==>
      IsCandidate(provider, planName, a.sponsorship, s) && !FindAgeBand(db, a.age, provider, planName).Missing?
    ensures var r := TableRow(db, t, ov, s, a, provider, planName);
      r.Some? ==>
        r.value.id == PlanId(provider, planName) && !r.value.selected && r.value.status == NoStatus
        && !r.value.isManual && r.value.providerKey.None?
        && (PlanId(provider, planName) !in ov.localPlanEdits ==>
              (IsNA(r.value) <==> r.value.needsManualRate))
    ensures var r := TableRow(db, t, ov, s, a, provider, planName);
      var id := PlanId(provider, planName);
      r.Some? ==>
        var price := Price(db, provider, planName, FindAgeBand(db, a.age, provider, planName), a.gender);
        var labels := NetworkAndName(provider, planName);
        r.value.provider == CleanProviderName(provider)
        && r.value.needsManualRate == price.needsManualRate
        && r.value.planLocation == Some(PlanLocation(planName))
        && r.value.salaryCategory == Some(SalaryCategory(planName))
        && (id !in ov.localPlanEdits ==> r.value.premium == price.premium)
        && (id !in ov.cloudPlanEdits ==>
              r.value.name == labels.displayName && r.value.network == labels.network
              && r.value.copay == Copay(planName))
        && (id !in ov.localBenefitsEdits && id !in ov.cloudBenefits ==>
              r.value.benefits == GetPlanBenefits(provider, planName, id, ov.localBenefitsEdits, ov.cloudBenefits, t))
  {
    var r := TableRow(db, t, ov, s, a, provider, planName);
    if r.Some? {
      var band := FindAgeBand(db, a.age, provider, planName);
      var price := Price(db, provider, planName, band, a.gender);
      var labels := NetworkAndName(provider, planName);
      var id := PlanId(provider, planName);
      var base := Plan(
        id, CleanProviderName(provider), labels.displayName, labels.network, Copay(planName),
        price.premium, false, NoStatus,
        GetPlanBenefits(provider, planName, id, ov.localBenefitsEdits, ov.cloudBenefits, t),
        false, None, Some(PlanLocation(planName)), Some(SalaryCategory(planName)), price.needsManualRate);
      ApplyIsOverlaid(base, None, ov);
    }
  }

  /** The rows of one provider's plans, in key order. */
  function ProviderRows(db: RateTable, t: Templates, ov: Overlay, s: Settings, a: Applicant,
                        provider: string, plans: PlanTable): seq<Plan>
  {
    if plans == [] then []
    else
      var rest := ProviderRows(db, t, ov, s, a, provider, plans[..|plans| - 1]);
      var r := TableRow(db, t, ov, s, a, provider, plans[|plans| - 1].0);
      rest + (if r.Some? then [r.value] else [])
  }

  /** All table rows: every provider's in key order (`Object.keys(INSURANCE_DB)` then `Object.keys(plans)`). */
  function TableRows(db: RateTable, t: Templates, ov: Overlay, s: Settings, a: Applicant, table: RateTable): seq<Plan>
  {
    if table == [] then []
    else
      TableRows(db, t, ov, s, a, table[..|table| - 1])
      + ProviderRows(db, t, ov, s, a, table[|table| - 1].0, table[|table| - 1].1)
  }

  /** Every row listed for a provider is one of its candidate plans. */
  lemma {:induction false} ProviderRowsListed(db: RateTable, t: Templates, ov: Overlay, s: Settings, a: Applicant,
                                              provider: string, plans: PlanTable)
    ensures forall p :: p in ProviderRows(db, t, ov, s, a, provider, plans) ==>
      exists i :: 0 <= i < |plans| && TableRow(db, t, ov, s, a, provider, plans[i].0) == Some(p)
  {
    if plans != [] {
      var front := plans[..|plans| - 1];
      ProviderRowsListed(db, t, ov, s, a, provider, front);
      assert forall i :: 0 <= i < |front| ==> front[i] == plans[i];
    }
  }

  /**
   * A manual plan's row (src/InsurancePortal.tsx:1587-1602): unselected,
   * no status, manual, under its provider key, benefits spread over the
   * defaults from cloud benefits or its own; no eligibility filter applies.
   */
  function ManualRow(plan: Plan, providerKey: string, ov: Overlay, t: Templates): Plan {
    var own := if plan.id in ov.cloudBenefits then ov.cloudBenefits[plan.id] else plan.benefits;
    var row := plan.(selected := false, status := NoStatus, benefits := Spread(t.defaults, own),
                     isManual := true, providerKey := Some(providerKey));
    ApplyLocalEdits(row, None, ov)
  }

  /**
   * A manual row keeps the plan's id and provider, is unselected and
   * manual. Its benefits are the spread over the defaults only when no
   * benefits edit exists for it: `applyLocalEdits` then puts the local or
   * cloud benefits back unspread.
   */
  lemma ManualRowSpec(plan: Plan, providerKey: string, ov: Overlay, t: Templates)
    ensures var r := ManualRow(plan, providerKey, ov, t);
      r.id == plan.id && r.provider == plan.provider && !r.selected && r.status == NoStatus
      && r.isManual && r.providerKey == Some(providerKey)
      && r.benefits == (if plan.id in ov.localBenefitsEdits then ov.localBenefitsEdits[plan.id]
                        else if plan.id in ov.cloudBenefits then ov.cloudBenefits[plan.id]
                        else Spread(t.defaults, plan.benefits))
  {
    var own := if plan.id in ov.cloudBenefits then ov.cloudBenefits[plan.id] else plan.benefits;
    ApplyIsOverlaid(plan.(selected := false, status := NoStatus, benefits := Spread(t.defaults, own),
                          isManual := true, providerKey := Some(providerKey)), None, ov);
  }

  /** The rows of one provider key's manual plans, in order. */
  function ProviderManualRows(providerKey: string, plans: seq<Plan>, ov: Overlay, t: Templates): (r: seq<Plan>)
    ensures |r| == |plans|
    ensures forall i :: 0 <= i < |plans| ==> r[i] == ManualRow(plans[i], providerKey, ov, t)
  {
    if plans == [] then []
    else ProviderManualRows(providerKey, plans[..|plans| - 1], ov, t) + [ManualRow(plans[|plans| - 1], providerKey, ov, t)]
  }

  /** All manual rows: every manual plan of every provider key, in key order, none filtered out. */
  function ManualRows(manualPlans: Assoc.Assoc<seq<Plan>>, ov: Overlay, t: Templates): (r: seq<Plan>)
    ensures |r| == |Assoc.Flatten(manualPlans)|
  {
    if manualPlans == [] then []
    else
      ManualRows(manualPlans[..|manualPlans| - 1], ov, t)
      + ProviderManualRows(manualPlans[|manualPlans| - 1].0, manualPlans[|manualPlans| - 1].1, ov, t)
  }
}
