/**
 * `getPlanBenefits` (src/InsurancePortal.tsx:1225-1264): the benefits of a
 * plan are the first hit of a fixed priority chain that ends in the default
 * benefits. The spread copies `{...x}` the source returns are the values
 * themselves here.
 */
module Benefits {
  import opened Wrappers
  import opened Text
  import opened Records
  import Assoc

  /** The benefit tables: `PLAN_BENEFITS` in key order and the three network templates. */
  datatype Templates = Templates(
    planBenefits: Assoc.Assoc<Record>,
    mednet: Record,
    nextcare: Record,
    nas: Record,
    defaults: Record)

  /** `key.split('_').pop() || ''`: the token a partial match looks for. */
  function PartialToken(key: string): string {
    LastToken(key, '_')
  }

  /** The partial-match test of one `PLAN_BENEFITS` key against a plan name. */
  predicate Hits(planName: string, key: string) {
    Contains(planName, PartialToken(key))
  }

  /** The first `PLAN_BENEFITS` entry whose last token occurs in `planName`. */
  function PartialMatch(table: Assoc.Assoc<Record>, planName: string): (r: Option<nat>)
    ensures r.Some? ==> r.value < |table| && Hits(planName, table[r.value].0)
    ensures r.Some? ==> forall j :: 0 <= j < r.value ==> !Hits(planName, table[j].0)
    ensures r.None? ==> forall j :: 0 <= j < |table| ==> !Hits(planName, table[j].0)
  {
    if table == [] then None
    else if Hits(planName, table[0].0) then Some(0)
    else
      match PartialMatch(table[1..], planName)
      case None => None
      case Some(i) => Some(i + 1)
  }

  predicate IsMednet(provider: string, planName: string) {
    Contains(planName, "MEDNET_") || Contains(provider, "_MEDNET")
  }

  predicate IsNextcare(provider: string, planName: string) {
    Contains(planName, "NEXTCARE_") || Contains(provider, "_NEXTCARE")
  }

  predicate IsNas(provider: string, planName: string) {
    Contains(planName, "NAS_") || Contains(provider, "_NAS")
  }

  /** `getPlanBenefits(provider, planName, planId)`; an empty `planId` is falsy and skips the first two steps. */
  function GetPlanBenefits(provider: string, planName: string, planId: string,
                           localBenefitsEdits: map<string, Record>, cloudBenefits: map<string, Record>,
                           t: Templates): Record
  {
    var planKey := provider + "_" + planName;
    if planId != "" && planId in localBenefitsEdits then localBenefitsEdits[planId]
    else if planId != "" && planId in cloudBenefits then cloudBenefits[planId]
    else if planKey in cloudBenefits then cloudBenefits[planKey]
    else if Assoc.Get(t.planBenefits, planKey).Some? then Assoc.Get(t.planBenefits, planKey).value
    else if IsMednet(provider, planName) then t.mednet
    else if IsNextcare(provider, planName) then t.nextcare
    else if IsNas(provider, planName) then t.nas
    else
      match PartialMatch(t.planBenefits, planName)
      case Some(i) => t.planBenefits[i].1
      case None => t.defaults
  }

  function When(c: bool, r: Record): Option<Record> {
    if c then Some(r) else None
  }

  function MapHit(m: map<string, Record>, k: string): Option<Record> {
    if k in m then Some(m[k]) else None
  }

  /** The eight lookups before the default, in priority order; `None` is a miss. */
  function Candidates(provider: string, planName: string, planId: string,
                      localBenefitsEdits: map<string, Record>, cloudBenefits: map<string, Record>,
                      t: Templates): seq<Option<Record>>
  {
    var planKey := provider + "_" + planName;
    var partial := PartialMatch(t.planBenefits, planName);
    [ if planId != "" then MapHit(localBenefitsEdits, planId) else None,
      if planId != "" then MapHit(cloudBenefits, planId) else None,
      MapHit(cloudBenefits, planKey),
      Assoc.Get(t.planBenefits, planKey),
      When(IsMednet(provider, planName), t.mednet),
      When(IsNextcare(provider, planName), t.nextcare),
      When(IsNas(provider, planName), t.nas),
      if partial.Some? then Some(t.planBenefits[partial.value].1) else None ]
  }

  /** The first hit of a list of lookups, or `fallback` when all miss. */
  function FirstHit(c: seq<Option<Record>>, fallback: Record): Record {
    FirstHitFrom(c, 0, fallback)
  }

  /** The first hit at index `k` or later. */
  function FirstHitFrom(c: seq<Option<Record>>, k: nat, fallback: Record): Record
    decreases |c| - k
  {
    if k >= |c| then fallback
    else if c[k].Some? then c[k].value
    else FirstHitFrom(c, k + 1, fallback)
  }

  /** From index `k` on, `FirstHitFrom` is the fallback when every lookup misses, and otherwise the earliest hit. */
  lemma {:induction false} FirstHitFromSpec(c: seq<Option<Record>>, k: nat, fallback: Record)
    ensures (forall i :: k <= i < |c| ==> c[i].None?) ==> FirstHitFrom(c, k, fallback) == fallback
    ensures forall i :: k <= i < |c| && c[i].Some? && (forall j :: k <= j < i ==> c[j].None?) ==>
      FirstHitFrom(c, k, fallback) == c[i].value
    decreases |c| - k
  {
    if k < |c| && c[k].None? {
      FirstHitFromSpec(c, k + 1, fallback);
    }
  }

  /** `FirstHit` is the fallback when every lookup misses, and otherwise the earliest hit. */
  lemma FirstHitSpec(c: seq<Option<Record>>, fallback: Record)
    ensures (forall i :: 0 <= i < |c| ==> c[i].None?) ==> FirstHit(c, fallback) == fallback
    ensures forall i :: 0 <= i < |c| && c[i].Some? && (forall j :: 0 <= j < i ==> c[j].None?) ==>
      FirstHit(c, fallback) == c[i].value
  {
    FirstHitFromSpec(c, 0, fallback);
  }

  /** The chain is exactly "first hit in priority order, else the defaults". */
  lemma BenefitsAreFirstHit(provider: string, planName: string, planId: string,
                            localBenefitsEdits: map<string, Record>, cloudBenefits: map<string, Record>,
                            t: Templates)
    ensures GetPlanBenefits(provider, planName, planId, localBenefitsEdits, cloudBenefits, t)
         == FirstHit(Candidates(provider, planName, planId, localBenefitsEdits, cloudBenefits, t), t.defaults)
  {
    FirstHitOfEight(Candidates(provider, planName, planId, localBenefitsEdits, cloudBenefits, t), t.defaults);
  }

  /** The first hit of eight lookups, written out. */
  lemma FirstHitOfEight(c: seq<Option<Record>>, fallback: Record)
    requires |c| == 8
    ensures FirstHit(c, fallback)
         == if c[0].Some? then c[0].value else if c[1].Some? then c[1].value else if c[2].Some? then c[2].value
            else if c[3].Some? then c[3].value else if c[4].Some? then c[4].value else if c[5].Some? then c[5].value
            else if c[6].Some? then c[6].value else if c[7].Some? then c[7].value else fallback
  {
    assert FirstHitFrom(c, 8, fallback) == fallback;
    assert FirstHitFrom(c, 7, fallback) == if c[7].Some? then c[7].value else fallback;
    assert FirstHitFrom(c, 6, fallback) == if c[6].Some? then c[6].value else FirstHitFrom(c, 7, fallback);
    assert FirstHitFrom(c, 5, fallback) == if c[5].Some? then c[5].value else FirstHitFrom(c, 6, fallback);
    assert FirstHitFrom(c, 4, fallback) == if c[4].Some? then c[4].value else FirstHitFrom(c, 5, fallback);
    assert FirstHitFrom(c, 3, fallback) == if c[3].Some? then c[3].value else FirstHitFrom(c, 4, fallback);
    assert FirstHitFrom(c, 2, fallback) == if c[2].Some? then c[2].value else FirstHitFrom(c, 3, fallback);
    assert FirstHitFrom(c, 1, fallback) == if c[1].Some? then c[1].value else FirstHitFrom(c, 2, fallback);
  }

  /** A local benefits edit beats every other source for that plan id. */
  lemma LocalEditWins(provider: string, planName: string, planId: string,
                      localBenefitsEdits: map<string, Record>, cloudBenefits: map<string, Record>,
                      t: Templates)
    requires planId != "" && planId in localBenefitsEdits
    ensures GetPlanBenefits(provider, planName, planId, localBenefitsEdits, cloudBenefits, t) == localBenefitsEdits[planId]
  {
  }

  /**
   * An empty plan id is falsy, so both lookups by plan id are skipped: the
   * benefits are those with no local edits and no cloud record under `""`.
   */
  lemma EmptyPlanIdSkipsEdits(provider: string, planName: string,
                              localBenefitsEdits: map<string, Record>, cloudBenefits: map<string, Record>,
                              t: Templates)
    ensures GetPlanBenefits(provider, planName, "", localBenefitsEdits, cloudBenefits, t)
         == GetPlanBenefits(provider, planName, "", map[], cloudBenefits - {""}, t)
  {
    var planKey := provider + "_" + planName;
    assert planKey != "";
    BenefitsAreFirstHit(provider, planName, "", localBenefitsEdits, cloudBenefits, t);
    BenefitsAreFirstHit(provider, planName, "", map[], cloudBenefits - {""}, t);
    assert Candidates(provider, planName, "", localBenefitsEdits, cloudBenefits, t)
        == Candidates(provider, planName, "", map[], cloudBenefits - {""}, t);
  }

  /**
   * The defaults are returned only when nothing else hits: no edit, no
   * cloud record, no table entry, none of the three networks, and no
   * partial match.
   */
  lemma DefaultOnlyAsLastResort(provider: string, planName: string, planId: string,
                                localBenefitsEdits: map<string, Record>, cloudBenefits: map<string, Record>,
                                t: Templates)
    requires forall k :: k in localBenefitsEdits ==> localBenefitsEdits[k] != t.defaults
    requires forall k :: k in cloudBenefits ==> cloudBenefits[k] != t.defaults
    requires forall i :: 0 <= i < |t.planBenefits| ==> t.planBenefits[i].1 != t.defaults
    requires t.defaults !in {t.mednet, t.nextcare, t.nas}
    ensures GetPlanBenefits(provider, planName, planId, localBenefitsEdits, cloudBenefits, t) == t.defaults
      <==> forall i :: 0 <= i < 8 ==> Candidates(provider, planName, planId, localBenefitsEdits, cloudBenefits, t)[i].None?
  {
    var c := Candidates(provider, planName, planId, localBenefitsEdits, cloudBenefits, t);
    BenefitsAreFirstHit(provider, planName, planId, localBenefitsEdits, cloudBenefits, t);
    FirstHitOfEight(c, t.defaults);
    var planKey := provider + "_" + planName;
    if Assoc.Get(t.planBenefits, planKey).Some? {
      var i :| 0 <= i < |t.planBenefits| && t.planBenefits[i] == (planKey, Assoc.Get(t.planBenefits, planKey).value);
    }
  }

  /** The first four `PLAN_BENEFITS` keys, in source order (src/InsurancePortal.tsx:189-245), each with a marker record. */
  const FixtureTemplates: Templates := Templates(
    [ ("ORIENT_EMED_PCP_RN3", map["network" := Str("RN3")]),
      ("ORIENT_EMED_PCPC", map["network" := Str("PCPC")]),
      ("ORIENT_DMED_LSB", map["network" := Str("LSB")]),
      ("ORIENT_DMED_NLSB", map["network" := Str("NLSB")]) ],
    map["network" := Str("MEDNET")],
    map["network" := Str("NEXTCARE")],
    map["network" := Str("NAS")],
    map["network" := Str("")])

  lemma FixtureTokens()
    ensures PartialToken("ORIENT_EMED_PCP_RN3") == "RN3"
    ensures PartialToken("ORIENT_EMED_PCPC") == "PCPC"
    ensures PartialToken("ORIENT_DMED_LSB") == "LSB"
  {
    TokenRN3();
    TokenPCPC();
    TokenLSB();
  }

  lemma TokenRN3()
    ensures PartialToken("ORIENT_EMED_PCP_RN3") == "RN3"
  {
    assert "ORIENT_EMED_PCP_RN3"[..18] == "ORIENT_EMED_PCP_RN";
    assert "ORIENT_EMED_PCP_RN"[..17] == "ORIENT_EMED_PCP_R";
    assert "ORIENT_EMED_PCP_R"[..16] == "ORIENT_EMED_PCP_";
  }

  lemma TokenPCPC()
    ensures PartialToken("ORIENT_EMED_PCPC") == "PCPC"
  {
    assert "ORIENT_EMED_PCPC"[..15] == "ORIENT_EMED_PCP";
    assert "ORIENT_EMED_PCP"[..14] == "ORIENT_EMED_PC";
    assert "ORIENT_EMED_PC"[..13] == "ORIENT_EMED_P";
    assert "ORIENT_EMED_P"[..12] == "ORIENT_EMED_";
  }

  lemma TokenLSB()
    ensures PartialToken("ORIENT_DMED_LSB") == "LSB"
  {
    assert "ORIENT_DMED_LSB"[..14] == "ORIENT_DMED_LS";
    assert "ORIENT_DMED_LS"[..13] == "ORIENT_DMED_L";
    assert "ORIENT_DMED_L"[..12] == "ORIENT_DMED_";
  }

  lemma PartialMatchThird(table: Assoc.Assoc<Record>, name: string)
    requires |table| >= 3
    requires !Hits(name, table[0].0) && !Hits(name, table[1].0) && Hits(name, table[2].0)
    ensures PartialMatch(table, name) == Some(2)
  {
    var t1 := table[1..];
    var t2 := t1[1..];
    assert t1[0] == table[1] && t2[0] == table[2];
    assert PartialMatch(t2, name) == Some(0);
    assert PartialMatch(t1, name) == Some(1);
  }

  /**
   * A provider without '_' and a plan name without 'T', 'X' and 'A' are
   * tagged with none of the three template networks.
   */
  lemma NoNetworkTag(provider: string, planName: string)
    requires '_' !in provider && 'T' !in planName && 'X' !in planName && 'A' !in planName
    ensures !IsMednet(provider, planName) && !IsNextcare(provider, planName) && !IsNas(provider, planName)
  {
    MissingCharNotContained(planName, "MEDNET_", 'T');
    MissingCharNotContained(planName, "NEXTCARE_", 'X');
    MissingCharNotContained(planName, "NAS_", 'A');
    MissingCharNotContained(provider, "_MEDNET", '_');
    MissingCharNotContained(provider, "_NEXTCARE", '_');
    MissingCharNotContained(provider, "_NAS", '_');
  }

  /** With no edit, no cloud record, no table entry and no network tag, the partial match decides. */
  lemma PartialMatchDecides(provider: string, planName: string, planId: string,
                            localBenefitsEdits: map<string, Record>, cloudBenefits: map<string, Record>,
                            t: Templates, i: nat)
    requires planId !in localBenefitsEdits && planId !in cloudBenefits
    requires provider + "_" + planName !in cloudBenefits
    requires forall j :: 0 <= j < |t.planBenefits| ==> t.planBenefits[j].0 != provider + "_" + planName
    requires !IsMednet(provider, planName) && !IsNextcare(provider, planName) && !IsNas(provider, planName)
    requires PartialMatch(t.planBenefits, planName) == Some(i)
    ensures GetPlanBenefits(provider, planName, planId, localBenefitsEdits, cloudBenefits, t) == t.planBenefits[i].1
  {
  }

  /**
   * As written, the partial match takes the first key whose last token
   * occurs in the plan name. "NLSB" contains "LSB" and `ORIENT_DMED_LSB`
   * comes before `ORIENT_DMED_NLSB`, so an ORIENT `_NLSB` plan without an
   * entry of its own, such as `DMED_NLSB_CHILD`, gets the `ORIENT_DMED_LSB`
   * benefits (and so does any such plan of a provider without '_').
   */
  lemma NlsbPlansGetLsbBenefits(provider: string, name: string)
    requires Contains(name, "_NLSB") && '_' !in provider
    requires Assoc.Get(FixtureTemplates.planBenefits, provider + "_" + name).None?
    requires '3' !in name && 'P' !in name && 'T' !in name && 'X' !in name && 'A' !in name
    ensures GetPlanBenefits(provider, name, provider + "_" + name, map[], map[], FixtureTemplates)
         == map["network" := Str("LSB")]
  {
    NlsbMatchesLsbKey(name);
    NoNetworkTag(provider, name);
    PartialMatchDecides(provider, name, provider + "_" + name, map[], map[], FixtureTemplates, 2);
  }

  /** An `_NLSB` name without '3' or 'P' partially matches the third key, `ORIENT_DMED_LSB`, first. */
  lemma NlsbMatchesLsbKey(name: string)
    requires Contains(name, "_NLSB") && '3' !in name && 'P' !in name
    ensures PartialMatch(FixtureTemplates.planBenefits, name) == Some(2)
  {
    FixtureTokens();
    LsbTokenWins(FixtureTemplates.planBenefits, name);
  }

  /** In a table whose keys end in RN3, PCPC and LSB, in that order, such a name hits the third first. */
  lemma LsbTokenWins(table: Assoc.Assoc<Record>, name: string)
    requires |table| >= 3
    requires PartialToken(table[0].0) == "RN3" && PartialToken(table[1].0) == "PCPC"
    requires PartialToken(table[2].0) == "LSB"
    requires Contains(name, "_NLSB") && '3' !in name && 'P' !in name
    ensures PartialMatch(table, name) == Some(2)
  {
    assert Hits(name, table[2].0) by {
      assert "_NLSB"[2..5] == "LSB";
      ContainsAt("_NLSB", "LSB", 2);
      ContainsTrans(name, "_NLSB", "LSB");
    }
    MissingCharNotContained(name, "RN3", '3');
    MissingCharNotContained(name, "PCPC", 'P');
    PartialMatchThird(table, name);
  }
}
