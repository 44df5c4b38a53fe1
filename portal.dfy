/**
 * The comparison page's state (src/InsurancePortal.tsx:1019-1071) and the
 * handlers that change it. The rate table, the benefit templates and the
 * built-in manual providers are constants; `Date.now()`, the current date
 * and the form contents are parameters.
 */
module Portal {
  import opened Wrappers
  import opened Text
  import opened Records
  import opened Ages
  import opened Rates
  import opened Eligibility
  import opened Plans
  import opened Overrides
  import opened Benefits
  import opened Search
  import opened Handlers
  import Assoc

  /** Every field the handlers may change, for stating what a handler leaves alone. */
  datatype PortalState = PortalState(
    customProviders: seq<(string, string)>,
    familyMembers: seq<FamilyMember>,
    settings: Settings,
    memberResults: map<nat, MemberResult>,
    localPlanEdits: map<string, LocalEdit>,
    cloudPlanEdits: map<string, Record>,
    localBenefitsEdits: map<string, Record>,
    cloudBenefits: map<string, Record>,
    manualPlans: Assoc.Assoc<seq<Plan>>,
    reportHistory: seq<Report>,
    advisorComment: string)

  class Portal {
    const db: RateTable
    const templates: Templates
    const manualProviders: seq<(string, string)>   // MANUAL_PROVIDERS as (id, name)

    var customProviders: seq<(string, string)>
    var familyMembers: seq<FamilyMember>
    var settings: Settings
    var memberResults: map<nat, MemberResult>
    var localPlanEdits: map<string, LocalEdit>
    var cloudPlanEdits: map<string, Record>
    var localBenefitsEdits: map<string, Record>
    var cloudBenefits: map<string, Record>
    var manualPlans: Assoc.Assoc<seq<Plan>>
    var reportHistory: seq<Report>
    var advisorComment: string

    /** At least one member, members told apart by id, at most ten saved reports. */
    ghost predicate Valid()
      reads this
    {
      |familyMembers| >= 1 && DistinctIds(familyMembers) && |reportHistory| <= 10
    }

    function State(): PortalState
      reads this
    {
      PortalState(customProviders, familyMembers, settings, memberResults, localPlanEdits, cloudPlanEdits,
                  localBenefitsEdits, cloudBenefits, manualPlans, reportHistory, advisorComment)
    }

    function CurrentOverlay(): Overlay
      reads this
    {
      Overlay(cloudPlanEdits, localPlanEdits, localBenefitsEdits, cloudBenefits)
    }

    function CurrentCatalog(): Catalog
      reads this
    {
      Catalog(db, templates, CurrentOverlay(), settings, manualPlans)
    }

    /** The initial state: one Principal member with id 1, Dubai, salary below 4000, nothing searched or edited. */
    constructor(db: RateTable, templates: Templates, manualProviders: seq<(string, string)>)
      ensures Valid()
      ensures this.db == db && this.templates == templates && this.manualProviders == manualProviders
      ensures State() == PortalState([], [FamilyMember(1, "", None, Male, "Principal", "Self", false)],
                                     Settings("Dubai", "below4000"), map[], map[], map[], map[], map[], [], [], "")
    {
      this.db := db;
      this.templates := templates;
      this.manualProviders := manualProviders;
      customProviders := [];
      familyMembers := [FamilyMember(1, "", None, Male, "Principal", "Self", false)];
      settings := Settings("Dubai", "below4000");
      memberResults := map[];
      localPlanEdits := map[];
      cloudPlanEdits := map[];
      localBenefitsEdits := map[];
      cloudBenefits := map[];
      manualPlans := [];
      reportHistory := [];
      advisorComment := "";
    }

    /** `updateFamilyMember` (src/InsurancePortal.tsx:1293-1313). */
    method UpdateFamilyMember(id: nat, ch: MemberChange, asOf: Date)
      requires Valid()
      modifies this
      ensures Valid()
      ensures State() == old(State()).(familyMembers := UpdateMembers(old(familyMembers), id, ch, asOf))
    {
      UpdateKeepsIds(familyMembers, id, ch, asOf);
      familyMembers := UpdateMembers(familyMembers, id, ch, asOf);
    }

    /** `addFamilyMember` (src/InsurancePortal.tsx:1315-1326); `freshId` is the new `Date.now()`. */
    method AddFamilyMember(freshId: nat)
      requires Valid()
      requires forall i :: 0 <= i < |familyMembers| ==> familyMembers[i].id != freshId
      modifies this
      ensures Valid()
      ensures State() == old(State()).(familyMembers := old(familyMembers) + [NewMember(freshId)])
    {
      familyMembers := familyMembers + [NewMember(freshId)];
    }

    /** `removeFamilyMember` (src/InsurancePortal.tsx:1329-1335): the last member cannot be removed. */
    method RemoveFamilyMember(id: nat)
      requires Valid()
      modifies this
      ensures Valid()
      ensures |old(familyMembers)| == 1 ==> unchanged(this)
      ensures |old(familyMembers)| > 1 ==>
        State() == old(State()).(familyMembers := RemoveMember(old(familyMembers), id))
    {
      if |familyMembers| == 1 {
        return;
      }
      RemoveMemberSpec(familyMembers, id);
      familyMembers := RemoveMember(familyMembers, id);
    }

    /** `addManualPlan` (src/InsurancePortal.tsx:1338-1394); `now` stands for `Date.now()`. */
    method AddManualPlan(currentProvider: string, f: ManualForm, now: nat)
      requires Valid()
      modifies this
      ensures Valid()
      ensures f.planName == "" || f.premium.None? ==> unchanged(this)
      ensures f.planName != "" && f.premium.Some? ==>
        var plan := NewManualPlan(currentProvider, ProviderName(manualProviders, old(customProviders), currentProvider),
                                  f, now, templates);
        State() == old(State()).(
          manualPlans := AppendManualPlan(old(manualPlans), currentProvider, plan),
          memberResults := if |old(memberResults)| > 0 then AddToResults(old(memberResults), plan) else old(memberResults))
    {
      if f.planName == "" || f.premium.None? {
        return;
      }
      var providerName := ProviderName(manualProviders, customProviders, currentProvider);
      var plan := NewManualPlan(currentProvider, providerName, f, now, templates);
      InsertManualPlan(currentProvider, plan);
    }

    /** The state part of `addManualPlan` once the plan is built. */
    method InsertManualPlan(key: string, plan: Plan)
      requires Valid()
      modifies this
      ensures Valid()
      ensures State() == old(State()).(
        manualPlans := AppendManualPlan(old(manualPlans), key, plan),
        memberResults := if |old(memberResults)| > 0 then AddToResults(old(memberResults), plan) else old(memberResults))
    {
      var mr := if |memberResults| > 0 then AddToResults(memberResults, plan) else memberResults;
      manualPlans, memberResults := AppendManualPlan(manualPlans, key, plan), mr;
    }

    /** `deleteManualPlan` (src/InsurancePortal.tsx:1415-1436). */
    method DeleteManualPlan(providerKey: string, planId: string)
      requires Valid()
      modifies this
      ensures Valid()
      ensures State() == old(State()).(
        manualPlans := ManualPlansWithout(old(manualPlans), providerKey, planId),
        memberResults := if |old(memberResults)| > 0 then DropFromResults(old(memberResults), planId) else old(memberResults))
    {
      var mr := if |memberResults| > 0 then DropFromResults(memberResults, planId) else memberResults;
      manualPlans, memberResults := ManualPlansWithout(manualPlans, providerKey, planId), mr;
    }

    /** `togglePlanSelection` (src/InsurancePortal.tsx:1639-1649); the member must have results. */
    method TogglePlanSelection(memberId: nat, planId: string)
      requires Valid() && memberId in memberResults
      modifies this
      ensures Valid()
      ensures State() == old(State()).(memberResults := old(memberResults)[memberId :=
        old(memberResults)[memberId].(comparison := Toggled(old(memberResults)[memberId].comparison, planId))])
    {
      var r := memberResults[memberId];
      memberResults := memberResults[memberId := r.(comparison := Toggled(r.comparison, planId))];
    }

    /** `updatePlanStatus` (src/InsurancePortal.tsx:1652-1662); the member must have results. */
    method UpdatePlanStatus(memberId: nat, planId: string, status: Status)
      requires Valid() && memberId in memberResults
      modifies this
      ensures Valid()
      ensures State() == old(State()).(memberResults := old(memberResults)[memberId :=
        old(memberResults)[memberId].(comparison := WithStatus(old(memberResults)[memberId].comparison, planId, status))])
    {
      var r := memberResults[memberId];
      memberResults := memberResults[memberId := r.(comparison := WithStatus(r.comparison, planId, status))];
    }

    /** `copyPlansToOthers` (src/InsurancePortal.tsx:1665-1699). */
    method CopyPlansToOthers(sourceMemberId: nat)
      requires Valid()
      modifies this
      ensures Valid()
      ensures State() == old(State()).(memberResults := CopyToOthers(old(memberResults), sourceMemberId))
    {
      memberResults := CopyToOthers(memberResults, sourceMemberId);
    }

    /**
     * `saveEditedResultPlan` (src/InsurancePortal.tsx:1724-1779): without a
     * form, a name, a premium or an editing member nothing changes.
     */
    method SaveEditedResultPlan(form: Option<EditForm>, editingMemberId: Option<nat>)
      requires Valid()
      modifies this
      ensures Valid()
      ensures form.None? || form.value.name == "" || form.value.premium.None? || editingMemberId.None? ==>
        unchanged(this)
      ensures form.Some? && form.value.name != "" && form.value.premium.Some? && editingMemberId.Some? ==>
        var f, m := form.value, editingMemberId.value;
        var ov := SavedOverlay(old(CurrentOverlay()), f, m);
        State() == old(State()).(
          localPlanEdits := ov.localPlanEdits,
          cloudPlanEdits := ov.cloudPlanEdits,
          memberResults := RewriteResults(old(memberResults), f, m))
    {
      if form.None? || form.value.name == "" || form.value.premium.None? || editingMemberId.None? {
        return;
      }
      var f, m := form.value, editingMemberId.value;
      localPlanEdits := localPlanEdits[MemberKey(m, f.id) := LocalEdit(f.premium)];
      cloudPlanEdits := cloudPlanEdits[f.id := CloudEditOf(f)];
      memberResults := RewriteResults(memberResults, f, m);
    }

    /**
     * `updateBenefits` (src/InsurancePortal.tsx:1839-1909): `edited` is
     * `editingBenefits[key]`; a manual plan's stored copy is updated too.
     */
    method UpdateBenefits(memberId: nat, planId: string, edited: Option<Record>)
      requires Valid()
      modifies this
      ensures Valid()
      ensures edited.None? ==> unchanged(this)
      ensures edited.Some? ==>
        var plan := if memberId in old(memberResults) then FindPlan(old(memberResults)[memberId].comparison, planId) else None;
        var manual := plan.Some? && plan.value.isManual && plan.value.providerKey.Some? && plan.value.providerKey.value != "";
        State() == old(State()).(
          localBenefitsEdits := old(localBenefitsEdits)[planId := edited.value],
          cloudBenefits := old(cloudBenefits)[planId := edited.value],
          memberResults := BenefitsEverywhere(old(memberResults), planId, edited.value),
          manualPlans := if manual then ManualBenefits(old(manualPlans), plan.value.providerKey.value, planId, edited.value)
                         else old(manualPlans))
    {
      if edited.None? {
        return;
      }
      var plan := if memberId in memberResults then FindPlan(memberResults[memberId].comparison, planId) else None;
      var manualKey := if plan.Some? && plan.value.isManual && plan.value.providerKey.Some? && plan.value.providerKey.value != ""
                       then plan.value.providerKey else None;
      StoreBenefits(planId, edited.value, manualKey);
    }

    /** The state part of `updateBenefits` once the plan's manual provider key, if any, is known. */
    method StoreBenefits(planId: string, b: Record, manualKey: Option<string>)
      requires Valid()
      modifies this
      ensures Valid()
      ensures State() == old(State()).(
        localBenefitsEdits := old(localBenefitsEdits)[planId := b],
        cloudBenefits := old(cloudBenefits)[planId := b],
        memberResults := BenefitsEverywhere(old(memberResults), planId, b),
        manualPlans := if manualKey.Some? then ManualBenefits(old(manualPlans), manualKey.value, planId, b) else old(manualPlans))
    {
      var mp := if manualKey.Some? then ManualBenefits(manualPlans, manualKey.value, planId, b) else manualPlans;
      localBenefitsEdits, memberResults, cloudBenefits, manualPlans :=
        localBenefitsEdits[planId := b], BenefitsEverywhere(memberResults, planId, b), cloudBenefits[planId := b], mp;
    }

    /** `saveToReportHistory` (src/InsurancePortal.tsx:1922-1970); `now` and `timestamp` stand for the clock. */
    method SaveToReportHistory(reportName: string, now: nat, timestamp: string)
      requires Valid()
      modifies this
      ensures Valid()
      ensures var e := Report(now, reportName, timestamp, old(familyMembers), old(settings),
                              MinimalResults(old(memberResults)), old(advisorComment), old(manualPlans));
        State() == old(State()).(reportHistory := TrimHistory(old(reportHistory) + [e]))
    {
      var e := Report(now, reportName, timestamp, familyMembers, settings,
                      MinimalResults(memberResults), advisorComment, manualPlans);
      reportHistory := TrimHistory(reportHistory + [e]);
    }

    /** The history read at load time, trimmed to its last ten reports (src/InsurancePortal.tsx:1181-1190). */
    method LoadReportHistory(parsed: seq<Report>)
      requires Valid()
      modifies this
      ensures Valid()
      ensures State() == old(State()).(reportHistory := TrimHistory(parsed))
    {
      reportHistory := TrimHistory(parsed);
    }

    /** `clearAllLocalEdits` (src/InsurancePortal.tsx:1912-1920); `confirmed` is the answer to `window.confirm`. */
    method ClearAllLocalEdits(confirmed: bool)
      requires Valid()
      modifies this
      ensures Valid()
      ensures !confirmed ==> unchanged(this)
      ensures confirmed ==> State() == old(State()).(localPlanEdits := map[], localBenefitsEdits := map[])
    {
      if confirmed {
        localPlanEdits, localBenefitsEdits := map[], map[];
      }
    }

    /** `deleteReportFromHistory` (src/InsurancePortal.tsx:2172-2181); `confirmed` is the answer to `window.confirm`. */
    method DeleteReportFromHistory(reportId: nat, confirmed: bool)
      requires Valid()
      modifies this
      ensures Valid()
      ensures !confirmed ==> unchanged(this)
      ensures confirmed ==> State() == old(State()).(reportHistory := WithoutReport(old(reportHistory), reportId))
    {
      if confirmed {
        reportHistory := WithoutReport(reportHistory, reportId);
      }
    }

    /** The add-company button (src/InsurancePortal.tsx:2929-2940); `now` stands for `Date.now()`. */
    method AddCustomProvider(newProviderName: string, now: nat)
      requires Valid()
      modifies this
      ensures Valid()
      ensures Trim(newProviderName) == "" ==> unchanged(this)
      ensures Trim(newProviderName) != "" ==>
        State() == old(State()).(customProviders := old(customProviders) + [NewCustomProvider(newProviderName, now)])
    {
      if Trim(newProviderName) == "" {
        return;
      }
      customProviders := customProviders + [NewCustomProvider(newProviderName, now)];
    }

    /** `searchPlans` (src/InsurancePortal.tsx:1451-1636); `asOf` is the current date. */
    method SearchPlans(asOf: Date)
      requires Valid()
      modifies this
      ensures Valid()
      ensures State() == old(State()).(
        memberResults := SearchResults(old(CurrentCatalog()), old(familyMembers), asOf, old(memberResults)))
    {
      var r := RunSearch(CurrentCatalog(), familyMembers, asOf);
      if r.Some? {
        memberResults := r.value;
      }
    }
  }
}
