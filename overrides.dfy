/**
 * The edit overlay (src/InsurancePortal.tsx:1267-1290): name, network and
 * copay edits are shared per plan id and come from `cloudPlanEdits`; the
 * premium edit is per member, keyed `${memberId}_${planId}`; edited
 * benefits come from the local edits, else from cloud benefits.
 */
module Overrides {
  import opened Wrappers
  import opened Text
  import opened Records
  import opened Plans

  /** An entry of `localPlanEdits`: the premium, when one was saved. */
  datatype LocalEdit = LocalEdit(premium: Option<real>)

  /** The four edit maps an overlay reads. */
  datatype Overlay = Overlay(
    cloudPlanEdits: map<string, Record>,
    localPlanEdits: map<string, LocalEdit>,
    localBenefitsEdits: map<string, Record>,
    cloudBenefits: map<string, Record>)

  /** `${memberId}_${planId}` */
  function MemberKey(m: nat, planId: string): string {
    NatToString(m) + "_" + planId
  }

  /** Member keys never collide: the member id and the plan id can be read back. */
  lemma MemberKeyInjective(m1: nat, id1: string, m2: nat, id2: string)
    requires MemberKey(m1, id1) == MemberKey(m2, id2)
    ensures m1 == m2 && id1 == id2
  {
    var d1, d2 := NatToString(m1), NatToString(m2);
    assert '_' !in d1;
    assert '_' !in d2;
    SplitUnique(d1, id1, d2, id2, '_');
    NatToStringInjective(m1, m2);
  }

  /** A member key begins with a digit. */
  lemma MemberKeyStartsWithDigit(m: nat, planId: string)
    ensures |MemberKey(m, planId)| > 0 && IsDigit(MemberKey(m, planId)[0])
  {
    assert MemberKey(m, planId)[0] == NatToString(m)[0];
  }

  /** The key of the premium edit: member-keyed, or the bare plan id when no member is given. */
  function PremiumKey(memberId: Option<nat>, planId: string): string {
    match memberId
    case Some(m) => MemberKey(m, planId)
    case None => planId
  }

  /** `edit?.[field] || fallback` where the edit holds text. */
  function SharedText(edit: Option<Record>, field: string, fallback: string): string {
    if edit.Some? && field in edit.value && edit.value[field].Str? && edit.value[field].text != ""
    then edit.value[field].text
    else fallback
  }

  function Lookup<V>(m: map<string, V>, k: string): Option<V> {
    if k in m then Some(m[k]) else None
  }

  /** `localBenefitsEdits[id] || cloudBenefits[id]` (every record is truthy). */
  function BenefitsEdit(ov: Overlay, planId: string): Option<Record> {
    if planId in ov.localBenefitsEdits then Some(ov.localBenefitsEdits[planId])
    else Lookup(ov.cloudBenefits, planId)
  }

  /** The premium a member's edits give a plan whose own premium is `base`. */
  function EditedPremium(ov: Overlay, key: string, base: real): real {
    if key in ov.localPlanEdits && ov.localPlanEdits[key].premium.Some?
    then ov.localPlanEdits[key].premium.value
    else base
  }

  /** `applyLocalEdits(plan, memberId)`, with its early return when no edit applies. */
  function ApplyLocalEdits(plan: Plan, memberId: Option<nat>, ov: Overlay): (r: Plan)
    ensures r == plan.(name := r.name, network := r.network, copay := r.copay,
                       premium := r.premium, benefits := r.benefits)
  {
    var cloud := Lookup(ov.cloudPlanEdits, plan.id);
    var key := PremiumKey(memberId, plan.id);
    var local := Lookup(ov.localPlanEdits, key);
    var bens := BenefitsEdit(ov, plan.id);
    if cloud.None? && local.None? && bens.None? then plan
    else
      plan.(
        name := SharedText(cloud, "plan", plan.name),
        network := SharedText(cloud, "network", plan.network),
        copay := SharedText(cloud, "copay", plan.copay),
        premium := if local.Some? && local.value.premium.Some? then local.value.premium.value else plan.premium,
        benefits := bens.GetOr(plan.benefits))
  }

  /**
   * Reference definition: each field is overlaid on its own, with no early
   * return. Name, network and copay depend on the plan id only; the premium
   * on the premium key only.
   */
  function Overlaid(plan: Plan, memberId: Option<nat>, ov: Overlay): Plan {
    var cloud := Lookup(ov.cloudPlanEdits, plan.id);
    plan.(
      name := SharedText(cloud, "plan", plan.name),
      network := SharedText(cloud, "network", plan.network),
      copay := SharedText(cloud, "copay", plan.copay),
      premium := EditedPremium(ov, PremiumKey(memberId, plan.id), plan.premium),
      benefits := BenefitsEdit(ov, plan.id).GetOr(plan.benefits))
  }

  /** The early return is only a shortcut: the overlay is the field-by-field one. */
  lemma ApplyIsOverlaid(plan: Plan, memberId: Option<nat>, ov: Overlay)
    ensures ApplyLocalEdits(plan, memberId, ov) == Overlaid(plan, memberId, ov)
  {
  }

  /** With no cloud edit, no premium edit and no benefits edit for it, a plan is returned unchanged. */
  lemma ApplyWithoutEdits(plan: Plan, memberId: Option<nat>, ov: Overlay)
    requires plan.id !in ov.cloudPlanEdits && PremiumKey(memberId, plan.id) !in ov.localPlanEdits
    requires plan.id !in ov.localBenefitsEdits && plan.id !in ov.cloudBenefits
    ensures ApplyLocalEdits(plan, memberId, ov) == plan
  {
  }

  /**
   * A shared field takes the cloud value exactly when that value is
   * non-empty text; an empty string falls back to the plan's own.
   */
  lemma SharedFieldsFromCloud(plan: Plan, memberId: Option<nat>, ov: Overlay, t: string)
    requires plan.id in ov.cloudPlanEdits && t != ""
    ensures ov.cloudPlanEdits[plan.id] == map["plan" := Str(t)] ==>
      ApplyLocalEdits(plan, memberId, ov).name == t
    ensures ov.cloudPlanEdits[plan.id] == map["plan" := Str("")] ==>
      ApplyLocalEdits(plan, memberId, ov).name == plan.name
  {
  }

  /** Name, network, copay and benefits come out the same whichever member the overlay is for. */
  lemma SharedAcrossMembers(plan: Plan, a: Option<nat>, b: Option<nat>, ov: Overlay)
    ensures var ra, rb := ApplyLocalEdits(plan, a, ov), ApplyLocalEdits(plan, b, ov);
      ra.name == rb.name && ra.network == rb.network && ra.copay == rb.copay && ra.benefits == rb.benefits
  {
    ApplyIsOverlaid(plan, a, ov);
    ApplyIsOverlaid(plan, b, ov);
  }

  /** A defined premium edit under the member's key wins; otherwise the plan keeps its premium. */
  lemma PremiumFromMemberEdit(plan: Plan, m: nat, ov: Overlay)
    ensures var key := MemberKey(m, plan.id);
      ApplyLocalEdits(plan, Some(m), ov).premium ==
        (if key in ov.localPlanEdits && ov.localPlanEdits[key].premium.Some?
         then ov.localPlanEdits[key].premium.value else plan.premium)
  {
    ApplyIsOverlaid(plan, Some(m), ov);
  }

  /** Saving a premium edit for one member changes nothing that the overlay shows any other member. */
  lemma OtherMembersUnaffected(plan: Plan, m1: nat, m2: nat, id: string, e: LocalEdit, ov: Overlay)
    requires m1 != m2
    ensures var ov' := ov.(localPlanEdits := ov.localPlanEdits[MemberKey(m2, id) := e]);
      ApplyLocalEdits(plan, Some(m1), ov') == ApplyLocalEdits(plan, Some(m1), ov)
  {
    var ov' := ov.(localPlanEdits := ov.localPlanEdits[MemberKey(m2, id) := e]);
    if MemberKey(m1, plan.id) == MemberKey(m2, id) {
      MemberKeyInjective(m1, plan.id, m2, id);
    }
    ApplyIsOverlaid(plan, Some(m1), ov);
    ApplyIsOverlaid(plan, Some(m1), ov');
  }

  /**
   * Without a member id the premium key is the bare plan id, so member-keyed
   * premium edits do not reach a plan whose id does not begin with a digit.
   */
  lemma NoMemberIgnoresMemberEdits(plan: Plan, m: nat, id: string, e: LocalEdit, ov: Overlay)
    requires plan.id == [] || !IsDigit(plan.id[0])
    ensures var ov' := ov.(localPlanEdits := ov.localPlanEdits[MemberKey(m, id) := e]);
      ApplyLocalEdits(plan, None, ov') == ApplyLocalEdits(plan, None, ov)
  {
    var ov' := ov.(localPlanEdits := ov.localPlanEdits[MemberKey(m, id) := e]);
    MemberKeyStartsWithDigit(m, id);
    assert plan.id != MemberKey(m, id);
    ApplyIsOverlaid(plan, None, ov);
    ApplyIsOverlaid(plan, None, ov');
  }

  /** Applying the overlay twice is the same as applying it once. */
  lemma ApplyIdempotent(plan: Plan, memberId: Option<nat>, ov: Overlay)
    ensures ApplyLocalEdits(ApplyLocalEdits(plan, memberId, ov), memberId, ov) == ApplyLocalEdits(plan, memberId, ov)
  {
    var r := ApplyLocalEdits(plan, memberId, ov);
    ApplyIsOverlaid(plan, memberId, ov);
    ApplyIsOverlaid(r, memberId, ov);
  }

  /**
   * The row as the comparison table shows it to member `m`
   * (src/InsurancePortal.tsx:3194-3202): the shared fields and the member's
   * premium are overlaid, the benefits are the row's own.
   */
  function DisplayPlan(plan: Plan, m: nat, ov: Overlay): (r: Plan)
    ensures r == ApplyLocalEdits(plan, Some(m), ov).(benefits := plan.benefits)
  {
    ApplyIsOverlaid(plan, Some(m), ov);
    var cloud := Lookup(ov.cloudPlanEdits, plan.id);
    plan.(
      name := SharedText(cloud, "plan", plan.name),
      network := SharedText(cloud, "network", plan.network),
      copay := SharedText(cloud, "copay", plan.copay),
      premium := EditedPremium(ov, MemberKey(m, plan.id), plan.premium))
  }
}
