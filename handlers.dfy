/**
 * The state updates performed by the component's event handlers, as
 * functions of the old state; the `Portal` class applies them to its
 * fields. Each handler's source lines are cited at its function.
 */
module Handlers {
  import opened Wrappers
  import opened Text
  import opened Records
  import opened Ages
  import opened Rates
  import opened Eligibility
  import opened Plans
  import opened Ranking
  import opened Overrides
  import opened Benefits
  import opened Search
  import Assoc

  // ---------------------------------------------------------------------
  // Family members (src/InsurancePortal.tsx:1293-1335)

  /** The `field`/`value` pair `updateFamilyMember` receives; a cleared date of birth is `SetDob(None)`. */
  datatype MemberChange =
    | SetName(name: string)
    | SetDob(dob: Option<Date>)
    | SetGender(gender: Gender)
    | SetSponsorship(sponsorship: string)
    | SetRelationship(relationship: string)
    | SetMaternity(enabled: bool)

  /** One member after a change, with the relationship recomputed on a date or sponsorship change (:1296-1309). */
  function ChangedMember(m: FamilyMember, ch: MemberChange, asOf: Date): (r: FamilyMember)
    ensures r.id == m.id
  {
    match ch
    case SetName(n) => m.(name := n)
    case SetGender(g) => m.(gender := g)
    case SetMaternity(b) => m.(maternityEnabled := b)
    case SetRelationship(rel) => m.(relationship := rel)
    case SetDob(d) =>
      if d.Some? then m.(dob := d, relationship := AutoRelationship(CalculateAge(d.value, asOf), m.sponsorship))
      else m.(dob := d)
    case SetSponsorship(sp) =>
      if m.dob.Some? then m.(sponsorship := sp, relationship := AutoRelationship(CalculateAge(m.dob.value, asOf), sp))
      else m.(sponsorship := sp)
  }

  /** The relationship is the automatic one for the member's age and sponsorship (vacuous without a date of birth). */
  predicate AutoConsistent(m: FamilyMember, asOf: Date) {
    m.dob.Some? ==> m.relationship == AutoRelationship(CalculateAge(m.dob.value, asOf), m.sponsorship)
  }

  /**
   * Setting a date of birth or a sponsorship leaves the relationship in
   * step with age and sponsorship; only an explicit relationship choice can
   * break that, and any other change keeps it.
   */
  lemma ChangeKeepsRelationshipAuto(m: FamilyMember, ch: MemberChange, asOf: Date)
    requires ch.SetDob? || ch.SetSponsorship? || (AutoConsistent(m, asOf) && !ch.SetRelationship?)
    ensures AutoConsistent(ChangedMember(m, ch, asOf), asOf)
  {
  }

  /** A sponsorship change while the date of birth is empty leaves the relationship as it was. */
  lemma SponsorshipWithoutDob(m: FamilyMember, sp: string, asOf: Date)
    requires m.dob.None?
    ensures ChangedMember(m, SetSponsorship(sp), asOf) == m.(sponsorship := sp)
    ensures ChangedMember(m, SetSponsorship(sp), asOf).relationship == m.relationship
  {
  }

  /** `prev.map(m => m.id !== id ? m : updated)` */
  function UpdateMembers(ms: seq<FamilyMember>, id: nat, ch: MemberChange, asOf: Date): (r: seq<FamilyMember>)
    ensures |r| == |ms|
    ensures forall i :: 0 <= i < |ms| ==> r[i].id == ms[i].id
    ensures forall i :: 0 <= i < |ms| && ms[i].id != id ==> r[i] == ms[i]
    ensures forall i :: 0 <= i < |ms| && ms[i].id == id ==> r[i] == ChangedMember(ms[i], ch, asOf)
  {
    seq(|ms|, i requires 0 <= i < |ms| => if ms[i].id == id then ChangedMember(ms[i], ch, asOf) else ms[i])
  }

  /** Updating keeps the member ids, so distinct ids stay distinct. */
  lemma UpdateKeepsIds(ms: seq<FamilyMember>, id: nat, ch: MemberChange, asOf: Date)
    requires DistinctIds(ms)
    ensures DistinctIds(UpdateMembers(ms, id, ch, asOf))
  {
  }

  /** The member `addFamilyMember` appends (:1315-1326). */
  function NewMember(id: nat): (r: FamilyMember)
    ensures r.id == id && r.dob.None? && AutoConsistent(r, Date(0, 0, 1))
  {
    FamilyMember(id, "", None, Male, "Dependent", "Other", false)
  }

  /** `familyMembers.filter(m => m.id !== id)` */
  function RemoveMember(ms: seq<FamilyMember>, id: nat): (r: seq<FamilyMember>)
    ensures |r| <= |ms|
    ensures forall i :: 0 <= i < |r| ==> r[i].id != id
  {
    if ms == [] then []
    else RemoveMember(ms[..|ms| - 1], id) + (if ms[|ms| - 1].id != id then [ms[|ms| - 1]] else [])
  }

  /** Removal keeps every other member, and with distinct ids it removes at most one. */
  lemma RemoveMemberSpec(ms: seq<FamilyMember>, id: nat)
    ensures forall m :: m in RemoveMember(ms, id) <==> m in ms && m.id != id
    ensures DistinctIds(ms) ==> DistinctIds(RemoveMember(ms, id)) && |RemoveMember(ms, id)| >= |ms| - 1
  {
    RemoveMemberMembers(ms, id);
    if DistinctIds(ms) {
      RemoveMemberDistinct(ms, id);
    }
  }

  lemma {:induction false} RemoveMemberMembers(ms: seq<FamilyMember>, id: nat)
    ensures forall m :: m in RemoveMember(ms, id) <==> m in ms && m.id != id
  {
    if ms != [] {
      var front, last := ms[..|ms| - 1], ms[|ms| - 1];
      RemoveMemberMembers(front, id);
      assert ms == front + [last];
    }
  }

  lemma {:induction false} RemoveMemberDistinct(ms: seq<FamilyMember>, id: nat)
    requires DistinctIds(ms)
    ensures DistinctIds(RemoveMember(ms, id)) && |RemoveMember(ms, id)| >= |ms| - 1
  {
    if ms != [] {
      var n := |ms| - 1;
      var front, last := ms[..n], ms[n];
      assert DistinctIds(front) by {
        forall i, j | 0 <= i < j < |front| ensures front[i].id != front[j].id {
          assert front[i] == ms[i] && front[j] == ms[j];
        }
      }
      RemoveMemberDistinct(front, id);
      var rf := RemoveMember(front, id);
      if last.id != id {
        RemoveMemberMembers(front, id);
        forall i | 0 <= i < |rf| ensures rf[i].id != last.id {
          assert rf[i] in front;
          var k :| 0 <= k < n && front[k] == rf[i];
          assert ms[k] == rf[i];
        }
      } else {
        assert forall i :: 0 <= i < |front| ==> front[i].id != id by {
          forall i | 0 <= i < |front| ensures front[i].id != id {
            assert front[i] == ms[i];
          }
        }
        RemoveNothing(front, id);
      }
    }
  }

  lemma {:induction false} RemoveNothing(ms: seq<FamilyMember>, id: nat)
    requires forall i :: 0 <= i < |ms| ==> ms[i].id != id
    ensures RemoveMember(ms, id) == ms
  {
    if ms != [] {
      RemoveNothing(ms[..|ms| - 1], id);
    }
  }

  // ---------------------------------------------------------------------
  // Custom providers (src/InsurancePortal.tsx:2929-2940)

  /** The provider the add-company button appends: `CUSTOM_${Date.now()}` with the trimmed name. */
  function NewCustomProvider(name: string, now: nat): (string, string) {
    ("CUSTOM_" + NatToString(now), Trim(name))
  }

  /**
   * Once a company is added, a manual plan under its key shows the company's
   * name, provided no built-in provider and no earlier custom provider has
   * that key.
   */
  lemma {:induction false} AddedProviderIsNamed(manual: seq<(string, string)>, custom: seq<(string, string)>,
                                                name: string, now: nat)
    requires Trim(name) != ""
    requires forall i :: 0 <= i < |manual| ==> manual[i].0 != NewCustomProvider(name, now).0
    requires forall i :: 0 <= i < |custom| ==> custom[i].0 != NewCustomProvider(name, now).0
    ensures ProviderName(manual, custom + [NewCustomProvider(name, now)], NewCustomProvider(name, now).0) == Trim(name)
  {
    var p := NewCustomProvider(name, now);
    var c := custom + [p];
    assert c[|custom|] == p;
    assert FindName(c, p.0) == Trim(name);
  }

  // ---------------------------------------------------------------------
  // Manual plans (src/InsurancePortal.tsx:1338-1436)

  /** The add-plan form; a falsy premium field (empty) is None, otherwise the value `parseFloat` gives. */
  datatype ManualForm = ManualForm(planName: string, network: string, copay: string, premium: Option<real>)

  /** `list.find(p => p.id === key)?.name`, with a missing entry read as the falsy "". */
  function FindName(providers: seq<(string, string)>, key: string): (r: string)
    ensures r != "" ==> exists i :: 0 <= i < |providers| && providers[i] == (key, r)
    ensures (forall i :: 0 <= i < |providers| ==> providers[i].0 != key) ==> r == ""
    ensures forall i :: (0 <= i < |providers| && providers[i].0 == key
                         && (forall j :: 0 <= j < i ==> providers[j].0 != key)) ==> r == providers[i].1
  {
    if providers == [] then ""
    else if providers[0].0 == key then providers[0].1
    else FindName(providers[1..], key)
  }

  /** The provider display name: the built-in provider's, else the custom provider's, else the key itself (:1343). */
  function ProviderName(manual: seq<(string, string)>, custom: seq<(string, string)>, key: string): (r: string)
    ensures r == key || (exists i :: 0 <= i < |manual| && manual[i] == (key, r))
                     || (exists i :: 0 <= i < |custom| && custom[i] == (key, r))
    ensures FindName(manual, key) != "" ==> r == FindName(manual, key)
    ensures FindName(manual, key) == "" && FindName(custom, key) != "" ==> r == FindName(custom, key)
    ensures FindName(manual, key) == "" && FindName(custom, key) == "" ==> r == key
  {
    var a := FindName(manual, key);
    if a != "" then a
    else
      var b := FindName(custom, key);
      if b != "" then b else key
  }

  /** The benefits template picked by the upper-cased network's prefix (:1346-1353). */
  function TemplateFor(network: string, t: Templates): (r: Record)
    ensures r in {t.mednet, t.nextcare, t.nas, t.defaults}
    ensures StartsWith(ToUpper(network), "MEDNET") ==> r == t.mednet
    ensures StartsWith(ToUpper(network), "NEXTCARE") ==> r == t.nextcare
    ensures StartsWith(ToUpper(network), "NAS") ==> r == t.nas
    ensures (!StartsWith(ToUpper(network), "MEDNET") && !StartsWith(ToUpper(network), "NEXTCARE")
             && !StartsWith(ToUpper(network), "NAS")) ==> r == t.defaults
  {
    var up := ToUpper(network);
    // The three prefixes differ in their first two letters, so at most one holds.
    assert StartsWith(up, "MEDNET") ==> up[0] == 'M';
    assert StartsWith(up, "NEXTCARE") ==> up[0] == 'N' && up[1] == 'E';
    assert StartsWith(up, "NAS") ==> up[0] == 'N' && up[1] == 'A';
    if StartsWith(up, "MEDNET") then t.mednet
    else if StartsWith(up, "NEXTCARE") then t.nextcare
    else if StartsWith(up, "NAS") then t.nas
    else t.defaults
  }

  /** The plan `addManualPlan` builds (:1355-1367); `now` stands for `Date.now()`. */
  function NewManualPlan(key: string, providerName: string, f: ManualForm, now: nat, t: Templates): Plan
    requires f.premium.Some?
  {
    Plan(key + "_" + NatToString(now), providerName, f.planName,
         if f.network == "" then "Standard" else f.network,
         if f.copay == "" then "Variable" else f.copay,
         f.premium.value, false, NoStatus, TemplateFor(f.network, t), true, Some(key), None, None, false)
  }

  /** Plans added under the same key at different times get different ids. */
  lemma ManualPlanIdsDiffer(key: string, name: string, f: ManualForm, g: ManualForm, now1: nat, now2: nat, t: Templates)
    requires f.premium.Some? && g.premium.Some? && now1 != now2
    ensures NewManualPlan(key, name, f, now1, t).id != NewManualPlan(key, name, g, now2, t).id
  {
    var a, b := key + "_" + NatToString(now1), key + "_" + NatToString(now2);
    if a == b {
      assert a[|key| + 1..] == NatToString(now1);
      assert b[|key| + 1..] == NatToString(now2);
      NatToStringInjective(now1, now2);
    }
  }

  /** `{...manualPlans, [key]: [...(manualPlans[key] || []), plan]}` */
  function AppendManualPlan(mp: Assoc.Assoc<seq<Plan>>, key: string, plan: Plan): (r: Assoc.Assoc<seq<Plan>>)
    ensures Assoc.Get(r, key) == Some(Assoc.Get(mp, key).GetOr([]) + [plan])
    ensures forall k :: k != key ==> Assoc.Get(r, k) == Assoc.Get(mp, k)
  {
    Assoc.Put(mp, key, Assoc.Get(mp, key).GetOr([]) + [plan])
  }

  /** Every member's comparison with the plan appended and re-sorted by plain ascending premium (:1372-1388). */
  function AddToResults(results: map<nat, MemberResult>, plan: Plan): (r: map<nat, MemberResult>)
    ensures r.Keys == results.Keys
  {
    map k | k in results :: results[k].(comparison := Sort(ByPremium, results[k].comparison + [plan]))
  }

  /** After adding, each comparison is the old one plus the plan, in ascending premium order, N/A rows included. */
  lemma AddToResultsSpec(results: map<nat, MemberResult>, plan: Plan, k: nat)
    requires k in results
    ensures var c := AddToResults(results, plan)[k].comparison;
      multiset(c) == multiset(results[k].comparison) + multiset{plan} && Sorted(ByPremium, c)
  {
    SortSorted(ByPremium, results[k].comparison + [plan]);
    SortPermutes(ByPremium, results[k].comparison + [plan]);
  }

  /** `plans.filter(p => p.id !== planId)` */
  function WithoutPlan(s: seq<Plan>, planId: string): (r: seq<Plan>)
    ensures |r| <= |s|
    ensures forall i :: 0 <= i < |r| ==> r[i].id != planId
    ensures multiset(r) <= multiset(s)
  {
    if s == [] then []
    else
      assert s == s[..|s| - 1] + [s[|s| - 1]];
      WithoutPlan(s[..|s| - 1], planId) + (if s[|s| - 1].id != planId then [s[|s| - 1]] else [])
  }

  /** The filter keeps every plan with another id. */
  lemma {:induction false} WithoutPlanKeeps(s: seq<Plan>, planId: string, i: nat)
    requires i < |s| && s[i].id != planId
    ensures s[i] in WithoutPlan(s, planId)
  {
    if i < |s| - 1 {
      WithoutPlanKeeps(s[..|s| - 1], planId, i);
    }
  }

  /** `{...manualPlans, [key]: manualPlans[key]?.filter(p => p.id !== planId) || []}` */
  function ManualPlansWithout(mp: Assoc.Assoc<seq<Plan>>, key: string, planId: string): (r: Assoc.Assoc<seq<Plan>>)
    ensures Assoc.Get(r, key) == Some(WithoutPlan(Assoc.Get(mp, key).GetOr([]), planId))
    ensures forall k :: k != key ==> Assoc.Get(r, k) == Assoc.Get(mp, k)
  {
    Assoc.Put(mp, key, WithoutPlan(Assoc.Get(mp, key).GetOr([]), planId))
  }

  /** Every member's comparison without the plan (:1420-1432). */
  function DropFromResults(results: map<nat, MemberResult>, planId: string): (r: map<nat, MemberResult>)
    ensures r.Keys == results.Keys
  {
    map k | k in results :: results[k].(comparison := WithoutPlan(results[k].comparison, planId))
  }

  /** After a delete no member's comparison holds a plan with the id, and every other plan of it is still there. */
  lemma DropFromResultsSpec(results: map<nat, MemberResult>, planId: string, k: nat, i: nat)
    requires k in results && i < |results[k].comparison|
    ensures var c := DropFromResults(results, planId)[k];
      c.member == results[k].member && c.age == results[k].age
      && (forall j :: 0 <= j < |c.comparison| ==> c.comparison[j].id != planId)
      && (results[k].comparison[i].id != planId ==> results[k].comparison[i] in c.comparison)
  {
    if results[k].comparison[i].id != planId {
      WithoutPlanKeeps(results[k].comparison, planId, i);
    }
  }

  // ---------------------------------------------------------------------
  // Selection and status (src/InsurancePortal.tsx:1639-1699)

  /** Flip `selected` on every plan with the id, as `togglePlanSelection` maps (:1644-1646). */
  function Toggled(s: seq<Plan>, planId: string): (r: seq<Plan>)
    ensures |r| == |s|
    ensures forall i :: 0 <= i < |s| ==> r[i] == (if s[i].id == planId then s[i].(selected := !s[i].selected) else s[i])
  {
    seq(|s|, i requires 0 <= i < |s| => if s[i].id == planId then s[i].(selected := !s[i].selected) else s[i])
  }

  /** Toggling twice restores the comparison. */
  lemma ToggleTwice(s: seq<Plan>, planId: string)
    ensures Toggled(Toggled(s, planId), planId) == s
  {
    var t := Toggled(Toggled(s, planId), planId);
    assert forall i :: 0 <= i < |s| ==> t[i] == s[i];
  }

  /** Set the status of every plan with the id (:1655-1657). */
  function WithStatus(s: seq<Plan>, planId: string, st: Status): (r: seq<Plan>)
    ensures |r| == |s|
    ensures forall i :: 0 <= i < |s| ==> r[i] == (if s[i].id == planId then s[i].(status := st) else s[i])
  {
    seq(|s|, i requires 0 <= i < |s| => if s[i].id == planId then s[i].(status := st) else s[i])
  }

  /** Setting a status twice is setting it once; the last status set wins. */
  lemma WithStatusOverwrites(s: seq<Plan>, planId: string, a: Status, b: Status)
    ensures WithStatus(WithStatus(s, planId, a), planId, b) == WithStatus(s, planId, b)
  {
    var l, r := WithStatus(WithStatus(s, planId, a), planId, b), WithStatus(s, planId, b);
    assert forall i :: 0 <= i < |s| ==> l[i] == r[i];
  }

  /**
   * `selectedStatuses`: the status of each selected plan by id, filled in
   * list order, so the last selected plan with an id gives its status (:1669-1672).
   */
  function SelectedStatuses(s: seq<Plan>): (r: map<string, Status>)
    ensures forall id :: id in r <==> exists i :: 0 <= i < |s| && s[i].selected && s[i].id == id
  {
    if s == [] then map[]
    else
      var prior, p := SelectedStatuses(s[..|s| - 1]), s[|s| - 1];
      if p.selected then prior[p.id := p.status] else prior
  }

  /** The index of the last selected plan with the id, -1 when there is none. */
  function LastSelected(s: seq<Plan>, id: string): (k: int)
    ensures -1 <= k < |s|
    ensures k >= 0 ==> s[k].selected && s[k].id == id
    ensures forall j :: k < j < |s| ==> !(s[j].selected && s[j].id == id)
  {
    if s == [] then -1
    else if s[|s| - 1].selected && s[|s| - 1].id == id then |s| - 1
    else LastSelected(s[..|s| - 1], id)
  }

  /** The recorded status is that of the last selected plan with the id. */
  lemma {:induction false} SelectedStatusIsLast(s: seq<Plan>, id: string)
    requires id in SelectedStatuses(s)
    ensures LastSelected(s, id) >= 0 && SelectedStatuses(s)[id] == s[LastSelected(s, id)].status
  {
    var front, p := s[..|s| - 1], s[|s| - 1];
    if !(p.selected && p.id == id) {
      SelectedStatusIsLast(front, id);
    }
  }

  /** Mark a member's plans with the copied selections (:1684-1688). */
  function CopyMarks(s: seq<Plan>, statuses: map<string, Status>): (r: seq<Plan>)
    ensures |r| == |s|
    ensures forall i :: 0 <= i < |s| ==>
      r[i] == (if s[i].id in statuses then s[i].(selected := true, status := statuses[s[i].id]) else s[i])
  {
    seq(|s|, i requires 0 <= i < |s| =>
      if s[i].id in statuses then s[i].(selected := true, status := statuses[s[i].id]) else s[i])
  }

  /** Copying the same selections again changes nothing. */
  lemma CopyMarksIdempotent(s: seq<Plan>, statuses: map<string, Status>)
    ensures CopyMarks(CopyMarks(s, statuses), statuses) == CopyMarks(s, statuses)
  {
    var l, r := CopyMarks(CopyMarks(s, statuses), statuses), CopyMarks(s, statuses);
    assert forall i :: 0 <= i < |s| ==> l[i] == r[i];
  }

  /** `copyPlansToOthers` on the results: every member but the source gets the source's selections. */
  function CopyToOthers(results: map<nat, MemberResult>, src: nat): (r: map<nat, MemberResult>)
    ensures r.Keys == results.Keys
  {
    if src !in results then results
    else
      var statuses := SelectedStatuses(results[src].comparison);
      if |statuses| == 0 then results
      else (map k | k in results ::
        if k == src then results[k] else results[k].(comparison := CopyMarks(results[k].comparison, statuses)))
  }

  /**
   * Copying: without a source result or with nothing selected nothing
   * changes; otherwise the source is untouched, and in every other member
   * each plan whose id is selected at the source becomes selected with the
   * source's status, while all other plans stay as they were.
   */
  lemma CopyToOthersSpec(results: map<nat, MemberResult>, src: nat, k: nat, i: nat)
    requires k in results && i < |results[k].comparison|
    ensures src !in results || (forall j :: 0 <= j < |results[src].comparison| ==> !results[src].comparison[j].selected)
      ==> CopyToOthers(results, src) == results
    ensures k == src ==> CopyToOthers(results, src)[k] == results[k]
    ensures var p := results[k].comparison[i];
      var q := CopyToOthers(results, src)[k].comparison[i];
      k != src && src in results ==>
        (if exists j :: 0 <= j < |results[src].comparison| && results[src].comparison[j].selected
                        && results[src].comparison[j].id == p.id
         then q == p.(selected := true, status := SelectedStatuses(results[src].comparison)[p.id])
         else q == p)
  {
    if src in results {
      var statuses := SelectedStatuses(results[src].comparison);
      if |statuses| == 0 {
        assert statuses == map[];
      }
    }
  }

  // ---------------------------------------------------------------------
  // Saving an edited row (src/InsurancePortal.tsx:1724-1779)

  /** The edit modal's plan; a falsy premium field is None. */
  datatype EditForm = EditForm(id: string, name: string, network: string, copay: string, premium: Option<real>)

  /** `cloudEditData`: the shared fields, with network and copay defaulted (:1739-1743). */
  function CloudEditOf(f: EditForm): (r: Record)
    ensures r.Keys == {"plan", "network", "copay"}
    ensures forall k :: k in r ==> r[k].Str?
    ensures r["plan"].text == f.name && r["network"].text != "" && r["copay"].text != ""
  {
    map["plan" := Str(f.name),
        "network" := Str(if f.network == "" then "Standard" else f.network),
        "copay" := Str(if f.copay == "" then "Variable" else f.copay)]
  }

  /** One member's comparison after the save; `premium` is the saved value for the edited member and None for the others. */
  function Rewritten(s: seq<Plan>, f: EditForm, premium: Option<real>): (r: seq<Plan>)
    ensures |r| == |s|
  {
    var e := CloudEditOf(f);
    seq(|s|, i requires 0 <= i < |s| =>
      if s[i].id == f.id
      then s[i].(name := e["plan"].text, network := e["network"].text, copay := e["copay"].text,
                 premium := premium.GetOr(s[i].premium))
      else s[i])
  }

  /** Every member's comparison after the save (:1758-1778). */
  function RewriteResults(results: map<nat, MemberResult>, f: EditForm, m: nat): (r: map<nat, MemberResult>)
    requires f.premium.Some?
    ensures r.Keys == results.Keys
  {
    map k | k in results ::
      results[k].(comparison := Rewritten(results[k].comparison, f, if k == m then f.premium else None))
  }

  /**
   * After a save, every member's row of that plan shows the form's name and
   * the defaulted network and copay, only member `m`'s row takes the new
   * premium, and every other row is untouched.
   */
  lemma RewriteResultsSpec(results: map<nat, MemberResult>, f: EditForm, m: nat, k: nat, i: nat)
    requires f.premium.Some? && k in results && i < |results[k].comparison|
    ensures var p := results[k].comparison[i];
      var q := RewriteResults(results, f, m)[k].comparison[i];
      (p.id != f.id ==> q == p)
      && (p.id == f.id ==>
            q.name == f.name && q.network == (if f.network == "" then "Standard" else f.network)
            && q.copay == (if f.copay == "" then "Variable" else f.copay)
            && q.premium == (if k == m then f.premium.value else p.premium)
            && q == p.(name := q.name, network := q.network, copay := q.copay, premium := q.premium))
  {
  }

  /** The overlay after a save: the member-keyed premium edit and the shared cloud edit. */
  function SavedOverlay(ov: Overlay, f: EditForm, m: nat): Overlay
    requires f.premium.Some?
  {
    ov.(localPlanEdits := ov.localPlanEdits[MemberKey(m, f.id) := LocalEdit(f.premium)],
        cloudPlanEdits := ov.cloudPlanEdits[f.id := CloudEditOf(f)])
  }

  /**
   * What is saved is what the display shows from then on: with a non-empty
   * name, the plan shows the saved name, network and copay to every member,
   * the saved premium to member `m`, and every other member keeps the
   * premium it was shown.
   */
  lemma SavedEditIsDisplayed(p: Plan, f: EditForm, m: nat, other: nat, ov: Overlay)
    requires f.premium.Some? && f.name != "" && p.id == f.id && other != m
    ensures var ov' := SavedOverlay(ov, f, m);
      var d := DisplayPlan(p, m, ov');
      d.name == f.name && d.network == (if f.network == "" then "Standard" else f.network)
      && d.copay == (if f.copay == "" then "Variable" else f.copay) && d.premium == f.premium.value
      && DisplayPlan(p, other, ov').name == f.name
      && DisplayPlan(p, other, ov').premium == DisplayPlan(p, other, ov).premium
  {
    var ov' := SavedOverlay(ov, f, m);
    ApplyIsOverlaid(p, Some(m), ov');
    ApplyIsOverlaid(p, Some(other), ov');
    ApplyIsOverlaid(p, Some(other), ov);
    if MemberKey(other, p.id) == MemberKey(m, f.id) {
      MemberKeyInjective(other, p.id, m, f.id);
    }
  }

  // ---------------------------------------------------------------------
  // Updating benefits (src/InsurancePortal.tsx:1839-1909)

  /** `comparison.find(p => p.id === planId)` */
  function FindPlan(s: seq<Plan>, planId: string): (r: Option<Plan>)
    ensures r.None? <==> forall i :: 0 <= i < |s| ==> s[i].id != planId
    ensures r.Some? ==> exists i :: (0 <= i < |s| && s[i] == r.value && r.value.id == planId
      && forall j :: 0 <= j < i ==> s[j].id != planId)
  {
    if s == [] then None
    else if s[0].id == planId then Some(s[0])
    else
      var r := FindPlan(s[1..], planId);
      if r.Some? then
        assert forall j :: 1 <= j < |s| ==> s[j] == s[1..][j - 1];
        r
      else None
  }

  /** Replace the benefits of every plan with the id. */
  function WithBenefits(s: seq<Plan>, planId: string, b: Record): (r: seq<Plan>)
    ensures |r| == |s|
    ensures forall i :: 0 <= i < |s| ==> r[i] == (if s[i].id == planId then s[i].(benefits := b) else s[i])
  {
    seq(|s|, i requires 0 <= i < |s| => if s[i].id == planId then s[i].(benefits := b) else s[i])
  }

  /** Every member's comparison with the plan's new benefits (:1856-1868). */
  function BenefitsEverywhere(results: map<nat, MemberResult>, planId: string, b: Record): (r: map<nat, MemberResult>)
    ensures r.Keys == results.Keys
  {
    map k | k in results :: results[k].(comparison := WithBenefits(results[k].comparison, planId, b))
  }

  /** Every member's rows of the plan get the new benefits; nothing else changes. */
  lemma BenefitsEverywhereSpec(results: map<nat, MemberResult>, planId: string, b: Record, k: nat, i: nat)
    requires k in results && i < |results[k].comparison|
    ensures var p, c := results[k].comparison[i], BenefitsEverywhere(results, planId, b)[k];
      |c.comparison| == |results[k].comparison| && c.member == results[k].member
      && c.comparison[i] == (if p.id == planId then p.(benefits := b) else p)
  {
  }

  /** `{...prev, [providerKey]: prev[providerKey]?.map(...) || []}` (:1876-1881) */
  function ManualBenefits(mp: Assoc.Assoc<seq<Plan>>, key: string, planId: string, b: Record): (r: Assoc.Assoc<seq<Plan>>)
    ensures Assoc.Get(r, key) == Some(if Assoc.Get(mp, key).Some? then WithBenefits(Assoc.Get(mp, key).value, planId, b) else [])
    ensures forall k :: k != key ==> Assoc.Get(r, k) == Assoc.Get(mp, k)
  {
    Assoc.Put(mp, key, if Assoc.Get(mp, key).Some? then WithBenefits(Assoc.Get(mp, key).value, planId, b) else [])
  }

  /**
   * Saved benefits win from then on: the next search resolves the plan's
   * benefits to them, and the overlay puts them on any row with that id.
   */
  lemma SavedBenefitsWin(provider: string, planName: string, planId: string, b: Record,
                         ov: Overlay, t: Templates, p: Plan, memberId: Option<nat>)
    requires p.id == planId && planId != ""
    ensures var ov' := ov.(localBenefitsEdits := ov.localBenefitsEdits[planId := b],
                           cloudBenefits := ov.cloudBenefits[planId := b]);
      GetPlanBenefits(provider, planName, planId, ov'.localBenefitsEdits, ov'.cloudBenefits, t) == b
      && ApplyLocalEdits(p, memberId, ov').benefits == b
  {
    var ov' := ov.(localBenefitsEdits := ov.localBenefitsEdits[planId := b],
                   cloudBenefits := ov.cloudBenefits[planId := b]);
    ApplyIsOverlaid(p, memberId, ov');
    LocalEditWins(provider, planName, planId, ov'.localBenefitsEdits, ov'.cloudBenefits, t);
  }

  // ---------------------------------------------------------------------
  // Report history (src/InsurancePortal.tsx:1922-1970, :1185-1188, :2172-2181)

  /** The fields of a plan a saved report keeps (:1932-1942). */
  datatype SavedPlan = SavedPlan(
    id: string, provider: string, name: string, network: string, copay: string, premium: real,
    selected: bool, status: Status, isManual: bool, providerKey: Option<string>)

  datatype SavedResult = SavedResult(age: int, comparison: seq<SavedPlan>)

  /** `reportState` (:1946-1961); `id` and `timestamp` stand for `Date.now()` and the ISO time. */
  datatype Report = Report(
    id: nat,
    name: string,
    timestamp: string,
    familyMembers: seq<FamilyMember>,
    settings: Settings,
    memberResults: map<nat, SavedResult>,
    advisorComment: string,
    manualPlans: Assoc.Assoc<seq<Plan>>)

  function Saved(p: Plan): SavedPlan {
    SavedPlan(p.id, p.provider, p.name, p.network, p.copay, p.premium, p.selected, p.status, p.isManual, p.providerKey)
  }

  predicate Marked(p: Plan) {
    p.selected || p.status != NoStatus
  }

  /** `comparison.filter(p => p.selected || p.status !== 'none').map(...)` */
  function MarkedPlans(s: seq<Plan>): (r: seq<SavedPlan>)
    ensures |r| <= |s|
    ensures forall q :: q in r ==> q.selected || q.status != NoStatus
  {
    if s == [] then []
    else MarkedPlans(s[..|s| - 1]) + (if Marked(s[|s| - 1]) then [Saved(s[|s| - 1])] else [])
  }

  /** Every selected or status-marked plan is kept in the report. */
  lemma {:induction false} MarkedPlansKeep(s: seq<Plan>, i: nat)
    requires i < |s| && Marked(s[i])
    ensures Saved(s[i]) in MarkedPlans(s)
  {
    if i < |s| - 1 {
      MarkedPlansKeep(s[..|s| - 1], i);
    }
  }

  function MinimalResults(results: map<nat, MemberResult>): (r: map<nat, SavedResult>)
    ensures r.Keys == results.Keys
    ensures forall k :: k in r ==> r[k].age == results[k].age
  {
    map k | k in results :: SavedResult(results[k].age, MarkedPlans(results[k].comparison))
  }

  /** `history.length > 10 ? history.slice(-10) : history` */
  function TrimHistory(h: seq<Report>): (r: seq<Report>)
    ensures |r| == if |h| > 10 then 10 else |h|
    ensures r == h[|h| - |r|..]
  {
    if |h| > 10 then h[|h| - 10..] else h
  }

  /** Saving keeps the new report last, after the (at most nine) most recent earlier ones. */
  lemma SavedReportIsLatest(h: seq<Report>, e: Report)
    requires |h| <= 10
    ensures var r := TrimHistory(h + [e]);
      |r| <= 10 && r[|r| - 1] == e && r[..|r| - 1] == h[|h| - (|r| - 1)..]
  {
  }

  /** `t` is `s` with some elements left out, the rest kept in their order. */
  predicate SubsequenceOf<T(==)>(t: seq<T>, s: seq<T>)
    decreases |s|
  {
    if t == [] then true
    else if s == [] then false
    else (t[|t| - 1] == s[|s| - 1] && SubsequenceOf(t[..|t| - 1], s[..|s| - 1])) || SubsequenceOf(t, s[..|s| - 1])
  }

  /** `reportHistory.filter(r => r.id !== reportId)` (:2175) */
  function WithoutReport(h: seq<Report>, reportId: nat): (r: seq<Report>)
    ensures |r| <= |h|
    ensures forall x :: x in r <==> x in h && x.id != reportId
  {
    if h == [] then []
    else
      assert h == h[..|h| - 1] + [h[|h| - 1]];
      WithoutReport(h[..|h| - 1], reportId) + (if h[|h| - 1].id != reportId then [h[|h| - 1]] else [])
  }

  /** Deleting a report keeps the other reports in their order. */
  lemma {:induction false} WithoutReportInOrder(h: seq<Report>, reportId: nat)
    ensures SubsequenceOf(WithoutReport(h, reportId), h)
  {
    if h != [] {
      var front := h[..|h| - 1];
      WithoutReportInOrder(front, reportId);
      var r, rf := WithoutReport(h, reportId), WithoutReport(front, reportId);
      if h[|h| - 1].id != reportId {
        assert r == rf + [h[|h| - 1]];
        assert r[..|r| - 1] == rf;
      } else {
        assert r == rf;
      }
    }
  }
}
