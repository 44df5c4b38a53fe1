/**
 * `searchPlans` (src/InsurancePortal.tsx:1451-1636): for every family
 * member, the sorted comparison of listed table plans and manual plans with
 * its price statistics. The functions give the result; the methods compute
 * it with the source's loops and change nothing.
 */
module Search {
  import opened Wrappers
  import opened Ages
  import opened Rates
  import opened Eligibility
  import opened Plans
  import opened Ranking
  import opened Overrides
  import opened Benefits
  import opened Rows
  import Assoc

  /** `FamilyMember` (src/InsurancePortal.tsx:12-20); an empty `dob` is None. */
  datatype FamilyMember = FamilyMember(
    id: nat,
    name: string,
    dob: Option<Date>,
    gender: Gender,
    sponsorship: string,
    relationship: string,
    maternityEnabled: bool)

  /** `MemberResult` (src/InsurancePortal.tsx:64-71). */
  datatype MemberResult = MemberResult(
    member: FamilyMember,
    age: int,
    comparison: seq<Plan>,
    minPrice: real,
    maxPrice: real,
    avgPrice: real)

  /** What the search reads besides the members. */
  datatype Catalog = Catalog(
    db: RateTable,
    templates: Templates,
    overlay: Overlay,
    settings: Settings,
    manualPlans: Assoc.Assoc<seq<Plan>>)

  /** The unsorted rows of one applicant: table rows, then every manual plan. */
  function Collected(c: Catalog, a: Applicant): seq<Plan> {
    TableRows(c.db, c.templates, c.overlay, c.settings, a, c.db) + ManualRows(c.manualPlans, c.overlay, c.templates)
  }

  /** The comparison of one applicant: the collected rows, N/A rows last, otherwise by premium. */
  function Comparison(c: Catalog, a: Applicant): seq<Plan> {
    Sort(NaLast, Collected(c, a))
  }

  /** A dated member whose age is within 0..100; any other age is skipped. */
  predicate Searchable(m: FamilyMember, asOf: Date) {
    m.dob.Some? && 0 <= CalculateAge(m.dob.value, asOf) <= 100
  }

  /** The result for one searchable member. */
  function MemberSearch(c: Catalog, m: FamilyMember, asOf: Date): MemberResult
    requires Searchable(m, asOf)
  {
    var age := CalculateAge(m.dob.value, asOf);
    var rows := Comparison(c, Applicant(age, m.gender, m.sponsorship));
    var st := Stats(rows);
    MemberResult(m, age, rows, st.minPrice, st.maxPrice, st.avgPrice)
  }

  predicate AllDated(members: seq<FamilyMember>) {
    forall i :: 0 <= i < |members| ==> members[i].dob.Some?
  }

  predicate DistinctIds(members: seq<FamilyMember>) {
    forall i, j :: 0 <= i < j < |members| ==> members[i].id != members[j].id
  }

  /** The results of members in list order; a later member with the same id overwrites an earlier one. */
  function SearchAll(c: Catalog, members: seq<FamilyMember>, asOf: Date): map<nat, MemberResult>
    requires AllDated(members)
  {
    if members == [] then map[]
    else
      var front, m := members[..|members| - 1], members[|members| - 1];
      var prior := SearchAll(c, front, asOf);
      if Searchable(m, asOf) then prior[m.id := MemberSearch(c, m, asOf)] else prior
  }

  /** `searchPlans`: with any member undated nothing changes; otherwise the new results replace the old ones. */
  function SearchResults(c: Catalog, members: seq<FamilyMember>, asOf: Date, current: map<nat, MemberResult>): map<nat, MemberResult> {
    if AllDated(members) then SearchAll(c, members, asOf) else current
  }

  /** A comparison holds exactly the collected rows, priced rows first by ascending premium, N/A rows last. */
  lemma ComparisonSpec(c: Catalog, a: Applicant)
    ensures multiset(Comparison(c, a)) == multiset(Collected(c, a))
    ensures var r := Comparison(c, a);
      forall i, j :: 0 <= i < j < |r| ==>
        (IsNA(r[i]) ==> IsNA(r[j])) && (!IsNA(r[j]) ==> r[i].premium <= r[j].premium)
  {
    var s := Collected(c, a);
    assert Comparison(c, a) == Sort(NaLast, s);
    SortPermutes(NaLast, s);
    SearchOrder(s);
  }

  /** A member's result holds the comparison for its insurance age and that comparison's statistics. */
  lemma MemberSearchSpec(c: Catalog, m: FamilyMember, asOf: Date)
    requires Searchable(m, asOf)
    ensures var r := MemberSearch(c, m, asOf);
      r.member == m && r.age == CalculateAge(m.dob.value, asOf) && 0 <= r.age <= 100
      && r.comparison == Comparison(c, Applicant(r.age, m.gender, m.sponsorship))
      && PriceStats(r.minPrice, r.maxPrice, r.avgPrice) == Stats(r.comparison)
  {
  }

  /** Manual plans bypass every filter: each one is in the comparison of every member, once per occurrence. */
  lemma ManualPlansAlwaysListed(c: Catalog, a: Applicant)
    ensures multiset(ManualRows(c.manualPlans, c.overlay, c.templates)) <= multiset(Comparison(c, a))
    ensures |Comparison(c, a)| == |TableRows(c.db, c.templates, c.overlay, c.settings, a, c.db)|
                                  + |Assoc.Flatten(c.manualPlans)|
  {
    SortPermutes(NaLast, Collected(c, a));
  }

  /** A member gets a result exactly when some member with that id is of age 0..100. */
  lemma {:induction false} SearchAllDomain(c: Catalog, members: seq<FamilyMember>, asOf: Date, id: nat)
    requires AllDated(members)
    ensures id in SearchAll(c, members, asOf) <==>
      exists i :: 0 <= i < |members| && members[i].id == id && Searchable(members[i], asOf)
  {
    if members != [] {
      var front := members[..|members| - 1];
      SearchAllDomain(c, front, asOf, id);
      assert forall i :: 0 <= i < |front| ==> front[i] == members[i];
    }
  }

  /** With distinct ids, each member's entry is that member's own result. */
  lemma {:induction false} SearchAllEntry(c: Catalog, members: seq<FamilyMember>, asOf: Date, i: nat)
    requires AllDated(members) && DistinctIds(members) && i < |members|
    requires Searchable(members[i], asOf)
    ensures members[i].id in SearchAll(c, members, asOf)
    ensures SearchAll(c, members, asOf)[members[i].id] == MemberSearch(c, members[i], asOf)
  {
    var front := members[..|members| - 1];
    if i < |members| - 1 {
      assert front[i] == members[i];
      SearchAllEntry(c, front, asOf, i);
    }
  }

  /** An undated member blocks the search: the old results stay. */
  lemma UndatedBlocksSearch(c: Catalog, members: seq<FamilyMember>, asOf: Date, current: map<nat, MemberResult>, i: nat)
    requires i < |members| && members[i].dob.None?
    ensures SearchResults(c, members, asOf, current) == current
  {
  }

  // ---------------------------------------------------------------------
  // The loops of `searchPlans`

  /** `Object.keys(plans).forEach(planName => ...)` for one provider. */
  method CollectProviderRows(c: Catalog, a: Applicant, provider: string, plans: PlanTable) returns (rows: seq<Plan>)
    ensures rows == ProviderRows(c.db, c.templates, c.overlay, c.settings, a, provider, plans)
  {
    rows := [];
    var i := 0;
    while i < |plans|
      invariant 0 <= i <= |plans|
      invariant rows == ProviderRows(c.db, c.templates, c.overlay, c.settings, a, provider, plans[..i])
    {
      var r := TableRow(c.db, c.templates, c.overlay, c.settings, a, provider, plans[i].0);
      if r.Some? {
        rows := rows + [r.value];
      }
      ProviderRowsStep(c, a, provider, plans, i);
      i := i + 1;
    }
    assert plans[..i] == plans;
  }

  lemma ProviderRowsStep(c: Catalog, a: Applicant, provider: string, plans: PlanTable, i: nat)
    requires i < |plans|
    ensures var r := TableRow(c.db, c.templates, c.overlay, c.settings, a, provider, plans[i].0);
      ProviderRows(c.db, c.templates, c.overlay, c.settings, a, provider, plans[..i + 1])
      == ProviderRows(c.db, c.templates, c.overlay, c.settings, a, provider, plans[..i]) + (if r.Some? then [r.value] else [])
  {
    assert plans[..i + 1][..i] == plans[..i];
  }

  /** `Object.keys(INSURANCE_DB).forEach(provider => ...)`. */
  method CollectTableRows(c: Catalog, a: Applicant) returns (rows: seq<Plan>)
    ensures rows == TableRows(c.db, c.templates, c.overlay, c.settings, a, c.db)
  {
    rows := [];
    var i := 0;
    while i < |c.db|
      invariant 0 <= i <= |c.db|
      invariant rows == TableRows(c.db, c.templates, c.overlay, c.settings, a, c.db[..i])
    {
      var more := CollectProviderRows(c, a, c.db[i].0, c.db[i].1);
      rows := rows + more;
      assert c.db[..i + 1][..i] == c.db[..i];
      i := i + 1;
    }
    assert c.db[..i] == c.db;
  }

  /** `manualPlans[providerKey].forEach(...)` for one provider key. */
  method CollectProviderManualRows(key: string, plans: seq<Plan>, ov: Overlay, t: Templates) returns (more: seq<Plan>)
    ensures more == ProviderManualRows(key, plans, ov, t)
  {
    more := [];
    var j := 0;
    while j < |plans|
      invariant 0 <= j <= |plans|
      invariant more == ProviderManualRows(key, plans[..j], ov, t)
    {
      more := more + [ManualRow(plans[j], key, ov, t)];
      ProviderManualRowsStep(key, plans, ov, t, j);
      j := j + 1;
    }
    assert plans[..j] == plans;
  }

  lemma ProviderManualRowsStep(key: string, plans: seq<Plan>, ov: Overlay, t: Templates, j: nat)
    requires j < |plans|
    ensures ProviderManualRows(key, plans[..j + 1], ov, t)
      == ProviderManualRows(key, plans[..j], ov, t) + [ManualRow(plans[j], key, ov, t)]
  {
    assert plans[..j + 1][..j] == plans[..j];
  }

  /** `Object.keys(manualPlans).forEach(providerKey => manualPlans[providerKey].forEach(...))`. */
  method CollectManualRows(c: Catalog) returns (rows: seq<Plan>)
    ensures rows == ManualRows(c.manualPlans, c.overlay, c.templates)
  {
    rows := [];
    var i := 0;
    while i < |c.manualPlans|
      invariant 0 <= i <= |c.manualPlans|
      invariant rows == ManualRows(c.manualPlans[..i], c.overlay, c.templates)
    {
      var more := CollectProviderManualRows(c.manualPlans[i].0, c.manualPlans[i].1, c.overlay, c.templates);
      rows := rows + more;
      assert c.manualPlans[..i + 1][..i] == c.manualPlans[..i];
      i := i + 1;
    }
    assert c.manualPlans[..i] == c.manualPlans;
  }

  /** The body of the member loop for a member of age 0..100. */
  method SearchMember(c: Catalog, m: FamilyMember, asOf: Date, manual: seq<Plan>) returns (r: MemberResult)
    requires Searchable(m, asOf)
    requires manual == ManualRows(c.manualPlans, c.overlay, c.templates)
    ensures r == MemberSearch(c, m, asOf)
  {
    var age := CalculateAge(m.dob.value, asOf);
    var a := Applicant(age, m.gender, m.sponsorship);
    var table := CollectTableRows(c, a);
    var rows := Sort(NaLast, table + manual);
    var st := Stats(rows);
    r := MemberResult(m, age, rows, st.minPrice, st.maxPrice, st.avgPrice);
  }

  /** `familyMembers.forEach(member => ...)`, filling `newMemberResults`; None when a member has no date of birth. */
  method RunSearch(c: Catalog, members: seq<FamilyMember>, asOf: Date) returns (results: Option<map<nat, MemberResult>>)
    ensures results.None? <==> !AllDated(members)
    ensures results.Some? ==> results.value == SearchAll(c, members, asOf)
  {
    var k := 0;
    while k < |members|
      invariant 0 <= k <= |members|
      invariant forall i :: 0 <= i < k ==> members[i].dob.Some?
    {
      if members[k].dob.None? {
        return None;
      }
      k := k + 1;
    }
    var acc: map<nat, MemberResult> := map[];
    var manual := CollectManualRows(c);
    k := 0;
    while k < |members|
      invariant 0 <= k <= |members|
      invariant AllDated(members[..k])
      invariant acc == SearchAll(c, members[..k], asOf)
    {
      var m := members[k];
      var age := CalculateAge(m.dob.value, asOf);
      if 0 <= age <= 100 {
        var r := SearchMember(c, m, asOf, manual);
        acc := acc[m.id := r];
      }
      SearchAllStep(c, members, asOf, k);
      k := k + 1;
    }
    assert members[..k] == members;
    return Some(acc);
  }

  lemma SearchAllStep(c: Catalog, members: seq<FamilyMember>, asOf: Date, k: nat)
    requires k < |members| && AllDated(members[..k + 1])
    ensures AllDated(members[..k])
    ensures var m := members[k];
      SearchAll(c, members[..k + 1], asOf)
      == if Searchable(m, asOf) then SearchAll(c, members[..k], asOf)[m.id := MemberSearch(c, m, asOf)]
         else SearchAll(c, members[..k], asOf)
  {
    assert members[..k + 1][..k] == members[..k];
  }
}
