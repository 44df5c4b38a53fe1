/**
 * The result filter (src/InsurancePortal.tsx:2184-2196) and the per-plan
 * totals of the generated report (src/InsurancePortal.tsx:2312-2337).
 */
module Reports {
  import opened Wrappers
  import opened Text
  import opened Plans
  import opened Handlers

  /** The four search boxes; an empty box matches everything. */
  datatype Filters = Filters(provider: string, plan: string, network: string, copay: string)

  /** `!box || field.toLowerCase().includes(box.toLowerCase())` */
  predicate FieldMatches(field: string, box: string) {
    box == "" || Contains(ToLower(field), ToLower(box))
  }

  predicate Matches(p: Plan, f: Filters) {
    FieldMatches(p.provider, f.provider) && FieldMatches(p.name, f.plan)
    && FieldMatches(p.network, f.network) && FieldMatches(p.copay, f.copay)
  }

  /** `filterPlans`: the matching plans, in their order. */
  function FilterPlans(s: seq<Plan>, f: Filters): seq<Plan> {
    if s == [] then []
    else FilterPlans(s[..|s| - 1], f) + (if Matches(s[|s| - 1], f) then [s[|s| - 1]] else [])
  }

  /** The filter keeps only matching plans, each at most as often as it occurs. */
  lemma {:induction false} FilterPlansSpec(s: seq<Plan>, f: Filters)
    ensures |FilterPlans(s, f)| <= |s|
    ensures forall i :: 0 <= i < |FilterPlans(s, f)| ==> Matches(FilterPlans(s, f)[i], f)
    ensures multiset(FilterPlans(s, f)) <= multiset(s)
  {
    if s != [] {
      var front, last := s[..|s| - 1], s[|s| - 1];
      FilterPlansSpec(front, f);
      assert s == front + [last];
    }
  }

  /** The kept plans stay in the order they had. */
  lemma {:induction false} FilterPlansInOrder(s: seq<Plan>, f: Filters)
    ensures SubsequenceOf(FilterPlans(s, f), s)
  {
    if s != [] {
      var front := s[..|s| - 1];
      FilterPlansInOrder(front, f);
      var r, rf := FilterPlans(s, f), FilterPlans(front, f);
      if Matches(s[|s| - 1], f) {
        assert r == rf + [s[|s| - 1]];
        assert r[..|r| - 1] == rf;
      } else {
        assert r == rf;
      }
    }
  }

  /** Every matching plan is kept. */
  lemma {:induction false} FilterKeepsMatches(s: seq<Plan>, f: Filters, i: nat)
    requires i < |s| && Matches(s[i], f)
    ensures s[i] in FilterPlans(s, f)
  {
    if i < |s| - 1 {
      FilterKeepsMatches(s[..|s| - 1], f, i);
    }
  }

  /** With all four boxes empty the filter returns the list as it is. */
  lemma EmptyFiltersKeepAll(s: seq<Plan>)
    ensures FilterPlans(s, Filters("", "", "", "")) == s
  {
    BlankFiltersKeepAll(s, Filters("", "", "", ""));
  }

  lemma {:induction false} BlankFiltersKeepAll(s: seq<Plan>, f: Filters)
    requires f.provider == "" && f.plan == "" && f.network == "" && f.copay == ""
    ensures FilterPlans(s, f) == s
  {
    if s != [] {
      var front, last := s[..|s| - 1], s[|s| - 1];
      BlankFiltersKeepAll(front, f);
      assert Matches(last, f);
      assert FilterPlans(s, f) == FilterPlans(front, f) + [last];
    }
  }

  /** The search is case-insensitive: a box and its upper-cased form select the same plans. */
  lemma CaseInsensitive(field: string, box: string)
    ensures FieldMatches(field, box) <==> FieldMatches(field, ToUpper(box))
  {
    LowerOfUpper(box);
  }

  lemma {:induction false} LowerOfUpper(s: string)
    ensures ToLower(ToUpper(s)) == ToLower(s)
    ensures ToUpper(s) == "" <==> s == ""
  {
    if s != [] {
      LowerOfUpper(s[1..]);
    }
  }

  // ---------------------------------------------------------------------
  // Report totals

  /** The Basmah fee per insured person: 37 in Dubai, 24 in the Northern Emirates. */
  function BasmahFee(isDubai: bool): real {
    if isDubai then 37.0 else 24.0
  }

  datatype Totals = Totals(gross: real, members: nat, basmah: real, vat: real, grand: real)

  /** Premiums of the plan summed over the members whose comparison lists it, and how many do. */
  function GrossOf(comparisons: seq<seq<Plan>>, planId: string): (r: (real, nat))
    ensures r.1 <= |comparisons|
  {
    if comparisons == [] then (0.0, 0)
    else
      var prior := GrossOf(comparisons[..|comparisons| - 1], planId);
      var found := FindPlan(comparisons[|comparisons| - 1], planId);
      if found.Some? then (prior.0 + found.value.premium, prior.1 + 1) else prior
  }

  /** The totals of one selected plan: gross, Basmah for each member holding it, 5% VAT on both. */
  function TotalsOf(comparisons: seq<seq<Plan>>, planId: string, isDubai: bool): (t: Totals)
    ensures t.members <= |comparisons|
    ensures t.basmah == BasmahFee(isDubai) * (t.members as real)
    ensures t.vat == (t.gross + t.basmah) / 20.0
    ensures t.grand == (t.gross + t.basmah) * 21.0 / 20.0
  {
    var g := GrossOf(comparisons, planId);
    var basmah := BasmahFee(isDubai) * (g.1 as real);
    var vat := (g.0 + basmah) * 0.05;
    Totals(g.0, g.1, basmah, vat, g.0 + basmah + vat)
  }

  /** When every member lists the plan, Basmah is charged for all of them. */
  lemma {:induction false} AllMembersCharged(comparisons: seq<seq<Plan>>, planId: string)
    requires forall i :: 0 <= i < |comparisons| ==> FindPlan(comparisons[i], planId).Some?
    ensures GrossOf(comparisons, planId).1 == |comparisons|
  {
    if comparisons != [] {
      var front := comparisons[..|comparisons| - 1];
      assert forall i :: 0 <= i < |front| ==> front[i] == comparisons[i];
      AllMembersCharged(front, planId);
    }
  }

  /** Gross premiums of plans that no member is charged a negative premium for are never negative. */
  lemma {:induction false} GrossNonNegative(comparisons: seq<seq<Plan>>, planId: string)
    requires forall i, j :: 0 <= i < |comparisons| && 0 <= j < |comparisons[i]| ==> comparisons[i][j].premium >= 0.0
    ensures GrossOf(comparisons, planId).0 >= 0.0
  {
    if comparisons != [] {
      var front := comparisons[..|comparisons| - 1];
      assert forall i :: 0 <= i < |front| ==> front[i] == comparisons[i];
      GrossNonNegative(front, planId);
    }
  }

  /** `allMembersWithSelections.forEach(m => { grossPremium += ...; memberCount++ })` and the arithmetic after it. */
  method ComputeTotals(comparisons: seq<seq<Plan>>, planId: string, isDubai: bool) returns (t: Totals)
    ensures t == TotalsOf(comparisons, planId, isDubai)
  {
    var gross := 0.0;
    var count := 0;
    var i := 0;
    while i < |comparisons|
      invariant 0 <= i <= |comparisons|
      invariant (gross, count) == GrossOf(comparisons[..i], planId)
    {
      var found := FindPlan(comparisons[i], planId);
      if found.Some? {
        gross := gross + found.value.premium;
        count := count + 1;
      }
      assert comparisons[..i + 1][..i] == comparisons[..i];
      i := i + 1;
    }
    assert comparisons[..i] == comparisons;
    var basmah := BasmahFee(isDubai) * (count as real);
    var vat := (gross + basmah) * 0.05;
    t := Totals(gross, count, basmah, vat, gross + basmah + vat);
  }
}
