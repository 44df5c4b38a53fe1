/**
 * Which rate-table plans are candidates for a member
 * (src/InsurancePortal.tsx:1477-1495). Location and salary tags are
 * substring tests on the plan name; the salary and sponsorship rule applies
 * to ORIENT only. Manual plans never pass through here.
 */
module Eligibility {
  import opened Text

  /** The two shared settings: `location` and `salaryCategory`. */
  datatype Settings = Settings(location: string, salaryCategory: string) {
    predicate IsDubai() { location == "Dubai" }
    predicate IsBelowSalary() { salaryCategory == "below4000" }
  }

  /** Northern Emirates tag (src/InsurancePortal.tsx:1477). */
  predicate IsNEPlan(planName: string) {
    Contains(planName, "_NE") || StartsWith(planName, "NE_") || Contains(planName, "NEMED")
  }

  /** Dubai tag (src/InsurancePortal.tsx:1478). */
  predicate IsDubaiPlan(planName: string) {
    Contains(planName, "_DXB") || Contains(planName, "DMED") || Contains(planName, "EMED")
    || Contains(planName, "IMED") || Contains(planName, "DUBAI")
  }

  /** Low-salary-band tag. */
  predicate IsLSB(planName: string) {
    Contains(planName, "_LSB")
  }

  /** Non-low-salary-band tag; IMED_DXB counts as one. */
  predicate IsNLSB(planName: string) {
    Contains(planName, "_NLSB") || planName == "IMED_DXB"
  }

  /** The location rule (src/InsurancePortal.tsx:1480-1481). */
  predicate LocationAllows(planName: string, isDubai: bool) {
    !(IsDubaiPlan(planName) && !isDubai) && !(IsNEPlan(planName) && isDubai)
  }

  /** ORIENT's salary and sponsorship rule (src/InsurancePortal.tsx:1484-1495). */
  predicate OrientAllows(planName: string, sponsorship: string, isBelowSalary: bool) {
    if sponsorship == "Principal" then
      !(isBelowSalary && IsNLSB(planName)) && !(!isBelowSalary && IsLSB(planName))
    else
      !(Contains(planName, "EMED") || planName == "IMED_DXB")
  }

  /** A table plan survives both filters. */
  predicate IsCandidate(provider: string, planName: string, sponsorship: string, s: Settings) {
    LocationAllows(planName, s.IsDubai())
    && (provider != "ORIENT" || OrientAllows(planName, sponsorship, s.IsBelowSalary()))
  }

  /** A plan tagged both Dubai and Northern Emirates is excluded wherever the member lives. */
  lemma DoublyTaggedNeverCandidate(provider: string, planName: string, sponsorship: string, s: Settings)
    requires IsDubaiPlan(planName) && IsNEPlan(planName)
    ensures !IsCandidate(provider, planName, sponsorship, s)
  {
  }

  /** Every NEMED name contains 'EMED', so NEMED plans carry both tags and are never listed. */
  lemma NemedNeverCandidate(provider: string, planName: string, sponsorship: string, s: Settings)
    requires Contains(planName, "NEMED")
    ensures IsDubaiPlan(planName) && IsNEPlan(planName)
    ensures !IsCandidate(provider, planName, sponsorship, s)
  {
    assert "NEMED"[1..][..4] == "EMED";
    ContainsAt("NEMED", "EMED", 1);
    ContainsTrans(planName, "NEMED", "EMED");
  }

  /** '_NEXTCARE' contains '_NE': such plans are Northern-Emirates plans for the location rule. */
  lemma NextcareIsNorthernEmirates(planName: string)
    requires Contains(planName, "_NEXTCARE")
    ensures IsNEPlan(planName)
    ensures !LocationAllows(planName, true)
  {
    assert "_NE" <= "_NEXTCARE";
    ContainsTrans(planName, "_NEXTCARE", "_NE");
  }

  /** A name without tags is offered in both locations. */
  lemma UntaggedEverywhere(planName: string, isDubai: bool)
    requires !IsDubaiPlan(planName) && !IsNEPlan(planName)
    ensures LocationAllows(planName, isDubai)
  {
  }

  /**
   * An ORIENT Dubai low-salary-band plan that carries no other salary or
   * Northern-Emirates tag is a candidate for a Principal exactly when the
   * location is Dubai and the salary is below 4000: flipping either
   * setting removes it.
   */
  lemma DubaiLowSalaryRoundTrip(planName: string, s: Settings)
    requires IsDubaiPlan(planName) && IsLSB(planName)
    requires !IsNEPlan(planName) && !IsNLSB(planName)
    ensures IsCandidate("ORIENT", planName, "Principal", s) <==> s.IsDubai() && s.IsBelowSalary()
  {
  }

  /** For a non-Principal every EMED plan and IMED_DXB are excluded at ORIENT, whatever the salary. */
  lemma DependentsLoseEmed(planName: string, sponsorship: string, s: Settings)
    requires sponsorship != "Principal"
    requires Contains(planName, "EMED") || planName == "IMED_DXB"
    ensures !IsCandidate("ORIENT", planName, sponsorship, s)
  {
  }

  /** The salary rule is ORIENT's alone: other providers see only the location rule. */
  lemma SalaryRuleOnlyOrient(provider: string, planName: string, sponsorship: string, s: Settings)
    requires provider != "ORIENT"
    ensures IsCandidate(provider, planName, sponsorship, s) <==> LocationAllows(planName, s.IsDubai())
  {
  }

  /** The tags of the source's ORIENT plan `DMED_LSB`: Dubai and low salary band, nothing else. */
  lemma DmedLsbTags(name: string)
    requires name == "DMED_LSB"
    ensures IsDubaiPlan(name) && IsLSB(name) && !IsNLSB(name) && !IsNEPlan(name)
  {
    ContainsAt(name, "DMED", 0);
    ContainsAt(name, "_LSB", 4);
    // 'DMED_LSB' has no 'N', so none of the tags spelled with one occurs in it
    assert 'N' !in name && name[0] != 'N';
    MissingCharNotContained(name, "_NLSB", 'N');
    MissingCharNotContained(name, "_NE", 'N');
    MissingCharNotContained(name, "NEMED", 'N');
  }

  /** The source's own ORIENT plan `DMED_LSB` is offered to a Principal in Dubai below 4000 and nowhere else. */
  lemma OrientNames()
    ensures IsDubaiPlan("DMED_LSB") && IsLSB("DMED_LSB") && !IsNLSB("DMED_LSB")
    ensures IsCandidate("ORIENT", "DMED_LSB", "Principal", Settings("Dubai", "below4000"))
    ensures !IsCandidate("ORIENT", "DMED_LSB", "Principal", Settings("Northern Emirates", "below4000"))
    ensures !IsCandidate("ORIENT", "DMED_LSB", "Principal", Settings("Dubai", "above4000"))
  {
    DmedLsbTags("DMED_LSB");
    DubaiLowSalaryRoundTrip("DMED_LSB", Settings("Dubai", "below4000"));
    DubaiLowSalaryRoundTrip("DMED_LSB", Settings("Northern Emirates", "below4000"));
    DubaiLowSalaryRoundTrip("DMED_LSB", Settings("Dubai", "above4000"));
  }
}
