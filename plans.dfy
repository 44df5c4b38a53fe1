/**
 * `InsurancePlan` (src/InsurancePortal.tsx:47-62): one row of a member's
 * comparison. Optional fields that the code reads with `&&` (`isManual`,
 * `needsManualRate`) are booleans whose absence is `false`.
 */
module Plans {
  import opened Wrappers
  import opened Records

  datatype Status = NoStatus | Renewal | Alternative | Recommended

  datatype Plan = Plan(
    id: string,
    provider: string,
    name: string,          // the source's `plan` field: the display name
    network: string,
    copay: string,
    premium: real,
    selected: bool,
    status: Status,
    benefits: Record,
    isManual: bool,
    providerKey: Option<string>,
    planLocation: Option<string>,
    salaryCategory: Option<string>,
    needsManualRate: bool)

  /** An "N/A" row: a plan with no rate for this member (`needsManualRate && premium === 0`). */
  predicate IsNA(p: Plan) {
    p.needsManualRate && p.premium == 0.0
  }
}
