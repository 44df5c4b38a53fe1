/**
 * Plan benefits and the records kept in cloud storage are plain JSON
 * objects. A record is a map from field name to value; object spread
 * `{...a, ...b}` is map union with `b` winning.
 */
module Records {

  /**
   * The values that occur in benefit and edit records: text, flags, numbers,
   * the `{enabled, value}` pairs of dental, optical and alternative medicine,
   * and the `{type, value}` pair of `preexisting`.
   */
  datatype Value =
    | Str(text: string)
    | Bool(flag: bool)
    | Num(number: real)
    | Toggle(enabled: bool, value: string)
    | Tagged(kind: string, value: string)

  type Record = map<string, Value>

  /** JavaScript truthiness: '' , false and 0 are falsy; every object is truthy. */
  predicate Truthy(v: Value) {
    match v
    case Str(t) => t != ""
    case Bool(b) => b
    case Num(n) => n != 0.0
    case Toggle(_, _) => true
    case Tagged(_, _) => true
  }

  /** `{...base, ...over}` */
  function Spread(base: Record, over: Record): (r: Record)
    ensures r.Keys == base.Keys + over.Keys
    ensures forall k :: k in over ==> r[k] == over[k]
    ensures forall k :: k in base && k !in over ==> r[k] == base[k]
  {
    base + over
  }

  /** The names of all benefit fields, new and legacy (src/InsurancePortal.tsx:22-45). */
  const BenefitFields: set<string> := {
    "areaOfCover", "annualLimit", "network", "consultationDeductible", "prescribedDrugs",
    "diagnostics", "preexistingCondition", "physiotherapy", "outpatientMaternity",
    "inpatientMaternity", "dental", "optical", "alternativeMedicine", "inpatient",
    "outpatient", "emergency", "maternity", "preexisting", "pharmacyLimit", "consultation"
  }

  /** `defaultBenefits` (src/InsurancePortal.tsx:87-110): every field present. */
  const DefaultBenefits: Record := map[
    "areaOfCover" := Str(""),
    "annualLimit" := Str("As per policy schedule"),
    "network" := Str(""),
    "consultationDeductible" := Str(""),
    "prescribedDrugs" := Str(""),
    "diagnostics" := Str(""),
    "preexistingCondition" := Str(""),
    "physiotherapy" := Str(""),
    "outpatientMaternity" := Str(""),
    "inpatientMaternity" := Str(""),
    "dental" := Toggle(true, ""),
    "optical" := Toggle(true, ""),
    "alternativeMedicine" := Toggle(false, ""),
    "inpatient" := Str("Covered as per policy terms"),
    "outpatient" := Str("Covered as per policy terms"),
    "emergency" := Str("24/7 Coverage"),
    "maternity" := Str("As per selected plan"),
    "preexisting" := Tagged("standard", "All pre-existing medical conditions should be declared in the Medical Application Form and is subject to medical underwriting."),
    "pharmacyLimit" := Str(""),
    "consultation" := Str("")
  ]

  /** Spreading anything over the defaults leaves no benefit field missing. */
  lemma SpreadOverDefaultsComplete(over: Record)
    ensures BenefitFields <= Spread(DefaultBenefits, over).Keys
  {
    assert DefaultBenefits.Keys == BenefitFields;
  }
}
