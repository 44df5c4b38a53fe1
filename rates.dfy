/**
 * The rate table and `findAgeBand` (src/InsurancePortal.tsx:996-1015).
 * The table is provider -> plan name -> age band -> {M, F} premium, each
 * level an ordered object: the band scan is first-match in key order, and
 * bands may overlap (the ORIENT NEMED_ADULT row at src/InsurancePortal.tsx:461).
 */
module Rates {
  import opened Wrappers
  import opened Text
  import Assoc

  /** The `{M, F}` premium cell of one age band. */
  datatype Cell = Cell(male: real, female: real)

  datatype Gender = Male | Female

  type Bands = Assoc.Assoc<Cell>
  type PlanTable = Assoc.Assoc<Bands>
  type RateTable = Assoc.Assoc<PlanTable>

  /** What `findAgeBand` returns: `null`, `'NO_RATE'`, or a band key. */
  datatype BandResult = Missing | NoRate | Band(key: string)

  /**
   * `Number(s)` on the strings that band keys are made of: a string of
   * decimal digits (the empty string reads as 0); anything else is NaN (None).
   */
  function JsNumber(s: string): Option<int> {
    if AllDigits(s) then Some(DigitsValue(s)) else None
  }

  /** `parseInt(s)`: the leading digits, NaN (None) when there are none. */
  function JsParseInt(s: string): Option<int> {
    var d := DigitPrefix(s);
    if d == [] then None else Some(DigitsValue(d))
  }

  /**
   * Does band key `key` contain `age`? A key with '-' is read as
   * `[min, max] = key.split('-').map(Number)` and matches when
   * `min <= age <= max` (NaN never matches); any other key matches when
   * `parseInt(key)` equals the age.
   */
  predicate BandMatches(key: string, age: int) {
    if '-' in key then
      var lo := JsNumber(TakeUntil(key, '-'));
      var hi := JsNumber(TakeUntil(DropThrough(key, '-'), '-'));
      lo.Some? && hi.Some? && lo.value <= age <= hi.value
    else
      var n := JsParseInt(key);
      n.Some? && n.value == age
  }

  /** A key "a-b" of two digit strings holds exactly the ages from the value of a to the value of b. */
  lemma DigitRangeKey(a: string, b: string, age: int)
    requires AllDigits(a) && AllDigits(b)
    ensures BandMatches(a + "-" + b, age) <==> DigitsValue(a) <= age <= DigitsValue(b)
  {
    assert '-' !in a && '-' !in b;
    assert a + "-" + b == a + ['-'] + b;
    assert (a + "-" + b)[|a|] == '-';
    SplitAtFirst(a, '-', b);
    TakeUntilAbsent(b, '-');
  }

  /** A range key "min-max" written in decimal holds exactly the ages from min to max. */
  lemma RangeKeyMatches(lo: nat, hi: nat, age: int)
    ensures BandMatches(NatToString(lo) + "-" + NatToString(hi), age) <==> lo <= age <= hi
  {
    DigitRangeKey(NatToString(lo), NatToString(hi), age);
    DigitsRoundTrip(lo);
    DigitsRoundTrip(hi);
  }

  /** A single-number key holds exactly that age. */
  lemma SingleKeyMatches(n: nat, age: int)
    ensures BandMatches(NatToString(n), age) <==> age == n
  {
    var s := NatToString(n);
    assert '-' !in s;
    DigitPrefixAll(s);
    DigitsRoundTrip(n);
  }

  /** The index of the first band, in table order, that contains `age`. */
  function FirstMatch(bands: Bands, age: int): (r: Option<nat>)
    ensures r.Some? ==> r.value < |bands| && BandMatches(bands[r.value].0, age)
    ensures r.Some? ==> forall j :: 0 <= j < r.value ==> !BandMatches(bands[j].0, age)
    ensures r.None? ==> forall j :: 0 <= j < |bands| ==> !BandMatches(bands[j].0, age)
  {
    if bands == [] then None
    else if BandMatches(bands[0].0, age) then Some(0)
    else match FirstMatch(bands[1..], age)
      case None => None
      case Some(i) => Some(i + 1)
  }

  /** The bands of `plan` under `provider`, when both exist. */
  function PlanBands(db: RateTable, provider: string, plan: string): Option<Bands> {
    var plans: Option<PlanTable> := Assoc.Get(db, provider);
    if plans.None? then None else Assoc.Get(plans.value, plan)
  }

  /** `findAgeBand(age, provider, plan)` against the table `db`. */
  function FindAgeBand(db: RateTable, age: int, provider: string, plan: string): BandResult {
    match PlanBands(db, provider, plan)
    case None => Missing
    case Some(bands) =>
      match FirstMatch(bands, age)
      case None => NoRate
      case Some(i) => Band(bands[i].0)
  }

  /**
   * `findAgeBand` returns null exactly for a missing provider or plan;
   * otherwise the first band in table order that contains the age, or
   * 'NO_RATE' when none does.
   */
  lemma FindAgeBandSpec(db: RateTable, age: int, provider: string, plan: string)
    ensures FindAgeBand(db, age, provider, plan).Missing? <==> PlanBands(db, provider, plan).None?
    ensures FindAgeBand(db, age, provider, plan).NoRate? <==>
      (PlanBands(db, provider, plan).Some? &&
       forall j :: 0 <= j < |PlanBands(db, provider, plan).value| ==>
         !BandMatches(PlanBands(db, provider, plan).value[j].0, age))
    ensures FindAgeBand(db, age, provider, plan).Band? ==>
      var bands := PlanBands(db, provider, plan).value;
      exists i :: 0 <= i < |bands| && bands[i].0 == FindAgeBand(db, age, provider, plan).key
        && BandMatches(bands[i].0, age)
        && forall j :: 0 <= j < i ==> !BandMatches(bands[j].0, age)
  {
    match PlanBands(db, provider, plan)
    case None =>
    case Some(bands) =>
      match FirstMatch(bands, age)
      case None =>
      case Some(i) =>
        assert bands[i].0 == FindAgeBand(db, age, provider, plan).key;
  }

  /** `plans[planName][band][g]`: the premium cell of a band key, looked up by key. */
  function RateFor(db: RateTable, provider: string, plan: string, band: string, g: Gender): Option<real> {
    var bands := PlanBands(db, provider, plan);
    if bands.None? then None
    else
      var c: Option<Cell> := Assoc.Get(bands.value, band);
      if c.None? then None else Some(if g == Male then c.value.male else c.value.female)
  }

  /**
   * Looking a found band up by its key gives the cell of the first matching
   * band: an earlier band with the same key would have matched first.
   */
  lemma {:induction false} FirstMatchLookup(bands: Bands, age: int)
    requires FirstMatch(bands, age).Some?
    ensures Assoc.Get(bands, bands[FirstMatch(bands, age).value].0) == Some(bands[FirstMatch(bands, age).value].1)
  {
    if !BandMatches(bands[0].0, age) {
      FirstMatchLookup(bands[1..], age);
    }
  }

  /** The band key "lo-hi" written in decimal, as the table's range keys are. */
  function RangeKey(lo: nat, hi: nat): string {
    NatToString(lo) + "-" + NatToString(hi)
  }

  /**
   * Overlapping bands (ORIENT's NEMED_ADULT row, src/InsurancePortal.tsx:461,
   * lists '18-25' before '18-35'): where the first two bands both hold an
   * age the earlier one wins, and the second is found only past the first.
   */
  lemma OverlapFirstWins(db: RateTable, provider: string, plan: string,
                         lo1: nat, hi1: nat, lo2: nat, hi2: nat, age: int)
    requires PlanBands(db, provider, plan).Some?
    requires var b := PlanBands(db, provider, plan).value;
      |b| >= 2 && b[0].0 == RangeKey(lo1, hi1) && b[1].0 == RangeKey(lo2, hi2)
    ensures lo1 <= age <= hi1 ==> FindAgeBand(db, age, provider, plan) == Band(RangeKey(lo1, hi1))
    ensures !(lo1 <= age <= hi1) && lo2 <= age <= hi2 ==>
      FindAgeBand(db, age, provider, plan) == Band(RangeKey(lo2, hi2))
  {
    var b := PlanBands(db, provider, plan).value;
    RangeKeyMatches(lo1, hi1, age);
    if lo1 <= age <= hi1 {
      assert FirstMatch(b, age) == Some(0);
    } else if lo2 <= age <= hi2 {
      RangeKeyMatches(lo2, hi2, age);
      assert b[1..][0] == b[1];
      assert FirstMatch(b[1..], age) == Some(0);
      assert FirstMatch(b, age) == Some(1);
    }
  }

  /** A plan whose only band is "lo-hi" (IMED_DXB's '18-65') has a rate inside the band and none outside. */
  lemma SingleBandRange(db: RateTable, provider: string, plan: string, lo: nat, hi: nat, cell: Cell, age: int)
    requires PlanBands(db, provider, plan) == Some([(RangeKey(lo, hi), cell)])
    ensures lo <= age <= hi ==> FindAgeBand(db, age, provider, plan) == Band(RangeKey(lo, hi))
    ensures !(lo <= age <= hi) ==> FindAgeBand(db, age, provider, plan) == NoRate
  {
    var b: Bands := [(RangeKey(lo, hi), cell)];
    RangeKeyMatches(lo, hi, age);
    assert b[1..] == [];
  }
}
