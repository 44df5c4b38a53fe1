/**
 * Decoding the cloud benefits payload (src/InsurancePortal.tsx:1132-1143).
 * Every stored record loses its `_updatedAt` stamp. A key with the
 * `PLAN_EDIT_` prefix, or a record flagged `_isPlanEdit`, is a shared plan
 * edit: the flag is dropped and the key loses the first `PLAN_EDIT_`. Every
 * other key is a benefits record. Keys are visited in order, so a later
 * plan edit for the same plan id overwrites an earlier one.
 */
module CloudDecode {
  import opened Text
  import opened Records
  import Assoc

  const EditPrefix := "PLAN_EDIT_"

  datatype Decoded = Decoded(benefits: map<string, Record>, planEdits: map<string, Record>)

  /** `const { _updatedAt, ...benefitData } = record` */
  function Stored(rec: Record): (r: Record)
    ensures "_updatedAt" !in r
    ensures forall k :: k in rec && k != "_updatedAt" ==> k in r && r[k] == rec[k]
    ensures r.Keys <= rec.Keys
  {
    rec - {"_updatedAt"}
  }

  /** Whether an entry is a plan edit: the key prefix, or a truthy `_isPlanEdit` flag. */
  predicate IsPlanEdit(key: string, rec: Record) {
    StartsWith(key, EditPrefix) || ("_isPlanEdit" in Stored(rec) && Truthy(Stored(rec)["_isPlanEdit"]))
  }

  /** `key.replace('PLAN_EDIT_', '')`: the plan id of an edit entry. */
  function EditId(key: string): string {
    ReplaceFirst(key, EditPrefix, "")
  }

  /** `const { _isPlanEdit, ...editData } = benefitData` */
  function EditData(rec: Record): (r: Record)
    ensures "_isPlanEdit" !in r && "_updatedAt" !in r
  {
    Stored(rec) - {"_isPlanEdit"}
  }

  /** One step of the `forEach` over the payload's keys. */
  function Step(acc: Decoded, key: string, rec: Record): Decoded {
    if IsPlanEdit(key, rec) then acc.(planEdits := acc.planEdits[EditId(key) := EditData(rec)])
    else acc.(benefits := acc.benefits[key := Stored(rec)])
  }

  /** The predicate every decoded pair satisfies: no stamps, no edit flags. */
  predicate Clean(d: Decoded) {
    (forall k :: k in d.benefits ==> "_updatedAt" !in d.benefits[k])
    && (forall k :: k in d.planEdits ==> "_updatedAt" !in d.planEdits[k] && "_isPlanEdit" !in d.planEdits[k])
  }

  /** The decode of a payload whose keys are in `Object.keys` order. */
  function Decode(payload: Assoc.Assoc<Record>): Decoded {
    if payload == [] then Decoded(map[], map[])
    else
      var (key, rec) := payload[|payload| - 1];
      Step(Decode(payload[..|payload| - 1]), key, rec)
  }

  /** A decoded payload holds no stamps and no edit flags. */
  lemma {:induction false} DecodeClean(payload: Assoc.Assoc<Record>)
    ensures Clean(Decode(payload))
  {
    if payload != [] {
      DecodeClean(payload[..|payload| - 1]);
    }
  }

  /** "Entry `i` of `payload` is a plan edit", on the entry's own key and record. */
  predicate EditAt(payload: Assoc.Assoc<Record>, i: nat)
    requires i < |payload|
  {
    IsPlanEdit(payload[i].0, payload[i].1)
  }

  /** Every entry lands in the map its kind says. */
  lemma {:induction false} DecodeCovers(payload: Assoc.Assoc<Record>)
    ensures forall i :: 0 <= i < |payload| && EditAt(payload, i) ==> EditId(payload[i].0) in Decode(payload).planEdits
    ensures forall i :: 0 <= i < |payload| && !EditAt(payload, i) ==> payload[i].0 in Decode(payload).benefits
  {
    if payload != [] {
      var n := |payload| - 1;
      var front := payload[..n];
      DecodeCovers(front);
      assert forall i :: 0 <= i < n ==> front[i] == payload[i];
    }
  }

  /** Nothing else lands in either map: benefits keys are non-edit keys, edit ids come from edit entries. */
  lemma {:induction false} DecodeOrigins(payload: Assoc.Assoc<Record>)
    ensures forall k :: k in Decode(payload).benefits ==>
      exists i :: 0 <= i < |payload| && payload[i].0 == k && !EditAt(payload, i)
    ensures forall id :: id in Decode(payload).planEdits ==>
      exists i :: 0 <= i < |payload| && EditAt(payload, i) && EditId(payload[i].0) == id
  {
    if payload != [] {
      var n := |payload| - 1;
      var front := payload[..n];
      DecodeOrigins(front);
      assert forall i :: 0 <= i < n ==> front[i] == payload[i];
      var d0, d := Decode(front), Decode(payload);
      forall k | k in d.benefits
        ensures exists i :: 0 <= i < |payload| && payload[i].0 == k && !EditAt(payload, i)
      {
        if k in d0.benefits {
          var i :| 0 <= i < n && front[i].0 == k && !EditAt(front, i);
          assert payload[i].0 == k && !EditAt(payload, i);
        } else {
          assert payload[n].0 == k && !EditAt(payload, n);
        }
      }
      forall id | id in d.planEdits
        ensures exists i :: 0 <= i < |payload| && EditAt(payload, i) && EditId(payload[i].0) == id
      {
        if id in d0.planEdits {
          var i :| 0 <= i < n && EditAt(front, i) && EditId(front[i].0) == id;
          assert EditAt(payload, i) && EditId(payload[i].0) == id;
        } else {
          assert EditAt(payload, n) && EditId(payload[n].0) == id;
        }
      }
    }
  }

  /** No decoded benefits key carries the edit prefix. */
  lemma NoPrefixedBenefits(payload: Assoc.Assoc<Record>)
    ensures forall k :: k in Decode(payload).benefits ==> !StartsWith(k, EditPrefix)
  {
    DecodeOrigins(payload);
  }

  /**
   * With distinct keys a benefits entry is the entry's record without its
   * stamp.
   */
  lemma {:induction false} DecodedBenefit(payload: Assoc.Assoc<Record>, i: nat)
    requires Assoc.DistinctKeys(payload) && i < |payload|
    requires !EditAt(payload, i)
    ensures payload[i].0 in Decode(payload).benefits
    ensures Decode(payload).benefits[payload[i].0] == Stored(payload[i].1)
  {
    var n := |payload| - 1;
    var front := payload[..n];
    var (key, rec) := payload[n];
    assert Decode(payload) == Step(Decode(front), key, rec);
    if i < n {
      assert front[i] == payload[i];
      assert Assoc.DistinctKeys(front) by {
        forall a, b | 0 <= a < b < |front| ensures front[a].0 != front[b].0 {
          assert front[a] == payload[a] && front[b] == payload[b];
        }
      }
      DecodedBenefit(front, i);
      assert key != payload[i].0;
    }
  }

  /** A plan edit's id is the key without its `PLAN_EDIT_` prefix. */
  lemma EditIdStripsPrefix(planId: string)
    ensures EditId(EditPrefix + planId) == planId
  {
    StripPrefix(EditPrefix, planId);
  }

  /**
   * The payload entry a shared plan-name edit writes
   * (src/InsurancePortal.tsx:1783-1786), once stored with its stamp and
   * decoded as the last entry, gives back exactly the edit for that plan id.
   */
  lemma SavedEditRoundTrip(payload: Assoc.Assoc<Record>, planId: string, name: string, network: string, copay: string, stamp: Value)
    ensures var rec := map["plan" := Str(name), "network" := Str(network), "copay" := Str(copay),
                           "_isPlanEdit" := Bool(true), "_updatedAt" := stamp];
      var d := Decode(payload + [(EditPrefix + planId, rec)]);
      planId in d.planEdits
      && d.planEdits[planId] == map["plan" := Str(name), "network" := Str(network), "copay" := Str(copay)]
  {
    var rec := map["plan" := Str(name), "network" := Str(network), "copay" := Str(copay),
                   "_isPlanEdit" := Bool(true), "_updatedAt" := stamp];
    var p := payload + [(EditPrefix + planId, rec)];
    assert p[..|p| - 1] == payload;
    EditIdStripsPrefix(planId);
    assert StartsWith(EditPrefix + planId, EditPrefix);
    assert EditData(rec) == map["plan" := Str(name), "network" := Str(network), "copay" := Str(copay)];
  }
}
