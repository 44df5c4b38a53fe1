# Insurance portal — plan comparison engine

A Dafny model of the comparison engine of a health-insurance broker portal, a
single React component (`src/InsurancePortal.tsx`). An advisor enters a family
(dates of birth, gender, sponsorship), a location (Dubai or the Northern
Emirates) and a salary band. The portal then does four things:

- For each member it computes an "insurance age", rounded to the nearest
  birthday.
- It lists every table plan the member is eligible for:
  - the premium comes from the first age band of the rate table that holds the age;
  - network, copay and display name are derived from the plan name;
  - benefits are resolved through a priority chain.
- It appends every manually added plan, sorts the list with N/A rows last, and
  computes min/max/average over the priced rows.
- The advisor can then:
  - edit a row (name, network and copay shared per plan; premium per member);
  - edit benefits (shared by every member);
  - select plans, set a status on them, and copy selections to the other members;
  - add or delete manual plans;
  - save reports to a history bounded to ten entries.

The modules follow that structure:

- `Ages`: `calculateAge` and `getAutoRelationship`.
- `Rates`: the rate table and `findAgeBand`.
- `Benefits`: `getPlanBenefits`.
- `Overrides`: `applyLocalEdits` and the display overlay.
- `Eligibility`: the location and salary filters of the search.
- `Rows`: how a row is derived from a plan name.
- `Ranking`: the two sorts and the statistics.
- `Search`: the search as functions, and the loops of `searchPlans` as methods.
- `CloudDecode`: decoding the cloud benefits payload.
- `Handlers`: the state rewrites of each handler, as functions with their lemmas.
- `Portal`: a class whose fields are the component's state maps, and whose
  methods are the handlers.
- `Reports`: the result filter and the report totals.
- `Text`, `Assoc`, `Records`, `Plans`, `Wrappers`: JavaScript strings,
  insertion-ordered objects, benefit records and the plan row.

Modelling choices:

- Money is `real`.
- A date is (year, month 0..11, day), as `getFullYear`, `getMonth` and `getDate` give it.
- An ordered JavaScript object is a sequence of key/value pairs. This covers
  the rate table, `manualPlans`, `PLAN_BENEFITS` and the cloud payload, so key
  order, and with it first-match order, is explicit.
- A benefit record is a `map<string, Value>`, so `{...a, ...b}` is map union.
- The current date, `Date.now()`, the form contents and the cloud and
  `localStorage` contents are parameters.

Some behaviour of the code is modelled as written, not as its comments
suggest. Each case is stated by the member named after it:

- Every `NEMED` plan name contains `EMED`, so it is tagged both Dubai and
  Northern Emirates, and the search never lists it
  (`Eligibility.NemedNeverCandidate`).
- `_NEXTCARE` contains `_NE`, so a plan whose name contains `_NEXTCARE`
  (such as `CLASSIC_NEXTCARE_0`) is a Northern-Emirates plan for the location
  rule (`Eligibility.NextcareIsNorthernEmirates`). Names that begin with
  `NEXTCARE_` (such as `NEXTCARE_PCP_0`) contain no `_NE` and stay untagged.
- An `_NLSB` plan without a table entry gets the `ORIENT_DMED_LSB` benefits.
  The cause is the partial match on the last `_` token: `LSB` occurs in
  `_NLSB` (`Benefits.NlsbPlansGetLsbBenefits`).
- An empty `planId` is falsy, so `getPlanBenefits` then skips the two
  plan-id lookups (`Benefits.EmptyPlanIdSkipsEdits`).
- A Father or Mother under 18 gets the relationship "Other" (the ensures of
  `Ages.AutoRelationship`).
- The premium sort of `addManualPlan` moves zero-premium N/A rows ahead of
  priced rows (`Ranking.PremiumSortMovesNAFirst`).

`loadReportFromHistory` (src/InsurancePortal.tsx:1989-2169) re-implements the
search with different rules. It is not part of this model (see "Left out").

## Model

| member | source | states |
|---|---|---|
| `Ages.CalendarAge` | src/InsurancePortal.tsx:959-965 | the ordinary age: the `n`-th anniversary is on or before the as-of date and the `n+1`-th is after it |
| `Ages.CalendarAgeUnique` | src/InsurancePortal.tsx:959-965 | those two facts determine the calendar age uniquely |
| `Ages.WholeMonthsSinceBirthday` | src/InsurancePortal.tsx:969-977 | the whole months since the last birthday (month difference mod 12, one less when the as-of day is before the birth day) lie in 0..11 |
| `Ages.CalculateAge` | src/InsurancePortal.tsx:956-985 | the insurance age is the calendar age plus one exactly when the whole months since the last birthday are 6 or more |
| `Ages.InsuranceAgeRounds` | src/InsurancePortal.tsx:956-985 | the insurance age is never below the calendar age and at most one above it |
| `Ages.SixMonthBoundary` | src/InsurancePortal.tsx:969-982 | for every date of birth and every `n`: on the same day of the month six months after the `n`-th birthday the insurance age is `n + 1`; one day earlier (birth day 2 or later) it is still `n` |
| `Ages.AutoRelationship` | src/InsurancePortal.tsx:987-994 | each label in both directions: Self iff Principal, Spouse iff Wife/Husband, Parent iff Father/Mother aged 18+, Child iff another sponsorship under 18, Dependent iff another sponsorship aged 18..24; the result is one of six labels |
| `Assoc.Keys` | src/InsurancePortal.tsx:1003 | `Object.keys`: the keys of an ordered object in insertion order |
| `Assoc.Get` | src/InsurancePortal.tsx:997-1001 | property lookup: missing exactly when no entry has the key, otherwise the value of an entry with that key |
| `Assoc.GetAt` | src/InsurancePortal.tsx:1505 | with distinct keys, looking up the key of entry `i` gives entry `i`'s value |
| `Assoc.Put` | src/InsurancePortal.tsx:1370-1373 | `{...o, [k]: v}`: `k` maps to `v`, every other key is unchanged, a new key is appended last and existing keys keep their order |
| `Records.Spread` | src/InsurancePortal.tsx:1598 | `{...base, ...over}`: the keys of both, with `over`'s values winning |
| `Records.SpreadOverDefaultsComplete` | src/InsurancePortal.tsx:1598 | spreading any record over `defaultBenefits` leaves no benefit field missing |
| `Text.ReplaceAllChar` | src/InsurancePortal.tsx:1516 | `replace(/_/g, ' ')`: same length, every `_` replaced, no `_` left |
| `Text.ToLower` | src/InsurancePortal.tsx:2187 | `toLowerCase` character by character (ASCII) |
| `Text.ToUpper` | src/InsurancePortal.tsx:1346 | `toUpperCase` character by character (ASCII) |
| `Text.TrimStart` | src/InsurancePortal.tsx:2929 | a suffix of the string that starts with a non-space, everything dropped before it being whitespace |
| `Text.TrimEnd` | src/InsurancePortal.tsx:2929 | a prefix of the string that ends with a non-space, everything dropped after it being whitespace |
| `Text.Trim` | src/InsurancePortal.tsx:2929 | `trim()` is empty exactly when the string is all whitespace, and otherwise has no whitespace at either end |
| `Text.LastToken` | src/InsurancePortal.tsx:1258 | `split('_').pop()`: a suffix of the key with no `_`, preceded by `_` unless it is the whole key |
| `Text.StripPrefix` | src/InsurancePortal.tsx:1137 | `replace(prefix, '')` on a key that starts with the prefix removes exactly that prefix |
| `Text.ContainsChar` | src/InsurancePortal.tsx:1005 | a string containing a character contains it as a one-character substring |
| `Text.MissingCharNotContained` | src/InsurancePortal.tsx:1477-1478 | a string lacking a character of the pattern does not `includes` the pattern |
| `Text.ReplaceFirstAbsent` | src/InsurancePortal.tsx:1558 | `replace` of an absent pattern changes nothing |
| `Text.NatToString` | src/InsurancePortal.tsx:1356 | the decimal rendering of a number in a template literal is a non-empty digit string |
| `Text.DigitsRoundTrip` | src/InsurancePortal.tsx:1006 | reading back the decimal rendering gives the number |
| `Text.NatToStringInjective` | src/InsurancePortal.tsx:1708 | different numbers render differently |
| `Text.DigitPrefix` | src/InsurancePortal.tsx:1009 | the leading digits `parseInt` reads: a digit prefix followed by a non-digit or the end |
| `Text.TakeUntil` | src/InsurancePortal.tsx:1006 | the part before the first `-`: a prefix without `-`, followed by `-` or the end |
| `Text.DropThrough` | src/InsurancePortal.tsx:1006 | the part after the first `-` is shorter than the key, or empty |
| `Text.SplitAtFirst` | src/InsurancePortal.tsx:1006 | splitting `a-b` (no `-` in `a`) at the first `-` gives back `a` and `b` |
| `Text.SplitUnique` | src/InsurancePortal.tsx:1708 | a string splits at the first separator in only one way |
| `Rates.DigitRangeKey` | src/InsurancePortal.tsx:1005-1007 | a key `a-b` of two digit strings holds exactly the ages from the value of `a` to the value of `b`, inclusive |
| `Rates.RangeKeyMatches` | src/InsurancePortal.tsx:1005-1007 | a decimal range key `min-max` holds exactly the ages `min..max` |
| `Rates.SingleKeyMatches` | src/InsurancePortal.tsx:1008-1010 | a single-number key holds exactly that age |
| `Rates.FirstMatch` | src/InsurancePortal.tsx:1003-1012 | the index of the first band in table order that holds the age: it holds it and no earlier one does; none when no band does |
| `Rates.FindAgeBandSpec` | src/InsurancePortal.tsx:996-1015 | `null` exactly when the provider or plan is missing; `NO_RATE` exactly when the plan exists and no band holds the age; otherwise the first band in table order that holds it |
| `Rates.FirstMatchLookup` | src/InsurancePortal.tsx:1505 | looking the returned band key up again gives the first matching band's cell |
| `Rates.OverlapFirstWins` | src/InsurancePortal.tsx:461 | with overlapping first bands (NEMED_ADULT's `18-25` and `18-35`) the earlier band wins where both hold the age, and the second where only it does |
| `Rates.SingleBandRange` | src/InsurancePortal.tsx:996-1015 | a plan with a single range band has that band inside the range and `NO_RATE` outside it |
| `Benefits.PartialMatch` | src/InsurancePortal.tsx:1255-1261 | the first `PLAN_BENEFITS` key whose last `_` token occurs in the plan name; none when no key's does |
| `Benefits.FirstHitFromSpec` | src/InsurancePortal.tsx:1225-1264 | from index `k` on, the chain gives the fallback when every lookup misses and otherwise the earliest hit |
| `Benefits.FirstHitSpec` | src/InsurancePortal.tsx:1225-1264 | the chain gives `defaultBenefits` when every lookup misses and otherwise the earliest hit |
| `Benefits.FirstHitOfEight` | src/InsurancePortal.tsx:1225-1264 | the first hit of eight lookups is the nested if-chain over them |
| `Benefits.BenefitsAreFirstHit` | src/InsurancePortal.tsx:1225-1264 | `getPlanBenefits` is exactly the first hit of the eight lookups in priority order: local edit by id, cloud by id, cloud by `provider_planName`, table, MEDNET, NEXTCARE and NAS templates, partial match; `defaultBenefits` when all miss |
| `Benefits.LocalEditWins` | src/InsurancePortal.tsx:1227-1229 | a local benefits edit for a non-empty plan id beats every other source |
| `Benefits.EmptyPlanIdSkipsEdits` | src/InsurancePortal.tsx:1227-1234 | with an empty (falsy) plan id neither the local edits nor a cloud record under `""` affect the benefits |
| `Benefits.DefaultOnlyAsLastResort` | src/InsurancePortal.tsx:1262-1263 | when no source holds `defaultBenefits`, the result is `defaultBenefits` exactly when every lookup misses |
| `Benefits.NoNetworkTag` | src/InsurancePortal.tsx:1240-1253 | a name without the letters of the network tags takes none of the three template branches |
| `Benefits.PartialMatchDecides` | src/InsurancePortal.tsx:1254-1260 | with no edit, no cloud record, no table entry and no network tag, the partial match decides the benefits |
| `Benefits.NlsbMatchesLsbKey` | src/InsurancePortal.tsx:1254-1260 | an `_NLSB` name without `3` or `P` partially matches `ORIENT_DMED_LSB` first |
| `Benefits.LsbTokenWins` | src/InsurancePortal.tsx:1254-1260 | in any table whose first keys end in RN3, PCPC and LSB, such a name hits the third key first |
| `Benefits.NlsbPlansGetLsbBenefits` | src/InsurancePortal.tsx:1254-1260 | an `_NLSB` plan without its own entry resolves to the `ORIENT_DMED_LSB` benefits (the code as written) |
| `Eligibility.DoublyTaggedNeverCandidate` | src/InsurancePortal.tsx:1477-1481 | a name tagged both Dubai and Northern Emirates is excluded wherever the member lives |
| `Eligibility.NemedNeverCandidate` | src/InsurancePortal.tsx:1477-1481 | every `NEMED` name carries both tags and is never a candidate |
| `Eligibility.NextcareIsNorthernEmirates` | src/InsurancePortal.tsx:1477 | a `_NEXTCARE` name is a Northern-Emirates plan and is excluded in Dubai |
| `Eligibility.UntaggedEverywhere` | src/InsurancePortal.tsx:1480-1481 | an untagged name passes the location rule in both locations |
| `Eligibility.DubaiLowSalaryRoundTrip` | src/InsurancePortal.tsx:1480-1490 | a Dubai low-salary ORIENT plan reaches a Principal exactly in Dubai below 4000 |
| `Eligibility.DependentsLoseEmed` | src/InsurancePortal.tsx:1491-1494 | a non-Principal never gets an ORIENT EMED plan or IMED_DXB, whatever the salary |
| `Eligibility.SalaryRuleOnlyOrient` | src/InsurancePortal.tsx:1484-1495 | providers other than ORIENT are filtered by location only, in both directions |
| `Eligibility.DmedLsbTags` | src/InsurancePortal.tsx:1477-1486 | `DMED_LSB` is tagged Dubai and low salary and carries neither the NE nor the NLSB tag |
| `Eligibility.OrientNames` | src/InsurancePortal.tsx:1477-1495 | ORIENT's `DMED_LSB` reaches a Principal in Dubai below 4000, but not in the Northern Emirates and not above 4000 |
| `Rows.CopaySpec` | src/InsurancePortal.tsx:1518-1523 | each copay label in both directions: 0%, 10%, 20% iff the name ends in `_0`, `_10`, `_20`, otherwise Variable |
| `Rows.FirstRule` | src/InsurancePortal.tsx:1526-1547 | the first rule of the name chain whose pattern occurs in the name; none exactly when no pattern does |
| `Rows.RuleNetworks` | src/InsurancePortal.tsx:1526-1547 | every named rule sets network MEDNET, NEXTCARE or NAS |
| `Rows.NetworkLabels` | src/InsurancePortal.tsx:1516-1555 | the network is always one of eight labels |
| `Rows.RulesStartWithNetwork` | src/InsurancePortal.tsx:1526-1547 | each rule's pattern begins with its network's name |
| `Rows.RuleMisses` | src/InsurancePortal.tsx:1526-1547 | a name that names no network matches no such rule |
| `Rows.PlainDisplayName` | src/InsurancePortal.tsx:1516-1555 | a name naming no network matches no rule and is displayed with `_` shown as a space |
| `Rows.CleanProviderName` | src/InsurancePortal.tsx:1558 | the displayed provider name has no `_` |
| `Rows.ReplaceAppended` | src/InsurancePortal.tsx:1558 | `replace` on a word followed by the pattern, where the pattern's first character is not in the word, replaces that trailing occurrence |
| `Rows.ReplaceAllCharAbsent` | src/InsurancePortal.tsx:1558 | `replace(/_/g, ' ')` of a name without `_` changes nothing |
| `Rows.ReplacePastWord` | src/InsurancePortal.tsx:1558 | a pattern that is in neither the word nor its suffix leaves the string unchanged |
| `Rows.RemoveAbsentSuffix` | src/InsurancePortal.tsx:1558 | removing a `_`-suffix from a word without `_` leaves the word |
| `Rows.CleanProviderStripsMednet` | src/InsurancePortal.tsx:1558 | `X_MEDNET` is shown as `X` |
| `Rows.CleanProviderStripsNextcare` | src/InsurancePortal.tsx:1558 | `X_NEXTCARE` is shown as `X` |
| `Rows.CleanProviderStripsNas` | src/InsurancePortal.tsx:1558 | `X_NAS` is shown as `X` |
| `Rows.CleanProviderStripsNetwork` | src/InsurancePortal.tsx:1558 | a one-word provider key with any network suffix is shown as the word |
| `Rows.SalaryCategorySpec` | src/InsurancePortal.tsx:1574 | Below 4K iff the name contains `_LSB`; Above 4K iff it contains `_NLSB` but not `_LSB` |
| `Rows.PriceSpec` | src/InsurancePortal.tsx:1497-1514 | a row needs a manual rate (and has premium 0) exactly when no band holds the age or the gender cell is missing or 0; otherwise its premium is the first matching band's cell |
| `Rows.TableRowSpec` | src/InsurancePortal.tsx:1476-1581 | a table plan is listed exactly when it passes both filters and the table has it; its id is `provider_planName`, it starts unselected with no status, is not manual, and without a premium edit under that id it is an N/A row exactly when it needs a manual rate; its provider is the cleaned provider name, its location and salary category come from the plan name, and its manual-rate flag is `Price`'s; without an entry under its id in the respective edit map, its premium is `Price`'s, its name and network are `NetworkAndName`'s, its copay is `Copay`'s, and its benefits are `GetPlanBenefits`' |
| `Rows.ProviderRowsListed` | src/InsurancePortal.tsx:1475-1583 | every row listed for a provider comes from one of its candidate plans |
| `Rows.ManualRowSpec` | src/InsurancePortal.tsx:1587-1602 | a manual row keeps its id and provider, is unselected, has no status, is manual under its provider key; its benefits are the local or cloud edit when there is one, else its own benefits spread over the defaults |
| `Rows.ProviderManualRows` | src/InsurancePortal.tsx:1589-1604 | one provider key's manual rows: one per plan, in order, none filtered out |
| `Rows.ManualRows` | src/InsurancePortal.tsx:1587-1606 | as many manual rows as manual plans over all provider keys |
| `Ranking.InsertPermutes` | src/InsurancePortal.tsx:1610-1618 | inserting into the list adds exactly the new row |
| `Ranking.SortPermutes` | src/InsurancePortal.tsx:1610-1618 | the sort returns a permutation of its input |
| `Ranking.InOrderTransitive` | src/InsurancePortal.tsx:1610-1618 | the search comparator's order is transitive |
| `Ranking.InsertSorted` | src/InsurancePortal.tsx:1610-1618 | inserting into a sorted list keeps it sorted |
| `Ranking.SortSorted` | src/InsurancePortal.tsx:1610-1618 | the sort returns a sorted list, under either comparator |
| `Ranking.NARows` | src/InsurancePortal.tsx:1611 | the N/A rows of a list, in order: every one is N/A |
| `Ranking.NARowsAppend` | src/InsurancePortal.tsx:1611 | the N/A rows of a concatenation are those of each part |
| `Ranking.InsertKeepsNARows` | src/InsurancePortal.tsx:1613-1615 | inserting a row puts it after the existing N/A rows in N/A order |
| `Ranking.SortKeepsNAOrder` | src/InsurancePortal.tsx:1610-1618 | the search sort keeps the N/A rows in their original relative order |
| `Ranking.SearchOrder` | src/InsurancePortal.tsx:1610-1618 | after the search sort every priced row precedes every N/A row, and priced premiums never decrease |
| `Ranking.PremiumSortMovesNAFirst` | src/InsurancePortal.tsx:1386 | the plain premium sort puts a zero-premium N/A row before a priced one |
| `Ranking.PricedPremiums` | src/InsurancePortal.tsx:1621 | the premiums of the priced rows: every priced row's premium, and only those |
| `Ranking.MinOf` | src/InsurancePortal.tsx:1626 | `Math.min` of a non-empty list is an element no greater than any element |
| `Ranking.MaxOf` | src/InsurancePortal.tsx:1627 | `Math.max` of a non-empty list is an element no smaller than any element |
| `Ranking.SumBounds` | src/InsurancePortal.tsx:1628 | a sum lies between count times a lower bound and count times an upper bound of its elements |
| `Ranking.AverageBounds` | src/InsurancePortal.tsx:1628 | a total within `n*lo..n*hi` has its average within `lo..hi`, and average times `n` gives the total back |
| `Ranking.MeanBetween` | src/InsurancePortal.tsx:1626-1628 | the average lies between the minimum and the maximum |
| `Ranking.MeanWithin` | src/InsurancePortal.tsx:1628 | the average lies within any bounds of the elements |
| `Ranking.StatsOf` | src/InsurancePortal.tsx:1626-1628 | all 0 for no prices; otherwise min and max are elements bounding every price, and the average is the sum over the count and lies between them |
| `Ranking.StatsSpec` | src/InsurancePortal.tsx:1620-1628 | statistics range over priced rows only: min and max are premiums of priced rows bounding every priced premium, the average lies between them, and all three are 0 when no row is priced |
| `Ranking.NoPricedPremiums` | src/InsurancePortal.tsx:1621 | a list of N/A rows has no priced premium |
| `Ranking.SortedStatsMin` | src/InsurancePortal.tsx:1610-1628 | on a list in search order with a priced row, the first row is priced and its premium is the minimum |
| `Overrides.MemberKeyInjective` | src/InsurancePortal.tsx:1273 | member keys `${memberId}_${planId}` never collide: member id and plan id can be read back |
| `Overrides.MemberKeyStartsWithDigit` | src/InsurancePortal.tsx:1273 | a member key starts with a digit |
| `Overrides.ApplyLocalEdits` | src/InsurancePortal.tsx:1267-1290 | the overlay changes only name, network, copay, premium and benefits; every other field is preserved |
| `Overrides.ApplyIsOverlaid` | src/InsurancePortal.tsx:1267-1290 | the early return is only a shortcut: the result is the field-by-field overlay (cloud text if truthy, premium edit if defined, local or cloud or own benefits) |
| `Overrides.ApplyWithoutEdits` | src/InsurancePortal.tsx:1279 | with no cloud edit, no premium edit and no benefits edit the plan is returned unchanged |
| `Overrides.SharedFieldsFromCloud` | src/InsurancePortal.tsx:1283-1285 | a non-empty cloud name replaces the plan's name; an empty one falls back to the plan's own |
| `Overrides.SharedAcrossMembers` | src/InsurancePortal.tsx:1269-1287 | name, network, copay and benefits come out the same whichever member the overlay is for |
| `Overrides.PremiumFromMemberEdit` | src/InsurancePortal.tsx:1272-1274 | a defined premium edit under the member's key wins; otherwise the plan keeps its premium |
| `Overrides.OtherMembersUnaffected` | src/InsurancePortal.tsx:1272-1274 | saving a premium edit for one member changes nothing the overlay shows another member |
| `Overrides.NoMemberIgnoresMemberEdits` | src/InsurancePortal.tsx:1579 | the overlay without a member, as the search applies it, ignores member-keyed premium edits of plans whose ids do not start with a digit |
| `Overrides.ApplyIdempotent` | src/InsurancePortal.tsx:1267-1290 | applying the overlay twice is applying it once |
| `Overrides.DisplayPlan` | src/InsurancePortal.tsx:3194-3202 | the displayed row is the member's overlay, keeping the row's own benefits |
| `CloudDecode.Stored` | src/InsurancePortal.tsx:1133 | the record without `_updatedAt`, with every other field kept |
| `CloudDecode.EditData` | src/InsurancePortal.tsx:1136 | a plan edit keeps neither `_isPlanEdit` nor `_updatedAt` |
| `CloudDecode.DecodeClean` | src/InsurancePortal.tsx:1132-1143 | no decoded record holds `_updatedAt`, and no plan edit holds `_isPlanEdit` |
| `CloudDecode.DecodeCovers` | src/InsurancePortal.tsx:1132-1143 | every prefixed or flagged entry lands among the plan edits under its stripped id; every other entry lands among the benefits |
| `CloudDecode.DecodeOrigins` | src/InsurancePortal.tsx:1132-1143 | nothing else lands in either map: benefits keys come from non-edit entries and edit ids from edit entries |
| `CloudDecode.NoPrefixedBenefits` | src/InsurancePortal.tsx:1135 | no decoded benefits key carries the `PLAN_EDIT_` prefix |
| `CloudDecode.DecodedBenefit` | src/InsurancePortal.tsx:1140-1141 | with distinct keys, a non-edit entry decodes to its record without `_updatedAt` |
| `CloudDecode.EditIdStripsPrefix` | src/InsurancePortal.tsx:1137 | an edit's plan id is its key without the prefix |
| `CloudDecode.SavedEditRoundTrip` | src/InsurancePortal.tsx:1783-1786 | a plan edit saved as `PLAN_EDIT_<id>` with `_isPlanEdit` and a stamp decodes back to exactly the saved name, network and copay under `<id>` |
| `Handlers.ChangeKeepsRelationshipAuto` | src/InsurancePortal.tsx:1300-1309 | a date or sponsorship change leaves the relationship the automatic one for the member's age and sponsorship, and other changes keep it so |
| `Handlers.SponsorshipWithoutDob` | src/InsurancePortal.tsx:1304-1309 | a sponsorship change without a date of birth leaves the relationship as it was |
| `Handlers.UpdateMembers` | src/InsurancePortal.tsx:1294-1312 | the update keeps the length and every id, gives the member with the id the changed member `ChangedMember` computes, and leaves every other member unchanged |
| `Handlers.UpdateKeepsIds` | src/InsurancePortal.tsx:1294-1312 | distinct member ids stay distinct |
| `Handlers.NewMember` | src/InsurancePortal.tsx:1317-1325 | the new member has the fresh id and no date of birth yet |
| `Handlers.RemoveMember` | src/InsurancePortal.tsx:1334 | the filter is no longer than the list and keeps no member with the id |
| `Handlers.RemoveMemberSpec` | src/InsurancePortal.tsx:1334 | a member is kept iff it was there with another id; with distinct ids at most one is removed and they stay distinct |
| `Handlers.RemoveMemberMembers` | src/InsurancePortal.tsx:1334 | a member is kept exactly when it was there with another id |
| `Handlers.RemoveMemberDistinct` | src/InsurancePortal.tsx:1334 | with distinct ids the filter removes at most one member and ids stay distinct |
| `Handlers.RemoveNothing` | src/InsurancePortal.tsx:1334 | removing an absent id leaves the list as it was |
| `Handlers.FindName` | src/InsurancePortal.tsx:1343 | `find(...)?.name`: the name of the first entry with the key; a non-empty result is the name of an entry with the key, and with no such entry the result is empty |
| `Handlers.ProviderName` | src/InsurancePortal.tsx:1343 | the or-chain: the first built-in entry's name for the key when it is non-empty, otherwise the first custom entry's name when it is non-empty, otherwise the key itself |
| `Handlers.TemplateFor` | src/InsurancePortal.tsx:1346-1353 | the MEDNET, NEXTCARE or NAS template whenever the upper-cased network starts with that word, and `defaultBenefits` when it starts with none of them |
| `Handlers.AddedProviderIsNamed` | src/InsurancePortal.tsx:2933-2938 | after a company is added under a fresh key, a plan under that key shows the trimmed company name |
| `Handlers.ManualPlanIdsDiffer` | src/InsurancePortal.tsx:1356 | plans added under one key at different times get different ids |
| `Handlers.AppendManualPlan` | src/InsurancePortal.tsx:1370-1373 | the key's list gains the plan at its end (an absent key starts empty); other keys are unchanged |
| `Handlers.AddToResultsSpec` | src/InsurancePortal.tsx:1383-1386 | each comparison becomes the old one plus the plan, sorted by plain ascending premium |
| `Handlers.WithoutPlan` | src/InsurancePortal.tsx:1419 | the filter keeps no plan with the id, and keeps only plans that were there |
| `Handlers.WithoutPlanKeeps` | src/InsurancePortal.tsx:1419 | every plan with another id is kept |
| `Handlers.ManualPlansWithout` | src/InsurancePortal.tsx:1417-1420 | the key's list loses the plan (an absent key becomes empty); other keys are unchanged |
| `Handlers.DropFromResultsSpec` | src/InsurancePortal.tsx:1429-1432 | no comparison holds the plan any more, every other plan is still there, and member and age are unchanged |
| `Handlers.Toggled` | src/InsurancePortal.tsx:1644-1646 | exactly the rows with the id flip `selected` |
| `Handlers.ToggleTwice` | src/InsurancePortal.tsx:1639-1649 | toggling twice restores the comparison |
| `Handlers.WithStatus` | src/InsurancePortal.tsx:1657-1659 | exactly the rows with the id take the status |
| `Handlers.WithStatusOverwrites` | src/InsurancePortal.tsx:1652-1662 | setting a status twice is setting the last one |
| `Handlers.SelectedStatuses` | src/InsurancePortal.tsx:1669-1673 | the selections map holds exactly the ids of selected rows |
| `Handlers.LastSelected` | src/InsurancePortal.tsx:1671-1673 | the last selected row with the id, or -1 |
| `Handlers.SelectedStatusIsLast` | src/InsurancePortal.tsx:1671-1673 | the recorded status is that of the last selected row with the id |
| `Handlers.CopyMarks` | src/InsurancePortal.tsx:1687-1691 | rows with a copied id become selected with the copied status; other rows are unchanged |
| `Handlers.CopyMarksIdempotent` | src/InsurancePortal.tsx:1687-1691 | copying the same selections again changes nothing |
| `Handlers.CopyToOthersSpec` | src/InsurancePortal.tsx:1665-1699 | with no source result or no selection nothing changes; the source is untouched; elsewhere each row whose id is selected at the source becomes selected with the source's status, and every other row stays as it was |
| `Handlers.CloudEditOf` | src/InsurancePortal.tsx:1739-1743 | the shared edit holds exactly name, network and copay, the name as entered and network and copay never empty |
| `Handlers.RewriteResultsSpec` | src/InsurancePortal.tsx:1757-1779 | every member's row of the plan gets the form's name and the defaulted network and copay; only the edited member's row gets the new premium; every other row and field is untouched |
| `Handlers.SavedEditIsDisplayed` | src/InsurancePortal.tsx:1749-1755 | after a save the display shows the saved name, network and copay to every member and the saved premium to the edited member, and other members keep the premium they were shown |
| `Handlers.FindPlan` | src/InsurancePortal.tsx:1845 | `find`: none exactly when no row has the id, otherwise the first row with it |
| `Handlers.WithBenefits` | src/InsurancePortal.tsx:1862-1864 | exactly the rows with the id take the new benefits |
| `Handlers.BenefitsEverywhereSpec` | src/InsurancePortal.tsx:1856-1868 | every member's rows of the plan get the new benefits; nothing else changes |
| `Handlers.ManualBenefits` | src/InsurancePortal.tsx:1877-1882 | the key's manual plans with the id get the benefits (an absent key becomes empty); other keys are unchanged |
| `Handlers.SavedBenefitsWin` | src/InsurancePortal.tsx:1850-1871 | after saving, `getPlanBenefits` for the plan id resolves to the saved benefits, and the overlay puts them on any row with that id |
| `Handlers.MarkedPlans` | src/InsurancePortal.tsx:1932 | a saved report keeps only selected or status-marked plans |
| `Handlers.MarkedPlansKeep` | src/InsurancePortal.tsx:1932-1943 | every selected or status-marked plan is kept |
| `Handlers.MinimalResults` | src/InsurancePortal.tsx:1926-1945 | every member with a result is saved with its age |
| `Handlers.TrimHistory` | src/InsurancePortal.tsx:1967-1970 | at most ten reports, the most recent ones, in order |
| `Handlers.SavedReportIsLatest` | src/InsurancePortal.tsx:1966-1970 | the new report is last, after the most recent earlier ones, and the history has at most ten |
| `Handlers.WithoutReport` | src/InsurancePortal.tsx:2175 | a report is kept exactly when it was in the history and has another id; the history gets no longer |
| `Handlers.WithoutReportInOrder` | src/InsurancePortal.tsx:2175 | the kept reports are a subsequence of the history, in their order |
| `Search.ComparisonSpec` | src/InsurancePortal.tsx:1470-1618 | a comparison is a permutation of the collected rows, priced rows first by ascending premium, N/A rows last |
| `Search.MemberSearchSpec` | src/InsurancePortal.tsx:1463-1629 | a member's result holds the member, its insurance age in 0..100, the comparison for that age and its statistics |
| `Search.ManualPlansAlwaysListed` | src/InsurancePortal.tsx:1587-1606 | every manual row is in every member's comparison, once per occurrence; the comparison is the table rows plus all manual plans |
| `Search.SearchAllDomain` | src/InsurancePortal.tsx:1462-1467 | a member id gets a result exactly when some member with that id has age 0..100 |
| `Search.SearchAllEntry` | src/InsurancePortal.tsx:1622-1629 | with distinct ids each searchable member's entry is its own result |
| `Search.UndatedBlocksSearch` | src/InsurancePortal.tsx:1452-1456 | a member without a date of birth blocks the search and the old results stay |
| `Search.CollectProviderRows` | src/InsurancePortal.tsx:1475-1583 | the loop over a provider's plans pushes exactly that provider's rows in key order |
| `Search.ProviderRowsStep` | src/InsurancePortal.tsx:1475-1583 | one more plan appends its row when it is listed and nothing otherwise |
| `Search.CollectTableRows` | src/InsurancePortal.tsx:1472-1584 | the loop over providers pushes exactly the table rows in key order |
| `Search.CollectProviderManualRows` | src/InsurancePortal.tsx:1589-1604 | the loop over one key's manual plans pushes exactly their rows |
| `Search.ProviderManualRowsStep` | src/InsurancePortal.tsx:1589-1604 | one more manual plan appends exactly its row |
| `Search.CollectManualRows` | src/InsurancePortal.tsx:1587-1606 | the loop over manual provider keys pushes exactly all manual rows |
| `Search.SearchMember` | src/InsurancePortal.tsx:1463-1629 | the member loop's body computes that member's result |
| `Search.RunSearch` | src/InsurancePortal.tsx:1451-1630 | none exactly when a member is undated; otherwise the results of all members, a later member overwriting one with the same id |
| `Search.SearchAllStep` | src/InsurancePortal.tsx:1462-1630 | one more member adds its result when it is searchable and nothing otherwise |
| `Reports.FilterPlansSpec` | src/InsurancePortal.tsx:2184-2196 | the filter keeps only matching plans, each at most as often as it occurs |
| `Reports.FilterPlansInOrder` | src/InsurancePortal.tsx:2184-2196 | the kept plans are a subsequence of the list, in their order |
| `Reports.FilterKeepsMatches` | src/InsurancePortal.tsx:2185-2194 | every matching plan is kept |
| `Reports.EmptyFiltersKeepAll` | src/InsurancePortal.tsx:2186-2193 | with all four boxes empty the list is returned as it is |
| `Reports.BlankFiltersKeepAll` | src/InsurancePortal.tsx:2186-2193 | any filters whose four boxes are empty keep every plan |
| `Reports.CaseInsensitive` | src/InsurancePortal.tsx:2186-2193 | a box and its upper-cased form select the same plans |
| `Reports.LowerOfUpper` | src/InsurancePortal.tsx:2187 | lower-casing the upper-cased box is lower-casing the box, and upper-casing keeps a box empty or non-empty |
| `Reports.TotalsOf` | src/InsurancePortal.tsx:2317-2342 | Basmah is the fee (37 Dubai, 24 Northern Emirates) per charged member; VAT is 5% of gross plus Basmah; the grand total is 105% of it |
| `Reports.AllMembersCharged` | src/InsurancePortal.tsx:2325-2332 | when every member lists the plan, every member is counted |
| `Reports.GrossNonNegative` | src/InsurancePortal.tsx:2325-2332 | with no negative premium the gross is never negative |
| `Reports.ComputeTotals` | src/InsurancePortal.tsx:2321-2342 | the loop over members computes exactly the totals of the plan |
| `Portal.Portal.constructor` | src/InsurancePortal.tsx:1020-1071 | the initial state: one Principal member with id 1, Dubai, below 4000, no results, no edits, no manual plans, empty history |
| `Portal.Portal.UpdateFamilyMember` | src/InsurancePortal.tsx:1293-1313 | only the member list changes, by the member update; the state stays valid |
| `Portal.Portal.AddFamilyMember` | src/InsurancePortal.tsx:1315-1326 | the new member is appended with a fresh id; nothing else changes |
| `Portal.Portal.RemoveFamilyMember` | src/InsurancePortal.tsx:1329-1335 | the last member is never removed; otherwise only the member list changes, by the filter |
| `Portal.Portal.AddManualPlan` | src/InsurancePortal.tsx:1338-1394 | without a name or premium nothing changes; otherwise the plan is appended under the provider key and, after a search, added to every comparison with the premium sort |
| `Portal.Portal.InsertManualPlan` | src/InsurancePortal.tsx:1369-1394 | manual plans and results change as the add describes, and nothing else |
| `Portal.Portal.DeleteManualPlan` | src/InsurancePortal.tsx:1415-1436 | the plan leaves the key's list and, after a search, every comparison; nothing else changes |
| `Portal.Portal.TogglePlanSelection` | src/InsurancePortal.tsx:1639-1649 | only the member's comparison changes, by the toggle |
| `Portal.Portal.UpdatePlanStatus` | src/InsurancePortal.tsx:1652-1662 | only the member's comparison changes, by the status update |
| `Portal.Portal.CopyPlansToOthers` | src/InsurancePortal.tsx:1665-1699 | only the results change, by the copy |
| `Portal.Portal.SaveEditedResultPlan` | src/InsurancePortal.tsx:1724-1779 | without a form, a name, a premium or an editing member nothing changes; otherwise the member-keyed premium edit and the shared cloud edit are stored and the results rewritten; nothing else changes |
| `Portal.Portal.UpdateBenefits` | src/InsurancePortal.tsx:1839-1893 | without edited benefits nothing changes; otherwise they are stored locally and in the cloud map, put on every member's rows of the plan, and on the stored manual plan when the row is manual with a provider key |
| `Portal.Portal.StoreBenefits` | src/InsurancePortal.tsx:1849-1893 | the four maps change as the update describes, and nothing else |
| `Portal.Portal.SaveToReportHistory` | src/InsurancePortal.tsx:1923-1973 | the report of the current members, settings, marked plans, comment and manual plans is appended and the history trimmed to ten |
| `Portal.Portal.LoadReportHistory` | src/InsurancePortal.tsx:1180-1191 | the loaded history is trimmed to its last ten reports |
| `Portal.Portal.ClearAllLocalEdits` | src/InsurancePortal.tsx:1912-1920 | when confirmed, both local edit maps become empty and nothing else changes; otherwise nothing changes |
| `Portal.Portal.DeleteReportFromHistory` | src/InsurancePortal.tsx:2172-2181 | when confirmed, the history loses the reports with the id (`WithoutReport`) and nothing else changes; otherwise nothing changes |
| `Portal.Portal.AddCustomProvider` | src/InsurancePortal.tsx:2929-2940 | a blank name changes nothing; otherwise `CUSTOM_${now}` with the trimmed name is appended to the custom providers and nothing else changes |
| `Portal.Portal.SearchPlans` | src/InsurancePortal.tsx:1451-1636 | with an undated member nothing changes; otherwise the results become those of all members; nothing else changes |

## Left out

- I/O is not modelled:
  - `fetch`, `localStorage`, `alert`, `confirm` and the persistence hooks (src/InsurancePortal.tsx:1080-1222);
  - a failed cloud write leaves the local state updated, which is what the handlers do;
  - the contents of the cloud and of `localStorage` are parameters or initial state.
- The clock is not modelled: `Date.now()`, `new Date()` and `toISOString` become parameters.
- Date parsing of the `dob` string is not modelled: a date of birth is a valid (year, month, day), and a malformed date string cannot be expressed.
- `parseFloat` and NaN are not modelled. A form premium is `Option<real>`: `None` for a falsy (empty) field, otherwise the parsed value.
- JavaScript numbers are not modelled. Money and averages are exact `real`s, not floating point, and display rounding is left out.
- `toLowerCase` and `toUpperCase` are modelled on ASCII letters only; full Unicode case mapping is not modelled.
- JavaScript orders integer-like object keys first. The model keeps insertion order for every key (rate bands, `manualPlans`, the payload).
- `Overrides.SharedText` shows a cloud name, network or copay only when it is non-empty text. The source's `cloudEdits?.plan || plan.plan` (src/InsurancePortal.tsx:1283-1285) would also show a truthy non-string value such as `5` or `true`; the model's plan fields are strings, so such a value falls back to the plan's own text. The client itself only saves strings there (`Handlers.CloudEditOf`).
- `Rates.JsNumber` reads plain decimal digit strings only. JavaScript's `Number` also accepts surrounding whitespace, a sign, decimals, exponents and hex (`" 18"`, `"1.5"`, `"1e1"`, `"0x1"`); the rate lemmas hold for tables whose range keys are digit strings, as the built-in table's are.
- `Rates.JsParseInt` reads leading decimal digits only. JavaScript's `parseInt` also skips leading whitespace and accepts a sign; such single-age keys read as NaN in the model.
- `CloudDecode.Decode` does not check that cloud records hold string values; non-string fields are kept as they are.
- The rate and benefit tables (src/InsurancePortal.tsx:87-931) are not included. Lemmas quantify over any table:
  - `Rates.OverlapFirstWins` and `Rates.SingleBandRange` state NEMED_ADULT's and IMED_DXB's band shapes generically;
  - `Benefits.FixtureTemplates` holds the first `PLAN_BENEFITS` keys only.
- `Templates.defaults` stands for `defaultBenefits`. The three network templates are parameters.
- `loadReportFromHistory` (src/InsurancePortal.tsx:1989-2169) is left out. It is a second search with its own rules:
  - it drops NO_RATE plans;
  - it sorts by plain premium;
  - it computes statistics over all plans.
  Merging it with the search would misstate both.
- `openEditResultPlanModal` (src/InsurancePortal.tsx:1702-1721) is not a separate member. Its overlay is `Overrides.DisplayPlan`.
- Not modelled, because they only change UI state:
  - `toggleBenefitsPanel`, `expandedMembers` and the modals;
  - the report HTML (apart from its totals) and its printing and upload.
- `window.confirm` is a parameter (`confirmed`) of `Portal.Portal.ClearAllLocalEdits` and `Portal.Portal.DeleteReportFromHistory`; the `localStorage` removal and write they do is I/O, as above.
- `Portal.Portal.AddCustomProvider` keeps a custom provider as its (id, name) pair. The `networks` list the source attaches (src/InsurancePortal.tsx:2936) is only offered in the add-plan form's drop-down, and is not modelled. The upper-casing of the input box (:2920) happens before the handler and is not modelled.
- `Text.Trim` strips space, tab, line feed and carriage return only. JavaScript's `trim` also strips the other Unicode white-space and line-terminator characters.
- The `getUnique*` helpers of the report screen are not modelled. They only collect distinct values for UI drop-downs.
- Both sorts are modelled as a stable insertion sort over `seq`. The in-place `Array.prototype.sort` is not modelled, and neither are its results when the comparator is inconsistent (no such case arises: both comparators are total preorders on `real`).
- `Portal.Portal.TogglePlanSelection` and `Portal.Portal.UpdatePlanStatus` require the member to have results. The source would throw on `prev[memberId].comparison` otherwise.
- `Portal.Portal.AddFamilyMember` requires the fresh id to differ from every member's. `Date.now()` gives no such guarantee.
- Concurrency is not modelled:
  - the ordering of React `setState` updates;
  - the `fetch` issued inside the `setManualPlans` updater;
  - last-write-wins between browser sessions.
- `server.js` and the `netlify/` functions are not part of this model. The client's view of their records is the decode.
  - `server.js` tags records with `_meta` (server.js:113), but the client strips only `_updatedAt`;
  - so `_meta` would survive decoding into a benefits record.
