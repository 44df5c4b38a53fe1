/**
 * Ordering and statistics of a member's comparison list: the search sort
 * (src/InsurancePortal.tsx:1610-1618), the plain premium sort used after a
 * manual plan is added (src/InsurancePortal.tsx:1386) and on reload
 * (src/InsurancePortal.tsx:2150), and min/max/avg over priced plans
 * (src/InsurancePortal.tsx:1621-1628).
 *
 * `Array.prototype.sort` is stable, so with a consistent comparator its
 * result is the stable insertion sort by that comparator, which is what
 * `Sort` computes.
 */
module Ranking {
  import opened Plans

  /** The two comparators the source sorts with. */
  datatype Order =
    | NaLast     // N/A rows last, otherwise `a.premium - b.premium`
    | ByPremium  // `a.premium - b.premium` only

  /** The comparator returns a positive number: `a` belongs after `b`. */
  predicate After(o: Order, a: Plan, b: Plan) {
    match o
    case NaLast =>
      (IsNA(a) && !IsNA(b)) || (IsNA(a) == IsNA(b) && a.premium > b.premium)
    case ByPremium => a.premium > b.premium
  }

  predicate InOrder(o: Order, a: Plan, b: Plan) {
    !After(o, a, b)
  }

  predicate Sorted(o: Order, s: seq<Plan>) {
    forall i, j :: 0 <= i < j < |s| ==> InOrder(o, s[i], s[j])
  }

  /** Insert `x` after every element of `t` that does not belong after it. */
  function Insert(o: Order, t: seq<Plan>, x: Plan): seq<Plan> {
    if t == [] || InOrder(o, t[|t| - 1], x) then t + [x]
    else Insert(o, t[..|t| - 1], x) + [t[|t| - 1]]
  }

  /** `plans.sort(comparator)` */
  function Sort(o: Order, s: seq<Plan>): seq<Plan> {
    if s == [] then []
    else Insert(o, Sort(o, s[..|s| - 1]), s[|s| - 1])
  }

  /** Inserting adds exactly `x`. */
  lemma {:induction false} InsertPermutes(o: Order, t: seq<Plan>, x: Plan)
    ensures |Insert(o, t, x)| == |t| + 1
    ensures multiset(Insert(o, t, x)) == multiset(t) + multiset{x}
  {
    if t != [] && !InOrder(o, t[|t| - 1], x) {
      InsertPermutes(o, t[..|t| - 1], x);
      assert t == t[..|t| - 1] + [t[|t| - 1]];
    }
  }

  /** The sort returns a permutation of its input. */
  lemma {:induction false} SortPermutes(o: Order, s: seq<Plan>)
    ensures |Sort(o, s)| == |s|
    ensures multiset(Sort(o, s)) == multiset(s)
  {
    if s != [] {
      SortPermutes(o, s[..|s| - 1]);
      InsertPermutes(o, Sort(o, s[..|s| - 1]), s[|s| - 1]);
      assert s == s[..|s| - 1] + [s[|s| - 1]];
    }
  }

  lemma InOrderTransitive(o: Order, a: Plan, b: Plan, c: Plan)
    requires InOrder(o, a, b) && InOrder(o, b, c)
    ensures InOrder(o, a, c)
  {
  }

  lemma {:induction false} InsertSorted(o: Order, t: seq<Plan>, x: Plan)
    requires Sorted(o, t)
    ensures Sorted(o, Insert(o, t, x))
  {
    if t == [] {
    } else if InOrder(o, t[|t| - 1], x) {
      forall i | 0 <= i < |t| ensures InOrder(o, t[i], x) {
        if i < |t| - 1 {
          InOrderTransitive(o, t[i], t[|t| - 1], x);
        }
      }
    } else {
      var front, last := t[..|t| - 1], t[|t| - 1];
      InsertSorted(o, front, x);
      InsertPermutes(o, front, x);
      var r := Insert(o, front, x);
      forall i | 0 <= i < |r| ensures InOrder(o, r[i], last) {
        assert r[i] in multiset(r);
        if r[i] != x {
          assert r[i] in multiset(front);
          var k :| 0 <= k < |front| && front[k] == r[i];
        }
      }
    }
  }

  /** The sort returns a sorted permutation of its input. */
  lemma {:induction false} SortSorted(o: Order, s: seq<Plan>)
    ensures Sorted(o, Sort(o, s))
  {
    if s != [] {
      SortSorted(o, s[..|s| - 1]);
      InsertSorted(o, Sort(o, s[..|s| - 1]), s[|s| - 1]);
    }
  }

  /** `[p]` when `p` is an N/A row, otherwise nothing. */
  function NAOnly(p: Plan): seq<Plan> {
    if IsNA(p) then [p] else []
  }

  /** The N/A rows of `s`, in their order. */
  function NARows(s: seq<Plan>): (r: seq<Plan>)
    ensures forall i :: 0 <= i < |r| ==> IsNA(r[i])
  {
    if s == [] then [] else NARows(s[..|s| - 1]) + NAOnly(s[|s| - 1])
  }

  lemma {:induction false} NARowsAppend(a: seq<Plan>, b: seq<Plan>)
    ensures NARows(a + b) == NARows(a) + NARows(b)
    decreases |b|
  {
    if b == [] {
      assert a + b == a;
    } else {
      assert (a + b)[..|a + b| - 1] == a + b[..|b| - 1];
      NARowsAppend(a, b[..|b| - 1]);
    }
  }

  lemma NARowsSingle(x: Plan)
    ensures NARows([x]) == NAOnly(x)
  {
    assert [x][..0] == [];
  }

  lemma {:induction false} InsertKeepsNARows(t: seq<Plan>, x: Plan)
    ensures NARows(Insert(NaLast, t, x)) == NARows(t) + NAOnly(x)
  {
    NARowsSingle(x);
    if t == [] || InOrder(NaLast, t[|t| - 1], x) {
      NARowsAppend(t, [x]);
    } else {
      var front, last := t[..|t| - 1], t[|t| - 1];
      // `last` belongs after `x`, so `x` is priced or `last` is N/A: either way
      // moving `x` ahead of `last` does not reorder N/A rows.
      assert !IsNA(x) || IsNA(last);
      InsertKeepsNARows(front, x);
      NARowsAppend(Insert(NaLast, front, x), [last]);
      NARowsSingle(last);
    }
  }

  /** The search sort keeps the N/A rows in their original relative order. */
  lemma {:induction false} SortKeepsNAOrder(s: seq<Plan>)
    ensures NARows(Sort(NaLast, s)) == NARows(s)
  {
    if s != [] {
      var front, last := s[..|s| - 1], s[|s| - 1];
      SortKeepsNAOrder(front);
      InsertKeepsNARows(Sort(NaLast, front), last);
    }
  }

  /**
   * After the search sort every priced row comes before every N/A row, and
   * the priced premiums never decrease.
   */
  lemma SearchOrder(s: seq<Plan>)
    ensures var r := Sort(NaLast, s);
      forall i, j :: 0 <= i < j < |r| ==>
        (IsNA(r[i]) ==> IsNA(r[j])) && (!IsNA(r[j]) ==> r[i].premium <= r[j].premium)
  {
    SortSorted(NaLast, s);
  }

  /** The plain premium sort does not keep N/A rows last: a zero-premium N/A row moves ahead of a priced one. */
  lemma PremiumSortMovesNAFirst(na: Plan, priced: Plan)
    requires IsNA(na) && !IsNA(priced) && priced.premium > 0.0
    ensures Sort(ByPremium, [priced, na]) == [na, priced]
  {
    var one: seq<Plan> := [priced];
    assert [priced, na][..1] == one && one[..0] == [];
    assert Sort(ByPremium, one) == one;
    assert Sort(ByPremium, [priced, na]) == Insert(ByPremium, one, na);
    assert After(ByPremium, priced, na);
    assert Insert(ByPremium, one, na) == Insert(ByPremium, [], na) + one;
  }

  /** The premiums of the priced rows of `s`, in their order. */
  function PricedPremiums(s: seq<Plan>): (r: seq<real>)
    ensures |r| <= |s|
    ensures forall i :: 0 <= i < |s| && !IsNA(s[i]) ==> s[i].premium in r
    ensures forall x :: x in r ==> exists i :: 0 <= i < |s| && !IsNA(s[i]) && s[i].premium == x
  {
    if s == [] then []
    else
      var front := PricedPremiums(s[..|s| - 1]);
      var r := front + (if IsNA(s[|s| - 1]) then [] else [s[|s| - 1].premium]);
      assert forall x :: x in r ==> x in front || (x == s[|s| - 1].premium && !IsNA(s[|s| - 1]));
      assert forall i :: 0 <= i < |s| - 1 ==> s[i] == s[..|s| - 1][i];
      r
  }

  function Sum(s: seq<real>): real {
    if s == [] then 0.0 else Sum(s[..|s| - 1]) + s[|s| - 1]
  }

  /** `Math.min(...s)` for a non-empty list. */
  function MinOf(s: seq<real>): (m: real)
    requires |s| > 0
    ensures m in s && forall i :: 0 <= i < |s| ==> m <= s[i]
  {
    if |s| == 1 then s[0]
    else
      var m := MinOf(s[..|s| - 1]);
      assert m in s[..|s| - 1];
      if s[|s| - 1] < m then s[|s| - 1] else m
  }

  /** `Math.max(...s)` for a non-empty list. */
  function MaxOf(s: seq<real>): (m: real)
    requires |s| > 0
    ensures m in s && forall i :: 0 <= i < |s| ==> s[i] <= m
  {
    if |s| == 1 then s[0]
    else
      var m := MaxOf(s[..|s| - 1]);
      assert m in s[..|s| - 1];
      if s[|s| - 1] > m then s[|s| - 1] else m
  }

  /** A sum lies between count times the smallest and count times the largest element. */
  lemma {:induction false} SumBounds(s: seq<real>, lo: real, hi: real)
    requires forall i :: 0 <= i < |s| ==> lo <= s[i] <= hi
    ensures (|s| as real) * lo <= Sum(s) <= (|s| as real) * hi
  {
    if s != [] {
      SumBounds(s[..|s| - 1], lo, hi);
    }
  }

  lemma AverageBounds(total: real, n: real, lo: real, hi: real)
    requires n > 0.0 && n * lo <= total <= n * hi
    ensures lo <= total / n <= hi && (total / n) * n == total
  {
    var avg := total / n;
    assert avg * n == total;
  }

  datatype PriceStats = PriceStats(minPrice: real, maxPrice: real, avgPrice: real)

  /** min, max and average of a list of prices, all 0 for an empty list. */
  function StatsOf(ps: seq<real>): (r: PriceStats)
    ensures ps == [] ==> r == PriceStats(0.0, 0.0, 0.0)
    ensures ps != [] ==>
      r.minPrice in ps && r.maxPrice in ps
      && (forall i :: 0 <= i < |ps| ==> r.minPrice <= ps[i] <= r.maxPrice)
      && r.minPrice <= r.avgPrice <= r.maxPrice
      && r.avgPrice == Sum(ps) / (|ps| as real)
  {
    if ps == [] then PriceStats(0.0, 0.0, 0.0)
    else
      MeanBetween(ps);
      PriceStats(MinOf(ps), MaxOf(ps), Sum(ps) / (|ps| as real))
  }

  /** The mean of a non-empty list lies between its minimum and its maximum. */
  lemma MeanBetween(ps: seq<real>)
    requires ps != []
    ensures MinOf(ps) <= Sum(ps) / (|ps| as real) <= MaxOf(ps)
    ensures (Sum(ps) / (|ps| as real)) * (|ps| as real) == Sum(ps)
  {
    MeanWithin(ps, MinOf(ps), MaxOf(ps));
  }

  /** The mean of a non-empty list lies within any bounds of its elements. */
  lemma MeanWithin(ps: seq<real>, lo: real, hi: real)
    requires ps != [] && forall i :: 0 <= i < |ps| ==> lo <= ps[i] <= hi
    ensures lo <= Sum(ps) / (|ps| as real) <= hi
    ensures (Sum(ps) / (|ps| as real)) * (|ps| as real) == Sum(ps)
  {
    SumBounds(ps, lo, hi);
    AverageBounds(Sum(ps), |ps| as real, lo, hi);
  }

  /**
   * min/max/avg of the premiums of priced rows, all 0 when none is priced
   * (src/InsurancePortal.tsx:1621-1628).
   */
  function Stats(s: seq<Plan>): PriceStats {
    StatsOf(PricedPremiums(s))
  }

  /**
   * The statistics range over the priced rows only: min and max are premiums
   * of priced rows and bound every priced premium, and the average lies
   * between them. With no priced row all three are 0.
   */
  lemma StatsSpec(s: seq<Plan>)
    ensures (forall i :: 0 <= i < |s| ==> IsNA(s[i])) ==> Stats(s) == PriceStats(0.0, 0.0, 0.0)
    ensures (exists i :: 0 <= i < |s| && !IsNA(s[i])) ==>
      var r := Stats(s);
      (exists i :: 0 <= i < |s| && !IsNA(s[i]) && s[i].premium == r.minPrice)
      && (exists i :: 0 <= i < |s| && !IsNA(s[i]) && s[i].premium == r.maxPrice)
      && (forall i :: 0 <= i < |s| && !IsNA(s[i]) ==> r.minPrice <= s[i].premium <= r.maxPrice)
      && r.minPrice <= r.avgPrice <= r.maxPrice
  {
    var ps := PricedPremiums(s);
    if forall i :: 0 <= i < |s| ==> IsNA(s[i]) {
      NoPricedPremiums(s);
    } else {
      var r := Stats(s);
      forall i | 0 <= i < |s| && !IsNA(s[i]) ensures r.minPrice <= s[i].premium <= r.maxPrice {
        assert s[i].premium in ps;
      }
    }
  }

  /** A list of N/A rows has no priced premium. */
  lemma {:induction false} NoPricedPremiums(s: seq<Plan>)
    requires forall i :: 0 <= i < |s| ==> IsNA(s[i])
    ensures PricedPremiums(s) == []
  {
    if s != [] {
      NoPricedPremiums(s[..|s| - 1]);
    }
  }

  /** On a list in search order with a priced row, the cheapest price is the first row's. */
  lemma SortedStatsMin(s: seq<Plan>)
    requires Sorted(NaLast, s)
    requires exists i :: 0 <= i < |s| && !IsNA(s[i])
    ensures !IsNA(s[0]) && Stats(s).minPrice == s[0].premium
  {
    StatsSpec(s);
    var i :| 0 <= i < |s| && !IsNA(s[i]);
    if i > 0 { assert InOrder(NaLast, s[0], s[i]); }
    var k :| 0 <= k < |s| && !IsNA(s[k]) && s[k].premium == Stats(s).minPrice;
    if k > 0 { assert InOrder(NaLast, s[0], s[k]); }
  }
}
