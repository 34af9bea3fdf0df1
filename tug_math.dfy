/**
 * The pure part of the Timed Up and Go (TUG) calculation: which trials
 * count, their average, the fall-risk classification, and the rule that
 * decides which trial slot a new timed reading goes into.
 *
 * Durations are exact reals; the source's IEEE doubles and its two-decimal
 * display are not modelled.
 */
module TugMath {

  /** The clinical cut-off in seconds; an average at or above it is a high fall risk. */
  const FallRiskThreshold: real := 13.5

  /** The classification shown with the average ("-" in the source when there is none). */
  datatype TugStatus = Unset | Normal | HighFallRisk

  /** The trials that take part in the average: those strictly above zero, in slot order. */
  function Positives(ts: seq<real>): (p: seq<real>)
    ensures |p| <= |ts|
    ensures forall i :: 0 <= i < |p| ==> p[i] > 0.0
    ensures forall x :: x in p <==> x in ts && x > 0.0
    ensures p == [] <==> forall i :: 0 <= i < |ts| ==> ts[i] <= 0.0
  {
    if ts == [] then []
    else if ts[0] > 0.0 then [ts[0]] + Positives(ts[1..])
    else Positives(ts[1..])
  }

  /** The sum of a list of durations. */
  function Sum(xs: seq<real>): (s: real)
    ensures xs != [] && (forall i :: 0 <= i < |xs| ==> xs[i] > 0.0) ==> s > 0.0
  {
    if xs == [] then 0.0 else xs[0] + Sum(xs[1..])
  }

  /** The arithmetic mean of a list of durations, 0.0 for the empty list. */
  function Mean(xs: seq<real>): (m: real)
    ensures xs == [] ==> m == 0.0
    ensures xs != [] ==> m * (|xs| as real) == Sum(xs)
    ensures xs != [] && (forall i :: 0 <= i < |xs| ==> xs[i] > 0.0) ==> m > 0.0
  {
    if xs == [] then 0.0
    else
      var n := |xs| as real;
      var s := Sum(xs);
      QuotientFacts(s, n);
      s / n
  }

  /**
   * The average of the positive trials, or 0.0 when there is none: zero
   * (and negative) slots are left out of both the sum and the count.
   */
  function Average(ts: seq<real>): (avg: real)
    ensures Positives(ts) == [] ==> avg == 0.0
    ensures Positives(ts) != [] ==> avg > 0.0
  {
    Mean(Positives(ts))
  }

  /** The status shown with the average. */
  function Classify(ts: seq<real>): (st: TugStatus)
    ensures st == Unset <==> forall i :: 0 <= i < |ts| ==> ts[i] <= 0.0
    ensures st != Unset ==> (st == HighFallRisk <==> Average(ts) >= FallRiskThreshold)
    ensures st == Unset <==> Average(ts) == 0.0
  {
    if Positives(ts) == [] then Unset
    else if Average(ts) >= FallRiskThreshold then HighFallRisk
    else Normal
  }

  /** k copies of x added up. */
  function Times(k: nat, x: real): real
  {
    if k == 0 then 0.0 else x + Times(k - 1, x)
  }

  /** Adding up k copies of x is multiplying x by k. */
  lemma {:induction false} TimesIsProduct(k: nat, x: real)
    ensures Times(k, x) == (k as real) * x
  {
    if k > 0 {
      TimesIsProduct(k - 1, x);
      OneMore(k as real, (k - 1) as real, x);
    }
  }

  /** One more copy of x: (n + 1) * x == n * x + x. */
  lemma OneMore(m: real, n: real, x: real)
    requires m == n + 1.0
    ensures m * x == n * x + x
  {
  }

  /** Every element of xs lies between lo and hi, so their sum lies between |xs| copies of each. */
  lemma {:induction false} SumBounds(xs: seq<real>, lo: real, hi: real)
    requires forall i :: 0 <= i < |xs| ==> lo <= xs[i] <= hi
    ensures Times(|xs|, lo) <= Sum(xs) <= Times(|xs|, hi)
  {
    if xs != [] {
      SumBounds(xs[1..], lo, hi);
    }
  }

  /** The average lies between any lower and upper bound of the trials that took part. */
  lemma AverageBetween(ts: seq<real>, lo: real, hi: real)
    requires Positives(ts) != []
    requires forall i :: 0 <= i < |ts| && ts[i] > 0.0 ==> lo <= ts[i] <= hi
    ensures lo <= Average(ts) <= hi
  {
    PositivesBounded(ts, lo, hi);
    MeanBetween(Positives(ts), lo, hi);
  }

  /** The mean of a non-empty list lies between any lower and upper bound of its elements. */
  lemma MeanBetween(xs: seq<real>, lo: real, hi: real)
    requires xs != []
    requires forall i :: 0 <= i < |xs| ==> lo <= xs[i] <= hi
    ensures lo <= Mean(xs) <= hi
  {
    SumBounds(xs, lo, hi);
    TimesIsProduct(|xs|, lo);
    TimesIsProduct(|xs|, hi);
    QuotientBetween(Sum(xs), |xs| as real, lo, hi);
  }

  /** Bounds on the positive trials carry over to the filtered list. */
  lemma PositivesBounded(ts: seq<real>, lo: real, hi: real)
    requires forall i :: 0 <= i < |ts| && ts[i] > 0.0 ==> lo <= ts[i] <= hi
    ensures forall i :: 0 <= i < |Positives(ts)| ==> lo <= Positives(ts)[i] <= hi
  {
    var p := Positives(ts);
    forall i | 0 <= i < |p| ensures lo <= p[i] <= hi {
      assert p[i] in ts;
    }
  }

  /** Dividing by a positive n and multiplying back gives the dividend, and keeps its sign. */
  lemma QuotientFacts(s: real, n: real)
    requires n > 0.0
    ensures (s / n) * n == s
    ensures s > 0.0 ==> s / n > 0.0
  {
  }

  /** A quotient s / n with n > 0 and n*lo <= s <= n*hi lies between lo and hi. */
  lemma QuotientBetween(s: real, n: real, lo: real, hi: real)
    requires n > 0.0
    requires n * lo <= s <= n * hi
    ensures lo <= s / n <= hi
  {
    var q := s / n;
    assert q * n == s;
    assert (q - lo) * n >= 0.0;
    assert (hi - q) * n >= 0.0;
  }

  /** If every trial that was taken is at or above the cut-off, the patient is a high fall risk. */
  lemma AllTrialsSlow(ts: seq<real>)
    requires exists i :: 0 <= i < |ts| && ts[i] > 0.0
    requires forall i :: 0 <= i < |ts| && ts[i] > 0.0 ==> ts[i] >= FallRiskThreshold
    ensures Classify(ts) == HighFallRisk
  {
    AverageBetween(ts, FallRiskThreshold, MaxOf(ts));
  }

  /** If every trial that was taken is below the cut-off, mobility is normal. */
  lemma AllTrialsFast(ts: seq<real>)
    requires exists i :: 0 <= i < |ts| && ts[i] > 0.0
    requires forall i :: 0 <= i < |ts| && ts[i] > 0.0 ==> ts[i] < FallRiskThreshold
    ensures Classify(ts) == Normal
  {
    AverageBetween(ts, 0.0, MaxOf(ts));
  }

  /**
   * Trials of 12.1 s, 14.0 s and 13.0 s average 39.1 / 3 = 13.03... s:
   * normal mobility, although one trial on its own is over the cut-off.
   */
  lemma ExampleRunsAreNormal()
    ensures Average([12.1, 14.0, 13.0]) == 39.1 / 3.0
    ensures Classify([12.1, 14.0, 13.0]) == Normal
  {
    ThreeSlotAverage(12.1, 14.0, 13.0);
    assert Counted(12.1) + Counted(14.0) + Counted(13.0) == 3.0;
    assert Contribution(12.1) + Contribution(14.0) + Contribution(13.0) == 39.1;
  }

  /**
   * When every trial taken has the same time x, the average is x itself, so
   * the cut-off is inclusive: x == 13.5 is a high fall risk, anything below is normal.
   */
  lemma SameTimeEveryTrial(ts: seq<real>, x: real)
    requires x > 0.0 && x in ts
    requires forall i :: 0 <= i < |ts| && ts[i] > 0.0 ==> ts[i] == x
    ensures Average(ts) == x
    ensures Classify(ts) == HighFallRisk <==> x >= FallRiskThreshold
    ensures Classify(ts) == Normal <==> x < FallRiskThreshold
  {
    AverageBetween(ts, x, x);
  }

  /**
   * The filter keeps each positive value as often as it occurs in the slots
   * and drops every other value: it is the comprehension's multiset.
   */
  lemma {:induction false} PositivesMultiplicity(ts: seq<real>)
    ensures forall x :: multiset(Positives(ts))[x] == if x > 0.0 then multiset(ts)[x] else 0
  {
    if ts != [] {
      PositivesMultiplicity(ts[1..]);
      assert ts == [ts[0]] + ts[1..];
      assert multiset(ts) == multiset([ts[0]]) + multiset(ts[1..]);
      if ts[0] > 0.0 {
        assert multiset(Positives(ts)) == multiset([ts[0]]) + multiset(Positives(ts[1..]));
      }
    }
  }

  /** The largest element of a non-empty list. */
  function MaxOf(ts: seq<real>): (m: real)
    requires ts != []
    ensures m in ts
    ensures forall i :: 0 <= i < |ts| ==> ts[i] <= m
  {
    if |ts| == 1 then ts[0]
    else var rest := MaxOf(ts[1..]); if ts[0] >= rest then ts[0] else rest
  }

  /** Filtering twice changes nothing: the average only ever sees positive trials. */
  lemma {:induction false} AverageOfPositivesOnly(ts: seq<real>)
    ensures Positives(Positives(ts)) == Positives(ts)
    ensures Average(Positives(ts)) == Average(ts)
  {
    if ts != [] {
      AverageOfPositivesOnly(ts[1..]);
    }
  }

  /** 1.0 for a slot that counts, 0.0 for one that does not. */
  function Counted(t: real): real { if t > 0.0 then 1.0 else 0.0 }

  /** The slot's contribution to the sum. */
  function Contribution(t: real): real { if t > 0.0 then t else 0.0 }

  /**
   * For the three slots of a session, the filter keeps exactly the positive
   * slots: its length is the number of positive slots and its sum is their
   * total, written out slot by slot, so the average is that total over that
   * number.
   */
  lemma ThreeSlotFilter(t1: real, t2: real, t3: real)
    ensures |Positives([t1, t2, t3])| as real == Counted(t1) + Counted(t2) + Counted(t3)
    ensures Sum(Positives([t1, t2, t3])) == Contribution(t1) + Contribution(t2) + Contribution(t3)
  {
    PositivesCons(t3, []);
    assert [t3] + [] == [t3];
    PositivesCons(t2, [t3]);
    assert [t2] + [t3] == [t2, t3];
    PositivesCons(t1, [t2, t3]);
    assert [t1] + [t2, t3] == [t1, t2, t3];
  }

  /**
   * For the three slots of a session, the average is the total of the
   * positive slots over the number of positive slots, and 0.0 when no slot
   * is positive.
   */
  lemma ThreeSlotAverage(t1: real, t2: real, t3: real)
    ensures Counted(t1) + Counted(t2) + Counted(t3) == 0.0 ==> Average([t1, t2, t3]) == 0.0
    ensures Counted(t1) + Counted(t2) + Counted(t3) > 0.0 ==>
      Average([t1, t2, t3]) ==
        (Contribution(t1) + Contribution(t2) + Contribution(t3)) / (Counted(t1) + Counted(t2) + Counted(t3))
  {
    ThreeSlotFilter(t1, t2, t3);
    var p := Positives([t1, t2, t3]);
    if p != [] {
      MeanOfNonEmpty(p);
      SameQuotient(Sum(p), |p| as real,
        Contribution(t1) + Contribution(t2) + Contribution(t3), Counted(t1) + Counted(t2) + Counted(t3));
    }
  }

  /** The mean of a non-empty list is its sum over its length. */
  lemma MeanOfNonEmpty(xs: seq<real>)
    requires xs != []
    ensures Mean(xs) == Sum(xs) / (|xs| as real)
  {
  }

  /** Equal dividends over equal divisors give equal quotients. */
  lemma SameQuotient(a: real, b: real, c: real, d: real)
    requires b != 0.0 && a == c && b == d
    ensures a / b == c / d
  {
  }

  /** Putting one slot in front of others adds its count and its contribution. */
  lemma PositivesCons(t: real, rest: seq<real>)
    ensures |Positives([t] + rest)| as real == Counted(t) + |Positives(rest)| as real
    ensures Sum(Positives([t] + rest)) == Contribution(t) + Sum(Positives(rest))
  {
    assert ([t] + rest)[1..] == rest;
    if t > 0.0 {
      assert ([t] + Positives(rest))[1..] == Positives(rest);
    }
  }

  /**
   * The slot a new timed reading goes into: the first one still holding
   * exactly zero, or |ts| when every slot is taken.
   */
  function FirstEmpty(ts: seq<real>): (k: nat)
    ensures k <= |ts|
    ensures forall j :: 0 <= j < k ==> ts[j] != 0.0
    ensures k < |ts| ==> ts[k] == 0.0
  {
    if ts == [] then 0 else if ts[0] == 0.0 then 0 else 1 + FirstEmpty(ts[1..])
  }

  /**
   * The trials after a reading e has been recorded: e replaces the first
   * empty slot and every other slot keeps its value; when no slot is empty
   * the reading is dropped.
   */
  function FillFirstEmpty(ts: seq<real>, e: real): (r: seq<real>)
    ensures |r| == |ts|
    ensures FirstEmpty(ts) < |ts| ==> r == ts[FirstEmpty(ts) := e]
    ensures FirstEmpty(ts) == |ts| ==> r == ts
  {
    if ts == [] then []
    else if ts[0] == 0.0 then [e] + ts[1..]
    else [ts[0]] + FillFirstEmpty(ts[1..], e)
  }

  /**
   * Three readings recorded into empty slots land in slot order, and a
   * fourth changes nothing.
   */
  lemma SlotFillOrder(e1: real, e2: real, e3: real, e4: real)
    requires e1 != 0.0 && e2 != 0.0 && e3 != 0.0
    ensures FillFirstEmpty([0.0, 0.0, 0.0], e1) == [e1, 0.0, 0.0]
    ensures FillFirstEmpty([e1, 0.0, 0.0], e2) == [e1, e2, 0.0]
    ensures FillFirstEmpty([e1, e2, 0.0], e3) == [e1, e2, e3]
    ensures FillFirstEmpty([e1, e2, e3], e4) == [e1, e2, e3]
  {
    assert FirstEmpty([e1, 0.0, 0.0]) == 1 by {
      assert [e1, 0.0, 0.0][1..] == [0.0, 0.0];
    }
    assert FirstEmpty([e1, e2, 0.0]) == 2 by {
      assert [e1, e2, 0.0][1..] == [e2, 0.0];
      assert [e2, 0.0][1..] == [0.0];
    }
    assert FirstEmpty([e1, e2, e3]) == 3 by {
      assert [e1, e2, e3][1..] == [e2, e3];
      assert [e2, e3][1..] == [e3];
      assert [e3][1..] == [];
    }
  }
}
