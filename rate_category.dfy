/** Classification of a predicted interest rate, in percent, into a risk
    category with a colour and a description (utils/helpers.py,
    get_rate_category). */
module RateCategory {

  /** get_rate_category: an if-chain with strict upper bounds 8, 12, 16 and 20. */
  function GetRateCategory(rate: real): (string, string, string) {
    if rate < 8.0 then
      ("Excellent", "#38ef7d", "Very competitive rate! You have an excellent credit profile.")
    else if rate < 12.0 then
      ("Good", "#667eea", "Good rate. Your credit profile is solid.")
    else if rate < 16.0 then
      ("Average", "#feca57", "Average rate. There's room for improvement.")
    else if rate < 20.0 then
      ("Below Average", "#ff9f43", "Higher than average. Consider improving your credit profile.")
    else
      ("High Risk", "#f5576c", "High rate due to elevated risk factors. Review improvement tips below.")
  }

  /** The bucket thresholds, lowest first. */
  const Thresholds: seq<real> := [8.0, 12.0, 16.0, 20.0]

  /** The five buckets, from best to worst. */
  const Buckets: seq<(string, string, string)> := [
    ("Excellent", "#38ef7d", "Very competitive rate! You have an excellent credit profile."),
    ("Good", "#667eea", "Good rate. Your credit profile is solid."),
    ("Average", "#feca57", "Average rate. There's room for improvement."),
    ("Below Average", "#ff9f43", "Higher than average. Consider improving your credit profile."),
    ("High Risk", "#f5576c", "High rate due to elevated risk factors. Review improvement tips below.")]

  /** How many thresholds in `ts` the rate has reached. */
  function ThresholdsReached(ts: seq<real>, rate: real): (n: nat)
    ensures n <= |ts|
  {
    if ts == [] then 0
    else (if ts[0] <= rate then 1 else 0) + ThresholdsReached(ts[1..], rate)
  }

  /** The bucket rank of a rate: 0 (Excellent) to 4 (High Risk). */
  function Rank(rate: real): (k: nat)
    ensures k < |Buckets|
  {
    ThresholdsReached(Thresholds, rate)
  }

  /** Reaching more of the rate is monotone: a higher rate reaches at least
      as many thresholds. */
  lemma {:induction false} ThresholdsReachedMonotone(ts: seq<real>, r1: real, r2: real)
    requires r1 <= r2
    ensures ThresholdsReached(ts, r1) <= ThresholdsReached(ts, r2)
  {
    if ts != [] {
      ThresholdsReachedMonotone(ts[1..], r1, r2);
    }
  }

  /** The classifier returns the bucket of its rank: every rate gets one of
      the five buckets, chosen by counting reached thresholds. */
  lemma ClassifierMatchesRank(rate: real)
    ensures GetRateCategory(rate) == Buckets[Rank(rate)]
  {
    var above20 := if 20.0 <= rate then 1 else 0;
    assert ThresholdsReached([20.0], rate) == above20 by {
      assert [20.0][1..] == [];
    }
    assert ThresholdsReached([16.0, 20.0], rate) == (if 16.0 <= rate then 1 else 0) + above20 by {
      assert [16.0, 20.0][1..] == [20.0];
    }
    var above16 := (if 16.0 <= rate then 1 else 0) + above20;
    assert ThresholdsReached([12.0, 16.0, 20.0], rate) == (if 12.0 <= rate then 1 else 0) + above16 by {
      assert [12.0, 16.0, 20.0][1..] == [16.0, 20.0];
    }
    assert Thresholds[1..] == [12.0, 16.0, 20.0];
    var k := (if 8.0 <= rate then 1 else 0) + (if 12.0 <= rate then 1 else 0) + above16;
    assert Rank(rate) == k;
    if rate < 8.0 { assert k == 0; }
    else if rate < 12.0 { assert k == 1; }
    else if rate < 16.0 { assert k == 2; }
    else if rate < 20.0 { assert k == 3; }
    else { assert k == 4; }
  }

  /** Bucket rank never decreases as the rate rises. */
  lemma RankMonotone(r1: real, r2: real)
    requires r1 <= r2
    ensures Rank(r1) <= Rank(r2)
  {
    ThresholdsReachedMonotone(Thresholds, r1, r2);
  }

  /** The five buckets have pairwise different categories and colours. */
  lemma BucketsDistinct()
    ensures forall i, j :: 0 <= i < j < |Buckets| ==> Buckets[i].0 != Buckets[j].0 && Buckets[i].1 != Buckets[j].1
  {
  }

  /** The category fixes the colour and the description: two rates with the
      same category get the same triple, and two rates share a colour only
      when they share the category. */
  lemma CategoryDeterminesColor(r1: real, r2: real)
    ensures GetRateCategory(r1).0 == GetRateCategory(r2).0 ==> GetRateCategory(r1) == GetRateCategory(r2)
    ensures GetRateCategory(r1).1 == GetRateCategory(r2).1 ==> GetRateCategory(r1).0 == GetRateCategory(r2).0
  {
    ClassifierMatchesRank(r1);
    ClassifierMatchesRank(r2);
    BucketsDistinct();
    var i, j := Rank(r1), Rank(r2);
    if i != j {
      if i < j { assert Buckets[i].0 != Buckets[j].0 && Buckets[i].1 != Buckets[j].1; }
      else { assert Buckets[j].0 != Buckets[i].0 && Buckets[j].1 != Buckets[i].1; }
    }
  }

  /** Each bucket, both ways, with its half-open interval. */
  lemma BucketIntervals(rate: real)
    ensures GetRateCategory(rate).0 == "Excellent" <==> rate < 8.0
    ensures GetRateCategory(rate).0 == "Good" <==> 8.0 <= rate < 12.0
    ensures GetRateCategory(rate).0 == "Average" <==> 12.0 <= rate < 16.0
    ensures GetRateCategory(rate).0 == "Below Average" <==> 16.0 <= rate < 20.0
    ensures GetRateCategory(rate).0 == "High Risk" <==> 20.0 <= rate
  {
  }

  /** The boundary values: a threshold belongs to the bucket above it. */
  lemma BoundaryExamples()
    ensures GetRateCategory(7.99).0 == "Excellent" && GetRateCategory(8.0).0 == "Good"
    ensures GetRateCategory(11.99).0 == "Good" && GetRateCategory(12.0).0 == "Average"
    ensures GetRateCategory(16.0).0 == "Below Average" && GetRateCategory(19.99).0 == "Below Average"
    ensures GetRateCategory(20.0).0 == "High Risk"
  {
  }
}
