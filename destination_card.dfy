/**
 * The decision helpers of the destination card
 * (frontend/src/components/DestinationCard.js): a 0-10 quality badge and a
 * buy / good moment / wait recommendation, both from how far the latest
 * price is below the average, and the under-budget savings line.
 *
 * Prices arrive as numbers or null; null and 0 are both falsy.
 */
module DestinationCard {
  import opened Common

  /** A price used as a condition: present and nonzero. */
  predicate Present(x: Option<real>) {
    x.Some? && x.value != 0.0
  }

  /** ((avgPrice − latestPrice) / avgPrice) · 100. */
  function PercentageBelowAvg(latest: real, avg: real): real
    requires avg != 0.0
  {
    (avg - latest) / avg * 100.0
  }

  datatype Badge = Excellent | VeryGood | Good | Average | High

  function BadgeScore(b: Badge): int {
    match b
    case Excellent => 10
    case VeryGood => 8
    case Good => 6
    case Average => 4
    case High => 2
  }

  function BadgeLabel(b: Badge): string {
    match b
    case Excellent => "Excellent"
    case VeryGood => "Très bon"
    case Good => "Bon"
    case Average => "Moyen"
    case High => "Élevé"
  }

  /** The bands ≥20, ≥10, ≥0, ≥−10 of the percentage below average. */
  function BadgeFor(pct: real): (b: Badge)
    ensures b == Excellent <==> pct >= 20.0
    ensures b == VeryGood <==> 10.0 <= pct < 20.0
    ensures b == Good <==> 0.0 <= pct < 10.0
    ensures b == Average <==> -10.0 <= pct < 0.0
    ensures b == High <==> pct < -10.0
  {
    if pct >= 20.0 then Excellent
    else if pct >= 10.0 then VeryGood
    else if pct >= 0.0 then Good
    else if pct >= -10.0 then Average
    else High
  }

  /** The badge never goes down as the price goes further below the average. */
  lemma BadgeMonotone(p: real, q: real)
    requires p <= q
    ensures BadgeScore(BadgeFor(p)) <= BadgeScore(BadgeFor(q))
  {
  }

  /** getQualityScore: null unless both prices are truthy. */
  function GetQualityScore(latest: Option<real>, avg: Option<real>): (r: Option<Badge>)
    ensures r.None? <==> !Present(latest) || !Present(avg)
    ensures r.Some? ==> r.value == BadgeFor(PercentageBelowAvg(latest.value, avg.value))
  {
    if !Present(latest) || !Present(avg) then None
    else Some(BadgeFor(PercentageBelowAvg(latest.value, avg.value)))
  }

  /** `max_price && latestPrice < max_price`: strictly under a set budget. */
  predicate UnderBudget(latest: real, maxPrice: Option<real>) {
    Present(maxPrice) && latest < maxPrice.value
  }

  datatype Advice = BuyNow | GoodMoment | Wait {
    predicate Urgent() { this == BuyNow }
  }

  /** getRecommendation: null unless both prices are truthy. */
  function GetRecommendation(latest: Option<real>, avg: Option<real>, maxPrice: Option<real>): (r: Option<Advice>)
    ensures r.None? <==> !Present(latest) || !Present(avg)
    ensures r.Some? ==>
      var pct := PercentageBelowAvg(latest.value, avg.value);
      && (r.value.Urgent() <==> pct >= 15.0 || (UnderBudget(latest.value, maxPrice) && pct >= 10.0))
      && (r.value == GoodMoment <==> !r.value.Urgent() && pct >= 5.0)
      && (r.value == Wait <==> !r.value.Urgent() && pct < 5.0)
  {
    if !Present(latest) || !Present(avg) then None
    else
      var pct := PercentageBelowAvg(latest.value, avg.value);
      if pct >= 15.0 || (UnderBudget(latest.value, maxPrice) && pct >= 10.0) then Some(BuyNow)
      else if pct >= 5.0 then Some(GoodMoment)
      else Some(Wait)
  }

  /** The badge and the recommendation agree: buy-now comes with a badge of at least 8, wait with at most 6. */
  lemma RecommendationAgreesWithBadge(latest: Option<real>, avg: Option<real>, maxPrice: Option<real>)
    requires Present(latest) && Present(avg)
    ensures GetRecommendation(latest, avg, maxPrice) == Some(BuyNow) ==>
      BadgeScore(GetQualityScore(latest, avg).value) >= 8
    ensures GetRecommendation(latest, avg, maxPrice) == Some(Wait) ==>
      BadgeScore(GetQualityScore(latest, avg).value) <= 6
  {
  }

  /** For an average above zero, "15 % below average" is the price at most 0.85 of the average. */
  lemma BuyNowThreshold(latest: real, avg: real)
    requires avg > 0.0
    ensures PercentageBelowAvg(latest, avg) >= 15.0 <==> latest <= avg * 0.85
  {
  }

  /** The savings line: shown only strictly under budget, and then positive. */
  function Savings(latest: Option<real>, maxPrice: Option<real>): (r: Option<real>)
    ensures r.Some? <==> Present(latest) && UnderBudget(latest.value, maxPrice)
    ensures r.Some? ==> r.value > 0.0 && r.value + latest.value == maxPrice.value
  {
    if Present(latest) && UnderBudget(latest.value, maxPrice) then Some(maxPrice.value - latest.value) else None
  }

  /** A price equal to the budget is not under it: no savings line, unlike the backend's ≤ test. */
  lemma PriceAtBudgetShowsNoSavings(p: real)
    requires p != 0.0
    ensures Savings(Some(p), Some(p)).None?
    ensures UnderMaxPrice(Destination(0, "", "", 0, None, Some(p), true), p)
  {
  }
}
