/**
 * The price analyser: a 0-100 quality score for the current fare against
 * the trailing 30-day history, a trend label, the buy/no-buy rule and the
 * price-drop detector (backend/src/services/priceAnalyzer.js).
 *
 * The database reads of the source become parameters: the history is the
 * window's prices newest first, the last stored price an Option, the
 * destination an Option (NULL when the id is unknown), and the number of
 * days until departure an int. Prices are exact reals; every price the
 * code divides by is required to be positive.
 */
module PriceAnalyzer {
  import opened Common

  /** 'hausse', 'baisse', 'stable'. */
  datatype Trend = Rising | Falling | Stable

  datatype Recommendation =
    | InsufficientHistory   // 'Pas assez de donnees historiques'
    | ExcellentMoment       // 'Excellent moment pour acheter'
    | GoodPrice             // 'Bon prix, achetez si dates conviennent'
    | AveragePrice          // 'Prix moyen, attendre si possible'
    | HighPrice             // 'Prix eleve, attendre une baisse'

  function RecommendationText(r: Recommendation): string {
    match r
    case InsufficientHistory => "Pas assez de donnees historiques"
    case ExcellentMoment => "Excellent moment pour acheter"
    case GoodPrice => "Bon prix, achetez si dates conviennent"
    case AveragePrice => "Prix moyen, attendre si possible"
    case HighPrice => "Prix eleve, attendre une baisse"
  }

  datatype Stats = Stats(
    currentPrice: real,
    avgPrice: real,
    minPrice: real,
    maxPrice: real,
    trend: Trend,
    dataPoints: nat)

  /** What calculateQualityScore returns; the empty-history report has no stats. */
  datatype ScoreReport = ScoreReport(score: int, recommendation: Recommendation, stats: Option<Stats>)

  predicate AllPositive(s: seq<real>) {
    forall k :: 0 <= k < |s| ==> s[k] > 0.0
  }

  // ---------------------------------------------------------------------
  // Aggregates over the history (reduce, Math.min, Math.max)

  function Sum(s: seq<real>): (r: real)
    ensures AllPositive(s) && s != [] ==> r > 0.0
  {
    if s == [] then 0.0 else s[0] + Sum(s[1..])
  }

  function Average(s: seq<real>): (r: real)
    requires s != []
    ensures AllPositive(s) ==> r > 0.0
  {
    Sum(s) / |s| as real
  }

  lemma {:induction false} SumOfConstant(s: seq<real>, c: real)
    requires forall k :: 0 <= k < |s| ==> s[k] == c
    ensures Sum(s) == |s| as real * c
  {
    if s != [] {
      SumOfConstant(s[1..], c);
    }
  }

  lemma AverageOfConstant(s: seq<real>, c: real)
    requires s != []
    requires forall k :: 0 <= k < |s| ==> s[k] == c
    ensures Average(s) == c
  {
    SumOfConstant(s, c);
  }

  // ---------------------------------------------------------------------
  // calculateTrend

  function RealMin(a: real, b: real): real { if a <= b then a else b }
  function RealMax(a: real, b: real): real { if a >= b then a else b }
  function IntMin(a: int, b: int): int { if a <= b then a else b }

  /** prices.slice(3, 6): the older group. */
  function OlderGroup(prices: seq<real>): seq<real>
    requires |prices| >= 3
  {
    prices[3..IntMin(6, |prices|)]
  }

  /** ((recentAvg - olderAvg) / olderAvg) * 100 */
  function ChangePercent(recentAvg: real, olderAvg: real): real
    requires olderAvg > 0.0
  {
    (recentAvg - olderAvg) / olderAvg * 100.0
  }

  /** Division by a positive number keeps signs and order. */
  lemma DivisionByPositive(a: real, b: real)
    requires b > 0.0
    ensures a / b * b == a
    ensures a / b >= 0.0 <==> a >= 0.0
    ensures a / b <= 1.0 <==> a <= b
  {
  }

  /** Multiplying both sides by a positive number keeps comparisons. */
  lemma ScaleByPositive(q: real, b: real, t: real)
    requires b > 0.0
    ensures q > t <==> q * b > t * b
    ensures q < t <==> q * b < t * b
    ensures q >= t <==> q * b >= t * b
  {
  }

  lemma ChangeAboveIff(recentAvg: real, olderAvg: real)
    requires olderAvg > 0.0
    ensures (recentAvg - olderAvg) / olderAvg * 100.0 > 5.0 <==> recentAvg * 100.0 > olderAvg * 105.0
  {
  }

  lemma ChangeBelowIff(recentAvg: real, olderAvg: real)
    requires olderAvg > 0.0
    ensures (recentAvg - olderAvg) / olderAvg * 100.0 < -5.0 <==> recentAvg * 100.0 < olderAvg * 95.0
  {
  }

  /** The 15 % threshold of detectPriceDrop, without the division. */
  lemma DropPercentIff(previous: real, current: real)
    requires previous > 0.0
    ensures (previous - current) / previous * 100.0 * previous == (previous - current) * 100.0
    ensures (previous - current) / previous * 100.0 >= 15.0 <==> current <= previous * 0.85
  {
  }

  function CalculateTrend(prices: seq<real>): (t: Trend)
    requires AllPositive(prices)
    ensures |prices| < 4 ==> t == Stable
    ensures t == Rising <==>
      |prices| >= 4 && Average(prices[..3]) * 100.0 > Average(OlderGroup(prices)) * 105.0
    ensures t == Falling <==>
      |prices| >= 4 && Average(prices[..3]) * 100.0 < Average(OlderGroup(prices)) * 95.0
  {
    if |prices| < 3 then Stable
    else
      var recent := prices[..3];
      var older := OlderGroup(prices);
      if |older| == 0 then Stable
      else
        assert AllPositive(older) by {
          forall k | 0 <= k < |older| ensures older[k] > 0.0 {
            assert older[k] == prices[3 + k];
          }
        }
        var recentAvg := Average(recent);
        var olderAvg := Average(older);
        ChangeAboveIff(recentAvg, olderAvg);
        ChangeBelowIff(recentAvg, olderAvg);
        var change := ChangePercent(recentAvg, olderAvg);
        if change > 5.0 then Rising
        else if change < -5.0 then Falling
        else Stable
  }

  /** The trend the score uses: calculateTrend(priceValues.slice(0, 5)). */
  function HistoryTrend(h: seq<real>): Trend
    requires AllPositive(h)
  {
    CalculateTrend(h[..IntMin(5, |h|)])
  }

  /** Because only five entries reach calculateTrend, the older group is h[3..5]: two prices, never three. */
  lemma HistoryTrendComparesTwoOlderPrices(h: seq<real>)
    requires AllPositive(h) && |h| >= 5
    ensures HistoryTrend(h) == Rising <==> Average(h[..3]) * 100.0 > Average(h[3..5]) * 105.0
    ensures HistoryTrend(h) == Falling <==> Average(h[..3]) * 100.0 < Average(h[3..5]) * 95.0
  {
    var p := h[..5];
    assert p[..3] == h[..3];
    assert OlderGroup(p) == h[3..5];
  }

  // ---------------------------------------------------------------------
  // calculateQualityScore

  /** Factor 1: Math.max(0, -avgDifference * 0.4). */
  function AveragePenalty(avg: real, current: real): (p: real)
    requires avg > 0.0
    ensures p >= 0.0
    ensures p == 0.0 <==> current <= avg
    ensures current > avg ==> p * avg == (current - avg) * 40.0
  {
    var avgDifference := (avg - current) / avg * 100.0;
    DivisionByPositive(avg - current, avg);
    DivisionByPositive(current - avg, avg);
    RealMax(0.0, -avgDifference * 0.4)
  }

  /** Factor 2: position of the current price in [min, max], 50 when the range is empty. */
  function RangePosition(minPrice: real, maxPrice: real, current: real): (r: real)
    ensures minPrice == maxPrice ==> r == 50.0
    ensures minPrice < maxPrice && minPrice <= current <= maxPrice ==> 0.0 <= r <= 100.0
  {
    if maxPrice != minPrice then
      var x := (current - minPrice) / (maxPrice - minPrice);
      if minPrice < maxPrice then
        DivisionByPositive(current - minPrice, maxPrice - minPrice);
        x * 100.0
      else
        x * 100.0
    else 50.0
  }

  /** Factor 3, as written: +15 for a rising trend, -15 for a falling one. */
  function TrendAdjustment(t: Trend): real {
    match t
    case Rising => 15.0
    case Falling => -15.0
    case Stable => 0.0
  }

  /** Math.max(0, Math.min(100, score)). */
  function Clamp(x: real): (r: real)
    ensures 0.0 <= r <= 100.0
    ensures 0.0 <= x <= 100.0 ==> r == x
  {
    RealMax(0.0, RealMin(100.0, x))
  }

  /** Math.round: half-way values go up, i.e. floor(x + 0.5). */
  function RoundHalfUp(x: real): (r: int)
    ensures r as real <= x + 0.5 < r as real + 1.0
    ensures 0.0 <= x <= 100.0 ==> 0 <= r <= 100
  {
    (x + 0.5).Floor
  }

  /** The recommendation bands, applied to the clamped but unrounded score. */
  function Band(score: real): Recommendation {
    if score >= 90.0 then ExcellentMoment
    else if score >= 70.0 then GoodPrice
    else if score >= 50.0 then AveragePrice
    else HighPrice
  }

  /** The score after the three factors and the clamp, before Math.round. */
  function ClampedScore(h: seq<real>, current: real): (s: real)
    requires h != [] && AllPositive(h)
    ensures 0.0 <= s <= 100.0
  {
    var avg := Average(h);
    Clamp(100.0
          - AveragePenalty(avg, current)
          - RangePosition(Min(h), Max(h), current) * 0.3
          + TrendAdjustment(HistoryTrend(h)))
  }

  /** calculateQualityScore with the 30-day history (newest first) given as `h`. */
  function QualityScore(h: seq<real>, current: real): (r: ScoreReport)
    requires AllPositive(h)
    ensures 0 <= r.score <= 100
    ensures h == [] <==> r.recommendation == InsufficientHistory
    ensures h == [] ==> r.score == 50 && r.stats.None?
    ensures h != [] ==> r.stats.Some? && r.stats.value.dataPoints == |h|
  {
    if h == [] then ScoreReport(50, InsufficientHistory, None)
    else
      var s := ClampedScore(h, current);
      ScoreReport(RoundHalfUp(s), Band(s),
                  Some(Stats(current, Average(h), Min(h), Max(h), HistoryTrend(h), |h|)))
  }

  /**
   * The source's own form: a local score that starts at 100 and is
   * decremented and incremented factor by factor, then clamped.
   */
  method CalculateQualityScore(h: seq<real>, current: real) returns (r: ScoreReport)
    requires AllPositive(h)
    ensures r == QualityScore(h, current)
  {
    if |h| == 0 {
      return ScoreReport(50, InsufficientHistory, None);
    }
    var avgPrice := Sum(h) / |h| as real;
    assert avgPrice == Average(h) > 0.0;
    var minPrice := Min(h);
    var maxPrice := Max(h);
    var score := 100.0;
    var avgDifference := (avgPrice - current) / avgPrice * 100.0;
    score := score - RealMax(0.0, -avgDifference * 0.4);
    assert score == 100.0 - AveragePenalty(avgPrice, current);
    var rangePosition := if maxPrice != minPrice
      then (current - minPrice) / (maxPrice - minPrice) * 100.0
      else 50.0;
    assert rangePosition == RangePosition(minPrice, maxPrice, current);
    score := score - rangePosition * 0.3;
    var trend := CalculateTrend(h[..IntMin(5, |h|)]);
    assert trend == HistoryTrend(h);
    if trend == Rising {
      score := score + 15.0;
    } else if trend == Falling {
      score := score - 15.0;
    }
    assert score == 100.0 - AveragePenalty(avgPrice, current) - rangePosition * 0.3 + TrendAdjustment(trend);
    score := RealMax(0.0, RealMin(100.0, score));
    assert score == ClampedScore(h, current);
    var recommendation;
    if score >= 90.0 {
      recommendation := ExcellentMoment;
    } else if score >= 70.0 {
      recommendation := GoodPrice;
    } else if score >= 50.0 {
      recommendation := AveragePrice;
    } else {
      recommendation := HighPrice;
    }
    r := ScoreReport((score + 0.5).Floor, recommendation,
                     Some(Stats(current, avgPrice, minPrice, maxPrice, trend, |h|)));
  }

  /**
   * The rounded score and the band chosen on the unrounded one agree up to
   * the rounding: a band implies its threshold, and a rounded score one
   * point above a threshold implies that band (or a better one).
   */
  lemma RecommendationAgreesWithScore(h: seq<real>, current: real)
    requires h != [] && AllPositive(h)
    ensures var r := QualityScore(h, current);
      && (r.recommendation == ExcellentMoment <==> ClampedScore(h, current) >= 90.0)
      && (r.recommendation == ExcellentMoment ==> r.score >= 90)
      && (r.score > 90 ==> r.recommendation == ExcellentMoment)
      && (r.recommendation in {ExcellentMoment, GoodPrice} ==> r.score >= 70)
      && (r.score > 70 ==> r.recommendation in {ExcellentMoment, GoodPrice})
      && (r.recommendation == HighPrice ==> r.score <= 50)
      && (r.score < 50 ==> r.recommendation == HighPrice)
  {
  }

  /** Banding uses the unrounded score: 89.5 rounds to 90 but is only a "good price". */
  lemma BandUsesUnroundedScore()
    ensures ClampedScore([100.0, 200.0], 135.0) == 89.5
    ensures QualityScore([100.0, 200.0], 135.0).score == 90
    ensures QualityScore([100.0, 200.0], 135.0).recommendation == GoodPrice
  {
    var h := [100.0, 200.0];
    assert Sum(h) == 300.0;
    assert Min(h) == 100.0 && Max(h) == 200.0;
    assert AveragePenalty(150.0, 135.0) == 0.0;
    assert RangePosition(100.0, 200.0, 135.0) == 35.0;
    assert HistoryTrend(h) == Stable;
  }

  /** The statistics of the history [120, 120, 120, 100, 100]. */
  lemma RisingExampleStatistics(h: seq<real>)
    requires h == [120.0, 120.0, 120.0, 100.0, 100.0]
    ensures AllPositive(h)
    ensures Average(h) == 112.0 && Min(h) == 100.0 && Max(h) == 120.0
    ensures HistoryTrend(h) == Rising
  {
    SumOfConstant(h[3..], 100.0);
    assert h[2..][1..] == h[3..] && h[1..][1..] == h[2..];
    assert Sum(h[2..]) == 320.0;
    assert Sum(h[1..]) == 440.0;
    assert Sum(h) == 560.0;
    RisingExampleTrend(h);
  }

  lemma RisingExampleTrend(h: seq<real>)
    requires h == [120.0, 120.0, 120.0, 100.0, 100.0]
    ensures AllPositive(h) && HistoryTrend(h) == Rising
  {
    HistoryTrendComparesTwoOlderPrices(h);
    AverageOfConstant(h[..3], 120.0);
    AverageOfConstant(h[3..5], 100.0);
  }

  /**
   * A rising trend raises the score, as written: with [120, 120, 120, 100, 100]
   * and a price of 120, 100 - 20/7 - 30 + 15 gives 575/7 (about 82.14), a
   * good price scoring 82; without the +15 it would score 67, an average price.
   */
  lemma RisingTrendRaisesScore(h: seq<real>)
    requires h == [120.0, 120.0, 120.0, 100.0, 100.0]
    ensures AllPositive(h)
    ensures HistoryTrend(h) == Rising
    ensures ClampedScore(h, 120.0) == 575.0 / 7.0
    ensures QualityScore(h, 120.0).score == 82
    ensures QualityScore(h, 120.0).recommendation == GoodPrice
    ensures RoundHalfUp(ClampedScore(h, 120.0) - TrendAdjustment(Rising)) == 67
    ensures Band(ClampedScore(h, 120.0) - TrendAdjustment(Rising)) == AveragePrice
  {
    RisingExampleStatistics(h);
    assert AveragePenalty(112.0, 120.0) == 20.0 / 7.0;
    assert RangePosition(100.0, 120.0, 120.0) == 100.0;
    assert Clamp(575.0 / 7.0) == 575.0 / 7.0;
  }

  /** A history whose entries all equal the current price scores 85: 100 - 0 - 50 * 0.3 + 0. */
  lemma {:induction false} ConstantHistoryScores85(h: seq<real>, c: real)
    requires h != [] && c > 0.0
    requires forall k :: 0 <= k < |h| ==> h[k] == c
    ensures AllPositive(h)
    ensures ClampedScore(h, c) == 85.0
    ensures QualityScore(h, c) == ScoreReport(85, GoodPrice, Some(Stats(c, c, c, c, Stable, |h|)))
  {
    AverageOfConstant(h, c);
    assert Min(h) == c && Max(h) == c;
    assert AveragePenalty(c, c) == 0.0;
    var p := h[..IntMin(5, |h|)];
    if |p| >= 4 {
      var older := OlderGroup(p);
      AverageOfConstant(p[..3], c);
      AverageOfConstant(older, c);
    }
    assert HistoryTrend(h) == Stable;
  }

  // ---------------------------------------------------------------------
  // shouldBuyNow

  datatype Urgency = High | Medium

  datatype BuyReason =
    | TargetReached          // 'Prix cible atteint'
    | ExcellentHistoricPrice // 'Excellent prix historique'
    | GoodPriceDepartureSoon // 'Bon prix et date proche'

  datatype BuyDecision =
    | DestinationNotFound    // { buy: false, reason: 'Destination introuvable' }
    | Buy(reason: BuyReason, urgency: Urgency, score: int)
    | Wait(recommendation: Recommendation, score: int, daysUntilDeparture: int)
  {
    predicate IsBuy() { Buy? }
  }

  /**
   * shouldBuyNow: the destination record is `dest` (None when the id is
   * unknown); the days until departure count from its departure date to `now`.
   */
  function ShouldBuyNow(h: seq<real>, dest: Option<Destination>, current: real, now: real): (r: BuyDecision)
    requires AllPositive(h)
    ensures r.DestinationNotFound? <==> dest.None?
    ensures r.Buy? && r.urgency == High <==>
      dest.Some? && (UnderMaxPrice(dest.value, current) || QualityScore(h, current).score >= 85)
    ensures r.Buy? && r.urgency == Medium <==>
      && dest.Some? && !UnderMaxPrice(dest.value, current)
      && 70 <= QualityScore(h, current).score < 85 && DaysUntil(dest.value.departure, now) <= 14
    ensures r.Buy? ==>
      && (r.reason == TargetReached <==> UnderMaxPrice(dest.value, current))
      && (r.reason == ExcellentHistoricPrice <==>
            !UnderMaxPrice(dest.value, current) && QualityScore(h, current).score >= 85)
      && (r.reason == GoodPriceDepartureSoon <==> r.urgency == Medium)
    ensures r.Buy? || r.Wait? ==> r.score == QualityScore(h, current).score
    ensures r.Wait? ==>
      && r.recommendation == QualityScore(h, current).recommendation
      && r.daysUntilDeparture == DaysUntil(dest.value.departure, now)
  {
    var report := QualityScore(h, current);
    if dest.None? then DestinationNotFound
    else if UnderMaxPrice(dest.value, current) then Buy(TargetReached, High, report.score)
    else if report.score >= 85 then Buy(ExcellentHistoricPrice, High, report.score)
    else if DaysUntil(dest.value.departure, now) <= 14 && report.score >= 70 then
      Buy(GoodPriceDepartureSoon, Medium, report.score)
    else Wait(report.recommendation, report.score, DaysUntil(dest.value.departure, now))
  }

  /** A max_price of 0 is falsy, so it never triggers the target rule. */
  lemma ZeroMaxPriceIsNotATarget(h: seq<real>, d: Destination, current: real, now: real)
    requires AllPositive(h)
    requires d.maxPrice == Some(0.0)
    requires QualityScore(h, current).score < 70
    ensures !ShouldBuyNow(h, Some(d), current, now).IsBuy()
  {
  }

  // ---------------------------------------------------------------------
  // detectPriceDrop

  datatype PriceDrop = PriceDrop(previousPrice: real, currentPrice: real, drop: real, percentageDrop: real)

  /** detectPriceDrop: the last stored price is `last` (None when there is none). */
  function DetectPriceDrop(last: Option<real>, current: real): (r: Option<PriceDrop>)
    requires last.Some? ==> last.value > 0.0
    ensures last.None? ==> r.None?
    ensures r.Some? <==> last.Some? && current <= last.value * 0.85
    ensures r.Some? ==>
      && r.value.previousPrice == last.value
      && r.value.currentPrice == current
      && r.value.drop == last.value - current
      && r.value.percentageDrop * last.value == r.value.drop * 100.0
  {
    match last
    case None => None
    case Some(previous) =>
      var priceDrop := previous - current;
      var percentageDrop := priceDrop / previous * 100.0;
      DropPercentIff(previous, current);
      if percentageDrop >= 15.0 then Some(PriceDrop(previous, current, priceDrop, percentageDrop))
      else None
  }

  /** Comparing a price with itself never reports a drop. */
  lemma NoDropAgainstSamePrice(p: real)
    requires p > 0.0
    ensures DetectPriceDrop(Some(p), p).None?
  {
  }
}
