/**
 * The pure parts of the Duffel client (backend/src/services/duffelService.js):
 * building an offer request, keeping and summarising Air Canada offers,
 * the lowest price of a search, and the alternative-dates search (candidate
 * dates, shifted return dates, sorting, best-price mark).
 *
 * The HTTP exchange itself is an input: a search answers with the offers
 * of the response body, or fails (the POST rejected). In the
 * alternative-dates search, getLowestPrice for a (departure, return) pair
 * is the parameter `lowest`.
 */
module DuffelService {
  import opened Common

  const AirCanada: string := "Air Canada"

  /** The parameters of searchFlights; `passengers` defaults to 1 in the source. */
  datatype SearchParams = SearchParams(
    origin: string,
    destination: string,
    departure: int,
    returnDate: Option<int>,
    passengers: nat)

  datatype RequestSlice = RequestSlice(origin: string, destination: string, departureDate: int)

  /** The `data` of POST /air/offer_requests. */
  datatype OfferRequest = OfferRequest(slices: seq<RequestSlice>, passengers: seq<string>, cabinClass: string)

  /** The outbound slice, plus the reversed route on the return date when there is one. */
  function BuildOfferRequest(p: SearchParams): (r: OfferRequest)
    ensures |r.slices| == if p.returnDate.Some? then 2 else 1
    ensures r.slices[0] == RequestSlice(p.origin, p.destination, p.departure)
    ensures |r.slices| == 2 ==>
      && r.slices[1].origin == r.slices[0].destination
      && r.slices[1].destination == r.slices[0].origin
      && r.slices[1].departureDate == p.returnDate.value
    ensures |r.passengers| == p.passengers
    ensures forall k :: 0 <= k < |r.passengers| ==> r.passengers[k] == "adult"
    ensures r.cabinClass == "economy"
  {
    var outbound := [RequestSlice(p.origin, p.destination, p.departure)];
    var slices := match p.returnDate
      case Some(back) => outbound + [RequestSlice(p.destination, p.origin, back)]
      case None => outbound;
    OfferRequest(slices, seq(p.passengers, _ => "adult"), "economy")
  }

  // ---------------------------------------------------------------------
  // Offers

  /** A segment; a missing or empty departing_at is None. */
  datatype Segment = Segment(operatingCarrier: string, departingAt: Option<string>)

  /** A slice of an offer; `duration` in minutes, None when absent. */
  datatype OfferSlice = OfferSlice(segments: seq<Segment>, duration: Option<nat>)

  datatype Offer = Offer(ownerName: string, totalAmount: real, currency: string, slices: seq<OfferSlice>)

  /** The flight summary searchFlights returns for one offer. */
  datatype Flight = Flight(
    price: real,
    currency: string,
    airline: string,
    duration: nat,
    stops: int,
    departureTime: Option<string>)

  predicate SliceOperatedByAirCanada(s: OfferSlice) {
    exists g :: g in s.segments && g.operatingCarrier == AirCanada
  }

  /** Owned by Air Canada, or some segment of some slice operated by it. */
  predicate IsAirCanadaOffer(o: Offer) {
    o.ownerName == AirCanada || exists s :: s in o.slices && SliceOperatedByAirCanada(s)
  }

  /** offers.filter(isAirCanada). */
  function AirCanadaOffers(offers: seq<Offer>): (r: seq<Offer>)
    ensures forall o :: o in r <==> o in offers && IsAirCanadaOffer(o)
    ensures |r| <= |offers|
  {
    if offers == [] then []
    else (if IsAirCanadaOffer(offers[0]) then [offers[0]] else []) + AirCanadaOffers(offers[1..])
  }

  /** The filter keeps the order of the offers: it distributes over concatenation. */
  lemma {:induction false} AirCanadaOffersKeepOrder(a: seq<Offer>, b: seq<Offer>)
    ensures AirCanadaOffers(a + b) == AirCanadaOffers(a) + AirCanadaOffers(b)
  {
    if a != [] {
      assert (a + b)[0] == a[0];
      assert (a + b)[1..] == a[1..] + b;
      AirCanadaOffersKeepOrder(a[1..], b);
    } else {
      assert a + b == b;
    }
  }

  /** Σ (slice.duration || 0). */
  function TotalDuration(slices: seq<OfferSlice>): nat {
    if slices == [] then 0 else slices[0].duration.GetOr(0) + TotalDuration(slices[1..])
  }

  /** Σ (segments.length − 1). */
  function TotalStops(slices: seq<OfferSlice>): (r: int)
    ensures (forall k :: 0 <= k < |slices| ==> |slices[k].segments| >= 1) ==> r >= 0
    ensures (forall k :: 0 <= k < |slices| ==> |slices[k].segments| == 1) ==> r == 0
  {
    if slices == [] then 0 else |slices[0].segments| - 1 + TotalStops(slices[1..])
  }

  function SegmentCount(slices: seq<OfferSlice>): nat {
    if slices == [] then 0 else |slices[0].segments| + SegmentCount(slices[1..])
  }

  /** The stop count is the number of segments less one connection-free segment per slice. */
  lemma {:induction false} StopsAreSegmentsLessSlices(slices: seq<OfferSlice>)
    ensures TotalStops(slices) == SegmentCount(slices) - |slices|
  {
    if slices != [] {
      StopsAreSegmentsLessSlices(slices[1..]);
    }
  }

  /** A missing duration counts as zero: the total is the sum of the known durations. */
  lemma {:induction false} DurationIgnoresMissing(slices: seq<OfferSlice>, s: OfferSlice)
    requires s.duration.None?
    ensures TotalDuration(slices + [s]) == TotalDuration(slices)
  {
    if slices != [] {
      assert (slices + [s])[1..] == slices[1..] + [s];
      DurationIgnoresMissing(slices[1..], s);
    }
  }

  /** slices[0]?.segments[0]?.departing_at || null. */
  function DepartureTime(o: Offer): (r: Option<string>)
    ensures r.Some? ==>
      |o.slices| > 0 && |o.slices[0].segments| > 0
      && o.slices[0].segments[0].departingAt == Some(r.value) && r.value != ""
    ensures r.None? <==>
      !(|o.slices| > 0 && |o.slices[0].segments| > 0
        && o.slices[0].segments[0].departingAt.Some? && o.slices[0].segments[0].departingAt.value != "")
  {
    if |o.slices| > 0 && |o.slices[0].segments| > 0 then
      match o.slices[0].segments[0].departingAt
      case Some(t) => if t != "" then Some(t) else None
      case None => None
    else None
  }

  function ToFlight(o: Offer): Flight {
    Flight(o.totalAmount, o.currency, AirCanada, TotalDuration(o.slices), TotalStops(o.slices), DepartureTime(o))
  }

  function Flights(offers: seq<Offer>): (r: seq<Flight>)
    ensures |r| == |offers|
    ensures forall k :: 0 <= k < |r| ==> r[k] == ToFlight(offers[k])
  {
    if offers == [] then [] else [ToFlight(offers[0])] + Flights(offers[1..])
  }

  /** The response to POST /air/offer_requests: `offers` absent is None; Failed is a rejected request. */
  datatype SearchResponse = Answered(offers: Option<seq<Offer>>) | Failed

  function OffersOf(resp: SearchResponse): seq<Offer>
    requires resp.Answered?
  {
    resp.offers.GetOr([])
  }

  /** searchFlights: None when the request fails (it rethrows); otherwise one flight per Air Canada offer. */
  function SearchFlights(resp: SearchResponse): (r: Option<seq<Flight>>)
    ensures r.None? <==> resp.Failed?
    ensures r.Some? ==> forall f :: f in r.value ==>
      f.airline == AirCanada && exists o :: o in OffersOf(resp) && IsAirCanadaOffer(o) && f == ToFlight(o)
    ensures r.Some? ==> forall o :: o in OffersOf(resp) && IsAirCanadaOffer(o) ==> ToFlight(o) in r.value
  {
    if resp.Failed? then None
    else
      var kept := AirCanadaOffers(OffersOf(resp));
      var r := Flights(kept);
      assert forall o :: o in kept ==> ToFlight(o) in r by {
        forall o | o in kept ensures ToFlight(o) in r {
          var k :| 0 <= k < |kept| && kept[k] == o;
          assert r[k] == ToFlight(o);
        }
      }
      Some(r)
  }

  function Prices(flights: seq<Flight>): (r: seq<real>)
    ensures |r| == |flights|
    ensures forall k :: 0 <= k < |r| ==> r[k] == flights[k].price
  {
    if flights == [] then [] else [flights[0].price] + Prices(flights[1..])
  }

  /**
   * getLowestPrice: null when the search fails or keeps no offer, otherwise
   * the least total amount of the Air Canada offers. It never throws.
   */
  function LowestPrice(resp: SearchResponse): (r: Option<real>)
    ensures r.None? <==> resp.Failed? || forall o :: o in OffersOf(resp) ==> !IsAirCanadaOffer(o)
    ensures r.Some? ==> exists o :: o in OffersOf(resp) && IsAirCanadaOffer(o) && o.totalAmount == r.value
    ensures r.Some? ==> forall o :: o in OffersOf(resp) && IsAirCanadaOffer(o) ==> r.value <= o.totalAmount
  {
    var flights := SearchFlights(resp);
    if flights.None? then None
    else if flights.value == [] then None
    else
      var prices := Prices(flights.value);
      var m := Min(prices);
      assert exists o :: o in OffersOf(resp) && IsAirCanadaOffer(o) && o.totalAmount == m by {
        var k :| 0 <= k < |prices| && prices[k] == m;
        assert flights.value[k] in flights.value;
      }
      assert forall o :: o in OffersOf(resp) && IsAirCanadaOffer(o) ==> m <= o.totalAmount by {
        forall o | o in OffersOf(resp) && IsAirCanadaOffer(o) ensures m <= o.totalAmount {
          var k :| 0 <= k < |flights.value| && flights.value[k] == ToFlight(o);
          assert prices[k] == o.totalAmount;
        }
      }
      Some(m)
  }

  // ---------------------------------------------------------------------
  // Alternative dates

  /** One result of searchAlternativeDates. */
  datatype DatedPrice = DatedPrice(
    date: int,
    returnDate: Option<int>,
    price: Option<real>,
    available: bool,
    isOriginalDate: bool,
    isBestPrice: bool)

  /** The days lo..hi that are not in the past, in increasing order. */
  function CandidateRange(lo: int, hi: int, now: real): (r: seq<int>)
    ensures forall x :: x in r <==> lo <= x <= hi && x as real >= now
    ensures forall i, j :: 0 <= i < j < |r| ==> r[i] < r[j]
    ensures forall k :: 0 <= k < |r| ==> r[k] <= hi
    decreases hi - lo
  {
    if hi < lo then []
    else CandidateRange(lo, hi - 1, now) + (if hi as real >= now then [hi] else [])
  }

  /** The dates of the search: departure − daysRange .. departure + daysRange, past days skipped. */
  method CandidateDates(departure: int, daysRange: int, now: real) returns (dates: seq<int>)
    ensures dates == CandidateRange(departure - daysRange, departure + daysRange, now)
  {
    dates := [];
    var i := -daysRange;
    while i <= daysRange
      invariant i == -daysRange || -daysRange < i <= daysRange + 1
      invariant dates == CandidateRange(departure - daysRange, departure + i - 1, now)
      decreases daysRange - i
    {
      var altDate := departure + i;
      if altDate as real >= now {
        dates := dates + [altDate];
      }
      i := i + 1;
    }
  }

  /** The return date for an alternative departure: same trip length, or none. */
  function AltReturnDate(p: SearchParams, date: int): (r: Option<int>)
    ensures r.Some? <==> p.returnDate.Some?
    ensures r.Some? ==> r.value - date == p.returnDate.value - p.departure
  {
    match p.returnDate
    case Some(back) => Some(date + (back - p.departure))
    case None => None
  }

  lemma AltReturnOfOriginalDate(p: SearchParams)
    ensures AltReturnDate(p, p.departure) == p.returnDate
  {
  }

  /** What the search records for one date. */
  predicate Describes(p: SearchParams, lowest: (int, Option<int>) -> Option<real>, e: DatedPrice) {
    && e.returnDate == AltReturnDate(p, e.date)
    && e.price == lowest(e.date, e.returnDate)
    && (e.available <==> e.price.Some?)
    && (e.isOriginalDate <==> e.date == p.departure)
  }

  /** The unsorted results, one per date, before any best-price mark. */
  function Entries(p: SearchParams, lowest: (int, Option<int>) -> Option<real>, dates: seq<int>): (r: seq<DatedPrice>)
    ensures |r| == |dates|
    ensures forall k :: 0 <= k < |r| ==> r[k].date == dates[k] && Describes(p, lowest, r[k]) && !r[k].isBestPrice
  {
    if dates == [] then []
    else
      var n := |dates| - 1;
      var back := AltReturnDate(p, dates[n]);
      var price := lowest(dates[n], back);
      Entries(p, lowest, dates[..n]) + [DatedPrice(dates[n], back, price, price.Some?, dates[n] == p.departure, false)]
  }

  function PriceOf(e: DatedPrice): real {
    e.price.GetOr(0.0)
  }

  /** The comparator's order: unavailable entries last, available ones by ascending price. */
  predicate MayPrecede(a: DatedPrice, b: DatedPrice) {
    !b.available || (a.available && PriceOf(a) <= PriceOf(b))
  }

  predicate SortedByPrice(s: seq<DatedPrice>) {
    forall i, j :: 0 <= i < j < |s| ==> MayPrecede(s[i], s[j])
  }

  function Insert(x: DatedPrice, s: seq<DatedPrice>): (r: seq<DatedPrice>)
    requires SortedByPrice(s)
    ensures SortedByPrice(r)
    ensures multiset(r) == multiset(s) + multiset{x}
  {
    if s == [] then [x]
    else if MayPrecede(x, s[0]) then [x] + s
    else
      var t := Insert(x, s[1..]);
      assert s == [s[0]] + s[1..];
      assert forall y :: y in t ==> MayPrecede(s[0], y) by {
        forall y | y in t ensures MayPrecede(s[0], y) {
          assert y in multiset(t);
          if y != x {
            assert y in s[1..];
          }
        }
      }
      [s[0]] + t
  }

  /** results.sort(comparator), as a stable insertion sort. */
  function SortByPrice(s: seq<DatedPrice>): (r: seq<DatedPrice>)
    ensures SortedByPrice(r)
    ensures multiset(r) == multiset(s)
  {
    if s == [] then []
    else
      assert s == [s[0]] + s[1..];
      Insert(s[0], SortByPrice(s[1..]))
  }

  /** results.find(r => r.available). */
  function FirstAvailable(s: seq<DatedPrice>): (r: Option<nat>)
    ensures r.Some? ==> r.value < |s| && s[r.value].available
    ensures r.Some? ==> forall j :: 0 <= j < r.value ==> !s[j].available
    ensures r.None? ==> forall j :: 0 <= j < |s| ==> !s[j].available
  {
    if s == [] then None
    else if s[0].available then Some(0)
    else
      match FirstAvailable(s[1..])
      case Some(k) => Some(k + 1)
      case None => None
  }

  /** The results with the best-price mark removed. */
  function Unmarked(s: seq<DatedPrice>): (r: seq<DatedPrice>)
    ensures |r| == |s|
    ensures forall k :: 0 <= k < |r| ==> r[k] == s[k].(isBestPrice := false)
  {
    if s == [] then [] else [s[0].(isBestPrice := false)] + Unmarked(s[1..])
  }

  lemma UnmarkedOfUnmarked(s: seq<DatedPrice>)
    requires forall k :: 0 <= k < |s| ==> !s[k].isBestPrice
    ensures Unmarked(s) == s
  {
  }

  /** Sorting a list of unmarked entries leaves every entry unmarked. */
  lemma SortKeepsUnmarked(entries: seq<DatedPrice>, sorted: seq<DatedPrice>)
    requires forall k :: 0 <= k < |entries| ==> !entries[k].isBestPrice
    requires multiset(sorted) == multiset(entries)
    ensures forall k :: 0 <= k < |sorted| ==> !sorted[k].isBestPrice
  {
    forall k | 0 <= k < |sorted| ensures !sorted[k].isBestPrice {
      assert sorted[k] in multiset(entries);
    }
  }

  /** Whether `s` marks exactly its first available entry, and that entry is a cheapest one. */
  predicate BestMarked(s: seq<DatedPrice>) {
    && (forall k :: 0 <= k < |s| ==>
          (s[k].isBestPrice <==> s[k].available && forall j :: 0 <= j < k ==> !s[j].available))
    && (forall k, m :: 0 <= k < |s| && 0 <= m < |s| && s[k].isBestPrice && s[m].available ==>
          PriceOf(s[k]) <= PriceOf(s[m]))
  }

  /** bestPrice.isBestPrice = true on the first available entry of a sorted, unmarked list. */
  lemma MarkingTheFirstAvailable(s: seq<DatedPrice>, b: nat)
    requires SortedByPrice(s)
    requires forall k :: 0 <= k < |s| ==> !s[k].isBestPrice
    requires FirstAvailable(s) == Some(b)
    ensures var r := s[b := s[b].(isBestPrice := true)];
      Unmarked(r) == s && SortedByPrice(r) && BestMarked(r)
  {
    var r := s[b := s[b].(isBestPrice := true)];
    assert forall k :: 0 <= k < |r| ==> r[k].(isBestPrice := false) == s[k];
    assert forall k :: 0 <= k < |r| ==> r[k].available == s[k].available && PriceOf(r[k]) == PriceOf(s[k]);
  }

  /** With nothing available, no entry is marked. */
  lemma NothingAvailableNothingMarked(s: seq<DatedPrice>)
    requires forall k :: 0 <= k < |s| ==> !s[k].isBestPrice
    requires FirstAvailable(s) == None
    ensures BestMarked(s)
  {
  }

  /** The loop over the candidate dates: one entry per date, priced by `lowest`, in order. */
  method PriceEachDate(p: SearchParams, lowest: (int, Option<int>) -> Option<real>, dates: seq<int>)
    returns (entries: seq<DatedPrice>)
    ensures entries == Entries(p, lowest, dates)
  {
    entries := [];
    for k := 0 to |dates|
      invariant entries == Entries(p, lowest, dates[..k])
    {
      var back := AltReturnDate(p, dates[k]);
      var price := lowest(dates[k], back);
      assert dates[..k + 1][..k] == dates[..k];
      entries := entries + [DatedPrice(dates[k], back, price, price.Some?, dates[k] == p.departure, false)];
    }
    assert dates[..|dates|] == dates;
  }

  /**
   * The results are a permutation of one entry per candidate date, with
   * available entries first by ascending price and exactly the first
   * available entry marked best.
   */
  method SearchAlternativeDates(p: SearchParams, daysRange: int, now: real, lowest: (int, Option<int>) -> Option<real>)
    returns (results: seq<DatedPrice>)
    ensures multiset(Unmarked(results)) ==
      multiset(Entries(p, lowest, CandidateRange(p.departure - daysRange, p.departure + daysRange, now)))
    ensures SortedByPrice(results)
    ensures BestMarked(results)
  {
    var dates := CandidateDates(p.departure, daysRange, now);
    var entries := PriceEachDate(p, lowest, dates);
    var sorted := SortByPrice(entries);
    SortKeepsUnmarked(entries, sorted);
    UnmarkedOfUnmarked(sorted);
    assert multiset(Unmarked(sorted)) == multiset(entries);
    var best := FirstAvailable(sorted);
    if best.Some? {
      MarkingTheFirstAvailable(sorted, best.value);
      results := sorted[best.value := sorted[best.value].(isBestPrice := true)];
      assert Unmarked(results) == sorted;
    } else {
      NothingAvailableNothingMarked(sorted);
      results := sorted;
    }
  }
}
