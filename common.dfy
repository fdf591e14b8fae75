/**
 * Values shared by the tracker's components: an Option type, the
 * destination watch record, JavaScript-style truthiness of a maximum
 * price, and the day arithmetic the source gets from date-fns.
 *
 * Time is modelled on one line: a calendar date is an `int` day number
 * (the date's midnight), an instant is a `real` day number.
 */
module Common {

  datatype Option<+T> = None | Some(value: T) {
    function GetOr(default: T): T {
      match this
      case Some(v) => v
      case None => default
    }
  }

  /** A route/date/budget watch, as read from the destinations table. */
  datatype Destination = Destination(
    id: nat,
    origin: string,
    destination: string,
    departure: int,            // departure_date, as a day number
    returnDate: Option<int>,   // return_date, NULL as None
    maxPrice: Option<real>,    // max_price, NULL as None
    active: bool)              // is_active = 1

  /** `destination.max_price` used as a condition: NULL and 0 are both falsy. */
  predicate MaxPriceSet(d: Destination) {
    d.maxPrice.Some? && d.maxPrice.value != 0.0
  }

  /** `destination.max_price && price <= destination.max_price`. */
  predicate UnderMaxPrice(d: Destination, price: real) {
    MaxPriceSet(d) && price <= d.maxPrice.value
  }

  /** Truncation toward zero, as date-fns counts full days between two instants. */
  function TruncateTowardZero(x: real): (r: int)
    ensures x >= 0.0 ==> 0 <= r && r as real <= x < r as real + 1.0
    ensures x < 0.0 ==> r <= 0 && r as real - 1.0 < x <= r as real
  {
    if x >= 0.0 then x.Floor else -((-x).Floor)
  }

  /** differenceInDays(departure, now): the number of full days from now to the departure date. */
  function DaysUntil(departure: int, now: real): int {
    TruncateTowardZero(departure as real - now)
  }

  /** The first destination whose id is `id`: `SELECT * FROM destinations WHERE id = ?`. */
  function Lookup(ds: seq<Destination>, id: nat): (r: Option<Destination>)
    ensures r.Some? ==> r.value in ds && r.value.id == id
    ensures r.None? ==> forall k :: 0 <= k < |ds| ==> ds[k].id != id
  {
    if ds == [] then None
    else if ds[0].id == id then Some(ds[0])
    else Lookup(ds[1..], id)
  }

  /** Math.min / Math.max over a non-empty list of prices. */
  function Min(s: seq<real>): (r: real)
    requires s != []
    ensures r in s
    ensures forall k :: 0 <= k < |s| ==> r <= s[k]
  {
    if |s| == 1 then s[0]
    else
      var m := Min(s[1..]);
      if s[0] <= m then s[0] else m
  }

  function Max(s: seq<real>): (r: real)
    requires s != []
    ensures r in s
    ensures forall k :: 0 <= k < |s| ==> s[k] <= r
  {
    if |s| == 1 then s[0]
    else
      var m := Max(s[1..]);
      if s[0] >= m then s[0] else m
  }
}
