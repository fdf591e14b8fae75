/**
 * The sweep orchestrator (backend/src/cron/priceChecker.js): an
 * `isRunning` lock around a sequential loop over the active destinations;
 * per destination: fetch the lowest fare, store the observation, analyse
 * it, and evaluate three independent alerts, each of which notifies and
 * then records an alert row. An exception while handling one destination
 * is caught and the sweep goes on.
 *
 * The repository is in memory (sequences of observations, alerts and
 * outbound notifications, and a count of logged per-destination errors).
 * The price source and the notifier are scripts of answers consumed in call
 * order: `quotes` are the successive results of getLowestPrice and `sends`
 * the successive outcomes of a notification; an exhausted script fails.
 *
 * The behaviour is first given as functions over a snapshot of the tables
 * (AlertOutcome, CheckOutcome, SweepOutcome), then as the class Checker
 * whose methods change its fields step by step and are proved to produce
 * exactly those snapshots.
 */
module PriceChecker {
  import opened Common
  import PriceAnalyzer

  /** What getLowestPrice yields: a price, null (no offer), or null after a caught API error. */
  datatype Quote = Price(amount: real) | NoOffer | Fail

  /** A notification that is sent, logged as a simulation (Twilio not configured), or throws. */
  datatype SendOutcome = Delivered | Simulated | Threw

  /** 'optimal_price', 'price_drop', 'max_price_reached'. */
  datatype AlertKind = OptimalPrice | PriceDrop | MaxPriceReached

  /** A row of the prices table; `at` is its checked_at instant. */
  datatype Observation = Observation(dest: nat, price: real, at: real)

  /** A row of the alerts table; the message text is not modelled. */
  datatype Alert = Alert(dest: nat, kind: AlertKind, price: real)

  /** A notification handed to the notifier that returned normally. */
  datatype Notification = Notification(dest: nat, kind: AlertKind, price: real, delivered: bool)

  datatype Tables = Tables(
    observations: seq<Observation>,
    alerts: seq<Alert>,
    notifications: seq<Notification>,
    errors: nat,
    quotes: seq<Quote>,
    sends: seq<SendOutcome>)

  /** The trailing window of calculateQualityScore, in days. */
  const WindowDays: real := 30.0

  predicate PricesPositive(obs: seq<Observation>) {
    forall k :: 0 <= k < |obs| ==> obs[k].price > 0.0
  }

  /** Fares are never negative. */
  predicate QuotesNonNegative(qs: seq<Quote>) {
    forall k :: 0 <= k < |qs| ==> (qs[k].Price? ==> qs[k].amount >= 0.0)
  }

  predicate TablesValid(t: Tables) {
    PricesPositive(t.observations) && QuotesNonNegative(t.quotes)
  }

  /** Rows are inserted in checked_at order: the clock never runs backwards. */
  predicate Chronological(obs: seq<Observation>) {
    forall i, j :: 0 <= i < j < |obs| ==> obs[i].at <= obs[j].at
  }

  /** No stored row is later than `now`. */
  predicate ObservedBy(obs: seq<Observation>, now: real) {
    forall k :: 0 <= k < |obs| ==> obs[k].at <= now
  }

  /** Inserting a row stamped `now` keeps the table in checked_at order. */
  predicate Clocked(obs: seq<Observation>, now: real) {
    Chronological(obs) && ObservedBy(obs, now)
  }

  // ---------------------------------------------------------------------
  // Queries on the prices table

  /**
   * The rows of `id` stamped at or after `since`, newest first: the rows of
   * `WHERE destination_id = ? AND checked_at >= … ORDER BY checked_at DESC`
   * when the table is in checked_at order, rows with equal stamps taken
   * latest insert first.
   */
  function Window(obs: seq<Observation>, id: nat, since: real): (w: seq<Observation>)
    ensures forall k :: 0 <= k < |w| ==> w[k] in obs && w[k].dest == id && w[k].at >= since
  {
    if obs == [] then []
    else
      var n := |obs| - 1;
      var rest := Window(obs[..n], id, since);
      assert forall x :: x in obs[..n] ==> x in obs;
      (if obs[n].dest == id && obs[n].at >= since then [obs[n]] else []) + rest
  }

  /** Every row of `id` in the window is selected. */
  lemma {:induction false} WindowComplete(obs: seq<Observation>, id: nat, since: real)
    ensures forall o :: o in obs && o.dest == id && o.at >= since ==> o in Window(obs, id, since)
  {
    if obs != [] {
      var n := |obs| - 1;
      WindowComplete(obs[..n], id, since);
      assert forall x :: x in obs ==> x == obs[n] || x in obs[..n] by {
        assert obs == obs[..n] + [obs[n]];
      }
    }
  }

  /** Rows in order of non-increasing checked_at. */
  predicate NewestFirst(w: seq<Observation>) {
    forall i, j :: 0 <= i < j < |w| ==> w[i].at >= w[j].at
  }

  /** In a table in checked_at order the window is newest first. */
  lemma {:induction false} WindowNewestFirst(obs: seq<Observation>, id: nat, since: real)
    requires Chronological(obs)
    ensures NewestFirst(Window(obs, id, since))
  {
    if obs != [] {
      var n := |obs| - 1;
      var rest := Window(obs[..n], id, since);
      assert Chronological(obs[..n]);
      WindowNewestFirst(obs[..n], id, since);
      if obs[n].dest == id && obs[n].at >= since {
        EarlierRowsNotNewer(obs);
        NewestFirstCons(obs[n], rest);
        assert Window(obs, id, since) == [obs[n]] + rest;
      }
    }
  }

  /** In a table in checked_at order, no row before the last is newer than it. */
  lemma EarlierRowsNotNewer(obs: seq<Observation>)
    requires Chronological(obs) && obs != []
    ensures forall x :: x in obs[..|obs| - 1] ==> x.at <= obs[|obs| - 1].at
  {
    var n := |obs| - 1;
    forall x | x in obs[..n] ensures x.at <= obs[n].at {
      var i :| 0 <= i < n && obs[..n][i] == x;
      assert obs[i] == x;
    }
  }

  /** A row no older than every row of a newest-first list can head it. */
  lemma NewestFirstCons(o: Observation, rest: seq<Observation>)
    requires NewestFirst(rest)
    requires forall x :: x in rest ==> x.at <= o.at
    ensures NewestFirst([o] + rest)
  {
    var w := [o] + rest;
    forall i, j | 0 <= i < j < |w| ensures w[i].at >= w[j].at {
      assert w[j] == rest[j - 1];
      if i > 0 {
        assert w[i] == rest[i - 1];
      } else {
        assert rest[j - 1] in rest;
      }
    }
  }

  /** The prices of the 30-day query, newest first. */
  function History(obs: seq<Observation>, id: nat, since: real): (h: seq<real>)
    ensures PricesPositive(obs) ==> PriceAnalyzer.AllPositive(h)
    ensures |h| <= |obs|
  {
    if obs == [] then []
    else
      var o := obs[|obs| - 1];
      (if o.dest == id && o.at >= since then [o.price] else []) + History(obs[..|obs| - 1], id, since)
  }

  /** The history is the prices of the window, in its order. */
  lemma {:induction false} HistoryIsWindowPrices(obs: seq<Observation>, id: nat, since: real)
    ensures |History(obs, id, since)| == |Window(obs, id, since)|
    ensures forall k :: 0 <= k < |History(obs, id, since)| ==>
      History(obs, id, since)[k] == Window(obs, id, since)[k].price
  {
    if obs != [] {
      HistoryIsWindowPrices(obs[..|obs| - 1], id, since);
    }
  }

  /** Row k is the last inserted row of `id`. */
  predicate LatestRow(obs: seq<Observation>, id: nat, k: int) {
    0 <= k < |obs| && obs[k].dest == id && forall j :: k < j < |obs| ==> obs[j].dest != id
  }

  /** The most recent price of `id`, whatever its age (ORDER BY checked_at DESC LIMIT 1). */
  function LastPrice(obs: seq<Observation>, id: nat): (r: Option<real>)
    ensures PricesPositive(obs) && r.Some? ==> r.value > 0.0
    ensures r.None? <==> forall k :: 0 <= k < |obs| ==> obs[k].dest != id
  {
    if obs == [] then None
    else if obs[|obs| - 1].dest == id then Some(obs[|obs| - 1].price)
    else LastPrice(obs[..|obs| - 1], id)
  }

  /** The last price is that of the last inserted row of `id`. */
  lemma {:induction false} LastPriceIsLatestRow(obs: seq<Observation>, id: nat)
    requires LastPrice(obs, id).Some?
    ensures exists k :: LatestRow(obs, id, k) && obs[k].price == LastPrice(obs, id).value
  {
    var n := |obs| - 1;
    if obs[n].dest == id {
      assert LatestRow(obs, id, n);
    } else {
      LastPriceIsLatestRow(obs[..n], id);
      var k :| LatestRow(obs[..n], id, k) && obs[..n][k].price == LastPrice(obs[..n], id).value;
      assert LatestRow(obs, id, k);
    }
  }

  /** In a table in checked_at order the last inserted row of `id` carries its latest stamp. */
  lemma LatestRowIsLatest(obs: seq<Observation>, id: nat, k: int)
    requires Chronological(obs) && LatestRow(obs, id, k)
    ensures forall j :: 0 <= j < |obs| && obs[j].dest == id ==> obs[j].at <= obs[k].at
  {
  }

  lemma HistoryAfterAppend(obs: seq<Observation>, o: Observation, since: real)
    requires o.at >= since
    ensures History(obs + [o], o.dest, since) == [o.price] + History(obs, o.dest, since)
  {
    assert (obs + [o])[..|obs|] == obs;
  }

  lemma LastPriceAfterAppend(obs: seq<Observation>, o: Observation)
    ensures LastPrice(obs + [o], o.dest) == Some(o.price)
  {
  }

  // ---------------------------------------------------------------------
  // One destination: fetch, persist, analyse, alert

  /** getLowestPrice's result as a number or null. */
  function Fetched(q: Quote): Option<real> {
    if q.Price? then Some(q.amount) else None
  }

  /** `if (!price) return`: null and 0 both end the check. */
  predicate Truthy(q: Quote) {
    q.Price? && q.amount != 0.0
  }

  function NextQuote(qs: seq<Quote>): Quote {
    if qs == [] then Fail else qs[0]
  }

  function Rest<T>(s: seq<T>): seq<T> {
    if s == [] then [] else s[1..]
  }

  function NextSend(ss: seq<SendOutcome>): SendOutcome {
    if ss == [] then Threw else ss[0]
  }

  /** One alert: notify, then record the alert; `false` when the notifier threw. */
  function Fire(t: Tables, dest: nat, kind: AlertKind, price: real): (r: (Tables, bool))
    ensures r.0.observations == t.observations && r.0.quotes == t.quotes && r.0.errors == t.errors
    ensures r.0.sends == Rest(t.sends)
    ensures r.1 <==> NextSend(t.sends) != Threw
    ensures r.1 ==> r.0.alerts == t.alerts + [Alert(dest, kind, price)]
    ensures r.1 ==>
      r.0.notifications == t.notifications + [Notification(dest, kind, price, NextSend(t.sends) == Delivered)]
    ensures !r.1 ==> r.0.alerts == t.alerts && r.0.notifications == t.notifications
  {
    var outcome := NextSend(t.sends);
    var rest := t.(sends := Rest(t.sends));
    if outcome == Threw then (rest, false)
    else
      (rest.(notifications := rest.notifications + [Notification(dest, kind, price, outcome == Delivered)],
             alerts := rest.alerts + [Alert(dest, kind, price)]), true)
  }

  /** Whether shouldBuyNow asks for an optimal-price alert: buy with urgency 'high'. */
  predicate OptimalNow(ds: seq<Destination>, t: Tables, d: Destination, price: real, now: real)
    requires TablesValid(t)
  {
    var decision := PriceAnalyzer.ShouldBuyNow(
      History(t.observations, d.id, now - WindowDays), Lookup(ds, d.id), price, now);
    decision.Buy? && decision.urgency == PriceAnalyzer.High
  }

  /**
   * The three conditions of analyzeAndAlert once decided, raised in order:
   * optimal price, price drop, maximum price reached. A notifier that throws
   * ends the evaluation (`false`).
   */
  function Alerted(t: Tables, d: Destination, price: real, optimal: bool, drop: bool): (r: (Tables, bool))
    ensures r.0.observations == t.observations && r.0.errors == t.errors && r.0.quotes == t.quotes
  {
    var (t1, ok1) := if optimal then Fire(t, d.id, OptimalPrice, price) else (t, true);
    if !ok1 then (t1, false)
    else
      var (t2, ok2) := if drop then Fire(t1, d.id, PriceDrop, price) else (t1, true);
      if !ok2 then (t2, false)
      else if UnderMaxPrice(d, price) then Fire(t2, d.id, MaxPriceReached, price)
      else (t2, true)
  }

  /** analyzeAndAlert, with the price detectPriceDrop compares against given as `last`. */
  function AlertOutcome(ds: seq<Destination>, t: Tables, d: Destination, price: real, now: real, last: Option<real>)
    : (r: (Tables, bool))
    requires TablesValid(t)
    requires last.Some? ==> last.value > 0.0
    ensures TablesValid(r.0)
    ensures r.0.observations == t.observations && r.0.errors == t.errors && r.0.quotes == t.quotes
  {
    Alerted(t, d, price, OptimalNow(ds, t, d, price, now), PriceAnalyzer.DetectPriceDrop(last, price).Some?)
  }

  /** The tables after the new observation is stored. */
  function Stored(t: Tables, d: Destination, p: real, now: real): Tables {
    t.(quotes := Rest(t.quotes), observations := t.observations + [Observation(d.id, p, now)])
  }

  /**
   * checkDestinationPrice as written: the price is inserted first, and
   * detectPriceDrop then reads the latest stored price, which is that one.
   */
  function CheckOutcome(ds: seq<Destination>, t: Tables, d: Destination, now: real): (r: Tables)
    requires TablesValid(t)
    ensures TablesValid(r)
  {
    var q := NextQuote(t.quotes);
    if !Truthy(q) then t.(quotes := Rest(t.quotes))
    else
      var t1 := Stored(t, d, q.amount, now);
      var (t2, ok) := AlertOutcome(ds, t1, d, q.amount, now, LastPrice(t1.observations, d.id));
      if ok then t2 else t2.(errors := t2.errors + 1)
  }

  /**
   * checkDestinationPrice as evidently intended: detectPriceDrop compares
   * with the price stored before this one.
   */
  function CheckOutcomeIntended(ds: seq<Destination>, t: Tables, d: Destination, now: real): (r: Tables)
    requires TablesValid(t)
    ensures TablesValid(r)
  {
    var q := NextQuote(t.quotes);
    if !Truthy(q) then t.(quotes := Rest(t.quotes))
    else
      var t1 := Stored(t, d, q.amount, now);
      var (t2, ok) := AlertOutcome(ds, t1, d, q.amount, now, LastPrice(t.observations, d.id));
      if ok then t2 else t2.(errors := t2.errors + 1)
  }

  /** The loop of checkAllPrices over `list`, one destination after the other. */
  function SweepOutcome(ds: seq<Destination>, t: Tables, list: seq<Destination>, now: real): (r: Tables)
    requires TablesValid(t)
    ensures TablesValid(r)
  {
    if list == [] then t
    else CheckOutcome(ds, SweepOutcome(ds, t, list[..|list| - 1], now), list[|list| - 1], now)
  }

  /** One more destination of the loop is one more check. */
  lemma SweepStep(ds: seq<Destination>, t: Tables, list: seq<Destination>, i: int, now: real)
    requires TablesValid(t) && 0 <= i < |list|
    ensures SweepOutcome(ds, t, list[..i + 1], now) == CheckOutcome(ds, SweepOutcome(ds, t, list[..i], now), list[i], now)
  {
    assert list[..i + 1][..i] == list[..i];
  }

  /** A row stamped `now` keeps a table clocked at `now`. */
  lemma StampKeepsClock(obs: seq<Observation>, o: Observation, now: real)
    requires Clocked(obs, now) && o.at == now
    ensures Clocked(obs + [o], now)
  {
  }

  /** A check stamps its row `now`, so a table in checked_at order up to `now` stays so. */
  lemma CheckKeepsOrder(ds: seq<Destination>, t: Tables, d: Destination, now: real)
    requires TablesValid(t) && Clocked(t.observations, now)
    ensures Clocked(CheckOutcome(ds, t, d, now).observations, now)
    ensures Clocked(CheckOutcomeIntended(ds, t, d, now).observations, now)
  {
    var q := NextQuote(t.quotes);
    if Truthy(q) {
      var o := Observation(d.id, q.amount, now);
      TruthyQuoteAppendsOneObservation(ds, t, d, now);
      StampKeepsClock(t.observations, o, now);
      assert CheckOutcomeIntended(ds, t, d, now).observations == t.observations + [o];
    }
  }

  lemma {:induction false} SweepKeepsOrder(ds: seq<Destination>, t: Tables, list: seq<Destination>, now: real)
    requires TablesValid(t) && Clocked(t.observations, now)
    ensures Clocked(SweepOutcome(ds, t, list, now).observations, now)
  {
    if list != [] {
      var n := |list| - 1;
      SweepKeepsOrder(ds, t, list[..n], now);
      CheckKeepsOrder(ds, SweepOutcome(ds, t, list[..n], now), list[n], now);
    }
  }

  /** SELECT * FROM destinations WHERE is_active = 1, in table order. */
  function ActiveDestinations(ds: seq<Destination>): (r: seq<Destination>)
    ensures forall x :: x in r <==> x in ds && x.active
    ensures |r| <= |ds|
  {
    if ds == [] then []
    else (if ds[0].active then [ds[0]] else []) + ActiveDestinations(ds[1..])
  }

  /**
   * The query keeps table order and takes each row once: one row is kept iff
   * it is active, and the query distributes over concatenation.
   */
  lemma {:induction false} ActiveDestinationsKeepOrder(x: seq<Destination>, y: seq<Destination>)
    ensures ActiveDestinations(x + y) == ActiveDestinations(x) + ActiveDestinations(y)
    ensures |x| == 1 ==> ActiveDestinations(x) == if x[0].active then x else []
  {
    if x != [] {
      assert (x + y)[0] == x[0];
      assert (x + y)[1..] == x[1..] + y;
      ActiveDestinationsKeepOrder(x[1..], y);
      if |x| == 1 {
        assert x[1..] == [];
      }
    } else {
      assert x + y == y;
    }
  }

  // ---------------------------------------------------------------------
  // Properties of one check

  /** A falsy fetch result (null or 0) consumes the quote and changes nothing else. */
  lemma FalsyQuoteChangesNothing(ds: seq<Destination>, t: Tables, d: Destination, now: real)
    requires TablesValid(t)
    requires !Truthy(NextQuote(t.quotes))
    ensures CheckOutcome(ds, t, d, now) == t.(quotes := Rest(t.quotes))
  {
  }

  /** A successful fetch appends exactly one observation, with that price, to the prices table. */
  lemma TruthyQuoteAppendsOneObservation(ds: seq<Destination>, t: Tables, d: Destination, now: real)
    requires TablesValid(t)
    requires Truthy(NextQuote(t.quotes))
    ensures CheckOutcome(ds, t, d, now).observations ==
      t.observations + [Observation(d.id, NextQuote(t.quotes).amount, now)]
    ensures CheckOutcome(ds, t, d, now).quotes == Rest(t.quotes)
  {
  }

  /** The observation is stored before the analysis: the history the score sees starts with it. */
  lemma AnalysisSeesNewObservation(t: Tables, d: Destination, p: real, now: real)
    ensures History(Stored(t, d, p, now).observations, d.id, now - WindowDays) ==
      [p] + History(t.observations, d.id, now - WindowDays)
    ensures LastPrice(Stored(t, d, p, now).observations, d.id) == Some(p)
  {
    HistoryAfterAppend(t.observations, Observation(d.id, p, now), now - WindowDays);
  }

  /** An alert row is recorded exactly when its notification returned, in the same order. */
  predicate Paired(t: Tables) {
    && |t.alerts| == |t.notifications|
    && forall k :: 0 <= k < |t.alerts| ==>
         t.alerts[k].dest == t.notifications[k].dest
         && t.alerts[k].kind == t.notifications[k].kind
         && t.alerts[k].price == t.notifications[k].price
  }

  /** No alert row of kind price_drop from index `from` on. */
  predicate NoDropSince(alerts: seq<Alert>, from: nat) {
    forall k :: from <= k < |alerts| ==> alerts[k].kind != PriceDrop
  }

  /** The alerts the three conditions yield when no notification throws. */
  function ExpectedAlerts(optimal: bool, drop: bool, d: Destination, price: real): seq<Alert> {
    (if optimal then [Alert(d.id, OptimalPrice, price)] else [])
    + (if drop then [Alert(d.id, PriceDrop, price)] else [])
    + (if UnderMaxPrice(d, price) then [Alert(d.id, MaxPriceReached, price)] else [])
  }

  /** Three sends that do not throw. */
  predicate SendsSucceed(ss: seq<SendOutcome>) {
    |ss| >= 3 && ss[0] != Threw && ss[1] != Threw && ss[2] != Threw
  }

  lemma FireKeepsPairing(t: Tables, dest: nat, kind: AlertKind, price: real)
    requires Paired(t)
    ensures var r := Fire(t, dest, kind, price).0;
      Paired(r) && |r.alerts| >= |t.alerts| && r.alerts[..|t.alerts|] == t.alerts
  {
  }

  /** Alerts and notifications stay paired, and earlier alert rows are kept. */
  lemma {:induction false} AlertedKeepsPairing(t: Tables, d: Destination, price: real, optimal: bool, drop: bool)
    requires Paired(t)
    ensures var r := Alerted(t, d, price, optimal, drop).0;
      Paired(r) && |r.alerts| >= |t.alerts| && r.alerts[..|t.alerts|] == t.alerts
  {
    var (t1, ok1) := if optimal then Fire(t, d.id, OptimalPrice, price) else (t, true);
    if optimal { FireKeepsPairing(t, d.id, OptimalPrice, price); }
    if ok1 {
      var (t2, ok2) := if drop then Fire(t1, d.id, PriceDrop, price) else (t1, true);
      if drop { FireKeepsPairing(t1, d.id, PriceDrop, price); }
      if ok2 && UnderMaxPrice(d, price) { FireKeepsPairing(t2, d.id, MaxPriceReached, price); }
      assert t2.alerts[..|t.alerts|] == t1.alerts[..|t.alerts|];
    }
  }

  /**
   * The conditions are independent and ordered: with notifications that
   * return, the new alert rows are exactly optimal_price, price_drop,
   * max_price_reached, each present iff its condition holds.
   */
  lemma AlertsInOrder(t: Tables, d: Destination, price: real, optimal: bool, drop: bool)
    requires SendsSucceed(t.sends)
    ensures Alerted(t, d, price, optimal, drop).1
    ensures Alerted(t, d, price, optimal, drop).0.alerts == t.alerts + ExpectedAlerts(optimal, drop, d, price)
  {
    var (t1, ok1) := if optimal then Fire(t, d.id, OptimalPrice, price) else (t, true);
    assert ok1 && NextSend(t1.sends) != Threw && |t1.sends| >= 2;
    var (t2, ok2) := if drop then Fire(t1, d.id, PriceDrop, price) else (t1, true);
    assert ok2 && NextSend(t2.sends) != Threw;
  }

  /** Without the drop condition no price_drop row is added. */
  lemma AlertedWithoutDrop(t: Tables, d: Destination, price: real, optimal: bool)
    ensures var r := Alerted(t, d, price, optimal, false).0;
      |r.alerts| >= |t.alerts| && r.alerts[..|t.alerts|] == t.alerts && NoDropSince(r.alerts, |t.alerts|)
  {
    var (t1, ok1) := if optimal then Fire(t, d.id, OptimalPrice, price) else (t, true);
    assert t1.alerts[..|t.alerts|] == t.alerts && NoDropSince(t1.alerts, |t.alerts|);
  }

  /** When optimal and the notification returns, the first new row is optimal_price. */
  lemma AlertedOptimalFirst(t: Tables, d: Destination, price: real, drop: bool)
    requires NextSend(t.sends) != Threw
    ensures var r := Alerted(t, d, price, true, drop).0;
      |r.alerts| > |t.alerts| && r.alerts[|t.alerts|] == Alert(d.id, OptimalPrice, price)
  {
    var (t1, ok1) := Fire(t, d.id, OptimalPrice, price);
    var (t2, ok2) := if drop then Fire(t1, d.id, PriceDrop, price) else (t1, true);
    assert t2.alerts[|t.alerts|] == Alert(d.id, OptimalPrice, price);
  }

  /** Every check keeps alerts and notifications paired. */
  lemma CheckKeepsPairing(ds: seq<Destination>, t: Tables, d: Destination, now: real)
    requires TablesValid(t) && Paired(t)
    ensures Paired(CheckOutcome(ds, t, d, now))
  {
    var q := NextQuote(t.quotes);
    if Truthy(q) {
      var t1 := Stored(t, d, q.amount, now);
      AlertedKeepsPairing(t1, d, q.amount, OptimalNow(ds, t1, d, q.amount, now),
        PriceAnalyzer.DetectPriceDrop(LastPrice(t1.observations, d.id), q.amount).Some?);
    }
  }

  /** As written, the price just inserted is the one detectPriceDrop compares with: price_drop never fires. */
  lemma NoPriceDropInCheck(ds: seq<Destination>, t: Tables, d: Destination, now: real)
    requires TablesValid(t)
    ensures var r := CheckOutcome(ds, t, d, now);
      |r.alerts| >= |t.alerts| && r.alerts[..|t.alerts|] == t.alerts && NoDropSince(r.alerts, |t.alerts|)
  {
    var q := NextQuote(t.quotes);
    if Truthy(q) {
      var p := q.amount;
      var t1 := Stored(t, d, p, now);
      AnalysisSeesNewObservation(t, d, p, now);
      PriceAnalyzer.NoDropAgainstSamePrice(p);
      var optimal := OptimalNow(ds, t1, d, p, now);
      var a := Alerted(t1, d, p, optimal, false);
      assert AlertOutcome(ds, t1, d, p, now, LastPrice(t1.observations, d.id)) == a;
      assert CheckOutcome(ds, t, d, now).alerts == a.0.alerts;
      AlertedWithoutDrop(t1, d, p, optimal);
    } else {
      assert CheckOutcome(ds, t, d, now).alerts == t.alerts;
    }
  }

  /** A history holding only the current price scores 85: shouldBuyNow answers buy, urgency high. */
  lemma SinglePriceIsOptimal(ds: seq<Destination>, t: Tables, d: Destination, p: real, now: real)
    requires TablesValid(t) && p > 0.0
    requires History(t.observations, d.id, now - WindowDays) == [p]
    requires Lookup(ds, d.id).Some?
    ensures OptimalNow(ds, t, d, p, now)
  {
    PriceAnalyzer.ConstantHistoryScores85([p], p);
  }

  /** The first price of a destination (nothing in the window) scores 85, so it raises optimal_price. */
  lemma FirstObservationIsOptimal(ds: seq<Destination>, t: Tables, d: Destination, now: real)
    requires TablesValid(t)
    requires Truthy(NextQuote(t.quotes))
    requires History(t.observations, d.id, now - WindowDays) == []
    requires Lookup(ds, d.id).Some?
    requires NextSend(t.sends) != Threw
    ensures var r := CheckOutcome(ds, t, d, now);
      |r.alerts| > |t.alerts| && r.alerts[|t.alerts|] == Alert(d.id, OptimalPrice, NextQuote(t.quotes).amount)
  {
    var p := NextQuote(t.quotes).amount;
    assert p > 0.0 by { assert t.quotes[0].Price?; }
    var t1 := Stored(t, d, p, now);
    AnalysisSeesNewObservation(t, d, p, now);
    SinglePriceIsOptimal(ds, t1, d, p, now);
    var drop := PriceAnalyzer.DetectPriceDrop(LastPrice(t1.observations, d.id), p).Some?;
    AlertedOptimalFirst(t1, d, p, drop);
    assert CheckOutcome(ds, t, d, now).alerts == Alerted(t1, d, p, true, drop).0.alerts;
  }

  lemma DropRowIff(optimal: bool, drop: bool, d: Destination, price: real)
    ensures Alert(d.id, PriceDrop, price) in ExpectedAlerts(optimal, drop, d, price) <==> drop
  {
    if drop {
      assert ExpectedAlerts(optimal, drop, d, price)[if optimal then 1 else 0] == Alert(d.id, PriceDrop, price);
    }
  }

  /** The correction: comparing with the previously stored price, price_drop fires on a drop of 15 % or more. */
  lemma IntendedDetectsDrop(ds: seq<Destination>, t: Tables, d: Destination, now: real, previous: real)
    requires TablesValid(t)
    requires Truthy(NextQuote(t.quotes))
    requires LastPrice(t.observations, d.id) == Some(previous)
    requires SendsSucceed(t.sends)
    ensures var r := CheckOutcomeIntended(ds, t, d, now);
      (Alert(d.id, PriceDrop, NextQuote(t.quotes).amount) in r.alerts[|t.alerts|..]
       <==> NextQuote(t.quotes).amount <= previous * 0.85)
  {
    var p := NextQuote(t.quotes).amount;
    var t1 := Stored(t, d, p, now);
    var optimal := OptimalNow(ds, t1, d, p, now);
    var drop := PriceAnalyzer.DetectPriceDrop(Some(previous), p).Some?;
    assert drop <==> p <= previous * 0.85;
    AlertsInOrder(t1, d, p, optimal, drop);
    DropRowIff(optimal, drop, d, p);
    var r := CheckOutcomeIntended(ds, t, d, now);
    assert r == Alerted(t1, d, p, optimal, drop).0;
    assert r.alerts[|t.alerts|..] == ExpectedAlerts(optimal, drop, d, p);
  }

  // ---------------------------------------------------------------------
  // Properties of a sweep

  function QuoteAt(qs: seq<Quote>, k: nat): Quote {
    if k < |qs| then qs[k] else Fail
  }

  /** The observations a sweep over `list` stores: one per truthy quote, in list order. */
  function ExpectedObservations(list: seq<Destination>, qs: seq<Quote>, now: real): seq<Observation> {
    if list == [] then []
    else
      var n := |list| - 1;
      ExpectedObservations(list[..n], qs, now)
      + (if Truthy(QuoteAt(qs, n)) then [Observation(list[n].id, QuoteAt(qs, n).amount, now)] else [])
  }

  function Drop<T>(s: seq<T>, k: nat): seq<T> {
    if k >= |s| then [] else s[k..]
  }

  /**
   * Failure isolation: whatever happens to the notifications of one
   * destination, each destination of the list consumes one quote and gets
   * its observation exactly when that quote is truthy.
   */
  lemma {:induction false} SweepStoresEveryObservation(ds: seq<Destination>, t: Tables, list: seq<Destination>, now: real)
    requires TablesValid(t)
    ensures SweepOutcome(ds, t, list, now).quotes == Drop(t.quotes, |list|)
    ensures SweepOutcome(ds, t, list, now).observations == t.observations + ExpectedObservations(list, t.quotes, now)
  {
    if list != [] {
      var n := |list| - 1;
      SweepStoresEveryObservation(ds, t, list[..n], now);
      var mid := SweepOutcome(ds, t, list[..n], now);
      assert NextQuote(mid.quotes) == QuoteAt(t.quotes, n);
      assert Rest(mid.quotes) == Drop(t.quotes, n + 1);
      if Truthy(NextQuote(mid.quotes)) {
        TruthyQuoteAppendsOneObservation(ds, mid, list[n], now);
      }
    }
  }

  /** No sweep ever records a price_drop alert. */
  lemma {:induction false} NoPriceDropInSweep(ds: seq<Destination>, t: Tables, list: seq<Destination>, now: real)
    requires TablesValid(t)
    ensures var r := SweepOutcome(ds, t, list, now);
      |r.alerts| >= |t.alerts| && r.alerts[..|t.alerts|] == t.alerts && NoDropSince(r.alerts, |t.alerts|)
  {
    if list != [] {
      var n := |list| - 1;
      NoPriceDropInSweep(ds, t, list[..n], now);
      var mid := SweepOutcome(ds, t, list[..n], now);
      NoPriceDropInCheck(ds, mid, list[n], now);
      var r := SweepOutcome(ds, t, list, now);
      assert r.alerts[..|mid.alerts|] == mid.alerts;
      assert r.alerts[..|t.alerts|] == mid.alerts[..|t.alerts|];
    }
  }

  // ---------------------------------------------------------------------
  // The checker object

  class Checker {
    var isRunning: bool
    var destinations: seq<Destination>
    var observations: seq<Observation>
    var alerts: seq<Alert>
    var notifications: seq<Notification>
    var errors: nat
    var quotes: seq<Quote>
    var sends: seq<SendOutcome>

    function State(): Tables
      reads this
    {
      Tables(observations, alerts, notifications, errors, quotes, sends)
    }

    predicate Valid()
      reads this
    {
      TablesValid(State()) && Chronological(observations)
    }

    constructor (destinations: seq<Destination>, observations: seq<Observation>,
                 quotes: seq<Quote>, sends: seq<SendOutcome>)
      requires PricesPositive(observations) && QuotesNonNegative(quotes) && Chronological(observations)
      ensures Valid() && !isRunning && this.destinations == destinations
      ensures State() == Tables(observations, [], [], 0, quotes, sends)
    {
      isRunning := false;
      this.destinations := destinations;
      this.observations := observations;
      alerts, notifications, errors := [], [], 0;
      this.quotes := quotes;
      this.sends := sends;
    }

    /** duffelService.getLowestPrice: the next answer of the price source. */
    method FetchLowestPrice() returns (q: Quote)
      modifies this`quotes
      ensures q == NextQuote(old(quotes)) && quotes == Rest(old(quotes))
    {
      if quotes == [] {
        q := Fail;
      } else {
        q := quotes[0];
        quotes := quotes[1..];
      }
    }

    /** The notifier; `false` when it threw. */
    method Notify(dest: nat, kind: AlertKind, price: real) returns (ok: bool)
      modifies this`sends, this`notifications
      ensures sends == Rest(old(sends))
      ensures ok <==> NextSend(old(sends)) != Threw
      ensures notifications == if ok
        then old(notifications) + [Notification(dest, kind, price, NextSend(old(sends)) == Delivered)]
        else old(notifications)
    {
      var outcome := NextSend(sends);
      sends := Rest(sends);
      ok := outcome != Threw;
      if ok {
        notifications := notifications + [Notification(dest, kind, price, outcome == Delivered)];
      }
    }

    /** saveAlert: INSERT INTO alerts. */
    method SaveAlert(dest: nat, kind: AlertKind, price: real)
      modifies this`alerts
      ensures alerts == old(alerts) + [Alert(dest, kind, price)]
    {
      alerts := alerts + [Alert(dest, kind, price)];
    }

    method Raise(dest: nat, kind: AlertKind, price: real) returns (ok: bool)
      modifies this`sends, this`notifications, this`alerts
      ensures (State(), ok) == Fire(old(State()), dest, kind, price)
      ensures unchanged(this`observations, this`quotes, this`errors)
    {
      ok := Notify(dest, kind, price);
      if ok {
        SaveAlert(dest, kind, price);
      }
    }

    /** analyzeAndAlert; `false` when a notification threw and ended it early. */
    method AnalyzeAndAlert(d: Destination, price: real, now: real) returns (ok: bool)
      requires Valid()
      modifies this`sends, this`notifications, this`alerts
      ensures (State(), ok) ==
        AlertOutcome(destinations, old(State()), d, price, now, LastPrice(old(observations), d.id))
      ensures unchanged(this`observations, this`quotes, this`errors)
    {
      var history := History(observations, d.id, now - WindowDays);
      var buyDecision := PriceAnalyzer.ShouldBuyNow(history, Lookup(destinations, d.id), price, now);
      ok := true;
      if buyDecision.Buy? && buyDecision.urgency == PriceAnalyzer.High {
        ok := Raise(d.id, OptimalPrice, price);
        if !ok { return; }
      }
      var priceDrop := PriceAnalyzer.DetectPriceDrop(LastPrice(observations, d.id), price);
      if priceDrop.Some? {
        ok := Raise(d.id, PriceDrop, price);
        if !ok { return; }
      }
      if UnderMaxPrice(d, price) {
        ok := Raise(d.id, MaxPriceReached, price);
      }
    }

    /** checkDestinationPrice: fetch, store, analyse; an exception is caught and logged. */
    method CheckDestinationPrice(d: Destination, now: real)
      requires Valid() && ObservedBy(observations, now)
      modifies this`quotes, this`observations, this`sends, this`notifications, this`alerts, this`errors
      ensures Valid() && ObservedBy(observations, now)
      ensures State() == CheckOutcome(destinations, old(State()), d, now)
    {
      ghost var t0 := State();
      var price := FetchLowestPrice();
      if !Truthy(price) {
        return;
      }
      assert price.amount > 0.0 by { assert t0.quotes[0].Price?; }
      StampKeepsClock(observations, Observation(d.id, price.amount, now), now);
      observations := observations + [Observation(d.id, price.amount, now)];
      assert State() == Stored(t0, d, price.amount, now);
      var ok := AnalyzeAndAlert(d, price.amount, now);
      if !ok {
        errors := errors + 1;
      }
    }

    /**
     * checkAllPrices: a no-op while a sweep runs; otherwise takes the lock,
     * checks every active destination in order and releases the lock.
     */
    method CheckAllPrices(now: real)
      requires Valid() && ObservedBy(observations, now)
      modifies this
      ensures Valid()
      ensures destinations == old(destinations)
      ensures isRunning == old(isRunning)
      ensures old(isRunning) ==> State() == old(State())
      ensures !old(isRunning) ==> State() == SweepOutcome(destinations, old(State()), ActiveDestinations(destinations), now)
    {
      if isRunning {
        return;
      }
      isRunning := true;
      var list := ActiveDestinations(destinations);
      var i := 0;
      while i < |list|
        invariant 0 <= i <= |list|
        invariant isRunning && destinations == old(destinations)
        invariant Valid() && ObservedBy(observations, now)
        invariant State() == SweepOutcome(destinations, old(State()), list[..i], now)
      {
        SweepStep(destinations, old(State()), list, i, now);
        CheckDestinationPrice(list[i], now);
        i := i + 1;
      }
      assert list[..|list|] == list;
      isRunning := false;
    }

    /** checkSingleDestination: throws on an unknown id; otherwise checks it, ignoring the lock and the active flag. */
    method CheckSingleDestination(id: nat, now: real) returns (found: bool)
      requires Valid() && ObservedBy(observations, now)
      modifies this`quotes, this`observations, this`sends, this`notifications, this`alerts, this`errors
      ensures Valid()
      ensures found <==> Lookup(destinations, id).Some?
      ensures !found ==> State() == old(State())
      ensures found ==> State() == CheckOutcome(destinations, old(State()), Lookup(destinations, id).value, now)
    {
      var destination := Lookup(destinations, id);
      if destination.None? {
        return false;
      }
      CheckDestinationPrice(destination.value, now);
      return true;
    }
  }
}
