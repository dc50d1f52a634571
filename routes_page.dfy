/** The public route listing of app/routes/page.tsx: getRoutes sorts, in
    place, each route's joined stops by stop_order and its schedules by
    departure_time; each route card lists at most five stops and a count of
    the rest. */
module RoutesPage {
  import opened Common
  import opened Strings
  import opened Sorting

  /** A row of gsb_stops (latitude, longitude and created_at left out). */
  datatype Stop = Stop(id: string, name: string, stopOrder: int)

  /** A row of gsb_schedules (created_at left out). */
  datatype Schedule = Schedule(id: string, departureTime: string, totalSeats: int, isActive: bool)

  /** A route row with the arrays of its joined stops and schedules. */
  class RouteListing {
    const id: string
    const name: string
    const stops: array<Stop>
    const schedules: array<Schedule>

    constructor (id: string, name: string, stops: array<Stop>, schedules: array<Schedule>)
      ensures this.id == id && this.name == name && this.stops == stops && this.schedules == schedules
    {
      this.id := id;
      this.name := name;
      this.stops := stops;
      this.schedules := schedules;
    }
  }

  /** The comparator of line 33, `(a, b) => a.stop_order - b.stop_order`,
      is at most zero: a sorts no later than b. */
  function StopOrderLe(a: Stop, b: Stop): (r: bool)
    ensures r <==> a.stopOrder - b.stopOrder <= 0
  {
    a.stopOrder <= b.stopOrder
  }

  /** The comparator of line 34,
      `(a, b) => a.departure_time.localeCompare(b.departure_time)`, is at most
      zero: a departs no later than b. */
  function DepartureLe(a: Schedule, b: Schedule): (r: bool)
    ensures r <==> AtMost(a.departureTime, b.departureTime)
  {
    Compare(a.departureTime, b.departureTime) <= 0
  }

  /** Each route row of the query result has arrays of its own. */
  ghost predicate Separate(routes: seq<RouteListing>) {
    forall i, j :: 0 <= i < j < |routes| ==>
      routes[i].stops != routes[j].stops && routes[i].schedules != routes[j].schedules
  }

  lemma StopOrderIsTotalPreorder()
    ensures Total(StopOrderLe) && Transitive(StopOrderLe)
  {
  }

  lemma DepartureIsTotalPreorder()
    ensures Total(DepartureLe) && Transitive(DepartureLe)
  {
    forall a: Schedule, b: Schedule
      ensures DepartureLe(a, b) || DepartureLe(b, a)
    {
      AtMostTotal(a.departureTime, b.departureTime);
    }
    forall a: Schedule, b: Schedule, c: Schedule | DepartureLe(a, b) && DepartureLe(b, c)
      ensures DepartureLe(a, c)
    {
      AtMostTransitive(a.departureTime, b.departureTime, c.departureTime);
    }
  }

  /** The `data.forEach` of getRoutes (lines 32-35): every route's stops end
      sorted by stop_order and its schedules by departure_time, each array a
      permutation of what it held, as the stable sort leaves them; the list of
      routes is not touched. */
  method SortListings(routes: seq<RouteListing>)
    requires Separate(routes)
    modifies set r | r in routes :: r.stops
    modifies set r | r in routes :: r.schedules
    ensures forall i :: 0 <= i < |routes| ==>
      routes[i].stops[..] == SortBy(old(routes[i].stops[..]), StopOrderLe) &&
      routes[i].schedules[..] == SortBy(old(routes[i].schedules[..]), DepartureLe)
    ensures forall i :: 0 <= i < |routes| ==>
      SortedBy(routes[i].stops[..], StopOrderLe) &&
      multiset(routes[i].stops[..]) == multiset(old(routes[i].stops[..])) &&
      SortedBy(routes[i].schedules[..], DepartureLe) &&
      multiset(routes[i].schedules[..]) == multiset(old(routes[i].schedules[..]))
  {
    SortEach(routes);
    forall i | 0 <= i < |routes|
      ensures SortedBy(routes[i].stops[..], StopOrderLe) &&
        multiset(routes[i].stops[..]) == multiset(old(routes[i].stops[..])) &&
        SortedBy(routes[i].schedules[..], DepartureLe) &&
        multiset(routes[i].schedules[..]) == multiset(old(routes[i].schedules[..]))
    {
      ListingSorted(old(routes[i].stops[..]), old(routes[i].schedules[..]));
    }
  }

  /** The loop itself: one route after another. */
  method SortEach(routes: seq<RouteListing>)
    requires Separate(routes)
    modifies set r | r in routes :: r.stops
    modifies set r | r in routes :: r.schedules
    ensures forall i :: 0 <= i < |routes| ==>
      RouteSorted(routes[i], old(routes[i].stops[..]), old(routes[i].schedules[..]))
  {
    for i := 0 to |routes|
      invariant forall k :: 0 <= k < i ==>
        RouteSorted(routes[k], old(routes[k].stops[..]), old(routes[k].schedules[..]))
      invariant forall k :: i <= k < |routes| ==>
        routes[k].stops[..] == old(routes[k].stops[..]) &&
        routes[k].schedules[..] == old(routes[k].schedules[..])
    {
      assert forall k :: 0 <= k < |routes| && k != i ==>
        routes[k].stops != routes[i].stops && routes[k].schedules != routes[i].schedules;
      SortRoute(routes[i]);
    }
  }

  /** A route's arrays hold the stable sorts of the rows `stops` and
      `schedules`. */
  ghost predicate RouteSorted(r: RouteListing, stops: seq<Stop>, schedules: seq<Schedule>)
    reads r.stops, r.schedules
  {
    r.stops[..] == SortBy(stops, StopOrderLe) && r.schedules[..] == SortBy(schedules, DepartureLe)
  }

  /** The body of the forEach for one route (lines 33-34). */
  method SortRoute(r: RouteListing)
    modifies r.stops, r.schedules
    ensures r.stops[..] == SortBy(old(r.stops[..]), StopOrderLe)
    ensures r.schedules[..] == SortBy(old(r.schedules[..]), DepartureLe)
  {
    SortInPlace(r.stops, StopOrderLe);
    SortInPlace(r.schedules, DepartureLe);
  }

  /** The two stable sorts of a route's rows are sorted permutations. */
  lemma ListingSorted(stops: seq<Stop>, schedules: seq<Schedule>)
    ensures SortedBy(SortBy(stops, StopOrderLe), StopOrderLe)
    ensures multiset(SortBy(stops, StopOrderLe)) == multiset(stops)
    ensures SortedBy(SortBy(schedules, DepartureLe), DepartureLe)
    ensures multiset(SortBy(schedules, DepartureLe)) == multiset(schedules)
  {
    StopOrderIsTotalPreorder();
    DepartureIsTotalPreorder();
    SortBySorted(stops, StopOrderLe);
    SortByPermutes(stops, StopOrderLe);
    SortBySorted(schedules, DepartureLe);
    SortByPermutes(schedules, DepartureLe);
  }

  /** What a route card shows of its stops (lines 75-76). */
  datatype Preview = Preview(shown: seq<Stop>, more: Option<nat>)

  function StopPreview(stops: seq<Stop>): (p: Preview)
    ensures |p.shown| == if |stops| < 5 then |stops| else 5
    ensures p.shown == stops[..|p.shown|]
    ensures p.more.Some? <==> |stops| > 5
    ensures p.more.Some? ==> |p.shown| + p.more.value == |stops|
  {
    Preview(if |stops| < 5 then stops else stops[..5], if |stops| > 5 then Some(|stops| - 5) else None)
  }
}
