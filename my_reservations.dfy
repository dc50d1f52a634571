/** The split of a user's reservations into upcoming and past in
    app/my-reservations/page.tsx, lines 76-83. The rows arrive from the
    query ordered by reservation_date descending (line 39); `today` is the
    date part of the current time's ISO string, which is a parameter here. */
module MyReservations {
  import opened Common
  import opened Strings
  import opened Sorting

  /** A row of the page's query (the joined schedule and route names are
      display-only and left out). */
  datatype Booking = Booking(id: string, date: string, status: ReservationStatus)

  /** `iso.split('T')[0]`: everything before the first 'T'. */
  function Today(iso: string): (d: string)
    ensures d <= iso
    ensures 'T' !in d
    ensures d == iso || iso[|d|] == 'T'
  {
    if |iso| == 0 || iso[0] == 'T' then ""
    else [iso[0]] + Today(iso[1..])
  }

  /** The test of line 79: a confirmed booking dated today or later. */
  function IsUpcoming(b: Booking, today: string): (r: bool)
    ensures r <==> b.status == Confirmed && AtMost(today, b.date)
  {
    !Less(b.date, today) && b.status == Confirmed
  }

  /** The test of line 83: the complement of the test of line 79. */
  function IsPast(b: Booking, today: string): (r: bool)
    ensures r <==> !IsUpcoming(b, today)
  {
    Less(b.date, today) || b.status != Confirmed
  }

  /** The comparator of line 80,
      `(a, b) => a.reservation_date.localeCompare(b.reservation_date)`, is at
      most zero: a is dated no later than b. */
  function DateAtMost(a: Booking, b: Booking): (r: bool)
    ensures r <==> AtMost(a.date, b.date)
  {
    Compare(a.date, b.date) <= 0
  }

  /** The descending date order of the query (`order('reservation_date',
      { ascending: false })`): a is dated no earlier than b. */
  function DateAtLeast(a: Booking, b: Booking): (r: bool)
    ensures r <==> DateAtMost(b, a)
  {
    AtMost(b.date, a.date)
  }

  /** Lines 78-80: the confirmed bookings dated today or later, sorted by
      date ascending. */
  function Upcoming(rows: seq<Booking>, today: string): (r: seq<Booking>)
    ensures |r| <= |rows|
  {
    SortBy(Filter(rows, b => IsUpcoming(b, today)), DateAtMost)
  }

  /** Lines 82-83: the other bookings, in the query's order. */
  function Past(rows: seq<Booking>, today: string): (r: seq<Booking>)
    ensures |r| <= |rows|
  {
    Filter(rows, b => IsPast(b, today))
  }

  lemma DateOrderIsTotalPreorder()
    ensures Total(DateAtMost) && Transitive(DateAtMost)
  {
    forall a: Booking, b: Booking
      ensures DateAtMost(a, b) || DateAtMost(b, a)
    {
      AtMostTotal(a.date, b.date);
    }
    forall a: Booking, b: Booking, c: Booking | DateAtMost(a, b) && DateAtMost(b, c)
      ensures DateAtMost(a, c)
    {
      AtMostTransitive(a.date, b.date, c.date);
    }
  }

  /** Each booking is in exactly one of the two lists. */
  lemma UpcomingXorPast(b: Booking, today: string)
    ensures IsUpcoming(b, today) != IsPast(b, today)
  {
  }

  /** A booking is listed as upcoming iff it is in the input, confirmed, and
      dated today or later. */
  lemma UpcomingMembers(rows: seq<Booking>, today: string, b: Booking)
    ensures b in Upcoming(rows, today) <==> b in rows && b.status == Confirmed && !Less(b.date, today)
  {
    var f := Filter(rows, x => IsUpcoming(x, today));
    SortByPermutes(f, DateAtMost);
    assert b in Upcoming(rows, today) <==> b in multiset(Upcoming(rows, today));
    assert b in f <==> b in multiset(f);
    FilterMembership(rows, x => IsUpcoming(x, today), b);
  }

  /** A booking is listed as past iff it is in the input and either dated
      before today or not confirmed. */
  lemma PastMembers(rows: seq<Booking>, today: string, b: Booking)
    ensures b in Past(rows, today) <==> b in rows && (Less(b.date, today) || b.status != Confirmed)
  {
    FilterMembership(rows, x => IsPast(x, today), b);
  }

  /** Together the two lists are a permutation of the input. */
  lemma ListsPartitionInput(rows: seq<Booking>, today: string)
    ensures multiset(Upcoming(rows, today)) + multiset(Past(rows, today)) == multiset(rows)
  {
    var up := (x: Booking) => IsUpcoming(x, today);
    var past := (x: Booking) => IsPast(x, today);
    SortByPermutes(Filter(rows, up), DateAtMost);
    FilterSplits(rows, up, past);
  }

  /** The upcoming list is in ascending date order. */
  lemma UpcomingAscending(rows: seq<Booking>, today: string)
    ensures forall i, j :: 0 <= i < j < |Upcoming(rows, today)| ==>
      AtMost(Upcoming(rows, today)[i].date, Upcoming(rows, today)[j].date)
  {
    DateOrderIsTotalPreorder();
    SortBySorted(Filter(rows, b => IsUpcoming(b, today)), DateAtMost);
  }

  /** The past list keeps the input's order: for rows in descending date
      order, as the query returns them, it is in descending date order. */
  lemma PastKeepsQueryOrder(rows: seq<Booking>, today: string)
    requires SortedBy(rows, DateAtLeast)
    ensures SortedBy(Past(rows, today), DateAtLeast)
  {
    FilterKeepsOrder(rows, b => IsPast(b, today), DateAtLeast);
  }
}
