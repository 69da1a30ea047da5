/**
 * The administrator's rides screen: the rows fetched from the admin rides
 * endpoint, the search and filter panel, the per-status counters, the
 * revenue card, the sort header and the CSV export. The date conditions of
 * the filter are the parameter `datePasses`; number and date formatting in
 * the export are the parameters `num` and `dateOf`.
 */
module RidesManagement {
  import opened Wrappers
  import opened Text
  import opened ListViews
  import Tables
  import Schema
  import AdminController

  /** A ride as the admin rides endpoint returns it, with the joined user and driver names. */
  datatype RideRow = RideRow(
    id: nat, userName: Option<string>, driverName: Option<string>,
    pickupLocation: Option<string>, dropoffLocation: Option<string>,
    distance: Option<real>, estimatedFare: real, finalFare: Option<real>,
    status: string, paymentMethod: Option<string>)

  /** The filter panel; a fare bound left empty is None, a status or payment method of "all" passes everything. */
  datatype RideFilters = RideFilters(
    search: string, status: string, minFare: Option<real>, maxFare: Option<real>, paymentMethod: string)

  const All := "all"

  /** The panel as first shown: no search, every status, no fare bounds, every payment method. */
  const InitialFilters := RideFilters("", All, None, None, All)

  /** `final_fare || estimated_fare`: the final fare when it is set and non-zero. */
  function FareShown(r: RideRow): real {
    if r.finalFare.Some? && r.finalFare.value != 0.0 then r.finalFare.value else r.estimatedFare
  }

  /** The search box: the names and places ignoring case, or the ride number as typed. */
  predicate MatchesSearch(r: RideRow, term: string) {
    || MatchesText(r.userName, term)
    || MatchesText(r.driverName, term)
    || MatchesText(r.pickupLocation, term)
    || MatchesText(r.dropoffLocation, term)
    || Contains(NatToString(r.id), term)
  }

  /** An empty search matches every ride, through the ride number. */
  lemma EmptySearchMatchesAll(r: RideRow)
    ensures MatchesSearch(r, "")
  {
    assert "" <= NatToString(r.id);
  }

  /** All the tests of the filter panel. */
  predicate Kept(f: RideFilters, datePasses: RideRow -> bool, r: RideRow) {
    && MatchesSearch(r, f.search)
    && (f.status == All || r.status == f.status)
    && datePasses(r)
    && (f.minFare.None? || FareShown(r) >= f.minFare.value)
    && (f.maxFare.None? || FareShown(r) <= f.maxFare.value)
    && (f.paymentMethod == All || r.paymentMethod == Some(f.paymentMethod))
  }

  /** filteredRides before sorting: an order-preserving sub-list holding exactly the rides that pass every test. */
  function FilteredRides(rides: seq<RideRow>, f: RideFilters, datePasses: RideRow -> bool): (shown: seq<RideRow>)
    ensures |shown| <= |rides| && SubSequence(shown, rides)
    ensures forall i :: 0 <= i < |shown| ==> shown[i] in rides && MatchesSearch(shown[i], f.search) && datePasses(shown[i])
    ensures f.status != All ==> forall i :: 0 <= i < |shown| ==> shown[i].status == f.status
    ensures f.paymentMethod != All ==> forall i :: 0 <= i < |shown| ==> shown[i].paymentMethod == Some(f.paymentMethod)
    ensures f.minFare.Some? ==> forall i :: 0 <= i < |shown| ==> FareShown(shown[i]) >= f.minFare.value
    ensures f.maxFare.Some? ==> forall i :: 0 <= i < |shown| ==> FareShown(shown[i]) <= f.maxFare.value
    ensures forall r :: r in rides && Kept(f, datePasses, r) ==> r in shown
  {
    Filter(rides, (r: RideRow) => Kept(f, datePasses, r))
  }

  /** With the panel as first shown and every date passing, nothing is filtered out. */
  lemma InitialFiltersKeepAll(rides: seq<RideRow>, datePasses: RideRow -> bool)
    requires forall r :: r in rides ==> datePasses(r)
    ensures FilteredRides(rides, InitialFilters, datePasses) == rides
  {
    forall r | r in rides
      ensures Kept(InitialFilters, datePasses, r)
    {
      EmptySearchMatchesAll(r);
    }
    FilterAll(rides, (r: RideRow) => Kept(InitialFilters, datePasses, r));
  }

  function HasStatus(status: string): RideRow -> bool {
    (r: RideRow) => r.status == status
  }

  /** The counters above the list. */
  datatype StatusCounts = StatusCounts(
    all: nat, pending: nat, accepted: nat, pickedUp: nat, completed: nat, cancelled: nat)

  /** statusCounts: every ride, and the rides of each status. */
  function CountStatuses(rides: seq<RideRow>): (c: StatusCounts)
    ensures c.all == |rides|
    ensures c.pending <= c.all && c.accepted <= c.all && c.pickedUp <= c.all
    ensures c.completed <= c.all && c.cancelled <= c.all
  {
    StatusCounts(|rides|,
      CountWhere(rides, HasStatus("pending")),
      CountWhere(rides, HasStatus("accepted")),
      CountWhere(rides, HasStatus("picked_up")),
      CountWhere(rides, HasStatus("completed")),
      CountWhere(rides, HasStatus("cancelled")))
  }

  predicate KnownStatus(r: RideRow) {
    r.status in {"pending", "accepted", "picked_up", "completed", "cancelled"}
  }

  /** Counting the rides of one status: the first ride, then the others. */
  lemma CountStatusCons(rides: seq<RideRow>, status: string)
    requires rides != []
    ensures CountWhere(rides, HasStatus(status))
      == (if rides[0].status == status then 1 else 0) + CountWhere(rides[1..], HasStatus(status))
  {
    assert rides == [rides[0]] + rides[1..];
    CountAppend([rides[0]], rides[1..], HasStatus(status));
  }

  /** When every ride has one of the five statuses, the five counters add up to the total. */
  lemma {:induction false} CountsPartition(rides: seq<RideRow>)
    requires forall i :: 0 <= i < |rides| ==> KnownStatus(rides[i])
    ensures var c := CountStatuses(rides);
      c.pending + c.accepted + c.pickedUp + c.completed + c.cancelled == c.all
  {
    if rides != [] {
      CountsPartition(rides[1..]);
      CountStatusCons(rides, "pending");
      CountStatusCons(rides, "accepted");
      CountStatusCons(rides, "picked_up");
      CountStatusCons(rides, "completed");
      CountStatusCons(rides, "cancelled");
      assert KnownStatus(rides[0]);
    }
  }

  /** `r.final_fare || 0`. */
  function FinalOrZero(r: RideRow): real {
    if r.finalFare.Some? then r.finalFare.value else 0.0
  }

  /** `xs.reduce((sum, r) => sum + (r.final_fare || 0), acc)`: a left fold. */
  function Reduce(xs: seq<RideRow>, acc: real): real
    decreases |xs|
  {
    if xs == [] then acc else Reduce(xs[1..], acc + FinalOrZero(xs[0]))
  }

  /** The revenue of the completed rides among `rides`, summed from the last one backwards. */
  function CompletedRevenue(rides: seq<RideRow>): real {
    if rides == [] then 0.0
    else (if rides[0].status == "completed" then FinalOrZero(rides[0]) else 0.0) + CompletedRevenue(rides[1..])
  }

  /** A left fold from `acc` is `acc` plus the fold from zero. */
  lemma {:induction false} ReduceFrom(xs: seq<RideRow>, acc: real)
    ensures Reduce(xs, acc) == acc + Reduce(xs, 0.0)
  {
    if xs != [] {
      ReduceFrom(xs[1..], acc + FinalOrZero(xs[0]));
      ReduceFrom(xs[1..], FinalOrZero(xs[0]));
    }
  }

  /** Folding the completed rides from the left is the reference sum over the whole list. */
  lemma {:induction false} ReduceCompleted(rides: seq<RideRow>)
    ensures Reduce(Filter(rides, HasStatus("completed")), 0.0) == CompletedRevenue(rides)
  {
    if rides != [] {
      ReduceCompleted(rides[1..]);
      var rest := Filter(rides[1..], HasStatus("completed"));
      if rides[0].status == "completed" {
        assert Filter(rides, HasStatus("completed")) == [rides[0]] + rest;
        assert ([rides[0]] + rest)[1..] == rest;
        ReduceFrom(rest, 0.0 + FinalOrZero(rides[0]));
      }
    }
  }

  /** The reference sum is non-negative when no final fare is negative. */
  lemma {:induction false} CompletedRevenueNonNegative(rides: seq<RideRow>)
    ensures (forall i :: 0 <= i < |rides| ==> FinalOrZero(rides[i]) >= 0.0) ==> CompletedRevenue(rides) >= 0.0
  {
    if rides != [] {
      CompletedRevenueNonNegative(rides[1..]);
    }
  }

  /** totalRevenue: the final fares (0 when missing) of the completed rides, and of no others. */
  function TotalRevenue(rides: seq<RideRow>): (revenue: real)
    ensures revenue == CompletedRevenue(rides)
    ensures (forall i :: 0 <= i < |rides| ==> FinalOrZero(rides[i]) >= 0.0) ==> revenue >= 0.0
  {
    ReduceCompleted(rides);
    CompletedRevenueNonNegative(rides);
    Reduce(Filter(rides, HasStatus("completed")), 0.0)
  }

  /** The revenue of two lists of rides is the sum of their revenues. */
  lemma {:induction false} RevenueAppend(xs: seq<RideRow>, ys: seq<RideRow>)
    ensures TotalRevenue(xs + ys) == TotalRevenue(xs) + TotalRevenue(ys)
  {
    if xs == [] {
      assert xs + ys == ys;
    } else {
      assert (xs + ys)[0] == xs[0] && (xs + ys)[1..] == xs[1..] + ys;
      RevenueAppend(xs[1..], ys);
    }
  }

  /** The header row of the export. */
  const ExportHeader := ["ID", "User", "Driver", "Pickup", "Dropoff", "Distance", "Fare", "Status", "Payment", "Date"]

  /** The header row as it appears in the file. */
  function HeaderLine(): string {
    Join(ExportHeader, ',')
  }

  /** `value || 'N/A'` for an optional number. */
  function OrNotAvailable(x: Option<real>, num: real -> string): string {
    if x.Some? && x.value != 0.0 then num(x.value) else "N/A"
  }

  /** An optional text as `join` writes it: null and undefined become the empty string. */
  function TextOrEmpty(s: Option<string>): string {
    if s.Some? then s.value else ""
  }

  /** The ten cells of one ride in the export. */
  function ExportRow(r: RideRow, num: real -> string, dateOf: RideRow -> string): (cells: seq<string>)
    ensures |cells| == |ExportHeader|
    ensures cells[0] == NatToString(r.id) && cells[6] == num(FareShown(r)) && cells[7] == r.status
  {
    [NatToString(r.id), TextOrEmpty(r.userName),
     if r.driverName.Some? && r.driverName.value != "" then r.driverName.value else "N/A",
     TextOrEmpty(r.pickupLocation), TextOrEmpty(r.dropoffLocation),
     OrNotAvailable(r.distance, num), num(FareShown(r)), r.status,
     TextOrEmpty(r.paymentMethod), dateOf(r)]
  }

  /** One ride's line of the file. */
  function RowLine(r: RideRow, num: real -> string, dateOf: RideRow -> string): string {
    Join(ExportRow(r, num, dateOf), ',')
  }

  /** The lines of the export, before they are joined: the header, then one per shown ride, in order. */
  function ExportLines(shown: seq<RideRow>, num: real -> string, dateOf: RideRow -> string): (lines: seq<string>)
    ensures |lines| == |shown| + 1
    ensures lines[0] == HeaderLine()
    ensures forall i :: 0 <= i < |shown| ==> lines[i + 1] == RowLine(shown[i], num, dateOf)
  {
    [HeaderLine()] + seq(|shown|, i requires 0 <= i < |shown| => RowLine(shown[i], num, dateOf))
  }

  /** exportRides: the lines joined by newlines. */
  function ExportText(shown: seq<RideRow>, num: real -> string, dateOf: RideRow -> string): string {
    Join(ExportLines(shown, num, dateOf), '\n')
  }

  /** No cell of the export contains a line break. */
  predicate SingleLineCells(shown: seq<RideRow>, num: real -> string, dateOf: RideRow -> string) {
    forall i, j :: 0 <= i < |shown| && 0 <= j < |ExportHeader| ==> '\n' !in ExportRow(shown[i], num, dateOf)[j]
  }

  /**
   * Reading the export back line by line gives the header and then exactly
   * one line per shown ride, in the shown order, provided no cell holds a
   * line break.
   */
  lemma ExportReadBack(shown: seq<RideRow>, num: real -> string, dateOf: RideRow -> string)
    requires SingleLineCells(shown, num, dateOf)
    ensures var lines := Split(ExportText(shown, num, dateOf), '\n');
      && |lines| == |shown| + 1
      && lines[0] == HeaderLine()
      && forall i :: 0 <= i < |shown| ==> lines[i + 1] == RowLine(shown[i], num, dateOf)
  {
    var lines := ExportLines(shown, num, dateOf);
    JoinAvoids(ExportHeader, ',', '\n');
    forall k | 0 <= k < |lines|
      ensures '\n' !in lines[k]
    {
      if k > 0 {
        JoinAvoids(ExportRow(shown[k - 1], num, dateOf), ',', '\n');
      }
    }
    SplitJoin(lines, '\n');
  }

  /**
   * One row of the admin rides query: the ride joined with its rider's name
   * and, through the left join, its driver's name when the driver exists.
   */
  function RowOf(users: Tables.Table<Schema.User>, drivers: Tables.Table<Schema.Driver>,
                 rides: Tables.Table<Schema.Ride>, id: Tables.Id): (row: RideRow)
    requires id in rides.rows && rides.rows[id].userId in users.rows
    ensures row.id == id && row.userName == Some(users.rows[rides.rows[id].userId].name)
    ensures var r := rides.rows[id];
      (r.driverId.Some? && r.driverId.value in drivers.rows) == row.driverName.Some?
    ensures row.driverName.Some? ==> row.driverName.value == drivers.rows[rides.rows[id].driverId.value].name
    ensures var r := rides.rows[id];
      (row.estimatedFare, row.finalFare, row.status) == (r.estimatedFare, r.finalFare, r.status)
    ensures row.pickupLocation == Some(rides.rows[id].trip.pickupLocation)
    ensures row.dropoffLocation == Some(rides.rows[id].trip.dropoffLocation)
    ensures row.paymentMethod.None?
  {
    var r := rides.rows[id];
    RideRow(id, Some(users.rows[r.userId].name),
            if r.driverId.Some? && r.driverId.value in drivers.rows then Some(drivers.rows[r.driverId.value].name) else None,
            Some(r.trip.pickupLocation), Some(r.trip.dropoffLocation), Some(r.trip.distance),
            r.estimatedFare, r.finalFare, r.status, None)
  }

  /** The rows the screen receives: the admin rides list without a status, one joined row per ride, newest first. */
  function FetchedRows(users: Tables.Table<Schema.User>, drivers: Tables.Table<Schema.Driver>,
                       rides: Tables.Table<Schema.Ride>): (rows: seq<RideRow>)
    ensures var ids := AdminController.RidesList(users, rides, "");
      && |rows| == |ids| <= 100
      && forall i :: 0 <= i < |rows| ==> ids[i] in rides.rows && rows[i] == RowOf(users, drivers, rides, ids[i])
    ensures forall i, j :: 0 <= i < j < |rows| ==> rows[i].id > rows[j].id
  {
    var ids := AdminController.RidesList(users, rides, "");
    seq(|ids|, i requires 0 <= i < |ids| => RowOf(users, drivers, rides, ids[i]))
  }

  /** The screen's own state: the fetched rows, the filter panel and the sort header. */
  class RidesView {
    var rides: seq<RideRow>
    var filters: RideFilters
    var sort: Sort

    /** The screen as first rendered: nothing fetched yet, the initial panel, newest first. */
    constructor ()
      ensures rides == [] && filters == InitialFilters && sort == InitialSort
    {
      rides, filters, sort := [], InitialFilters, InitialSort;
    }

    /** fetchRides: the rows become the admin rides list; the panel and the sort are kept. */
    method Fetch(db: Schema.Database)
      modifies this
      ensures rides == FetchedRows(db.users, db.drivers, db.rides)
      ensures filters == old(filters) && sort == old(sort)
    {
      rides := FetchedRows(db.users, db.drivers, db.rides);
    }

    /** handleSort: a click on a column header. */
    method HandleSort(field: string)
      modifies this
      ensures sort == NextSort(old(sort), field)
      ensures rides == old(rides) && filters == old(filters)
    {
      if sort.column == field {
        sort := sort.(order := if sort.order == Asc then Desc else Asc);
      } else {
        sort := Sort(field, Asc);
      }
    }
  }
}
