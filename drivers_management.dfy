/**
 * The administrator's drivers screen: the rows of the admin drivers
 * endpoint, the search box and status tabs, the counters, the sort header,
 * the row and header checkboxes, the bulk status buttons and the buttons
 * offered on each row. The requests the screen sends are the backend
 * handlers they reach, called one after another on the same database.
 */
module DriversManagement {
  import opened Wrappers
  import opened Text
  import opened Tables
  import opened Schema
  import opened ListViews
  import opened AdminController

  const All := "all"

  /** The search box: name, email, licence and plate ignoring case; the phone number as typed. */
  predicate MatchesSearch(d: DriverSummary, term: string) {
    || ContainsIgnoringCase(d.driver.name, term)
    || ContainsIgnoringCase(d.driver.email, term)
    || Contains(d.driver.phone, term)
    || ContainsIgnoringCase(d.driver.licenseNumber, term)
    || ContainsIgnoringCase(d.driver.vehiclePlate, term)
  }

  predicate Kept(search: string, status: string, d: DriverSummary) {
    MatchesSearch(d, search) && (status == All || d.driver.status == status)
  }

  /** filteredDrivers before sorting: exactly the rows passing the search and the status tab, in order. */
  function FilteredDrivers(rows: seq<DriverSummary>, search: string, status: string): (shown: seq<DriverSummary>)
    ensures |shown| <= |rows| && SubSequence(shown, rows)
    ensures forall i :: 0 <= i < |shown| ==> shown[i] in rows && MatchesSearch(shown[i], search)
    ensures status != All ==> forall i :: 0 <= i < |shown| ==> shown[i].driver.status == status
    ensures forall d :: d in rows && Kept(search, status, d) ==> d in shown
  {
    Filter(rows, (d: DriverSummary) => Kept(search, status, d))
  }

  /** An empty search on the "all" tab shows every row. */
  lemma NoFilterShowsAll(rows: seq<DriverSummary>)
    ensures FilteredDrivers(rows, "", All) == rows
  {
    forall d | d in rows
      ensures Kept("", All, d)
    {
      assert "" <= Lower(d.driver.name);
    }
    FilterAll(rows, (d: DriverSummary) => Kept("", All, d));
  }

  function HasStatus(status: string): DriverSummary -> bool {
    (d: DriverSummary) => d.driver.status == status
  }

  /** The counters on the status tabs. */
  datatype StatusCounts = StatusCounts(all: nat, pending: nat, approved: nat, rejected: nat, suspended: nat)

  /** statusCounts: every driver, and the drivers of each status. */
  function CountStatuses(rows: seq<DriverSummary>): (c: StatusCounts)
    ensures c.all == |rows|
    ensures c.pending <= c.all && c.approved <= c.all && c.rejected <= c.all && c.suspended <= c.all
  {
    StatusCounts(|rows|,
      CountWhere(rows, HasStatus(Pending)),
      CountWhere(rows, HasStatus(Approved)),
      CountWhere(rows, HasStatus(Rejected)),
      CountWhere(rows, HasStatus(Suspended)))
  }

  lemma CountStatusCons(rows: seq<DriverSummary>, status: string)
    requires rows != []
    ensures CountWhere(rows, HasStatus(status))
      == (if rows[0].driver.status == status then 1 else 0) + CountWhere(rows[1..], HasStatus(status))
  {
    assert rows == [rows[0]] + rows[1..];
    CountAppend([rows[0]], rows[1..], HasStatus(status));
  }

  /** When every driver has one of the four statuses, the tab counters add up to the total. */
  lemma {:induction false} CountsPartition(rows: seq<DriverSummary>)
    requires forall i :: 0 <= i < |rows| ==> rows[i].driver.status in {Pending, Approved, Rejected, Suspended}
    ensures var c := CountStatuses(rows); c.pending + c.approved + c.rejected + c.suspended == c.all
  {
    if rows != [] {
      CountsPartition(rows[1..]);
      CountStatusCons(rows, Pending);
      CountStatusCons(rows, Approved);
      CountStatusCons(rows, Rejected);
      CountStatusCons(rows, Suspended);
    }
  }

  /** The ids of the rows, in order. */
  function Ids(rows: seq<DriverSummary>): (ids: seq<nat>)
    ensures |ids| == |rows| && forall i :: 0 <= i < |rows| ==> ids[i] == rows[i].id
  {
    seq(|rows|, i requires 0 <= i < |rows| => rows[i].id)
  }

  /** The drivers table after every id in `ids` has been given `status`, one request after another. */
  function SetStatusAll(drivers: Table<Driver>, ids: seq<Id>, status: string): Table<Driver> {
    if ids == [] then drivers
    else SetStatus(SetStatusAll(drivers, ids[..|ids| - 1], status), ids[|ids| - 1], status)
  }

  /**
   * A bulk update gives every selected driver the status, whatever the
   * order of the selection and however often an id occurs in it, and
   * leaves every other driver as it was.
   */
  lemma {:induction false} SetStatusAllEffect(drivers: Table<Driver>, ids: seq<Id>, status: string)
    ensures var t := SetStatusAll(drivers, ids, status);
      && t.next == drivers.next && t.rows.Keys == drivers.rows.Keys
      && (forall k :: k in drivers.rows && k in ids ==> t.rows[k] == drivers.rows[k].(status := status))
      && (forall k :: k in drivers.rows && k !in ids ==> t.rows[k] == drivers.rows[k])
  {
    if ids != [] {
      var init := ids[..|ids| - 1];
      SetStatusAllEffect(drivers, init, status);
      assert forall k :: k in ids ==> k == ids[|ids| - 1] || k in init;
      assert forall k :: k in init ==> k in ids;
    }
  }

  /** One more request extends the prefix of ids that has been applied. */
  lemma SetStatusAllStep(drivers: Table<Driver>, ids: seq<Id>, i: nat, status: string)
    requires i < |ids|
    ensures SetStatusAll(drivers, ids[..i + 1], status) == SetStatus(SetStatusAll(drivers, ids[..i], status), ids[i], status)
  {
    assert ids[..i + 1][..i] == ids[..i];
  }

  /** The buttons of a row. */
  datatype DriverAction = View | Approve | Reject | Suspend | Reactivate | Delete

  /** The buttons offered for a driver of each status. */
  function Actions(status: string): (actions: seq<DriverAction>)
    ensures View in actions && Delete in actions
    ensures Approve in actions <==> status == Pending
    ensures Reject in actions <==> status == Pending
    ensures Suspend in actions <==> status == Approved
    ensures Reactivate in actions <==> status == Suspended
  {
    if status == Pending then [View, Approve, Reject, Delete]
    else if status == Approved then [View, Suspend, Delete]
    else if status == Suspended then [View, Reactivate, Delete]
    else [View, Delete]
  }

  /** The status a button asks the backend to set, if it asks for one. */
  function Target(a: DriverAction): Option<string> {
    match a
    case Approve => Some(Approved)
    case Reject => Some(Rejected)
    case Suspend => Some(Suspended)
    case Reactivate => Some(Approved)
    case _ => None
  }

  /** Every status button offered asks for a status the backend accepts, and a different one from the current status. */
  lemma ActionsAccepted(status: string, a: DriverAction)
    requires a in Actions(status) && Target(a).Some?
    ensures AssignableStatus(Target(a).value)
    ensures Target(a).value != status
  {
  }

  /**
   * The status requests of a bulk update, one per id in order; `failed`
   * tells whether any of them was refused.
   */
  method SendStatusRequests(db: Database, ids: seq<nat>, status: string) returns (failed: bool)
    requires db.Valid() && |ids| > 0
    modifies db
    ensures db.Valid()
    ensures failed <==> !AssignableStatus(status)
    ensures !failed ==> db.drivers == SetStatusAll(old(db.drivers), ids, status)
    ensures failed ==> db.drivers == old(db.drivers)
    ensures db.users == old(db.users) && db.rides == old(db.rides)
    ensures db.admins == old(db.admins) && db.transactions == old(db.transactions)
  {
    failed := false;
    var i := 0;
    while i < |ids|
      invariant 0 <= i <= |ids|
      invariant db.Valid()
      invariant failed <==> (i > 0 && !AssignableStatus(status))
      invariant AssignableStatus(status) ==> db.drivers == SetStatusAll(old(db.drivers), ids[..i], status)
      invariant !AssignableStatus(status) ==> db.drivers == old(db.drivers)
      invariant db.users == old(db.users) && db.rides == old(db.rides)
      invariant db.admins == old(db.admins) && db.transactions == old(db.transactions)
    {
      var code := UpdateDriverStatus(db, ids[i], status);
      if code != 200 {
        failed := true;
      } else {
        SetStatusAllStep(old(db.drivers), ids, i, status);
      }
      i := i + 1;
    }
    assert ids[..|ids|] == ids;
  }

  /** The screen's own state. */
  class DriversView {
    var rows: seq<DriverSummary>
    var search: string
    var statusFilter: string
    var sort: Sort
    var selected: seq<nat>

    /** The screen as first rendered. */
    constructor ()
      ensures rows == [] && search == "" && statusFilter == All && sort == InitialSort && selected == []
    {
      rows, search, statusFilter, sort, selected := [], "", All, InitialSort, [];
    }

    /** The rows on screen. */
    function Shown(): seq<DriverSummary>
      reads this
    {
      FilteredDrivers(rows, search, statusFilter)
    }

    /** fetchDrivers: every driver, newest first. */
    method Fetch(db: Database)
      modifies this
      ensures rows == DriversList(db.drivers, db.rides, "")
      ensures search == old(search) && statusFilter == old(statusFilter)
      ensures sort == old(sort) && selected == old(selected)
    {
      rows := DriversList(db.drivers, db.rides, "");
    }

    /** handleSort. */
    method HandleSort(field: string)
      modifies this
      ensures sort == NextSort(old(sort), field)
      ensures rows == old(rows) && search == old(search) && statusFilter == old(statusFilter)
      ensures selected == old(selected)
    {
      if sort.column == field {
        sort := sort.(order := if sort.order == Asc then Desc else Asc);
      } else {
        sort := Sort(field, Asc);
      }
    }

    /** handleSelectAll: the ids of the rows on screen, or nothing. */
    method HandleSelectAll(checked: bool)
      modifies this
      ensures selected == AllSelected(Ids(Shown()), checked)
      ensures checked && |Shown()| > 0 ==> HeaderChecked(selected, Ids(Shown()))
      ensures !checked ==> !HeaderChecked(selected, Ids(Shown()))
      ensures rows == old(rows) && search == old(search) && statusFilter == old(statusFilter)
      ensures sort == old(sort)
    {
      if checked {
        selected := Ids(FilteredDrivers(rows, search, statusFilter));
      } else {
        selected := [];
      }
    }

    /** handleSelectDriver: a row checkbox. */
    method HandleSelectDriver(driverId: nat, checked: bool)
      modifies this
      ensures selected == Toggled(old(selected), driverId, checked)
      ensures rows == old(rows) && search == old(search) && statusFilter == old(statusFilter)
      ensures sort == old(sort)
    {
      if checked {
        selected := selected + [driverId];
      } else {
        selected := Filter(selected, (x: nat) => x != driverId);
      }
    }

    /**
     * bulkUpdateStatus: with a selection and the administrator's confirmation,
     * one status request per selected id; when they all succeed the selection
     * is cleared and the list fetched again.
     */
    method BulkUpdateStatus(db: Database, status: string, confirmed: bool) returns (requested: bool)
      requires db.Valid()
      modifies this, db
      ensures db.Valid()
      ensures requested <==> |old(selected)| > 0 && confirmed
      ensures !requested ==> unchanged(db) && unchanged(this)
      ensures requested && AssignableStatus(status) ==>
        && db.drivers == SetStatusAll(old(db.drivers), old(selected), status)
        && selected == [] && rows == DriversList(db.drivers, db.rides, "")
      ensures requested && !AssignableStatus(status) ==> db.drivers == old(db.drivers) && unchanged(this)
      ensures db.users == old(db.users) && db.rides == old(db.rides)
      ensures db.admins == old(db.admins) && db.transactions == old(db.transactions)
      ensures search == old(search) && statusFilter == old(statusFilter) && sort == old(sort)
    {
      if |selected| == 0 || !confirmed {
        return false;
      }
      requested := true;
      var failed := SendStatusRequests(db, selected, status);
      if !failed {
        selected := [];
        Fetch(db);
      }
    }
  }
}
