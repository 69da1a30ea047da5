/**
 * The reduced drivers screen: search box, status tabs, counters and the
 * buttons of each row, with no sorting and no selection. Its search reads
 * name, email and phone through optional chaining, so the row fields are
 * optional here.
 */
module DriversManagementSimple {
  import opened Wrappers
  import opened Text
  import opened Schema
  import opened ListViews
  import AdminController
  import DriversManagement

  const All := "all"

  /** A driver as this screen reads it: a missing field is None. */
  datatype DriverRow = DriverRow(id: nat, name: Option<string>, email: Option<string>, phone: Option<string>, status: string)

  /** The row the admin drivers endpoint sends for a driver, where every field is present. */
  function RowOf(d: AdminController.DriverSummary): DriverRow {
    DriverRow(d.id, Some(d.driver.name), Some(d.driver.email), Some(d.driver.phone), d.driver.status)
  }

  /** The search: name and email ignoring case, the phone as typed; a missing field never matches. */
  predicate MatchesSearch(d: DriverRow, term: string) {
    || MatchesText(d.name, term)
    || MatchesText(d.email, term)
    || (d.phone.Some? && Contains(d.phone.value, term))
  }

  predicate Kept(search: string, status: string, d: DriverRow) {
    MatchesSearch(d, search) && (status == All || d.status == status)
  }

  /** filteredDrivers: exactly the rows passing the search and the status tab, in their original order. */
  function FilteredDrivers(rows: seq<DriverRow>, search: string, status: string): (shown: seq<DriverRow>)
    ensures |shown| <= |rows| && SubSequence(shown, rows)
    ensures forall i :: 0 <= i < |shown| ==> shown[i] in rows && MatchesSearch(shown[i], search)
    ensures status != All ==> forall i :: 0 <= i < |shown| ==> shown[i].status == status
    ensures forall d :: d in rows && Kept(search, status, d) ==> d in shown
  {
    Filter(rows, (d: DriverRow) => Kept(search, status, d))
  }

  /** A row with no name, no email and no phone is never shown, not even for an empty search. */
  lemma FieldlessNeverShown(rows: seq<DriverRow>, search: string, status: string, d: DriverRow)
    requires d.name.None? && d.email.None? && d.phone.None?
    ensures d !in FilteredDrivers(rows, search, status)
  {
  }

  /** A row with a name is shown by an empty search on the "all" tab. */
  lemma NamedShownByEmptySearch(rows: seq<DriverRow>, d: DriverRow)
    requires d in rows && d.name.Some?
    ensures d in FilteredDrivers(rows, "", All)
  {
    assert "" <= Lower(d.name.value);
  }

  function HasStatus(status: string): DriverRow -> bool {
    (d: DriverRow) => d.status == status
  }

  /** statusCounts: every driver, and the drivers of each status. */
  function CountStatuses(rows: seq<DriverRow>): (c: DriversManagement.StatusCounts)
    ensures c.all == |rows|
    ensures c.pending <= c.all && c.approved <= c.all && c.rejected <= c.all && c.suspended <= c.all
  {
    DriversManagement.StatusCounts(|rows|,
      CountWhere(rows, HasStatus(Pending)),
      CountWhere(rows, HasStatus(Approved)),
      CountWhere(rows, HasStatus(Rejected)),
      CountWhere(rows, HasStatus(Suspended)))
  }

  /** The buttons offered for a driver of each status: no view button, and no way back from suspension. */
  function Actions(status: string): (actions: seq<DriversManagement.DriverAction>)
    ensures DriversManagement.Delete in actions
    ensures DriversManagement.Approve in actions <==> status == Pending
    ensures DriversManagement.Reject in actions <==> status == Pending
    ensures DriversManagement.Suspend in actions <==> status == Approved
    ensures DriversManagement.Reactivate !in actions && DriversManagement.View !in actions
  {
    if status == Pending then [DriversManagement.Approve, DriversManagement.Reject, DriversManagement.Delete]
    else if status == Approved then [DriversManagement.Suspend, DriversManagement.Delete]
    else [DriversManagement.Delete]
  }

  /**
   * Every button of this screen is also offered by the full drivers screen
   * for the same status; a suspended driver gets only the delete button here.
   */
  lemma ActionsWithinFullScreen(status: string)
    ensures forall a :: a in Actions(status) ==> a in DriversManagement.Actions(status)
    ensures status == Suspended ==> Actions(status) == [DriversManagement.Delete]
  {
  }
}
