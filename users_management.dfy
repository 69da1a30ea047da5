/**
 * The administrator's users screen: the rows of the admin users endpoint,
 * the search box and ride-count bounds, the active-user counter, the sort
 * header, the checkboxes and the bulk delete. The date conditions of the
 * filter are the parameter `datePasses`.
 */
module UsersManagement {
  import opened Wrappers
  import opened Text
  import opened Tables
  import opened Schema
  import opened ListViews
  import opened AdminController

  /** The filter panel's ride-count bounds; a bound left empty is None. */
  datatype RideBounds = RideBounds(minRides: Option<int>, maxRides: Option<int>)

  /** The search box: name and email ignoring case, the phone as typed. */
  predicate MatchesSearch(u: UserSummary, term: string) {
    || ContainsIgnoringCase(u.name, term)
    || ContainsIgnoringCase(u.email, term)
    || Contains(u.phone, term)
  }

  predicate Kept(search: string, bounds: RideBounds, datePasses: UserSummary -> bool, u: UserSummary) {
    && MatchesSearch(u, search)
    && datePasses(u)
    && (bounds.minRides.None? || u.totalRides >= bounds.minRides.value)
    && (bounds.maxRides.None? || u.totalRides <= bounds.maxRides.value)
  }

  /** filteredUsers before sorting: exactly the users passing the search, the dates and the ride bounds, in order. */
  function FilteredUsers(rows: seq<UserSummary>, search: string, bounds: RideBounds,
                         datePasses: UserSummary -> bool): (shown: seq<UserSummary>)
    ensures |shown| <= |rows| && SubSequence(shown, rows)
    ensures forall i :: 0 <= i < |shown| ==> shown[i] in rows && MatchesSearch(shown[i], search) && datePasses(shown[i])
    ensures bounds.minRides.Some? ==> forall i :: 0 <= i < |shown| ==> shown[i].totalRides >= bounds.minRides.value
    ensures bounds.maxRides.Some? ==> forall i :: 0 <= i < |shown| ==> shown[i].totalRides <= bounds.maxRides.value
    ensures forall u :: u in rows && Kept(search, bounds, datePasses, u) ==> u in shown
  {
    Filter(rows, (u: UserSummary) => Kept(search, bounds, datePasses, u))
  }

  /** An empty search with no bounds, every date passing, shows every user. */
  lemma NoFilterShowsAll(rows: seq<UserSummary>, datePasses: UserSummary -> bool)
    requires forall u :: u in rows ==> datePasses(u)
    ensures FilteredUsers(rows, "", RideBounds(None, None), datePasses) == rows
  {
    forall u | u in rows
      ensures Kept("", RideBounds(None, None), datePasses, u)
    {
      assert "" <= Lower(u.name);
    }
    FilterAll(rows, (u: UserSummary) => Kept("", RideBounds(None, None), datePasses, u));
  }

  predicate Active(u: UserSummary) {
    u.totalRides > 0
  }

  /** The "Active Users" card: the users with at least one ride; never more than the users listed. */
  function ActiveUsers(rows: seq<UserSummary>): (n: nat)
    ensures n <= |rows|
    ensures n == |rows| <==> forall i :: 0 <= i < |rows| ==> rows[i].totalRides > 0
  {
    ActiveCount(rows);
    CountWhere(rows, Active)
  }

  /** The count of active users equals the list's length exactly when every user in it is active. */
  lemma {:induction false} ActiveCount(rows: seq<UserSummary>)
    ensures CountWhere(rows, Active) == |rows| <==> forall i :: 0 <= i < |rows| ==> Active(rows[i])
  {
    if rows != [] {
      ActiveCount(rows[1..]);
      assert rows == [rows[0]] + rows[1..];
      CountAppend([rows[0]], rows[1..], Active);
      assert forall i :: 1 <= i < |rows| ==> rows[i] == rows[1..][i - 1];
    }
  }

  /** A user of the admin list is counted active exactly when some ride in the database was requested by them. */
  lemma ActiveIffRequested(users: Table<User>, rides: Table<Ride>, i: nat)
    requires rides.Valid() && i < |UsersList(users, rides)|
    ensures var u := UsersList(users, rides)[i];
      Active(u) <==> exists id :: id in rides.rows && rides.rows[id].userId == u.id
  {
    var u := UsersList(users, rides)[i];
    var found := Select(rides, RequestedBy(u.id));
    if Active(u) {
      assert found[0] in rides.rows && RequestedBy(u.id)(rides.rows[found[0]]);
    }
    if exists id :: id in rides.rows && rides.rows[id].userId == u.id {
      var id :| id in rides.rows && rides.rows[id].userId == u.id;
      assert RequestedBy(u.id)(rides.rows[id]);
      assert id in found;
    }
  }

  /** The users table after every id in `ids` has been deleted, one request after another. */
  function DeleteAll(users: Table<User>, ids: seq<Id>): Table<User> {
    if ids == [] then users else DeleteAll(users, ids[..|ids| - 1]).Delete(ids[|ids| - 1])
  }

  /** A bulk delete removes exactly the selected users and leaves every other user as it was. */
  lemma {:induction false} DeleteAllEffect(users: Table<User>, ids: seq<Id>)
    ensures var t := DeleteAll(users, ids);
      && t.next == users.next
      && t.rows.Keys == users.rows.Keys - (set k | k in ids)
      && forall k :: k in t.rows ==> t.rows[k] == users.rows[k]
  {
    if ids != [] {
      var init := ids[..|ids| - 1];
      DeleteAllEffect(users, init);
      assert (set k | k in ids) == (set k | k in init) + {ids[|ids| - 1]};
    }
  }

  /** The ids of the rows, in order. */
  function Ids(rows: seq<UserSummary>): (ids: seq<nat>)
    ensures |ids| == |rows| && forall i :: 0 <= i < |rows| ==> ids[i] == rows[i].id
  {
    seq(|rows|, i requires 0 <= i < |rows| => rows[i].id)
  }

  /** The delete requests of a bulk delete, one per id in order. */
  method SendDeleteRequests(db: Database, ids: seq<nat>)
    requires db.Valid()
    modifies db
    ensures db.Valid()
    ensures db.users == DeleteAll(old(db.users), ids)
    ensures db.drivers == old(db.drivers) && db.rides == old(db.rides)
    ensures db.admins == old(db.admins) && db.transactions == old(db.transactions)
  {
    var i := 0;
    while i < |ids|
      invariant 0 <= i <= |ids|
      invariant db.Valid()
      invariant db.users == DeleteAll(old(db.users), ids[..i])
      invariant db.drivers == old(db.drivers) && db.rides == old(db.rides)
      invariant db.admins == old(db.admins) && db.transactions == old(db.transactions)
    {
      var _ := DeleteUser(db, ids[i]);
      assert ids[..i + 1][..i] == ids[..i];
      i := i + 1;
    }
    assert ids[..|ids|] == ids;
  }

  /** The screen's own state. */
  class UsersView {
    var rows: seq<UserSummary>
    var search: string
    var bounds: RideBounds
    var sort: Sort
    var selected: seq<nat>

    /** The screen as first rendered. */
    constructor ()
      ensures rows == [] && search == "" && bounds == RideBounds(None, None)
      ensures sort == InitialSort && selected == []
    {
      rows, search, bounds, sort, selected := [], "", RideBounds(None, None), InitialSort, [];
    }

    /** fetchUsers. */
    method Fetch(db: Database)
      modifies this
      ensures rows == UsersList(db.users, db.rides)
      ensures search == old(search) && bounds == old(bounds) && sort == old(sort) && selected == old(selected)
    {
      rows := UsersList(db.users, db.rides);
    }

    /** handleSort. */
    method HandleSort(field: string)
      modifies this
      ensures sort == NextSort(old(sort), field)
      ensures rows == old(rows) && search == old(search) && bounds == old(bounds) && selected == old(selected)
    {
      if sort.column == field {
        sort := sort.(order := if sort.order == Asc then Desc else Asc);
      } else {
        sort := Sort(field, Asc);
      }
    }

    /** handleSelectAll: the ids of the users on screen, or nothing. */
    method HandleSelectAll(checked: bool, datePasses: UserSummary -> bool)
      modifies this
      ensures selected == AllSelected(Ids(FilteredUsers(rows, search, bounds, datePasses)), checked)
      ensures rows == old(rows) && search == old(search) && bounds == old(bounds) && sort == old(sort)
    {
      if checked {
        selected := Ids(FilteredUsers(rows, search, bounds, datePasses));
      } else {
        selected := [];
      }
    }

    /** handleSelectUser: a row checkbox. */
    method HandleSelectUser(userId: nat, checked: bool)
      modifies this
      ensures selected == Toggled(old(selected), userId, checked)
      ensures rows == old(rows) && search == old(search) && bounds == old(bounds) && sort == old(sort)
    {
      if checked {
        selected := selected + [userId];
      } else {
        selected := Filter(selected, (x: nat) => x != userId);
      }
    }

    /**
     * deleteSelectedUsers: with a selection and the administrator's
     * confirmation, one delete request per selected id; then the selection
     * is cleared and the list fetched again.
     */
    method DeleteSelectedUsers(db: Database, confirmed: bool) returns (requested: bool)
      requires db.Valid()
      modifies this, db
      ensures db.Valid()
      ensures requested <==> |old(selected)| > 0 && confirmed
      ensures !requested ==> unchanged(db) && unchanged(this)
      ensures requested ==>
        && db.users == DeleteAll(old(db.users), old(selected))
        && selected == [] && rows == UsersList(db.users, db.rides)
      ensures db.drivers == old(db.drivers) && db.rides == old(db.rides)
      ensures db.admins == old(db.admins) && db.transactions == old(db.transactions)
      ensures search == old(search) && bounds == old(bounds) && sort == old(sort)
    {
      if |selected| == 0 || !confirmed {
        return false;
      }
      requested := true;
      SendDeleteRequests(db, selected);
      selected := [];
      Fetch(db);
    }
  }
}
