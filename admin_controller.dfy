/**
 * The administrator's handlers: dashboard statistics and the user, driver
 * and ride lists (read-only), driver approval, account deletion and the
 * creation of further administrators.
 */
module AdminController {
  import opened Wrappers
  import opened Tables
  import opened Schema

  /** The getDashboardStats response. */
  datatype Stats = Stats(
    users: nat, drivers: nat, pendingDrivers: nat, activeDrivers: nat,
    totalRides: nat, completedRides: nat, activeRides: nat,
    totalRevenue: real, todayRevenue: real, todayRides: nat)

  predicate PendingDriver(d: Driver) { d.status == Pending }
  predicate ActiveDriver(d: Driver) { d.isAvailable && d.status == Approved }
  predicate CompletedRide(r: Ride) { r.status == Completed }
  predicate ActiveRide(r: Ride) { r.status == Pending || r.status == Accepted || r.status == PickedUp }

  function CompletedOn(isToday: Ride -> bool): Ride -> bool {
    (r: Ride) => r.status == Completed && isToday(r)
  }

  /** `final_fare` as `SUM` sees it: a NULL adds nothing. */
  function FinalFareOrZero(r: Ride): real {
    r.finalFare.GetOr(0.0)
  }

  /**
   * getDashboardStats: row counts and revenue sums over the three tables;
   * a sum over no rows is reported as 0. "Today" is the `isToday` predicate.
   */
  function DashboardStats(users: Table<User>, drivers: Table<Driver>, rides: Table<Ride>, isToday: Ride -> bool): (s: Stats)
    requires users.Valid() && drivers.Valid() && rides.Valid()
    ensures s.users == |users.rows| && s.drivers == |drivers.rows| && s.totalRides == |rides.rows|
    ensures s.pendingDrivers == Count(drivers, PendingDriver) && s.activeDrivers == Count(drivers, ActiveDriver)
    ensures s.completedRides == Count(rides, CompletedRide) && s.activeRides == Count(rides, ActiveRide)
    ensures s.pendingDrivers + s.activeDrivers <= s.drivers
    ensures s.completedRides + s.activeRides <= s.totalRides
    ensures s.todayRides <= s.totalRides
    ensures s.totalRevenue == SumOver(rides.rows, Select(rides, CompletedRide), FinalFareOrZero)
    ensures (forall id :: id in rides.rows && CompletedRide(rides.rows[id]) ==> FinalFareOrZero(rides.rows[id]) >= 0.0) ==>
      0.0 <= s.todayRevenue <= s.totalRevenue
  {
    CountAll(users);
    CountAll(drivers);
    CountAll(rides);
    CountDisjoint(drivers, PendingDriver, ActiveDriver);
    CountDisjoint(rides, CompletedRide, ActiveRide);
    CountMonotone(rides, isToday, Always);
    RevenueBounds(rides, isToday);
    Stats(|users.rows|, |drivers.rows|, Count(drivers, PendingDriver), Count(drivers, ActiveDriver),
          |rides.rows|, Count(rides, CompletedRide), Count(rides, ActiveRide),
          SumOver(rides.rows, Select(rides, CompletedRide), FinalFareOrZero),
          SumOver(rides.rows, Select(rides, CompletedOn(isToday)), FinalFareOrZero),
          Count(rides, isToday))
  }

  /** With no negative fares, today's revenue is non-negative and part of the total. */
  lemma RevenueBounds(rides: Table<Ride>, isToday: Ride -> bool)
    ensures (forall id :: id in rides.rows && CompletedRide(rides.rows[id]) ==> FinalFareOrZero(rides.rows[id]) >= 0.0) ==>
      0.0 <= SumOver(rides.rows, Select(rides, CompletedOn(isToday)), FinalFareOrZero)
          <= SumOver(rides.rows, Select(rides, CompletedRide), FinalFareOrZero)
  {
    if forall id :: id in rides.rows && CompletedRide(rides.rows[id]) ==> FinalFareOrZero(rides.rows[id]) >= 0.0 {
      SumMonotone(rides, CompletedRide, CompletedOn(isToday), FinalFareOrZero);
      var today := Select(rides, CompletedOn(isToday));
      forall i | 0 <= i < |today|
        ensures 0.0 <= FinalFareOrZero(rides.rows[today[i]])
      {
        assert CompletedOn(isToday)(rides.rows[today[i]]);
      }
      SumOverNonNegative(rides.rows, today, FinalFareOrZero);
    }
  }

  /** A row of the getUsers response (without the password hash). */
  datatype UserSummary = UserSummary(id: Id, name: string, email: string, phone: string, totalRides: nat)

  function RequestedBy(userId: Id): Ride -> bool {
    (r: Ride) => r.userId == userId
  }

  /** getUsers: every user, newest first, with the number of rides carrying that user id. */
  function UsersList(users: Table<User>, rides: Table<Ride>): (list: seq<UserSummary>)
    ensures var ids := Select(users, Always); |list| == |ids|
    ensures forall i :: 0 <= i < |list| ==> list[i].id in users.rows
    ensures forall i :: 0 <= i < |list| ==>
      var u := users.rows[list[i].id];
      list[i] == UserSummary(list[i].id, u.name, u.email, u.phone, Count(rides, RequestedBy(list[i].id)))
    ensures forall i, j :: 0 <= i < j < |list| ==> list[i].id > list[j].id
    ensures users.Valid() ==> forall id :: id in users.rows ==> exists i :: 0 <= i < |list| && list[i].id == id
  {
    var ids := Select(users, Always);
    var list := seq(|ids|, i requires 0 <= i < |ids| =>
      var u := users.rows[ids[i]];
      UserSummary(ids[i], u.name, u.email, u.phone, Count(rides, RequestedBy(ids[i]))));
    forall id | users.Valid() && id in users.rows
      ensures exists i :: 0 <= i < |list| && list[i].id == id
    {
      assert Always(users.rows[id]);
      var i :| 0 <= i < |ids| && ids[i] == id;
      assert list[i].id == id;
    }
    list
  }

  /** A row of the getDrivers response: the driver row and its number of completed rides. */
  datatype DriverSummary = DriverSummary(id: Id, driver: Driver, completedRides: nat)

  function CompletedFor(driverId: Id): Ride -> bool {
    (r: Ride) => r.driverId == Some(driverId) && r.status == Completed
  }

  /** The getDrivers filter: a status query parameter that is empty or missing ("") keeps every driver. */
  function WithStatus(status: string): Driver -> bool {
    (d: Driver) => status == "" || d.status == status
  }

  /** getDrivers: drivers (all, or of one status), newest first, with their completed-ride counts. */
  function DriversList(drivers: Table<Driver>, rides: Table<Ride>, status: string): (list: seq<DriverSummary>)
    ensures |list| == |Select(drivers, WithStatus(status))|
    ensures forall i :: 0 <= i < |list| ==>
      list[i].id in drivers.rows && list[i].driver == drivers.rows[list[i].id]
      && list[i].completedRides == Count(rides, CompletedFor(list[i].id))
    ensures status != "" ==> forall i :: 0 <= i < |list| ==> list[i].driver.status == status
    ensures forall i, j :: 0 <= i < j < |list| ==> list[i].id > list[j].id
    ensures drivers.Valid() ==> forall id :: id in drivers.rows && (status == "" || drivers.rows[id].status == status) ==>
      exists i :: 0 <= i < |list| && list[i].id == id
  {
    var ids := Select(drivers, WithStatus(status));
    var list := seq(|ids|, i requires 0 <= i < |ids| =>
      DriverSummary(ids[i], drivers.rows[ids[i]], Count(rides, CompletedFor(ids[i]))));
    assert forall i :: 0 <= i < |ids| ==> WithStatus(status)(drivers.rows[ids[i]]);
    forall id | drivers.Valid() && id in drivers.rows && (status == "" || drivers.rows[id].status == status)
      ensures exists i :: 0 <= i < |list| && list[i].id == id
    {
      assert WithStatus(status)(drivers.rows[id]);
      var i :| 0 <= i < |ids| && ids[i] == id;
      assert list[i].id == id;
    }
    list
  }

  /** The statuses an administrator may give a driver. */
  predicate AssignableStatus(status: string) {
    status == Approved || status == Rejected || status == Suspended
  }

  /** The driver row with a new status (no-op for an unknown id). */
  function SetStatus(drivers: Table<Driver>, id: Id, status: string): (t: Table<Driver>)
    ensures t.next == drivers.next && t.rows.Keys == drivers.rows.Keys
    ensures id in drivers.rows ==> t.rows[id] == drivers.rows[id].(status := status)
    ensures forall k :: k in drivers.rows && k != id ==> t.rows[k] == drivers.rows[k]
  {
    if id in drivers.rows then drivers.Update(id, drivers.rows[id].(status := status)) else drivers
  }

  /** updateDriverStatus: approve, reject or suspend a driver, whatever its current status. */
  method UpdateDriverStatus(db: Database, driverId: Id, status: string) returns (code: nat)
    requires db.Valid()
    modifies db
    ensures db.Valid()
    ensures code == 200 <==> AssignableStatus(status)
    ensures code != 200 ==> code == 400 && unchanged(db)
    ensures code == 200 ==> db.drivers == SetStatus(old(db.drivers), driverId, status)
    ensures db.users == old(db.users) && db.rides == old(db.rides)
    ensures db.admins == old(db.admins) && db.transactions == old(db.transactions)
  {
    if !AssignableStatus(status) {
      return 400;
    }
    db.drivers := SetStatus(db.drivers, driverId, status);
    code := 200;
  }

  /** The getRides filter: an optional status, and a rider that still exists (inner join on users). */
  function RideListed(users: Table<User>, status: string): Ride -> bool {
    (r: Ride) => (status == "" || r.status == status) && r.userId in users.rows
  }

  /** getRides: the 100 newest rides (all, or of one status). */
  function RidesList(users: Table<User>, rides: Table<Ride>, status: string): (ids: seq<Id>)
    ensures |ids| <= 100
    ensures forall i :: 0 <= i < |ids| ==> ids[i] in rides.rows && rides.rows[ids[i]].userId in users.rows
    ensures status != "" ==> forall i :: 0 <= i < |ids| ==> rides.rows[ids[i]].status == status
    ensures forall i, j :: 0 <= i < j < |ids| ==> ids[i] > ids[j]
    ensures rides.Valid() ==> forall id :: id in rides.rows && RideListed(users, status)(rides.rows[id]) && id !in ids ==>
      |ids| == 100 && forall i :: 0 <= i < |ids| ==> id < ids[i]
  {
    var ids := Newest(rides, RideListed(users, status), 100);
    assert forall i :: 0 <= i < |ids| ==> RideListed(users, status)(rides.rows[ids[i]]);
    ids
  }

  /** deleteUser: removes exactly the user row with that id. */
  method DeleteUser(db: Database, userId: Id) returns (code: nat)
    requires db.Valid()
    modifies db
    ensures db.Valid()
    ensures code == 200
    ensures db.users == old(db.users).Delete(userId)
    ensures db.drivers == old(db.drivers) && db.rides == old(db.rides)
    ensures db.admins == old(db.admins) && db.transactions == old(db.transactions)
  {
    db.users := db.users.Delete(userId);
    code := 200;
  }

  /** deleteDriver: removes exactly the driver row with that id. */
  method DeleteDriver(db: Database, driverId: Id) returns (code: nat)
    requires db.Valid()
    modifies db
    ensures db.Valid()
    ensures code == 200
    ensures db.drivers == old(db.drivers).Delete(driverId)
    ensures db.users == old(db.users) && db.rides == old(db.rides)
    ensures db.admins == old(db.admins) && db.transactions == old(db.transactions)
  {
    db.drivers := db.drivers.Delete(driverId);
    code := 200;
  }

  function HasAdminEmail(email: string): Admin -> bool {
    (a: Admin) => a.email == email
  }

  /** createAdmin: adds an administrator unless the email is taken; the role defaults to 'admin'. */
  method CreateAdmin(db: Database, name: string, email: string, password: string, role: string,
                     hash: string -> string) returns (code: nat)
    requires db.Valid()
    modifies db
    ensures db.Valid()
    ensures code == 400 <==> exists id :: id in old(db.admins.rows) && old(db.admins.rows[id]).email == email
    ensures code != 400 ==> code == 201
    ensures code == 400 ==> unchanged(db)
    ensures code == 201 ==>
      db.admins == old(db.admins).Insert(Admin(name, email, hash(password), if role == "" then "admin" else role))
    ensures db.users == old(db.users) && db.drivers == old(db.drivers)
    ensures db.rides == old(db.rides) && db.transactions == old(db.transactions)
  {
    var existing := First(db.admins, HasAdminEmail(email));
    if existing.Some? {
      assert HasAdminEmail(email)(db.admins.rows[existing.value]);
      return 400;
    }
    assert forall id :: id in db.admins.rows ==> !HasAdminEmail(email)(db.admins.rows[id]);
    var hashedPassword := hash(password);
    db.admins := db.admins.Insert(Admin(name, email, hashedPassword, if role == "" then "admin" else role));
    code := 201;
  }
}
