/**
 * The driver's own handlers: position and availability updates on the
 * driver's row, and the read-only profile, earnings and history queries.
 */
module DriverController {
  import opened Wrappers
  import opened Tables
  import opened Schema

  /** The driver row with a new position (no-op for an unknown id). */
  function SetLocation(drivers: Table<Driver>, id: Id, latitude: Option<real>, longitude: Option<real>): (t: Table<Driver>)
    ensures t.next == drivers.next && t.rows.Keys == drivers.rows.Keys
    ensures id in drivers.rows ==> t.rows[id] == drivers.rows[id].(latitude := latitude, longitude := longitude)
    ensures forall k :: k in drivers.rows && k != id ==> t.rows[k] == drivers.rows[k]
  {
    if id in drivers.rows then drivers.Update(id, drivers.rows[id].(latitude := latitude, longitude := longitude))
    else drivers
  }

  /** updateLocation: overwrites the calling driver's current position and nothing else. */
  method UpdateLocation(db: Database, driverId: Id, latitude: Option<real>, longitude: Option<real>) returns (code: nat)
    requires db.Valid()
    modifies db
    ensures db.Valid()
    ensures code == 200
    ensures db.drivers == SetLocation(old(db.drivers), driverId, latitude, longitude)
    ensures db.users == old(db.users) && db.rides == old(db.rides)
    ensures db.admins == old(db.admins) && db.transactions == old(db.transactions)
  {
    db.drivers := SetLocation(db.drivers, driverId, latitude, longitude);
    code := 200;
  }

  /** updateAvailability: sets the calling driver's availability and echoes the value back. */
  method UpdateAvailability(db: Database, driverId: Id, available: bool) returns (code: nat, echoed: bool)
    requires db.Valid()
    modifies db
    ensures db.Valid()
    ensures code == 200 && echoed == available
    ensures db.drivers == SetAvailable(old(db.drivers), driverId, available)
    ensures db.users == old(db.users) && db.rides == old(db.rides)
    ensures db.admins == old(db.admins) && db.transactions == old(db.transactions)
  {
    db.drivers := SetAvailable(db.drivers, driverId, available);
    code := 200;
    echoed := available;
  }

  /** The columns getProfile selects: the driver row without the password hash or the position. */
  datatype Profile = Profile(
    id: Id, name: string, email: string, phone: string,
    licenseNumber: string, vehicleType: string, vehicleModel: string,
    vehiclePlate: string, vehicleColor: string,
    rating: real, totalRides: int, isAvailable: bool, status: string)

  /** getProfile: the caller's profile, or 404 when the caller has no driver row. */
  function GetProfile(drivers: Table<Driver>, driverId: Id): (r: Result<Profile>)
    ensures r.Err? <==> driverId !in drivers.rows
    ensures r.Err? ==> r.code == 404 && r.message == "Driver not found"
    ensures r.Ok? ==>
      var d := drivers.rows[driverId];
      && r.value.id == driverId && r.value.name == d.name && r.value.email == d.email && r.value.phone == d.phone
      && r.value.licenseNumber == d.licenseNumber && r.value.vehiclePlate == d.vehiclePlate
      && r.value.vehicleType == d.vehicleType && r.value.vehicleModel == d.vehicleModel
      && r.value.vehicleColor == d.vehicleColor
      && r.value.rating == d.rating && r.value.totalRides == d.totalRides
      && r.value.isAvailable == d.isAvailable && r.value.status == d.status
  {
    if driverId !in drivers.rows then Err(404, "Driver not found")
    else
      var d := drivers.rows[driverId];
      Ok(Profile(driverId, d.name, d.email, d.phone, d.licenseNumber, d.vehicleType, d.vehicleModel,
                 d.vehiclePlate, d.vehicleColor, d.rating, d.totalRides, d.isAvailable, d.status))
  }

  /** The driver's completed rides (`driver_id = ? AND status = 'completed'`). */
  function CompletedBy(driverId: Id): Ride -> bool {
    (r: Ride) => r.driverId == Some(driverId) && r.status == Completed
  }

  /** The same filter restricted to rides created today. */
  function CompletedToday(driverId: Id, isToday: Ride -> bool): Ride -> bool {
    (r: Ride) => r.driverId == Some(driverId) && r.status == Completed && isToday(r)
  }

  /** `COALESCE(final_fare, estimated_fare)`: what a completed ride earned. */
  function Earned(r: Ride): real {
    r.finalFare.GetOr(r.estimatedFare)
  }

  /** The getEarnings response. */
  datatype Earnings = Earnings(totalRides: nat, totalEarnings: real, avgFare: real, ridesToday: nat, earningsToday: real)

  /**
   * getEarnings: counts and sums over the driver's completed rides, overall
   * and for today; every missing aggregate is reported as 0.
   */
  function GetEarnings(rides: Table<Ride>, driverId: Id, isToday: Ride -> bool): (e: Earnings)
    ensures e.totalRides == Count(rides, CompletedBy(driverId))
    ensures e.ridesToday == Count(rides, CompletedToday(driverId, isToday))
    ensures e.ridesToday <= e.totalRides
    ensures e.totalEarnings == SumOver(rides.rows, Select(rides, CompletedBy(driverId)), Earned)
    ensures e.earningsToday == SumOver(rides.rows, Select(rides, CompletedToday(driverId, isToday)), Earned)
    ensures e.totalRides == 0 ==> e.totalEarnings == 0.0 && e.avgFare == 0.0
    ensures e.totalRides > 0 ==> e.avgFare == Mean(e.totalEarnings, e.totalRides)
    ensures (forall id :: id in rides.rows && CompletedBy(driverId)(rides.rows[id]) ==> Earned(rides.rows[id]) >= 0.0) ==>
      e.earningsToday <= e.totalEarnings
  {
    var all := Select(rides, CompletedBy(driverId));
    var today := Select(rides, CompletedToday(driverId, isToday));
    CountMonotone(rides, CompletedToday(driverId, isToday), CompletedBy(driverId));
    EarningsTodayBound(rides, driverId, isToday);
    var total := SumOver(rides.rows, all, Earned);
    Earnings(|all|, total, if all == [] then 0.0 else Mean(total, |all|), |today|, SumOver(rides.rows, today, Earned))
  }

  /** `total / n` for a positive count `n`. */
  function Mean(total: real, n: nat): (m: real)
    requires n > 0
    ensures m * (n as real) == total
  {
    total / n as real
  }

  /** Today's earnings are part of the total when no completed ride earned a negative amount. */
  lemma EarningsTodayBound(rides: Table<Ride>, driverId: Id, isToday: Ride -> bool)
    ensures (forall id :: id in rides.rows && CompletedBy(driverId)(rides.rows[id]) ==> Earned(rides.rows[id]) >= 0.0) ==>
      SumOver(rides.rows, Select(rides, CompletedToday(driverId, isToday)), Earned)
        <= SumOver(rides.rows, Select(rides, CompletedBy(driverId)), Earned)
  {
    if forall id :: id in rides.rows && CompletedBy(driverId)(rides.rows[id]) ==> Earned(rides.rows[id]) >= 0.0 {
      SumMonotone(rides, CompletedBy(driverId), CompletedToday(driverId, isToday), Earned);
    }
  }

  /** getRideHistory filter: rides of this driver whose rider still exists (inner join on users). */
  function DrivenBy(users: Table<User>, driverId: Id): Ride -> bool {
    (r: Ride) => r.driverId == Some(driverId) && r.userId in users.rows
  }

  /** getRideHistory: the driver's 50 newest rides. */
  function RideHistory(users: Table<User>, rides: Table<Ride>, driverId: Id): (ids: seq<Id>)
    ensures |ids| <= 50
    ensures forall i :: 0 <= i < |ids| ==> ids[i] in rides.rows && rides.rows[ids[i]].driverId == Some(driverId)
    ensures forall i, j :: 0 <= i < j < |ids| ==> ids[i] > ids[j]
    ensures rides.Valid() ==> forall id :: id in rides.rows && DrivenBy(users, driverId)(rides.rows[id]) && id !in ids ==>
      |ids| == 50 && forall i :: 0 <= i < |ids| ==> id < ids[i]
  {
    var ids := Newest(rides, DrivenBy(users, driverId), 50);
    assert forall i :: 0 <= i < |ids| ==> DrivenBy(users, driverId)(rides.rows[ids[i]]);
    ids
  }
}
