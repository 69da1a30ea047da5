/**
 * The ride request handlers: a rider books, a driver accepts and moves the
 * ride along, the rider cancels or rates it, and the read-only ride lookups.
 * Each writing handler is a method on the shared `Database`; the status code
 * it returns is the HTTP status of the response.
 */
module RideController {
  import opened Wrappers
  import opened Tables
  import opened Schema

  const BaseFare: real := 15.0
  const PerKm: real := 8.0

  /** The fare of a trip of `distance` kilometres: a base fare plus a rate per kilometre. */
  function CalculateFare(distance: real): (fare: real)
    ensures distance >= 0.0 ==> fare >= BaseFare
    ensures distance > 0.0 ==> fare > BaseFare
  {
    BaseFare + distance * PerKm
  }

  /** The row a new ride request inserts: no driver yet, status `pending`. */
  function NewRide(userId: Id, trip: Trip): Ride {
    Ride(userId, None, trip, CalculateFare(trip.distance), None, Pending, None, None)
  }

  /** The `ride` object of the creation response. */
  datatype RideReceipt = RideReceipt(
    id: Id, pickupLocation: string, dropoffLocation: string, estimatedFare: real, status: string)

  /** The driver row after a completed trip: available again, one more ride. */
  function CompleteTrip(drivers: Table<Driver>, id: Id): (t: Table<Driver>)
    ensures t.next == drivers.next && t.rows.Keys == drivers.rows.Keys
    ensures id in drivers.rows ==>
      t.rows[id] == drivers.rows[id].(isAvailable := true, totalRides := drivers.rows[id].totalRides + 1)
    ensures forall k :: k in drivers.rows && k != id ==> t.rows[k] == drivers.rows[k]
  {
    if id in drivers.rows then
      var d := drivers.rows[id];
      drivers.Update(id, d.(isAvailable := true, totalRides := d.totalRides + 1))
    else drivers
  }

  /** The driver row with its rating replaced (no-op for an unknown id). */
  function SetRating(drivers: Table<Driver>, id: Id, rating: real): (t: Table<Driver>)
    ensures t.next == drivers.next && t.rows.Keys == drivers.rows.Keys
    ensures id in drivers.rows ==> t.rows[id] == drivers.rows[id].(rating := rating)
    ensures forall k :: k in drivers.rows && k != id ==> t.rows[k] == drivers.rows[k]
  {
    if id in drivers.rows then drivers.Update(id, drivers.rows[id].(rating := rating)) else drivers
  }

  /** A driver update that leaves every email, phone, licence and plate as it was keeps them unique. */
  lemma IdentitiesKept(before: Table<Driver>, after: Table<Driver>)
    requires UniqueDrivers(before)
    requires after.rows.Keys == before.rows.Keys
    requires forall k :: k in before.rows ==>
      var x, y := before.rows[k], after.rows[k];
      x.email == y.email && x.phone == y.phone &&
      x.licenseNumber == y.licenseNumber && x.vehiclePlate == y.vehiclePlate
    ensures UniqueDrivers(after)
  {
  }

  /** createRide: stores a pending request priced by `CalculateFare` and reports it. */
  method CreateRide(db: Database, userId: Id, trip: Trip) returns (code: nat, receipt: RideReceipt)
    requires db.Valid()
    modifies db
    ensures db.Valid()
    ensures code == 201
    ensures db.rides == old(db.rides).Insert(NewRide(userId, trip))
    ensures receipt == RideReceipt(old(db.rides.next), trip.pickupLocation, trip.dropoffLocation,
                                   CalculateFare(trip.distance), Pending)
    ensures receipt.id !in old(db.rides.rows) && db.rides.rows[receipt.id].estimatedFare == receipt.estimatedFare
    ensures db.users == old(db.users) && db.drivers == old(db.drivers)
    ensures db.admins == old(db.admins) && db.transactions == old(db.transactions)
  {
    var estimatedFare := CalculateFare(trip.distance);
    var id := db.rides.next;
    db.rides := db.rides.Insert(NewRide(userId, trip));
    code := 201;
    receipt := RideReceipt(id, trip.pickupLocation, trip.dropoffLocation, estimatedFare, Pending);
  }

  /** acceptRide: a driver takes a ride that is still pending. */
  method AcceptRide(db: Database, driverId: Id, rideId: Id) returns (code: nat)
    requires db.Valid()
    modifies db
    ensures db.Valid()
    ensures rideId !in old(db.rides.rows) ==> code == 404
    ensures rideId in old(db.rides.rows) && old(db.rides.rows[rideId].status) != Pending ==> code == 400
    ensures code == 200 <==> rideId in old(db.rides.rows) && old(db.rides.rows[rideId].status) == Pending
    ensures code != 200 ==> unchanged(db)
    ensures code == 200 ==>
      && db.rides.rows == old(db.rides.rows)[rideId := old(db.rides.rows[rideId]).(driverId := Some(driverId), status := Accepted)]
      && db.drivers == SetAvailable(old(db.drivers), driverId, false)
    ensures db.rides.next == old(db.rides.next)
    ensures db.users == old(db.users) && db.admins == old(db.admins) && db.transactions == old(db.transactions)
  {
    if rideId !in db.rides.rows {
      return 404;
    }
    var ride := db.rides.rows[rideId];
    if ride.status != Pending {
      return 400;
    }
    db.rides := db.rides.Update(rideId, ride.(driverId := Some(driverId), status := Accepted));
    var before := db.drivers;
    db.drivers := SetAvailable(db.drivers, driverId, false);
    IdentitiesKept(before, db.drivers);
    code := 200;
  }

  /**
   * updateRideStatus: the ride's driver writes any status; the current
   * status is not consulted. Completing a ride also frees the driver, counts
   * the trip, records the driver's earning and fixes the final fare.
   */
  method UpdateRideStatus(db: Database, driverId: Id, rideId: Id, status: string) returns (code: nat)
    requires db.Valid()
    modifies db
    ensures db.Valid()
    ensures code == 200 <==> rideId in old(db.rides.rows) && old(db.rides.rows[rideId].driverId) == Some(driverId)
    ensures code != 200 ==> code == 404 && unchanged(db)
    ensures code == 200 && status != Completed ==>
      && db.rides.rows == old(db.rides.rows)[rideId := old(db.rides.rows[rideId]).(status := status)]
      && db.drivers == old(db.drivers) && db.transactions == old(db.transactions)
    ensures code == 200 && status == Completed ==>
      var r := old(db.rides.rows[rideId]);
      && db.rides.rows == old(db.rides.rows)[rideId := r.(status := Completed, finalFare := Some(r.estimatedFare))]
      && db.drivers == CompleteTrip(old(db.drivers), driverId)
      && db.transactions == old(db.transactions) + [Transaction(rideId, r.estimatedFare, DriverEarning, EarningDescription)]
    ensures db.rides.next == old(db.rides.next)
    ensures db.users == old(db.users) && db.admins == old(db.admins)
  {
    if !(rideId in db.rides.rows && db.rides.rows[rideId].driverId == Some(driverId)) {
      return 404;
    }
    var ride := db.rides.rows[rideId];
    db.rides := db.rides.Update(rideId, ride.(status := status));
    if status == Completed {
      var fare := ride.estimatedFare;
      var before := db.drivers;
      db.drivers := CompleteTrip(db.drivers, driverId);
      IdentitiesKept(before, db.drivers);
      db.transactions := db.transactions + [Transaction(rideId, fare, DriverEarning, EarningDescription)];
      db.rides := db.rides.Update(rideId, db.rides.rows[rideId].(finalFare := Some(fare)));
    }
    code := 200;
  }

  /** cancelRide: the rider cancels any of their rides that is not completed, freeing its driver. */
  method CancelRide(db: Database, userId: Id, rideId: Id) returns (code: nat)
    requires db.Valid()
    modifies db
    ensures db.Valid()
    ensures code == 404 <==> !(rideId in old(db.rides.rows) && old(db.rides.rows[rideId].userId) == userId)
    ensures code == 400 <==>
      rideId in old(db.rides.rows) && old(db.rides.rows[rideId].userId) == userId
      && old(db.rides.rows[rideId].status) == Completed
    ensures code != 200 ==> (code == 400 || code == 404) && unchanged(db)
    ensures code == 200 ==>
      var r := old(db.rides.rows[rideId]);
      && db.rides.rows == old(db.rides.rows)[rideId := r.(status := Cancelled)]
      && db.drivers == (if HasDriver(r) then SetAvailable(old(db.drivers), r.driverId.value, true) else old(db.drivers))
    ensures db.rides.next == old(db.rides.next)
    ensures db.users == old(db.users) && db.admins == old(db.admins) && db.transactions == old(db.transactions)
  {
    if !(rideId in db.rides.rows && db.rides.rows[rideId].userId == userId) {
      return 404;
    }
    var ride := db.rides.rows[rideId];
    if ride.status == Completed {
      return 400;
    }
    db.rides := db.rides.Update(rideId, ride.(status := Cancelled));
    if HasDriver(ride) {
      var before := db.drivers;
      db.drivers := SetAvailable(db.drivers, ride.driverId.value, true);
      IdentitiesKept(before, db.drivers);
    }
    code := 200;
  }

  /** Rides of driver `d` that carry a rating (`driver_id = d AND rating IS NOT NULL`). */
  function RatedRideOf(d: Id): Ride -> bool {
    (r: Ride) => r.driverId == Some(d) && r.rating.Some?
  }

  function RatingOf(r: Ride): real {
    r.rating.GetOr(0.0)
  }

  /** `AVG(rating) || 5` over the rated rides of driver `d`: a missing or zero mean becomes 5. */
  function DriverRating(rides: Table<Ride>, d: Id): real {
    var ids := Select(rides, RatedRideOf(d));
    if ids == [] then 5.0
    else
      var mean := SumOver(rides.rows, ids, RatingOf) / |ids| as real;
      if mean == 0.0 then 5.0 else mean
  }

  /** When every rating given to a driver is between 1 and 5 stars, so is the driver's rating. */
  lemma RatingWithinStars(rides: Table<Ride>, d: Id)
    requires forall id :: id in rides.rows && RatedRideOf(d)(rides.rows[id]) ==>
      1.0 <= rides.rows[id].rating.value <= 5.0
    ensures 1.0 <= DriverRating(rides, d) <= 5.0
  {
    var ids := Select(rides, RatedRideOf(d));
    if ids != [] {
      forall i | 0 <= i < |ids|
        ensures 1.0 <= RatingOf(rides.rows[ids[i]]) <= 5.0
      {
        assert RatedRideOf(d)(rides.rows[ids[i]]);
      }
      SumOverBounds(rides.rows, ids, RatingOf, 1.0, 5.0);
      MeanBounds(SumOver(rides.rows, ids, RatingOf), |ids| as real, 1.0, 5.0);
    }
  }

  /** A total between `n·lo` and `n·hi` has its mean between `lo` and `hi`. */
  lemma MeanBounds(sum: real, n: real, lo: real, hi: real)
    requires n > 0.0 && n * lo <= sum <= n * hi
    ensures lo <= sum / n <= hi
  {
    var m := sum / n;
    assert sum == m * n;
  }

  /**
   * rateRide: the rider rates their own completed ride; the driver's rating
   * becomes the mean over all of that driver's rated rides.
   */
  method RateRide(db: Database, userId: Id, rideId: Id, rating: Option<real>, feedback: Option<string>)
    returns (code: nat)
    requires db.Valid()
    modifies db
    ensures db.Valid()
    ensures code == 200 <==>
      rideId in old(db.rides.rows) && old(db.rides.rows[rideId].userId) == userId
      && old(db.rides.rows[rideId].status) == Completed
    ensures code != 200 ==> code == 404 && unchanged(db)
    ensures code == 200 ==>
      var r := old(db.rides.rows[rideId]);
      && db.rides.rows == old(db.rides.rows)[rideId := r.(rating := rating, feedback := feedback)]
      && (r.driverId.Some? ==> db.drivers == SetRating(old(db.drivers), r.driverId.value, DriverRating(db.rides, r.driverId.value)))
      && (r.driverId.None? ==> db.drivers == old(db.drivers))
    ensures db.rides.next == old(db.rides.next)
    ensures db.users == old(db.users) && db.admins == old(db.admins) && db.transactions == old(db.transactions)
  {
    if !(rideId in db.rides.rows && db.rides.rows[rideId].userId == userId && db.rides.rows[rideId].status == Completed) {
      return 404;
    }
    var ride := db.rides.rows[rideId];
    db.rides := db.rides.Update(rideId, ride.(rating := rating, feedback := feedback));
    if ride.driverId.Some? {
      var d := ride.driverId.value;
      var before := db.drivers;
      db.drivers := SetRating(db.drivers, d, DriverRating(db.rides, d));
      IdentitiesKept(before, db.drivers);
    }
    code := 200;
  }

  /** getAvailableRides filter: pending rides whose rider still exists (inner join on users). */
  function OpenRequest(users: Table<User>): Ride -> bool {
    (r: Ride) => r.status == Pending && r.userId in users.rows
  }

  /** getAvailableRides: the 20 newest pending requests. */
  function AvailableRides(users: Table<User>, rides: Table<Ride>): (ids: seq<Id>)
    ensures |ids| <= 20
    ensures forall i :: 0 <= i < |ids| ==>
      ids[i] in rides.rows && rides.rows[ids[i]].status == Pending && rides.rows[ids[i]].userId in users.rows
    ensures forall i, j :: 0 <= i < j < |ids| ==> ids[i] > ids[j]
    ensures rides.Valid() ==> forall id :: id in rides.rows && OpenRequest(users)(rides.rows[id]) && id !in ids ==>
      |ids| == 20 && forall i :: 0 <= i < |ids| ==> id < ids[i]
  {
    var ids := Newest(rides, OpenRequest(users), 20);
    assert forall i :: 0 <= i < |ids| ==> OpenRequest(users)(rides.rows[ids[i]]);
    ids
  }

  /** getCurrentRide filter: the rider's ride that is pending, accepted or picked up. */
  function ActiveRideOf(userId: Id): Ride -> bool {
    (r: Ride) => r.userId == userId && (r.status == Pending || r.status == Accepted || r.status == PickedUp)
  }

  /** getCurrentRide: the rider's newest active ride, or null. */
  function CurrentRide(rides: Table<Ride>, userId: Id): (r: Option<Id>)
    ensures r.Some? ==> r.value in rides.rows && rides.rows[r.value].userId == userId
    ensures r.Some? ==> rides.rows[r.value].status in {Pending, Accepted, PickedUp}
    ensures rides.Valid() && r.Some? ==> forall id :: id in rides.rows && ActiveRideOf(userId)(rides.rows[id]) ==> id <= r.value
    ensures rides.Valid() && r.None? ==> forall id :: id in rides.rows && rides.rows[id].userId == userId ==>
      rides.rows[id].status !in {Pending, Accepted, PickedUp}
  {
    var r := Latest(rides, ActiveRideOf(userId));
    assert r.Some? ==> ActiveRideOf(userId)(rides.rows[r.value]);
    assert rides.Valid() && r.None? ==> forall id :: id in rides.rows ==> !ActiveRideOf(userId)(rides.rows[id]);
    r
  }

  /** getDriverCurrentRide filter: the driver's accepted or picked-up ride whose rider still exists. */
  function DrivingNow(users: Table<User>, driverId: Id): Ride -> bool {
    (r: Ride) => r.driverId == Some(driverId) && (r.status == Accepted || r.status == PickedUp) && r.userId in users.rows
  }

  /** getDriverCurrentRide: the driver's newest ride in progress, or null. */
  function DriverCurrentRide(users: Table<User>, rides: Table<Ride>, driverId: Id): (r: Option<Id>)
    ensures r.Some? ==> r.value in rides.rows && rides.rows[r.value].driverId == Some(driverId)
    ensures r.Some? ==> rides.rows[r.value].status in {Accepted, PickedUp} && rides.rows[r.value].userId in users.rows
    ensures rides.Valid() && r.Some? ==> forall id :: id in rides.rows && DrivingNow(users, driverId)(rides.rows[id]) ==> id <= r.value
    ensures rides.Valid() && r.None? ==> forall id :: id in rides.rows ==> !DrivingNow(users, driverId)(rides.rows[id])
  {
    var r := Latest(rides, DrivingNow(users, driverId));
    assert r.Some? ==> DrivingNow(users, driverId)(rides.rows[r.value]);
    r
  }
}
