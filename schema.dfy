/**
 * The rows of the backend's tables (users, drivers, rides, admins,
 * transactions) and the database object the request handlers read and write.
 */
module Schema {
  import opened Wrappers
  import opened Tables

  /** A rider account; `password` holds the bcrypt hash, never the plaintext. */
  datatype User = User(name: string, email: string, phone: string, password: string)

  /** A driver account with its vehicle, approval status and live state. */
  datatype Driver = Driver(
    name: string, email: string, phone: string, password: string,
    licenseNumber: string, vehicleType: string, vehicleModel: string,
    vehiclePlate: string, vehicleColor: string,
    status: string, isAvailable: bool, rating: real, totalRides: int,
    latitude: Option<real>, longitude: Option<real>)

  /** An administrator account; `password` holds the bcrypt hash. */
  datatype Admin = Admin(name: string, email: string, password: string, role: string)

  /** What a rider asks for: the request body of ride creation and the booking form's data. */
  datatype Trip = Trip(
    pickupLocation: string, pickupLatitude: Option<real>, pickupLongitude: Option<real>,
    dropoffLocation: string, dropoffLatitude: Option<real>, dropoffLongitude: Option<real>,
    distance: real)

  /** A ride request and its progress; `driverId` is NULL until a driver accepts it. */
  datatype Ride = Ride(
    userId: Id, driverId: Option<Id>, trip: Trip,
    estimatedFare: real, finalFare: Option<real>, status: string,
    rating: Option<real>, feedback: Option<string>)

  /** A row of the transactions table. */
  datatype Transaction = Transaction(rideId: Id, amount: real, kind: string, description: string)

  /** The payload signed into a JWT: the account id and the account type. */
  datatype Claims = Claims(id: Id, kind: string)

  const Pending := "pending"
  const Accepted := "accepted"
  const PickedUp := "picked_up"
  const Completed := "completed"
  const Cancelled := "cancelled"

  const Approved := "approved"
  const Rejected := "rejected"
  const Suspended := "suspended"

  const DriverEarning := "driver_earning"
  const EarningDescription := "Driver earning for completed ride"

  /** The JavaScript truth value of a ride's `driver_id`: present and not 0. */
  predicate HasDriver(r: Ride) {
    r.driverId.Some? && r.driverId.value != 0
  }

  /** No two users share an email or a phone number. */
  ghost predicate UniqueUsers(users: Table<User>) {
    forall a, b :: a in users.rows && b in users.rows && a != b ==>
      users.rows[a].email != users.rows[b].email && users.rows[a].phone != users.rows[b].phone
  }

  /** No two drivers share an email, phone number, licence number or vehicle plate. */
  ghost predicate UniqueDrivers(drivers: Table<Driver>) {
    forall a, b :: a in drivers.rows && b in drivers.rows && a != b ==>
      var x, y := drivers.rows[a], drivers.rows[b];
      x.email != y.email && x.phone != y.phone &&
      x.licenseNumber != y.licenseNumber && x.vehiclePlate != y.vehiclePlate
  }

  /** No two administrators share an email. */
  ghost predicate UniqueAdmins(admins: Table<Admin>) {
    forall a, b :: a in admins.rows && b in admins.rows && a != b ==> admins.rows[a].email != admins.rows[b].email
  }

  /** A ride without a driver is still waiting or was cancelled. */
  ghost predicate UnassignedRidesWaiting(rides: Table<Ride>) {
    forall id :: id in rides.rows && rides.rows[id].driverId.None? ==>
      rides.rows[id].status == Pending || rides.rows[id].status == Cancelled
  }

  /** Every transaction refers to a ride of the rides table. */
  ghost predicate TransactionsForKnownRides(transactions: seq<Transaction>, rides: Table<Ride>) {
    forall i :: 0 <= i < |transactions| ==> transactions[i].rideId in rides.rows
  }

  /** A driver row with `is_available` set to the given value (no-op for an unknown id). */
  function SetAvailable(drivers: Table<Driver>, id: Id, available: bool): (t: Table<Driver>)
    ensures t.next == drivers.next && t.rows.Keys == drivers.rows.Keys
    ensures id in drivers.rows ==> t.rows[id] == drivers.rows[id].(isAvailable := available)
    ensures forall k :: k in drivers.rows && k != id ==> t.rows[k] == drivers.rows[k]
  {
    if id in drivers.rows then drivers.Update(id, drivers.rows[id].(isAvailable := available)) else drivers
  }

  /** The database the request handlers share. */
  class Database {
    var users: Table<User>
    var drivers: Table<Driver>
    var rides: Table<Ride>
    var admins: Table<Admin>
    var transactions: seq<Transaction>

    ghost predicate Valid()
      reads this
    {
      && users.Valid() && drivers.Valid() && rides.Valid() && admins.Valid()
      && UniqueUsers(users) && UniqueDrivers(drivers) && UniqueAdmins(admins)
      && UnassignedRidesWaiting(rides)
      && TransactionsForKnownRides(transactions, rides)
    }

    /** An empty database. */
    constructor ()
      ensures Valid()
      ensures users.rows == map[] && drivers.rows == map[] && rides.rows == map[] && admins.rows == map[]
      ensures transactions == []
    {
      users, drivers, rides, admins := Empty(), Empty(), Empty(), Empty();
      transactions := [];
    }
  }
}
