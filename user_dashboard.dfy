/**
 * The rider's dashboard: the booking form filled from the map, the fare
 * estimate, the booking request, the current ride card and its cancel
 * button. The requests the dashboard sends are the backend handlers they
 * reach, called on the same database.
 */
module UserDashboard {
  import opened Wrappers
  import opened Tables
  import opened Schema
  import Maps
  import RideController

  /** The booking form as first shown and after each successful booking. */
  const InitialTrip := Trip("", None, None, "", None, None, 0.0)

  /** What the map reports: a place (address and position) or a route (its length in km). */
  datatype Selected = Selected(address: string, lat: Option<real>, lng: Option<real>, distance: real)

  /** handleLocationSelect on the form's data: pickup, dropoff or route; any other kind changes nothing. */
  function AfterSelect(data: Trip, kind: string, s: Selected): (r: Trip)
    ensures kind == "pickup" ==> r == data.(pickupLocation := s.address, pickupLatitude := s.lat, pickupLongitude := s.lng)
    ensures kind == "dropoff" ==> r == data.(dropoffLocation := s.address, dropoffLatitude := s.lat, dropoffLongitude := s.lng)
    ensures kind == "route" ==> r == data.(distance := s.distance)
    ensures kind != "pickup" ==>
      (r.pickupLocation, r.pickupLatitude, r.pickupLongitude) == (data.pickupLocation, data.pickupLatitude, data.pickupLongitude)
    ensures kind != "dropoff" ==>
      (r.dropoffLocation, r.dropoffLatitude, r.dropoffLongitude) == (data.dropoffLocation, data.dropoffLatitude, data.dropoffLongitude)
    ensures kind != "route" ==> r.distance == data.distance
  {
    if kind == "pickup" then data.(pickupLocation := s.address, pickupLatitude := s.lat, pickupLongitude := s.lng)
    else if kind == "dropoff" then data.(dropoffLocation := s.address, dropoffLatitude := s.lat, dropoffLongitude := s.lng)
    else if kind == "route" then data.(distance := s.distance)
    else data
  }

  /** Selecting the pickup, the dropoff and the route, in any order, fills the three parts independently. */
  lemma SelectionsCommute(data: Trip, p: Selected, d: Selected)
    ensures AfterSelect(AfterSelect(data, "pickup", p), "dropoff", d)
         == AfterSelect(AfterSelect(data, "dropoff", d), "pickup", p)
  {
  }

  /** JavaScript truthiness of a coordinate: present and not 0. */
  predicate Truthy(x: Option<real>) {
    x.Some? && x.value != 0.0
  }

  /** The estimate shown under the form: the fare of the route, or 0 while there is none. */
  function EstimatedFare(distance: real): (fare: real)
    ensures distance > 0.0 ==> fare == RideController.CalculateFare(distance) && fare > 15.0
    ensures distance <= 0.0 ==> fare == 0.0
  {
    Maps.FareMatchesServer(distance);
    if distance > 0.0 then Maps.CalculateFare(distance) else 0.0
  }

  /** Why a booking was not sent, or that it was. */
  datatype Booking = Refused(message: string) | Booked(rideId: Id)

  const SelectBoth := "Please select both pickup and dropoff locations on the map"
  const NoDistance := "Distance calculation failed. Please reselect locations."

  /** The check before a booking is sent: both latitudes truthy, then a non-zero distance. */
  function Validate(data: Trip): (r: Option<string>)
    ensures r == Some(SelectBoth) <==> !Truthy(data.pickupLatitude) || !Truthy(data.dropoffLatitude)
    ensures r == Some(NoDistance) <==> Truthy(data.pickupLatitude) && Truthy(data.dropoffLatitude) && data.distance == 0.0
    ensures r.None? <==> Truthy(data.pickupLatitude) && Truthy(data.dropoffLatitude) && data.distance != 0.0
  {
    if !Truthy(data.pickupLatitude) || !Truthy(data.dropoffLatitude) then Some(SelectBoth)
    else if data.distance == 0.0 then Some(NoDistance)
    else None
  }

  /** The ride shown on the current ride card, with its id. */
  datatype Shown = Shown(id: Id, ride: Ride)

  /** The cancel button is shown only for a ride that is still pending. */
  predicate CancelOffered(current: Option<Shown>) {
    current.Some? && current.value.ride.status == Pending
  }

  /** The card shows the rider's own ride exactly as the server holds it. */
  predicate UpToDate(rides: Table<Ride>, current: Option<Shown>, userId: Id) {
    current.Some? && current.value.id in rides.rows && rides.rows[current.value.id] == current.value.ride
    && current.value.ride.userId == userId
  }

  predicate CancelledIn(rides: Table<Ride>, id: Id) {
    id in rides.rows && rides.rows[id].status == Cancelled
  }

  /** The dashboard's own state. */
  class Dashboard {
    var data: Trip
    var showBooking: bool
    var current: Option<Shown>

    constructor ()
      ensures data == InitialTrip && !showBooking && current.None?
    {
      data, showBooking, current := InitialTrip, false, None;
    }

    /** fetchCurrentRide: the rider's newest active ride as the server reports it. */
    method FetchCurrentRide(db: Database, userId: Id)
      modifies this
      ensures current.Some? ==>
        && current.value.id in db.rides.rows && db.rides.rows[current.value.id] == current.value.ride
        && current.value.ride.userId == userId
      ensures current.None? <==> RideController.CurrentRide(db.rides, userId).None?
      ensures current.Some? ==> current.value.id == RideController.CurrentRide(db.rides, userId).value
      ensures data == old(data) && showBooking == old(showBooking)
    {
      var id := RideController.CurrentRide(db.rides, userId);
      if id.Some? {
        current := Some(Shown(id.value, db.rides.rows[id.value]));
      } else {
        current := None;
      }
    }

    /** handleLocationSelect. */
    method HandleLocationSelect(kind: string, s: Selected)
      modifies this
      ensures data == AfterSelect(old(data), kind, s)
      ensures showBooking == old(showBooking) && current == old(current)
    {
      if kind == "pickup" {
        data := data.(pickupLocation := s.address, pickupLatitude := s.lat, pickupLongitude := s.lng);
      } else if kind == "dropoff" {
        data := data.(dropoffLocation := s.address, dropoffLatitude := s.lat, dropoffLongitude := s.lng);
      } else if kind == "route" {
        data := data.(distance := s.distance);
      }
    }

    /**
     * handleBookRide: a form that fails the check sends nothing; otherwise
     * the ride is created from the form, the form closes and is reset, and
     * the current ride is fetched again.
     */
    method HandleBookRide(db: Database, userId: Id) returns (b: Booking)
      requires db.Valid()
      modifies this, db
      ensures db.Valid()
      ensures b.Refused? <==> Validate(old(data)).Some?
      ensures b.Refused? ==> b.message == Validate(old(data)).value && unchanged(db) && unchanged(this)
      ensures b.Booked? ==>
        && db.rides == old(db.rides).Insert(RideController.NewRide(userId, old(data)))
        && b.rideId == old(db.rides.next)
        && data == InitialTrip && !showBooking
        && current == Some(Shown(b.rideId, db.rides.rows[b.rideId]))
        && (old(data).distance > 0.0 ==> db.rides.rows[b.rideId].estimatedFare == EstimatedFare(old(data).distance))
      ensures db.users == old(db.users) && db.drivers == old(db.drivers)
      ensures db.admins == old(db.admins) && db.transactions == old(db.transactions)
    {
      if !Truthy(data.pickupLatitude) || !Truthy(data.dropoffLatitude) {
        return Refused(SelectBoth);
      }
      if data.distance == 0.0 {
        return Refused(NoDistance);
      }
      var _, receipt := RideController.CreateRide(db, userId, data);
      b := Booked(receipt.id);
      showBooking := false;
      FetchCurrentRide(db, userId);
      data := InitialTrip;
    }

    /**
     * handleCancelRide behind the card's button: with confirmation, the
     * cancel request for the ride on the card. A button shown for a card
     * that is up to date is always accepted by the server.
     */
    method HandleCancelRide(db: Database, userId: Id, confirmed: bool) returns (code: Option<nat>)
      requires db.Valid() && CancelOffered(current)
      modifies this, db
      ensures db.Valid()
      ensures !confirmed <==> code.None?
      ensures code.None? ==> unchanged(db) && unchanged(this)
      ensures confirmed && old(UpToDate(db.rides, current, userId)) ==>
        code == Some(200) && CancelledIn(db.rides, old(current.value.id))
      ensures code.Some? && code.value != 200 ==> unchanged(db) && current == old(current)
      ensures code == Some(200) ==>
        old(current.value.id) in old(db.rides.rows) && old(db.rides.rows[current.value.id].userId) == userId
      ensures code == Some(200) ==>
        var r := old(db.rides.rows[current.value.id]);
        && db.rides.rows == old(db.rides.rows)[old(current.value.id) := r.(status := Cancelled)]
        && db.drivers == (if HasDriver(r) then SetAvailable(old(db.drivers), r.driverId.value, true) else old(db.drivers))
      ensures code == Some(200) ==>
        && (current.None? <==> RideController.CurrentRide(db.rides, userId).None?)
        && (current.Some? ==> current.value.id == RideController.CurrentRide(db.rides, userId).value
                              && db.rides.rows[current.value.id] == current.value.ride)
      ensures db.rides.next == old(db.rides.next)
      ensures db.users == old(db.users) && db.admins == old(db.admins) && db.transactions == old(db.transactions)
      ensures data == old(data) && showBooking == old(showBooking)
    {
      if !confirmed {
        return None;
      }
      var c := RideController.CancelRide(db, userId, current.value.id);
      code := Some(c);
      if c == 200 {
        FetchCurrentRide(db, userId);
      }
    }
  }
}
