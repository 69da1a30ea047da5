/** The client-side fare estimate and address shortening. */
module Maps {
  import opened Wrappers
  import opened Text
  import RideController

  /** calculateFare: the estimate shown before booking, a base fare plus a rate per kilometre. */
  function CalculateFare(distanceInKm: real): (fare: real)
    ensures distanceInKm >= 0.0 ==> fare >= 15.0
    ensures distanceInKm > 0.0 ==> fare > 15.0
  {
    15.0 + distanceInKm * 8.0
  }

  /** A trip of no distance costs exactly the base fare. */
  lemma FareOfNoDistance()
    ensures CalculateFare(0.0) == 15.0
  {
  }

  /** A longer trip always costs more. */
  lemma FareIncreasing(a: real, b: real)
    requires a < b
    ensures CalculateFare(a) < CalculateFare(b)
  {
  }

  /** The estimate the client shows is the fare the server stores for the same distance. */
  lemma FareMatchesServer(distance: real)
    ensures CalculateFare(distance) == RideController.CalculateFare(distance)
  {
  }

  /** formatAddress: the first two comma-separated parts of the address; '' for a missing or empty one. */
  function FormatAddress(address: Option<string>): (r: string)
    ensures address.None? || address.value == "" ==> r == ""
    ensures address.Some? ==> r <= address.value
    ensures Occurrences(r, ',') <= 1
    ensures address.Some? && address.value != "" ==> Split(r, ',') == Take(Split(address.value, ','), 2)
  {
    if address.None? || address.value == "" then ""
    else
      var parts := Split(address.value, ',');
      var kept := Take(parts, 2);
      JoinPrefix(parts, |kept|, ',');
      JoinSplit(address.value, ',');
      JoinOccurrences(kept, ',');
      SplitJoin(kept, ',');
      Join(kept, ',')
  }

  /** Shortening an already shortened address changes nothing. */
  lemma {:induction false} FormatAddressIdempotent(address: Option<string>)
    ensures FormatAddress(Some(FormatAddress(address))) == FormatAddress(address)
  {
    var r := FormatAddress(address);
    if r != "" {
      var parts := Split(address.value, ',');
      var kept := Take(parts, 2);
      assert Split(r, ',') == kept;
      assert Take(kept, 2) == kept;
      JoinSplit(r, ',');
    }
  }
}
