/** The AFL merged venue (afl/combined/afl_combined_venue_model.py): the
    identifier and name of the first source venue, and an address that is
    the first one present, falling back to a geocoder lookup, computed on
    first read and cached. The object is modelled as a value; a read
    returns the answer together with the object as it is afterwards. */
module AflVenue {
  import opened Wrappers
  import opened Models
  import Fold
  import CombinedVenue

  /** `GoogleAddressModel(query, session, dt)`: the geocoder, not part of
      this model; the session and time are fixed in the function given. */
  type Geocoder = string -> Address

  /** The merged venue: its source venues in priority order and the
      cached address (`_address`). */
  datatype AflVenue = AflVenue(venues: seq<Venue>, cached: Option<Address>)

  /** `AFLCombinedVenueModel.__init__`: the venues are kept in priority
      order and nothing is cached yet. */
  function Create(venues: seq<Venue>): (m: AflVenue)
    ensures m.venues == venues && m.cached.None?
  {
    AflVenue(venues, None)
  }

  /** The `identifier` property: the first venue's identifier; reading it
      with no venues fails on `_venue_models[0]`. */
  function Identifier(m: AflVenue): (r: Result<string, Error>)
    ensures r.Failure? <==> |m.venues| == 0
    ensures r.Failure? ==> r.error == IndexError
    ensures r.Success? ==> r.value == m.venues[0].identifier
  {
    if |m.venues| == 0 then Failure(IndexError) else Success(m.venues[0].identifier)
  }

  /** The `name` property, likewise from the first venue. */
  function Name(m: AflVenue): (r: Result<string, Error>)
    ensures r.Failure? <==> |m.venues| == 0
    ensures r.Failure? ==> r.error == IndexError
    ensures r.Success? ==> r.value == m.venues[0].name
  {
    if |m.venues| == 0 then Failure(IndexError) else Success(m.venues[0].name)
  }

  /** The query sent to the geocoder: the venue name followed by
      `" - Australia"`. */
  function GeocoderQuery(name: string): (q: string)
    ensures |q| == |name| + 12 && q[..|name|] == name
    ensures q[|name|..] == " - Australia"
  {
    name + " - Australia"
  }

  /** The `address` property. A cached address is returned as it is.
      Otherwise the first present source address is taken; when there is
      none, the geocoder is asked about the venue's name (which fails when
      there are no venues at all). A successful read caches its answer. */
  function ReadAddress(m: AflVenue, geocode: Geocoder): (r: (Result<Address, Error>, AflVenue))
    ensures m.cached.Some? ==> r.0 == Success(m.cached.value)
    ensures m.cached.None? ==> (r.0.Failure? <==> |m.venues| == 0)
    ensures r.0.Failure? ==> r.0.error == IndexError && r.1 == m
    ensures r.0.Success? ==> r.1 == m.(cached := Some(r.0.value))
    ensures m.cached.None? && r.0.Success? && Fold.FirstPresent(CombinedVenue.AddressesOf(m.venues)).Some? ==>
              Fold.IsFirstPresent(CombinedVenue.AddressesOf(m.venues), Some(r.0.value))
    ensures m.cached.None? && r.0.Success? && Fold.FirstPresent(CombinedVenue.AddressesOf(m.venues)).None? ==>
              r.0.value == geocode(GeocoderQuery(m.venues[0].name))
  {
    if m.cached.Some? then (Success(m.cached.value), m)
    else
      var found := Fold.FirstPresent(CombinedVenue.AddressesOf(m.venues));
      if found.Some? then (Success(found.value), m.(cached := found))
      else
        match Name(m)
        case Failure(e) => (Failure(e), m)
        case Success(name) =>
          var a := geocode(GeocoderQuery(name));
          (Success(a), m.(cached := Some(a)))
  }

  /** Reading the address again returns the same address and changes
      nothing, whatever geocoder the second read is given: the first
      answer is never recomputed. */
  lemma SecondReadIsCached(m: AflVenue, geocode: Geocoder, later: Geocoder)
    requires ReadAddress(m, geocode).0.Success?
    ensures var (a, m') := ReadAddress(m, geocode);
            ReadAddress(m', later) == (a, m')
  {
  }

  /** The geocoder is consulted only when no source venue has an address:
      with an address present, the answer does not depend on it. */
  lemma GeocoderOnlyWhenAllAbsent(m: AflVenue, g1: Geocoder, g2: Geocoder, i: nat)
    requires i < |m.venues| && m.venues[i].address.Some?
    ensures ReadAddress(m, g1) == ReadAddress(m, g2)
  {
    var xs := CombinedVenue.AddressesOf(m.venues);
    assert xs[i].Some?;
    assert Fold.FirstPresent(xs).Some?;
  }

  /** The address is first-present-wins: the earliest venue with an
      address supplies it, whatever later venues say. The general venue
      merger instead collects every address found and hands them all to
      its address combiner. */
  lemma FirstAddressWins(m: AflVenue, geocode: Geocoder, i: nat)
    requires m.cached.None?
    requires i < |m.venues| && m.venues[i].address.Some?
    requires forall j :: 0 <= j < i ==> m.venues[j].address.None?
    ensures ReadAddress(m, geocode).0 == Success(m.venues[i].address.value)
  {
    var xs := CombinedVenue.AddressesOf(m.venues);
    Fold.FirstPresentAt(xs, i);
  }

  /** With no venue having an address, a fresh venue asks the geocoder
      for `"<name> - Australia"` about its first venue. */
  lemma GeocoderFallback(venues: seq<Venue>, geocode: Geocoder)
    requires |venues| > 0
    requires forall j :: 0 <= j < |venues| ==> venues[j].address.None?
    ensures ReadAddress(Create(venues), geocode).0 == Success(geocode(venues[0].name + " - Australia"))
  {
    var xs := CombinedVenue.AddressesOf(venues);
    assert Fold.FirstPresent(xs).None?;
  }
}
