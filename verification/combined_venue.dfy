/** Merging several sources' records of one venue
    (combined/combined_venue_model.py). The address combiner is not part
    of this model; it is a parameter. */
module CombinedVenue {
  import opened Wrappers
  import opened Models
  import Fold

  /** `create_combined_address_model`: turns the addresses found into one
      address, or none. */
  type AddressCombiner = seq<Address> -> Option<Address>

  function AddressesOf(venues: seq<Venue>): (xs: seq<Option<Address>>)
    ensures |xs| == |venues|
    ensures forall i :: 0 <= i < |venues| ==> xs[i] == venues[i].address
  {
    seq(|venues|, i requires 0 <= i < |venues| => venues[i].address)
  }

  function GrassOf(venues: seq<Venue>): (xs: seq<Option<bool>>)
    ensures |xs| == |venues|
    ensures forall i :: 0 <= i < |venues| ==> xs[i] == venues[i].isGrass
  {
    seq(|venues|, i requires 0 <= i < |venues| => venues[i].isGrass)
  }

  function IndoorOf(venues: seq<Venue>): (xs: seq<Option<bool>>)
    ensures |xs| == |venues|
    ensures forall i :: 0 <= i < |venues| ==> xs[i] == venues[i].isIndoor
  {
    seq(|venues|, i requires 0 <= i < |venues| => venues[i].isIndoor)
  }

  /** The addresses handed to the combiner: the venues' present addresses
      in input order. */
  function FoundAddresses(venues: seq<Venue>): (found: seq<Address>)
    ensures |found| <= |venues|
    ensures forall k :: 0 <= k < |found| ==> exists i :: 0 <= i < |venues| && venues[i].address == Some(found[k])
    ensures forall i :: 0 <= i < |venues| && venues[i].address.Some? ==> venues[i].address.value in found
  {
    var xs := AddressesOf(venues);
    var found := Fold.Present(xs);
    Fold.PresentMembers(xs);
    found
  }

  /** `create_combined_venue_model(venue_models, identifier)`: `None` for
      no venues; otherwise the given identifier, the first venue's name,
      the combined address and the last present surface and roof flags. */
  function CombineVenues(venues: seq<Venue>, identifier: string, combine: AddressCombiner): (r: Option<Venue>)
    ensures r.None? <==> |venues| == 0
    ensures r.Some? ==> r.value.identifier == identifier && r.value.name == venues[0].name
    ensures r.Some? ==> r.value.address == combine(FoundAddresses(venues))
    ensures r.Some? ==> Fold.IsLastPresent(GrassOf(venues), r.value.isGrass)
    ensures r.Some? ==> Fold.IsLastPresent(IndoorOf(venues), r.value.isIndoor)
  {
    if |venues| == 0 then None
    else
      Some(Venue(
        identifier := identifier,
        name := venues[0].name,
        address := combine(FoundAddresses(venues)),
        isGrass := Fold.LastPresent(GrassOf(venues)),
        isIndoor := Fold.LastPresent(IndoorOf(venues))))
  }

  /** The addresses reach the combiner in input order: the k-th found
      address is the address of the k-th venue that has one. */
  lemma FoundAddressesInOrder(venues: seq<Venue>)
    ensures |FoundAddresses(venues)| == |Fold.PresentIndices(AddressesOf(venues))|
    ensures forall k :: 0 <= k < |FoundAddresses(venues)| ==>
              Some(FoundAddresses(venues)[k]) ==
              venues[Fold.PresentIndices(AddressesOf(venues))[k]].address
  {
    Fold.PresentIsOrderedSelection(AddressesOf(venues));
  }

  /** A venue without flags leaves the merged flags as they were,
      wherever it stands in the list. */
  lemma FlaglessVenueIsIgnored(a: seq<Venue>, v: Venue, b: seq<Venue>, identifier: string,
                               combine: AddressCombiner)
    requires |a + b| > 0 && v.isGrass.None? && v.isIndoor.None?
    ensures CombineVenues(a + [v] + b, identifier, combine).value.isGrass ==
            CombineVenues(a + b, identifier, combine).value.isGrass
    ensures CombineVenues(a + [v] + b, identifier, combine).value.isIndoor ==
            CombineVenues(a + b, identifier, combine).value.isIndoor
  {
    GrassSplice(a, v, b);
    Fold.LastPresentIgnoresNone(GrassOf(a), GrassOf(b));
    IndoorSplice(a, v, b);
    Fold.LastPresentIgnoresNone(IndoorOf(a), IndoorOf(b));
  }

  lemma GrassSplice(a: seq<Venue>, v: Venue, b: seq<Venue>)
    ensures GrassOf(a + [v] + b) == GrassOf(a) + [v.isGrass] + GrassOf(b)
    ensures GrassOf(a + b) == GrassOf(a) + GrassOf(b)
  {
  }

  lemma IndoorSplice(a: seq<Venue>, v: Venue, b: seq<Venue>)
    ensures IndoorOf(a + [v] + b) == IndoorOf(a) + [v.isIndoor] + IndoorOf(b)
    ensures IndoorOf(a + b) == IndoorOf(a) + IndoorOf(b)
  {
  }

  /** Merging a single venue keeps its name and flags; only the
      identifier is replaced and the address passes through the
      combiner. */
  lemma CombineSingleVenue(v: Venue, identifier: string, combine: AddressCombiner)
    ensures CombineVenues([v], identifier, combine) ==
            Some(v.(identifier := identifier,
                    address := combine(if v.address.Some? then [v.address.value] else [])))
  {
    Fold.LastPresentSingleton(v.isGrass);
    Fold.LastPresentSingleton(v.isIndoor);
    assert AddressesOf([v]) == [v.address];
    assert Fold.Present([v.address])[..] == if v.address.Some? then [v.address.value] else [];
  }
}
