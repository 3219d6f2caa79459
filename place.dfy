/**
 * models/place.py: a place listing whose constructor stores its arguments and
 * whose `reviews` list grows in place. The city, the host, the amenities and
 * the reviews are whatever objects the caller passes, hence the type parameters.
 */
module PlaceModel {
  class Place<C, H, A, R> {
    var name: string
    var description: string
    var address: string
    var city: C
    var latitude: real
    var longitude: real
    var host: H
    var numberOfRooms: int
    var numberOfBathrooms: int
    var pricePerNight: real
    var maxGuests: int
    var amenities: seq<A>
    var reviews: seq<R>

    /** Every attribute comes from the argument of the same name (`description` from `descrition`); no reviews yet. */
    constructor (name: string, descrition: string, address: string, city: C, host: H,
                 latitude: real, longitude: real, numberOfRooms: int, numberOfBathrooms: int,
                 pricePerNight: real, maxGuests: int, amenities: seq<A>)
      ensures this.name == name && this.description == descrition && this.address == address
      ensures this.city == city && this.host == host
      ensures this.latitude == latitude && this.longitude == longitude
      ensures this.numberOfRooms == numberOfRooms && this.numberOfBathrooms == numberOfBathrooms
      ensures this.pricePerNight == pricePerNight && this.maxGuests == maxGuests
      ensures this.amenities == amenities
      ensures this.reviews == []
    {
      this.name := name;
      this.description := descrition;
      this.address := address;
      this.city := city;
      this.latitude := latitude;
      this.longitude := longitude;
      this.host := host;
      this.numberOfRooms := numberOfRooms;
      this.numberOfBathrooms := numberOfBathrooms;
      this.pricePerNight := pricePerNight;
      this.maxGuests := maxGuests;
      this.amenities := amenities;
      this.reviews := [];
    }

    /** `add_review`: the review goes at the end, the earlier ones keep their order, nothing else changes. */
    method AddReview(review: R)
      modifies this`reviews
      ensures reviews == old(reviews) + [review]
      ensures |reviews| == |old(reviews)| + 1 && reviews[|reviews| - 1] == review
    {
      reviews := reviews + [review];
    }
  }
}
