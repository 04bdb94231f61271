/**
 * The `Place` record (MyPlaces/Models/PlaceModel.swift): a mutable Realm object
 * whose creation date is taken from the clock when it is built.
 */
module Places {
  import opened Wrappers

  /** A picture as an image view holds it; pixels are not modelled. */
  datatype Image = Placeholder | Photo(id: nat)

  /** The bytes kept in `imageData`: the PNG encoding of a picture, or bytes that decode to no picture. */
  datatype ImageData = Png(image: Image) | Undecodable(bytes: seq<bv8>)

  /** `UIImage.pngData()`. */
  function PngData(image: Image): ImageData
  {
    Png(image)
  }

  /** `UIImage(data:)`: nil when the bytes are not an image. */
  function DecodeImage(data: ImageData): (r: Option<Image>)
    ensures r.Some? <==> data.Png?
  {
    match data
    case Png(image) => Some(image)
    case Undecodable(_) => None
  }

  /** Encoding a picture and decoding the bytes gives the picture back. */
  lemma DecodePngData(image: Image)
    ensures DecodeImage(PngData(image)) == Some(image)
  {
  }

  /** Timestamps (`Date`) as whole clock ticks. */
  type Time = int

  class Place {
    var name: string
    var location: Option<string>
    var placeType: Option<string>
    var imageData: Option<ImageData>
    var date: Time
    var rating: real

    /** `Place()`: the property defaults, with `date` read from the clock `now`. */
    constructor Default(now: Time)
      ensures name == "" && location == None && placeType == None && imageData == None
      ensures date == now && rating == 0.0
    {
      name := "";
      location := None;
      placeType := None;
      imageData := None;
      date := now;
      rating := 0.0;
    }

    /**
     * The convenience initializer: `self.init()` sets the defaults (so `date`
     * is the clock reading `now`), then five fields are overwritten. The
     * creation date is not a parameter.
     */
    constructor (name: string, location: Option<string>, placeType: Option<string>,
                 imageData: Option<ImageData>, rating: real, now: Time)
      ensures this.name == name && this.location == location && this.placeType == placeType
      ensures this.imageData == imageData && this.rating == rating
      ensures date == now
    {
      this.name := "";
      this.location := None;
      this.placeType := None;
      this.imageData := None;
      this.date := now;
      this.rating := 0.0;
      new;
      this.name := name;
      this.location := location;
      this.placeType := placeType;
      this.imageData := imageData;
      this.rating := rating;
    }
  }
}
