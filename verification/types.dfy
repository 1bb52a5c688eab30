/** The records of the listing app: properties with their embedded reviews and announcements,
    the closed enumerations they draw on, and the search criteria. Ratings are kept in exact
    integer arithmetic: a review's rating is a whole number of stars and a property's rating is
    a number of tenths of a star. */
module Types {
  import opened Wrappers

  /** The two kinds of listing. */
  datatype PropertyType = Hotel | Minpaku

  /** The descriptive tags a listing may carry. */
  datatype PropertyTag =
    | Family | NearStation | WithKitchen | Couple | LargeGroup | OceanView | MountainView | Workation

  /** The amenities a listing may offer. */
  datatype Amenity = Wifi | Parking | NoSmoking | SeparateBathToilet

  /** A review embedded in one property; `rating` is a number of stars. */
  datatype Review = Review(id: string, author: string, rating: int, comment: string)

  /** An announcement embedded in one property; `createdAt` is an ISO timestamp string. */
  datatype Announcement = Announcement(id: string, title: string, content: string, createdAt: string)

  /** The fields of a review as submitted, before an id is assigned. */
  datatype ReviewFields = ReviewFields(author: string, rating: int, comment: string)

  /** The fields of an announcement as submitted, before an id and a timestamp are assigned. */
  datatype AnnouncementFields = AnnouncementFields(title: string, content: string)

  /** A listing. `rating` is in tenths of a star; `tags` and `lineOfficialUrl` are the only
      optional fields. */
  datatype Property = Property(
    id: string,
    name: string,
    propertyType: PropertyType,
    description: string,
    address: string,
    latitude: real,
    longitude: real,
    price: int,
    rating: int,
    photos: seq<string>,
    amenities: seq<Amenity>,
    tags: Option<seq<PropertyTag>>,
    reviews: seq<Review>,
    announcements: seq<Announcement>,
    phoneNumber: string,
    lineOfficialUrl: Option<string>,
    checkinTime: string,
    checkoutTime: string,
    ownerUsername: string,
    ownerPassword: string,
    viewCount: int)

  /** A point on the map, in degrees. */
  datatype Location = Location(latitude: real, longitude: real)

  /** One search request; every field is optional. */
  datatype SearchCriteria = SearchCriteria(
    area: Option<string>,
    region: Option<string>,
    tag: Option<PropertyTag>,
    location: Option<Location>)

  /** The string each property type is stored and sent as. */
  function PropertyTypeValue(t: PropertyType): string {
    match t
    case Hotel => "ホテル"
    case Minpaku => "民泊"
  }

  /** The string each tag is stored and sent as. */
  function TagValue(t: PropertyTag): string {
    match t
    case Family => "family"
    case NearStation => "near_station"
    case WithKitchen => "with_kitchen"
    case Couple => "couple"
    case LargeGroup => "large_group"
    case OceanView => "ocean_view"
    case MountainView => "mountain_view"
    case Workation => "workation"
  }

  /** The string each amenity is stored and sent as. */
  function AmenityValue(a: Amenity): string {
    match a
    case Wifi => "wifi"
    case Parking => "parking"
    case NoSmoking => "no_smoking"
    case SeparateBathToilet => "separate_bath_toilet"
  }

  /** Reads a stored property type; any other string is not a property type. */
  function ParsePropertyType(s: string): (r: Option<PropertyType>)
    ensures forall t :: r == Some(t) <==> PropertyTypeValue(t) == s
  {
    if s == "ホテル" then Some(Hotel)
    else if s == "民泊" then Some(Minpaku)
    else None
  }

  /** Reads a stored tag; any other string is not a tag. */
  function ParseTag(s: string): (r: Option<PropertyTag>)
    ensures forall t :: r == Some(t) <==> TagValue(t) == s
  {
    if s == "family" then Some(Family)
    else if s == "near_station" then Some(NearStation)
    else if s == "with_kitchen" then Some(WithKitchen)
    else if s == "couple" then Some(Couple)
    else if s == "large_group" then Some(LargeGroup)
    else if s == "ocean_view" then Some(OceanView)
    else if s == "mountain_view" then Some(MountainView)
    else if s == "workation" then Some(Workation)
    else None
  }

  /** Reads a stored amenity; any other string is not an amenity. */
  function ParseAmenity(s: string): (r: Option<Amenity>)
    ensures forall a :: r == Some(a) <==> AmenityValue(a) == s
  {
    if s == "wifi" then Some(Wifi)
    else if s == "parking" then Some(Parking)
    else if s == "no_smoking" then Some(NoSmoking)
    else if s == "separate_bath_toilet" then Some(SeparateBathToilet)
    else None
  }

  /** Every property type, in declaration order. */
  const PropertyTypeOptions: seq<PropertyType> := [Hotel, Minpaku]

  /** `Object.values(PropertyTag)`: every tag in declaration order. */
  const TagOptions: seq<PropertyTag> :=
    [Family, NearStation, WithKitchen, Couple, LargeGroup, OceanView, MountainView, Workation]

  /** `Object.values(Amenity)`: every amenity in declaration order. */
  const AmenityOptions: seq<Amenity> := [Wifi, Parking, NoSmoking, SeparateBathToilet]

  /** The enumerations are closed: two property types, eight tags and four amenities, and the
      option lists name each of them exactly once. */
  lemma EnumerationsClosed()
    ensures |PropertyTypeOptions| == 2 && forall t: PropertyType :: t in PropertyTypeOptions
    ensures PropertyTypeOptions[0] != PropertyTypeOptions[1]
    ensures |TagOptions| == 8 && forall t: PropertyTag :: t in TagOptions
    ensures forall i, j :: 0 <= i < j < |TagOptions| ==> TagOptions[i] != TagOptions[j]
    ensures |AmenityOptions| == 4 && forall a: Amenity :: a in AmenityOptions
    ensures forall i, j :: 0 <= i < j < |AmenityOptions| ==> AmenityOptions[i] != AmenityOptions[j]
  {
    forall t: PropertyType ensures t in PropertyTypeOptions {
      match t
      case Hotel =>
      case Minpaku =>
    }
    forall t: PropertyTag ensures t in TagOptions {
      match t
      case Family =>
      case NearStation =>
      case WithKitchen =>
      case Couple =>
      case LargeGroup =>
      case OceanView =>
      case MountainView =>
      case Workation =>
    }
    forall a: Amenity ensures a in AmenityOptions {
      match a
      case Wifi =>
      case Parking =>
      case NoSmoking =>
      case SeparateBathToilet =>
    }
  }

  /** Searching is keyed on the JavaScript truthiness of a criterion: an absent field and an
      empty string both count as "not given". */
  predicate Given(o: Option<string>) {
    o.Some? && o.value != ""
  }

  /** The prefixes naming the kind of a record in its id. */
  const PropertyPrefix: string := "prop-"
  const ReviewPrefix: string := "rev-"
  const AnnouncementPrefix: string := "ann-"

  /** The id a record is created with: the prefix of its kind followed by a token, a time stamp
      on the client and a uuid on the server. The token can be read back from the id. */
  function PrefixedId(prefix: string, token: string): (id: string)
    ensures |id| == |prefix| + |token| && id[..|prefix|] == prefix && id[|prefix|..] == token
  {
    prefix + token
  }
}
