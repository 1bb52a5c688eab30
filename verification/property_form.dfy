/** The property form of the owner and admin screens: the editable fields loaded from the
    property being edited (or reset for a new one), the amenity and tag check boxes, the photo
    list, and the record the form submits. */
module PropertyForm {
  import opened Wrappers
  import opened Types
  import opened Seqs

  /** The scalar fields the form edits. */
  datatype Fields = Fields(
    name: string,
    propertyType: PropertyType,
    description: string,
    address: string,
    price: int,
    phoneNumber: string,
    lineOfficialUrl: string,
    checkinTime: string,
    checkoutTime: string,
    ownerUsername: string,
    ownerPassword: string,
    latitude: real,
    longitude: real)

  /** Everything the form holds. The check boxes are JavaScript `Set`s, whose iteration order is
      the order of insertion; they are kept as sequences without repeats in that order. */
  datatype Form = Form(fields: Fields, amenities: seq<Amenity>, tags: seq<PropertyTag>, photos: seq<string>)

  /** The photo submitted when none is chosen. */
  const PlaceholderPhoto: string := "https://picsum.photos/seed/default/800/600"

  /** The fields of a form for a new property. */
  const DefaultFields: Fields :=
    Fields("", Hotel, "", "", 10000, "", "", "15:00", "10:00", "", "", 0.0, 0.0)

  /** `new Set(items)`: the first occurrence of each element, in order. */
  function Dedup<T(==, !new)>(s: seq<T>): (r: seq<T>)
    ensures NoDuplicates(r)
    ensures forall x :: x in r <==> x in s
    ensures |r| <= |s|
  {
    if |s| == 0 then []
    else
      var d := Dedup(s[..|s| - 1]);
      assert forall x :: x in s <==> x in s[..|s| - 1] || x == s[|s| - 1];
      if s[|s| - 1] in d then d else d + [s[|s| - 1]]
  }

  /** A sequence without repeats is its own set. */
  lemma {:induction false} DedupDistinct<T(!new)>(s: seq<T>)
    requires NoDuplicates(s)
    ensures Dedup(s) == s
  {
    if |s| > 0 {
      var init := s[..|s| - 1];
      assert NoDuplicates(init);
      DedupDistinct(init);
      assert s[|s| - 1] !in init;
      assert init + [s[|s| - 1]] == s;
    }
  }

  /** The form loaded for `initial`: a property to edit fills every field, a missing LINE URL
      reads as empty and missing tags as none; no property resets the form to the defaults. */
  function Load(initial: Option<Property>): (f: Form)
    ensures initial.None? ==> f == Form(DefaultFields, [], [], [])
    ensures initial.Some? ==>
      var p := initial.value;
      && f.fields.name == p.name && f.fields.propertyType == p.propertyType
      && f.fields.description == p.description && f.fields.address == p.address
      && f.fields.price == p.price && f.fields.phoneNumber == p.phoneNumber
      && f.fields.lineOfficialUrl == p.lineOfficialUrl.GetOr("")
      && f.fields.checkinTime == p.checkinTime && f.fields.checkoutTime == p.checkoutTime
      && f.fields.ownerUsername == p.ownerUsername && f.fields.ownerPassword == p.ownerPassword
      && f.fields.latitude == p.latitude && f.fields.longitude == p.longitude
      && (forall a :: a in f.amenities <==> a in p.amenities)
      && (forall t :: t in f.tags <==> p.tags.Some? && t in p.tags.value)
      && f.photos == p.photos
    ensures NoDuplicates(f.amenities) && NoDuplicates(f.tags)
  {
    match initial
    case None => Form(DefaultFields, [], [], [])
    case Some(p) =>
      Form(
        Fields(p.name, p.propertyType, p.description, p.address, p.price, p.phoneNumber,
               p.lineOfficialUrl.GetOr(""), p.checkinTime, p.checkoutTime, p.ownerUsername,
               p.ownerPassword, p.latitude, p.longitude),
        Dedup(p.amenities), Dedup(p.tags.GetOr([])), p.photos)
  }

  /** `handleAmenityChange` and `handleTagChange`: a checked box is cleared (the element leaves
      its place), an unchecked one is checked (the element goes last). */
  function Toggle<T(==, !new)>(s: seq<T>, x: T): (r: seq<T>)
    requires NoDuplicates(s)
    ensures NoDuplicates(r)
    ensures x in r <==> x !in s
    ensures forall y :: y != x ==> (y in r <==> y in s)
    ensures x !in s ==> r == s + [x]
  {
    if x in s then
      FilterNoDuplicates(s, IsNot(x));
      Filter(s, IsNot(x))
    else s + [x]
  }

  /** The test `y !== x`, as a filter test. */
  function IsNot<T(==)>(x: T): T -> bool {
    (y: T) => y != x
  }

  /** Toggling the same box twice restores which boxes are checked; a box that was clear comes
      back exactly as it was, order included. */
  lemma ToggleTwice<T(!new)>(s: seq<T>, x: T)
    requires NoDuplicates(s)
    ensures forall y :: y in Toggle(Toggle(s, x), x) <==> y in s
    ensures x !in s ==> Toggle(Toggle(s, x), x) == s
  {
    if x !in s {
      var t := s + [x];
      FilterKeepsAll(s, IsNot(x));
      FilterAppend(s, [x], IsNot(x));
      assert Filter([x], IsNot(x)) == [];
    }
  }

  /** `handleRemovePhoto(i)`: `filter((_, index) => index !== i)`. */
  function RemovePhoto(photos: seq<string>, i: int): (r: seq<string>)
    ensures 0 <= i < |photos| ==> r == photos[..i] + photos[i + 1..]
    ensures !(0 <= i < |photos|) ==> r == photos
  {
    if |photos| == 0 then []
    else
      var rest := RemovePhoto(photos[1..], i - 1);
      if i == 0 then rest
      else
        assert photos == [photos[0]] + photos[1..];
        [photos[0]] + rest
  }

  /** Removing a photo keeps every other photo in order: the ones before it where they were and
      the ones after it one place earlier. */
  lemma RemovePhotoShifts(photos: seq<string>, i: nat)
    requires i < |photos|
    ensures |RemovePhoto(photos, i)| == |photos| - 1
    ensures forall k :: 0 <= k < i ==> RemovePhoto(photos, i)[k] == photos[k]
    ensures forall k :: i <= k < |photos| - 1 ==> RemovePhoto(photos, i)[k] == photos[k + 1]
  {
  }

  /** `handleSubmit`: the property the form sends. An edit keeps the id, reviews,
      announcements, view count and rating of the property edited; a new property gets a `prop-`
      id from the submission time and none of them. Every edited field comes from the form, the
      tags are always present, and an empty photo list becomes the placeholder. */
  function Submit(initial: Option<Property>, f: Form, stamp: string): (p: Property)
    ensures initial.Some? ==>
      && p.id == initial.value.id && p.reviews == initial.value.reviews
      && p.announcements == initial.value.announcements
      && p.viewCount == initial.value.viewCount && p.rating == initial.value.rating
    ensures initial.None? ==>
      p.id == PrefixedId(PropertyPrefix, stamp) && p.reviews == [] && p.announcements == [] && p.viewCount == 0 && p.rating == 0
    ensures p.name == f.fields.name && p.propertyType == f.fields.propertyType
    ensures p.description == f.fields.description && p.address == f.fields.address
    ensures p.price == f.fields.price && p.phoneNumber == f.fields.phoneNumber
    ensures p.latitude == f.fields.latitude && p.longitude == f.fields.longitude
    ensures p.checkinTime == f.fields.checkinTime && p.checkoutTime == f.fields.checkoutTime
    ensures p.ownerUsername == f.fields.ownerUsername && p.ownerPassword == f.fields.ownerPassword
    ensures p.lineOfficialUrl == Some(f.fields.lineOfficialUrl)
    ensures p.amenities == f.amenities && p.tags == Some(f.tags)
    ensures |p.photos| > 0
    ensures |f.photos| > 0 ==> p.photos == f.photos
    ensures |f.photos| == 0 ==> p.photos == [PlaceholderPhoto]
  {
    var kept := match initial
      case Some(q) => (q.id, q.reviews, q.announcements, q.viewCount, q.rating)
      case None => (PrefixedId(PropertyPrefix, stamp), [], [], 0, 0);
    Property(
      kept.0, f.fields.name, f.fields.propertyType, f.fields.description, f.fields.address,
      f.fields.latitude, f.fields.longitude, f.fields.price, kept.4,
      if |f.photos| > 0 then f.photos else [PlaceholderPhoto],
      f.amenities, Some(f.tags), kept.1, kept.2, f.fields.phoneNumber,
      Some(f.fields.lineOfficialUrl), f.fields.checkinTime, f.fields.checkoutTime,
      f.fields.ownerUsername, f.fields.ownerPassword, kept.3)
  }

  /** Opening a property in the form and submitting it unchanged sends the same property back,
      provided it already has the shape a submission produces: tags and a LINE URL present, at
      least one photo, and no amenity or tag listed twice. */
  lemma LoadThenSubmit(p: Property, stamp: string)
    requires p.tags.Some? && p.lineOfficialUrl.Some? && |p.photos| > 0
    requires NoDuplicates(p.amenities) && NoDuplicates(p.tags.value)
    ensures Submit(Some(p), Load(Some(p)), stamp) == p
  {
    DedupDistinct(p.amenities);
    DedupDistinct(p.tags.value);
  }

  /** A new property submitted from the reset form carries the defaults: price 10000, check-in
      at 15:00, check-out at 10:00, no amenity or tag, the placeholder photo, and a fresh id. */
  lemma NewPropertyDefaults(stamp: string)
    ensures var p := Submit(None, Load(None), stamp);
      && p.id == PrefixedId(PropertyPrefix, stamp) && p.price == 10000
      && p.checkinTime == "15:00" && p.checkoutTime == "10:00" && p.propertyType == Hotel
      && p.amenities == [] && p.tags == Some([]) && p.photos == [PlaceholderPhoto]
  {
  }
}
