/** The client-side property repository: the catalog and the list of review ids this client
    wrote, kept in browser storage. Every operation reads the stored state, changes it and
    writes it back; here a `Store` value goes in and the changed `Store` comes out. Fresh ids
    and timestamps, which the source takes from the clock, are parameters. */
module Repository {
  import opened Wrappers
  import opened Types
  import opened Seqs
  import Rating

  /** What browser storage holds: the catalog and the ids of reviews written from here. */
  datatype Store = Store(properties: seq<Property>, myReviewIds: seq<string>)

  /** The errors the repository throws. */
  datatype RepoError = PropertyNotFound | ReviewNotFound | AnnouncementNotFound

  /** What adding a review hands back: the changed store, the property and the new review. */
  datatype AddedReview = AddedReview(store: Store, property: Property, review: Review)

  /** The position of the first property with id `id`. */
  function IndexOfProperty(props: seq<Property>, id: string): (r: Option<nat>)
    ensures r.Some? ==> r.value < |props| && props[r.value].id == id
    ensures r.Some? ==> forall j :: 0 <= j < r.value ==> props[j].id != id
    ensures r.None? <==> forall j :: 0 <= j < |props| ==> props[j].id != id
  {
    FirstIndex(props, (p: Property) => p.id == id)
  }

  /** The position of the first review with id `id`. */
  function IndexOfReview(reviews: seq<Review>, id: string): (r: Option<nat>)
    ensures r.Some? ==> r.value < |reviews| && reviews[r.value].id == id
    ensures r.Some? ==> forall j :: 0 <= j < r.value ==> reviews[j].id != id
    ensures r.None? <==> forall j :: 0 <= j < |reviews| ==> reviews[j].id != id
  {
    FirstIndex(reviews, (rv: Review) => rv.id == id)
  }

  /** The position of the first announcement with id `id`. */
  function IndexOfAnnouncement(anns: seq<Announcement>, id: string): (r: Option<nat>)
    ensures r.Some? ==> r.value < |anns| && anns[r.value].id == id
    ensures r.Some? ==> forall j :: 0 <= j < r.value ==> anns[j].id != id
    ensures r.None? <==> forall j :: 0 <= j < |anns| ==> anns[j].id != id
  {
    FirstIndex(anns, (a: Announcement) => a.id == id)
  }

  /** The filter test keeping properties whose id is not `id`. */
  function PropertyIdIsNot(id: string): Property -> bool {
    (p: Property) => p.id != id
  }

  /** The filter test keeping reviews whose id is not `id`. */
  function ReviewIdIsNot(id: string): Review -> bool {
    (rv: Review) => rv.id != id
  }

  /** The filter test keeping announcements whose id is not `id`. */
  function AnnouncementIdIsNot(id: string): Announcement -> bool {
    (a: Announcement) => a.id != id
  }

  /** The filter test keeping strings other than `id`. */
  function IsNot(id: string): string -> bool {
    (x: string) => x != id
  }

  /** `reviews.filter(r => r.id !== reviewId)`: every review with that id goes, every other one
      stays, in order and as often as before. */
  function DropReview(reviews: seq<Review>, reviewId: string): (r: seq<Review>)
    ensures forall i :: 0 <= i < |r| ==> r[i].id != reviewId
    ensures forall i :: 0 <= i < |reviews| && reviews[i].id != reviewId ==> reviews[i] in r
    ensures forall x :: multiset(r)[x] == if x.id == reviewId then 0 else multiset(reviews)[x]
    ensures IsSubsequence(r, reviews)
  {
    Filter(reviews, ReviewIdIsNot(reviewId))
  }

  /** `ids.filter(id => id !== reviewId)`: the id goes, every other one stays, in order and as
      often as before. */
  function ForgetId(ids: seq<string>, reviewId: string): (r: seq<string>)
    ensures forall i :: 0 <= i < |r| ==> r[i] != reviewId
    ensures forall i :: 0 <= i < |ids| && ids[i] != reviewId ==> ids[i] in r
    ensures forall x :: multiset(r)[x] == if x == reviewId then 0 else multiset(ids)[x]
    ensures IsSubsequence(r, ids)
  {
    Filter(ids, IsNot(reviewId))
  }

  /** No two properties share an id. */
  predicate UniqueIds(props: seq<Property>) {
    forall i, j :: 0 <= i < j < |props| ==> props[i].id != props[j].id
  }

  /** `b` is `a` with at most position `k` changed. */
  predicate OnlyChangedAt<T(==)>(a: seq<T>, b: seq<T>, k: nat) {
    |a| == |b| && k < |a| && forall j :: 0 <= j < |a| && j != k ==> b[j] == a[j]
  }

  /** `saveProperty`: replaces the first property with the same id in place, or puts the record
      at the head of the catalog when its id is new. The source also hands the record back
      unchanged. */
  function SaveProperty(props: seq<Property>, data: Property): (r: seq<Property>)
    ensures IndexOfProperty(props, data.id).Some? ==>
      var k := IndexOfProperty(props, data.id).value;
      OnlyChangedAt(props, r, k) && r[k] == data
    ensures IndexOfProperty(props, data.id).None? ==>
      |r| == |props| + 1 && r[0] == data && r[1..] == props
  {
    match IndexOfProperty(props, data.id)
    case Some(k) => props[k := data]
    case None => [data] + props
  }

  /** `deleteProperty`: drops every property with that id and keeps the rest in order; a missing
      id changes nothing and is not an error. */
  function DeleteProperty(props: seq<Property>, id: string): (r: seq<Property>)
    ensures forall i :: 0 <= i < |r| ==> r[i].id != id && r[i] in props
    ensures forall i :: 0 <= i < |props| && props[i].id != id ==> props[i] in r
    ensures IsSubsequence(r, props)
    ensures forall x {:trigger multiset(r)[x]} :: multiset(r)[x] == if x.id == id then 0 else multiset(props)[x]
    ensures IndexOfProperty(props, id).None? ==> r == props
    ensures IndexOfProperty(props, id).Some? ==> |r| < |props|
  {
    var r := Filter(props, PropertyIdIsNot(id));
    if IndexOfProperty(props, id).None? then
      FilterKeepsAll(props, PropertyIdIsNot(id));
      r
    else
      FilterDropsRejected(props, PropertyIdIsNot(id), IndexOfProperty(props, id).value);
      r
  }

  /** The star ratings of the reviews, as numbers. */
  function Stars(reviews: seq<Review>): (r: seq<real>)
    ensures |r| == |reviews|
    ensures forall i :: 0 <= i < |reviews| ==> r[i] == reviews[i].rating as real
  {
    if |reviews| == 0 then [] else [reviews[0].rating as real] + Stars(reviews[1..])
  }

  /** The lowest review rating. */
  function MinStars(reviews: seq<Review>): (m: int)
    requires |reviews| > 0
    ensures exists i :: 0 <= i < |reviews| && reviews[i].rating == m
    ensures forall i :: 0 <= i < |reviews| ==> m <= reviews[i].rating
  {
    if |reviews| == 1 then reviews[0].rating
    else
      var m := MinStars(reviews[1..]);
      if reviews[0].rating <= m then reviews[0].rating else m
  }

  /** The highest review rating. */
  function MaxStars(reviews: seq<Review>): (m: int)
    requires |reviews| > 0
    ensures exists i :: 0 <= i < |reviews| && reviews[i].rating == m
    ensures forall i :: 0 <= i < |reviews| ==> reviews[i].rating <= m
  {
    if |reviews| == 1 then reviews[0].rating
    else
      var m := MaxStars(reviews[1..]);
      if reviews[0].rating >= m then reviews[0].rating else m
  }

  /** `recalculateRating`: 0 with no reviews, otherwise the mean rating in tenths rounded as
      `toFixed(1)` rounds, an exact half away from zero; it lies between ten times the lowest and
      ten times the highest rating. */
  function RecalculateRating(reviews: seq<Review>): (r: int)
    ensures |reviews| == 0 ==> r == 0
    ensures |reviews| > 0 ==> 10 * MinStars(reviews) <= r <= 10 * MaxStars(reviews)
    ensures |reviews| > 0 ==>
      var mean := Rating.Sum(Stars(reviews)) / (|reviews| as real);
      && 10.0 * mean - 0.5 <= r as real <= 10.0 * mean + 0.5
      && (mean >= 0.0 ==> 10.0 * mean - 0.5 < r as real)
      && (mean < 0.0 ==> r as real < 10.0 * mean + 0.5)
  {
    if |reviews| > 0 then
      Rating.AverageWithin(Stars(reviews), MinStars(reviews), MaxStars(reviews));
      Rating.AverageTenths(Stars(reviews))
    else
      Rating.AverageTenths(Stars(reviews))
  }

  /** The client's rating is the shared average rule applied to the star counts. */
  lemma RecalculateIsAverage(reviews: seq<Review>)
    ensures RecalculateRating(reviews) == Rating.AverageTenths(Stars(reviews))
  {
  }

  /** The property with its reviews replaced and its rating recomputed from them. */
  function WithReviews(p: Property, reviews: seq<Review>): (r: Property)
    ensures r.reviews == reviews && r.rating == RecalculateRating(reviews)
    ensures r.(reviews := p.reviews, rating := p.rating) == p
  {
    p.(reviews := reviews, rating := RecalculateRating(reviews))
  }

  /** A property's stored rating is the one its reviews give. */
  predicate RatingConsistent(p: Property) {
    p.rating == RecalculateRating(p.reviews)
  }

  /** Every property's stored rating is the one its reviews give. */
  predicate AllRatingsConsistent(props: seq<Property>) {
    forall i :: 0 <= i < |props| ==> RatingConsistent(props[i])
  }

  /** `addReview`: fails on an unknown property; otherwise appends the review with a fresh id,
      recomputes the rating, and records the id among this client's reviews. */
  function AddReview(s: Store, propertyId: string, fields: ReviewFields, stamp: string)
    : (r: Result<AddedReview, RepoError>)
    ensures r.Err? <==> IndexOfProperty(s.properties, propertyId).None?
    ensures r.Err? ==> r.error == PropertyNotFound
    ensures r.Ok? ==>
      var k := IndexOfProperty(s.properties, propertyId).value;
      var before := s.properties[k];
      var p := r.value.property;
      && OnlyChangedAt(s.properties, r.value.store.properties, k)
      && r.value.store.properties[k] == p
      && |p.reviews| == |before.reviews| + 1
      && p.reviews[..|before.reviews|] == before.reviews
      && p.reviews[|before.reviews|] == r.value.review
      && RatingConsistent(p)
      && p.(reviews := before.reviews, rating := before.rating) == before
      && r.value.review == Review(PrefixedId(ReviewPrefix, stamp), fields.author, fields.rating, fields.comment)
      && r.value.store.myReviewIds == s.myReviewIds + [r.value.review.id]
  {
    match IndexOfProperty(s.properties, propertyId)
    case None => Err(PropertyNotFound)
    case Some(k) =>
      var review := Review(PrefixedId(ReviewPrefix, stamp), fields.author, fields.rating, fields.comment);
      var p := WithReviews(s.properties[k], s.properties[k].reviews + [review]);
      Ok(AddedReview(Store(s.properties[k := p], s.myReviewIds + [review.id]), p, review))
  }

  /** `updateReview`: fails on an unknown property or an unknown review id; otherwise replaces
      the first review with that id in place and recomputes the rating. */
  function UpdateReview(s: Store, propertyId: string, review: Review): (r: Result<Store, RepoError>)
    ensures IndexOfProperty(s.properties, propertyId).None? <==> r == Err(PropertyNotFound)
    ensures r == Err(ReviewNotFound) <==>
      && IndexOfProperty(s.properties, propertyId).Some?
      && IndexOfReview(s.properties[IndexOfProperty(s.properties, propertyId).value].reviews, review.id).None?
    ensures r.Ok? ==> |r.value.properties| == |s.properties|
    ensures r.Ok? ==>
      var k := IndexOfProperty(s.properties, propertyId).value;
      var before := s.properties[k];
      var j := IndexOfReview(before.reviews, review.id).value;
      var p := r.value.properties[k];
      && OnlyChangedAt(s.properties, r.value.properties, k)
      && OnlyChangedAt(before.reviews, p.reviews, j)
      && p.reviews[j] == review
      && RatingConsistent(p)
      && p.(reviews := before.reviews, rating := before.rating) == before
      && r.value.myReviewIds == s.myReviewIds
  {
    match IndexOfProperty(s.properties, propertyId)
    case None => Err(PropertyNotFound)
    case Some(k) =>
      match IndexOfReview(s.properties[k].reviews, review.id)
      case None => Err(ReviewNotFound)
      case Some(j) =>
        var p := WithReviews(s.properties[k], s.properties[k].reviews[j := review]);
        Ok(Store(s.properties[k := p], s.myReviewIds))
  }

  /** `deleteReview`: fails only on an unknown property; drops every review with that id (none
      is not an error), recomputes the rating and forgets the id among this client's reviews. */
  function DeleteReview(s: Store, propertyId: string, reviewId: string): (r: Result<Store, RepoError>)
    ensures r.Err? <==> IndexOfProperty(s.properties, propertyId).None?
    ensures r.Err? ==> r.error == PropertyNotFound
    ensures r.Ok? ==> |r.value.properties| == |s.properties|
    ensures r.Ok? ==>
      var k := IndexOfProperty(s.properties, propertyId).value;
      var before := s.properties[k];
      var p := r.value.properties[k];
      && OnlyChangedAt(s.properties, r.value.properties, k)
      && (forall i :: 0 <= i < |p.reviews| ==> p.reviews[i].id != reviewId)
      && (forall i :: 0 <= i < |before.reviews| && before.reviews[i].id != reviewId ==> before.reviews[i] in p.reviews)
      && IsSubsequence(p.reviews, before.reviews)
      && RatingConsistent(p)
      && p.(reviews := before.reviews, rating := before.rating) == before
      && (forall x :: multiset(p.reviews)[x] == if x.id == reviewId then 0 else multiset(before.reviews)[x])
      && (forall i :: 0 <= i < |r.value.myReviewIds| ==> r.value.myReviewIds[i] != reviewId)
      && (forall i :: 0 <= i < |s.myReviewIds| && s.myReviewIds[i] != reviewId ==>
            s.myReviewIds[i] in r.value.myReviewIds)
      && (forall x :: multiset(r.value.myReviewIds)[x] == if x == reviewId then 0 else multiset(s.myReviewIds)[x])
      && IsSubsequence(r.value.myReviewIds, s.myReviewIds)
  {
    match IndexOfProperty(s.properties, propertyId)
    case None => Err(PropertyNotFound)
    case Some(k) =>
      var p := WithReviews(s.properties[k], DropReview(s.properties[k].reviews, reviewId));
      Ok(Store(s.properties[k := p], ForgetId(s.myReviewIds, reviewId)))
  }

  /** `addAnnouncement`: fails on an unknown property; otherwise puts a new announcement with a
      fresh id and the creation time at the head of the list. Reviews and rating are untouched. */
  function AddAnnouncement(s: Store, propertyId: string, fields: AnnouncementFields, stamp: string, now: string)
    : (r: Result<Store, RepoError>)
    ensures r.Err? <==> IndexOfProperty(s.properties, propertyId).None?
    ensures r.Err? ==> r.error == PropertyNotFound
    ensures r.Ok? ==> |r.value.properties| == |s.properties|
    ensures r.Ok? ==>
      var k := IndexOfProperty(s.properties, propertyId).value;
      var before := s.properties[k];
      var p := r.value.properties[k];
      && OnlyChangedAt(s.properties, r.value.properties, k)
      && |p.announcements| == |before.announcements| + 1
      && p.announcements[0] == Announcement(PrefixedId(AnnouncementPrefix, stamp), fields.title, fields.content, now)
      && p.announcements[1..] == before.announcements
      && p.(announcements := before.announcements) == before
      && r.value.myReviewIds == s.myReviewIds
  {
    match IndexOfProperty(s.properties, propertyId)
    case None => Err(PropertyNotFound)
    case Some(k) =>
      var ann := Announcement(PrefixedId(AnnouncementPrefix, stamp), fields.title, fields.content, now);
      var p := s.properties[k].(announcements := [ann] + s.properties[k].announcements);
      Ok(Store(s.properties[k := p], s.myReviewIds))
  }

  /** `updateAnnouncement`: fails on an unknown property or announcement id; otherwise replaces
      the first announcement with that id in place. Reviews and rating are untouched. */
  function UpdateAnnouncement(s: Store, propertyId: string, ann: Announcement): (r: Result<Store, RepoError>)
    ensures IndexOfProperty(s.properties, propertyId).None? <==> r == Err(PropertyNotFound)
    ensures r == Err(AnnouncementNotFound) <==>
      && IndexOfProperty(s.properties, propertyId).Some?
      && IndexOfAnnouncement(s.properties[IndexOfProperty(s.properties, propertyId).value].announcements, ann.id).None?
    ensures r.Ok? ==> |r.value.properties| == |s.properties|
    ensures r.Ok? ==>
      var k := IndexOfProperty(s.properties, propertyId).value;
      var before := s.properties[k];
      var j := IndexOfAnnouncement(before.announcements, ann.id).value;
      var p := r.value.properties[k];
      && OnlyChangedAt(s.properties, r.value.properties, k)
      && OnlyChangedAt(before.announcements, p.announcements, j)
      && p.announcements[j] == ann
      && p.(announcements := before.announcements) == before
      && r.value.myReviewIds == s.myReviewIds
  {
    match IndexOfProperty(s.properties, propertyId)
    case None => Err(PropertyNotFound)
    case Some(k) =>
      match IndexOfAnnouncement(s.properties[k].announcements, ann.id)
      case None => Err(AnnouncementNotFound)
      case Some(j) =>
        var p := s.properties[k].(announcements := s.properties[k].announcements[j := ann]);
        Ok(Store(s.properties[k := p], s.myReviewIds))
  }

  /** `deleteAnnouncement`: fails only on an unknown property; drops every announcement with that
      id. Reviews and rating are untouched. */
  function DeleteAnnouncement(s: Store, propertyId: string, announcementId: string): (r: Result<Store, RepoError>)
    ensures r.Err? <==> IndexOfProperty(s.properties, propertyId).None?
    ensures r.Err? ==> r.error == PropertyNotFound
    ensures r.Ok? ==> |r.value.properties| == |s.properties|
    ensures r.Ok? ==>
      var k := IndexOfProperty(s.properties, propertyId).value;
      var before := s.properties[k];
      var p := r.value.properties[k];
      && OnlyChangedAt(s.properties, r.value.properties, k)
      && (forall i :: 0 <= i < |p.announcements| ==> p.announcements[i].id != announcementId)
      && (forall i :: 0 <= i < |before.announcements| && before.announcements[i].id != announcementId ==>
            before.announcements[i] in p.announcements)
      && IsSubsequence(p.announcements, before.announcements)
      && (forall x {:trigger multiset(p.announcements)[x]} :: multiset(p.announcements)[x] ==
            if x.id == announcementId then 0 else multiset(before.announcements)[x])
      && p.(announcements := before.announcements) == before
      && r.value.myReviewIds == s.myReviewIds
  {
    match IndexOfProperty(s.properties, propertyId)
    case None => Err(PropertyNotFound)
    case Some(k) =>
      var anns := Filter(s.properties[k].announcements, AnnouncementIdIsNot(announcementId));
      var p := s.properties[k].(announcements := anns);
      Ok(Store(s.properties[k := p], s.myReviewIds))
  }

  /** Changing one property without changing its id does not move any id's first position. */
  lemma IndexStable(a: seq<Property>, b: seq<Property>, k: nat, id: string)
    requires OnlyChangedAt(a, b, k) && b[k].id == a[k].id
    ensures IndexOfProperty(b, id) == IndexOfProperty(a, id)
  {
    var ia, ib := IndexOfProperty(a, id), IndexOfProperty(b, id);
    if ia.Some? && ib.Some? {
      assert ia.value == ib.value by {
        assert b[ia.value].id == id && a[ib.value].id == id;
      }
    }
  }

  /** After a save, looking the id up finds exactly the saved record. */
  lemma SaveThenFind(props: seq<Property>, data: Property)
    ensures IndexOfProperty(SaveProperty(props, data), data.id).Some?
    ensures SaveProperty(props, data)[IndexOfProperty(SaveProperty(props, data), data.id).value] == data
  {
    var r := SaveProperty(props, data);
    match IndexOfProperty(props, data.id)
    case Some(k) =>
      IndexStable(props, r, k, data.id);
    case None =>
      assert r[0].id == data.id;
  }

  /** Saving the same record twice is saving it once. */
  lemma SaveIdempotent(props: seq<Property>, data: Property)
    ensures SaveProperty(SaveProperty(props, data), data) == SaveProperty(props, data)
  {
    var r := SaveProperty(props, data);
    SaveThenFind(props, data);
    var k := IndexOfProperty(r, data.id).value;
    assert r[k := data] == r;
  }

  /** Saving a property with a new id and then deleting that id gives the catalog back. */
  lemma SaveNewThenDelete(props: seq<Property>, data: Property)
    requires IndexOfProperty(props, data.id).None?
    ensures DeleteProperty(SaveProperty(props, data), data.id) == props
  {
    FilterAppend([data], props, PropertyIdIsNot(data.id));
    FilterKeepsAll(props, PropertyIdIsNot(data.id));
  }

  /** Saving a record keeps the ids of the catalog unique. */
  lemma SaveKeepsIdsUnique(props: seq<Property>, data: Property)
    requires UniqueIds(props)
    ensures UniqueIds(SaveProperty(props, data))
  {
  }

  /** Deleting keeps the ids of the catalog unique. */
  lemma DeleteKeepsIdsUnique(props: seq<Property>, id: string)
    requires UniqueIds(props)
    ensures UniqueIds(DeleteProperty(props, id))
  {
    SubsequenceUnique(DeleteProperty(props, id), props);
  }

  /** A subsequence of a catalog with unique ids has unique ids. */
  lemma {:induction false} SubsequenceUnique(a: seq<Property>, b: seq<Property>)
    requires IsSubsequence(a, b) && UniqueIds(b)
    ensures UniqueIds(a)
    decreases |b|
  {
    if |a| > 0 {
      if a[0] == b[0] && IsSubsequence(a[1..], b[1..]) {
        SubsequenceUnique(a[1..], b[1..]);
        forall j | 0 < j < |a| ensures a[0].id != a[j].id {
          SubsequenceIndex(a[1..], b[1..], j - 1);
        }
      } else {
        SubsequenceUnique(a, b[1..]);
      }
    }
  }

  /** Every element of a subsequence sits at some position of the sequence; for a subsequence
      of a tail, that position is past the head. */
  lemma {:induction false} SubsequenceIndex<T>(a: seq<T>, b: seq<T>, i: nat)
    requires IsSubsequence(a, b) && i < |a|
    ensures exists j :: 0 <= j < |b| && b[j] == a[i]
    decreases |b|
  {
    if a[0] == b[0] && IsSubsequence(a[1..], b[1..]) {
      if i > 0 {
        SubsequenceIndex(a[1..], b[1..], i - 1);
        var j :| 0 <= j < |b[1..]| && b[1..][j] == a[1..][i - 1];
        assert b[j + 1] == a[i];
      }
    } else {
      SubsequenceIndex(a, b[1..], i);
      var j :| 0 <= j < |b[1..]| && b[1..][j] == a[i];
      assert b[j + 1] == a[i];
    }
  }

  /** Saving a record whose rating agrees with its reviews keeps every rating consistent. */
  lemma SaveKeepsRatingsConsistent(props: seq<Property>, data: Property)
    requires AllRatingsConsistent(props) && RatingConsistent(data)
    ensures AllRatingsConsistent(SaveProperty(props, data))
  {
  }

  /** Adding a review keeps every rating consistent. */
  lemma AddReviewKeepsRatingsConsistent(s: Store, propertyId: string, fields: ReviewFields, stamp: string)
    requires AllRatingsConsistent(s.properties)
    requires AddReview(s, propertyId, fields, stamp).Ok?
    ensures AllRatingsConsistent(AddReview(s, propertyId, fields, stamp).value.store.properties)
  {
  }

  /** Updating a review keeps every rating consistent. */
  lemma UpdateReviewKeepsRatingsConsistent(s: Store, propertyId: string, review: Review)
    requires AllRatingsConsistent(s.properties)
    requires UpdateReview(s, propertyId, review).Ok?
    ensures AllRatingsConsistent(UpdateReview(s, propertyId, review).value.properties)
  {
  }

  /** Deleting a review keeps every rating consistent. */
  lemma DeleteReviewKeepsRatingsConsistent(s: Store, propertyId: string, reviewId: string)
    requires AllRatingsConsistent(s.properties)
    requires DeleteReview(s, propertyId, reviewId).Ok?
    ensures AllRatingsConsistent(DeleteReview(s, propertyId, reviewId).value.properties)
  {
  }

  /** Every review operation leaves every property's rating consistent with its reviews, and
      restores consistency for the property it touches even when it was lost before. */
  lemma ReviewOperationsKeepRatingsConsistent(s: Store, propertyId: string, fields: ReviewFields,
                                             stamp: string, review: Review, reviewId: string)
    requires AllRatingsConsistent(s.properties)
    ensures AddReview(s, propertyId, fields, stamp).Ok? ==>
      AllRatingsConsistent(AddReview(s, propertyId, fields, stamp).value.store.properties)
    ensures UpdateReview(s, propertyId, review).Ok? ==>
      AllRatingsConsistent(UpdateReview(s, propertyId, review).value.properties)
    ensures DeleteReview(s, propertyId, reviewId).Ok? ==>
      AllRatingsConsistent(DeleteReview(s, propertyId, reviewId).value.properties)
  {
    if AddReview(s, propertyId, fields, stamp).Ok? {
      AddReviewKeepsRatingsConsistent(s, propertyId, fields, stamp);
    }
    if UpdateReview(s, propertyId, review).Ok? {
      UpdateReviewKeepsRatingsConsistent(s, propertyId, review);
    }
    if DeleteReview(s, propertyId, reviewId).Ok? {
      DeleteReviewKeepsRatingsConsistent(s, propertyId, reviewId);
    }
  }

  /** Announcement operations never touch reviews or ratings. */
  lemma AnnouncementOperationsKeepRatingsConsistent(s: Store, propertyId: string, fields: AnnouncementFields,
                                                   stamp: string, now: string, ann: Announcement, annId: string)
    requires AllRatingsConsistent(s.properties)
    ensures AddAnnouncement(s, propertyId, fields, stamp, now).Ok? ==>
      AllRatingsConsistent(AddAnnouncement(s, propertyId, fields, stamp, now).value.properties)
    ensures UpdateAnnouncement(s, propertyId, ann).Ok? ==>
      AllRatingsConsistent(UpdateAnnouncement(s, propertyId, ann).value.properties)
    ensures DeleteAnnouncement(s, propertyId, annId).Ok? ==>
      AllRatingsConsistent(DeleteAnnouncement(s, propertyId, annId).value.properties)
  {
  }

  /** After a review with a fresh id is added, filtering that id out of the property's reviews
      and out of the browser's ids gives the lists from before. */
  lemma AddedReviewFilters(s: Store, propertyId: string, fields: ReviewFields, stamp: string)
    requires IndexOfProperty(s.properties, propertyId).Some?
    requires IndexOfReview(s.properties[IndexOfProperty(s.properties, propertyId).value].reviews,
                           PrefixedId(ReviewPrefix, stamp)).None?
    requires PrefixedId(ReviewPrefix, stamp) !in s.myReviewIds
    ensures AddReview(s, propertyId, fields, stamp).Ok?
    ensures var k := IndexOfProperty(s.properties, propertyId).value;
      var t := AddReview(s, propertyId, fields, stamp).value.store;
      && IndexOfProperty(t.properties, propertyId) == Some(k)
      && DropReview(t.properties[k].reviews, PrefixedId(ReviewPrefix, stamp)) == s.properties[k].reviews
      && ForgetId(t.myReviewIds, PrefixedId(ReviewPrefix, stamp)) == s.myReviewIds
  {
    var id := PrefixedId(ReviewPrefix, stamp);
    var k := IndexOfProperty(s.properties, propertyId).value;
    var before := s.properties[k];
    var added := AddReview(s, propertyId, fields, stamp).value;
    var t := added.store;
    IndexStable(s.properties, t.properties, k, propertyId);
    assert t.properties[k].reviews == before.reviews + [added.review];
    FilterAppend(before.reviews, [added.review], ReviewIdIsNot(id));
    FilterKeepsAll(before.reviews, ReviewIdIsNot(id));
    assert Filter([added.review], ReviewIdIsNot(id)) == [];
    FilterAppend(s.myReviewIds, [id], IsNot(id));
    FilterKeepsAll(s.myReviewIds, IsNot(id));
    assert Filter([id], IsNot(id)) == [];
    assert DropReview(t.properties[k].reviews, id) == Filter(t.properties[k].reviews, ReviewIdIsNot(id));
    assert ForgetId(t.myReviewIds, id) == Filter(t.myReviewIds, IsNot(id));
  }

  /** Deleting a review from the property stored at `k` rewrites that property only. */
  lemma DeleteReviewAt(t: Store, propertyId: string, reviewId: string, k: nat)
    requires IndexOfProperty(t.properties, propertyId) == Some(k)
    ensures DeleteReview(t, propertyId, reviewId) ==
      Ok(Store(t.properties[k := WithReviews(t.properties[k], DropReview(t.properties[k].reviews, reviewId))],
               ForgetId(t.myReviewIds, reviewId)))
  {
  }

  /** Putting the reviews from before back onto the property a review was added to gives the
      property, and the catalog, from before. */
  lemma AddedReviewRestores(s: Store, propertyId: string, fields: ReviewFields, stamp: string)
    requires IndexOfProperty(s.properties, propertyId).Some?
    requires RatingConsistent(s.properties[IndexOfProperty(s.properties, propertyId).value])
    ensures AddReview(s, propertyId, fields, stamp).Ok?
    ensures var k := IndexOfProperty(s.properties, propertyId).value;
      var t := AddReview(s, propertyId, fields, stamp).value.store;
      && WithReviews(t.properties[k], s.properties[k].reviews) == s.properties[k]
      && t.properties[k := s.properties[k]] == s.properties
  {
    var k := IndexOfProperty(s.properties, propertyId).value;
    var t := AddReview(s, propertyId, fields, stamp).value.store;
    assert t.properties[k := s.properties[k]] == s.properties;
  }

  /** Adding a review with a fresh id and then deleting it restores the store exactly: the
      reviews, the rating and the list of this client's review ids. */
  lemma AddThenDeleteReview(s: Store, propertyId: string, fields: ReviewFields, stamp: string)
    requires IndexOfProperty(s.properties, propertyId).Some?
    requires RatingConsistent(s.properties[IndexOfProperty(s.properties, propertyId).value])
    requires IndexOfReview(s.properties[IndexOfProperty(s.properties, propertyId).value].reviews,
                           PrefixedId(ReviewPrefix, stamp)).None?
    requires PrefixedId(ReviewPrefix, stamp) !in s.myReviewIds
    ensures AddReview(s, propertyId, fields, stamp).Ok?
    ensures DeleteReview(AddReview(s, propertyId, fields, stamp).value.store, propertyId, PrefixedId(ReviewPrefix, stamp)) == Ok(s)
  {
    var id := PrefixedId(ReviewPrefix, stamp);
    var k := IndexOfProperty(s.properties, propertyId).value;
    AddedReviewFilters(s, propertyId, fields, stamp);
    AddedReviewRestores(s, propertyId, fields, stamp);
    var t := AddReview(s, propertyId, fields, stamp).value.store;
    DeleteReviewAt(t, propertyId, id, k);
  }

  /** Adding an announcement with a fresh id and then deleting it restores the store exactly. */
  lemma AddThenDeleteAnnouncement(s: Store, propertyId: string, fields: AnnouncementFields, stamp: string, now: string)
    requires IndexOfProperty(s.properties, propertyId).Some?
    requires IndexOfAnnouncement(s.properties[IndexOfProperty(s.properties, propertyId).value].announcements,
                                 PrefixedId(AnnouncementPrefix, stamp)).None?
    ensures AddAnnouncement(s, propertyId, fields, stamp, now).Ok?
    ensures DeleteAnnouncement(AddAnnouncement(s, propertyId, fields, stamp, now).value,
                               propertyId, PrefixedId(AnnouncementPrefix, stamp)) == Ok(s)
  {
    var id := PrefixedId(AnnouncementPrefix, stamp);
    var k := IndexOfProperty(s.properties, propertyId).value;
    var before := s.properties[k];
    var t := AddAnnouncement(s, propertyId, fields, stamp, now).value;
    IndexStable(s.properties, t.properties, k, propertyId);
    var ann := t.properties[k].announcements[0];
    assert t.properties[k].announcements == [ann] + before.announcements;
    FilterAppend([ann], before.announcements, AnnouncementIdIsNot(id));
    FilterKeepsAll(before.announcements, AnnouncementIdIsNot(id));
    assert t.properties[k].(announcements := before.announcements) == before;
    assert t.properties[k := before] == s.properties;
  }

  /** The store an update of review `j` of property `k` gives, written out. */
  lemma UpdateReviewAt(t: Store, propertyId: string, review: Review, k: nat, j: nat)
    requires IndexOfProperty(t.properties, propertyId) == Some(k)
    requires IndexOfReview(t.properties[k].reviews, review.id) == Some(j)
    ensures UpdateReview(t, propertyId, review) ==
      Ok(Store(t.properties[k := WithReviews(t.properties[k], t.properties[k].reviews[j := review])], t.myReviewIds))
  {
  }

  /** Updating review `j` again, after it was updated once, gives the store the second update
      alone gives. */
  lemma UpdateAgainAt(s: Store, propertyId: string, first: Review, second: Review, k: nat, j: nat)
    requires first.id == second.id
    requires IndexOfProperty(s.properties, propertyId) == Some(k)
    requires IndexOfReview(s.properties[k].reviews, first.id) == Some(j)
    ensures var before := s.properties[k];
      UpdateReview(Store(s.properties[k := WithReviews(before, before.reviews[j := first])], s.myReviewIds),
                   propertyId, second) ==
      Ok(Store(s.properties[k := WithReviews(before, before.reviews[j := second])], s.myReviewIds))
  {
    var before := s.properties[k];
    var mid := WithReviews(before, before.reviews[j := first]);
    var t := Store(s.properties[k := mid], s.myReviewIds);
    IndexStable(s.properties, t.properties, k, propertyId);
    assert IndexOfReview(mid.reviews, second.id) == Some(j) by {
      assert mid.reviews[j].id == second.id;
    }
    UpdateReviewAt(t, propertyId, second, k, j);
    var last := WithReviews(before, before.reviews[j := second]);
    UpdateTwice(before.reviews, j, first, second);
    UpdateTwice(s.properties, k, mid, last);
  }

  /** Updating a review twice keeps only the second version. */
  lemma UpdateReviewLastWins(s: Store, propertyId: string, first: Review, second: Review)
    requires first.id == second.id
    requires UpdateReview(s, propertyId, first).Ok?
    ensures UpdateReview(UpdateReview(s, propertyId, first).value, propertyId, second) ==
            UpdateReview(s, propertyId, second)
  {
    var k := IndexOfProperty(s.properties, propertyId).value;
    var j := IndexOfReview(s.properties[k].reviews, first.id).value;
    UpdateReviewAt(s, propertyId, first, k, j);
    UpdateReviewAt(s, propertyId, second, k, j);
    UpdateAgainAt(s, propertyId, first, second, k, j);
  }
}
