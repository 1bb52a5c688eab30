/** The app shell: the in-memory catalog that mirrors the repository, the current search and
    its results, the selected property, the logged-in owner's property and this client's
    review ids. Each handler takes what the repository call resolved with (or whether it threw)
    as a parameter and yields the next state. */
module App {
  import opened Wrappers
  import opened Types
  import opened Seqs
  import opened Search
  import Repository

  datatype PageView = Home | SearchResults

  datatype AppState = AppState(
    all: seq<Property>,
    filtered: seq<Hit>,
    selected: Option<Property>,
    criteria: Option<SearchCriteria>,
    ownerProperty: Option<Property>,
    myReviewIds: seq<string>,
    error: Option<string>,
    pageView: PageView)

  const SaveFailed: string := "施設の保存に失敗しました。"
  const DeleteFailed: string := "施設の削除に失敗しました。"
  const AddReviewFailed: string := "レビューの投稿に失敗しました。"
  const UpdateReviewFailed: string := "レビューの更新に失敗しました。"
  const DeleteReviewFailed: string := "レビューの削除に失敗しました。"
  const AddAnnouncementFailed: string := "お知らせの追加に失敗しました。"
  const UpdateAnnouncementFailed: string := "お知らせの更新に失敗しました。"
  const DeleteAnnouncementFailed: string := "お知らせの削除に失敗しました。"

  /** The test selecting the property with id `id`. */
  function HasId(id: string): Property -> bool {
    (p: Property) => p.id == id
  }

  /** The test selecting the hit for the property with id `id`. */
  function HitHasId(id: string): Hit -> bool {
    (h: Hit) => h.property.id == id
  }

  /** The results on screen are those of the current criteria over the current catalog. */
  predicate ResultsCurrent(st: AppState, distance: DistanceFn) {
    st.criteria.Some? ==> st.filtered == Search.Search(st.all, st.criteria.value, distance)
  }

  /** `handleSearch`: remembers the criteria, shows their results over the catalog, and switches
      to the results page. */
  function HandleSearch(st: AppState, c: SearchCriteria, distance: DistanceFn): (r: AppState)
    ensures r.criteria == Some(c) && r.pageView == SearchResults
    ensures ResultsCurrent(r, distance)
    ensures r.(filtered := st.filtered, criteria := st.criteria, pageView := st.pageView) == st
  {
    st.(criteria := Some(c), filtered := Search.Search(st.all, c, distance), pageView := SearchResults)
  }

  /** `handleSelectProperty`: the clicked object (a catalog property, or a search hit carrying
      its distance) is saved with its view count one higher. When the save succeeds the saved
      object replaces every entry with that id in the catalog and in the results, so a results
      entry takes the distance of the clicked object, and it becomes the selection; when the save
      fails, the property as given is selected and nothing else changes. */
  function HandleSelectProperty(st: AppState, clicked: Hit, saved: bool): (r: AppState)
    ensures var p := clicked.property;
      saved ==> r.selected == Some(p.(viewCount := p.viewCount + 1))
    ensures var p := clicked.property;
      saved ==> |r.all| == |st.all| && forall i :: 0 <= i < |st.all| ==>
        r.all[i] == (if st.all[i].id == p.id then p.(viewCount := p.viewCount + 1) else st.all[i])
    ensures var p := clicked.property;
      saved ==> |r.filtered| == |st.filtered| && forall i :: 0 <= i < |st.filtered| ==>
        r.filtered[i] == (if st.filtered[i].property.id == p.id
                          then Hit(p.(viewCount := p.viewCount + 1), clicked.distance)
                          else st.filtered[i])
    ensures saved ==> r.(all := st.all, filtered := st.filtered, selected := st.selected) == st
    ensures !saved ==> r == st.(selected := Some(clicked.property))
  {
    var p := clicked.property;
    var updated := p.(viewCount := p.viewCount + 1);
    if saved then
      st.(all := ReplaceWhere(st.all, HasId(p.id), updated),
          filtered := ReplaceWhere(st.filtered, HitHasId(p.id), Hit(updated, clicked.distance)),
          selected := Some(updated))
    else
      st.(selected := Some(p))
  }

  /** Opening a hit from a location search keeps its distance on screen: the entry it came from
      shows the raised view count and the same distance. */
  lemma SelectedHitKeepsDistance(st: AppState, k: nat)
    requires k < |st.filtered|
    ensures var h := st.filtered[k];
      HandleSelectProperty(st, h, true).filtered[k] ==
        Hit(h.property.(viewCount := h.property.viewCount + 1), h.distance)
  {
  }

  /** `newProperties.find(p => p.id === propertyId) || null`. */
  function Find(props: seq<Property>, id: string): (r: Option<Property>)
    ensures r.Some? <==> Repository.IndexOfProperty(props, id).Some?
    ensures r.Some? ==> r.value == props[Repository.IndexOfProperty(props, id).value]
  {
    match Repository.IndexOfProperty(props, id)
    case None => None
    case Some(k) => Some(props[k])
  }

  /** The selection and the owner's property follow the property with id `id` into the new
      catalog (or are cleared if it is gone); anything else stays. */
  function Follow(current: Option<Property>, newProps: seq<Property>, id: string): (r: Option<Property>)
    ensures current.Some? && current.value.id == id ==> r == Find(newProps, id)
    ensures !(current.Some? && current.value.id == id) ==> r == current
  {
    if current.Some? && current.value.id == id then Find(newProps, id) else current
  }

  /** `updateAppState` as written: installs the new catalog, refreshes the selection and the
      owner's property, and re-runs the current search, but with the search handler of the
      render that started the operation, so the search runs over the catalog as it was before. */
  function UpdateAppStateAsWritten(st: AppState, newProps: seq<Property>, id: string, distance: DistanceFn)
    : (r: AppState)
    ensures r.all == newProps
    ensures r.selected == Follow(st.selected, newProps, id)
    ensures r.ownerProperty == Follow(st.ownerProperty, newProps, id)
    ensures r.criteria == st.criteria && r.myReviewIds == st.myReviewIds && r.error == st.error
    ensures r.pageView == (if st.criteria.Some? then SearchResults else st.pageView)
    ensures st.criteria.Some? ==> r.filtered == Search.Search(st.all, st.criteria.value, distance)
    ensures st.criteria.None? ==> r.filtered == st.filtered
  {
    var st1 := st.(all := newProps, selected := Follow(st.selected, newProps, id),
                   ownerProperty := Follow(st.ownerProperty, newProps, id));
    if st.criteria.Some? then
      st1.(criteria := st.criteria, filtered := Search.Search(st.all, st.criteria.value, distance),
           pageView := SearchResults)
    else st1
  }

  /** `updateAppState` as intended: the same, but the current search is re-run over the new
      catalog. */
  function UpdateAppState(st: AppState, newProps: seq<Property>, id: string, distance: DistanceFn)
    : (r: AppState)
    ensures r.all == newProps
    ensures r.selected == Follow(st.selected, newProps, id)
    ensures r.ownerProperty == Follow(st.ownerProperty, newProps, id)
    ensures r.criteria == st.criteria && r.myReviewIds == st.myReviewIds && r.error == st.error
    ensures r.pageView == (if st.criteria.Some? then SearchResults else st.pageView)
    ensures st.criteria.None? ==> r.filtered == st.filtered
    ensures ResultsCurrent(r, distance)
  {
    var st1 := st.(all := newProps, selected := Follow(st.selected, newProps, id),
                   ownerProperty := Follow(st.ownerProperty, newProps, id));
    if st.criteria.Some? then HandleSearch(st1, st.criteria.value, distance) else st1
  }

  /** Which `updateAppState` a handler ends with: the one App.tsx has, or the corrected one. */
  datatype Refresh = AsWritten | Corrected

  /** The results after an update from `before` to `after`: without criteria they stay as they
      were; with criteria they are the search over the catalog from before the change as
      written, and over the new catalog once corrected. */
  predicate Refreshed(u: Refresh, before: AppState, after: AppState, distance: DistanceFn) {
    && (before.criteria.None? ==> after.filtered == before.filtered)
    && (before.criteria.Some? && u == AsWritten ==>
          after.filtered == Search.Search(before.all, before.criteria.value, distance))
    && (before.criteria.Some? && u == Corrected ==>
          after.filtered == Search.Search(after.all, before.criteria.value, distance))
  }

  /** The update a handler ends with, as written or corrected. */
  function Update(u: Refresh, st: AppState, newProps: seq<Property>, id: string, distance: DistanceFn)
    : (r: AppState)
    ensures r.all == newProps
    ensures r.selected == Follow(st.selected, newProps, id)
    ensures r.ownerProperty == Follow(st.ownerProperty, newProps, id)
    ensures r.criteria == st.criteria && r.myReviewIds == st.myReviewIds && r.error == st.error
    ensures r.pageView == (if st.criteria.Some? then SearchResults else st.pageView)
    ensures Refreshed(u, st, r, distance)
    ensures u == Corrected ==> ResultsCurrent(r, distance)
  {
    match u
    case AsWritten => UpdateAppStateAsWritten(st, newProps, id, distance)
    case Corrected => UpdateAppState(st, newProps, id, distance)
  }

  /** `handleSaveProperty`: a record with a new id goes to the head of the catalog, one with a
      known id replaces it; a failed save only sets the error. */
  function HandleSaveProperty(u: Refresh, st: AppState, saved: Property, ok: bool, distance: DistanceFn)
    : (r: AppState)
    ensures !ok ==> r == st.(error := Some(SaveFailed))
    ensures ok && Repository.IndexOfProperty(st.all, saved.id).None? ==>
      r.all == [saved] + st.all
    ensures ok && Repository.IndexOfProperty(st.all, saved.id).Some? ==>
      |r.all| == |st.all| && forall i :: 0 <= i < |st.all| ==>
        r.all[i] == (if st.all[i].id == saved.id then saved else st.all[i])
    ensures ok ==> r.selected == Follow(st.selected, r.all, saved.id)
    ensures ok ==> r.ownerProperty == Follow(st.ownerProperty, r.all, saved.id)
    ensures ok ==> Refreshed(u, st, r, distance) && r.myReviewIds == st.myReviewIds
    ensures ok ==>
      && r.criteria == st.criteria && r.error == st.error
      && r.pageView == (if st.criteria.Some? then SearchResults else st.pageView)
    ensures ok && u == Corrected ==> ResultsCurrent(r, distance)
  {
    if !ok then st.(error := Some(SaveFailed))
    else
      var isNew := Repository.IndexOfProperty(st.all, saved.id).None?;
      var newProps := if isNew then [saved] + st.all else ReplaceWhere(st.all, HasId(saved.id), saved);
      Update(u, st, newProps, saved.id, distance)
  }

  /** `handleDeleteProperty`: after confirmation, drops the property with that id from the
      catalog; declining changes nothing and a failed delete only sets the error. */
  function HandleDeleteProperty(u: Refresh, st: AppState, id: string, confirmed: bool, ok: bool,
                                distance: DistanceFn): (r: AppState)
    ensures !confirmed ==> r == st
    ensures confirmed && !ok ==> r == st.(error := Some(DeleteFailed))
    ensures confirmed && ok ==>
      && (forall i :: 0 <= i < |r.all| ==> r.all[i].id != id && r.all[i] in st.all)
      && (forall i :: 0 <= i < |st.all| && st.all[i].id != id ==> st.all[i] in r.all)
      && IsSubsequence(r.all, st.all)
      && (forall x {:trigger multiset(r.all)[x]} :: multiset(r.all)[x] == if x.id == id then 0 else multiset(st.all)[x])
      && (st.selected.Some? && st.selected.value.id == id ==> r.selected.None?)
      && (st.ownerProperty.Some? && st.ownerProperty.value.id == id ==> r.ownerProperty.None?)
      && Refreshed(u, st, r, distance)
      && r.criteria == st.criteria && r.error == st.error
      && r.pageView == (if st.criteria.Some? then SearchResults else st.pageView)
      && r.myReviewIds == st.myReviewIds
    ensures confirmed && ok && u == Corrected ==> ResultsCurrent(r, distance)
  {
    if !confirmed then st
    else if !ok then st.(error := Some(DeleteFailed))
    else Update(u, st, Filter(st.all, Repository.PropertyIdIsNot(id)), id, distance)
  }

  /** The common tail of the review and announcement handlers: the returned property replaces
      the one with id `id` in the catalog; a failed call only sets the error message. */
  function ApplyChange(u: Refresh, st: AppState, id: string, returned: Result<Property, Repository.RepoError>,
                       message: string, distance: DistanceFn): (r: AppState)
    ensures returned.Err? ==> r == st.(error := Some(message))
    ensures returned.Ok? ==>
      && |r.all| == |st.all|
      && (forall i :: 0 <= i < |st.all| ==> r.all[i] == (if st.all[i].id == id then returned.value else st.all[i]))
      && r.selected == Follow(st.selected, r.all, id)
      && r.ownerProperty == Follow(st.ownerProperty, r.all, id)
      && Refreshed(u, st, r, distance)
      && r.myReviewIds == st.myReviewIds
      && r.criteria == st.criteria && r.error == st.error
      && r.pageView == (if st.criteria.Some? then SearchResults else st.pageView)
    ensures returned.Ok? && u == Corrected ==> ResultsCurrent(r, distance)
  {
    match returned
    case Err(_) => st.(error := Some(message))
    case Ok(p) => Update(u, st, ReplaceWhere(st.all, HasId(id), p), id, distance)
  }

  /** What a repository call that changes one property resolves with: that property as stored. */
  function Returned(result: Result<Repository.Store, Repository.RepoError>, id: string)
    : (r: Result<Property, Repository.RepoError>)
    ensures result.Err? ==> r == Err(result.error)
    ensures result.Ok? && Repository.IndexOfProperty(result.value.properties, id).Some? ==>
      r == Ok(result.value.properties[Repository.IndexOfProperty(result.value.properties, id).value])
  {
    match result
    case Err(e) => Err(e)
    case Ok(s) =>
      match Repository.IndexOfProperty(s.properties, id)
      case Some(k) => Ok(s.properties[k])
      case None => Err(Repository.PropertyNotFound)
  }

  /** `handleAddReview`: on success the new review's id joins this client's review ids and the
      updated property replaces the old one. */
  function HandleAddReview(u: Refresh, st: AppState, id: string,
                           added: Result<Repository.AddedReview, Repository.RepoError>,
                           distance: DistanceFn): (r: AppState)
    ensures added.Err? ==> r == st.(error := Some(AddReviewFailed))
    ensures added.Ok? ==> r.myReviewIds == st.myReviewIds + [added.value.review.id]
    ensures added.Ok? ==> Refreshed(u, st, r, distance)
    ensures added.Ok? ==>
      && r.criteria == st.criteria && r.error == st.error
      && r.pageView == (if st.criteria.Some? then SearchResults else st.pageView)
    ensures added.Ok? && u == Corrected ==> ResultsCurrent(r, distance)
    ensures added.Ok? ==> r.selected == Follow(st.selected, r.all, id)
    ensures added.Ok? ==> r.ownerProperty == Follow(st.ownerProperty, r.all, id)
    ensures added.Ok? ==> |r.all| == |st.all| && forall i :: 0 <= i < |st.all| ==>
      r.all[i] == (if st.all[i].id == id then added.value.property else st.all[i])
  {
    match added
    case Err(_) => st.(error := Some(AddReviewFailed))
    case Ok(a) =>
      ApplyChange(u, st.(myReviewIds := st.myReviewIds + [a.review.id]), id, Ok(a.property), AddReviewFailed, distance)
  }

  /** `handleUpdateReview`. */
  function HandleUpdateReview(u: Refresh, st: AppState, id: string, returned: Result<Property, Repository.RepoError>,
                              distance: DistanceFn): (r: AppState)
    ensures returned.Err? ==> r == st.(error := Some(UpdateReviewFailed))
    ensures returned.Ok? ==> r.myReviewIds == st.myReviewIds && Refreshed(u, st, r, distance)
    ensures returned.Ok? ==>
      && r.criteria == st.criteria && r.error == st.error
      && r.pageView == (if st.criteria.Some? then SearchResults else st.pageView)
    ensures returned.Ok? && u == Corrected ==> ResultsCurrent(r, distance)
    ensures returned.Ok? ==> r.selected == Follow(st.selected, r.all, id)
    ensures returned.Ok? ==> r.ownerProperty == Follow(st.ownerProperty, r.all, id)
    ensures returned.Ok? ==> |r.all| == |st.all| && forall i :: 0 <= i < |st.all| ==>
      r.all[i] == (if st.all[i].id == id then returned.value else st.all[i])
  {
    ApplyChange(u, st, id, returned, UpdateReviewFailed, distance)
  }

  /** `handleDeleteReview`: after confirmation; on success the review's id leaves this client's
      review ids and the updated property replaces the old one. */
  function HandleDeleteReview(u: Refresh, st: AppState, id: string, reviewId: string, confirmed: bool,
                              returned: Result<Property, Repository.RepoError>, distance: DistanceFn)
    : (r: AppState)
    ensures !confirmed ==> r == st
    ensures confirmed && returned.Err? ==> r == st.(error := Some(DeleteReviewFailed))
    ensures confirmed && returned.Ok? ==>
      && (forall i :: 0 <= i < |r.myReviewIds| ==> r.myReviewIds[i] != reviewId)
      && (forall i :: 0 <= i < |st.myReviewIds| && st.myReviewIds[i] != reviewId ==> st.myReviewIds[i] in r.myReviewIds)
      && IsSubsequence(r.myReviewIds, st.myReviewIds)
      && (forall x {:trigger multiset(r.myReviewIds)[x]} ::
            multiset(r.myReviewIds)[x] == if x == reviewId then 0 else multiset(st.myReviewIds)[x])
      && Refreshed(u, st, r, distance)
      && r.criteria == st.criteria && r.error == st.error
      && r.pageView == (if st.criteria.Some? then SearchResults else st.pageView)
      && r.selected == Follow(st.selected, r.all, id)
      && r.ownerProperty == Follow(st.ownerProperty, r.all, id)
    ensures confirmed && returned.Ok? && u == Corrected ==> ResultsCurrent(r, distance)
    ensures confirmed && returned.Ok? ==> |r.all| == |st.all| && forall i :: 0 <= i < |st.all| ==>
      r.all[i] == (if st.all[i].id == id then returned.value else st.all[i])
  {
    if !confirmed then st
    else match returned
      case Err(_) => st.(error := Some(DeleteReviewFailed))
      case Ok(p) =>
        ApplyChange(u, st.(myReviewIds := Repository.ForgetId(st.myReviewIds, reviewId)), id, returned,
                    DeleteReviewFailed, distance)
  }

  /** `handleAddAnnouncement`. */
  function HandleAddAnnouncement(u: Refresh, st: AppState, id: string, returned: Result<Property, Repository.RepoError>,
                                 distance: DistanceFn): (r: AppState)
    ensures returned.Err? ==> r == st.(error := Some(AddAnnouncementFailed))
    ensures returned.Ok? ==> r.myReviewIds == st.myReviewIds && Refreshed(u, st, r, distance)
    ensures returned.Ok? ==>
      && r.criteria == st.criteria && r.error == st.error
      && r.pageView == (if st.criteria.Some? then SearchResults else st.pageView)
    ensures returned.Ok? && u == Corrected ==> ResultsCurrent(r, distance)
    ensures returned.Ok? ==> r.ownerProperty == Follow(st.ownerProperty, r.all, id)
    ensures returned.Ok? ==> r.selected == Follow(st.selected, r.all, id)
    ensures returned.Ok? ==> |r.all| == |st.all| && forall i :: 0 <= i < |st.all| ==>
      r.all[i] == (if st.all[i].id == id then returned.value else st.all[i])
  {
    ApplyChange(u, st, id, returned, AddAnnouncementFailed, distance)
  }

  /** `handleUpdateAnnouncement`. */
  function HandleUpdateAnnouncement(u: Refresh, st: AppState, id: string, returned: Result<Property, Repository.RepoError>,
                                    distance: DistanceFn): (r: AppState)
    ensures returned.Err? ==> r == st.(error := Some(UpdateAnnouncementFailed))
    ensures returned.Ok? ==> r.myReviewIds == st.myReviewIds && Refreshed(u, st, r, distance)
    ensures returned.Ok? ==>
      && r.criteria == st.criteria && r.error == st.error
      && r.pageView == (if st.criteria.Some? then SearchResults else st.pageView)
    ensures returned.Ok? && u == Corrected ==> ResultsCurrent(r, distance)
    ensures returned.Ok? ==> r.ownerProperty == Follow(st.ownerProperty, r.all, id)
    ensures returned.Ok? ==> r.selected == Follow(st.selected, r.all, id)
    ensures returned.Ok? ==> |r.all| == |st.all| && forall i :: 0 <= i < |st.all| ==>
      r.all[i] == (if st.all[i].id == id then returned.value else st.all[i])
  {
    ApplyChange(u, st, id, returned, UpdateAnnouncementFailed, distance)
  }

  /** `handleDeleteAnnouncement`: only after confirmation. */
  function HandleDeleteAnnouncement(u: Refresh, st: AppState, id: string, confirmed: bool,
                                    returned: Result<Property, Repository.RepoError>, distance: DistanceFn)
    : (r: AppState)
    ensures !confirmed ==> r == st
    ensures confirmed && returned.Err? ==> r == st.(error := Some(DeleteAnnouncementFailed))
    ensures confirmed && returned.Ok? ==> r.myReviewIds == st.myReviewIds && Refreshed(u, st, r, distance)
    ensures confirmed && returned.Ok? ==>
      && r.criteria == st.criteria && r.error == st.error
      && r.pageView == (if st.criteria.Some? then SearchResults else st.pageView)
    ensures confirmed && returned.Ok? && u == Corrected ==> ResultsCurrent(r, distance)
    ensures confirmed && returned.Ok? ==> r.ownerProperty == Follow(st.ownerProperty, r.all, id)
    ensures confirmed && returned.Ok? ==> r.selected == Follow(st.selected, r.all, id)
    ensures confirmed && returned.Ok? ==> |r.all| == |st.all| && forall i :: 0 <= i < |st.all| ==>
      r.all[i] == (if st.all[i].id == id then returned.value else st.all[i])
  {
    if !confirmed then st else ApplyChange(u, st, id, returned, DeleteAnnouncementFailed, distance)
  }

  /** The new-arrivals strip: the first eight properties of the catalog; from two of them on,
      the list is shown twice in a row so that the scrolling animation can wrap around. */
  function NewArrivals(props: seq<Property>): (r: seq<Property>)
    ensures |props| < 2 ==> r == props
    ensures |props| >= 2 ==>
      var n := if |props| < 8 then |props| else 8;
      |r| == 2 * n && forall i :: 0 <= i < |r| ==> r[i] == props[i % n]
  {
    var first := if |props| < 8 then props else props[..8];
    if |first| < 2 then first else first + first
  }

  /** Every property on the new-arrivals strip is one of the eight newest, and a property just
      saved under a new id leads the strip. */
  lemma NewArrivalsLeadWithNewest(u: Refresh, st: AppState, saved: Property, distance: DistanceFn)
    requires Repository.IndexOfProperty(st.all, saved.id).None?
    ensures var strip := NewArrivals(HandleSaveProperty(u, st, saved, true, distance).all);
      |strip| > 0 && strip[0] == saved
    ensures forall i :: 0 <= i < |NewArrivals(st.all)| ==>
      exists j :: 0 <= j < 8 && j < |st.all| && NewArrivals(st.all)[i] == st.all[j]
  {
    var strip := NewArrivals(st.all);
    forall i | 0 <= i < |strip|
      ensures exists j :: 0 <= j < 8 && j < |st.all| && strip[i] == st.all[j]
    {
      if |st.all| >= 2 {
        var n := if |st.all| < 8 then |st.all| else 8;
        assert strip[i] == st.all[i % n];
      } else {
        assert strip[i] == st.all[i];
      }
    }
    var all1 := HandleSaveProperty(u, st, saved, true, distance).all;
    if |all1| >= 2 {
      var n := if |all1| < 8 then |all1| else 8;
      assert NewArrivals(all1)[0] == all1[0 % n];
    }
  }

  /** A property whose id appears only at position `k` of a catalog with unique ids is the only
      one replaced. */
  lemma ReplaceUnique(props: seq<Property>, id: string, k: nat, p: Property)
    requires Repository.UniqueIds(props) && k < |props| && props[k].id == id
    ensures ReplaceWhere(props, HasId(id), p) == props[k := p]
  {
    ReplaceWhereSingle(props, HasId(id), p, k);
  }

  /** When the repository changed only the property with id `id`, applying what it returned to a
      catalog that mirrored the store makes the catalog mirror the store again. */
  lemma ChangeMirrorsStore(u: Refresh, st: AppState, s: Repository.Store, id: string, t: Repository.Store,
                           message: string, distance: DistanceFn)
    requires st.all == s.properties && Repository.UniqueIds(s.properties)
    requires Repository.IndexOfProperty(s.properties, id).Some?
    requires Repository.OnlyChangedAt(s.properties, t.properties, Repository.IndexOfProperty(s.properties, id).value)
    requires t.properties[Repository.IndexOfProperty(s.properties, id).value].id == id
    ensures ApplyChange(u, st, id, Returned(Ok(t), id), message, distance).all == t.properties
  {
    var k := Repository.IndexOfProperty(s.properties, id).value;
    Repository.IndexStable(s.properties, t.properties, k, id);
    ReplaceUnique(s.properties, id, k, t.properties[k]);
  }

  /** Adding a review keeps the in-memory catalog and review ids equal to what the repository
      stored, on success and on failure. */
  lemma AddReviewMirrorsStore(u: Refresh, st: AppState, s: Repository.Store, id: string, fields: ReviewFields,
                              stamp: string, distance: DistanceFn)
    requires st.all == s.properties && st.myReviewIds == s.myReviewIds
    requires Repository.UniqueIds(s.properties)
    ensures var added := Repository.AddReview(s, id, fields, stamp);
      var r := HandleAddReview(u, st, id, added, distance);
      if added.Ok? then r.all == added.value.store.properties && r.myReviewIds == added.value.store.myReviewIds
      else r.all == s.properties && r.myReviewIds == s.myReviewIds
  {
    var added := Repository.AddReview(s, id, fields, stamp);
    if added.Ok? {
      var k := Repository.IndexOfProperty(s.properties, id).value;
      ReplaceUnique(s.properties, id, k, added.value.property);
    }
  }

  /** Updating a review keeps the in-memory catalog and review ids equal to what the repository
      stored, on success and on failure. */
  lemma UpdateReviewMirrorsStore(u: Refresh, st: AppState, s: Repository.Store, id: string, review: Review,
                                 distance: DistanceFn)
    requires st.all == s.properties && st.myReviewIds == s.myReviewIds
    requires Repository.UniqueIds(s.properties)
    ensures var updated := Repository.UpdateReview(s, id, review);
      var r := HandleUpdateReview(u, st, id, Returned(updated, id), distance);
      if updated.Ok? then r.all == updated.value.properties && r.myReviewIds == updated.value.myReviewIds
      else r.all == s.properties && r.myReviewIds == s.myReviewIds
  {
    var updated := Repository.UpdateReview(s, id, review);
    if updated.Ok? {
      ChangeMirrorsStore(u, st, s, id, updated.value, UpdateReviewFailed, distance);
    }
  }

  /** Deleting a review keeps the in-memory catalog and review ids equal to what the repository
      stored, on success and on failure. */
  lemma DeleteReviewMirrorsStore(u: Refresh, st: AppState, s: Repository.Store, id: string, reviewId: string,
                                 distance: DistanceFn)
    requires st.all == s.properties && st.myReviewIds == s.myReviewIds
    requires Repository.UniqueIds(s.properties)
    ensures var deleted := Repository.DeleteReview(s, id, reviewId);
      var r := HandleDeleteReview(u, st, id, reviewId, true, Returned(deleted, id), distance);
      if deleted.Ok? then r.all == deleted.value.properties && r.myReviewIds == deleted.value.myReviewIds
      else r.all == s.properties && r.myReviewIds == s.myReviewIds
  {
    var deleted := Repository.DeleteReview(s, id, reviewId);
    if deleted.Ok? {
      var st1 := st.(myReviewIds := Repository.ForgetId(st.myReviewIds, reviewId));
      ChangeMirrorsStore(u, st1, s, id, deleted.value, DeleteReviewFailed, distance);
    }
  }

  /** The announcement handlers keep the in-memory catalog equal to what the repository stored. */
  lemma AnnouncementHandlersMirrorStore(u: Refresh, st: AppState, s: Repository.Store, id: string,
                                        fields: AnnouncementFields, stamp: string, now: string,
                                        ann: Announcement, annId: string, distance: DistanceFn)
    requires st.all == s.properties && Repository.UniqueIds(s.properties)
    ensures var added := Repository.AddAnnouncement(s, id, fields, stamp, now);
      HandleAddAnnouncement(u, st, id, Returned(added, id), distance).all ==
        (if added.Ok? then added.value.properties else s.properties)
    ensures var updated := Repository.UpdateAnnouncement(s, id, ann);
      HandleUpdateAnnouncement(u, st, id, Returned(updated, id), distance).all ==
        (if updated.Ok? then updated.value.properties else s.properties)
    ensures var deleted := Repository.DeleteAnnouncement(s, id, annId);
      HandleDeleteAnnouncement(u, st, id, true, Returned(deleted, id), distance).all ==
        (if deleted.Ok? then deleted.value.properties else s.properties)
  {
    var added := Repository.AddAnnouncement(s, id, fields, stamp, now);
    if added.Ok? {
      ChangeMirrorsStore(u, st, s, id, added.value, AddAnnouncementFailed, distance);
    }
    var updated := Repository.UpdateAnnouncement(s, id, ann);
    if updated.Ok? {
      ChangeMirrorsStore(u, st, s, id, updated.value, UpdateAnnouncementFailed, distance);
    }
    var deleted := Repository.DeleteAnnouncement(s, id, annId);
    if deleted.Ok? {
      ChangeMirrorsStore(u, st, s, id, deleted.value, DeleteAnnouncementFailed, distance);
    }
  }

  /** Saving keeps the in-memory catalog equal to the stored one. */
  lemma SaveMirrorsStore(u: Refresh, st: AppState, data: Property, distance: DistanceFn)
    requires Repository.UniqueIds(st.all)
    ensures HandleSaveProperty(u, st, data, true, distance).all == Repository.SaveProperty(st.all, data)
  {
    match Repository.IndexOfProperty(st.all, data.id)
    case Some(k) => ReplaceUnique(st.all, data.id, k, data);
    case None =>
  }

  /** Deleting keeps the in-memory catalog equal to the stored one. */
  lemma DeleteMirrorsStore(u: Refresh, st: AppState, id: string, distance: DistanceFn)
    ensures HandleDeleteProperty(u, st, id, true, true, distance).all == Repository.DeleteProperty(st.all, id)
  {
  }

  /** Selecting a catalog property stores it with its view count one higher, and the in-memory
      catalog follows the store. */
  lemma SelectMirrorsStore(st: AppState, clicked: Hit)
    requires Repository.UniqueIds(st.all)
    requires Repository.IndexOfProperty(st.all, clicked.property.id).Some?
    ensures var p := clicked.property;
      HandleSelectProperty(st, clicked, true).all == Repository.SaveProperty(st.all, p.(viewCount := p.viewCount + 1))
  {
    var p := clicked.property;
    var k := Repository.IndexOfProperty(st.all, p.id).value;
    var updated := p.(viewCount := p.viewCount + 1);
    SelectReplaces(st, clicked);
    ReplaceUnique(st.all, p.id, k, updated);
    SaveReplacesAt(st.all, updated, k);
  }

  /** A recorded view replaces every stored property with the viewed id. */
  lemma SelectReplaces(st: AppState, clicked: Hit)
    ensures var p := clicked.property;
      HandleSelectProperty(st, clicked, true).all == ReplaceWhere(st.all, HasId(p.id), p.(viewCount := p.viewCount + 1))
  {
  }

  /** Saving a property whose id is stored at `k` writes it at `k`. */
  lemma SaveReplacesAt(props: seq<Property>, data: Property, k: nat)
    requires Repository.IndexOfProperty(props, data.id) == Some(k)
    ensures Repository.SaveProperty(props, data) == props[k := data]
  {
  }

  /** A sample property for the counterexample below. */
  const Sample: Property := Property("p1", "宿", Hotel, "", "東京都", 0.0, 0.0, 10000, 0, [], [], None,
                                     [], [], "", None, "15:00", "10:00", "owner", "pw", 0)

  /** As written, a review changed from the property page during a search leaves the old
      property among the results: with a search for everything over a catalog of one property,
      updating a review so that its rating becomes 5.0 installs the new property in the catalog
      and the selection, while the results still show the old one. The corrected update shows
      the new property in the results. */
  lemma UpdatedReviewStaleInResults(distance: DistanceFn)
    ensures var c := SearchCriteria(None, None, None, None);
      var st := AppState([Sample], [Hit(Sample, None)], Some(Sample), Some(c), None, [], None, SearchResults);
      var rated := Sample.(rating := 50);
      var asWritten := HandleUpdateReview(AsWritten, st, "p1", Ok(rated), distance);
      var corrected := HandleUpdateReview(Corrected, st, "p1", Ok(rated), distance);
      && asWritten.all == [rated] && asWritten.selected == Some(rated)
      && asWritten.filtered == [Hit(Sample, None)]
      && !ResultsCurrent(asWritten, distance)
      && corrected.filtered == [Hit(rated, None)]
  {
    var c := SearchCriteria(None, None, None, None);
    var rated := Sample.(rating := 50);
    EmptyCriteriaReturnsCatalog([Sample], c, distance);
    EmptyCriteriaReturnsCatalog([rated], c, distance);
    var found := Search.Search([Sample], c, distance);
    assert Properties(found) == [Sample];
    assert found[0].property == Sample && found[0].distance.None?;
    var found1 := Search.Search([rated], c, distance);
    assert Properties(found1) == [rated];
    assert found1[0].property == rated && found1[0].distance.None?;
    assert ReplaceWhere([Sample], HasId("p1"), rated) == [rated];
  }
}
