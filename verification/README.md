# Property listing app: a verified model

This project models the core of a small property-listing web app for hotels and private
lodgings (民泊) in Japan. The app has four parts:

- a browser client with a search engine over the catalog;
- a repository kept in browser storage, holding the catalog and the ids of reviews written from this browser;
- the forms and screens for guests, owners and the administrator;
- a serverless backend that serves the same operations over a document store.

Everything is modelled as immutable datatypes and pure functions:

- Properties, reviews and announcements are records.
- The catalog is a sequence.
- A backend document is a map from field names to JSON-like values.
- Each screen's state is a small record, and each handler is a transition.
- Whatever a handler receives from outside is a parameter: the result of an asynchronous call, the user's answer to a confirmation dialog, a fresh id or a timestamp.

A property's rating is kept as an integer number of tenths of a star, so that all arithmetic is
exact. A review's rating is a whole number of stars.

Modules, one per source unit:

- `Types` (types.ts) and `Prefectures` (data/prefectures.ts): the records, the closed enumerations, and the table of seven regions.
- `Text` and `Seqs`: the JavaScript string and array operations the code relies on. These are `includes`, `trim`, `findIndex`, `filter` and the replacing `map`.
- `Sorting`: the stable sort behind the location search.
- `Rating`: the average rule shared by client and server.
- `Search`: `handleSearch` in App.tsx.
- `Repository`: services/apiService.ts.
- `App`: the handlers, `updateAppState` and the new-arrivals strip of App.tsx.
- `Routes` and `Backend`: backend/index.js.
- `SearchForm`, `PropertyForm`, `PropertyDetail`, `ReviewForm`, `AnnouncementForm`, `OwnerDashboard`, `AdminPanel`, `OwnerLogin` and `Login`: the components of the same names.

Every App.tsx handler that changes the catalog ends with `updateAppState`. That function re-runs a
`handleSearch` holding the catalog from before the change (see "## Findings"). So each such handler
takes a `Refresh` mode:

- `AsWritten` recomputes the results the way App.tsx does.
- `Corrected` recomputes them over the new catalog.

The contracts state both modes.

## Model

| member | source | states |
|---|---|---|
| Types.ParsePropertyType | types.ts:12-15 | a stored string reads as a property type exactly when it is that type's value (ホテル or 民泊) |
| Types.ParseTag | types.ts:17-26 | a stored string reads as a tag exactly when it is that tag's value |
| Types.ParseAmenity | types.ts:28-33 | a stored string reads as an amenity exactly when it is that amenity's value |
| Types.EnumerationsClosed | types.ts:12-33 | there are exactly two property types, eight tags and four amenities, all distinct, and the option lists hold every one |
| Types.PrefixedId | services/apiService.ts:304 | a new review's id is `rev-` followed by the creating token, and the token can be read back from the id; the same construction gives `ann-` and `prop-` ids on the client and, with a uuid as token, on the server |
| Prefectures.FindRegion | App.tsx:143 | a region is found exactly when some region of the table has that name, and the region found carries that name |
| Prefectures.FindIn | App.tsx:143 | `find` returns the first region with the name, and none when no region has it |
| Prefectures.EachRegionDistinct | data/prefectures.ts:6-35 | no region lists a prefecture twice |
| Prefectures.NorthernRegionsDisjoint | data/prefectures.ts:6-35 | the northern regions share no prefecture with any other region |
| Prefectures.CentralRegionsDisjoint | data/prefectures.ts:6-35 | the central regions share no prefecture with any other region |
| Prefectures.SouthernRegionsDisjoint | data/prefectures.ts:6-35 | the southern regions share no prefecture with any other region |
| Prefectures.RegionTableWellFormed | data/prefectures.ts:6-35 | seven regions with distinct names and 47 prefecture entries, each prefecture in exactly one region |
| Prefectures.KantoHoldsTokyoAndKanagawa | data/prefectures.ts:11-14 | 関東 is a region of the table and holds 東京都 and 神奈川県 |
| Text.Trim | components/ReviewForm.tsx:29 | the trimmed text is empty exactly when the input is all white space, and otherwise neither starts nor ends with white space |
| Text.ContainsEmpty | App.tsx:150 | `includes("")` holds of every string, so an empty keyword matches everything |
| Seqs.FirstIndex | services/apiService.ts:260 | `findIndex` gives the first position satisfying the test, and none exactly when no element does |
| Seqs.Filter | services/apiService.ts:276 | `filter` keeps exactly the elements passing the test, in order, each as often as in the input |
| Seqs.ReplaceWhere | App.tsx:236 | the replacing `map`: same length, every element passing the test becomes the new value, and every other stays at its place |
| Seqs.FilterIdempotent | services/apiService.ts:276 | filtering twice by the same test is filtering once |
| Rating.RoundTenths | services/apiService.ts:296 | `toFixed(1)` rounds to the nearest tenth, halves away from zero |
| Rating.RoundTenthsUnique | services/apiService.ts:296 | any whole number of tenths in that half-open interval is the rounded value, so the interval fixes the result |
| Rating.AverageTenths | services/apiService.ts:293-297 | the rating is 0 with no reviews, and otherwise the mean rounded to tenths with a half rounded away from zero |
| Rating.AverageWithin | services/apiService.ts:293-297 | when all ratings lie between lo and hi, so does the rounded mean |
| Rating.AverageExamples | services/apiService.ts:293-297 | worked values: [5] rates 5.0, [5,3] 4.0, [3,4,4,4] 3.8, [1,2] 1.5, [4,4,4,5] 4.3 |
| Sorting.SortBy | App.tsx:139 | the result is sorted by ascending key and is a permutation of the input |
| Sorting.SortByStable | App.tsx:139 | elements with equal keys keep their relative order |
| Search.Search | App.tsx:127-161 | a location ranks the whole catalog by distance; otherwise the region, area and tag tests apply in that order, the first one given deciding alone, and the result keeps each passing property as often as the catalog has it, in order |
| Search.LocationSearchReturnsAll | App.tsx:132-139 | a location search returns every property, ordered by ascending distance and stable among equal distances |
| Search.LocationOverridesFilters | App.tsx:132-140 | with a location, region, area and tag do not affect the result |
| Search.RegionSearchExact | App.tsx:142-147 | a region search keeps exactly the properties whose address names a prefecture of that region; an unknown region keeps none |
| Search.AreaSearchExact | App.tsx:149-151 | without a region, an area keeps exactly the properties whose address or name contains it |
| Search.TagSearchExact | App.tsx:152-154 | with only a tag, exactly the properties listing it are kept, and a property without tags is dropped |
| Search.EmptyCriteriaReturnsCatalog | App.tsx:155 | with no criterion the whole catalog comes back in order |
| Repository.IndexOfProperty | services/apiService.ts:260 | the position of the first property with the id, and none exactly when no property has it |
| Repository.SaveProperty | services/apiService.ts:258-272 | a known id is replaced in place, with length and every other index unchanged; a new id goes to index 0 |
| Repository.DeleteProperty | services/apiService.ts:274-279 | every record with the id is dropped and every other keeps its place in order and its multiplicity; a missing id changes nothing |
| Repository.RecalculateRating | services/apiService.ts:293-297 | 0 with no reviews; otherwise the mean rounded to tenths, a half away from zero, lying between ten times the lowest and ten times the highest star count |
| Repository.AddReview | services/apiService.ts:299-318 | fails exactly on an unknown property; otherwise appends the review with a `rev-` id, recomputes the rating, appends the id to the stored review ids, and changes no other property |
| Repository.UpdateReview | services/apiService.ts:320-336 | fails on an unknown property or review id; otherwise replaces that review at its index and recomputes the rating |
| Repository.DeleteReview | services/apiService.ts:338-354 | fails only on an unknown property; removes exactly the id from the reviews and from the stored review ids, every other review and id staying as often as before and in order, and recomputes the rating |
| Repository.DropReview | services/apiService.ts:344 | no review left has the id, every other review stays as often as before, in order |
| Repository.ForgetId | services/apiService.ts:351 | the id leaves the stored review ids, every other id stays as often as before, in order |
| Repository.AddAnnouncement | services/apiService.ts:359-377 | fails on an unknown property; otherwise puts an `ann-` announcement with the creation time first, leaving reviews and rating alone |
| Repository.UpdateAnnouncement | services/apiService.ts:380-395 | fails on an unknown property or announcement id; otherwise replaces that announcement in place |
| Repository.DeleteAnnouncement | services/apiService.ts:397-409 | fails only on an unknown property; removes exactly the announcements with the id, every other keeping its multiplicity and order, and changes nothing else |
| Repository.SaveThenFind | services/apiService.ts:258-272 | after a save, looking the id up finds the saved record |
| Repository.SaveIdempotent | services/apiService.ts:258-272 | saving the same record twice is saving it once |
| Repository.SaveNewThenDelete | services/apiService.ts:258-279 | saving a new id and then deleting it gives the catalog back |
| Repository.SaveKeepsIdsUnique | services/apiService.ts:258-272 | saving keeps property ids unique |
| Repository.DeleteKeepsIdsUnique | services/apiService.ts:274-279 | deleting keeps property ids unique |
| Repository.SaveKeepsRatingsConsistent | services/apiService.ts:258-272 | saving records whose ratings match their reviews keeps every rating consistent |
| Repository.ReviewOperationsKeepRatingsConsistent | services/apiService.ts:299-354 | every review operation leaves each property's rating equal to the one its reviews give |
| Repository.AnnouncementOperationsKeepRatingsConsistent | services/apiService.ts:359-409 | announcement operations leave reviews and ratings untouched |
| Repository.AddThenDeleteReview | services/apiService.ts:299-354 | adding a review with a fresh id and deleting it restores the store exactly, review ids included |
| Repository.AddThenDeleteAnnouncement | services/apiService.ts:359-409 | adding an announcement with a fresh id and deleting it restores the store exactly |
| Repository.UpdateReviewLastWins | services/apiService.ts:320-336 | updating a review twice keeps only the second version |
| App.HandleSearch | App.tsx:127-161 | the criteria are remembered, the results page shows, and the results are those of the criteria over the catalog |
| App.HandleSelectProperty | App.tsx:163-175 | on a successful save the view count rises by exactly one in the catalog, the results and the selection, the results entry keeps the distance of the hit clicked, and nothing else changes; on failure the clicked property is selected as given and nothing else changes |
| App.SelectedHitKeepsDistance | App.tsx:164-169 | opening a hit of a location search leaves that results entry with the same distance and a view count one higher |
| App.SelectMirrorsStore | App.tsx:163-170 | after a view is recorded the in-memory catalog equals what the repository stored |
| App.Follow | App.tsx:215-223 | the selection and the owner's property follow the changed property into the new catalog, or are cleared if it is gone |
| App.UpdateAppStateAsWritten | App.tsx:212-228 | as written: the new catalog is installed and the selection and owner's property follow it, but the results are recomputed over the catalog before the change; without criteria they stay; the results page is shown while criteria are set |
| App.UpdateAppState | App.tsx:212-228 | corrected: the results are those of the current criteria over the new catalog; without criteria they stay; the results page is shown while criteria are set |
| App.Update | App.tsx:212-228 | the closing update of every handler, as written or corrected: the catalog is installed, the selection and owner's property follow, criteria, review ids and error stay, and the results are refreshed as that mode does; the results page is shown while criteria are set |
| App.UpdatedReviewStaleInResults | App.tsx:270-279 | counterexample: updating a review during a search, as written, leaves the card in the results with the old rating while the catalog and the selection carry the new one; the corrected update shows the new rating |
| App.HandleSaveProperty | App.tsx:230-243 | a new id goes to the head of the catalog and a known id is replaced in place; the selection and owner's property follow the saved record; the results are recomputed as written over the catalog before the save, or corrected over the new one; criteria, error and the review ids stay, and a page of results is shown while criteria are set; a failure only sets the error |
| App.SaveMirrorsStore | App.tsx:230-238 | the in-memory catalog after a save equals the repository's |
| App.HandleDeleteProperty | App.tsx:245-256 | after confirmation exactly the records with the id leave the catalog, the others keeping their order and multiplicity, a selection or owner's property with the id is cleared, and the results are recomputed as in a save, while criteria, error and the review ids stay and a page of results is shown while criteria are set; declining changes nothing; a failure only sets the error |
| App.ApplyChange | App.tsx:295-299 | the tail of the review and announcement handlers: the returned property replaces every record with the id and the rest stay; the selection and owner's property follow; review ids stay; the results are recomputed as in a save; criteria, error and the review ids stay, and a page of results is shown while criteria are set; a failure only sets the error |
| App.DeleteMirrorsStore | App.tsx:245-250 | the in-memory catalog after a delete equals the repository's |
| App.HandleAddReview | App.tsx:258-268 | on success the new review id is appended to this client's ids, the returned property replaces the old one, the selection and the owner's property both follow it and the results are recomputed as in a save; criteria and error stay, and a page of results is shown while criteria are set; a failure only sets the error |
| App.HandleDeleteReview | App.tsx:281-293 | only after confirmation; on success the review id leaves this client's ids and every other id stays with its multiplicity and order, the returned property replaces the old one, the selection and the owner's property both follow and the results are recomputed as in a save; criteria and error stay, and a page of results is shown while criteria are set; a failure only sets the error |
| App.HandleUpdateReview | App.tsx:270-279 | the returned property replaces the old one, the selection and the owner's property both follow and the results are recomputed as in a save; criteria, error and the review ids stay, and a page of results is shown while criteria are set; a failure only sets the error |
| App.HandleAddAnnouncement | App.tsx:295-304 | the returned property replaces the old one, the owner's property and the selection both follow and the results are recomputed as in a save; criteria, error and the review ids stay, and a page of results is shown while criteria are set; a failure only sets the error |
| App.HandleUpdateAnnouncement | App.tsx:306-315 | the returned property replaces the old one, the owner's property and the selection both follow and the results are recomputed as in a save; criteria, error and the review ids stay, and a page of results is shown while criteria are set; a failure only sets the error |
| App.HandleDeleteAnnouncement | App.tsx:317-327 | only after confirmation; the returned property replaces the old one, the owner's property and the selection both follow and the results are recomputed as in a save; criteria, error and the review ids stay, and a page of results is shown while criteria are set; a failure only sets the error |
| App.AddReviewMirrorsStore | App.tsx:258-268 | adding a review keeps the catalog and the review ids equal to the repository's, on success and on failure |
| App.UpdateReviewMirrorsStore | App.tsx:270-279 | updating a review keeps the catalog and the review ids equal to the repository's, on success and on failure |
| App.DeleteReviewMirrorsStore | App.tsx:281-293 | deleting a review keeps the catalog and the review ids equal to the repository's, on success and on failure |
| App.AnnouncementHandlersMirrorStore | App.tsx:295-327 | the announcement handlers keep the catalog equal to the repository's |
| App.NewArrivals | App.tsx:39-66 | the strip shows the first eight properties, twice in a row from two properties on |
| App.NewArrivalsLeadWithNewest | App.tsx:39-66 | every strip entry is one of the first eight, and a property just saved under a new id leads the strip |
| Routes.Split | backend/index.js:51 | the segments contain no `/` and joined again give the path |
| Routes.ParseRoute | backend/index.js:44-140 | every id a route captures is non-empty and free of `/` |
| Routes.RouteRoundTrip | backend/index.js:44-140 | every route with proper ids is selected by its own path |
| Routes.ParseRouteExact | backend/index.js:44-140 | a path selects a route only if it is exactly that route's path |
| Backend.ListOrEmpty | backend/index.js:21 | a missing or falsy list reads as empty |
| Backend.FindById | backend/index.js:106 | `findIndex` on ids gives the first match, none when nothing matches, and throws on a null item |
| Backend.FilterOutId | backend/index.js:117 | no kept item has the id, every item without it is kept as often as before and in order, and a null item throws |
| Backend.Update | backend/index.js:24 | updating a missing document throws; otherwise the document gains the fields' keys, each field's value wins, the other keys keep theirs, and no other document changes |
| Backend.ArrayUnion | backend/index.js:86 | `arrayUnion` appends a value not yet in the array, keeps the array when it is, and starts one when there is none |
| Backend.WithId | backend/index.js:46 | `{ id, ...doc }`: every field of the document is kept, and the id is added unless the document has its own |
| Backend.Recalculate | backend/index.js:15-32 | nothing for a missing property; 0 with no reviews; otherwise the mean rounded to tenths |
| Backend.ServerRatingMatchesClient | backend/index.js:15-32 | for reviews stored by the client, the server computes the client's rating |
| Backend.RecalculateIgnoresRating | backend/index.js:15-32 | the recomputed rating does not depend on the rating stored before |
| Backend.Listing | backend/index.js:44-48 | GET answers an array holding exactly one entry per stored document, that document with its id |
| Backend.PutThenListed | backend/index.js:44-64 | after a successful PUT the listing holds the document the PUT answered with |
| Backend.PutProperty | backend/index.js:56-64 | the body's id is discarded; without a truthy name and owner user name the answer is 400 and nothing is written; otherwise the body is merged over the document |
| Backend.PutMerges | backend/index.js:56-64 | a valid body's fields other than id overwrite the stored ones, and the other stored fields stay |
| Backend.PutIdempotent | backend/index.js:56-64 | storing the same body twice stores what storing it once does |
| Backend.DeleteProperty | backend/index.js:67-75 | 404 for a missing property; otherwise it is removed and the answer is 200 |
| Backend.PutThenDelete | backend/index.js:56-75 | creating a property and deleting it gives the store back |
| Backend.PostReview | backend/index.js:83-90 | the body gets a `rev-` id and is added to the reviews; the rating is recomputed over them and the answer is 201 with the updated property and the new review; a recomputation that throws answers 500 |
| Backend.PostReviewAppends | backend/index.js:83-90 | a review with a new id is appended to the reviews |
| Backend.ReviewRoute | backend/index.js:94-123 | 404 for a missing property or, on PUT, a missing review; PUT merges the body over the review and answers 200 with `{ id, ...doc }`; DELETE filters the id and answers 200 with `{ updatedProperty: { id, ...doc } }`; both recompute the rating first, and on PUT a throwing recomputation answers 500 |
| Backend.PutReviewThenFound | backend/index.js:105-112 | a nested PUT answers 200 or 500; on 200 the merged review takes the found review's place and looking its id up finds it there |
| Backend.PutStoredReview | backend/index.js:105-112 | putting a review exactly as stored leaves the reviews as they were and only recomputes the rating |
| Backend.DeleteMissingReview | backend/index.js:116-122 | deleting a review that does not exist still answers 200 and keeps the reviews |
| Backend.PostThenDeleteReview | backend/index.js:83-122 | posting a review and deleting it by its new id restores the reviews |
| Backend.PostAnnouncement | backend/index.js:130-136 | the body gets an `ann-` id and the creation time, is added to the announcements, and the answer is 201 |
| Backend.AnnouncementRoute | backend/index.js:140-166 | like reviews, without a rating: 404 for a missing property or announcement, a merge on PUT, a filter on DELETE, each answering 200 with `{ id, ...doc }` of the stored property |
| Backend.PutAnnouncementThenFound | backend/index.js:150-156 | a nested PUT answers 200 with the merged announcement in the found one's place, found again by its id; putting it as stored changes nothing |
| Backend.DeleteMissingAnnouncement | backend/index.js:160-165 | deleting an announcement that does not exist still answers 200 and changes nothing |
| Backend.PostThenDeleteAnnouncement | backend/index.js:130-165 | posting an announcement and deleting it by its new id gives the store back |
| Backend.Handle | backend/index.js:36-175 | a path matching no route is 404, and every answer is one of 200, 201, 400, 404 and 500 |
| Backend.HandleDispatch | backend/index.js:36-175 | a request to a route's path reaches that route's handler |
| SearchForm.FirstPrefecture | components/SearchForm.tsx:70-81 | a property is counted under the first prefecture, region by region, that its address names, and under none when it names none |
| SearchForm.FindPrefecture | components/SearchForm.tsx:70-81 | the nested loops with an early exit find exactly that first prefecture |
| SearchForm.CountByPrefecture | components/SearchForm.tsx:66-84 | each prefecture's count is the number of properties counted under it; only prefectures of the table with a positive count are keys |
| SearchForm.RegionCountCountsOnce | components/SearchForm.tsx:86-88 | a region's count is the number of properties counted under one of its prefectures, at most the number of properties |
| SearchForm.AllCountsBounded | components/SearchForm.tsx:66-84 | the counts of all prefectures add up to at most the number of properties |
| SearchForm.CountedIsInRegion | components/SearchForm.tsx:70-88 | a property counted in a region is found by that region's search |
| SearchForm.PrefectureCriteria | components/SearchForm.tsx:90-92 | a prefecture button searches by area alone |
| SearchForm.RegionCriteria | components/SearchForm.tsx:94-96 | a region button searches by region alone |
| SearchForm.KeywordCriteria | components/SearchForm.tsx:98-102 | a blank keyword searches nothing; any other is the area, untrimmed |
| SearchForm.PrefectureSearchFindsArea | components/SearchForm.tsx:90-92 | a prefecture button finds exactly the properties whose address or name contains it |
| SearchForm.KeywordSearchFindsArea | components/SearchForm.tsx:98-102 | a keyword finds exactly the properties whose address or name contains it |
| SearchForm.RegionSearchFindsRegion | components/SearchForm.tsx:94-96 | a region button finds exactly the properties of that region |
| SearchForm.ToggleRegion | components/SearchForm.tsx:136-138 | clicking the open region closes it, and clicking another opens it |
| SearchForm.ToggleTwice | components/SearchForm.tsx:136-138 | clicking the same region twice restores the accordion when that region or none was open |
| SearchForm.InitialRegionListed | components/SearchForm.tsx:57 | the region open at first, 関東, is in the table and holds the capital |
| PropertyForm.Load | components/PropertyForm.tsx:42-83 | a property fills the form, with a missing LINE URL as empty and missing tags as none; without one the form resets to the defaults |
| PropertyForm.Dedup | components/PropertyForm.tsx:59-60 | `new Set` keeps each element once, with the same members |
| PropertyForm.Toggle | components/PropertyForm.tsx:91-109 | exactly the clicked element flips membership, and an added one goes last |
| PropertyForm.ToggleTwice | components/PropertyForm.tsx:91-109 | toggling twice restores the members, and the exact order when the element was absent |
| PropertyForm.RemovePhoto | components/PropertyForm.tsx:129-131 | removing photo i drops exactly that photo |
| PropertyForm.RemovePhotoShifts | components/PropertyForm.tsx:129-131 | the other photos keep their order, the later ones one place earlier |
| PropertyForm.Submit | components/PropertyForm.tsx:146-162 | an edit keeps the id, reviews, announcements, view count and rating; a new property gets a `prop-` id and none; fields come from the form; photos are never empty |
| PropertyForm.LoadThenSubmit | components/PropertyForm.tsx:42-162 | opening a property and submitting it unchanged sends the same property back |
| PropertyForm.NewPropertyDefaults | components/PropertyForm.tsx:18-32 | a new property from the reset form has price 10000, check-in 15:00, check-out 10:00, nothing checked and the placeholder photo |
| PropertyDetail.NextPhoto | components/PropertyDetail.tsx:31-33 | the index stays below the number of photos and wraps from the last to the first |
| PropertyDetail.PrevPhoto | components/PropertyDetail.tsx:35-37 | the index stays below the number of photos and wraps from the first to the last |
| PropertyDetail.NextPrevInverse | components/PropertyDetail.tsx:31-37 | next then previous, and previous then next, return to the photo shown |
| PropertyDetail.NextTimesMoves | components/PropertyDetail.tsx:31-33 | k clicks on next move k places round the carousel |
| PropertyDetail.FullTurn | components/PropertyDetail.tsx:31-33 | as many clicks on next as there are photos return to the photo shown |
| PropertyDetail.RoundHalfUp | components/PropertyDetail.tsx:42 | `Math.round` gives the whole number within a half, a half rounding up |
| PropertyDetail.Stars | components/PropertyDetail.tsx:39-45 | five stars, star i filled exactly when i is at most the rounded rating |
| PropertyDetail.FilledStars | components/PropertyDetail.tsx:39-45 | the number of filled stars is the rounded rating, capped at five and at least none |
| PropertyDetail.PropertyStars | components/PropertyDetail.tsx:115 | a rating in tenths shows its tenths rounded half up to whole stars |
| PropertyDetail.ReviewStars | components/PropertyDetail.tsx:192 | a review of one to five stars shows exactly that many filled |
| PropertyDetail.OpenNewReview | components/PropertyDetail.tsx:47-50 | adding opens the form with no review to edit, on the same photo |
| PropertyDetail.OpenEditReview | components/PropertyDetail.tsx:52-55 | editing opens the form on that review, on the same photo |
| PropertyDetail.CancelReview | components/PropertyDetail.tsx:71-74 | cancelling closes the form and forgets the review |
| PropertyDetail.SubmitReview | components/PropertyDetail.tsx:61-69 | a submission with an id updates that review, one without adds; either way the form closes and forgets the review |
| PropertyDetail.EditFlowUpdatesSameReview | components/PropertyDetail.tsx:52-69 | editing a review sends an update of that same id with the form's text |
| PropertyDetail.NewFlowAddsReview | components/PropertyDetail.tsx:47-69 | adding a review sends an add of the form's text |
| PropertyDetail.Controls | components/PropertyDetail.tsx:188-196 | edit and delete controls show exactly on reviews whose id is among this client's |
| PropertyDetail.AddedReviewHasControls | components/PropertyDetail.tsx:188-196 | a review just added carries controls, and no other review's controls change |
| ReviewForm.Load | components/ReviewForm.tsx:19-25 | an edited review fills the name, rating and comment; without one the form keeps what it holds |
| ReviewForm.ClickStar | components/ReviewForm.tsx:66-69 | clicking star k chooses exactly k, in 1..5 |
| ReviewForm.Hover | components/ReviewForm.tsx:70-71 | the pointer entering a star previews it, leaving previews none, and nothing else in the form changes |
| ReviewForm.LitStarsShowRating | components/ReviewForm.tsx:70-79 | without a preview the lit stars are exactly the chosen rating |
| ReviewForm.Submit | components/ReviewForm.tsx:27-45 | refused exactly when the name or comment is blank; otherwise the untrimmed text goes, with the edited review's id when there is one |
| ReviewForm.RatingStaysInRange | components/ReviewForm.tsx:15 | the rating starts at five and stays in 1..5 |
| ReviewForm.EditUnchangedRoundTrip | components/ReviewForm.tsx:19-45 | opening a review and submitting it unchanged sends it back, id included |
| AnnouncementForm.Load | components/AnnouncementForm.tsx:14-22 | an announcement fills title and content; none empties both |
| AnnouncementForm.Submit | components/AnnouncementForm.tsx:24-31 | refused exactly when title or content is blank; otherwise both go untrimmed, without id or date |
| AnnouncementForm.LoadThenSubmit | components/AnnouncementForm.tsx:14-31 | an opened announcement submits its own title and content, and a reset form refuses until both are typed |
| OwnerDashboard.SaveProperty | components/OwnerDashboard.tsx:21-25 | the property goes to the app once and the analytics tab shows |
| OwnerDashboard.CreateClick | components/OwnerDashboard.tsx:27-30 | creating clears the edited announcement and sets creating |
| OwnerDashboard.EditClick | components/OwnerDashboard.tsx:32-35 | editing sets the edited announcement and clears creating |
| OwnerDashboard.Cancel | components/OwnerDashboard.tsx:37-40 | cancelling clears both modes |
| OwnerDashboard.Submit | components/OwnerDashboard.tsx:42-49 | while editing, the update keeps the announcement's id and creation time; otherwise an add; both modes clear |
| OwnerDashboard.DeleteClick | components/OwnerDashboard.tsx:51-53 | delete asks the app to delete that announcement of this property |
| OwnerDashboard.SelectTab | components/OwnerDashboard.tsx:65 | a tab button shows its tab and leaves the announcement modes alone |
| OwnerDashboard.CancelPropertyEdit | components/OwnerDashboard.tsx:126 | cancelling the property form goes back to the analytics tab, leaving the announcement modes alone |
| OwnerDashboard.TransitionsKeepModesExclusive | components/OwnerDashboard.tsx:17-53 | creating and editing are never on together, and the form shows after create or edit |
| OwnerDashboard.EditUnchangedSendsSame | components/OwnerDashboard.tsx:32-49 | submitting an opened announcement unchanged sends it back whole |
| OwnerDashboard.CreateSendsAdd | components/OwnerDashboard.tsx:27-49 | a new announcement is sent as typed and the form closes |
| AdminPanel.EditClick | components/AdminPanel.tsx:19-22 | edit opens the form on the property, not creating |
| AdminPanel.CreateNew | components/AdminPanel.tsx:24-27 | create opens an empty form, creating |
| AdminPanel.Cancel | components/AdminPanel.tsx:29-32 | cancel clears both modes and shows the list |
| AdminPanel.Save | components/AdminPanel.tsx:34-38 | save forwards the property exactly once and clears both modes |
| AdminPanel.EditUnchangedSavesSame | components/AdminPanel.tsx:19-38 | editing and saving unchanged forwards the same property |
| AdminPanel.CreateSavesNew | components/AdminPanel.tsx:24-38 | a created property is forwarded with a fresh id and no reviews |
| OwnerLogin.FindOwned | components/OwnerLogin.tsx:17-19 | a property is found exactly when one has both the user name and password, and the first such is returned |
| OwnerLogin.Submit | components/OwnerLogin.tsx:15-28 | success clears the error; failure sets it and clears the password, keeping the user name |
| OwnerLogin.RetryWithoutTypingFails | components/OwnerLogin.tsx:24-26 | after a failure, resubmitting without typing fails again when no password is empty |
| OwnerLogin.SavedOwnerCanSignIn | components/OwnerLogin.tsx:17-23 | a saved property's owner can sign in with its stored credentials |
| Login.Submit | components/Login.tsx:13-24 | success exactly for `password123`, clearing the error; failure sets the error and clears the password |
| Login.RetryWithoutTypingFails | components/Login.tsx:20-23 | after a failure, resubmitting without typing fails again |

## Left out

- The great-circle distance (App.tsx:27-37) is floating-point trigonometry. It is a parameter of type `(Location, Property) -> real`.
- `toFixed(1)` and `parseFloat` are modelled on exact rationals. Binary floating-point artefacts in the mean are not modelled.
- App.HandleSelectProperty: the `|| 0` on the view count is the identity here. The view count is a required integer.
- App.HandleSelectProperty: the clicked hit's `distance` also goes into the catalog, browser storage (App.tsx:166-168) and the selection, where later non-location results and the new-arrivals strip would show it. Here the catalog holds properties without a distance, so only the results entry keeps it.
- Browser storage, JSON (de)serialisation and the seed catalog of services/apiService.ts are I/O. The repository works on a `Store` value.
- Firestore:
  - `merge: true` is modelled as a top-level field merge, not a deep merge.
  - The order in which documents are listed is a parameter, which lists each stored id once.
  - `arrayUnion` is modelled as append-unless-equal.
- CORS, uuid and `new Date().toISOString()` are foreign calls. Fresh ids and timestamps are parameters.
- Backend.PostReview, Backend.PostAnnouncement, Backend.ReviewRoute, Backend.AnnouncementRoute: `{...body}` on a string or array body would copy index-named fields. The model copies the fields of object bodies only, and treats any other body as having none.
- Backend.Recalculate: a rating that is not a number collapses to the single value `NaN`. JavaScript's string concatenation in `sum + review.rating` is not modelled.
- Document ids with characters Firestore forbids are not modelled.
- `window.confirm`, `alert`, geolocation and the FileReader photo upload are browser I/O. A confirmation is a boolean parameter; the others are left out.
- Asynchronous interleaving, and races between clients, are concurrency and are not modelled.
- The AI description generator (services/geminiService.ts and `handleGenerateDescription`) is an external call.
- server.js only serves static files and is not part of this model.
- Presentation-only components, and the tag label table in data/tags.ts, are not modelled.
- App.tsx's `handleNavigate`, the view switching between user, admin and owner screens, and the initial load are not modelled.
- The client's `announcements || []` guard is not modelled, because announcements are a required field.
- Per-field editing in the property form (`handleChange`, `parseFloat`) is not modelled. The form's fields are set directly.
- The location search's error messages are not modelled.
- The owner dashboard's tab buttons are modelled only as `SelectTab`.
- ReviewForm.Load: the load effect keeps what the form holds when no review is given. The page remounts the form each time it opens, which is not modelled.
- PropertyDetail.NextPhoto: requires at least one photo. The page shows the buttons only when there is more than one photo, and a submitted property always has one.

## Findings

| source | as written | input that shows it | evidently intended | confidence | as-written member | corrected member |
|---|---|---|---|---|---|---|
| App.tsx:212-228 | `updateAppState` re-runs the `handleSearch` of the render that started the operation. That `handleSearch` closes over the catalog as it was before the change. | During a search, open a property and update (or add, or delete) a review on its page. Back on the results, its card still shows the old rating. | The results are recomputed over the new catalog. | not executed | App.UpdateAppStateAsWritten (shown by App.UpdatedReviewStaleInResults) | App.UpdateAppState |
