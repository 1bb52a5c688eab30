/** The backend request handler: one function from a request and the document store to a
    response and the next store. Documents are maps from field names to JSON-like values; the
    store maps property ids to documents. An error thrown part-way through answers 500 and
    keeps the writes made before it. Fresh ids (`uuid`) and timestamps (`now`) are parameters. */
module Backend {
  import opened Wrappers
  import opened Routes
  import opened Seqs
  import Rating
  import Types
  import Repository

  /** A stored or submitted value. `NaN` stands for the not-a-number result of arithmetic on a
      missing rating. */
  datatype Value =
    | Null
    | Bool(b: bool)
    | Num(n: real)
    | NaN
    | Str(s: string)
    | Arr(items: seq<Value>)
    | Obj(fields: map<string, Value>)

  type Doc = map<string, Value>
  type Db = map<string, Doc>

  datatype Request = Request(path: string, verb: string, body: Value)
  datatype Body = Text(message: string) | Json(value: Value)
  datatype Response = Response(status: int, body: Body)
  datatype Outcome = Outcome(response: Response, db: Db)

  const NotFound: Response := Response(404, Text("Not Found"))
  const PropertyNotFound: Response := Response(404, Text("Property not found"))
  const ReviewNotFound: Response := Response(404, Text("Review not found"))
  const AnnouncementNotFound: Response := Response(404, Text("Announcement not found"))
  const MissingFields: Response := Response(400, Text("Missing required property fields."))
  const ServerError: Response := Response(500, Text("Internal Server Error"))

  /** JavaScript truthiness. */
  predicate Truthy(v: Value) {
    match v
    case Null => false
    case Bool(b) => b
    case Num(n) => n != 0.0
    case NaN => false
    case Str(s) => s != ""
    case _ => true
  }

  /** `doc[key]` is present and truthy. */
  predicate FieldTruthy(doc: Doc, key: string) {
    key in doc && Truthy(doc[key])
  }

  /** `doc[key] || []`: a missing or falsy field reads as the empty list; any other value that is
      not an array is not a list at all, and the array methods called on it throw. */
  function ListOrEmpty(doc: Doc, key: string): (r: Option<seq<Value>>)
    ensures !FieldTruthy(doc, key) ==> r == Some([])
    ensures key in doc && doc[key].Arr? ==> r == Some(doc[key].items)
    ensures r.None? <==> FieldTruthy(doc, key) && !doc[key].Arr?
  {
    if !FieldTruthy(doc, key) then Some([])
    else if doc[key].Arr? then Some(doc[key].items)
    else None
  }

  /** The fields `{...v}` copies: those of an object, none of anything else. */
  function Spread(v: Value): Doc {
    if v.Obj? then v.fields else map[]
  }

  /** `{ id, ...doc }`: the document with its id in front; a stored `id` field would win. */
  function WithId(id: string, doc: Doc): (r: Value)
    ensures r.Obj? && "id" in r.fields
    ensures "id" !in doc ==> r.fields["id"] == Str(id)
    ensures forall k :: k in doc ==> k in r.fields && r.fields[k] == doc[k]
  {
    Obj(map["id" := Str(id)] + doc)
  }

  /** `item.id === id`: throws on a null item, is false for anything without that id. */
  function IdIs(v: Value, id: string): (r: Result<bool, ()>)
    ensures r.Err? <==> v.Null?
    ensures r == Ok(true) <==> v.Obj? && "id" in v.fields && v.fields["id"] == Str(id)
  {
    match v
    case Null => Err(())
    case Obj(m) => Ok("id" in m && m["id"] == Str(id))
    case _ => Ok(false)
  }

  /** `findIndex(item => item.id === id)`: stops at the first match, throws on a null item
      reached before it. */
  function FindById(items: seq<Value>, id: string): (r: Result<Option<nat>, ()>)
    ensures r.Ok? && r.value.Some? ==>
      r.value.value < |items| && IdIs(items[r.value.value], id) == Ok(true)
      && forall j :: 0 <= j < r.value.value ==> IdIs(items[j], id) == Ok(false)
    ensures r == Ok(None) <==> forall j :: 0 <= j < |items| ==> IdIs(items[j], id) == Ok(false)
    ensures r.Err? ==> exists j :: 0 <= j < |items| && items[j].Null?
  {
    if |items| == 0 then Ok(None)
    else match IdIs(items[0], id)
      case Err(_) => Err(())
      case Ok(true) => Ok(Some(0))
      case Ok(false) =>
        match FindById(items[1..], id)
        case Err(_) => Err(())
        case Ok(None) => Ok(None)
        case Ok(Some(k)) => Ok(Some(k + 1))
  }

  /** The filter test keeping items without id `id`. */
  function LacksId(id: string): Value -> bool {
    (v: Value) => IdIs(v, id) != Ok(true)
  }

  /** `filter(item => item.id !== id)`: visits every item, so any null item throws; otherwise
      every item with that id goes and every other one stays, in order and as often as before. */
  function FilterOutId(items: seq<Value>, id: string): (r: Result<seq<Value>, ()>)
    ensures r.Err? <==> Null in items
    ensures r.Ok? ==> forall i :: 0 <= i < |r.value| ==> IdIs(r.value[i], id) == Ok(false)
    ensures r.Ok? ==> forall i :: 0 <= i < |items| && IdIs(items[i], id) == Ok(false) ==> items[i] in r.value
    ensures r.Ok? ==> forall x :: multiset(r.value)[x] == if IdIs(x, id) == Ok(true) then 0 else multiset(items)[x]
    ensures r.Ok? ==> IsSubsequence(r.value, items)
  {
    if Null in items then Err(()) else Ok(Filter(items, LacksId(id)))
  }

  /** A review whose rating is a number. */
  predicate Rated(v: Value) {
    v.Obj? && "rating" in v.fields && v.fields["rating"].Num?
  }

  /** The ratings `reduce` adds up: a null review throws; when every review is rated, their
      numbers; otherwise the sum is not a number. */
  function RatingsOf(items: seq<Value>): (r: Result<Option<seq<real>>, ()>)
    ensures r.Err? <==> Null in items
    ensures r == Ok(None) <==> Null !in items && exists i :: 0 <= i < |items| && !Rated(items[i])
    ensures r.Ok? && r.value.Some? ==>
      |r.value.value| == |items| &&
      forall i :: 0 <= i < |items| ==> Rated(items[i]) && r.value.value[i] == items[i].fields["rating"].n
  {
    if |items| == 0 then Ok(Some([]))
    else
      assert items == [items[0]] + items[1..];
      var rest := RatingsOf(items[1..]);
      if items[0].Null? then Err(())
      else if rest.Err? then Err(())
      else if !Rated(items[0]) || rest.value.None? then
        assert !Rated(items[0]) || !Rated(items[1..][(var i :| 0 <= i < |items[1..]| && !Rated(items[1..][i]); i)]);
        Ok(None)
      else
        assert forall i :: 0 < i < |items| ==> items[i] == items[1..][i - 1];
        Ok(Some([items[0].fields["rating"].n] + rest.value.value))
  }

  /** `propertyRef.update(fields)`: throws when the document does not exist; otherwise the fields
      replace the document's fields of the same name. */
  function Update(db: Db, id: string, fields: Doc): (r: Result<Db, Db>)
    ensures r.Err? <==> id !in db
    ensures r.Err? ==> r.error == db
    ensures r.Ok? ==> r.value.Keys == db.Keys
    ensures r.Ok? ==> forall other :: other in db && other != id ==> r.value[other] == db[other]
    ensures r.Ok? ==> r.value[id].Keys == db[id].Keys + fields.Keys
    ensures r.Ok? ==> forall k :: k in fields ==> r.value[id][k] == fields[k]
    ensures r.Ok? ==> forall k :: k in db[id] && k !in fields ==> r.value[id][k] == db[id][k]
  {
    if id in db then Ok(db[id := db[id] + fields]) else Err(db)
  }

  /** `recalculateRating`: does nothing for a missing property; sets the rating to 0 with no
      reviews, to the mean rounded to one decimal when every review is rated, and to NaN when some
      is not; throws on a reviews field that is not a list or on a null review. */
  function Recalculate(db: Db, id: string): (r: Result<Db, Db>)
    ensures r.Err? ==> r.error == db
    ensures id !in db ==> r == Ok(db)
    ensures r.Ok? ==> r.value.Keys == db.Keys
    ensures r.Ok? && id in db ==>
      && r.value == db[id := r.value[id]]
      && "rating" in r.value[id]
      && r.value[id] == db[id]["rating" := r.value[id]["rating"]]
    ensures id in db && ListOrEmpty(db[id], "reviews") == Some([]) ==>
      r == Ok(db[id := db[id]["rating" := Num(0.0)]])
    ensures id in db && ListOrEmpty(db[id], "reviews").Some? && |ListOrEmpty(db[id], "reviews").value| > 0 &&
            RatingsOf(ListOrEmpty(db[id], "reviews").value).Ok? &&
            RatingsOf(ListOrEmpty(db[id], "reviews").value).value.Some? ==>
      var ratings := RatingsOf(ListOrEmpty(db[id], "reviews").value).value.value;
      r == Ok(db[id := db[id]["rating" := Num(Rating.AverageTenths(ratings) as real / 10.0)]])
  {
    if id !in db then Ok(db)
    else match ListOrEmpty(db[id], "reviews")
      case None => Err(db)
      case Some(items) =>
        if |items| == 0 then Ok(db[id := db[id]["rating" := Num(0.0)]])
        else match RatingsOf(items)
          case Err(_) => Err(db)
          case Ok(None) => Ok(db[id := db[id]["rating" := NaN]])
          case Ok(Some(ratings)) =>
            Ok(db[id := db[id]["rating" := Num(Rating.AverageTenths(ratings) as real / 10.0)]])
  }

  /** `FieldValue.arrayUnion(x)` applied to a field: appends `x` unless an equal element is there
      already; a field that is not an array becomes `[x]`. */
  function ArrayUnion(doc: Doc, key: string, x: Value): (r: seq<Value>)
    ensures x in r
    ensures key in doc && doc[key].Arr? && x !in doc[key].items ==> r == doc[key].items + [x]
    ensures key in doc && doc[key].Arr? && x in doc[key].items ==> r == doc[key].items
    ensures !(key in doc && doc[key].Arr?) ==> r == [x]
  {
    if key in doc && doc[key].Arr? then
      if x in doc[key].items then doc[key].items else doc[key].items + [x]
    else [x]
  }

  /** The order the store hands its documents out in: every stored id exactly once. */
  predicate EnumeratesOnce(order: seq<string>, db: Db) {
    && NoDuplicates(order)
    && (forall id :: id in db ==> id in order)
    && (forall i :: 0 <= i < |order| ==> order[i] in db)
  }

  /** GET /properties: a JSON array holding every stored property with its id, one entry per
      document, in the order the store hands them out. */
  function Listing(db: Db, order: seq<string>): (r: Value)
    requires EnumeratesOnce(order, db)
    ensures r.Arr? && |r.items| == |order|
    ensures forall id :: id in db ==> WithId(id, db[id]) in r.items
    ensures forall i :: 0 <= i < |r.items| ==> order[i] in db && r.items[i] == WithId(order[i], db[order[i]])
  {
    Arr(Entries(db, order))
  }

  /** The listing entries for the ids in `order`. */
  function Entries(db: Db, order: seq<string>): (r: seq<Value>)
    requires forall i :: 0 <= i < |order| ==> order[i] in db
    ensures |r| == |order|
    ensures forall i :: 0 <= i < |order| ==> r[i] == WithId(order[i], db[order[i]])
  {
    if |order| == 0 then [] else [WithId(order[0], db[order[0]])] + Entries(db, order[1..])
  }

  /** PUT /properties/:id: the body's own id is discarded; without a truthy name and owner user
      name the answer is 400; otherwise the body is merged over the stored document (or becomes
      it) and the merged document is returned. A null body throws. */
  function PutProperty(db: Db, id: string, body: Value): (o: Outcome)
    ensures body.Null? ==> o == Outcome(ServerError, db)
    ensures !body.Null? && !(body.Obj? && FieldTruthy(body.fields - {"id"}, "name")
                                      && FieldTruthy(body.fields - {"id"}, "ownerUsername")) ==>
      o == Outcome(MissingFields, db)
    ensures o.response.status == 200 ==>
      var doc := (if id in db then db[id] else map[]) + (body.fields - {"id"});
      o.db == db[id := doc] && o.response.body == Json(WithId(id, doc))
  {
    match body
    case Null => Outcome(ServerError, db)
    case Obj(m) =>
      var fields := m - {"id"};
      if !FieldTruthy(fields, "name") || !FieldTruthy(fields, "ownerUsername") then Outcome(MissingFields, db)
      else
        var doc := (if id in db then db[id] else map[]) + fields;
        Outcome(Response(200, Json(WithId(id, doc))), db[id := doc])
    case _ => Outcome(MissingFields, db)
  }

  /** DELETE /properties/:id: 404 for a missing property, otherwise removes it and answers 200
      with its id. */
  function DeleteProperty(db: Db, id: string): (o: Outcome)
    ensures id !in db <==> o.response == PropertyNotFound
    ensures id !in db ==> o.db == db
    ensures id in db ==> o.response.status == 200 && o.db == db - {id} && id !in o.db
  {
    if id !in db then Outcome(PropertyNotFound, db)
    else Outcome(Response(200, Json(Obj(map["success" := Bool(true), "id" := Str(id)]))), db - {id})
  }

  /** POST /properties/:id/reviews: the body with a fresh `rev-` id is added to the reviews, the
      rating is recomputed and 201 returns the property and the new review. Adding to a missing
      property throws. */
  function PostReview(db: Db, id: string, body: Value, uuid: string): (o: Outcome)
    ensures id !in db ==> o == Outcome(ServerError, db)
    ensures o.response.status == 201 ==>
      && id in db && id in o.db
      && o.response.body.Json? && o.response.body.value.Obj?
      && "newReview" in o.response.body.value.fields
      && var review := o.response.body.value.fields["newReview"];
         && review == Obj(Spread(body)["id" := Str(Types.PrefixedId(Types.ReviewPrefix, uuid))])
         && "reviews" in o.db[id] && o.db[id]["reviews"] == Arr(ArrayUnion(db[id], "reviews", review))
    ensures id in db ==>
      var review := Obj(Spread(body)["id" := Str(Types.PrefixedId(Types.ReviewPrefix, uuid))]);
      var db1 := db[id := db[id]["reviews" := Arr(ArrayUnion(db[id], "reviews", review))]];
      && (Recalculate(db1, id).Ok? ==>
            && o.response.status == 201 && o.db == Recalculate(db1, id).value
            && o.response.body == Json(Obj(map["updatedProperty" := WithId(id, o.db[id]), "newReview" := review])))
      && (Recalculate(db1, id).Err? ==> o == Outcome(ServerError, db1))
  {
    var review := Obj(Spread(body)["id" := Str(Types.PrefixedId(Types.ReviewPrefix, uuid))]);
    var added := Arr(ArrayUnion(if id in db then db[id] else map[], "reviews", review));
    match Update(db, id, map["reviews" := added])
    case Err(d) => Outcome(ServerError, d)
    case Ok(db1) =>
      assert db1[id] == db[id]["reviews" := added];
      assert db1 == db[id := db[id]["reviews" := added]];
      match Recalculate(db1, id)
      case Err(d) => Outcome(ServerError, d)
      case Ok(db2) =>
        Outcome(Response(201, Json(Obj(map["updatedProperty" := WithId(id, db2[id]), "newReview" := review]))), db2)
  }

  /** PUT and DELETE /properties/:id/reviews/:reviewId. A missing property is 404 whatever the
      method. PUT answers 404 for an unknown review, otherwise merges the body over that review,
      recomputes the rating and returns the property. DELETE filters the review out (an unknown id
      is no error), recomputes the rating and returns the property. Other methods fall through to
      404. */
  function ReviewRoute(db: Db, id: string, reviewId: string, verb: string, body: Value): (o: Outcome)
    ensures id !in db ==> o == Outcome(PropertyNotFound, db)
    ensures id in db && verb != "PUT" && verb != "DELETE" ==> o == Outcome(NotFound, db)
    ensures id in db && verb == "PUT" && ListOrEmpty(db[id], "reviews").Some? &&
            FindById(ListOrEmpty(db[id], "reviews").value, reviewId) == Ok(None) ==>
      o == Outcome(ReviewNotFound, db)
    ensures id in db && verb == "PUT" && ListOrEmpty(db[id], "reviews").Some? &&
            FindById(ListOrEmpty(db[id], "reviews").value, reviewId).Ok? &&
            FindById(ListOrEmpty(db[id], "reviews").value, reviewId).value.Some? ==>
      var items := ListOrEmpty(db[id], "reviews").value;
      var k := FindById(items, reviewId).value.value;
      var merged := Obj(Spread(items[k]) + Spread(body));
      var db1 := db[id := db[id]["reviews" := Arr(items[k := merged])]];
      && (Recalculate(db1, id).Ok? ==>
            && o.response.status == 200 && o.db == Recalculate(db1, id).value
            && o.response.body == Json(WithId(id, o.db[id])))
      && (Recalculate(db1, id).Err? ==> o == Outcome(ServerError, db1))
    ensures id in db && verb == "DELETE" && ListOrEmpty(db[id], "reviews").Some? &&
            Null !in ListOrEmpty(db[id], "reviews").value ==>
      var kept := Filter(ListOrEmpty(db[id], "reviews").value, LacksId(reviewId));
      var db1 := db[id := db[id]["reviews" := Arr(kept)]];
      Recalculate(db1, id).Ok? ==>
        && o.response.status == 200 && o.db == Recalculate(db1, id).value
        && o.response.body == Json(Obj(map["updatedProperty" := WithId(id, o.db[id])]))
  {
    if id !in db then Outcome(PropertyNotFound, db)
    else
      var reviews := ListOrEmpty(db[id], "reviews");
      if verb == "PUT" then
        match reviews
        case None => Outcome(ServerError, db)
        case Some(items) =>
          match FindById(items, reviewId)
          case Err(_) => Outcome(ServerError, db)
          case Ok(None) => Outcome(ReviewNotFound, db)
          case Ok(Some(k)) =>
            var merged := Obj(Spread(items[k]) + Spread(body));
            var db1 := db[id := db[id]["reviews" := Arr(items[k := merged])]];
            match Recalculate(db1, id)
            case Err(d) => Outcome(ServerError, d)
            case Ok(db2) => Outcome(Response(200, Json(WithId(id, db2[id]))), db2)
      else if verb == "DELETE" then
        match reviews
        case None => Outcome(ServerError, db)
        case Some(items) =>
          match FilterOutId(items, reviewId)
          case Err(_) => Outcome(ServerError, db)
          case Ok(kept) =>
            var db1 := db[id := db[id]["reviews" := Arr(kept)]];
            match Recalculate(db1, id)
            case Err(d) => Outcome(ServerError, d)
            case Ok(db2) => Outcome(Response(200, Json(Obj(map["updatedProperty" := WithId(id, db2[id])]))), db2)
      else Outcome(NotFound, db)
  }

  /** POST /properties/:id/announcements: the body with a fresh `ann-` id and the creation time is
      added to the announcements and 201 returns the property. Adding to a missing property
      throws. */
  function PostAnnouncement(db: Db, id: string, body: Value, uuid: string, now: string): (o: Outcome)
    ensures id !in db ==> o == Outcome(ServerError, db)
    ensures id in db ==>
      var ann := Obj(Spread(body)["id" := Str(Types.PrefixedId(Types.AnnouncementPrefix, uuid))]["createdAt" := Str(now)]);
      && o.response.status == 201
      && o.db == db[id := db[id]["announcements" := Arr(ArrayUnion(db[id], "announcements", ann))]]
      && o.response.body == Json(WithId(id, o.db[id]))
  {
    var ann := Obj(Spread(body)["id" := Str(Types.PrefixedId(Types.AnnouncementPrefix, uuid))]["createdAt" := Str(now)]);
    var added := Arr(ArrayUnion(if id in db then db[id] else map[], "announcements", ann));
    match Update(db, id, map["announcements" := added])
    case Err(d) => Outcome(ServerError, d)
    case Ok(db1) =>
      assert db1[id] == db[id]["announcements" := added];
      Outcome(Response(201, Json(WithId(id, db1[id]))), db1)
  }

  /** PUT and DELETE /properties/:id/announcements/:announcementId, as for reviews but without a
      rating to recompute; both answer with the property. */
  function AnnouncementRoute(db: Db, id: string, annId: string, verb: string, body: Value): (o: Outcome)
    ensures id !in db ==> o == Outcome(PropertyNotFound, db)
    ensures id in db && verb != "PUT" && verb != "DELETE" ==> o == Outcome(NotFound, db)
    ensures id in db && verb == "PUT" && ListOrEmpty(db[id], "announcements").Some? &&
            FindById(ListOrEmpty(db[id], "announcements").value, annId) == Ok(None) ==>
      o == Outcome(AnnouncementNotFound, db)
    ensures id in db && verb == "PUT" && ListOrEmpty(db[id], "announcements").Some? &&
            FindById(ListOrEmpty(db[id], "announcements").value, annId).Ok? &&
            FindById(ListOrEmpty(db[id], "announcements").value, annId).value.Some? ==>
      var items := ListOrEmpty(db[id], "announcements").value;
      var k := FindById(items, annId).value.value;
      var merged := Obj(Spread(items[k]) + Spread(body));
      && o.response.status == 200 && o.db == db[id := db[id]["announcements" := Arr(items[k := merged])]]
      && o.response.body == Json(WithId(id, o.db[id]))
    ensures id in db && verb == "DELETE" && ListOrEmpty(db[id], "announcements").Some? &&
            Null !in ListOrEmpty(db[id], "announcements").value ==>
      var kept := Filter(ListOrEmpty(db[id], "announcements").value, LacksId(annId));
      && o.response.status == 200 && o.db == db[id := db[id]["announcements" := Arr(kept)]]
      && o.response.body == Json(WithId(id, o.db[id]))
    ensures o.response.status == 500 ==> o.db == db
  {
    if id !in db then Outcome(PropertyNotFound, db)
    else
      var anns := ListOrEmpty(db[id], "announcements");
      if verb == "PUT" then
        match anns
        case None => Outcome(ServerError, db)
        case Some(items) =>
          match FindById(items, annId)
          case Err(_) => Outcome(ServerError, db)
          case Ok(None) => Outcome(AnnouncementNotFound, db)
          case Ok(Some(k)) =>
            var merged := Obj(Spread(items[k]) + Spread(body));
            var db1 := db[id := db[id]["announcements" := Arr(items[k := merged])]];
            Outcome(Response(200, Json(WithId(id, db1[id]))), db1)
      else if verb == "DELETE" then
        match anns
        case None => Outcome(ServerError, db)
        case Some(items) =>
          match FilterOutId(items, annId)
          case Err(_) => Outcome(ServerError, db)
          case Ok(kept) =>
            var db1 := db[id := db[id]["announcements" := Arr(kept)]];
            Outcome(Response(200, Json(WithId(id, db1[id]))), db1)
      else Outcome(NotFound, db)
  }

  /** `apiHandler`: dispatches on the route and the method; a method a route does not serve, and
      a path no route matches, answer 404. */
  function Handle(req: Request, db: Db, order: seq<string>, uuid: string, now: string): (o: Outcome)
    requires EnumeratesOnce(order, db)
    ensures ParseRoute(req.path).NoRoute? ==> o == Outcome(NotFound, db)
    ensures ParseRoute(req.path).Collection? && req.verb == "GET" ==>
      o == Outcome(Response(200, Json(Listing(db, order))), db)
    ensures o.response.status in {200, 201, 400, 404, 500}
  {
    match ParseRoute(req.path)
    case Collection =>
      if req.verb == "GET" then Outcome(Response(200, Json(Listing(db, order))), db) else Outcome(NotFound, db)
    case PropertyAt(id) =>
      if req.verb == "PUT" then PutProperty(db, id, req.body)
      else if req.verb == "DELETE" then DeleteProperty(db, id)
      else Outcome(NotFound, db)
    case ReviewsOf(id) =>
      if req.verb == "POST" then PostReview(db, id, req.body, uuid) else Outcome(NotFound, db)
    case ReviewAt(id, reviewId) => ReviewRoute(db, id, reviewId, req.verb, req.body)
    case AnnouncementsOf(id) =>
      if req.verb == "POST" then PostAnnouncement(db, id, req.body, uuid, now) else Outcome(NotFound, db)
    case AnnouncementAt(id, annId) => AnnouncementRoute(db, id, annId, req.verb, req.body)
    case NoRoute => Outcome(NotFound, db)
  }

  /** A request to the path of a route reaches that route's handler. */
  lemma HandleDispatch(r: Route, req: Request, db: Db, order: seq<string>, uuid: string, now: string)
    requires ValidRoute(r) && req.path == RoutePath(r) && EnumeratesOnce(order, db)
    ensures r.PropertyAt? && req.verb == "PUT" ==> Handle(req, db, order, uuid, now) == PutProperty(db, r.propertyId, req.body)
    ensures r.PropertyAt? && req.verb == "DELETE" ==> Handle(req, db, order, uuid, now) == DeleteProperty(db, r.propertyId)
    ensures r.ReviewsOf? && req.verb == "POST" ==> Handle(req, db, order, uuid, now) == PostReview(db, r.propertyId, req.body, uuid)
    ensures r.ReviewAt? ==> Handle(req, db, order, uuid, now) == ReviewRoute(db, r.propertyId, r.reviewId, req.verb, req.body)
    ensures r.AnnouncementsOf? && req.verb == "POST" ==>
      Handle(req, db, order, uuid, now) == PostAnnouncement(db, r.propertyId, req.body, uuid, now)
    ensures r.AnnouncementAt? ==>
      Handle(req, db, order, uuid, now) == AnnouncementRoute(db, r.propertyId, r.announcementId, req.verb, req.body)
  {
    RouteRoundTrip(r);
  }

  /** A body that passes validation, merged over the stored document: every body field but `id`
      takes the body's value, every other field keeps its stored value, and the stored `id` field,
      if any, is never the body's. */
  lemma PutMerges(db: Db, id: string, m: map<string, Value>)
    requires FieldTruthy(m - {"id"}, "name") && FieldTruthy(m - {"id"}, "ownerUsername")
    ensures var o := PutProperty(db, id, Obj(m));
      && o.response.status == 200
      && id in o.db && o.db - {id} == db - {id}
      && (forall k :: k in m && k != "id" ==> k in o.db[id] && o.db[id][k] == m[k])
      && (forall k :: id in db && k in db[id] && k !in m ==> k in o.db[id] && o.db[id][k] == db[id][k])
      && ("id" in o.db[id] ==> id in db && "id" in db[id] && o.db[id]["id"] == db[id]["id"])
  {
    var o := PutProperty(db, id, Obj(m));
    var doc := (if id in db then db[id] else map[]) + (m - {"id"});
    assert o.db == db[id := doc];
  }

  /** After a successful PUT the listing holds the document the PUT answered with. */
  lemma PutThenListed(db: Db, id: string, body: Value, order: seq<string>)
    requires PutProperty(db, id, body).response.status == 200
    requires EnumeratesOnce(order, PutProperty(db, id, body).db)
    ensures var o := PutProperty(db, id, body);
      o.response.body.Json? && o.response.body.value in Listing(o.db, order).items
  {
    var fields := body.fields - {"id"};
    var doc := (if id in db then db[id] else map[]) + fields;
    var o := PutProperty(db, id, body);
    assert o.db == db[id := doc] && o.response.body == Json(WithId(id, doc));
    assert id in o.db && o.db[id] == doc;
  }

  /** Storing the same valid body twice stores what storing it once does. */
  lemma PutIdempotent(db: Db, id: string, body: Value)
    ensures var once := PutProperty(db, id, body);
      PutProperty(once.db, id, body) == once
  {
    if body.Obj? && FieldTruthy(body.fields - {"id"}, "name") && FieldTruthy(body.fields - {"id"}, "ownerUsername") {
      var fields := body.fields - {"id"};
      var doc := (if id in db then db[id] else map[]) + fields;
      assert doc + fields == doc;
    }
  }

  /** Creating a property with a new id and deleting it gives the store back. */
  lemma PutThenDelete(db: Db, id: string, body: Value)
    requires id !in db
    requires PutProperty(db, id, body).response.status == 200
    ensures DeleteProperty(PutProperty(db, id, body).db, id).db == db
    ensures DeleteProperty(PutProperty(db, id, body).db, id).response.status == 200
  {
    var fields := body.fields - {"id"};
    var after := db[id := map[] + fields];
    assert after - {id} == db;
  }

  /** How a client review is stored. */
  function ReviewValue(r: Types.Review): (v: Value)
    ensures Rated(v) && v.fields["rating"] == Num(r.rating as real)
    ensures IdIs(v, r.id) == Ok(true)
  {
    Obj(map["id" := Str(r.id), "author" := Str(r.author), "rating" := Num(r.rating as real),
            "comment" := Str(r.comment)])
  }

  /** How a list of client reviews is stored. */
  function ReviewValues(rs: seq<Types.Review>): (r: seq<Value>)
    ensures |r| == |rs|
    ensures forall i :: 0 <= i < |rs| ==> r[i] == ReviewValue(rs[i])
  {
    if |rs| == 0 then [] else [ReviewValue(rs[0])] + ReviewValues(rs[1..])
  }

  /** Stored client reviews are all rated, with the client's star counts. */
  lemma StoredReviewsRated(reviews: seq<Types.Review>)
    ensures Null !in ReviewValues(reviews)
    ensures RatingsOf(ReviewValues(reviews)) == Ok(Some(Repository.Stars(reviews)))
  {
    var items := ReviewValues(reviews);
    assert Null !in items by {
      forall i | 0 <= i < |items| ensures items[i] != Null {
        assert items[i] == ReviewValue(reviews[i]);
      }
    }
    var rs := RatingsOf(items);
    assert rs.Ok? && rs.value.Some?;
    assert rs.value.value == Repository.Stars(reviews);
  }

  /** The backend and the client apply the same rating rule: for stored client reviews, the
      backend stores, as a number of stars, exactly the tenths the client computes. */
  lemma ServerRatingMatchesClient(db: Db, id: string, reviews: seq<Types.Review>)
    requires id in db && "reviews" in db[id] && db[id]["reviews"] == Arr(ReviewValues(reviews))
    ensures Recalculate(db, id) ==
      Ok(db[id := db[id]["rating" := Num(Repository.RecalculateRating(reviews) as real / 10.0)]])
  {
    StoredReviewsRated(reviews);
    Repository.RecalculateIsAverage(reviews);
    if |reviews| == 0 {
      assert ListOrEmpty(db[id], "reviews") == Some([]);
    } else {
      assert ListOrEmpty(db[id], "reviews") == Some(ReviewValues(reviews));
    }
  }

  /** Filtering out an id no item carries keeps every item. */
  lemma FilterOutAbsent(items: seq<Value>, id: string)
    requires Null !in items && forall i :: 0 <= i < |items| ==> IdIs(items[i], id) == Ok(false)
    ensures FilterOutId(items, id) == Ok(items)
  {
    FilterKeepsAll(items, LacksId(id));
  }

  /** Deleting a nested review that does not exist still answers 200 and leaves the list of
      reviews as it was. */
  lemma DeleteMissingReview(db: Db, id: string, reviewId: string, items: seq<Value>, body: Value)
    requires id in db && "reviews" in db[id] && db[id]["reviews"] == Arr(items)
    requires Null !in items && forall i :: 0 <= i < |items| ==> IdIs(items[i], reviewId) == Ok(false)
    requires Recalculate(db, id).Ok?
    ensures var o := ReviewRoute(db, id, reviewId, "DELETE", body);
      o.response.status == 200 && o == Outcome(o.response, Recalculate(db, id).value)
  {
    assert ListOrEmpty(db[id], "reviews") == Some(items);
    FilterKeepsAll(items, LacksId(reviewId));
    assert db[id]["reviews" := Arr(items)] == db[id];
    assert db[id := db[id]["reviews" := Arr(items)]] == db;
  }

  /** Deleting a nested announcement that does not exist still answers 200 and changes nothing. */
  lemma DeleteMissingAnnouncement(db: Db, id: string, annId: string, items: seq<Value>, body: Value)
    requires id in db && "announcements" in db[id] && db[id]["announcements"] == Arr(items)
    requires Null !in items && forall i :: 0 <= i < |items| ==> IdIs(items[i], annId) == Ok(false)
    ensures var o := AnnouncementRoute(db, id, annId, "DELETE", body);
      o.response.status == 200 && o.db == db
  {
    assert ListOrEmpty(db[id], "announcements") == Some(items);
    FilterOutAbsent(items, annId);
    assert db[id]["announcements" := Arr(items)] == db[id];
    assert db[id := db[id]["announcements" := Arr(items)]] == db;
  }

  /** Appending an item with id `id` to items without it, then filtering that id out, gives
      the items back. */
  lemma {:induction false} FilterOutAppended(items: seq<Value>, x: Value, id: string)
    requires Null !in items && IdIs(x, id) == Ok(true)
    requires forall i :: 0 <= i < |items| ==> IdIs(items[i], id) == Ok(false)
    ensures x !in items && Null !in items + [x]
    ensures Filter(items + [x], LacksId(id)) == items
  {
    FilterAppend(items, [x], LacksId(id));
    FilterKeepsAll(items, LacksId(id));
    assert Filter([x], LacksId(id)) == [];
  }

  /** Posting an announcement to a property whose announcements lack its id appends it. */
  lemma PostAnnouncementAppends(db: Db, id: string, items: seq<Value>, body: Value, uuid: string, now: string)
    requires id in db && "announcements" in db[id] && db[id]["announcements"] == Arr(items)
    requires Obj(Spread(body)["id" := Str(Types.PrefixedId(Types.AnnouncementPrefix, uuid))]["createdAt" := Str(now)]) !in items
    ensures var ann := Obj(Spread(body)["id" := Str(Types.PrefixedId(Types.AnnouncementPrefix, uuid))]["createdAt" := Str(now)]);
      PostAnnouncement(db, id, body, uuid, now).db == db[id := db[id]["announcements" := Arr(items + [ann])]]
  {
  }

  /** Deleting a nested announcement from a list without null items stores the filtered list. */
  lemma DeleteAnnouncementFilters(db: Db, id: string, all: seq<Value>, kept: seq<Value>, annId: string, body: Value)
    requires id in db && "announcements" in db[id] && db[id]["announcements"] == Arr(all)
    requires Null !in all && Filter(all, LacksId(annId)) == kept
    ensures AnnouncementRoute(db, id, annId, "DELETE", body).db == db[id := db[id]["announcements" := Arr(kept)]]
  {
    assert ListOrEmpty(db[id], "announcements") == Some(all);
  }

  /** Setting a field of a document and then setting it back to its old value gives the store
      back. */
  lemma RestoreField(db: Db, id: string, key: string, v: Value)
    requires id in db && key in db[id]
    ensures var after := db[id := db[id][key := v]];
      after[id := after[id][key := db[id][key]]] == db
  {
    var after := db[id := db[id][key := v]];
    assert after[id][key := db[id][key]] == db[id];
  }

  /** Setting one field, then a second, then the first back to its old value, leaves only the
      second write. */
  lemma RestoreOtherField(db: Db, id: string, key: string, v: Value, other: string, w: Value)
    requires id in db && key in db[id] && key != other
    ensures var db1 := db[id := db[id][key := v]];
      var db2 := db1[id := db1[id][other := w]];
      db2[id := db2[id][key := db[id][key]]] == db[id := db[id][other := w]]
  {
    var db1 := db[id := db[id][key := v]];
    var db2 := db1[id := db1[id][other := w]];
    assert db2[id][key := db[id][key]] == db[id][other := w];
  }

  /** Posting an announcement and then deleting it by its new id gives the store back. */
  lemma PostThenDeleteAnnouncement(db: Db, id: string, items: seq<Value>, body: Value, uuid: string, now: string)
    requires id in db && "announcements" in db[id] && db[id]["announcements"] == Arr(items)
    requires Null !in items
    requires forall i :: 0 <= i < |items| ==> IdIs(items[i], Types.PrefixedId(Types.AnnouncementPrefix, uuid)) == Ok(false)
    ensures var posted := PostAnnouncement(db, id, body, uuid, now);
      AnnouncementRoute(posted.db, id, Types.PrefixedId(Types.AnnouncementPrefix, uuid), "DELETE", body).db == db
  {
    var annId := Types.PrefixedId(Types.AnnouncementPrefix, uuid);
    var ann := Obj(Spread(body)["id" := Str(annId)]["createdAt" := Str(now)]);
    FilterOutAppended(items, ann, annId);
    PostAnnouncementAppends(db, id, items, body, uuid, now);
    var doc := db[id]["announcements" := Arr(items + [ann])];
    var after := db[id := doc];
    DeleteAnnouncementFilters(after, id, items + [ann], items, annId, body);
    RestoreField(db, id, "announcements", Arr(items + [ann]));
  }

  /** Deleting a nested review from a list without null items stores the filtered list and
      recomputes the rating. */
  lemma DeleteReviewFilters(db: Db, id: string, all: seq<Value>, kept: seq<Value>, reviewId: string, body: Value)
    requires id in db && "reviews" in db[id] && db[id]["reviews"] == Arr(all)
    requires Null !in all && Filter(all, LacksId(reviewId)) == kept
    requires Recalculate(db[id := db[id]["reviews" := Arr(kept)]], id).Ok?
    ensures ReviewRoute(db, id, reviewId, "DELETE", body).db ==
      Recalculate(db[id := db[id]["reviews" := Arr(kept)]], id).value
  {
    assert ListOrEmpty(db[id], "reviews") == Some(all);
  }

  /** Posting a review and then deleting it by its new id gives the store back, with the rating
      recomputed from the original reviews. */
  lemma PostThenDeleteReview(db: Db, id: string, items: seq<Value>, body: Value, uuid: string)
    requires id in db && "reviews" in db[id] && db[id]["reviews"] == Arr(items)
    requires Null !in items
    requires forall i :: 0 <= i < |items| ==> IdIs(items[i], Types.PrefixedId(Types.ReviewPrefix, uuid)) == Ok(false)
    ensures Recalculate(db, id).Ok?
    ensures var posted := PostReview(db, id, body, uuid);
      posted.response.status == 201 &&
      ReviewRoute(posted.db, id, Types.PrefixedId(Types.ReviewPrefix, uuid), "DELETE", body).db == Recalculate(db, id).value
  {
    var revId := Types.PrefixedId(Types.ReviewPrefix, uuid);
    var review := Obj(Spread(body)["id" := Str(revId)]);
    FilterOutAppended(items, review, revId);
    var db1 := db[id := db[id]["reviews" := Arr(items + [review])]];
    PostReviewAppends(db, id, items, body, uuid);
    var db2 := Recalculate(db1, id).value;
    var rating := db2[id]["rating"];
    RestoreOtherField(db, id, "reviews", Arr(items + [review]), "rating", rating);
    RecalculateIgnoresRating(db, id, rating);
    DeleteReviewFilters(db2, id, items + [review], items, revId, body);
  }

  /** Posting a review to a property whose reviews lack its id appends it and answers 201. */
  lemma PostReviewAppends(db: Db, id: string, items: seq<Value>, body: Value, uuid: string)
    requires id in db && "reviews" in db[id] && db[id]["reviews"] == Arr(items)
    requires Null !in items + [Obj(Spread(body)["id" := Str(Types.PrefixedId(Types.ReviewPrefix, uuid))])]
    requires Obj(Spread(body)["id" := Str(Types.PrefixedId(Types.ReviewPrefix, uuid))]) !in items
    ensures var db1 := db[id := db[id]["reviews" := Arr(items + [Obj(Spread(body)["id" := Str(Types.PrefixedId(Types.ReviewPrefix, uuid))])])]];
      && Recalculate(db1, id).Ok?
      && PostReview(db, id, body, uuid).response.status == 201
      && PostReview(db, id, body, uuid).db == Recalculate(db1, id).value
  {
    var review := Obj(Spread(body)["id" := Str(Types.PrefixedId(Types.ReviewPrefix, uuid))]);
    var db1 := db[id := db[id]["reviews" := Arr(items + [review])]];
    assert db[id] + map["reviews" := Arr(items + [review])] == db[id]["reviews" := Arr(items + [review])];
    assert ListOrEmpty(db1[id], "reviews") == Some(items + [review]);
  }

  /** The recomputed rating does not depend on the rating stored before, and recomputation
      cannot fail where it did not fail before. */
  lemma RecalculateIgnoresRating(db: Db, id: string, v: Value)
    requires id in db
    ensures Recalculate(db[id := db[id]["rating" := v]], id).Ok? == Recalculate(db, id).Ok?
    ensures Recalculate(db, id).Ok? ==>
      Recalculate(db[id := db[id]["rating" := v]], id).value == Recalculate(db, id).value
  {
    var db1 := db[id := db[id]["rating" := v]];
    assert ListOrEmpty(db1[id], "reviews") == ListOrEmpty(db[id], "reviews");
    match ListOrEmpty(db[id], "reviews")
    case None =>
    case Some(items) =>
      if |items| == 0 {
        RatingOverwrite(db, id, v, Num(0.0));
      } else {
        match RatingsOf(items)
        case Err(_) =>
        case Ok(None) => RatingOverwrite(db, id, v, NaN);
        case Ok(Some(rs)) => RatingOverwrite(db, id, v, Num(Rating.AverageTenths(rs) as real / 10.0));
      }
  }

  /** Writing the rating twice keeps the second write. */
  lemma RatingOverwrite(db: Db, id: string, v: Value, w: Value)
    requires id in db
    ensures var db1 := db[id := db[id]["rating" := v]];
      db1[id := db1[id]["rating" := w]] == db[id := db[id]["rating" := w]]
  {
    var db1 := db[id := db[id]["rating" := v]];
    assert db1[id]["rating" := w] == db[id]["rating" := w];
  }

  /** `findIndex` stops at `k` when item `k` is the first with the id. */
  lemma {:induction false} FindByIdAt(items: seq<Value>, id: string, k: nat)
    requires k < |items| && IdIs(items[k], id) == Ok(true)
    requires forall j :: 0 <= j < k ==> IdIs(items[j], id) == Ok(false)
    ensures FindById(items, id) == Ok(Some(k))
    decreases k
  {
    if k > 0 {
      FindByIdAt(items[1..], id, k - 1);
    }
  }

  /** `{...item, ...body}` keeps the item's id when the body carries none or the same one. */
  lemma MergeKeepsId(item: Value, body: Value, id: string)
    requires IdIs(item, id) == Ok(true)
    requires "id" in Spread(body) ==> Spread(body)["id"] == Str(id)
    ensures IdIs(Obj(Spread(item) + Spread(body)), id) == Ok(true)
  {
  }

  /** The list a nested PUT stores for the item found at `k`: the merged item in its place. */
  lemma MergedItemFound(items: seq<Value>, id: string, k: nat, body: Value)
    requires FindById(items, id) == Ok(Some(k))
    requires "id" in Spread(body) ==> Spread(body)["id"] == Str(id)
    ensures FindById(items[k := Obj(Spread(items[k]) + Spread(body))], id) == Ok(Some(k))
  {
    MergeKeepsId(items[k], body, id);
    FindByIdAt(items[k := Obj(Spread(items[k]) + Spread(body))], id, k);
  }

  /** Merging an object with its own fields gives it back, so a PUT of the stored item leaves the
      list as it was. */
  lemma MergeSelf(items: seq<Value>, k: nat)
    requires k < |items| && items[k].Obj?
    ensures items[k := Obj(Spread(items[k]) + Spread(items[k]))] == items
  {
    assert Spread(items[k]) + Spread(items[k]) == items[k].fields;
  }

  /** After a PUT of an announcement, the list holds the merged announcement in the same place,
      and looking its id up finds it there; putting the announcement as stored changes nothing. */
  lemma PutAnnouncementThenFound(db: Db, id: string, annId: string, items: seq<Value>, k: nat, body: Value)
    requires id in db && "announcements" in db[id] && db[id]["announcements"] == Arr(items)
    requires FindById(items, annId) == Ok(Some(k))
    requires "id" in Spread(body) ==> Spread(body)["id"] == Str(annId)
    ensures var o := AnnouncementRoute(db, id, annId, "PUT", body);
      var after := items[k := Obj(Spread(items[k]) + Spread(body))];
      && o.response.status == 200
      && id in o.db && "announcements" in o.db[id] && o.db[id]["announcements"] == Arr(after)
      && FindById(after, annId) == Ok(Some(k))
    ensures body == items[k] ==> AnnouncementRoute(db, id, annId, "PUT", body).db == db
  {
    assert ListOrEmpty(db[id], "announcements") == Some(items);
    MergedItemFound(items, annId, k, body);
    if body == items[k] {
      MergeSelf(items, k);
      assert db[id]["announcements" := Arr(items)] == db[id];
      assert db[id := db[id]["announcements" := Arr(items)]] == db;
    }
  }

  /** After a successful PUT of a review, the list holds the merged review in the same place, and
      looking its id up finds it there. */
  lemma PutReviewThenFound(db: Db, id: string, reviewId: string, items: seq<Value>, k: nat, body: Value)
    requires id in db && "reviews" in db[id] && db[id]["reviews"] == Arr(items)
    requires FindById(items, reviewId) == Ok(Some(k))
    requires "id" in Spread(body) ==> Spread(body)["id"] == Str(reviewId)
    ensures var o := ReviewRoute(db, id, reviewId, "PUT", body);
      var after := items[k := Obj(Spread(items[k]) + Spread(body))];
      && (o.response.status == 200 || o.response.status == 500)
      && (o.response.status == 200 ==>
            && id in o.db && "reviews" in o.db[id] && o.db[id]["reviews"] == Arr(after)
            && FindById(after, reviewId) == Ok(Some(k)))
  {
    assert ListOrEmpty(db[id], "reviews") == Some(items);
    MergedItemFound(items, reviewId, k, body);
  }

  /** Putting a review exactly as stored only recomputes the rating. */
  lemma PutStoredReview(db: Db, id: string, reviewId: string, items: seq<Value>, k: nat)
    requires id in db && "reviews" in db[id] && db[id]["reviews"] == Arr(items)
    requires FindById(items, reviewId) == Ok(Some(k))
    requires Recalculate(db, id).Ok?
    ensures ReviewRoute(db, id, reviewId, "PUT", items[k]) == Outcome(Response(200, Json(WithId(id, Recalculate(db, id).value[id]))), Recalculate(db, id).value)
  {
    assert ListOrEmpty(db[id], "reviews") == Some(items);
    MergeSelf(items, k);
    assert db[id]["reviews" := Arr(items)] == db[id];
    assert db[id := db[id]["reviews" := Arr(items)]] == db;
  }
}
