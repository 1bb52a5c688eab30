/** Route matching of the backend handler. A path is cut at every `/`; each route is a fixed
    shape of segments in which an id is any non-empty segment, which is what the handler's
    patterns `^/properties/([^/]+)$` and their longer variants accept. */
module Routes {

  /** The routes the handler knows, and the catch-all. */
  datatype Route =
    | Collection
    | PropertyAt(propertyId: string)
    | ReviewsOf(propertyId: string)
    | ReviewAt(propertyId: string, reviewId: string)
    | AnnouncementsOf(propertyId: string)
    | AnnouncementAt(propertyId: string, announcementId: string)
    | NoRoute

  /** Joins segments with `/` between them. */
  function Join(segs: seq<string>): string
    requires |segs| >= 1
  {
    if |segs| == 1 then segs[0] else segs[0] + "/" + Join(segs[1..])
  }

  /** Cuts a path at every `/`: the segments contain no `/` and joined again give the path. */
  function Split(s: string): (r: seq<string>)
    ensures |r| >= 1
    ensures forall i :: 0 <= i < |r| ==> '/' !in r[i]
    ensures Join(r) == s
  {
    if |s| == 0 then [""]
    else
      var rest := Split(s[1..]);
      if s[0] == '/' then
        assert s == "/" + s[1..];
        [""] + rest
      else
        var r := [[s[0]] + rest[0]] + rest[1..];
        assert r[1..] == rest[1..];
        if |rest| == 1 then
          assert s == [s[0]] + s[1..];
          r
        else
          assert Join(rest) == rest[0] + "/" + Join(rest[1..]);
          assert s == [s[0]] + s[1..];
          r
  }

  /** A path segment that can carry an id: non-empty and free of `/`. */
  predicate Segment(s: string) {
    s != "" && '/' !in s
  }

  /** The route a request path selects. */
  function ParseRoute(path: string): (r: Route)
    ensures r.PropertyAt? ==> Segment(r.propertyId)
    ensures r.ReviewsOf? || r.AnnouncementsOf? ==> Segment(r.propertyId)
    ensures r.ReviewAt? ==> Segment(r.propertyId) && Segment(r.reviewId)
    ensures r.AnnouncementAt? ==> Segment(r.propertyId) && Segment(r.announcementId)
  {
    var segs := Split(path);
    if segs == ["", "properties"] then Collection
    else if |segs| < 3 || segs[0] != "" || segs[1] != "properties" || segs[2] == "" then NoRoute
    else if |segs| == 3 then PropertyAt(segs[2])
    else if |segs| == 4 && segs[3] == "reviews" then ReviewsOf(segs[2])
    else if |segs| == 4 && segs[3] == "announcements" then AnnouncementsOf(segs[2])
    else if |segs| == 5 && segs[3] == "reviews" && segs[4] != "" then ReviewAt(segs[2], segs[4])
    else if |segs| == 5 && segs[3] == "announcements" && segs[4] != "" then AnnouncementAt(segs[2], segs[4])
    else NoRoute
  }

  /** The segments of the path of a route. */
  function RouteSegments(r: Route): (segs: seq<string>)
    requires !r.NoRoute?
    ensures |segs| >= 2
  {
    match r
    case Collection => ["", "properties"]
    case PropertyAt(p) => ["", "properties", p]
    case ReviewsOf(p) => ["", "properties", p, "reviews"]
    case ReviewAt(p, id) => ["", "properties", p, "reviews", id]
    case AnnouncementsOf(p) => ["", "properties", p, "announcements"]
    case AnnouncementAt(p, id) => ["", "properties", p, "announcements", id]
  }

  /** The path of a route. */
  function RoutePath(r: Route): string
    requires !r.NoRoute?
  {
    Join(RouteSegments(r))
  }

  /** The ids of a route are segments. */
  predicate ValidRoute(r: Route) {
    match r
    case Collection => true
    case PropertyAt(p) => Segment(p)
    case ReviewsOf(p) => Segment(p)
    case ReviewAt(p, id) => Segment(p) && Segment(id)
    case AnnouncementsOf(p) => Segment(p)
    case AnnouncementAt(p, id) => Segment(p) && Segment(id)
    case NoRoute => false
  }

  /** A segment without `/` is its own split. */
  lemma {:induction false} SplitSegment(s: string)
    requires '/' !in s
    ensures Split(s) == [s]
  {
    if |s| > 0 {
      assert '/' !in s[1..] by {
        forall i | 0 <= i < |s[1..]| ensures s[1..][i] != '/' {
          assert s[1..][i] == s[i + 1];
        }
      }
      SplitSegment(s[1..]);
      assert [s[0]] + s[1..] == s;
    }
  }

  /** Splitting `a/rest`, for `a` without `/`, gives `a` followed by the split of `rest`. */
  lemma {:induction false} SplitCons(a: string, rest: string)
    requires '/' !in a
    ensures Split(a + "/" + rest) == [a] + Split(rest)
  {
    if |a| == 0 {
      assert a + "/" + rest == "/" + rest;
      assert ("/" + rest)[1..] == rest;
    } else {
      var s := a + "/" + rest;
      assert s[0] == a[0];
      assert s[1..] == a[1..] + "/" + rest;
      assert '/' !in a[1..] by {
        forall i | 0 <= i < |a[1..]| ensures a[1..][i] != '/' {
          assert a[1..][i] == a[i + 1];
        }
      }
      SplitCons(a[1..], rest);
      assert [a[0]] + a[1..] == a;
    }
  }

  /** Splitting joined segments gives the segments back when none contains `/`. */
  lemma {:induction false} SplitJoin(segs: seq<string>)
    requires |segs| >= 1
    requires forall i :: 0 <= i < |segs| ==> '/' !in segs[i]
    ensures Split(Join(segs)) == segs
  {
    if |segs| == 1 {
      SplitSegment(segs[0]);
    } else {
      SplitJoin(segs[1..]);
      SplitCons(segs[0], Join(segs[1..]));
      assert [segs[0]] + segs[1..] == segs;
    }
  }

  /** Every route with proper ids is selected by its own path. */
  lemma RouteRoundTrip(r: Route)
    requires ValidRoute(r)
    ensures ParseRoute(RoutePath(r)) == r
  {
    SplitJoin(RouteSegments(r));
  }

  /** The collection route is the path `/properties` exactly. */
  lemma CollectionPath()
    ensures RoutePath(Collection) == "/properties"
  {
  }

  /** Every path a route selects is that route's path: nothing but the exact shapes matches, and
      ids never contain `/`. */
  lemma ParseRouteExact(path: string)
    requires !ParseRoute(path).NoRoute?
    ensures ValidRoute(ParseRoute(path))
    ensures RoutePath(ParseRoute(path)) == path
  {
    var r := ParseRoute(path);
    if !r.Collection? {
      var segs := Split(path);
      assert RouteSegments(r) == segs;
    }
  }
}
