/** The search engine of the app shell: one set of criteria applied to the catalog with a strict
    first-match precedence. A location sorts the whole catalog by distance from it; otherwise a
    region, then an area keyword, then a tag selects an order-preserving filter; with none of
    them the catalog comes back whole. */
module Search {
  import opened Wrappers
  import opened Types
  import opened Text
  import opened Seqs
  import opened Sorting
  import Prefectures

  /** A search result: the property and, after a location search, its distance from the point. */
  datatype Hit = Hit(property: Property, distance: Option<real>)

  /** The great-circle distance is not modelled: any function from a point and a property to a
      number of kilometres may be supplied. */
  type DistanceFn = (Location, Property) -> real

  /** The ordering key of a hit. */
  function DistanceKey(h: Hit): real {
    h.distance.GetOr(0.0)
  }

  /** The properties of a list of hits, in order. */
  function Properties(hits: seq<Hit>): (r: seq<Property>)
    ensures |r| == |hits|
    ensures forall i :: 0 <= i < |hits| ==> r[i] == hits[i].property
  {
    if |hits| == 0 then [] else [hits[0].property] + Properties(hits[1..])
  }

  /** Hits without a distance, one per property. */
  function Unranked(props: seq<Property>): (r: seq<Hit>)
    ensures |r| == |props|
    ensures forall i :: 0 <= i < |props| ==> r[i] == Hit(props[i], None)
  {
    if |props| == 0 then [] else [Hit(props[0], None)] + Unranked(props[1..])
  }

  /** Each property with its distance from `loc` attached. */
  function WithDistance(props: seq<Property>, loc: Location, distance: DistanceFn): (r: seq<Hit>)
    ensures |r| == |props|
    ensures forall i :: 0 <= i < |props| ==> r[i] == Hit(props[i], Some(distance(loc, props[i])))
  {
    if |props| == 0 then []
    else [Hit(props[0], Some(distance(loc, props[0])))] + WithDistance(props[1..], loc, distance)
  }

  /** The address names some prefecture of the region called `regionName`; an unknown region
      matches nothing. */
  predicate InRegion(p: Property, regionName: string) {
    match Prefectures.FindRegion(regionName)
    case None => false
    case Some(region) =>
      exists k :: 0 <= k < |region.prefectures| && Contains(p.address, region.prefectures[k])
  }

  /** The area keyword occurs in the address or in the name. */
  predicate InArea(p: Property, area: string) {
    Contains(p.address, area) || Contains(p.name, area)
  }

  /** The property lists the tag; a property without tags has none. */
  predicate HasTag(p: Property, tag: PropertyTag) {
    p.tags.Some? && tag in p.tags.value
  }

  /** The test one filter pass applies: the first given criterion decides alone. */
  predicate Keeps(c: SearchCriteria, p: Property) {
    if Given(c.region) then InRegion(p, c.region.value)
    else if Given(c.area) then InArea(p, c.area.value)
    else if c.tag.Some? then HasTag(p, c.tag.value)
    else true
  }

  /** `handleSearch`: the hits shown for criteria `c` over `catalog`. */
  function Search(catalog: seq<Property>, c: SearchCriteria, distance: DistanceFn): (r: seq<Hit>)
    ensures c.location.Some? ==>
      && |r| == |catalog|
      && SortedBy(r, DistanceKey)
      && multiset(r) == multiset(WithDistance(catalog, c.location.value, distance))
    ensures c.location.None? ==>
      && IsSubsequence(Properties(r), catalog)
      && (forall i :: 0 <= i < |r| ==> r[i].distance.None? && Keeps(c, r[i].property))
      && (forall i :: 0 <= i < |catalog| && Keeps(c, catalog[i]) ==> catalog[i] in Properties(r))
      && (forall p {:trigger multiset(Properties(r))[p]} ::
            multiset(Properties(r))[p] == if Keeps(c, p) then multiset(catalog)[p] else 0)
  {
    match c.location
    case Some(loc) => SortBy(WithDistance(catalog, loc, distance), DistanceKey)
    case None =>
      var kept := Filter(catalog, (p: Property) => Keeps(c, p));
      assert Properties(Unranked(kept)) == kept;
      Unranked(kept)
  }

  /** A location search returns every property of the catalog, each once per occurrence, with
      its distance attached, nearest first; properties at equal distances keep catalog order. */
  lemma LocationSearchReturnsAll(catalog: seq<Property>, c: SearchCriteria, distance: DistanceFn, d: real)
    requires c.location.Some?
    ensures forall i :: 0 <= i < |catalog| ==>
      Hit(catalog[i], Some(distance(c.location.value, catalog[i]))) in Search(catalog, c, distance)
    ensures KeyClass(Search(catalog, c, distance), DistanceKey, d) ==
      KeyClass(WithDistance(catalog, c.location.value, distance), DistanceKey, d)
  {
    var attached := WithDistance(catalog, c.location.value, distance);
    var r := Search(catalog, c, distance);
    forall i | 0 <= i < |catalog|
      ensures Hit(catalog[i], Some(distance(c.location.value, catalog[i]))) in r
    {
      assert attached[i] in multiset(attached);
    }
    SortByStable(attached, DistanceKey, d);
  }

  /** A location overrides every other criterion. */
  lemma LocationOverridesFilters(catalog: seq<Property>, c: SearchCriteria, distance: DistanceFn)
    requires c.location.Some?
    ensures Search(catalog, c, distance) ==
      Search(catalog, SearchCriteria(None, None, None, c.location), distance)
  {
  }

  /** A region search keeps exactly the properties whose address names a prefecture of that
      region, whatever area or tag is also given; an unknown region name finds nothing. */
  lemma RegionSearchExact(catalog: seq<Property>, c: SearchCriteria, distance: DistanceFn)
    requires c.location.None? && Given(c.region)
    ensures forall p :: p in Properties(Search(catalog, c, distance)) <==>
      p in catalog && InRegion(p, c.region.value)
    ensures Prefectures.FindRegion(c.region.value).None? ==> Search(catalog, c, distance) == []
  {
    var r := Search(catalog, c, distance);
    forall p ensures p in Properties(r) <==> p in catalog && InRegion(p, c.region.value) {
      if p in Properties(r) {
        var i :| 0 <= i < |r| && Properties(r)[i] == p;
        SubsequenceMembers(Properties(r), catalog, i);
      }
    }
  }

  /** Without a region, an area keyword keeps exactly the properties whose address or name
      contains it, whatever tag is also given. */
  lemma AreaSearchExact(catalog: seq<Property>, c: SearchCriteria, distance: DistanceFn)
    requires c.location.None? && !Given(c.region) && Given(c.area)
    ensures forall p :: p in Properties(Search(catalog, c, distance)) <==>
      p in catalog && (Contains(p.address, c.area.value) || Contains(p.name, c.area.value))
  {
    var r := Search(catalog, c, distance);
    forall p ensures p in Properties(r) <==> p in catalog && InArea(p, c.area.value) {
      if p in Properties(r) {
        var i :| 0 <= i < |r| && Properties(r)[i] == p;
        SubsequenceMembers(Properties(r), catalog, i);
      }
    }
  }

  /** With only a tag, the search keeps exactly the properties listing it; a property without
      tags is never found. */
  lemma TagSearchExact(catalog: seq<Property>, c: SearchCriteria, distance: DistanceFn)
    requires c.location.None? && !Given(c.region) && !Given(c.area) && c.tag.Some?
    ensures forall p :: p in Properties(Search(catalog, c, distance)) <==>
      p in catalog && p.tags.Some? && c.tag.value in p.tags.value
  {
    var r := Search(catalog, c, distance);
    forall p ensures p in Properties(r) <==> p in catalog && HasTag(p, c.tag.value) {
      if p in Properties(r) {
        var i :| 0 <= i < |r| && Properties(r)[i] == p;
        SubsequenceMembers(Properties(r), catalog, i);
      }
    }
  }

  /** With no criterion given (an empty keyword counts as none), the whole catalog comes back
      in its original order. */
  lemma EmptyCriteriaReturnsCatalog(catalog: seq<Property>, c: SearchCriteria, distance: DistanceFn)
    requires c.location.None? && !Given(c.region) && !Given(c.area) && c.tag.None?
    ensures Properties(Search(catalog, c, distance)) == catalog
  {
    FilterKeepsAll(catalog, (p: Property) => Keeps(c, p));
    var kept := Filter(catalog, (p: Property) => Keeps(c, p));
    assert Properties(Unranked(kept)) == kept;
  }

  /** Every element of a subsequence is an element of the sequence. */
  lemma {:induction false} SubsequenceMembers<T>(a: seq<T>, b: seq<T>, i: nat)
    requires IsSubsequence(a, b) && i < |a|
    ensures a[i] in b
    decreases |b|
  {
    if a[0] == b[0] && IsSubsequence(a[1..], b[1..]) {
      if i > 0 {
        SubsequenceMembers(a[1..], b[1..], i - 1);
      }
    } else {
      SubsequenceMembers(a, b[1..], i);
    }
  }
}
