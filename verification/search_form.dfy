/** The search form: the number of properties per prefecture and per region shown next to each
    button, the criteria each kind of search hands to the app shell, and the accordion of
    regions of which at most one is open. */
module SearchForm {
  import opened Wrappers
  import opened Types
  import opened Text
  import opened Seqs
  import opened Prefectures
  import Search

  /** Every prefecture of a table of regions, region by region, in listed order: the order in
      which the counting loops visit them. */
  function Flatten(rs: seq<Region>): (r: seq<string>)
    ensures forall i :: 0 <= i < |rs| ==> forall j :: 0 <= j < |rs[i].prefectures| ==>
      rs[i].prefectures[j] in r
  {
    if |rs| == 0 then [] else Flatten(rs[..|rs| - 1]) + rs[|rs| - 1].prefectures
  }

  /** The test `address.includes(prefecture)`, as a filter test. */
  function NamedIn(address: string): string -> bool {
    (pref: string) => Contains(address, pref)
  }

  /** The prefecture a property is counted under: the first one, region by region and in listed
      order, that its address contains; none when the address names no prefecture. */
  function FirstPrefecture(address: string, rs: seq<Region>): (r: Option<string>)
    ensures r.None? <==> forall i :: 0 <= i < |Flatten(rs)| ==> !Contains(address, Flatten(rs)[i])
    ensures r.Some? ==> r.value in Flatten(rs) && Contains(address, r.value)
  {
    match FirstIndex(Flatten(rs), NamedIn(address))
    case None => None
    case Some(k) =>
      assert NamedIn(address)(Flatten(rs)[k]);
      Some(Flatten(rs)[k])
  }

  /** How many of `props` are counted under `pref`. */
  function Tally(props: seq<Property>, pref: string, rs: seq<Region>): (n: nat)
    ensures n <= |props|
  {
    if |props| == 0 then 0
    else Tally(props[..|props| - 1], pref, rs)
         + (if FirstPrefecture(props[|props| - 1].address, rs) == Some(pref) then 1 else 0)
  }

  /** How many of `props` are counted under some prefecture of `prefs`. */
  function TallyIn(props: seq<Property>, prefs: seq<string>, rs: seq<Region>): (n: nat)
    ensures n <= |props|
  {
    if |props| == 0 then 0
    else
      var first := FirstPrefecture(props[|props| - 1].address, rs);
      TallyIn(props[..|props| - 1], prefs, rs) + (if first.Some? && first.value in prefs then 1 else 0)
  }

  /** `counts[pref] || 0`: an absent prefecture counts zero. */
  function CountOf(counts: map<string, nat>, pref: string): nat {
    if pref in counts then counts[pref] else 0
  }

  /** Flattening distributes over concatenation of tables. */
  lemma {:induction false} FlattenAppend(a: seq<Region>, b: seq<Region>)
    ensures Flatten(a + b) == Flatten(a) + Flatten(b)
    decreases |b|
  {
    if |b| > 0 {
      var ab := a + b;
      assert ab[..|ab| - 1] == a + b[..|b| - 1];
      FlattenAppend(a, b[..|b| - 1]);
    } else {
      assert a + b == a;
    }
  }

  /** The inner loop of the count: the first prefecture of `prefs` that the address contains. */
  method FirstIn(address: string, prefs: seq<string>) returns (r: Option<nat>)
    ensures r == FirstIndex(prefs, NamedIn(address))
  {
    r := None;
    for j := 0 to |prefs|
      invariant forall k :: 0 <= k < j ==> !Contains(address, prefs[k])
    {
      if Contains(address, prefs[j]) {
        r := Some(j);
        return;
      }
    }
  }

  /** One more region adds its prefectures at the end. */
  lemma FlattenSnoc(rs: seq<Region>, i: nat)
    requires i < |rs|
    ensures Flatten(rs[..i + 1]) == Flatten(rs[..i]) + rs[i].prefectures
  {
    assert rs[..i + 1][..i] == rs[..i];
  }

  /** The prefectures of the first `i` regions lead the prefectures of the whole table. */
  lemma FlattenPrefix(rs: seq<Region>, i: nat)
    requires i <= |rs|
    ensures |Flatten(rs[..i])| <= |Flatten(rs)|
    ensures forall m :: 0 <= m < |Flatten(rs[..i])| ==> Flatten(rs)[m] == Flatten(rs[..i])[m]
  {
    FlattenAppend(rs[..i], rs[i..]);
    assert rs[..i] + rs[i..] == rs;
  }

  /** The nested search of the count: regions in order, each region's prefectures in order, and
      the first prefecture the address contains ends both loops. */
  method FindPrefecture(address: string, rs: seq<Region>) returns (r: Option<string>)
    ensures r == FirstPrefecture(address, rs)
  {
    r := None;
    for i := 0 to |rs|
      invariant forall k :: 0 <= k < |Flatten(rs[..i])| ==> !Contains(address, Flatten(rs[..i])[k])
    {
      FlattenSnoc(rs, i);
      var hit := FirstIn(address, rs[i].prefectures);
      if hit.Some? {
        r := Some(rs[i].prefectures[hit.value]);
        FoundAt(address, rs, i, hit.value);
        return;
      }
    }
    assert rs[..|rs|] == rs;
  }

  /** Prefecture `j` of region `i` sits, in the whole table, after every prefecture of the
      regions before it. */
  lemma FlatIndex(rs: seq<Region>, i: nat, j: nat)
    requires i < |rs| && j < |rs[i].prefectures|
    ensures |Flatten(rs[..i])| + j < |Flatten(rs)|
    ensures Flatten(rs)[|Flatten(rs[..i])| + j] == rs[i].prefectures[j]
  {
    FlattenSnoc(rs, i);
    FlattenPrefix(rs, i + 1);
  }

  /** When no prefecture of the first `i` regions is named and the `j`th of region `i` is the
      first of its region named, that prefecture is the one the property is counted under. */
  lemma FoundAt(address: string, rs: seq<Region>, i: nat, j: nat)
    requires i < |rs| && j < |rs[i].prefectures|
    requires forall k :: 0 <= k < |Flatten(rs[..i])| ==> !Contains(address, Flatten(rs[..i])[k])
    requires Some(j) == FirstIndex(rs[i].prefectures, NamedIn(address))
    ensures FirstPrefecture(address, rs) == Some(rs[i].prefectures[j])
  {
    var k := |Flatten(rs[..i])| + j;
    FlatIndex(rs, i, j);
    NotNamedBefore(address, rs, i, j);
    assert NamedIn(address)(Flatten(rs)[k]);
    FirstIndexIs(Flatten(rs), NamedIn(address), k);
  }

  /** Under the same conditions, no entry of the table before that prefecture is named. */
  lemma NotNamedBefore(address: string, rs: seq<Region>, i: nat, j: nat)
    requires i < |rs| && j < |rs[i].prefectures|
    requires forall k :: 0 <= k < |Flatten(rs[..i])| ==> !Contains(address, Flatten(rs[..i])[k])
    requires Some(j) == FirstIndex(rs[i].prefectures, NamedIn(address))
    ensures |Flatten(rs[..i])| + j < |Flatten(rs)|
    ensures forall m :: 0 <= m < |Flatten(rs[..i])| + j ==> !NamedIn(address)(Flatten(rs)[m])
  {
    var base := |Flatten(rs[..i])|;
    FlatIndex(rs, i, j);
    FlattenPrefix(rs, i);
    forall m | 0 <= m < base + j ensures !NamedIn(address)(Flatten(rs)[m]) {
      if m >= base {
        FlatIndex(rs, i, m - base);
      }
    }
  }

  /** `propertyCountsByPrefecture`: for every property, one more under the first prefecture its
      address names; a prefecture with no property has no entry. */
  method CountByPrefecture(props: seq<Property>, rs: seq<Region>) returns (counts: map<string, nat>)
    ensures forall pref :: CountOf(counts, pref) == Tally(props, pref, rs)
    ensures forall pref :: pref in counts ==> counts[pref] > 0 && pref in Flatten(rs)
  {
    counts := map[];
    for i := 0 to |props|
      invariant forall pref :: CountOf(counts, pref) == Tally(props[..i], pref, rs)
      invariant forall pref :: pref in counts ==> counts[pref] > 0 && pref in Flatten(rs)
    {
      assert props[..i + 1][..i] == props[..i];
      var found := FindPrefecture(props[i].address, rs);
      if found.Some? {
        counts := counts[found.value := CountOf(counts, found.value) + 1];
      }
    }
    assert props[..|props|] == props;
  }

  /** `getCountForRegion`: the counts of the region's prefectures added up. */
  function RegionCount(counts: map<string, nat>, prefs: seq<string>): nat {
    if |prefs| == 0 then 0 else CountOf(counts, prefs[0]) + RegionCount(counts, prefs[1..])
  }

  /** A property counted under `a` is not counted under any other prefecture. */
  lemma {:induction false} TallySplit(props: seq<Property>, a: string, rest: seq<string>, rs: seq<Region>)
    requires a !in rest
    ensures TallyIn(props, [a] + rest, rs) == Tally(props, a, rs) + TallyIn(props, rest, rs)
    decreases |props|
  {
    if |props| > 0 {
      TallySplit(props[..|props| - 1], a, rest, rs);
    }
  }

  /** The region total counts each property once: it is the number of properties counted under
      some prefecture of the region, so it never exceeds the number of properties. */
  lemma {:induction false} RegionCountCountsOnce(props: seq<Property>, counts: map<string, nat>, prefs: seq<string>, rs: seq<Region>)
    requires Distinct(prefs)
    requires forall pref :: CountOf(counts, pref) == Tally(props, pref, rs)
    ensures RegionCount(counts, prefs) == TallyIn(props, prefs, rs)
    ensures RegionCount(counts, prefs) <= |props|
  {
    if |prefs| == 0 {
      TallyInEmpty(props, rs);
    } else {
      assert Distinct(prefs[1..]) by {
        forall i, j | 0 <= i < j < |prefs[1..]| ensures prefs[1..][i] != prefs[1..][j] {
          assert prefs[1..][i] == prefs[i + 1] && prefs[1..][j] == prefs[j + 1];
        }
      }
      assert prefs[0] !in prefs[1..] by {
        forall j | 0 <= j < |prefs[1..]| ensures prefs[1..][j] != prefs[0] {
          assert prefs[1..][j] == prefs[j + 1];
        }
      }
      RegionCountCountsOnce(props, counts, prefs[1..], rs);
      TallySplit(props, prefs[0], prefs[1..], rs);
      assert [prefs[0]] + prefs[1..] == prefs;
    }
  }

  /** No property is counted under a prefecture of an empty list. */
  lemma {:induction false} TallyInEmpty(props: seq<Property>, rs: seq<Region>)
    ensures TallyIn(props, [], rs) == 0
    decreases |props|
  {
    if |props| > 0 {
      TallyInEmpty(props[..|props| - 1], rs);
    }
  }

  /** Every entry of the flattened table is a prefecture of one of its regions. */
  lemma {:induction false} FlattenMember(rs: seq<Region>, m: nat)
    requires m < |Flatten(rs)|
    ensures exists i, j :: 0 <= i < |rs| && 0 <= j < |rs[i].prefectures| && rs[i].prefectures[j] == Flatten(rs)[m]
  {
    var init := rs[..|rs| - 1];
    if m < |Flatten(init)| {
      FlattenMember(init, m);
      var i, j :| 0 <= i < |init| && 0 <= j < |init[i].prefectures| && init[i].prefectures[j] == Flatten(init)[m];
      assert rs[i] == init[i];
    } else {
      var j := m - |Flatten(init)|;
      assert rs[|rs| - 1].prefectures[j] == Flatten(rs)[m];
    }
  }

  /** A table whose regions list distinct prefectures, no two regions sharing one, flattens to
      distinct names. */
  lemma {:induction false} FlattenDistinct(rs: seq<Region>)
    requires WellFormed(rs)
    ensures Distinct(Flatten(rs))
  {
    if |rs| > 0 {
      var init := rs[..|rs| - 1];
      var last := rs[|rs| - 1].prefectures;
      assert WellFormed(init) by {
        forall i | 0 <= i < |init| ensures init[i] == rs[i] { }
      }
      FlattenDistinct(init);
      var a := Flatten(init);
      assert Flatten(rs) == a + last;
      forall m, n | 0 <= m < |a| && 0 <= n < |last| ensures a[m] != last[n] {
        FlattenMember(init, m);
        var i, j :| 0 <= i < |init| && 0 <= j < |init[i].prefectures| && init[i].prefectures[j] == a[m];
        assert Disjoint(rs[i].prefectures, last);
      }
      forall m, n | 0 <= m < n < |a + last| ensures (a + last)[m] != (a + last)[n] {
        if n < |a| {
        } else if m >= |a| {
          assert (a + last)[m] == last[m - |a|] && (a + last)[n] == last[n - |a|];
        } else {
          assert (a + last)[n] == last[n - |a|];
        }
      }
    }
  }

  /** The counts of all prefectures of the table added up count each property at most once:
      the total is the number of properties whose address names some prefecture. */
  lemma AllCountsBounded(props: seq<Property>, counts: map<string, nat>)
    requires forall pref :: CountOf(counts, pref) == Tally(props, pref, Regions)
    ensures RegionCount(counts, Flatten(Regions)) == TallyIn(props, Flatten(Regions), Regions)
    ensures RegionCount(counts, Flatten(Regions)) <= |props|
  {
    RegionTableWellFormed();
    FlattenDistinct(Regions);
    RegionCountCountsOnce(props, counts, Flatten(Regions), Regions);
  }

  /** A property counted under a prefecture of a region of the table is found by that region's
      search: the counts never show a property the region search would miss. */
  lemma CountedIsInRegion(p: Property, region: Region)
    requires FindRegion(region.name) == Some(region)
    requires FirstPrefecture(p.address, Regions).Some?
    requires FirstPrefecture(p.address, Regions).value in region.prefectures
    ensures Search.InRegion(p, region.name)
  {
    var pref := FirstPrefecture(p.address, Regions).value;
    var k :| 0 <= k < |region.prefectures| && region.prefectures[k] == pref;
  }

  /** `handlePrefectureSearch`: a prefecture button searches for that area. */
  function PrefectureCriteria(pref: string): (c: SearchCriteria)
    ensures c.area == Some(pref) && c.region.None? && c.tag.None? && c.location.None?
  {
    SearchCriteria(Some(pref), None, None, None)
  }

  /** `handleRegionSearch`: a region button searches for that region. */
  function RegionCriteria(name: string): (c: SearchCriteria)
    ensures c.region == Some(name) && c.area.None? && c.tag.None? && c.location.None?
  {
    SearchCriteria(None, Some(name), None, None)
  }

  /** `handleKeywordSearch`: a blank keyword searches nothing; any other is sent as an area
      exactly as typed, surrounding white space included. */
  function KeywordCriteria(keyword: string): (c: Option<SearchCriteria>)
    ensures c.None? <==> IsBlank(keyword)
    ensures c.Some? ==> c.value == PrefectureCriteria(keyword)
  {
    if Trim(keyword) == "" then None else Some(SearchCriteria(Some(keyword), None, None, None))
  }

  /** The search a prefecture button starts finds exactly the properties whose address or name
      contains the prefecture. */
  lemma PrefectureSearchFindsArea(catalog: seq<Property>, pref: string, distance: Search.DistanceFn)
    requires pref != ""
    ensures forall p :: p in Search.Properties(Search.Search(catalog, PrefectureCriteria(pref), distance)) <==>
      p in catalog && (Contains(p.address, pref) || Contains(p.name, pref))
  {
    Search.AreaSearchExact(catalog, PrefectureCriteria(pref), distance);
  }

  /** The search a keyword starts finds exactly the properties whose address or name contains the
      keyword as typed. */
  lemma KeywordSearchFindsArea(catalog: seq<Property>, keyword: string, distance: Search.DistanceFn)
    requires KeywordCriteria(keyword).Some?
    ensures forall p :: p in Search.Properties(Search.Search(catalog, KeywordCriteria(keyword).value, distance)) <==>
      p in catalog && (Contains(p.address, keyword) || Contains(p.name, keyword))
  {
    PrefectureSearchFindsArea(catalog, keyword, distance);
  }

  /** The search a region button starts finds exactly the properties of that region. */
  lemma RegionSearchFindsRegion(catalog: seq<Property>, name: string, distance: Search.DistanceFn)
    requires name != ""
    ensures forall p :: p in Search.Properties(Search.Search(catalog, RegionCriteria(name), distance)) <==>
      p in catalog && Search.InRegion(p, name)
  {
    Search.RegionSearchExact(catalog, RegionCriteria(name), distance);
  }

  /** The region open when the form first shows. */
  const InitialOpenRegion: Option<string> := Some("関東")

  /** `toggleRegion`: clicking the open region closes it; clicking any other opens it and closes
      the one that was open. */
  function ToggleRegion(open: Option<string>, name: string): (r: Option<string>)
    ensures r == Some(name) <==> open != Some(name)
    ensures r.None? <==> open == Some(name)
  {
    if open == Some(name) then None else Some(name)
  }

  /** Clicking the same region twice restores the accordion when that region or none was open;
      at most one region is open after any click. */
  lemma ToggleTwice(open: Option<string>, name: string, other: string)
    requires open.None? || open == Some(name)
    ensures ToggleRegion(ToggleRegion(open, name), name) == open
    ensures other != name ==> ToggleRegion(open, name) != Some(other)
  {
  }

  /** The region first open is a region of the table, the one holding the capital. */
  lemma InitialRegionListed()
    ensures FindRegion(InitialOpenRegion.value).Some?
    ensures "東京都" in FindRegion(InitialOpenRegion.value).value.prefectures
  {
    KantoHoldsTokyoAndKanagawa();
  }
}
