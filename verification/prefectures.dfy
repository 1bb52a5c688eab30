/** The table of regions, each a named list of prefectures, used by region search and by the
    per-prefecture counts of the search form. */
module Prefectures {
  import opened Wrappers

  /** A named group of prefectures. */
  datatype Region = Region(name: string, prefectures: seq<string>)

  const HokkaidoTohoku: seq<string> :=
    ["北海道", "青森県", "岩手県", "宮城県", "秋田県", "山形県", "福島県"]
  const Kanto: seq<string> :=
    ["茨城県", "栃木県", "群馬県", "埼玉県", "千葉県", "東京都", "神奈川県"]
  const HokurikuKoshinetsu: seq<string> :=
    ["新潟県", "富山県", "石川県", "福井県", "山梨県", "長野県"]
  const Tokai: seq<string> :=
    ["岐阜県", "静岡県", "愛知県", "三重県"]
  const Kansai: seq<string> :=
    ["滋賀県", "京都府", "大阪府", "兵庫県", "奈良県", "和歌山県"]
  const ChugokuShikoku: seq<string> :=
    ["鳥取県", "島根県", "岡山県", "広島県", "山口県", "徳島県", "香川県", "愛媛県", "高知県"]
  const KyushuOkinawa: seq<string> :=
    ["福岡県", "佐賀県", "長崎県", "熊本県", "大分県", "宮崎県", "鹿児島県", "沖縄県"]

  /** The seven regions, in display order. */
  const Regions: seq<Region> := [
    Region("北海道・東北", HokkaidoTohoku),
    Region("関東", Kanto),
    Region("北陸・甲信越", HokurikuKoshinetsu),
    Region("東海", Tokai),
    Region("関西（近畿）", Kansai),
    Region("中国・四国", ChugokuShikoku),
    Region("九州・沖縄", KyushuOkinawa)
  ]

  /** No name is listed twice in `s`. */
  predicate Distinct(s: seq<string>) {
    forall i, j :: 0 <= i < j < |s| ==> s[i] != s[j]
  }

  /** No name is listed in both `a` and `b`. */
  predicate Disjoint(a: seq<string>, b: seq<string>) {
    forall i, j :: 0 <= i < |a| && 0 <= j < |b| ==> a[i] != b[j]
  }

  /** Every prefecture of the table belongs to exactly one region and is listed once there. */
  predicate WellFormed(rs: seq<Region>) {
    && (forall i, j :: 0 <= i < j < |rs| ==> rs[i].name != rs[j].name)
    && (forall i :: 0 <= i < |rs| ==> Distinct(rs[i].prefectures))
    && (forall i, j :: 0 <= i < j < |rs| ==> Disjoint(rs[i].prefectures, rs[j].prefectures))
  }

  /** The number of prefecture entries in `rs`. */
  function PrefectureCount(rs: seq<Region>): nat {
    if |rs| == 0 then 0 else |rs[0].prefectures| + PrefectureCount(rs[1..])
  }

  /** `regions.find(r => r.name === name)`: the first region with that name. */
  function FindRegion(name: string): (r: Option<Region>)
    ensures r.Some? <==> exists i :: 0 <= i < |Regions| && Regions[i].name == name
    ensures r.Some? ==> r.value in Regions && r.value.name == name
  {
    FindIn(Regions, name)
  }

  /** The first region of `rs` named `name`. */
  function FindIn(rs: seq<Region>, name: string): (r: Option<Region>)
    ensures r.Some? <==> exists i :: 0 <= i < |rs| && rs[i].name == name
    ensures r.Some? ==> r.value in rs && r.value.name == name
    ensures r.Some? ==> exists i :: 0 <= i < |rs| && rs[i] == r.value &&
                          forall j :: 0 <= j < i ==> rs[j].name != name
  {
    if |rs| == 0 then None
    else if rs[0].name == name then Some(rs[0])
    else FindIn(rs[1..], name)
  }

  lemma EachRegionDistinct()
    ensures Distinct(HokkaidoTohoku) && Distinct(Kanto) && Distinct(HokurikuKoshinetsu)
    ensures Distinct(Tokai) && Distinct(Kansai) && Distinct(ChugokuShikoku)
    ensures Distinct(KyushuOkinawa)
  {
  }

  lemma NorthernRegionsDisjoint()
    ensures Disjoint(HokkaidoTohoku, Kanto) && Disjoint(HokkaidoTohoku, HokurikuKoshinetsu)
    ensures Disjoint(HokkaidoTohoku, Tokai) && Disjoint(HokkaidoTohoku, Kansai)
    ensures Disjoint(HokkaidoTohoku, ChugokuShikoku) && Disjoint(HokkaidoTohoku, KyushuOkinawa)
    ensures Disjoint(Kanto, HokurikuKoshinetsu) && Disjoint(Kanto, Tokai)
  {
  }

  lemma CentralRegionsDisjoint()
    ensures Disjoint(Kanto, Kansai) && Disjoint(Kanto, ChugokuShikoku)
    ensures Disjoint(Kanto, KyushuOkinawa) && Disjoint(HokurikuKoshinetsu, Tokai)
    ensures Disjoint(HokurikuKoshinetsu, Kansai) && Disjoint(HokurikuKoshinetsu, ChugokuShikoku)
    ensures Disjoint(HokurikuKoshinetsu, KyushuOkinawa)
  {
  }

  lemma SouthernRegionsDisjoint()
    ensures Disjoint(Tokai, Kansai) && Disjoint(Tokai, ChugokuShikoku)
    ensures Disjoint(Tokai, KyushuOkinawa) && Disjoint(Kansai, ChugokuShikoku)
    ensures Disjoint(Kansai, KyushuOkinawa) && Disjoint(ChugokuShikoku, KyushuOkinawa)
  {
  }

  /** The shape of the table: seven regions with distinct names, 47 prefecture entries, and no
      prefecture listed twice within a region or in two regions. */
  lemma RegionTableWellFormed()
    ensures |Regions| == 7
    ensures PrefectureCount(Regions) == 47
    ensures WellFormed(Regions)
  {
    EachRegionDistinct();
    NorthernRegionsDisjoint();
    CentralRegionsDisjoint();
    SouthernRegionsDisjoint();
    assert PrefectureCount(Regions[6..]) == 8;
    assert PrefectureCount(Regions[5..]) == 17;
    assert PrefectureCount(Regions[4..]) == 23;
    assert PrefectureCount(Regions[3..]) == 27;
    assert PrefectureCount(Regions[2..]) == 33;
    assert PrefectureCount(Regions[1..]) == 40;
  }

  /** The capital region holds Tokyo and Kanagawa. */
  lemma KantoHoldsTokyoAndKanagawa()
    ensures FindRegion("関東").Some?
    ensures "東京都" in FindRegion("関東").value.prefectures
    ensures "神奈川県" in FindRegion("関東").value.prefectures
  {
    assert Regions[1].name == "関東";
    assert Regions[0].name != "関東";
    assert Kanto[5] == "東京都" && Kanto[6] == "神奈川県";
  }
}
