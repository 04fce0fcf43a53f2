/**
 * The public catalogue (src/pages/Produk.tsx): the feed records normalised for display, the
 * brand options of each tab, the chain of filters, the pager, and the view state that the tab,
 * brand and filter handlers change.
 */
module Catalog {
  import opened Wrappers
  import opened Seqs
  import opened Text
  import opened JsNumber
  import opened StringOrder

  // ---------------------------------------------------------------------------------------
  // Normalisation

  /** A record of one of the four JSON feeds; an absent property is `None`. */
  datatype FeedItem = FeedItem(
    id: Option<string>, merk: Option<string>, model: Option<string>, tipe: Option<string>,
    warna: Option<string>, tahun: Option<string>, cc: Option<string>, transmisi: Option<string>,
    lokasi: Option<string>, harga: Option<string>, kategori: Option<string>, kondisi: Option<string>)

  /** A catalogue record as the page keeps it (`Brand`, `Produk`, `Type`, … in the code);
    * `tahun` and `harga` are numbers, `None` standing for `NaN`. */
  datatype Product = Product(
    id: Option<string>, brand: Option<string>, produk: Option<string>, typeName: Option<string>,
    warna: Option<string>, tahun: Option<int>, cc: Option<string>, transmisi: Option<string>,
    lokasi: Option<string>, harga: Option<int>, kategori: Option<string>, kondisi: Option<string>)

  /** `Number(x)` of a feed property: `Number(undefined)` is `NaN`. */
  function ToNumber(x: Option<string>): Option<int>
  {
    match x
    case None => None
    case Some(s) => NumberOf(s)
  }

  /** The record the page builds from a feed item. */
  function Normalize(item: FeedItem): Product
  {
    Product(item.id, item.merk, item.model, item.tipe, item.warna, ToNumber(item.tahun), item.cc,
            item.transmisi, item.lokasi, ToNumber(item.harga), item.kategori, item.kondisi)
  }

  /** `combinedData.map(...)`: one record per feed item, in feed order. */
  function NormalizeAll(items: seq<FeedItem>): (r: seq<Product>)
    ensures |r| == |items|
    ensures forall i | 0 <= i < |items| :: r[i] == Normalize(items[i])
  {
    seq(|items|, i requires 0 <= i < |items| => Normalize(items[i]))
  }

  /** Normalisation renames the properties, keeps the key, and turns a year or price written
    * in decimal back into that number; an absent or unreadable one becomes `NaN`. */
  lemma NormalizeFields(item: FeedItem, year: nat, price: nat)
    ensures Normalize(item).id == item.id
    ensures Normalize(item).brand == item.merk && Normalize(item).produk == item.model
    ensures Normalize(item).typeName == item.tipe && Normalize(item).kategori == item.kategori
    ensures Normalize(item).kondisi == item.kondisi
    ensures item.tahun == Some(NatStr(year)) ==> Normalize(item).tahun == Some(year)
    ensures item.harga == Some(NatStr(price)) ==> Normalize(item).harga == Some(price)
    ensures item.tahun.None? ==> Normalize(item).tahun.None?
    ensures item.harga.Some? && !IsNumeric(item.harga.value) ==> Normalize(item).harga.None?
  {
    NumberOfNatStr(year);
    NumberOfNatStr(price);
  }

  /** Normalising the flattened feeds is normalising each feed and flattening the results. */
  lemma {:induction false} NormalizeFlattened(feeds: seq<seq<FeedItem>>)
    ensures NormalizeAll(Concat(feeds)) == Concat(seq(|feeds|, i requires 0 <= i < |feeds| => NormalizeAll(feeds[i])))
  {
    var per := seq(|feeds|, i requires 0 <= i < |feeds| => NormalizeAll(feeds[i]));
    if feeds != [] {
      NormalizeFlattened(feeds[1..]);
      var rest := seq(|feeds| - 1, i requires 0 <= i < |feeds| - 1 => NormalizeAll(feeds[1..][i]));
      assert per[1..] == rest;
      NormalizeAppend(feeds[0], Concat(feeds[1..]));
    }
  }

  lemma NormalizeAppend(a: seq<FeedItem>, b: seq<FeedItem>)
    ensures NormalizeAll(a + b) == NormalizeAll(a) + NormalizeAll(b)
  {
  }

  // ---------------------------------------------------------------------------------------
  // Tabs and filters

  /** The four tabs that list vehicles. */
  predicate IsVehicleTab(tab: string)
  {
    tab == "mobil-baru" || tab == "mobil-bekas" || tab == "motor-baru" || tab == "motor-bekas"
  }

  /** The tab restriction: the (Kategori, Kondisi) pair of a vehicle tab; any other tab lets
    * every record through. */
  predicate TabMatches(tab: string, v: Product)
  {
    if tab == "mobil-baru" then v.kategori == Some("Mobil") && v.kondisi == Some("Baru")
    else if tab == "mobil-bekas" then v.kategori == Some("Mobil") && v.kondisi == Some("Bekas")
    else if tab == "motor-baru" then v.kategori == Some("Motor") && v.kondisi == Some("Baru")
    else if tab == "motor-bekas" then v.kategori == Some("Motor") && v.kondisi == Some("Bekas")
    else true
  }

  /** The nine inputs of the filter panel and the search box; `''` means not set. */
  datatype Filters = Filters(
    search: string, brand: string, priceMin: string, priceMax: string, typeName: string,
    yearMin: string, yearMax: string, transmission: string, location: string)

  const NoFilters := Filters("", "", "", "", "", "", "", "", "")

  /** How `${x}` prints a property: an absent one prints as `undefined`. */
  function Shown(x: Option<string>): string
  {
    match x
    case None => "undefined"
    case Some(s) => s
  }

  /** The text the search box is matched against. */
  function SearchText(v: Product): string
  {
    Shown(v.brand) + " " + Shown(v.produk) + " " + Shown(v.typeName) + " " + Shown(v.warna)
  }

  /** `x >= bound` on numbers: false when either side is `NaN`. */
  predicate AtLeast(x: Option<int>, bound: Option<int>)
  {
    x.Some? && bound.Some? && x.value >= bound.value
  }

  /** `x <= bound` on numbers: false when either side is `NaN`. */
  predicate AtMost(x: Option<int>, bound: Option<int>)
  {
    x.Some? && bound.Some? && x.value <= bound.value
  }

  /** One `.filter` of the chain. */
  datatype Criterion =
    | OnTab(tab: string)
    | OnBrandTab(brandTab: string)
    | Search(term: string)
    | BrandIs(brand: string)
    | TypeIs(typeName: string)
    | TransmissionIs(transmission: string)
    | LocationIs(location: string)
    | YearFrom(bound: Option<int>)
    | YearTo(bound: Option<int>)
    | PriceFrom(bound: Option<int>)
    | PriceTo(bound: Option<int>)

  predicate Holds(c: Criterion, v: Product)
  {
    match c
    case OnTab(tab) => TabMatches(tab, v)
    case OnBrandTab(b) => v.brand == Some(b)
    case Search(term) => Includes(LowerCase(SearchText(v)), term)
    case BrandIs(b) => v.brand == Some(b)
    case TypeIs(t) => v.typeName == Some(t)
    case TransmissionIs(t) => v.transmisi == Some(t)
    case LocationIs(l) => v.lokasi == Some(l)
    case YearFrom(bound) => AtLeast(v.tahun, bound)
    case YearTo(bound) => AtMost(v.tahun, bound)
    case PriceFrom(bound) => AtLeast(v.harga, bound)
    case PriceTo(bound) => AtMost(v.harga, bound)
  }

  /** The chain of `if (input) result = result.filter(...)` steps, first to last; a step whose
    * input is not set is skipped. */
  datatype Chain = End | Then(active: bool, first: Criterion, rest: Chain)

  /** The steps the effect takes, in its order: the tab's (for a vehicle tab), the brand tab's,
    * then one per input. */
  function ActiveCriteria(tab: string, brandTab: string, f: Filters): Chain
  {
    Then(IsVehicleTab(tab), OnTab(tab),
    Then(brandTab != "", OnBrandTab(brandTab),
    InputSteps(f)))
  }

  /** The steps of the search box and the four selects. */
  function InputSteps(f: Filters): Chain
  {
    Then(f.search != "", Search(LowerCase(f.search)),
    Then(f.brand != "", BrandIs(f.brand),
    Then(f.typeName != "", TypeIs(f.typeName),
    Then(f.transmission != "", TransmissionIs(f.transmission),
    Then(f.location != "", LocationIs(f.location),
    RangeSteps(f))))))
  }

  /** The steps of the four range inputs, each bound read by `parseInt`. */
  function RangeSteps(f: Filters): Chain
  {
    Then(f.yearMin != "", YearFrom(ParseInt(f.yearMin)),
    Then(f.yearMax != "", YearTo(ParseInt(f.yearMax)),
    PriceSteps(f)))
  }

  function PriceSteps(f: Filters): Chain
  {
    Then(f.priceMin != "", PriceFrom(ParseInt(f.priceMin)),
    Then(f.priceMax != "", PriceTo(ParseInt(f.priceMax)), End))
  }

  /** The steps one after the other. */
  function ApplyAll(vs: seq<Product>, cs: Chain): seq<Product>
    decreases cs
  {
    match cs
    case End => vs
    case Then(active, c, rest) => ApplyAll(if active then Filter(vs, v => Holds(c, v)) else vs, rest)
  }

  /** The filtering effect's result. */
  function FilterVehicles(all: seq<Product>, tab: string, brandTab: string, f: Filters): seq<Product>
  {
    ApplyAll(all, ActiveCriteria(tab, brandTab, f))
  }

  predicate MatchesAll(cs: Chain, v: Product)
  {
    match cs
    case End => true
    case Then(active, c, rest) => (active ==> Holds(c, v)) && MatchesAll(rest, v)
  }

  /** Filtering in turn by each criterion is filtering once by all of them. */
  lemma {:induction false} ApplyAllIsFilter(vs: seq<Product>, cs: Chain)
    ensures ApplyAll(vs, cs) == Filter(vs, v => MatchesAll(cs, v))
    decreases cs
  {
    match cs
    case End =>
      FilterAll(vs, v => MatchesAll(cs, v));
    case Then(active, c, rest) =>
      if active {
        ApplyAllIsFilter(Filter(vs, v => Holds(c, v)), rest);
        FilterFuse(vs, v => Holds(c, v), v => MatchesAll(rest, v), v => MatchesAll(cs, v));
      } else {
        ApplyAllIsFilter(vs, rest);
        FilterSame(vs, v => MatchesAll(rest, v), v => MatchesAll(cs, v));
      }
  }

  /** The reference reading of the chain: a record is listed when it is on the tab and passes
    * every check whose input is set. */
  predicate Selected(tab: string, brandTab: string, f: Filters, v: Product)
  {
    && TabMatches(tab, v)
    && (brandTab != "" ==> v.brand == Some(brandTab))
    && MatchesInputs(f, v)
    && InRanges(f, v)
  }

  /** The search box (case-insensitive, over brand, product, type and colour) and the four
    * selects (exact). */
  predicate MatchesInputs(f: Filters, v: Product)
  {
    && (f.search != "" ==> Includes(LowerCase(SearchText(v)), LowerCase(f.search)))
    && (f.brand != "" ==> v.brand == Some(f.brand))
    && (f.typeName != "" ==> v.typeName == Some(f.typeName))
    && (f.transmission != "" ==> v.transmisi == Some(f.transmission))
    && (f.location != "" ==> v.lokasi == Some(f.location))
  }

  /** The year and price ranges, inclusive, each bound read by `parseInt`. */
  predicate InRanges(f: Filters, v: Product)
  {
    && (f.yearMin != "" ==> AtLeast(v.tahun, ParseInt(f.yearMin)))
    && (f.yearMax != "" ==> AtMost(v.tahun, ParseInt(f.yearMax)))
    && (f.priceMin != "" ==> AtLeast(v.harga, ParseInt(f.priceMin)))
    && (f.priceMax != "" ==> AtMost(v.harga, ParseInt(f.priceMax)))
  }

  /** The records the reference reading selects, in their order. */
  function Listed(all: seq<Product>, tab: string, brandTab: string, f: Filters): seq<Product>
  {
    Filter(all, v => Selected(tab, brandTab, f, v))
  }

  /** The records of a tab, in their order. */
  function TabVehicles(tab: string, all: seq<Product>): seq<Product>
  {
    Filter(all, v => TabMatches(tab, v))
  }

  lemma PriceStepsMeaning(f: Filters, v: Product)
    ensures MatchesAll(PriceSteps(f), v) <==>
              && (f.priceMin != "" ==> AtLeast(v.harga, ParseInt(f.priceMin)))
              && (f.priceMax != "" ==> AtMost(v.harga, ParseInt(f.priceMax)))
  {
    var c1 := Then(f.priceMax != "", PriceTo(ParseInt(f.priceMax)), End);
    assert MatchesAll(c1, v) <==> (f.priceMax != "" ==> AtMost(v.harga, ParseInt(f.priceMax)));
  }

  lemma RangeStepsMeaning(f: Filters, v: Product)
    ensures MatchesAll(RangeSteps(f), v) <==> InRanges(f, v)
  {
    PriceStepsMeaning(f, v);
    var c1 := Then(f.yearMax != "", YearTo(ParseInt(f.yearMax)), PriceSteps(f));
    assert MatchesAll(c1, v) <==> (f.yearMax != "" ==> AtMost(v.tahun, ParseInt(f.yearMax))) && MatchesAll(PriceSteps(f), v);
  }

  lemma InputStepsMeaning(f: Filters, v: Product)
    ensures MatchesAll(InputSteps(f), v) <==> MatchesInputs(f, v) && InRanges(f, v)
  {
    var c5 := RangeSteps(f);
    var c4 := Then(f.location != "", LocationIs(f.location), c5);
    var c3 := Then(f.transmission != "", TransmissionIs(f.transmission), c4);
    var c2 := Then(f.typeName != "", TypeIs(f.typeName), c3);
    var c1 := Then(f.brand != "", BrandIs(f.brand), c2);
    RangeStepsMeaning(f, v);
    assert MatchesAll(c4, v) <==> (f.location != "" ==> v.lokasi == Some(f.location)) && MatchesAll(c5, v);
    assert MatchesAll(c3, v) <==> (f.transmission != "" ==> v.transmisi == Some(f.transmission)) && MatchesAll(c4, v);
    assert MatchesAll(c2, v) <==> (f.typeName != "" ==> v.typeName == Some(f.typeName)) && MatchesAll(c3, v);
    assert MatchesAll(c1, v) <==> (f.brand != "" ==> v.brand == Some(f.brand)) && MatchesAll(c2, v);
  }

  /** The steps the chain takes hold of a record exactly when the reference reading selects it. */
  lemma CriteriaMeaning(tab: string, brandTab: string, f: Filters, v: Product)
    ensures MatchesAll(ActiveCriteria(tab, brandTab, f), v) <==> Selected(tab, brandTab, f, v)
  {
    InputStepsMeaning(f, v);
    var c1 := Then(brandTab != "", OnBrandTab(brandTab), InputSteps(f));
    assert MatchesAll(c1, v) <==> (brandTab != "" ==> v.brand == Some(brandTab)) && MatchesAll(InputSteps(f), v);
  }

  /** The chain keeps, in their order, exactly the records the reference reading selects. */
  lemma FilterVehiclesSelects(all: seq<Product>, tab: string, brandTab: string, f: Filters)
    ensures FilterVehicles(all, tab, brandTab, f) == Listed(all, tab, brandTab, f)
  {
    var cs := ActiveCriteria(tab, brandTab, f);
    ApplyAllIsFilter(all, cs);
    forall v ensures MatchesAll(cs, v) == Selected(tab, brandTab, f, v) {
      CriteriaMeaning(tab, brandTab, f, v);
    }
    FilterSame(all, v => MatchesAll(cs, v), v => Selected(tab, brandTab, f, v));
  }

  /** The listed records: a sub-list of all records, in order, each passing every set check. */
  lemma FilteredIsSubseq(all: seq<Product>, tab: string, brandTab: string, f: Filters)
    ensures IsSubseq(FilterVehicles(all, tab, brandTab, f), all)
    ensures forall v :: v in FilterVehicles(all, tab, brandTab, f) <==> v in all && Selected(tab, brandTab, f, v)
  {
    FilterVehiclesSelects(all, tab, brandTab, f);
  }

  /** With no brand tab and no input set, the list is exactly the tab's records; on any other
    * tab it is every record. */
  lemma NoFiltersIsTab(all: seq<Product>, tab: string)
    ensures Listed(all, tab, "", NoFilters) == TabVehicles(tab, all)
    ensures !IsVehicleTab(tab) ==> Listed(all, tab, "", NoFilters) == all
  {
    FilterSame(all, v => Selected(tab, "", NoFilters, v), v => TabMatches(tab, v));
    if !IsVehicleTab(tab) {
      FilterAll(all, v => TabMatches(tab, v));
    }
  }

  // ---------------------------------------------------------------------------------------
  // Brand options

  const CarBrands: seq<string> := ["BMW", "Daihatsu", "Honda", "Mazda", "Mitsubishi", "Nissan", "Suzuki", "Toyota"]
  const MotorcycleBrands: seq<string> := ["KTM", "Kawasaki", "Vespa", "Yamaha"]

  predicate IsCarTab(tab: string)
  {
    tab == "mobil-baru" || tab == "mobil-bekas"
  }

  predicate IsMotorTab(tab: string)
  {
    tab == "motor-baru" || tab == "motor-bekas"
  }

  /** `Array.from(new Set(xs))`: each value once, where it first occurs. */
  function Distinct<T(==,!new)>(xs: seq<T>): (r: seq<T>)
    ensures forall x :: x in r <==> x in xs
    ensures NoDuplicates(r)
  {
    if xs == [] then []
    else
      var d := Distinct(xs[..|xs| - 1]);
      var x := xs[|xs| - 1];
      assert xs == xs[..|xs| - 1] + [x];
      if x in d then d else d + [x]
  }

  /** The brands of the records, in order. */
  function BrandsOf(vs: seq<Product>): (r: seq<Option<string>>)
    ensures |r| == |vs| && forall i | 0 <= i < |vs| :: r[i] == vs[i].brand
  {
    seq(|vs|, i requires 0 <= i < |vs| => vs[i].brand)
  }

  /** `.filter(brand => typeof brand === 'string' && allow.includes(brand))`. */
  function Allowed(xs: seq<Option<string>>, allow: seq<string>): (r: seq<string>)
    ensures forall b :: b in r <==> Some(b) in xs && b in allow
  {
    if xs == [] then []
    else
      assert xs == [xs[0]] + xs[1..];
      var rest := Allowed(xs[1..], allow);
      if xs[0].Some? && xs[0].value in allow then [xs[0].value] + rest else rest
  }

  lemma {:induction false} AllowedDistinct(xs: seq<Option<string>>, allow: seq<string>)
    requires NoDuplicates(xs)
    ensures NoDuplicates(Allowed(xs, allow))
  {
    if xs != [] {
      assert xs == [xs[0]] + xs[1..];
      assert NoDuplicates(xs[1..]) by {
        assert forall i | 0 <= i < |xs| - 1 :: xs[1..][i] == xs[i + 1];
      }
      AllowedDistinct(xs[1..], allow);
      assert xs[0] !in xs[1..] by {
        assert forall i | 0 <= i < |xs| - 1 :: xs[1..][i] == xs[i + 1];
      }
    }
  }

  /** The brand options a tab's records yield against an allow-list. */
  function OptionsFrom(tabVehicles: seq<Product>, allow: seq<string>): seq<string>
  {
    Sort(Allowed(Distinct(BrandsOf(tabVehicles)), allow))
  }

  /** The brand-option effect: the sorted allow-listed brands of the tab's records, none off
    * the vehicle tabs. */
  function BrandOptions(tab: string, all: seq<Product>): seq<string>
  {
    if IsCarTab(tab) then OptionsFrom(TabVehicles(tab, all), CarBrands)
    else if IsMotorTab(tab) then OptionsFrom(TabVehicles(tab, all), MotorcycleBrands)
    else []
  }

  /** The allow-list of a tab. */
  function AllowList(tab: string): seq<string>
  {
    if IsCarTab(tab) then CarBrands else if IsMotorTab(tab) then MotorcycleBrands else []
  }

  /** Options from a list of records: strictly ascending, and exactly the allow-listed brands
    * some record has. */
  lemma OptionsFromSpec(vs: seq<Product>, allow: seq<string>)
    ensures StrictlySorted(OptionsFrom(vs, allow))
    ensures forall b :: b in OptionsFrom(vs, allow) <==> b in allow && exists v | v in vs :: v.brand == Some(b)
  {
    var d := Distinct(BrandsOf(vs));
    var a := Allowed(d, allow);
    var r := Sort(a);
    AllowedDistinct(d, allow);
    SameMultisetNoDuplicates(a, r);
    SortedDistinctIsStrict(r);
    forall b ensures b in r <==> b in a {
      assert b in r <==> b in multiset(r);
    }
    forall b ensures Some(b) in BrandsOf(vs) <==> exists v | v in vs :: v.brand == Some(b) {
      if Some(b) in BrandsOf(vs) {
        var i :| 0 <= i < |vs| && BrandsOf(vs)[i] == Some(b);
        assert vs[i] in vs;
      }
      if exists v | v in vs :: v.brand == Some(b) {
        var v :| v in vs && v.brand == Some(b);
        var i :| 0 <= i < |vs| && vs[i] == v;
        assert BrandsOf(vs)[i] == Some(b);
      }
    }
  }

  /** The brand options are strictly ascending (so sorted and free of repeats), and a brand is
    * offered exactly when it is on the tab's allow-list and some record of the tab has it;
    * other tabs offer none. */
  lemma BrandOptionsSpec(tab: string, all: seq<Product>)
    ensures StrictlySorted(BrandOptions(tab, all))
    ensures forall b :: b in BrandOptions(tab, all) <==>
              b in AllowList(tab) && exists v | v in all :: TabMatches(tab, v) && v.brand == Some(b)
    ensures !IsCarTab(tab) && !IsMotorTab(tab) ==> BrandOptions(tab, all) == []
  {
    if IsCarTab(tab) || IsMotorTab(tab) {
      var tabVehicles := TabVehicles(tab, all);
      OptionsFromSpec(tabVehicles, AllowList(tab));
    }
  }

  /** A car make is never offered on a motorcycle tab (Honda builds both). */
  lemma HondaNotOnMotorTabs(tab: string, all: seq<Product>)
    requires IsMotorTab(tab)
    ensures "Honda" !in BrandOptions(tab, all)
  {
    BrandOptionsSpec(tab, all);
  }

  // ---------------------------------------------------------------------------------------
  // Pages

  function Min(a: int, b: int): int
  {
    if a <= b then a else b
  }

  function Max(a: int, b: int): int
  {
    if a >= b then a else b
  }

  /** `Math.ceil(n / k)`: the fewest pages of `k` that hold `n` records. */
  function TotalPages(n: nat, k: nat): (t: nat)
    requires k > 0
    ensures n <= t * k
    ensures t == 0 || (t - 1) * k < n
  {
    if n == 0 then 0 else 1 + TotalPages(if n <= k then 0 else n - k, k)
  }

  /** `filtered.slice((page - 1) * k, (page - 1) * k + k)`; `slice` clips to the length. */
  function PageItems<T>(vs: seq<T>, page: nat, k: nat): (r: seq<T>)
    requires page >= 1
  {
    Window(vs, (page - 1) * k, k)
  }

  /** `vs.slice(start, start + k)`. */
  function Window<T>(vs: seq<T>, start: nat, k: nat): seq<T>
  {
    vs[Min(start, |vs|)..Min(start + k, |vs|)]
  }

  /** A page holds at most `k` records, the ones at its positions. */
  lemma PageShape<T>(vs: seq<T>, page: nat, k: nat)
    requires page >= 1
    ensures |PageItems(vs, page, k)| <= k
    ensures forall i | 0 <= i < |PageItems(vs, page, k)| :: PageItems(vs, page, k)[i] == vs[(page - 1) * k + i]
  {
    WindowShape(vs, (page - 1) * k, k);
  }

  /** A page after the last one is empty. */
  lemma PageBeyondLastEmpty<T>(vs: seq<T>, page: nat, k: nat)
    requires k > 0 && page > TotalPages(|vs|, k)
    ensures PageItems(vs, page, k) == []
  {
    BeyondLastPage(|vs|, k, page);
    WindowShape(vs, (page - 1) * k, k);
  }

  /** A page after the last one starts at or beyond the end of the list. */
  lemma {:induction false} BeyondLastPage(n: nat, k: nat, page: nat)
    requires k > 0 && page > TotalPages(n, k)
    ensures (page - 1) * k >= n
  {
    if n > 0 {
      var rest := if n <= k then 0 else n - k;
      BeyondLastPage(rest, k, page - 1);
      assert (page - 1) * k == (page - 2) * k + k;
    }
  }

  /** A window holds at most `k` items, those from `start` on, and none past the end. */
  lemma WindowShape<T>(vs: seq<T>, start: nat, k: nat)
    ensures |Window(vs, start, k)| <= k
    ensures forall i | 0 <= i < |Window(vs, start, k)| :: Window(vs, start, k)[i] == vs[start + i]
    ensures start >= |vs| ==> Window(vs, start, k) == []
  {
  }

  /** Pages `1..m`, one after the other. */
  function PagesUpTo<T>(vs: seq<T>, k: nat, m: nat): seq<T>
  {
    if m == 0 then [] else PagesUpTo(vs, k, m - 1) + PageItems(vs, m, k)
  }

  lemma {:induction false} PagesPrefix<T>(vs: seq<T>, k: nat, m: nat)
    requires k > 0
    ensures PagesUpTo(vs, k, m) == vs[..Min(m * k, |vs|)]
  {
    if m > 0 {
      PagesPrefix(vs, k, m - 1);
      assert (m - 1) * k + k == m * k;
      assert (m - 1) * k <= m * k;
    }
  }

  /** Pages `1..totalPages` together list every filtered record once, in order. */
  lemma PagesCover<T>(vs: seq<T>, k: nat)
    requires k > 0
    ensures PagesUpTo(vs, k, TotalPages(|vs|, k)) == vs
  {
    PagesPrefix(vs, k, TotalPages(|vs|, k));
  }

  /** The `Sebelumnya` button: `Math.max(1, p - 1)`. */
  function PrevPage(p: int): int
  {
    Max(1, p - 1)
  }

  /** The `Berikutnya` button: `Math.min(totalPages, p + 1)`. */
  function NextPage(p: int, totalPages: int): int
  {
    Min(totalPages, p + 1)
  }

  /** Both buttons keep a page in `1..totalPages` there. */
  lemma PagerStaysInRange(p: int, totalPages: int)
    requires 1 <= p <= totalPages
    ensures 1 <= PrevPage(p) <= totalPages && PrevPage(p) <= p
    ensures 1 <= NextPage(p, totalPages) <= totalPages && NextPage(p, totalPages) >= p
    ensures p > 1 ==> PrevPage(p) == p - 1
    ensures p < totalPages ==> NextPage(p, totalPages) == p + 1
  {
  }

  // ---------------------------------------------------------------------------------------
  // The page state

  /** The inputs `handleFilterChange` writes, by their `name`. */
  datatype FilterName = SearchBox | BrandSelect | PriceMin | PriceMax | TypeSelect | YearMin | YearMax | TransmissionSelect | LocationSelect

  function SetFilter(f: Filters, name: FilterName, value: string): Filters
  {
    match name
    case SearchBox => f.(search := value)
    case BrandSelect => f.(brand := value)
    case PriceMin => f.(priceMin := value)
    case PriceMax => f.(priceMax := value)
    case TypeSelect => f.(typeName := value)
    case YearMin => f.(yearMin := value)
    case YearMax => f.(yearMax := value)
    case TransmissionSelect => f.(transmission := value)
    case LocationSelect => f.(location := value)
  }

  const ItemsPerPage: nat := 10

  class CatalogView {
    var allVehicles: seq<Product>
    var mainTab: string
    var brandTab: string
    var filters: Filters
    /** The records the filtering effect last produced. */
    var filtered: seq<Product>
    var page: nat
    /** `uniqueValues.brands`. */
    var brandOptions: seq<string>

    /** The effects have run for the current state: the list is the chain's result, the page
      * lies in range, and the brand options are the tab's once the records are loaded. */
    ghost predicate Valid()
      reads this
    {
      && filtered == Listed(allVehicles, mainTab, brandTab, filters)
      && 1 <= page <= Max(1, TotalPages(|filtered|, ItemsPerPage))
      && (allVehicles != [] ==> brandOptions == BrandOptions(mainTab, allVehicles))
      && (allVehicles == [] ==> brandOptions == [])
    }

    /** The first render: the tab comes from the `tab` query parameter, `mobil-baru` when
      * it is absent or empty. */
    constructor(tabParam: Option<string>)
      ensures Valid()
      ensures mainTab == (if tabParam.None? || tabParam.value == "" then "mobil-baru" else tabParam.value)
      ensures allVehicles == [] && filtered == [] && brandTab == "" && filters == NoFilters
      ensures page == 1 && brandOptions == []
    {
      allVehicles := [];
      mainTab := if tabParam.None? || tabParam.value == "" then "mobil-baru" else tabParam.value;
      brandTab := "";
      filters := NoFilters;
      filtered := [];
      page := 1;
      brandOptions := [];
      new;
    }

    /** The page shown. */
    function Visible(): seq<Product>
      reads this
      requires page >= 1
    {
      PageItems(filtered, page, ItemsPerPage)
    }

    /** The brand-option effect: it does nothing while no record is loaded. */
    method RefreshBrands()
      modifies this
      ensures allVehicles != [] ==> brandOptions == BrandOptions(mainTab, allVehicles)
      ensures allVehicles == [] ==> brandOptions == old(brandOptions)
      ensures allVehicles == old(allVehicles) && mainTab == old(mainTab) && brandTab == old(brandTab)
      ensures filters == old(filters) && filtered == old(filtered) && page == old(page)
    {
      if allVehicles == [] {
        return;
      }
      brandOptions := BrandOptions(mainTab, allVehicles);
    }

    /** The filtering effect: the list is recomputed and the page goes back to 1. */
    method Refilter()
      modifies this
      ensures filtered == Listed(allVehicles, mainTab, brandTab, filters) && page == 1
      ensures allVehicles == old(allVehicles) && mainTab == old(mainTab) && brandTab == old(brandTab)
      ensures filters == old(filters) && brandOptions == old(brandOptions)
    {
      filtered := FilterVehicles(allVehicles, mainTab, brandTab, filters);
      page := 1;
      FilterVehiclesSelects(allVehicles, mainTab, brandTab, filters);
    }

    /** The fetch: the four feeds, flattened and normalised, become the records; both effects
      * then run. */
    method LoadFeeds(feeds: seq<seq<FeedItem>>)
      requires Valid()
      modifies this
      ensures Valid()
      ensures allVehicles == NormalizeAll(Concat(feeds))
      ensures brandOptions == BrandOptions(mainTab, allVehicles)
      ensures filtered == Listed(allVehicles, mainTab, brandTab, filters) && page == 1
      ensures mainTab == old(mainTab) && brandTab == old(brandTab) && filters == old(filters)
    {
      allVehicles := NormalizeAll(Concat(feeds));
      // The fetch's own list of every brand; the effect replaces it whenever a record was
      // loaded, so it is seen only when there is none, and then it is empty.
      brandOptions := [];
      RefreshBrands();
      Refilter();
    }

    /** `handleMainTabClick`: a new tab with no brand tab and every input cleared. */
    method MainTabClick(tab: string)
      requires Valid()
      modifies this
      ensures Valid()
      ensures mainTab == tab && brandTab == "" && filters == NoFilters && page == 1
      ensures allVehicles == old(allVehicles)
      ensures filtered == TabVehicles(tab, allVehicles)
    {
      var changed := tab != mainTab;
      mainTab := tab;
      brandTab := "";
      filters := NoFilters;
      if changed {
        RefreshBrands();
      }
      Refilter();
      NoFiltersIsTab(allVehicles, tab);
    }

    /** `handleBrandTabClick`: only the brand tab changes; picking the current one again
      * changes nothing, so the list is not recomputed. */
    method BrandTabClick(brand: string)
      requires Valid()
      modifies this
      ensures Valid()
      ensures brandTab == brand && mainTab == old(mainTab) && filters == old(filters)
      ensures allVehicles == old(allVehicles) && brandOptions == old(brandOptions)
      ensures brand == old(brandTab) ==> page == old(page) && filtered == old(filtered)
      ensures brand != old(brandTab) ==> page == 1
    {
      if brand != brandTab {
        brandTab := brand;
        Refilter();
      }
    }

    /** `handleFilterChange`: one input takes the new value. */
    method FilterChange(name: FilterName, value: string)
      requires Valid()
      modifies this
      ensures Valid()
      ensures filters == SetFilter(old(filters), name, value) && page == 1
      ensures mainTab == old(mainTab) && brandTab == old(brandTab) && allVehicles == old(allVehicles)
    {
      filters := SetFilter(filters, name, value);
      Refilter();
    }

    /** `resetFilters`: inputs and brand tab cleared, the main tab kept. */
    method ResetFilters()
      requires Valid()
      modifies this
      ensures Valid()
      ensures filters == NoFilters && brandTab == "" && page == 1
      ensures mainTab == old(mainTab) && allVehicles == old(allVehicles)
      ensures filtered == TabVehicles(mainTab, allVehicles)
    {
      filters := NoFilters;
      brandTab := "";
      Refilter();
      NoFiltersIsTab(allVehicles, mainTab);
    }

    /** The `Sebelumnya` button, disabled on page 1. */
    method PreviousPage()
      requires Valid()
      modifies this
      ensures Valid()
      ensures page == (if old(page) == 1 then 1 else PrevPage(old(page)))
      ensures filtered == old(filtered) && filters == old(filters) && mainTab == old(mainTab)
      ensures brandTab == old(brandTab) && allVehicles == old(allVehicles)
    {
      if page != 1 {
        page := PrevPage(page);
      }
    }

    /** The `Berikutnya` button, disabled on the last page; the pager is shown only when the
      * list is not empty and the tab is not the loan tab. */
    method NextPageClick()
      requires Valid() && filtered != [] && mainTab != "multiguna"
      modifies this
      ensures Valid()
      ensures page == (if old(page) >= TotalPages(|filtered|, ItemsPerPage) then old(page)
                       else NextPage(old(page), TotalPages(|filtered|, ItemsPerPage)))
      ensures filtered == old(filtered) && filters == old(filters) && mainTab == old(mainTab)
      ensures brandTab == old(brandTab) && allVehicles == old(allVehicles)
    {
      var total := TotalPages(|filtered|, ItemsPerPage);
      if page < total {
        page := NextPage(page, total);
      }
    }
  }
}
