/** The catalog's product model: the normaliser `formatProductFromAPI` that
    turns a back-end record into the product the page shows, the built-in
    fallback catalog `TEST_PRODUCTS`, the category list, and the
    search / category / sort pipeline `filteredProducts`. Prices and
    weights are whole numbers; ratings are kept in tenths (4.5 is 45). */
module Catalog {
  import opened Options
  import opened Text
  import opened Js
  import opened Seqs

  /** An entry of `SIZE_VARIANTS`; the multiplier is kept in tenths. */
  datatype SizeVariant = SizeVariant(id: string, size: string, multiplier: nat, description: string)

  const SizeVariants: seq<SizeVariant> := [
    SizeVariant("small", "Маленький", 10, "Классический размер"),
    SizeVariant("medium", "Средний", 15, "Популярный выбор"),
    SizeVariant("large", "Большой", 20, "Для больших компаний")
  ]

  /** A size a product is sold in, with its own price and weight. */
  datatype Variant = Variant(id: string, size: string, description: string, price: nat, weight: nat)

  /** A product as the catalog page holds it after normalisation. */
  datatype Product = Product(
    id: Value,
    name: string,
    description: string,
    category: string,
    calories: nat,
    weight: nat,
    cookTime: nat,
    price: nat,
    isAvailable: bool,
    rating: nat,
    variants: seq<Variant>,
    tags: seq<string>)

  /** The fields of a back-end record that the normaliser may look at. A
      string field that is missing, null or empty is `""`, a missing or
      zero price is 0. Images and the record's own variants are not part of
      this model: the normaliser builds its own. */
  datatype RawProduct = RawProduct(
    id: Value,
    productName: string,
    name: string,
    description: string,
    category: string,
    calories: nat,
    weight: nat,
    price: nat,
    isAvailable: bool,
    rating: nat,
    cookTime: nat)

  /** `Math.round(b * m / 10)` for a whole `b` and a multiplier `m` in
      tenths, rounding halves up as `Math.round` does. */
  function RoundMul(b: nat, m: nat): (r: nat)
    ensures 20 * r <= 2 * b * m + 10 < 20 * r + 20
  {
    (2 * b * m + 10) / 20
  }

  /** The three size multipliers round as 1.0, 1.5 and 2.0 do. */
  lemma RoundMulSizes(b: nat)
    ensures RoundMul(b, 10) == b
    ensures RoundMul(b, 15) == (3 * b + 1) / 2
    ensures RoundMul(b, 20) == 2 * b
  {
  }

  const NameMap: map<string, string> := map[
    "Cheburek with meat" := "Чебурек с мясом",
    "Cheburek with cheese" := "Чебурек с сыром",
    "Cheburek with potatoes" := "Чебурек с картошкой",
    "Samsa with chicken" := "Самса с курицей",
    "Pizza Margherita" := "Пицца Маргарита",
    "Greek salad" := "Греческий салат",
    "Coffee Latte" := "Кофе Латте",
    "Black tea" := "Черный чай",
    "Orange juice" := "Апельсиновый сок"
  ]

  const DescriptionMap: map<string, string> := map[
    "Чебурек с мясом" := "Сочный чебурек с начинкой из отборной говядины, лука и специй. Хрустящее тесто и ароматная начинка.",
    "Чебурек с сыром" := "Нежный чебурек с сырной начинкой. Идеальное сочетание хрустящего теста и тягучего сыра.",
    "Чебурек с картошкой" := "Вегетарианский чебурек с картофельной начинкой, зеленью и специями. Питательно и вкусно.",
    "Самса с курицей" := "Ароматная самса с куриной начинкой и специями.",
    "Пицца Маргарита" := "Классическая итальянская пицца с томатным соусом, моцареллой и базиликом.",
    "Греческий салат" := "Свежий салат с огурцами, помидорами, оливками, сыром фета и оливковым маслом.",
    "Кофе Латте" := "Нежный кофе с молочной пенкой.",
    "Черный чай" := "Ароматный черный чай.",
    "Апельсиновый сок" := "Свежевыжатый апельсиновый сок."
  ]

  /** `getRussianName`: the table's translation, or the name unchanged. */
  function RussianName(english: string): (r: string)
    ensures english in NameMap ==> r == NameMap[english]
    ensures english !in NameMap ==> r == english
  {
    if english in NameMap then NameMap[english] else english
  }

  /** No translation is itself a key of the table, so translating twice is
      translating once. */
  lemma RussianNameIdempotent(english: string)
    ensures RussianName(RussianName(english)) == RussianName(english)
  {
    if english in NameMap {
      assert NameMap[english] !in NameMap;
    }
  }

  /** `getDescription`: the table's text, or a sentence built from the
      lower-cased name and the category. */
  function Description(name: string, category: string): (r: string)
    ensures name in DescriptionMap ==> r == DescriptionMap[name]
    ensures name !in DescriptionMap ==> r == "Вкусный " + Lower(name) + " из категории " + category + "."
  {
    if name in DescriptionMap then DescriptionMap[name]
    else "Вкусный " + Lower(name) + " из категории " + category + "."
  }

  /** The Russian display name of an English category, any other value
      unchanged. */
  function RussianCategory(english: string): (r: string)
    ensures english == "Bakery" ==> r == "Выпечка"
    ensures english == "Pizza" ==> r == "Пицца"
    ensures english == "Salads" ==> r == "Салаты"
    ensures english == "Drinks" ==> r == "Напитки"
    ensures english !in {"Bakery", "Pizza", "Salads", "Drinks"} ==> r == english
    ensures r == "Выпечка" <==> english == "Bakery" || english == "Выпечка"
  {
    if english == "Bakery" then "Выпечка"
    else if english == "Pizza" then "Пицца"
    else if english == "Salads" then "Салаты"
    else if english == "Drinks" then "Напитки"
    else english
  }

  /** `getCaloriesAndWeight`, keyed by the English category. */
  function CaloriesAndWeight(category: string): (cw: (nat, nat))
    ensures category == "Bakery" ==> cw == (400, 150)
    ensures category == "Pizza" ==> cw == (800, 350)
    ensures category == "Salads" ==> cw == (250, 200)
    ensures category == "Drinks" ==> cw == (100, 300)
    ensures category !in {"Bakery", "Pizza", "Salads", "Drinks"} ==> cw == (300, 150)
  {
    if category == "Bakery" then (400, 150)
    else if category == "Pizza" then (800, 350)
    else if category == "Salads" then (250, 200)
    else if category == "Drinks" then (100, 300)
    else (300, 150)
  }

  /** The `Product N` placeholder name, N counting from 1. */
  function PlaceholderName(index: nat): (r: string)
    ensures IsPrefix("Product ", r)
    ensures var n := r[|"Product "|..]; AllDigits(n) && DigitsValue(n) == index + 1
  {
    var r := "Product " + NatToString(index + 1);
    assert r[|"Product "|..] == NatToString(index + 1);
    NatToStringValue(index + 1);
    r
  }

  /** `productName || name || \`Product ${index + 1}\``. */
  function EnglishName(raw: RawProduct, index: nat): (r: string)
    ensures raw.productName != "" ==> r == raw.productName
    ensures raw.productName == "" && raw.name != "" ==> r == raw.name
    ensures raw.productName == "" && raw.name == "" ==> r == PlaceholderName(index)
    ensures r != ""
  {
    if raw.productName != "" then raw.productName
    else if raw.name != "" then raw.name
    else PlaceholderName(index)
  }

  function EnglishCategory(raw: RawProduct): (c: string)
    ensures c != ""
  {
    if raw.category != "" then raw.category else "Bakery"
  }

  function BasePrice(raw: RawProduct): (p: nat)
    ensures p > 0
  {
    if raw.price != 0 then raw.price else 100
  }

  /** The variants of a product: the three sizes for a bakery product, one
      standard portion otherwise. */
  function VariantsFor(englishCategory: string, basePrice: nat, weight: nat): (vs: seq<Variant>)
    ensures englishCategory == "Bakery" ==> |vs| == 3
    ensures englishCategory != "Bakery" ==> vs == [Variant("standard", "Стандартный", "Стандартная порция", basePrice, weight)]
  {
    if englishCategory == "Bakery" then
      seq(3, i requires 0 <= i < 3 =>
        var v := SizeVariants[i];
        Variant(v.id, v.size, v.description, RoundMul(basePrice, v.multiplier), RoundMul(weight, v.multiplier)))
    else [Variant("standard", "Стандартный", "Стандартная порция", basePrice, weight)]
  }

  /** `formatProductFromAPI(product, index)`. */
  function Normalize(raw: RawProduct, index: nat): (p: Product)
    ensures p.isAvailable && p.cookTime == 15 && p.rating == 45
    ensures p.price == BasePrice(raw) && p.price > 0
    ensures p.variants == VariantsFor(EnglishCategory(raw), p.price, p.weight)
    ensures Truthy(p.id)
    ensures p.name == RussianName(EnglishName(raw, index))
    ensures p.category == RussianCategory(EnglishCategory(raw))
    ensures (p.calories, p.weight) == CaloriesAndWeight(EnglishCategory(raw))
    ensures p.description == Description(p.name, p.category)
    ensures p.tags == [Lower(p.category)]
  {
    var englishName := EnglishName(raw, index);
    var russianName := RussianName(englishName);
    var englishCategory := EnglishCategory(raw);
    var russianCategory := RussianCategory(englishCategory);
    var (calories, weight) := CaloriesAndWeight(englishCategory);
    var basePrice := BasePrice(raw);
    Product(
      if Truthy(raw.id) then raw.id else Num(index + 1),
      russianName,
      Description(russianName, russianCategory),
      russianCategory,
      calories,
      weight,
      15,
      basePrice,
      true,
      45,
      VariantsFor(englishCategory, basePrice, weight),
      [Lower(russianCategory)])
  }

  /** A bakery product, and a product without a category, comes in the
      three sizes in order, priced and weighed by 1.0, 1.5 and 2.0. */
  lemma BakeryVariants(raw: RawProduct, index: nat)
    requires raw.category == "Bakery" || raw.category == ""
    ensures var p := Normalize(raw, index);
            var b := BasePrice(raw);
            p.category == "Выпечка" && p.calories == 400 && p.weight == 150 &&
            |p.variants| == 3 &&
            p.variants[0] == Variant("small", "Маленький", "Классический размер", b, 150) &&
            p.variants[1] == Variant("medium", "Средний", "Популярный выбор", (3 * b + 1) / 2, 225) &&
            p.variants[2] == Variant("large", "Большой", "Для больших компаний", 2 * b, 300)
  {
    RoundMulSizes(BasePrice(raw));
    RoundMulSizes(150);
  }

  /** Any other category gets one standard portion at the base price. */
  lemma OtherCategoryVariant(raw: RawProduct, index: nat)
    requires raw.category != "Bakery" && raw.category != ""
    ensures var p := Normalize(raw, index);
            p.variants == [Variant("standard", "Стандартный", "Стандартная порция", BasePrice(raw), p.weight)]
  {
  }

  /** The three other table categories: each is translated, gets its own
      calories and weight, and one standard portion of that weight at the
      base price. */
  lemma TableCategories(raw: RawProduct, index: nat)
    ensures var p := Normalize(raw, index);
            var b := BasePrice(raw);
            (raw.category == "Pizza" ==>
               p.category == "Пицца" && p.calories == 800 && p.weight == 350 &&
               p.variants == [Variant("standard", "Стандартный", "Стандартная порция", b, 350)]) &&
            (raw.category == "Salads" ==>
               p.category == "Салаты" && p.calories == 250 && p.weight == 200 &&
               p.variants == [Variant("standard", "Стандартный", "Стандартная порция", b, 200)]) &&
            (raw.category == "Drinks" ==>
               p.category == "Напитки" && p.calories == 100 && p.weight == 300 &&
               p.variants == [Variant("standard", "Стандартный", "Стандартная порция", b, 300)])
  {
  }

  /** The record's own calories, weight, availability, rating, cooking time
      and description never reach the product: two records that agree on
      id, names, category and price normalise alike. */
  lemma NormalizeIgnores(r1: RawProduct, r2: RawProduct, index: nat)
    requires r1.id == r2.id && r1.productName == r2.productName && r1.name == r2.name
    requires r1.category == r2.category && r1.price == r2.price
    ensures Normalize(r1, index) == Normalize(r2, index)
  {
  }

  /** Defaults: a falsy id becomes `index + 1` and a falsy price 100. */
  lemma NormalizeDefaults(raw: RawProduct, index: nat)
    ensures !Truthy(raw.id) ==> Normalize(raw, index).id == Num(index + 1)
    ensures Truthy(raw.id) ==> Normalize(raw, index).id == raw.id
    ensures raw.price == 0 ==> Normalize(raw, index).price == 100
    ensures raw.price != 0 ==> Normalize(raw, index).price == raw.price
  {
  }

  /** A category outside the table passes through untranslated and gets
      300 kcal, 150 g and one standard portion. */
  lemma UntranslatedCategory(raw: RawProduct, index: nat)
    requires raw.category != "" && raw.category !in {"Bakery", "Pizza", "Salads", "Drinks"}
    ensures var p := Normalize(raw, index);
            p.category == raw.category && p.calories == 300 && p.weight == 150 && p.isAvailable &&
            p.variants == [Variant("standard", "Стандартный", "Стандартная порция", BasePrice(raw), 150)]
  {
  }

  /** `TEST_PRODUCTS`, the catalog shown when the back end is unreachable. */
  const TestProducts: seq<RawProduct> := [
    RawProduct(Num(1), "", "Чебурек с мясом",
      "Сочный чебурек с начинкой из отборной говядины, лука и специй. Хрустящее тесто и ароматная начинка.",
      "Мясные", 450, 150, 120, true, 48, 15),
    RawProduct(Num(2), "", "Чебурек с сыром",
      "Нежный чебурек с сырной начинкой. Идеальное сочетание хрустящего теста и тягучего сыра.",
      "Сырные", 380, 140, 110, true, 46, 12),
    RawProduct(Num(3), "", "Чебурек с картошкой",
      "Вегетарианский чебурек с картофельной начинкой, зеленью и специями. Питательно и вкусно.",
      "Вегетарианские", 320, 130, 100, true, 44, 10),
    RawProduct(Num(4), "", "Чебурек с грибами",
      "Ароматный чебурек с лесными грибами, луком и сметаной. Настоящее лесное наслаждение.",
      "Грибные", 290, 135, 115, false, 47, 18)
  ]

  /** `TEST_PRODUCTS.map(formatProductFromAPI)`. */
  function NormalizeAll(raws: seq<RawProduct>): (ps: seq<Product>)
    ensures |ps| == |raws|
    ensures forall i :: 0 <= i < |raws| ==> ps[i] == Normalize(raws[i], i)
  {
    seq(|raws|, i requires 0 <= i < |raws| => Normalize(raws[i], i))
  }

  /** The fallback catalog as the page shows it: every product is available,
      weighs 150 g at 300 kcal and comes in one standard portion at its own
      price, although product 4 is marked unavailable and all four have
      their own sizes in the table. */
  lemma FallbackCatalog()
    ensures var ps := NormalizeAll(TestProducts);
            |ps| == 4 &&
            forall i :: 0 <= i < 4 ==>
              ps[i].isAvailable && ps[i].calories == 300 && ps[i].weight == 150 &&
              ps[i].id == Num(i + 1) &&
              ps[i].variants == [Variant("standard", "Стандартный", "Стандартная порция", TestProducts[i].price, 150)]
  {
    var t := TestProducts;
    assert forall i :: 0 <= i < |t| ==>
              t[i].price != 0 && t[i].id == Num(i + 1) &&
              t[i].category != "" && t[i].category !in {"Bakery", "Pizza", "Salads", "Drinks"};
    UntranslatedCatalog(t);
  }

  /** A catalog whose categories all lie outside the table normalizes to
      products that are all available, at 300 kcal and 150 g, each in one
      standard portion at its base price. */
  lemma UntranslatedCatalog(raws: seq<RawProduct>)
    requires forall i :: 0 <= i < |raws| ==>
               raws[i].category != "" && raws[i].category !in {"Bakery", "Pizza", "Salads", "Drinks"}
    ensures var ps := NormalizeAll(raws);
            |ps| == |raws| &&
            forall i :: 0 <= i < |raws| ==>
              ps[i].isAvailable && ps[i].calories == 300 && ps[i].weight == 150 &&
              ps[i].id == (if Truthy(raws[i].id) then raws[i].id else Num(i + 1)) &&
              ps[i].variants == [Variant("standard", "Стандартный", "Стандартная порция", BasePrice(raws[i]), 150)]
  {
    forall i | 0 <= i < |raws|
      ensures var p := Normalize(raws[i], i);
              p.isAvailable && p.calories == 300 && p.weight == 150 &&
              p.id == (if Truthy(raws[i].id) then raws[i].id else Num(i + 1)) &&
              p.variants == [Variant("standard", "Стандартный", "Стандартная порция", BasePrice(raws[i]), 150)]
    {
      UntranslatedCategory(raws[i], i);
      NormalizeDefaults(raws[i], i);
    }
  }

  // ----- categories -----

  predicate NoDuplicates(xs: seq<string>) {
    forall i, j :: 0 <= i < j < |xs| ==> xs[i] != xs[j]
  }

  /** `[...new Set(xs.filter(Boolean))]`: the distinct non-empty strings of
      `xs` in the order they first appear. */
  function Distinct(xs: seq<string>): (r: seq<string>)
    ensures NoDuplicates(r)
    ensures forall c :: c in r <==> c in xs && c != ""
  {
    if xs == [] then []
    else
      var d := Distinct(xs[..|xs| - 1]);
      var c := xs[|xs| - 1];
      assert forall x :: x in xs <==> x in xs[..|xs| - 1] || x == c;
      if c == "" || c in d then d else d + [c]
  }

  /** The index of the first occurrence of `c` in `xs`. */
  function FirstIndex(xs: seq<string>, c: string): (i: nat)
    requires c in xs
    ensures i < |xs| && xs[i] == c && c !in xs[..i]
  {
    if xs[0] == c then 0
    else
      var j := FirstIndex(xs[1..], c);
      assert xs[1..][..j] == xs[1..j + 1];
      j + 1
  }

  lemma {:induction false} FirstIndexPrefix(xs: seq<string>, n: nat, c: string)
    requires n <= |xs| && c in xs[..n]
    ensures FirstIndex(xs[..n], c) == FirstIndex(xs, c)
  {
    var i := FirstIndex(xs[..n], c);
    var k := FirstIndex(xs, c);
    assert xs[..n][..i] == xs[..i];
  }

  /** Categories are listed in first-seen order. */
  lemma {:induction false} DistinctFirstSeenOrder(xs: seq<string>)
    ensures forall i, j :: 0 <= i < j < |Distinct(xs)| ==>
              FirstIndex(xs, Distinct(xs)[i]) < FirstIndex(xs, Distinct(xs)[j])
  {
    if xs != [] {
      var n := |xs| - 1;
      var p := xs[..n];
      var d := Distinct(p);
      var c := xs[n];
      DistinctFirstSeenOrder(p);
      forall x | x in d
        ensures FirstIndex(xs, x) == FirstIndex(p, x) && FirstIndex(xs, x) < n
      {
        FirstIndexPrefix(xs, n, x);
      }
      if c == "" || c in d {
        assert Distinct(xs) == d;
      } else {
        assert c !in p;
        assert FirstIndex(xs, c) == n;
        var r := d + [c];
        assert Distinct(xs) == r;
        forall i, j | 0 <= i < j < |r|
          ensures FirstIndex(xs, r[i]) < FirstIndex(xs, r[j])
        {
          assert r[i] == d[i];
          if j < |d| {
            assert r[j] == d[j];
          }
        }
      }
    }
  }

  /** `extractCategories`: the `all` entry and then the distinct non-empty
      categories in first-seen order. */
  function ExtractCategories(products: seq<Product>): (cs: seq<string>)
    ensures |cs| >= 1 && cs[0] == "all"
    ensures cs[1..] == Distinct(CategoriesOf(products))
  {
    ["all"] + Distinct(CategoriesOf(products))
  }

  function CategoriesOf(products: seq<Product>): (cs: seq<string>)
    ensures |cs| == |products|
    ensures forall i :: 0 <= i < |products| ==> cs[i] == products[i].category
  {
    seq(|products|, i requires 0 <= i < |products| => products[i].category)
  }

  /** A category appears after `all` exactly when some product carries it,
      and no category appears twice. */
  lemma ExtractCategoriesContents(products: seq<Product>)
    ensures var cs := ExtractCategories(products);
            NoDuplicates(cs[1..]) &&
            forall c :: c in cs[1..] <==> c != "" && exists i :: 0 <= i < |products| && products[i].category == c
  {
    var xs := CategoriesOf(products);
    forall c | c != "" && (exists i :: 0 <= i < |products| && products[i].category == c)
      ensures c in xs
    {
      var i :| 0 <= i < |products| && products[i].category == c;
      assert xs[i] == c;
    }
  }

  // ----- search, category filter and sort -----

  /** The search filter: the lower-cased product name, description or
      category, or one of its lower-cased tags, contains the query. */
  predicate MatchesQuery(p: Product, query: string)
    ensures query == "" ==> MatchesQuery(p, query)
  {
    assert query == "" ==> IsPrefix(query, Lower(p.name));
    Contains(Lower(p.name), query) || Contains(Lower(p.description), query) ||
    Contains(Lower(p.category), query) ||
    exists k :: 0 <= k < |p.tags| && Contains(Lower(p.tags[k]), query)
  }

  /** Whether a product passes both filters of `filteredProducts`. A query
      that is blank after trimming filters nothing; the category `all`
      filters nothing. */
  predicate Passes(p: Product, searchQuery: string, category: string)
    ensures Passes(p, searchQuery, category) && category != "all" ==> p.category == category
    ensures Trim(searchQuery) == "" && (category == "all" || p.category == category) ==> Passes(p, searchQuery, category)
    ensures Passes(p, searchQuery, category) && Trim(searchQuery) != "" ==> MatchesQuery(p, Trim(Lower(searchQuery)))
  {
    (Trim(searchQuery) == "" || MatchesQuery(p, Trim(Lower(searchQuery)))) &&
    (category == "all" || p.category == category)
  }

  /** The test of both `result.filter(...)` calls. */
  function PassesTest(searchQuery: string, category: string): Product -> bool {
    (p: Product) => Passes(p, searchQuery, category)
  }

  /** The two `result.filter(...)` calls; filtering twice keeps what passes
      both tests, in order. */
  function Select(ps: seq<Product>, searchQuery: string, category: string): (r: seq<Product>)
    ensures |r| <= |ps|
  {
    Filter(ps, PassesTest(searchQuery, category))
  }

  /** The kept products pass, and every product that passes is kept, as
      often as it occurs. */
  lemma SelectSpec(ps: seq<Product>, searchQuery: string, category: string)
    ensures var r := Select(ps, searchQuery, category);
            (forall k :: 0 <= k < |r| ==> Passes(r[k], searchQuery, category)) &&
            (forall p :: multiset(r)[p] == if Passes(p, searchQuery, category) then multiset(ps)[p] else 0)
  {
    FilterCounts(ps, PassesTest(searchQuery, category));
  }

  /** The sort keys `filteredProducts` offers, apart from the two name
      orders. */
  datatype SortKey = PriceAsc | PriceDesc | CaloriesAsc | CaloriesDesc | RatingDesc

  /** The sort order chosen by the `sortBy` setting. */
  datatype SortMode = Unsorted | ByKey(key: SortKey)

  /** The `switch (sortBy)`: an unknown setting leaves the order alone;
      `None` for the two name orders. */
  function SortModeOf(sortBy: string): (m: Option<SortMode>)
    ensures m == None <==> sortBy == "name-asc" || sortBy == "name-desc"
  {
    if sortBy == "price-asc" then Some(ByKey(PriceAsc))
    else if sortBy == "price-desc" then Some(ByKey(PriceDesc))
    else if sortBy == "calories-asc" then Some(ByKey(CaloriesAsc))
    else if sortBy == "calories-desc" then Some(ByKey(CaloriesDesc))
    else if sortBy == "rating-desc" then Some(ByKey(RatingDesc))
    else if sortBy == "name-asc" || sortBy == "name-desc" then None
    else Some(Unsorted)
  }

  /** The number the comparator compares; a descending order compares the
      negated key, so `b.price - a.price` is `Key(a) - Key(b)`. */
  function Key(p: Product, k: SortKey): int {
    match k
    case PriceAsc => p.price
    case PriceDesc => -(p.price as int)
    case CaloriesAsc => p.calories
    case CaloriesDesc => -(p.calories as int)
    case RatingDesc => -(p.rating as int)
  }

  predicate SortedBy(ps: seq<Product>, k: SortKey) {
    forall i, j :: 0 <= i < j < |ps| ==> Key(ps[i], k) <= Key(ps[j], k)
  }

  /** Inserts `x` after the last element whose key is not larger, so
      equal keys keep their order. */
  function Insert(s: seq<Product>, x: Product, k: SortKey): (r: seq<Product>)
    requires SortedBy(s, k)
    ensures SortedBy(r, k)
    ensures multiset(r) == multiset(s) + multiset{x}
  {
    if s == [] then [x]
    else if Key(s[|s| - 1], k) <= Key(x, k) then s + [x]
    else
      var init := s[..|s| - 1];
      var last := s[|s| - 1];
      var t := Insert(init, x, k);
      assert s == init + [last];
      InsertLast(init, x, last, t, k);
      t + [last]
  }

  /** Appending an element no smaller than `x` and than everything in a
      sorted `init` to the insertion of `x` keeps it sorted. */
  lemma InsertLast(init: seq<Product>, x: Product, last: Product, t: seq<Product>, k: SortKey)
    requires SortedBy(init + [last], k) && SortedBy(t, k)
    requires multiset(t) == multiset(init) + multiset{x}
    requires Key(x, k) < Key(last, k)
    ensures SortedBy(t + [last], k)
  {
    forall i | 0 <= i < |t| ensures Key(t[i], k) <= Key(last, k) {
      assert t[i] in multiset(t);
      if t[i] != x {
        assert t[i] in multiset(init);
        var j :| 0 <= j < |init| && init[j] == t[i];
        assert (init + [last])[j] == t[i] && (init + [last])[|init|] == last;
      }
    }
  }

  /** `result.sort(comparator)`: a stable sort by the key. */
  function Sort(ps: seq<Product>, k: SortKey): (r: seq<Product>)
    ensures SortedBy(r, k)
    ensures multiset(r) == multiset(ps)
  {
    if ps == [] then []
    else
      assert ps == ps[..|ps| - 1] + [ps[|ps| - 1]];
      Insert(Sort(ps[..|ps| - 1], k), ps[|ps| - 1], k)
  }

  /** A stable sort leaves a list that is already in order as it is. */
  lemma {:induction false} SortSortedIdentity(ps: seq<Product>, k: SortKey)
    requires SortedBy(ps, k)
    ensures Sort(ps, k) == ps
  {
    if ps != [] {
      var init, last := ps[..|ps| - 1], ps[|ps| - 1];
      assert ps == init + [last];
      assert SortedBy(init, k) by {
        forall i, j | 0 <= i < j < |init| ensures Key(init[i], k) <= Key(init[j], k) {
          assert init[i] == ps[i] && init[j] == ps[j];
        }
      }
      SortSortedIdentity(init, k);
      InsertAtEnd(init, last, k);
    }
  }

  /** Inserting an element whose key is not below the last one appends it. */
  lemma InsertAtEnd(s: seq<Product>, x: Product, k: SortKey)
    requires SortedBy(s, k)
    requires s != [] ==> Key(s[|s| - 1], k) <= Key(x, k)
    ensures Insert(s, x, k) == s + [x]
  {
  }

  /** The test "has key `v` under `k`". */
  function KeyIs(k: SortKey, v: int): Product -> bool {
    p => Key(p, k) == v
  }

  /** Inserting `x` keeps the products of each key in their order, with
      `x` after those of its own key. */
  lemma {:induction false} InsertStable(s: seq<Product>, x: Product, k: SortKey, v: int)
    requires SortedBy(s, k)
    ensures Filter(Insert(s, x, k), KeyIs(k, v)) == Filter(s, KeyIs(k, v)) + KeyRun(x, k, v)
  {
    if s == [] || Key(s[|s| - 1], k) <= Key(x, k) {
      assert Filter(Insert(s, x, k), KeyIs(k, v)) == Filter(s, KeyIs(k, v)) + KeyRun(x, k, v) by {
        assert Insert(s, x, k) == s + [x];
        FilterAppend(s, [x], KeyIs(k, v));
        KeyRunFilter(x, k, v);
      }
    } else {
      var init, last := s[..|s| - 1], s[|s| - 1];
      assert s == init + [last];
      assert SortedBy(init, k) by {
        forall i, j | 0 <= i < j < |init| ensures Key(init[i], k) <= Key(init[j], k) {
          assert init[i] == s[i] && init[j] == s[j];
        }
      }
      InsertStable(init, x, k, v);
      InsertStableStep(init, last, x, k, v);
    }
  }

  /** The step of `InsertStable` where `x` goes in before the last element. */
  lemma InsertStableStep(init: seq<Product>, last: Product, x: Product, k: SortKey, v: int)
    requires SortedBy(init, k) && SortedBy(init + [last], k) && Key(x, k) < Key(last, k)
    requires Filter(Insert(init, x, k), KeyIs(k, v)) == Filter(init, KeyIs(k, v)) + KeyRun(x, k, v)
    ensures Filter(Insert(init + [last], x, k), KeyIs(k, v)) == Filter(init + [last], KeyIs(k, v)) + KeyRun(x, k, v)
  {
    var s := init + [last];
    assert s[..|s| - 1] == init && s[|s| - 1] == last;
    assert Insert(s, x, k) == Insert(init, x, k) + [last];
    assert KeyRun(x, k, v) == [] || !KeyIs(k, v)(last);
    FilterSwapLast(Insert(init, x, k), init, last, KeyRun(x, k, v), KeyIs(k, v));
  }

  /** `[x]` when `x` has key `v`, else nothing. */
  function KeyRun(x: Product, k: SortKey, v: int): seq<Product> {
    if Key(x, k) == v then [x] else []
  }

  lemma KeyRunFilter(x: Product, k: SortKey, v: int)
    ensures Filter([x], KeyIs(k, v)) == KeyRun(x, k, v)
  {
    assert [x][..0] == [];
  }

  /** The sort is stable: the products of any one key come out in the
      order they went in, as `Array.prototype.sort` guarantees. */
  lemma {:induction false} SortStable(ps: seq<Product>, k: SortKey, v: int)
    ensures Filter(Sort(ps, k), KeyIs(k, v)) == Filter(ps, KeyIs(k, v))
  {
    if ps != [] {
      var init, last := ps[..|ps| - 1], ps[|ps| - 1];
      SortStable(init, k, v);
      InsertStable(Sort(init, k), last, k, v);
      assert Sort(ps, k) == Insert(Sort(init, k), last, k);
    }
  }

  /** `filteredProducts` for every setting but the name orders. */
  function Filtered(ps: seq<Product>, searchQuery: string, category: string, mode: SortMode): (r: seq<Product>)
    ensures mode.Unsorted? ==> r == Select(ps, searchQuery, category)
    ensures mode.ByKey? ==> SortedBy(r, mode.key)
    ensures multiset(r) == multiset(Select(ps, searchQuery, category))
  {
    var selected := Select(ps, searchQuery, category);
    match mode
    case Unsorted => selected
    case ByKey(k) => Sort(selected, k)
  }

  /** Sorted by a key, the shown products of any one key keep the order in
      which the catalog holds them. */
  lemma FilteredStable(ps: seq<Product>, searchQuery: string, category: string, k: SortKey, v: int)
    ensures Filter(Filtered(ps, searchQuery, category, ByKey(k)), KeyIs(k, v)) ==
            Filter(Select(ps, searchQuery, category), KeyIs(k, v))
  {
    SortStable(Select(ps, searchQuery, category), k, v);
  }

  /** The result holds exactly the products that pass both filters, as many
      times as the catalog holds them. */
  lemma FilteredContents(ps: seq<Product>, searchQuery: string, category: string, mode: SortMode)
    ensures forall p :: p in Filtered(ps, searchQuery, category, mode) <==> p in ps && Passes(p, searchQuery, category)
  {
    var r := Filtered(ps, searchQuery, category, mode);
    var s := Select(ps, searchQuery, category);
    SelectSpec(ps, searchQuery, category);
    forall p ensures p in r <==> p in ps && Passes(p, searchQuery, category) {
      assert p in r <==> multiset(r)[p] > 0;
      assert p in ps <==> multiset(ps)[p] > 0;
      assert multiset(r)[p] == multiset(s)[p];
    }
  }

  /** Without a query, without a category and without a sort the catalog is
      shown as it is. */
  lemma FilterNothing(ps: seq<Product>, searchQuery: string)
    requires Trim(searchQuery) == ""
    ensures Filtered(ps, searchQuery, "all", Unsorted) == ps
  {
    SelectAll(ps, searchQuery);
  }

  lemma SelectAll(ps: seq<Product>, searchQuery: string)
    requires Trim(searchQuery) == ""
    ensures Select(ps, searchQuery, "all") == ps
  {
    FilterAllPass(ps, PassesTest(searchQuery, "all"));
  }
}
