/** The product catalog (data/products.ts): 50 products generated from their
    ids, ten per category, with the queries the storefront runs over them.
    Prices are integer cents. Image URLs are represented by their index in the
    category's image list, and the specification text is not modelled. */
module Products {
  import opened Seqs
  import opened Text

  datatype Category = Electronics | Accessories | Home | Fitness | Footwear

  function CategoryName(c: Category): string
  {
    match c
    case Electronics => "Electronics"
    case Accessories => "Accessories"
    case Home => "Home"
    case Fitness => "Fitness"
    case Footwear => "Footwear"
  }

  /** The categories in the order the catalog is built in. */
  const Categories: seq<Category> := [Electronics, Accessories, Home, Fitness, Footwear]

  /** Position of a category in `Categories`. */
  function CategoryIndex(c: Category): (k: nat)
    ensures k < |Categories| && Categories[k] == c
  {
    match c
    case Electronics => 0
    case Accessories => 1
    case Home => 2
    case Fitness => 3
    case Footwear => 4
  }

  datatype Product = Product(
    id: nat,
    slug: string,
    title: string,
    description: string,
    price: int,       // cents
    imageIndex: nat,  // index into the category's image list
    category: Category,
    inventory: int,
    featured: bool)

  /** Length of each category's image list in `makeImage`. */
  function ImageCount(c: Category): nat
  {
    match c
    case Electronics => 3
    case Accessories => 1
    case Home => 2
    case Fitness => 1
    case Footwear => 1
  }

  /** The list index `makeImage(category, index)` reads: `index % list.length`,
      always in bounds because no category's list is empty. */
  function ImageIndex(c: Category, index: nat): (k: nat)
    ensures k < ImageCount(c)
  {
    index % ImageCount(c)
  }

  // ---------------------------------------------------------------- toSlug

  predicate IsSlugChar(c: char) { 'a' <= c <= 'z' || '0' <= c <= '9' }

  /** Skips a run of characters outside `[a-z0-9]`. */
  function DropRun(s: string): (r: string)
    ensures |r| <= |s|
    ensures r == [] || IsSlugChar(r[0])
  {
    if s == [] || IsSlugChar(s[0]) then s else DropRun(s[1..])
  }

  /** `s.replace(/[^a-z0-9]+/g, "-")`: every maximal run of other characters
      becomes one dash. */
  function CollapseRuns(s: string): (r: string)
    ensures |r| <= |s|
    ensures r == [] <==> s == []
    decreases |s|
  {
    if s == [] then []
    else if IsSlugChar(s[0]) then [s[0]] + CollapseRuns(s[1..])
    else "-" + CollapseRuns(DropRun(s[1..]))
  }

  /** `s.replace(/(^-|-$)/g, "")`: drop a dash at the start and one at the end;
      nothing else is removed. */
  function TrimDashes(s: string): (r: string)
    ensures |s| - 2 <= |r| <= |s|
    ensures s != [] && s[0] != '-' && s[|s| - 1] != '-' ==> r == s
  {
    var a := if s != [] && s[0] == '-' then s[1..] else s;
    if a != [] && a[|a| - 1] == '-' then a[..|a| - 1] else a
  }

  /** `toSlug(title)`: never longer than the title; `ToSlugIsSlug` below
      states its shape. */
  function ToSlug(title: string): (r: string)
    ensures |r| <= |title|
  {
    TrimDashes(CollapseRuns(Lower(title)))
  }

  /** Only `[a-z0-9-]`, and never two dashes in a row. */
  ghost predicate DashSeparated(s: string)
  {
    && (forall i :: 0 <= i < |s| ==> IsSlugChar(s[i]) || s[i] == '-')
    && (forall i :: 0 <= i < |s| - 1 && s[i] == '-' ==> s[i + 1] != '-')
  }

  /** A well-formed slug: dash-separated, with no dash at either end. */
  ghost predicate IsSlug(s: string)
  {
    DashSeparated(s) && (s != [] ==> s[0] != '-' && s[|s| - 1] != '-')
  }

  predicate NoDash(s: string)
  {
    forall i :: 0 <= i < |s| ==> s[i] != '-'
  }

  /** Collapsing runs yields only `[a-z0-9-]` with no two dashes in a row, and
      starts with the first character when that one is kept. */
  lemma {:induction false} CollapseRunsShape(s: string)
    ensures DashSeparated(CollapseRuns(s))
    ensures s != [] && IsSlugChar(s[0]) ==> CollapseRuns(s) != [] && CollapseRuns(s)[0] == s[0]
    decreases |s|
  {
    if s == [] {
    } else if IsSlugChar(s[0]) {
      CollapseRunsShape(s[1..]);
    } else {
      var t := DropRun(s[1..]);
      CollapseRunsShape(t);
      var r := CollapseRuns(t);
      assert CollapseRuns(s) == "-" + r;
    }
  }

  /** A stretch of dash-separated text is dash-separated. */
  lemma DashSeparatedSlice(s: string, lo: nat, hi: nat)
    requires DashSeparated(s) && lo <= hi <= |s|
    ensures DashSeparated(s[lo..hi])
  {
    var t := s[lo..hi];
    assert forall i :: 0 <= i < |t| ==> t[i] == s[lo + i];
  }

  /** Dropping a leading and a trailing dash from dash-separated text leaves a
      well-formed slug. */
  lemma TrimDashesIsSlug(s: string)
    requires DashSeparated(s)
    ensures IsSlug(TrimDashes(s))
  {
    var lo := if s != [] && s[0] == '-' then 1 else 0;
    var a := s[lo..];
    var hi := if a != [] && a[|a| - 1] == '-' then |a| - 1 else |a|;
    DashSeparatedSlice(s, lo, |s|);
    DashSeparatedSlice(a, 0, hi);
    assert TrimDashes(s) == a[..hi];
    if lo == 1 && |s| > 1 {
      assert a[0] == s[1];
    }
  }

  /** Every slug is lowercase `[a-z0-9-]` with no leading, trailing or doubled dash. */
  lemma ToSlugIsSlug(title: string)
    ensures IsSlug(ToSlug(title))
  {
    CollapseRunsShape(Lower(title));
    TrimDashesIsSlug(CollapseRuns(Lower(title)));
  }

  /** Text made only of `[a-z0-9]` passes through `toSlug`'s replacements unchanged. */
  lemma {:induction false} CollapseRunsKeeps(s: string)
    requires forall i :: 0 <= i < |s| ==> IsSlugChar(s[i])
    ensures CollapseRuns(s) == s
  {
    if s != [] {
      CollapseRunsKeeps(s[1..]);
    }
  }

  /** Category names are non-empty and made of ASCII letters. */
  lemma CategoryNameIsLetters(c: Category)
    ensures CategoryName(c) != []
    ensures forall i :: 0 <= i < |CategoryName(c)| ==>
      IsUpper(CategoryName(c)[i]) || 'a' <= CategoryName(c)[i] <= 'z'
  {
  }

  /** The slug of a category is its lower-cased name: non-empty and without a dash. */
  lemma CategorySlug(c: Category)
    ensures ToSlug(CategoryName(c)) == Lower(CategoryName(c))
    ensures ToSlug(CategoryName(c)) != [] && NoDash(ToSlug(CategoryName(c)))
  {
    var l := Lower(CategoryName(c));
    CategoryNameIsLetters(c);
    assert forall i :: 0 <= i < |l| ==> IsSlugChar(l[i]);
    CollapseRunsKeeps(l);
  }

  // ----------------------------------------------------------- makeProduct

  /** The number in a product title: `id % 10`, or 10 when that is 0. */
  function TitleNumber(id: nat): (n: nat)
    ensures 1 <= n <= 10 && n % 10 == id % 10
  {
    if id % 10 == 0 then 10 else id % 10
  }

  /** `makeProduct(id, category)`. The price `20 + (id % 10) * 7.5` is a whole
      number of cents, so the `toFixed(2)` rounding never changes it. */
  function MakeProduct(id: nat, c: Category): Product
  {
    Product(
      id := id,
      slug := ToSlug(CategoryName(c)) + "-" + NatToDecimal(id),
      title := CategoryName(c) + " Item " + NatToDecimal(TitleNumber(id)),
      description := "High-quality " + Lower(CategoryName(c))
                     + " product crafted for everyday use and reliability.",
      price := 2000 + 750 * (id % 10),
      imageIndex := ImageIndex(c, id),
      category := c,
      inventory := 10 + id % 15,
      featured := id % 10 == 1)
  }

  /** The derived fields of a product stay in their ranges: a price from $20.00
      to $87.50 in $7.50 steps, an inventory of 10 to 24, an image that exists,
      and featured exactly for ids ending in 1. */
  lemma ProductFields(id: nat, c: Category)
    ensures var p := MakeProduct(id, c);
      && 2000 <= p.price <= 8750 && (p.price - 2000) % 750 == 0
      && 10 <= p.inventory <= 24
      && p.imageIndex < ImageCount(c)
      && (p.featured <==> p.price == 2750)
  {
    MakeProductKey(id, c);
    PriceSteps(id % 10);
  }

  /** The price steps: `750 * d` for a last digit `d`. */
  lemma PriceSteps(d: nat)
    requires d < 10
    ensures 0 <= 750 * d <= 6750 && (750 * d) % 750 == 0 && (d == 1 <==> 750 * d == 750)
  {
  }

  /** The fields of `makeProduct` other than its text, as formulas in the id. */
  lemma MakeProductKey(id: nat, c: Category)
    ensures var p := MakeProduct(id, c);
      && p.id == id && p.category == c && (p.featured <==> id % 10 == 1)
      && p.slug == ToSlug(CategoryName(c)) + "-" + NatToDecimal(id)
      && p.price == 2000 + 750 * (id % 10) && p.inventory == 10 + id % 15
      && p.imageIndex == ImageIndex(c, id)
  {
  }

  /** A slug without a dash, a dash and a run of digits make a well-formed slug. */
  lemma JoinedSlug(cs: string, ds: string)
    requires cs != [] && NoDash(cs) && IsSlug(cs)
    requires ds != [] && forall i :: 0 <= i < |ds| ==> IsDigit(ds[i])
    ensures IsSlug(cs + "-" + ds)
  {
    var slug := cs + "-" + ds;
    assert forall i :: 0 <= i < |cs| ==> slug[i] == cs[i];
    assert forall i :: 0 <= i < |ds| ==> slug[|cs| + 1 + i] == ds[i];
    assert slug[|cs|] == '-';
  }

  /** A product slug is a well-formed slug: the category's slug, a dash, and
      the id in decimal. */
  lemma ProductSlugIsSlug(id: nat, c: Category)
    ensures IsSlug(MakeProduct(id, c).slug)
  {
    MakeProductKey(id, c);
    ToSlugIsSlug(CategoryName(c));
    CategorySlug(c);
    JoinedSlug(ToSlug(CategoryName(c)), NatToDecimal(id));
  }

  function IsDash(): char -> bool
  {
    (x: char) => x == '-'
  }

  /** In `c + "-" + d` with no dash in `c`, the first dash is the separator. */
  lemma FirstDash(c: string, d: string)
    requires NoDash(c)
    ensures FindIndex(c + "-" + d, IsDash()) == |c|
  {
    var s := c + "-" + d;
    var k := FindIndex(s, IsDash());
    assert IsDash()(s[|c|]);
    assert forall j :: 0 <= j < |c| ==> s[j] == c[j];
  }

  /** Two slugs built as `category + "-" + digits` are equal only when both
      parts are. */
  lemma SlugPartsEqual(c1: string, d1: string, c2: string, d2: string)
    requires NoDash(c1) && NoDash(c2)
    requires c1 + "-" + d1 == c2 + "-" + d2
    ensures c1 == c2 && d1 == d2
  {
    var s := c1 + "-" + d1;
    FirstDash(c1, d1);
    FirstDash(c2, d2);
    assert c1 == s[..|c1|] == c2;
    assert d1 == s[|c1| + 1..] == d2;
  }

  /** Products with different ids have different slugs, whatever their
      categories. */
  lemma SlugsDiffer(id1: nat, c1: Category, id2: nat, c2: Category)
    requires id1 != id2
    ensures MakeProduct(id1, c1).slug != MakeProduct(id2, c2).slug
  {
    MakeProductKey(id1, c1);
    MakeProductKey(id2, c2);
    if MakeProduct(id1, c1).slug == MakeProduct(id2, c2).slug {
      CategorySlug(c1);
      CategorySlug(c2);
      SlugPartsEqual(ToSlug(CategoryName(c1)), NatToDecimal(id1),
                     ToSlug(CategoryName(c2)), NatToDecimal(id2));
      DecimalRoundTrip(id1);
      DecimalRoundTrip(id2);
    }
  }

  // --------------------------------------------------------------- catalog

  const CatalogSize: nat := 50

  /** `allProducts`: product k (from 0) has id k + 1 and the category of its
      block of ten. */
  function Catalog(): (ps: seq<Product>)
    ensures |ps| == CatalogSize
  {
    seq(CatalogSize, k requires 0 <= k < CatalogSize => MakeProduct(k + 1, Categories[k / 10]))
  }

  /** The builder of `allProducts`: for each category in order, ten products
      with consecutive ids starting at 1. */
  method BuildCatalog() returns (items: seq<Product>)
    ensures items == Catalog()
  {
    items := [];
    var id := 1;
    for c := 0 to |Categories|
      invariant id == 10 * c + 1 && |items| == 10 * c && BuiltInOrder(items)
    {
      var cat := Categories[c];
      for i := 0 to 10
        invariant id == 10 * c + i + 1 && |items| == 10 * c + i && BuiltInOrder(items)
      {
        BuildStep(items, c, i);
        items := items + [MakeProduct(id, cat)];
        id := id + 1;
      }
    }
    BuiltIsCatalog(items);
  }

  /** Every product built so far is the one `allProducts` holds at its position. */
  ghost predicate BuiltInOrder(items: seq<Product>)
  {
    |items| <= CatalogSize
    && forall k :: 0 <= k < |items| ==> items[k] == MakeProduct(k + 1, Categories[k / 10])
  }

  /** The next product the builder pushes, with id 10c + i + 1 in category c,
      is the one that belongs at the end. */
  lemma BuildStep(items: seq<Product>, c: nat, i: nat)
    requires c < |Categories| && i < 10 && |items| == 10 * c + i && BuiltInOrder(items)
    ensures BuiltInOrder(items + [MakeProduct(10 * c + i + 1, Categories[c])])
  {
    BlockOffset(c, i);
    var next := items + [MakeProduct(10 * c + i + 1, Categories[c])];
    forall k | 0 <= k < |next| ensures next[k] == MakeProduct(k + 1, Categories[k / 10]) {
      if k < |items| {
        assert next[k] == items[k];
      } else {
        assert k == 10 * c + i;
      }
    }
  }

  /** Fifty products built in order are the catalog. */
  lemma BuiltIsCatalog(items: seq<Product>)
    requires |items| == CatalogSize && BuiltInOrder(items)
    ensures items == Catalog()
  {
    forall k | 0 <= k < CatalogSize ensures items[k] == Catalog()[k] {
      CatalogElem(k);
    }
  }

  /** Product k (from 0) is built from id k + 1 and the k/10-th category. */
  lemma CatalogElem(k: nat)
    requires k < CatalogSize
    ensures Catalog()[k] == MakeProduct(k + 1, Categories[k / 10])
  {
  }

  /** The catalog is the fifty products built in order. */
  lemma CatalogBuilt()
    ensures BuiltInOrder(Catalog())
  {
    forall k | 0 <= k < CatalogSize ensures Catalog()[k] == MakeProduct(k + 1, Categories[k / 10]) {
      CatalogElem(k);
    }
  }

  /** Id k + 1 ends in 1 exactly when k ends in 0. */
  lemma NextId(k: nat)
    ensures (k + 1) % 10 == 1 <==> k % 10 == 0
  {
  }

  /** The shape of `allProducts`: fifty products; product k (from 0) has id
      k + 1, lies in the k/10-th category, and is featured exactly when it
      opens its block of ten. */
  ghost predicate Layout(ps: seq<Product>)
  {
    && |ps| == CatalogSize
    && (forall k :: 0 <= k < |ps| ==> ps[k].id == k + 1 && ps[k].category == Categories[k / 10])
    && FeaturedFirst(ps)
  }

  /** Exactly the first product of each block of ten is featured. */
  ghost predicate FeaturedFirst(ps: seq<Product>)
  {
    |ps| == CatalogSize && forall k :: 0 <= k < |ps| ==> (ps[k].featured <==> k % 10 == 0)
  }

  /** No two products share a slug. */
  ghost predicate DistinctSlugs(ps: seq<Product>)
  {
    forall i, j :: 0 <= i < j < |ps| ==> ps[i].slug != ps[j].slug
  }

  /** A product built in order has the id, category and featured flag its
      position calls for. */
  lemma BuiltAt(ps: seq<Product>, k: nat)
    requires BuiltInOrder(ps) && k < |ps|
    ensures ps[k].id == k + 1 && ps[k].category == Categories[k / 10]
    ensures ps[k].featured <==> k % 10 == 0
  {
    MakeProductKey(k + 1, Categories[k / 10]);
    NextId(k);
  }

  /** Two products built in order at different positions have different slugs. */
  lemma BuiltSlugsDiffer(ps: seq<Product>, i: nat, j: nat)
    requires BuiltInOrder(ps) && i < j < |ps|
    ensures ps[i].slug != ps[j].slug
  {
    SlugsDiffer(i + 1, Categories[i / 10], j + 1, Categories[j / 10]);
  }

  /** Fifty products built in order have the layout above and distinct slugs. */
  lemma BuiltLayout(ps: seq<Product>)
    requires |ps| == CatalogSize && BuiltInOrder(ps)
    ensures Layout(ps) && DistinctSlugs(ps)
  {
    forall k | 0 <= k < |ps|
      ensures ps[k].id == k + 1 && ps[k].category == Categories[k / 10]
      ensures ps[k].featured <==> k % 10 == 0
    {
      BuiltAt(ps, k);
    }
    forall i, j | 0 <= i < j < |ps| ensures ps[i].slug != ps[j].slug {
      BuiltSlugsDiffer(ps, i, j);
    }
  }

  /** `allProducts` has the layout above and distinct slugs. */
  lemma CatalogLayout()
    ensures Layout(Catalog()) && DistinctSlugs(Catalog())
  {
    CatalogBuilt();
    BuiltLayout(Catalog());
  }

  lemma BlockOffset(b: nat, i: nat)
    requires i < 10
    ensures (10 * b + i) % 10 == i && (10 * b + i) / 10 == b
  {
  }

  lemma BlockOf(k: nat, b: nat)
    ensures k / 10 == b <==> 10 * b <= k < 10 * b + 10
  {
  }

  /** Each category holds exactly one block of ten consecutive products. */
  lemma CategoryBlock(ps: seq<Product>, k: nat, c: Category)
    requires Layout(ps) && k < |ps|
    ensures ps[k].category == c <==> 10 * CategoryIndex(c) <= k < 10 * CategoryIndex(c) + 10
  {
    var b := k / 10;
    assert b < 5;
    assert CategoryIndex(Categories[b]) == b;
    BlockOf(k, CategoryIndex(c));
  }

  // --------------------------------------------------------------- queries

  function IsFeatured(): Product -> bool
  {
    (p: Product) => p.featured
  }

  /** `getFeaturedProducts(limit)` over the product list `ps`: the first
      `limit` featured products when there are that many, otherwise the first
      `limit` products. */
  function FeaturedIn(ps: seq<Product>, limit: int): (r: seq<Product>)
    ensures limit >= 0 ==> |r| <= limit
    ensures r <= Filter(ps, IsFeatured()) || r <= ps
  {
    var featured := Filter(ps, IsFeatured());
    if |featured| >= limit then SliceTo(featured, limit) else SliceTo(ps, limit)
  }

  /** `getFeaturedProducts(limit)` on `allProducts`. */
  function FeaturedProducts(limit: int): (r: seq<Product>)
    ensures |r| <= CatalogSize
    ensures limit >= 0 ==> |r| <= limit
  {
    FeaturedIn(Catalog(), limit)
  }

  /** Within one block of ten, only the first product is featured. */
  lemma FeaturedInBlock(ps: seq<Product>, b: nat)
    requires FeaturedFirst(ps) && b < 5
    ensures Filter(ps[10 * b..10 * b + 10], IsFeatured()) == [ps[10 * b]]
  {
    var block := ps[10 * b..10 * b + 10];
    forall i | 0 <= i < 10 ensures IsFeatured()(block[i]) <==> 0 <= i < 1 {
      assert block[i] == ps[10 * b + i];
      BlockOffset(b, i);
    }
    FilterSlice(block, IsFeatured(), 0, 1);
  }

  /** The featured products of the first `n` blocks are the first product of each. */
  lemma {:induction false} FeaturedPrefix(ps: seq<Product>, n: nat)
    requires FeaturedFirst(ps) && n <= 5
    ensures var f := Filter(ps[..10 * n], IsFeatured());
      |f| == n && forall b :: 0 <= b < n ==> f[b] == ps[10 * b]
  {
    if n > 0 {
      FeaturedPrefix(ps, n - 1);
      FeaturedPrefixGrows(ps, n);
      var f0, f := Filter(ps[..10 * (n - 1)], IsFeatured()), Filter(ps[..10 * n], IsFeatured());
      forall b | 0 <= b < n ensures f[b] == ps[10 * b] {
        if b < n - 1 {
          assert f[b] == f0[b];
        }
      }
    }
  }

  /** One more block adds its first product to the featured ones. */
  lemma FeaturedPrefixGrows(ps: seq<Product>, n: nat)
    requires FeaturedFirst(ps) && 0 < n <= 5
    ensures Filter(ps[..10 * n], IsFeatured())
      == Filter(ps[..10 * (n - 1)], IsFeatured()) + [ps[10 * (n - 1)]]
  {
    var head, block := ps[..10 * (n - 1)], ps[10 * (n - 1)..10 * n];
    assert ps[..10 * n] == head + block;
    FilterAppend(head, block, IsFeatured());
    FeaturedInBlock(ps, n - 1);
  }

  /** Exactly five products are featured: the first of each category, with
      ids 1, 11, 21, 31 and 41. */
  lemma FeaturedAreFirstOfEachCategory(ps: seq<Product>)
    requires Layout(ps)
    ensures var f := Filter(ps, IsFeatured());
      |f| == 5 && forall b :: 0 <= b < 5 ==> f[b] == ps[10 * b] && f[b].id == 10 * b + 1
  {
    FeaturedPrefix(ps, 5);
    assert ps[..50] == ps;
    forall b | 0 <= b < 5 ensures ps[10 * b].id == 10 * b + 1 {
    }
  }

  /** With at most five asked for, `getFeaturedProducts` returns the first
      featured products, one per category in catalog order. */
  lemma FeaturedFew(ps: seq<Product>, limit: int)
    requires Layout(ps) && 0 <= limit <= 5
    ensures var r := FeaturedIn(ps, limit);
      |r| == limit && forall b :: 0 <= b < limit ==> r[b] == ps[10 * b] && r[b].id == 10 * b + 1
  {
    var f := Filter(ps, IsFeatured());
    FeaturedAreFirstOfEachCategory(ps);
    var r := FeaturedIn(ps, limit);
    assert r == f[..limit];
    forall b | 0 <= b < limit ensures r[b] == ps[10 * b] && r[b].id == 10 * b + 1 {
      assert r[b] == f[b];
    }
  }

  /** On `allProducts`: `getFeaturedProducts(limit)` for a limit up to five
      returns products 1, 11, 21, 31 and 41, cut to the limit. */
  lemma FeaturedProductsFew(limit: int)
    requires 0 <= limit <= 5
    ensures var r := FeaturedProducts(limit);
      |r| == limit && forall b :: 0 <= b < limit ==> r[b] == Catalog()[10 * b] && r[b].id == 10 * b + 1
  {
    CatalogLayout();
    FeaturedFew(Catalog(), limit);
  }

  /** With more than five asked for there are too few featured products, and
      `getFeaturedProducts` returns the first products of the catalog instead:
      the default limit of 8 yields products 1 to 8. */
  lemma FeaturedProductsMany(limit: int)
    requires limit > 5
    ensures limit <= CatalogSize ==> FeaturedProducts(limit) == Catalog()[..limit]
    ensures limit > CatalogSize ==> FeaturedProducts(limit) == Catalog()
  {
    CatalogLayout();
    FeaturedAreFirstOfEachCategory(Catalog());
  }

  function HasSlug(slug: string): Product -> bool
  {
    (p: Product) => p.slug == slug
  }

  /** `getProductBySlug(slug)` over the product list `ps`: the product with
      that slug, or null. */
  function BySlug(ps: seq<Product>, slug: string): (r: Option<Product>)
    ensures r.Some? ==> r.value in ps && r.value.slug == slug
  {
    Find(ps, HasSlug(slug))
  }

  /** `getProductBySlug(slug)` on `allProducts`. */
  function ProductBySlug(slug: string): (r: Option<Product>)
    ensures r.Some? ==> r.value in Catalog() && r.value.slug == slug
  {
    BySlug(Catalog(), slug)
  }

  /** With distinct slugs, looking a product up by its own slug finds it, and
      the lookup returns null exactly for strings that are no product's slug. */
  lemma BySlugSpec(ps: seq<Product>, slug: string)
    requires DistinctSlugs(ps)
    ensures forall k :: 0 <= k < |ps| ==> BySlug(ps, ps[k].slug) == Some(ps[k])
    ensures BySlug(ps, slug).None? <==> forall k :: 0 <= k < |ps| ==> ps[k].slug != slug
    ensures BySlug(ps, slug).Some? ==> BySlug(ps, slug).value in ps && BySlug(ps, slug).value.slug == slug
  {
    forall k | 0 <= k < |ps| ensures BySlug(ps, ps[k].slug) == Some(ps[k]) {
      var p := HasSlug(ps[k].slug);
      var i := FindIndex(ps, p);
      assert p(ps[k]);
      assert i >= 0 && i <= k;
      assert i == k;
    }
  }

  /** `getProductBySlug` finds every catalog product by its own slug. */
  lemma ProductBySlugSpec(slug: string)
    ensures forall k :: 0 <= k < |Catalog()| ==> ProductBySlug(Catalog()[k].slug) == Some(Catalog()[k])
    ensures ProductBySlug(slug).None? <==> forall k :: 0 <= k < |Catalog()| ==> Catalog()[k].slug != slug
  {
    CatalogLayout();
    BySlugSpec(Catalog(), slug);
  }

  /** The text a search looks in: title and description, lower-cased. */
  function SearchText(p: Product): string
  {
    Lower(p.title + " " + p.description)
  }

  /** The `filter` predicate of `searchProducts` for a normalised query. */
  function Matches(q: string, category: Option<Category>): Product -> bool
  {
    (p: Product) =>
      (category.None? || p.category == category.value)
      && (|q| == 0 || Contains(SearchText(p), q))
  }

  /** `searchProducts(query, category)` over the product list `ps`. */
  function SearchIn(ps: seq<Product>, query: string, category: Option<Category>): (r: seq<Product>)
    ensures |r| <= |ps|
    ensures forall j :: 0 <= j < |r| ==> category.None? || r[j].category == category.value
  {
    Filter(ps, Matches(Lower(Trim(query)), category))
  }

  /** `searchProducts(query, category)` on `allProducts`. */
  function SearchProducts(query: string, category: Option<Category>): (r: seq<Product>)
    ensures |r| <= CatalogSize
    ensures forall j :: 0 <= j < |r| ==> category.None? || r[j].category == category.value
  {
    SearchIn(Catalog(), query, category)
  }

  /** A product is in the results exactly when it is in the category (if one is
      given) and the trimmed, lower-cased query is empty or occurs in its
      lower-cased title and description; results come from the list, in its
      order, so the results of a concatenation are the concatenated results. */
  lemma SearchSpec(ps: seq<Product>, more: seq<Product>, query: string, category: Option<Category>)
    ensures var q, r := Lower(Trim(query)), SearchIn(ps, query, category);
      (forall k :: 0 <= k < |ps| ==>
        (ps[k] in r <==>
          (category.None? || ps[k].category == category.value)
          && (q == [] || exists i :: OccursAt(q, SearchText(ps[k]), i))))
      && (forall j :: 0 <= j < |r| ==> r[j] in ps)
    ensures SearchIn(ps + more, query, category) == SearchIn(ps, query, category) + SearchIn(more, query, category)
  {
    var q := Lower(Trim(query));
    var r := SearchIn(ps, query, category);
    FilterMembers(ps, Matches(q, category));
    FilterAppend(ps, more, Matches(q, category));
    forall k | 0 <= k < |ps|
      ensures ps[k] in r <==>
        (category.None? || ps[k].category == category.value)
        && (q == [] || exists i :: OccursAt(q, SearchText(ps[k]), i))
    {
      ContainsSpec(SearchText(ps[k]), q);
      if ps[k] in r {
        assert Matches(q, category)(ps[k]);
      }
    }
  }

  /** A blank query with no category returns the whole catalog; with a category
      it returns that category's block of ten, in order. */
  lemma SearchBlankQuery(query: string, c: Category)
    requires Trim(query) == []
    ensures SearchProducts(query, None) == Catalog()
    ensures SearchProducts(query, Some(c)) == Catalog()[10 * CategoryIndex(c)..10 * CategoryIndex(c) + 10]
  {
    CatalogLayout();
    SearchBlank(Catalog(), query, c);
  }

  lemma SearchBlank(ps: seq<Product>, query: string, c: Category)
    requires Layout(ps) && Trim(query) == []
    ensures SearchIn(ps, query, None) == ps
    ensures SearchIn(ps, query, Some(c)) == ps[10 * CategoryIndex(c)..10 * CategoryIndex(c) + 10]
  {
    assert Lower(Trim(query)) == [];
    FilterKeepsAll(ps, Matches([], None));
    var lo := 10 * CategoryIndex(c);
    forall k | 0 <= k < |ps|
      ensures Matches([], Some(c))(ps[k]) <==> lo <= k < lo + 10
    {
      CategoryBlock(ps, k, c);
    }
    FilterSlice(ps, Matches([], Some(c)), lo, lo + 10);
  }
}
