/**
 * The catalogue views of listing/views.py: the category and product list
 * filters, product pagination, the seller-only add, delete and edit views,
 * and the review list and review creation of one product.
 */
module ListingViews {
  import opened Wrappers
  import opened Seqs
  import opened Tables

  // ---------------------------------------------------------------------
  // Category list

  function CategoryWithId(id: nat): Category -> bool { (c: Category) => c.id == id }

  /** The category list, narrowed to one id when `categoryId` is given. */
  function CategoryQuery(categories: seq<Category>, categoryId: Option<nat>): (r: seq<Category>)
    ensures categoryId.None? ==> r == categories
    ensures categoryId.Some? ==> forall c :: c in r <==> c in categories && c.id == categoryId.value
  {
    if categoryId.Some? then Filter(categories, CategoryWithId(categoryId.value)) else categories
  }

  // ---------------------------------------------------------------------
  // Case-insensitive substring match of the `name` filter

  /** ASCII upper case to lower case; other characters unchanged. */
  function Lower(c: char): char
  {
    if 'A' <= c <= 'Z' then (c as int - 'A' as int + 'a' as int) as char else c
  }

  function LowerString(s: string): (r: string)
    ensures |r| == |s| && forall i :: 0 <= i < |s| ==> r[i] == Lower(s[i])
  {
    if s == [] then [] else [Lower(s[0])] + LowerString(s[1..])
  }

  /** `needle` stands in `hay` starting at position `i`. */
  predicate OccursAt(needle: string, hay: string, i: int)
  {
    0 <= i <= |hay| - |needle| && hay[i..i + |needle|] == needle
  }

  lemma OccursAtShift(needle: string, hay: string, i: int)
    requires hay != [] && 0 <= i
    ensures OccursAt(needle, hay[1..], i) == OccursAt(needle, hay, i + 1)
  {
    if 0 <= i <= |hay| - 1 - |needle| {
      assert hay[1..][i..i + |needle|] == hay[i + 1..i + 1 + |needle|];
    }
  }

  /** Whether `needle` occurs in `hay` as a contiguous run of characters. */
  function Occurs(needle: string, hay: string): (r: bool)
    decreases |hay|
    ensures r <==> exists i :: OccursAt(needle, hay, i)
  {
    if |needle| > |hay| then false
    else if hay[..|needle|] == needle then assert OccursAt(needle, hay, 0); true
    else
      var r := Occurs(needle, hay[1..]);
      assert r ==> exists i :: OccursAt(needle, hay, i) by {
        if r {
          var j :| OccursAt(needle, hay[1..], j);
          OccursAtShift(needle, hay, j);
        }
      }
      assert (exists i :: OccursAt(needle, hay, i)) ==> r by {
        if exists i :: OccursAt(needle, hay, i) {
          var i :| OccursAt(needle, hay, i);
          assert i != 0;
          OccursAtShift(needle, hay, i - 1);
        }
      }
      r
  }

  /** The window of `hay` at `i` equals `needle` once both are lower-cased. */
  predicate WindowMatches(hay: string, needle: string, i: int)
  {
    0 <= i <= |hay| - |needle| && LowerString(hay[i..i + |needle|]) == LowerString(needle)
  }

  /** A window equal up to letter case is an occurrence of the lower-cased needle in the lower-cased string. */
  lemma WindowsAreOccurrences(hay: string, needle: string)
    ensures forall i :: WindowMatches(hay, needle, i) == OccursAt(LowerString(needle), LowerString(hay), i)
  {
    var h, n := LowerString(hay), LowerString(needle);
    forall i ensures WindowMatches(hay, needle, i) == OccursAt(n, h, i) {
      if 0 <= i <= |hay| - |needle| {
        assert h[i..i + |needle|] == LowerString(hay[i..i + |needle|]);
      }
    }
  }

  /**
   * The `name__icontains` lookup: `needle` occurs in `hay` when letter case
   * is ignored, that is, some window of `hay` equals `needle` up to case.
   */
  function ContainsIgnoreCase(hay: string, needle: string): (r: bool)
    ensures r <==> exists i :: WindowMatches(hay, needle, i)
  {
    WindowsAreOccurrences(hay, needle);
    Occurs(LowerString(needle), LowerString(hay))
  }

  /** Changing the case of the needle's letters does not change the match. */
  lemma ContainsIgnoreCaseOfLowered(hay: string, needle: string)
    ensures ContainsIgnoreCase(hay, needle) == ContainsIgnoreCase(hay, LowerString(needle))
  {
    var n := LowerString(needle);
    assert LowerString(n) == n;
  }

  // ---------------------------------------------------------------------
  // Product list

  /**
   * The query parameters of the product list. `None` stands for a parameter
   * that is absent or empty. Prices are in cents.
   */
  datatype ProductFilters = ProductFilters(productId: Option<nat>, categoryId: Option<nat>,
                                           name: Option<string>, minPrice: Option<int>,
                                           maxPrice: Option<int>, shopId: Option<nat>)

  /** The conjunction of every supplied filter; an absent filter imposes nothing. */
  predicate Matches(f: ProductFilters, p: Product)
  {
    && (f.productId.Some? ==> p.id == f.productId.value)
    && (f.categoryId.Some? ==> p.category == f.categoryId.value)
    && (f.name.Some? ==> ContainsIgnoreCase(p.name, f.name.value))
    && (f.minPrice.Some? ==> f.minPrice.value <= p.price)
    && (f.maxPrice.Some? ==> p.price <= f.maxPrice.value)
    && (f.shopId.Some? ==> p.shop == f.shopId.value)
  }

  function MatchesAll(f: ProductFilters): Product -> bool { (p: Product) => Matches(f, p) }

  /** The number of filter steps the product list applies, in this order. */
  const FILTER_STEPS: nat := 6

  /** Whether step `k` (1 to 6) filters at all: its parameter was sent and is not empty. */
  predicate Active(f: ProductFilters, k: nat)
  {
    if k == 1 then f.productId.Some?
    else if k == 2 then f.categoryId.Some?
    else if k == 3 then f.name.Some? && f.name.value != ""
    else if k == 4 then f.minPrice.Some?
    else if k == 5 then f.maxPrice.Some?
    else f.shopId.Some?
  }

  /** The row test of step `k`, applied only when the step is active. */
  predicate StepTest(f: ProductFilters, k: nat, p: Product)
  {
    if k == 1 then f.productId.Some? && p.id == f.productId.value
    else if k == 2 then f.categoryId.Some? && p.category == f.categoryId.value
    else if k == 3 then f.name.Some? && ContainsIgnoreCase(p.name, f.name.value)
    else if k == 4 then f.minPrice.Some? && f.minPrice.value <= p.price
    else if k == 5 then f.maxPrice.Some? && p.price <= f.maxPrice.value
    else f.shopId.Some? && p.shop == f.shopId.value
  }

  function Step(f: ProductFilters, k: nat): Product -> bool { (p: Product) => StepTest(f, k, p) }

  /** What the first `k` steps demand of a row. */
  predicate PassesFirst(f: ProductFilters, k: nat, p: Product)
  {
    k == 0 || (PassesFirst(f, k - 1, p) && (Active(f, k) ==> StepTest(f, k, p)))
  }

  function PassesFirstSteps(f: ProductFilters, k: nat): Product -> bool
  {
    (p: Product) => PassesFirst(f, k, p)
  }

  /**
   * The queryset after the first `k` steps of the filter chain, each step a
   * `queryset.filter` applied only when its parameter was sent: it is one
   * filter of the table by the conjunction of those steps, in table order.
   */
  function FilterChain(products: seq<Product>, f: ProductFilters, k: nat): (r: seq<Product>)
    requires k <= FILTER_STEPS
    ensures r == Filter(products, PassesFirstSteps(f, k))
  {
    if k == 0 then
      FilterAll(products, PassesFirstSteps(f, 0));
      products
    else
      var q := FilterChain(products, f, k - 1);
      if Active(f, k) then
        FilterFusion(products, PassesFirstSteps(f, k - 1), Step(f, k), PassesFirstSteps(f, k));
        Filter(q, Step(f, k))
      else
        FilterCongruent(products, PassesFirstSteps(f, k - 1), PassesFirstSteps(f, k));
        q
  }

  /** The product list view: the whole chain of filters over the product table. */
  function ProductQuery(products: seq<Product>, f: ProductFilters): (r: seq<Product>)
    ensures forall p :: p in r <==> p in products && Matches(f, p)
    ensures |r| <= |products|
  {
    forall p ensures PassesFirst(f, FILTER_STEPS, p) == Matches(f, p) {
      PassesAllSteps(f, p);
    }
    FilterChain(products, f, FILTER_STEPS)
  }

  /** Passing all six steps is matching every supplied filter (an empty name matches every product). */
  lemma PassesAllSteps(f: ProductFilters, p: Product)
    ensures PassesFirst(f, FILTER_STEPS, p) == Matches(f, p)
  {
    EmptyNameMatchesAll(p.name);
    assert PassesFirst(f, 1, p) == (f.productId.Some? ==> p.id == f.productId.value);
    assert PassesFirst(f, 2, p) == (PassesFirst(f, 1, p) && (f.categoryId.Some? ==> p.category == f.categoryId.value));
    assert PassesFirst(f, 3, p) == (PassesFirst(f, 2, p) && (f.name.Some? ==> ContainsIgnoreCase(p.name, f.name.value)));
    assert PassesFirst(f, 4, p) == (PassesFirst(f, 3, p) && (f.minPrice.Some? ==> f.minPrice.value <= p.price));
    assert PassesFirst(f, 5, p) == (PassesFirst(f, 4, p) && (f.maxPrice.Some? ==> p.price <= f.maxPrice.value));
    assert PassesFirst(f, 6, p) == (PassesFirst(f, 5, p) && (f.shopId.Some? ==> p.shop == f.shopId.value));
  }

  lemma EmptyNameMatchesAll(hay: string)
    ensures ContainsIgnoreCase(hay, "")
  {
    assert OccursAt(LowerString(""), LowerString(hay), 0);
  }

  /** The product list keeps the table's order: it is the table filtered by `Matches`. */
  lemma ProductQueryIsFilter(products: seq<Product>, f: ProductFilters)
    ensures ProductQuery(products, f) == Filter(products, MatchesAll(f))
  {
    forall p ensures PassesFirst(f, FILTER_STEPS, p) == Matches(f, p) {
      PassesAllSteps(f, p);
    }
    FilterCongruent(products, PassesFirstSteps(f, FILTER_STEPS), MatchesAll(f));
  }

  /** Without any parameter the product list is the whole table, in order. */
  lemma NoFiltersWholeTable(products: seq<Product>)
    ensures ProductQuery(products, ProductFilters(None, None, None, None, None, None)) == products
  {
    var f := ProductFilters(None, None, None, None, None, None);
    ProductQueryIsFilter(products, f);
    FilterAll(products, MatchesAll(f));
  }

  // ---------------------------------------------------------------------
  // Pagination of the product list

  /** The page size when the client does not choose one. */
  const PAGE_SIZE: nat := 10
  /** The largest page size a client may choose. */
  const MAX_PAGE_SIZE: nat := 100

  /**
   * The page size of the product list. `requested` is the `page_size`
   * parameter read as an integer, `None` when it is absent or not a number;
   * zero and negative sizes fall back to the default, large ones are capped.
   */
  function PageSize(requested: Option<int>): (n: nat)
    ensures 1 <= n <= MAX_PAGE_SIZE
    ensures requested.None? ==> n == PAGE_SIZE
    ensures requested.Some? && requested.value <= 0 ==> n == PAGE_SIZE
    ensures requested.Some? && 0 < requested.value <= MAX_PAGE_SIZE ==> n == requested.value
    ensures requested.Some? && requested.value > MAX_PAGE_SIZE ==> n == MAX_PAGE_SIZE
  {
    match requested
    case None => PAGE_SIZE
    case Some(k) => if k <= 0 then PAGE_SIZE else if k < MAX_PAGE_SIZE then k else MAX_PAGE_SIZE
  }

  /** The number of pages of `count` rows; an empty list still has its first page. */
  function PageCount(count: nat, size: nat): (n: nat)
    requires size > 0
    ensures n >= 1
    ensures (n - 1) * size < count || (count == 0 && n == 1)
    ensures count <= n * size
  {
    var hits := if count == 0 then 1 else count;
    var n := (hits + size - 1) / size;
    assert n * size + (hits + size - 1) % size == hits + size - 1;
    n
  }

  datatype PageError = InvalidPage

  /**
   * Page `number` (counting from 1) of `rows` at `size` rows per page. A
   * number outside 1 to the page count is an invalid page.
   */
  function Page(rows: seq<Product>, size: nat, number: int): (r: Result<seq<Product>, PageError>)
    requires size > 0
    ensures r.Ok? <==> 1 <= number <= PageCount(|rows|, size)
    ensures r.Ok? ==> |r.value| <= size
    ensures r.Ok? ==> forall k :: 0 <= k < |r.value| ==>
      (number - 1) * size + k < |rows| && r.value[k] == rows[(number - 1) * size + k]
    ensures r.Ok? && number < PageCount(|rows|, size) ==> |r.value| == size
  {
    if 1 <= number <= PageCount(|rows|, size) then
      PageBounds(|rows|, size, number);
      var lo := (number - 1) * size;
      var hi := if number * size < |rows| then number * size else |rows|;
      Ok(rows[lo..hi])
    else Err(InvalidPage)
  }

  /** A valid page starts within the list, ends `size` rows later, and every page before the last is full. */
  lemma PageBounds(count: nat, size: nat, number: int)
    requires size > 0 && 1 <= number <= PageCount(count, size)
    ensures 0 <= (number - 1) * size <= count
    ensures (number - 1) * size + size == number * size
    ensures number < PageCount(count, size) ==> number * size < count
  {
    var n := PageCount(count, size);
    MulMonotone(0, number - 1, size);
    MulMonotone(number - 1, n - 1, size);
    MulMonotone(number, n - 1, size);
  }

  lemma MulMonotone(a: int, b: int, c: nat)
    ensures a <= b ==> a * c <= b * c
  {
    assert b * c - a * c == (b - a) * c;
  }

  /** Every row of the list is on exactly the page its position says, at the offset it says. */
  lemma RowOnItsPage(rows: seq<Product>, size: nat, i: nat)
    requires size > 0 && i < |rows|
    ensures var page := Page(rows, size, i / size + 1);
      page.Ok? && i % size < |page.value| && page.value[i % size] == rows[i]
  {
    var number := i / size + 1;
    var offset := i % size;
    assert (number - 1) * size + offset == i;
    var n := PageCount(|rows|, size);
    MulMonotone(n, number - 1, size);
    assert number <= n;
    var page := Page(rows, size, number);
    assert page.Ok?;
    assert i < number * size;
    assert offset < |page.value|;
  }

  // ---------------------------------------------------------------------
  // Seller-only product changes

  /** The failures of the listing views that change a table. */
  datatype ListingError = UserNotFound | NotSeller | NotCustomer | ProductNotFound | NotShopOwner | NotYourProduct | Invalid

  /** Product `pid` belongs to the shop that seller `u` owns. */
  predicate ProductOwnedBy(db: Db, u: int, pid: int)
  {
    exists p, s | p in db.products && s in db.shops :: p.id == pid && s.owner == u && p.shop == s.id
  }

  /**
   * The checks shared by product deletion and editing, in the order the
   * views make them: the user exists, is a seller, the product exists, the
   * seller owns a shop, and the product is in that shop. On success the
   * product is returned.
   */
  function AuthorizeChange(db: Db, u: int, pid: int): (r: Result<Product, ListingError>)
    ensures r == Err(UserNotFound) <==> !IsUser(db, u)
    ensures r == Err(NotSeller) <==> IsUser(db, u) && !IsSeller(db, u)
    ensures r == Err(ProductNotFound) <==> IsUser(db, u) && IsSeller(db, u) && !IsProduct(db, pid)
    ensures r == Err(NotShopOwner) <==> IsUser(db, u) && IsSeller(db, u) && IsProduct(db, pid) && !OwnsShop(db, u)
    ensures r == Err(NotYourProduct) <==>
      IsUser(db, u) && IsSeller(db, u) && IsProduct(db, pid) && OwnsShop(db, u)
      && ProductById(db.products, pid).value.shop != ShopOf(db, u).value.id
    ensures r.Err? ==> r.error != Invalid && r.error != NotCustomer
    ensures r.Ok? ==> r.value in db.products && r.value.id == pid
    ensures r.Ok? ==> ShopOf(db, u).Some? && r.value.shop == ShopOf(db, u).value.id
    ensures r.Ok? ==> ProductOwnedBy(db, u, pid)
  {
    if !IsUser(db, u) then Err(UserNotFound)
    else if SellerOf(db, u).None? then Err(NotSeller)
    else match ProductById(db.products, pid)
      case None => Err(ProductNotFound)
      case Some(product) =>
        match ShopOf(db, u)
        case None => Err(NotShopOwner)
        case Some(shop) =>
          if product.shop != shop.id then Err(NotYourProduct) else Ok(product)
  }

  /**
   * In a well-formed database the checks pass exactly when the product
   * belongs to the shop of the requesting seller.
   */
  lemma AuthorizeChangeIffOwner(db: Db, u: int, pid: int)
    requires WellFormed(db)
    ensures AuthorizeChange(db, u, pid).Ok? <==> ProductOwnedBy(db, u, pid)
  {
    if ProductOwnedBy(db, u, pid) {
      var p, s :| p in db.products && s in db.shops && p.id == pid && s.owner == u && p.shop == s.id;
      assert IsSeller(db, u) by { assert ShopsOk(db); }
      assert IsUser(db, u) by { assert ProfilesOk(db); }
      OwnerPassesChecks(db, u, p, s);
    }
  }

  /** The checks pass for the owner of a product's shop when product keys and shop owners are unique. */
  lemma OwnerPassesChecks(db: Db, u: int, p: Product, s: Shop)
    requires IsUser(db, u) && IsSeller(db, u)
    requires Unique(db.products, ProductKey) && Unique(db.shops, ShopOwner)
    requires p in db.products && s in db.shops && s.owner == u && p.shop == s.id
    ensures AuthorizeChange(db, u, p.id) == Ok(p)
  {
    ProductByIdUnique(db, p);
    var shop := ShopOf(db, u).value;
    var i :| 0 <= i < |db.shops| && db.shops[i] == s;
    var j :| 0 <= j < |db.shops| && db.shops[j] == shop;
    UniquePair(db.shops, ShopOwner, i, j);
    UniquePair(db.shops, ShopOwner, j, i);
  }

  /** With unique product keys, looking a product up by its id finds that very row. */
  lemma ProductByIdUnique(db: Db, p: Product)
    requires Unique(db.products, ProductKey) && p in db.products
    ensures ProductById(db.products, p.id) == Some(p)
  {
    var q := ProductById(db.products, p.id).value;
    var i :| 0 <= i < |db.products| && db.products[i] == p;
    var j :| 0 <= j < |db.products| && db.products[j] == q;
    UniquePair(db.products, ProductKey, i, j);
    UniquePair(db.products, ProductKey, j, i);
  }

  function ProductOtherThan(pid: int): Product -> bool { (p: Product) => p.id != pid }
  function ReviewNotOf(pid: int): Review -> bool { (r: Review) => r.product != pid }
  function OrderNotOf(pid: int): Order -> bool { (o: Order) => o.product != pid }

  /**
   * Deleting product `pid`: its row goes, and with it, by the cascades of
   * the review and order foreign keys, every review and order of it.
   */
  function DeleteProductCascade(db: Db, pid: int): (db': Db)
    ensures forall p :: p in db'.products <==> p in db.products && p.id != pid
    ensures forall r :: r in db'.reviews <==> r in db.reviews && r.product != pid
    ensures forall o :: o in db'.orders <==> o in db.orders && o.product != pid
    ensures db' == db.(products := db'.products, reviews := db'.reviews, orders := db'.orders)
    ensures !IsProduct(db', pid)
  {
    db.(products := Filter(db.products, ProductOtherThan(pid)),
        reviews := Filter(db.reviews, ReviewNotOf(pid)),
        orders := Filter(db.orders, OrderNotOf(pid)))
  }

  /** The cascade leaves no row referring to a missing product: the database stays well-formed. */
  lemma DeleteProductWellFormed(db: Db, pid: int)
    requires WellFormed(db)
    ensures WellFormed(DeleteProductCascade(db, pid))
  {
    var db' := DeleteProductCascade(db, pid);
    assert ProfilesOk(db') && ShopsOk(db') && TokensOk(db') by {
      assert db'.users == db.users && db'.sellers == db.sellers && db'.customers == db.customers;
      assert db'.shops == db.shops && db'.tokens == db.tokens;
    }
    DeleteKeepsCatalog(db, pid);
    DeleteKeepsActivity(db, pid);
  }

  lemma DeleteKeepsCatalog(db: Db, pid: int)
    requires CatalogOk(db)
    ensures CatalogOk(DeleteProductCascade(db, pid))
  {
    FilterUnique(db.products, ProductOtherThan(pid), ProductKey);
  }

  lemma DeleteKeepsActivity(db: Db, pid: int)
    requires ActivityOk(db)
    ensures ActivityOk(DeleteProductCascade(db, pid))
  {
    var db' := DeleteProductCascade(db, pid);
    FilterUnique(db.reviews, ReviewNotOf(pid), ReviewKey);
    FilterUnique(db.orders, OrderNotOf(pid), OrderKey);
    forall id | IsProduct(db, id) && id != pid ensures IsProduct(db', id) {
      var p :| p in db.products && ProductKey(p) == id;
      assert p in db'.products;
    }
    assert db'.customers == db.customers;
  }

  /**
   * Product deletion. On any failed check it reports that check's error
   * and changes nothing; otherwise the product and its reviews and orders
   * are deleted.
   */
  method DeleteProduct(m: Marketplace, u: int, pid: int) returns (r: Outcome<ListingError>)
    requires m.Valid()
    modifies m
    ensures m.Valid()
    ensures AuthorizeChange(old(m.Snapshot()), u, pid).Err? ==>
      r == Fail(AuthorizeChange(old(m.Snapshot()), u, pid).error) && m.Snapshot() == old(m.Snapshot())
    ensures AuthorizeChange(old(m.Snapshot()), u, pid).Ok? ==>
      r == Pass && m.Snapshot() == DeleteProductCascade(old(m.Snapshot()), pid)
  {
    var db := m.Snapshot();
    if !IsUser(db, u) {
      return Fail(UserNotFound);
    }
    if SellerOf(db, u).None? {
      return Fail(NotSeller);
    }
    var product := ProductById(m.products, pid);
    if product.None? {
      return Fail(ProductNotFound);
    }
    var shop := ShopOf(db, u);
    if shop.None? {
      return Fail(NotShopOwner);
    }
    if product.value.shop != shop.value.id {
      return Fail(NotYourProduct);
    }
    RemoveProduct(m, pid);
    r := Pass;
  }

  /** `product.delete()`: the row and, by cascade, its reviews and orders are removed. */
  method RemoveProduct(m: Marketplace, pid: int)
    requires m.Valid()
    modifies m
    ensures m.Valid() && m.Snapshot() == DeleteProductCascade(old(m.Snapshot()), pid)
  {
    var db := m.Snapshot();
    DeleteProductWellFormed(db, pid);
    var db' := DeleteProductCascade(db, pid);
    m.products, m.reviews, m.orders := db'.products, db'.reviews, db'.orders;
    assert m.Snapshot() == db';
  }

  /**
   * The fields of a partial product update; `None` leaves a field as it is.
   * The primary key and the shop are not among them.
   */
  datatype ProductPatch = ProductPatch(category: Option<CategoryId>, name: Option<string>,
                                       price: Option<int>, available: Option<int>)

  /** A partial update: each supplied field takes its new value, every other field keeps its old one. */
  function ApplyPatch(p: Product, patch: ProductPatch): (q: Product)
    ensures q.id == p.id && q.shop == p.shop
    ensures q.category == (if patch.category.Some? then patch.category.value else p.category)
    ensures q.name == (if patch.name.Some? then patch.name.value else p.name)
    ensures q.price == (if patch.price.Some? then patch.price.value else p.price)
    ensures q.available == (if patch.available.Some? then patch.available.value else p.available)
  {
    p.(category := Patched(p.category, patch.category), name := Patched(p.name, patch.name),
       price := Patched(p.price, patch.price), available := Patched(p.available, patch.available))
  }

  /** The value of a field after a partial update that may or may not supply it. */
  function Patched<T>(current: T, supplied: Option<T>): T
  {
    match supplied
    case None => current
    case Some(v) => v
  }

  /** A patch that supplies nothing leaves the product as it was. */
  lemma EmptyPatchKeepsProduct(p: Product)
    ensures ApplyPatch(p, ProductPatch(None, None, None, None)) == p
  {
  }

  /** Applying the same patch twice is applying it once. */
  lemma ApplyPatchIdempotent(p: Product, patch: ProductPatch)
    ensures ApplyPatch(ApplyPatch(p, patch), patch) == ApplyPatch(p, patch)
  {
  }

  /** The product table with the row whose key is `q.id` replaced by `q`. */
  function ReplaceProduct(products: seq<Product>, q: Product): (r: seq<Product>)
    ensures |r| == |products|
    ensures forall i :: 0 <= i < |r| ==> r[i] == (if products[i].id == q.id then q else products[i])
  {
    if products == [] then []
    else [if products[0].id == q.id then q else products[0]] + ReplaceProduct(products[1..], q)
  }

  /** Replacing a row by one with the same key keeps the keys of the table unique. */
  lemma ReplaceProductUnique(products: seq<Product>, q: Product)
    requires Unique(products, ProductKey)
    ensures Unique(ReplaceProduct(products, q), ProductKey)
  {
    var r := ReplaceProduct(products, q);
    assert forall i :: 0 <= i < |r| ==> ProductKey(r[i]) == ProductKey(products[i]);
  }

  /**
   * Replacing a present row puts the new row in and keeps every row with
   * another key.
   */
  lemma ReplaceProductRows(products: seq<Product>, q: Product)
    requires q.id in Keys(products, ProductKey)
    ensures q in ReplaceProduct(products, q)
    ensures forall p: Product :: p.id != q.id ==> (p in ReplaceProduct(products, q) <==> p in products)
  {
    var r := ReplaceProduct(products, q);
    var i :| 0 <= i < |products| && products[i].id == q.id;
    assert r[i] == q;
    forall x: Product | x.id != q.id ensures x in r <==> x in products {
      ReplaceProductKeepsRow(products, q, x);
    }
  }

  /** A row whose key differs from the new row's is in the table after the replacement exactly when it was before. */
  lemma ReplaceProductKeepsRow(products: seq<Product>, q: Product, x: Product)
    requires x.id != q.id
    ensures x in ReplaceProduct(products, q) <==> x in products
  {
    var r := ReplaceProduct(products, q);
    if x in products {
      var j :| 0 <= j < |products| && products[j] == x;
      assert r[j] == x;
    }
    if x in r {
      var j :| 0 <= j < |r| && r[j] == x;
      assert products[j] == x;
    }
  }

  /** Replacing a row by one with the same key keeps the set of keys. */
  lemma ReplaceProductKeys(products: seq<Product>, q: Product)
    ensures Keys(ReplaceProduct(products, q), ProductKey) == Keys(products, ProductKey)
  {
    var r := ReplaceProduct(products, q);
    forall k | k in Keys(products, ProductKey) ensures k in Keys(r, ProductKey) {
      var j :| 0 <= j < |products| && ProductKey(products[j]) == k;
      assert r[j] in r;
    }
    forall k | k in Keys(r, ProductKey) ensures k in Keys(products, ProductKey) {
      var j :| 0 <= j < |r| && ProductKey(r[j]) == k;
      assert products[j] in products;
    }
  }

  /** Replacing a row by one with the same key and an existing shop keeps the database well-formed. */
  lemma ReplaceProductWellFormed(db: Db, q: Product)
    requires WellFormed(db) && IsProduct(db, q.id) && q.shop in Keys(db.shops, ShopKey)
    ensures WellFormed(db.(products := ReplaceProduct(db.products, q)))
  {
    var db' := db.(products := ReplaceProduct(db.products, q));
    assert ProfilesOk(db') && ShopsOk(db') && TokensOk(db');
    ReplaceKeepsCatalog(db, q);
    ReplaceKeepsActivity(db, q);
  }

  lemma ReplaceKeepsCatalog(db: Db, q: Product)
    requires CatalogOk(db) && IsProduct(db, q.id) && q.shop in Keys(db.shops, ShopKey)
    ensures CatalogOk(db.(products := ReplaceProduct(db.products, q)))
  {
    ReplaceProductUnique(db.products, q);
    ReplaceProductRows(db.products, q);
  }

  lemma ReplaceKeepsActivity(db: Db, q: Product)
    requires ActivityOk(db)
    ensures ActivityOk(db.(products := ReplaceProduct(db.products, q)))
  {
    ReplaceProductKeys(db.products, q);
  }

  /** The in-place update of one product row (the serializer's `save()` of a partial update). */
  method UpdateProduct(m: Marketplace, q: Product)
    requires m.Valid() && IsProduct(m.Snapshot(), q.id) && q.shop in Keys(m.shops, ShopKey)
    modifies m
    ensures m.Valid() && m.Snapshot() == old(m.Snapshot()).(products := ReplaceProduct(old(m.products), q))
  {
    var db := m.Snapshot();
    ReplaceProductWellFormed(db, q);
    m.products := ReplaceProduct(m.products, q);
    assert m.Snapshot() == db.(products := ReplaceProduct(db.products, q));
  }

  /**
   * Product editing. After the same checks as deletion, and then the
   * serializer's verdict `valid` on the patch, the product row is replaced
   * by its patched version; on any failure nothing changes.
   */
  method EditProduct(m: Marketplace, u: int, pid: int, patch: ProductPatch, valid: bool)
    returns (r: Outcome<ListingError>)
    requires m.Valid()
    modifies m
    ensures m.Valid()
    ensures AuthorizeChange(old(m.Snapshot()), u, pid).Err? ==>
      r == Fail(AuthorizeChange(old(m.Snapshot()), u, pid).error)
    ensures AuthorizeChange(old(m.Snapshot()), u, pid).Ok? && !valid ==> r == Fail(Invalid)
    ensures AuthorizeChange(old(m.Snapshot()), u, pid).Ok? && valid ==> r == Pass
    ensures r.Fail? ==> m.Snapshot() == old(m.Snapshot())
    ensures r.Pass? ==>
      var q := ApplyPatch(AuthorizeChange(old(m.Snapshot()), u, pid).value, patch);
      && AuthorizeChange(old(m.Snapshot()), u, pid).Ok? && valid
      && m.Snapshot() == old(m.Snapshot()).(products := ReplaceProduct(old(m.products), q))
  {
    var db := m.Snapshot();
    if !IsUser(db, u) {
      return Fail(UserNotFound);
    }
    if SellerOf(db, u).None? {
      return Fail(NotSeller);
    }
    var product := ProductById(m.products, pid);
    if product.None? {
      return Fail(ProductNotFound);
    }
    var shop := ShopOf(db, u);
    if shop.None? {
      return Fail(NotShopOwner);
    }
    if product.value.shop != shop.value.id {
      return Fail(NotYourProduct);
    }
    if !valid {
      return Fail(Invalid);
    }
    var q := ApplyPatch(product.value, patch);
    assert q.shop in Keys(m.shops, ShopKey) by {
      assert shop.value in m.shops;
    }
    UpdateProduct(m, q);
    r := Pass;
  }

  /** An edit keeps the product's key and shop and every other product; the edited row is present. */
  lemma EditedProductInPlace(db: Db, u: int, pid: int, patch: ProductPatch)
    requires AuthorizeChange(db, u, pid).Ok?
    ensures var q := ApplyPatch(AuthorizeChange(db, u, pid).value, patch);
      var products := ReplaceProduct(db.products, q);
      && q in products && q.id == pid && ProductOwnedBy(db.(products := products), u, pid)
      && forall p: Product :: p.id != pid ==> (p in products <==> p in db.products)
  {
    var p := AuthorizeChange(db, u, pid).value;
    var q := ApplyPatch(p, patch);
    var products := ReplaceProduct(db.products, q);
    assert IsProduct(db, q.id) by { assert p in db.products; }
    ReplaceProductRows(db.products, q);
    var s := ShopOf(db, u).value;
    assert q in products && s in db.shops && q.id == pid && s.owner == u && q.shop == s.id;
  }

  // ---------------------------------------------------------------------
  // Adding a product

  /**
   * The checks of product creation, in the order the view makes them; on
   * success the shop of the requesting seller, which the product will belong to.
   */
  function CheckAddProduct(db: Db, u: int): (r: Result<Shop, ListingError>)
    ensures r == Err(UserNotFound) <==> !IsUser(db, u)
    ensures r == Err(NotSeller) <==> IsUser(db, u) && !IsSeller(db, u)
    ensures r == Err(NotShopOwner) <==> IsUser(db, u) && IsSeller(db, u) && !OwnsShop(db, u)
    ensures r.Err? ==> r.error in {UserNotFound, NotSeller, NotShopOwner}
    ensures r.Ok? ==> r.value in db.shops && r.value.owner == u
  {
    match SellerShop(db, u)
    case Err(NoSuchUser) => Err(UserNotFound)
    case Err(NoSellerProfile) => Err(NotSeller)
    case Err(NoShop) => Err(NotShopOwner)
    case Ok(shop) => Ok(shop)
  }

  /** The fields a client sends for a new product; the shop is not among them. */
  datatype ProductDraft = ProductDraft(category: CategoryId, name: string, price: int, available: int)

  /** Adding a product with a new key in an existing shop keeps the database well-formed. */
  lemma AddProductWellFormed(db: Db, p: Product)
    requires WellFormed(db) && p.shop in Keys(db.shops, ShopKey)
    requires forall x :: x in db.products ==> x.id < p.id
    ensures WellFormed(db.(products := db.products + [p]))
  {
    var db' := db.(products := db.products + [p]);
    UniqueAppend(db.products, p, ProductKey);
    KeysAppend(db.products, p, ProductKey);
    assert ProfilesOk(db') && ShopsOk(db') && TokensOk(db');
    assert CatalogOk(db');
    assert ActivityOk(db');
  }

  /**
   * Product creation. After the checks and the serializer's verdict
   * `valid`, one product with a new key is appended, and its shop is the
   * shop of the requesting seller whatever the client sent; on any failure
   * nothing changes.
   */
  method AddProduct(m: Marketplace, u: int, draft: ProductDraft, valid: bool) returns (r: Outcome<ListingError>)
    requires m.Valid()
    modifies m
    ensures m.Valid()
    ensures CheckAddProduct(old(m.Snapshot()), u).Err? ==> r == Fail(CheckAddProduct(old(m.Snapshot()), u).error)
    ensures CheckAddProduct(old(m.Snapshot()), u).Ok? && !valid ==> r == Fail(Invalid)
    ensures CheckAddProduct(old(m.Snapshot()), u).Ok? && valid ==> r == Pass
    ensures r.Fail? ==> m.Snapshot() == old(m.Snapshot())
    ensures r.Pass? ==>
      var p := Product(NextKey(old(m.products), ProductKey), CheckAddProduct(old(m.Snapshot()), u).value.id,
                       draft.category, draft.name, draft.price, draft.available);
      && CheckAddProduct(old(m.Snapshot()), u).Ok? && valid
      && m.Snapshot() == old(m.Snapshot()).(products := old(m.products) + [p])
      && ProductOwnedBy(m.Snapshot(), u, p.id)
  {
    var db := m.Snapshot();
    var shop := CheckAddProduct(db, u);
    if shop.Err? {
      return Fail(shop.error);
    }
    if !valid {
      return Fail(Invalid);
    }
    var p := Product(NextKey(m.products, ProductKey), shop.value.id,
                     draft.category, draft.name, draft.price, draft.available);
    assert p.shop in Keys(db.shops, ShopKey) by { assert shop.value in db.shops; }
    AddProductWellFormed(db, p);
    m.products := m.products + [p];
    assert m.Snapshot() == db.(products := db.products + [p]);
    assert p in m.products && shop.value in m.shops;
    r := Pass;
  }

  // ---------------------------------------------------------------------
  // Reviews of one product

  function ReviewOf(pid: int): Review -> bool { (r: Review) => r.product == pid }

  /** The review list of product `pid`, in table order. */
  function ReviewsOfProduct(reviews: seq<Review>, pid: int): (r: seq<Review>)
    ensures forall x :: x in r <==> x in reviews && x.product == pid
  {
    Filter(reviews, ReviewOf(pid))
  }

  /** A new review of `review.product` comes last in that product's review list. */
  lemma ReviewsOfProductAppend(reviews: seq<Review>, review: Review)
    ensures ReviewsOfProduct(reviews + [review], review.product) == ReviewsOfProduct(reviews, review.product) + [review]
  {
    FilterAppend(reviews, [review], ReviewOf(review.product));
  }

  /**
   * The checks of review creation in the order they are made: the
   * serializer's verdict first, then the author is an existing user who is
   * a customer, then the product exists.
   */
  function CheckCreateReview(db: Db, u: int, pid: int, valid: bool): (r: Outcome<ListingError>)
    ensures r == Fail(Invalid) <==> !valid
    ensures r == Fail(UserNotFound) <==> valid && !IsUser(db, u)
    ensures r == Fail(NotCustomer) <==> valid && IsUser(db, u) && !IsCustomer(db, u)
    ensures r == Fail(ProductNotFound) <==> valid && IsUser(db, u) && IsCustomer(db, u) && !IsProduct(db, pid)
    ensures r == Pass <==> valid && IsUser(db, u) && IsCustomer(db, u) && IsProduct(db, pid)
  {
    if !valid then Fail(Invalid)
    else if !IsUser(db, u) then Fail(UserNotFound)
    else if !IsCustomer(db, u) then Fail(NotCustomer)
    else if ProductById(db.products, pid).None? then Fail(ProductNotFound)
    else Pass
  }

  /** The fields a client sends for a review; author and product come from the request. */
  datatype ReviewDraft = ReviewDraft(rating: int, comment: string)

  /** Adding a review with a new key by an existing customer of an existing product keeps the database well-formed. */
  lemma AddReviewWellFormed(db: Db, r: Review)
    requires WellFormed(db) && IsProduct(db, r.product) && IsCustomer(db, r.author)
    requires forall x :: x in db.reviews ==> x.id < r.id
    ensures WellFormed(db.(reviews := db.reviews + [r]))
  {
    var db' := db.(reviews := db.reviews + [r]);
    UniqueAppend(db.reviews, r, ReviewKey);
    assert ProfilesOk(db') && ShopsOk(db') && TokensOk(db') && CatalogOk(db');
    assert ActivityOk(db');
  }

  /**
   * Review creation for product `pid` by user `u`. On success one review
   * with a new key is appended, and it is the last of the product's review
   * list; on any failure nothing changes.
   */
  method CreateReview(m: Marketplace, u: UserId, pid: ProductId, draft: ReviewDraft, valid: bool)
    returns (r: Outcome<ListingError>)
    requires m.Valid()
    modifies m
    ensures m.Valid()
    ensures r == CheckCreateReview(old(m.Snapshot()), u, pid, valid)
    ensures r.Fail? ==> m.Snapshot() == old(m.Snapshot())
    ensures r.Pass? ==>
      var review := Review(NextKey(old(m.reviews), ReviewKey), pid, u, draft.rating, draft.comment);
      && m.Snapshot() == old(m.Snapshot()).(reviews := old(m.reviews) + [review])
      && ReviewsOfProduct(m.reviews, pid) == ReviewsOfProduct(old(m.reviews), pid) + [review]
  {
    var db := m.Snapshot();
    r := CheckCreateReview(db, u, pid, valid);
    if r.Pass? {
      var review := Review(NextKey(m.reviews, ReviewKey), pid, u, draft.rating, draft.comment);
      ReviewsOfProductAppend(m.reviews, review);
      AppendReview(m, review);
    }
  }

  /** Appends a review with a new key by an existing customer of an existing product, and changes nothing else. */
  method AppendReview(m: Marketplace, review: Review)
    requires m.Valid() && IsProduct(m.Snapshot(), review.product) && IsCustomer(m.Snapshot(), review.author)
    requires forall x :: x in m.reviews ==> x.id < review.id
    modifies m
    ensures m.Valid()
    ensures m.Snapshot() == old(m.Snapshot()).(reviews := old(m.reviews) + [review])
  {
    AddReviewWellFormed(m.Snapshot(), review);
    m.reviews := m.reviews + [review];
    assert m.Snapshot() == old(m.Snapshot()).(reviews := old(m.reviews) + [review]);
  }
}
