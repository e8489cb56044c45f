/**
 * The seller dashboard of shop/views.py: the user is resolved to a seller
 * and then to that seller's shop, and the shop's products, reviews and
 * orders are reduced to counts, status-partitioned sums and an engagement
 * score. Nothing is written.
 */
module Dashboard {
  import opened Wrappers
  import opened Seqs
  import opened Tables

  const COMPLETED: string := "Completed"
  const CANCELLED: string := "Cancelled"
  const PENDING: string := "Pending"

  /** The three statuses the dashboard partitions orders into. */
  predicate IsKnownStatus(status: string)
  {
    status == COMPLETED || status == CANCELLED || status == PENDING
  }

  /** Why the dashboard is refused. `UserNotFound` is the uncaught lookup failure of the view. */
  datatype DashboardError = UserNotFound | SellerNotFound | ShopDoesNotExist

  /** The metrics returned for one shop. `orderCount` counts rows, `totalOrders` sums quantities. */
  datatype Metrics = Metrics(productCount: nat, reviews: nat, orderCount: nat,
                             totalOrders: int, availableStock: int, totalSold: int,
                             totalCancelled: int, totalPending: int, totalEarning: int,
                             engagementScore: int)

  /** The shop of product `pid`, through the product table (the `product__shop` join). */
  function ProductShop(products: seq<Product>, pid: int): (r: Option<ShopId>)
    ensures r.Some? <==> exists p :: p in products && p.id == pid
    ensures r.Some? ==> exists p :: p in products && p.id == pid && p.shop == r.value
  {
    match ProductById(products, pid)
    case Some(p) => Some(p.shop)
    case None => None
  }

  // The row selections of the dashboard's querysets, as predicates on one row.
  function OfShop(s: ShopId): Product -> bool { (p: Product) => p.shop == s }
  function ReviewOfShop(products: seq<Product>, s: ShopId): Review -> bool
  {
    (r: Review) => ProductShop(products, r.product) == Some(s)
  }
  function OrderOfShop(products: seq<Product>, s: ShopId): Order -> bool
  {
    (o: Order) => ProductShop(products, o.product) == Some(s)
  }
  function HasStatus(status: string): Order -> bool { (o: Order) => o.status == status }

  /** `Product.objects.filter(shop=s)`: the products of shop `s`. */
  function ShopProducts(db: Db, s: ShopId): (r: seq<Product>)
    ensures forall p :: p in r <==> p in db.products && p.shop == s
  {
    Filter(db.products, OfShop(s))
  }

  /** `Review.objects.filter(product__shop=s)`: the reviews of products of shop `s`. */
  function ShopReviews(db: Db, s: ShopId): (r: seq<Review>)
    ensures forall x :: x in r <==> x in db.reviews && ProductShop(db.products, x.product) == Some(s)
  {
    Filter(db.reviews, ReviewOfShop(db.products, s))
  }

  /** `Order.objects.filter(product__shop=s)`: the orders of products of shop `s`. */
  function ShopOrders(db: Db, s: ShopId): (r: seq<Order>)
    ensures forall o :: o in r <==> o in db.orders && ProductShop(db.products, o.product) == Some(s)
  {
    Filter(db.orders, OrderOfShop(db.products, s))
  }

  /** `orders.filter(status=status)` */
  function WithStatus(orders: seq<Order>, status: string): seq<Order>
  {
    Filter(orders, HasStatus(status))
  }

  function Quantity(o: Order): int { o.quantity }
  function TotalPrice(o: Order): int { o.totalPrice }
  function Available(p: Product): int { p.available }

  /** The number of cents in one unit of currency. */
  const CENTS: int := 100

  /**
   * The engagement score, in cents: a weighted count of reviews, ordered
   * units and products, plus completed revenue, minus cancelled units. The
   * view adds the revenue in currency units to the counts, so every count
   * weighs one currency unit, that is `CENTS` cents.
   */
  function EngagementScore(reviews: int, totalOrders: int, productCount: int,
                           totalEarning: int, totalCancelled: int): (score: int)
    ensures (score - totalEarning) % CENTS == 0
    ensures (score - totalEarning) / CENTS == reviews * 5 + totalOrders * 2 + productCount * 3 - totalCancelled
  {
    (reviews * 5 + totalOrders * 2 + productCount * 3 - totalCancelled) * CENTS + totalEarning
  }

  /**
   * The reduction of one shop's rows to its metrics: counts of rows, sums of
   * stock and order quantities split by status, completed revenue, and the
   * engagement score. Every sum over no rows is 0.
   */
  function Aggregate(products: seq<Product>, reviews: nat, orders: seq<Order>): (m: Metrics)
    ensures m.productCount == |products| && m.reviews == reviews && m.orderCount == |orders|
    ensures products == [] ==> m.availableStock == 0
    ensures orders == [] ==>
      m.totalOrders == 0 && m.totalSold == 0 && m.totalCancelled == 0 && m.totalPending == 0 && m.totalEarning == 0
    ensures m.engagementScore
         == (m.reviews * 5 + m.totalOrders * 2 + m.productCount * 3 - m.totalCancelled) * CENTS + m.totalEarning
  {
    var productCount := |products|;
    var totalOrders := SumOf(orders, Quantity);
    var totalCancelled := SumOf(WithStatus(orders, CANCELLED), Quantity);
    var totalEarning := SumOf(WithStatus(orders, COMPLETED), TotalPrice);
    Metrics(productCount := productCount,
            reviews := reviews,
            orderCount := |orders|,
            totalOrders := totalOrders,
            availableStock := SumOf(products, Available),
            totalSold := SumOf(WithStatus(orders, COMPLETED), Quantity),
            totalCancelled := totalCancelled,
            totalPending := SumOf(WithStatus(orders, PENDING), Quantity),
            totalEarning := totalEarning,
            engagementScore := EngagementScore(reviews, totalOrders, productCount, totalEarning, totalCancelled))
  }

  /** The metrics of shop `s`: its products, the reviews of its products and the orders of its products. */
  function ShopMetrics(db: Db, s: ShopId): (m: Metrics)
    ensures m.productCount == |ShopProducts(db, s)| && m.reviews == |ShopReviews(db, s)|
    ensures m.orderCount == |ShopOrders(db, s)|
    ensures m.engagementScore
         == (m.reviews * 5 + m.totalOrders * 2 + m.productCount * 3 - m.totalCancelled) * CENTS + m.totalEarning
  {
    Aggregate(ShopProducts(db, s), |ShopReviews(db, s)|, ShopOrders(db, s))
  }

  /** The dashboard view: the metrics of the shop owned by user `u`. */
  function MyDashboard(db: Db, u: UserId): (r: Result<Metrics, DashboardError>)
    ensures !IsUser(db, u) ==> r == Err(UserNotFound)
    ensures IsUser(db, u) && !IsSeller(db, u) ==> r == Err(SellerNotFound)
    ensures IsUser(db, u) && IsSeller(db, u) && !OwnsShop(db, u) ==> r == Err(ShopDoesNotExist)
    ensures IsUser(db, u) && IsSeller(db, u) && OwnsShop(db, u) ==>
              r.Ok? && exists shop :: shop in db.shops && shop.owner == u && r.value == ShopMetrics(db, shop.id)
  {
    match SellerShop(db, u)
    case Err(NoSuchUser) => Err(UserNotFound)
    case Err(NoSellerProfile) => Err(SellerNotFound)
    case Err(NoShop) => Err(ShopDoesNotExist)
    case Ok(shop) => Ok(ShopMetrics(db, shop.id))
  }

  /** In a well-formed database the dashboard reports on the one shop the user owns. */
  lemma DashboardOfOwnedShop(db: Db, u: UserId, shop: Shop)
    requires WellFormed(db) && shop in db.shops && shop.owner == u
    ensures MyDashboard(db, u) == Ok(ShopMetrics(db, shop.id))
  {
    SellerShopIsOwnedShop(db, u, shop);
  }

  /** A shop without products reports no products and no stock, not a missing value. */
  lemma NoProductsNoStock(db: Db, s: ShopId)
    requires forall p :: p in db.products ==> p.shop != s
    ensures ShopMetrics(db, s).productCount == 0 && ShopMetrics(db, s).availableStock == 0
  {
    FilterNone(db.products, OfShop(s));
  }

  /** A shop without orders reports every order total as 0, not a missing value. */
  lemma NoOrdersZeroTotals(db: Db, s: ShopId)
    requires forall o :: o in db.orders ==> ProductShop(db.products, o.product) != Some(s)
    ensures var m := ShopMetrics(db, s);
      && m.orderCount == 0 && m.totalOrders == 0 && m.totalSold == 0
      && m.totalCancelled == 0 && m.totalPending == 0 && m.totalEarning == 0
  {
    FilterNone(db.orders, OrderOfShop(db.products, s));
  }

  /** Completed, cancelled and pending quantities add up to the total quantity. */
  lemma {:induction false} StatusPartition(orders: seq<Order>)
    requires forall o :: o in orders ==> IsKnownStatus(o.status)
    ensures SumOf(WithStatus(orders, COMPLETED), Quantity)
          + SumOf(WithStatus(orders, CANCELLED), Quantity)
          + SumOf(WithStatus(orders, PENDING), Quantity)
         == SumOf(orders, Quantity)
  {
    if orders != [] {
      var o, rest := orders[0], orders[1..];
      assert forall x :: x in rest ==> x in orders;
      StatusPartition(rest);
      SumOfWithStatusCons(orders, COMPLETED);
      SumOfWithStatusCons(orders, CANCELLED);
      SumOfWithStatusCons(orders, PENDING);
    }
  }

  /** The first order adds its quantity to the sum of its own status only. */
  lemma SumOfWithStatusCons(orders: seq<Order>, status: string)
    requires orders != []
    ensures SumOf(WithStatus(orders, status), Quantity)
         == (if orders[0].status == status then orders[0].quantity else 0) + SumOf(WithStatus(orders[1..], status), Quantity)
  {
    var w := WithStatus(orders, status);
    if orders[0].status == status {
      assert w == [orders[0]] + WithStatus(orders[1..], status);
      assert w[0] == orders[0] && w[1..] == WithStatus(orders[1..], status);
    } else {
      assert w == WithStatus(orders[1..], status);
    }
  }

  /**
   * Whatever the statuses, with non-negative quantities the completed,
   * cancelled and pending quantities add up to at most the total quantity.
   */
  lemma {:induction false} StatusPartsAtMostTotal(orders: seq<Order>)
    requires forall o :: o in orders ==> o.quantity >= 0
    ensures SumOf(WithStatus(orders, COMPLETED), Quantity)
          + SumOf(WithStatus(orders, CANCELLED), Quantity)
          + SumOf(WithStatus(orders, PENDING), Quantity)
         <= SumOf(orders, Quantity)
  {
    if orders != [] {
      var rest := orders[1..];
      assert forall x :: x in rest ==> x in orders;
      StatusPartsAtMostTotal(rest);
      SumOfWithStatusCons(orders, COMPLETED);
      SumOfWithStatusCons(orders, CANCELLED);
      SumOfWithStatusCons(orders, PENDING);
    }
  }

  /** With non-negative quantities, sold + cancelled + pending never exceeds total_orders. */
  lemma DashboardPartsSumBounded(db: Db, s: ShopId)
    requires forall o :: o in ShopOrders(db, s) ==> o.quantity >= 0
    ensures var m := ShopMetrics(db, s);
      m.totalSold + m.totalCancelled + m.totalPending <= m.totalOrders
  {
    StatusPartsAtMostTotal(ShopOrders(db, s));
  }

  /** When every order of the shop has a known status, sold + cancelled + pending == total. */
  lemma DashboardPartition(db: Db, s: ShopId)
    requires forall o :: o in ShopOrders(db, s) ==> IsKnownStatus(o.status)
    ensures var m := ShopMetrics(db, s);
      m.totalSold + m.totalCancelled + m.totalPending == m.totalOrders
  {
    StatusPartition(ShopOrders(db, s));
  }

  /** With non-negative quantities each status part lies between 0 and the total quantity. */
  lemma DashboardPartsBounded(db: Db, s: ShopId)
    requires forall o :: o in ShopOrders(db, s) ==> o.quantity >= 0
    ensures var m := ShopMetrics(db, s);
      && 0 <= m.totalSold <= m.totalOrders
      && 0 <= m.totalCancelled <= m.totalOrders
      && 0 <= m.totalPending <= m.totalOrders
  {
    var os := ShopOrders(db, s);
    StatusPartsAtMostTotal(os);
    StatusPartNonNegative(os, COMPLETED);
    StatusPartNonNegative(os, CANCELLED);
    StatusPartNonNegative(os, PENDING);
  }

  /** With non-negative quantities the quantity of the orders with one status is non-negative. */
  lemma StatusPartNonNegative(orders: seq<Order>, status: string)
    requires forall o :: o in orders ==> o.quantity >= 0
    ensures SumOf(WithStatus(orders, status), Quantity) >= 0
  {
    var w := WithStatus(orders, status);
    assert forall i :: 0 <= i < |w| ==> w[i] in orders;
    SumOfNonNegative(w, Quantity);
  }

  /** `order_count` counts rows and `total_orders` sums quantities: with quantities of at least 1, rows never exceed quantity. */
  lemma RowCountAtMostQuantity(db: Db, s: ShopId)
    requires forall o :: o in ShopOrders(db, s) ==> o.quantity >= 1
    ensures ShopMetrics(db, s).orderCount <= ShopMetrics(db, s).totalOrders
  {
    var os := ShopOrders(db, s);
    assert forall i :: 0 <= i < |os| ==> os[i] in os;
    SumOfAtLeastCount(os, Quantity);
  }

  /** One pending order of quantity 5 counts as one row but five units. */
  lemma SingleOrderOfFive()
    ensures var db := Db([User(7, "ana")], [Seller(7, "", "")], [Customer(8, 0, "")],
                         [Shop(1, 7, "", "", "", None)], [], [Product(3, 1, 2, "mango", 150, 4)],
                         [], [Order(9, 8, 3, 5, PENDING, 750)], []);
      ShopMetrics(db, 1).orderCount == 1 && ShopMetrics(db, 1).totalOrders == 5
  {
  }

  /**
   * The worked example: stock 5 and 7, one review, a completed order of 2 units
   * for 20.00, a cancelled one of 1 unit for 10.00 and a pending one of 3 units
   * for 30.00. The score is 1*5 + 6*2 + 2*3 + 20.00 - 1 = 42.00, that is 4200 cents.
   */
  lemma WorkedScenario()
    ensures Aggregate([Product(1, 1, 1, "mango", 400, 5), Product(2, 1, 1, "guava", 300, 7)], 1,
                      [Order(1, 9, 1, 2, COMPLETED, 2000), Order(2, 9, 2, 1, CANCELLED, 1000),
                       Order(3, 9, 1, 3, PENDING, 3000)])
         == Metrics(productCount := 2, reviews := 1, orderCount := 3, totalOrders := 6,
                    availableStock := 12, totalSold := 2, totalCancelled := 1, totalPending := 3,
                    totalEarning := 2000, engagementScore := 4200)
  {
    var o1, o2, o3 := Order(1, 9, 1, 2, COMPLETED, 2000), Order(2, 9, 2, 1, CANCELLED, 1000), Order(3, 9, 1, 3, PENDING, 3000);
    var os := [o1, o2, o3];
    ScenarioStatuses(o1, o2, o3);
    ScenarioSums(o1, o2, o3);
    var ps := [Product(1, 1, 1, "mango", 400, 5), Product(2, 1, 1, "guava", 300, 7)];
    assert ps[1..] == [ps[1]];
    assert SumOf(ps, Available) == 12;
    var m := Aggregate(ps, 1, os);
    assert m.totalOrders == 6 && m.totalSold == 2 && m.totalCancelled == 1 && m.totalPending == 3;
    assert m.totalEarning == 2000 && m.availableStock == 12 && m.productCount == 2 && m.orderCount == 3;
  }

  /** The status split of the worked example's three orders. */
  lemma ScenarioStatuses(o1: Order, o2: Order, o3: Order)
    requires o1.status == COMPLETED && o2.status == CANCELLED && o3.status == PENDING
    ensures WithStatus([o1, o2, o3], COMPLETED) == [o1]
    ensures WithStatus([o1, o2, o3], CANCELLED) == [o2]
    ensures WithStatus([o1, o2, o3], PENDING) == [o3]
  {
    assert COMPLETED[1] != CANCELLED[1] && COMPLETED[0] != PENDING[0] && CANCELLED[0] != PENDING[0];
    var os := [o1, o2, o3];
    assert os[1..] == [o2, o3] && os[1..][1..] == [o3];
    assert WithStatus([o3], COMPLETED) == [] && WithStatus([o2, o3], COMPLETED) == [];
    assert WithStatus([o3], CANCELLED) == [] && WithStatus([o2, o3], CANCELLED) == [o2];
    assert WithStatus([o3], PENDING) == [o3] && WithStatus([o2, o3], PENDING) == [o3];
  }

  /** The sums of the worked example's three orders. */
  lemma ScenarioSums(o1: Order, o2: Order, o3: Order)
    requires o1.quantity == 2 && o1.totalPrice == 2000 && o2.quantity == 1 && o3.quantity == 3
    ensures SumOf([o1, o2, o3], Quantity) == 6
    ensures SumOf([o1], Quantity) == 2 && SumOf([o1], TotalPrice) == 2000
    ensures SumOf([o2], Quantity) == 1 && SumOf([o3], Quantity) == 3
  {
    var os := [o1, o2, o3];
    assert os[1..] == [o2, o3] && os[1..][1..] == [o3];
    assert SumOf([o3], Quantity) == 3;
    assert SumOf([o2, o3], Quantity) == 4;
  }

  /** An order for another shop's product leaves every metric of shop `s` unchanged. */
  lemma ForeignOrderIgnored(db: Db, s: ShopId, o: Order)
    requires ProductShop(db.products, o.product) != Some(s)
    ensures ShopMetrics(db.(orders := db.orders + [o]), s) == ShopMetrics(db, s)
  {
    var db' := db.(orders := db.orders + [o]);
    FilterAppend(db.orders, [o], OrderOfShop(db.products, s));
    assert Filter([o], OrderOfShop(db.products, s)) == [];
    assert ShopOrders(db', s) == ShopOrders(db, s);
    assert ShopProducts(db', s) == ShopProducts(db, s);
    assert ShopReviews(db', s) == ShopReviews(db, s);
  }

  /** A review of another shop's product leaves every metric of shop `s` unchanged. */
  lemma ForeignReviewIgnored(db: Db, s: ShopId, r: Review)
    requires ProductShop(db.products, r.product) != Some(s)
    ensures ShopMetrics(db.(reviews := db.reviews + [r]), s) == ShopMetrics(db, s)
  {
    var db' := db.(reviews := db.reviews + [r]);
    FilterAppend(db.reviews, [r], ReviewOfShop(db.products, s));
    assert Filter([r], ReviewOfShop(db.products, s)) == [];
    assert ShopReviews(db', s) == ShopReviews(db, s);
    assert ShopOrders(db', s) == ShopOrders(db, s);
    assert ShopProducts(db', s) == ShopProducts(db, s);
  }

  /** A new product of another shop leaves every metric of shop `s` unchanged. */
  lemma ForeignProductIgnored(db: Db, s: ShopId, p: Product)
    requires p.shop != s && p.id !in Keys(db.products, ProductKey)
    ensures ShopMetrics(db.(products := db.products + [p]), s) == ShopMetrics(db, s)
  {
    var db' := db.(products := db.products + [p]);
    FilterAppend(db.products, [p], OfShop(s));
    assert Filter([p], OfShop(s)) == [];
    assert ShopProducts(db', s) == ShopProducts(db, s);
    forall pid ensures (ProductShop(db'.products, pid) == Some(s)) == (ProductShop(db.products, pid) == Some(s)) {
      FindAppend(db.products, [p], (x: Product) => x.id == pid);
    }
    FilterCongruent(db.reviews, ReviewOfShop(db'.products, s), ReviewOfShop(db.products, s));
    FilterCongruent(db.orders, OrderOfShop(db'.products, s), OrderOfShop(db.products, s));
    assert ShopReviews(db', s) == ShopReviews(db, s);
    assert ShopOrders(db', s) == ShopOrders(db, s);
  }
}
