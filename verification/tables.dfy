/**
 * The marketplace's tables as in-memory rows: users and their seller or
 * customer profile, shops, categories, products, reviews, orders and
 * session tokens, with the keys and foreign keys the schema declares.
 */
module Tables {
  import opened Wrappers
  import opened Seqs

  type UserId = nat
  type ShopId = nat
  type CategoryId = nat
  type ProductId = nat
  type ReviewId = nat
  type OrderId = nat

  datatype User = User(id: UserId, username: string)
  /** A seller profile; its primary key is the user it belongs to. */
  datatype Seller = Seller(user: UserId, mobileNo: string, fullAddress: string)
  /** A customer profile; its primary key is the user it belongs to. Balance in cents. */
  datatype Customer = Customer(user: UserId, balance: int, fullAddress: string)
  /** A shop; `owner` is one-to-one with a seller. */
  datatype Shop = Shop(id: ShopId, owner: UserId, name: string, description: string,
                       location: string, hotline: Option<string>)
  datatype Category = Category(id: CategoryId, name: string)
  /** A product of one shop; price in cents, `available` is the stock. */
  datatype Product = Product(id: ProductId, shop: ShopId, category: CategoryId, name: string,
                             price: int, available: int)
  /** A review of one product written by one customer. */
  datatype Review = Review(id: ReviewId, product: ProductId, author: UserId, rating: int, comment: string)
  /** An order of one product by one customer; `status` is the stored text, total price in cents. */
  datatype Order = Order(id: OrderId, customer: UserId, product: ProductId, quantity: int,
                         status: string, totalPrice: int)
  /** A session token; `key` is the primary key and `user` is one-to-one with a user. */
  datatype Token = Token(key: string, user: UserId)

  /** One consistent snapshot of every table. */
  datatype Db = Db(users: seq<User>, sellers: seq<Seller>, customers: seq<Customer>,
                   shops: seq<Shop>, categories: seq<Category>, products: seq<Product>,
                   reviews: seq<Review>, orders: seq<Order>, tokens: seq<Token>)

  // Column projections, used as keys of the tables.
  function UserKey(u: User): int { u.id }
  function SellerKey(s: Seller): int { s.user }
  function CustomerKey(c: Customer): int { c.user }
  function ShopKey(s: Shop): int { s.id }
  function ShopOwner(s: Shop): int { s.owner }
  function CategoryKey(c: Category): int { c.id }
  function ProductKey(p: Product): int { p.id }
  function ReviewKey(r: Review): int { r.id }
  function OrderKey(o: Order): int { o.id }
  function TokenKey(t: Token): string { t.key }
  function TokenUser(t: Token): int { t.user }

  predicate IsUser(db: Db, u: int) { u in Keys(db.users, UserKey) }
  predicate IsSeller(db: Db, u: int) { u in Keys(db.sellers, SellerKey) }
  predicate IsCustomer(db: Db, u: int) { u in Keys(db.customers, CustomerKey) }
  predicate OwnsShop(db: Db, u: int) { u in Keys(db.shops, ShopOwner) }
  predicate IsProduct(db: Db, id: int) { id in Keys(db.products, ProductKey) }

  /** The seller profile of user `u` (`Seller.objects.get(user=u)`). */
  function SellerOf(db: Db, u: int): (r: Option<Seller>)
    ensures r.Some? ==> r.value in db.sellers && r.value.user == u
    ensures r.None? <==> !IsSeller(db, u)
  {
    Find(db.sellers, (s: Seller) => s.user == u)
  }

  /** The shop owned by seller `u` (`Shop.objects.filter(owner=u).first()`). */
  function ShopOf(db: Db, u: int): (r: Option<Shop>)
    ensures r.Some? ==> r.value in db.shops && r.value.owner == u
    ensures r.None? <==> !OwnsShop(db, u)
  {
    Find(db.shops, (s: Shop) => s.owner == u)
  }

  /** The product whose primary key is `id` (`Product.objects.get(id=id)`). */
  function ProductById(products: seq<Product>, id: int): (r: Option<Product>)
    ensures r.Some? ==> r.value in products && r.value.id == id
    ensures r.None? <==> id !in Keys(products, ProductKey)
  {
    Find(products, (p: Product) => p.id == id)
  }

  /** The token whose primary key is `key` (`Token.objects.get(key=key)`). */
  function TokenByKey(tokens: seq<Token>, key: string): (r: Option<Token>)
    ensures r.Some? ==> r.value in tokens && r.value.key == key
    ensures r.None? <==> key !in Keys(tokens, TokenKey)
  {
    Find(tokens, (t: Token) => t.key == key)
  }

  /** The token of user `u` (`Token.objects.get(user=u)`). */
  function TokenOfUser(tokens: seq<Token>, u: int): (r: Option<Token>)
    ensures r.Some? ==> r.value in tokens && r.value.user == u
    ensures r.None? <==> u !in Keys(tokens, TokenUser)
  {
    Find(tokens, (t: Token) => t.user == u)
  }

  /** Why a user cannot be resolved to a shop. */
  datatype OwnershipError = NoSuchUser | NoSellerProfile | NoShop

  /**
   * The shop of user `u`, through the user's seller profile: the lookup
   * chain user, then seller, then shop that the seller views share.
   */
  function SellerShop(db: Db, u: int): (r: Result<Shop, OwnershipError>)
    ensures r == Err(NoSuchUser) <==> !IsUser(db, u)
    ensures r == Err(NoSellerProfile) <==> IsUser(db, u) && !IsSeller(db, u)
    ensures r == Err(NoShop) <==> IsUser(db, u) && IsSeller(db, u) && !OwnsShop(db, u)
    ensures r.Ok? ==> r.value in db.shops && r.value.owner == u
  {
    if !IsUser(db, u) then Err(NoSuchUser)
    else match SellerOf(db, u)
      case None => Err(NoSellerProfile)
      case Some(seller) =>
        match ShopOf(db, seller.user)
        case None => Err(NoShop)
        case Some(shop) => Ok(shop)
  }

  /** In a well-formed database a seller's shop is the one shop whose owner the seller is. */
  lemma SellerShopIsOwnedShop(db: Db, u: int, shop: Shop)
    requires WellFormed(db) && shop in db.shops && shop.owner == u
    ensures SellerShop(db, u) == Ok(shop)
  {
    var r := SellerShop(db, u);
    var i :| 0 <= i < |db.shops| && db.shops[i] == shop;
    var j :| 0 <= j < |db.shops| && db.shops[j] == r.value;
    UniquePair(db.shops, ShopOwner, i, j);
    UniquePair(db.shops, ShopOwner, j, i);
  }

  /** Seller and customer profiles belong to existing users, one profile of each kind per user. */
  predicate ProfilesOk(db: Db)
  {
    && Unique(db.users, UserKey)
    && Unique(db.sellers, SellerKey)
    && Unique(db.customers, CustomerKey)
    && (forall s :: s in db.sellers ==> IsUser(db, s.user))
    && (forall c :: c in db.customers ==> IsUser(db, c.user))
  }

  /** Every shop is owned by a seller, and no seller owns two shops. */
  predicate ShopsOk(db: Db)
  {
    && Unique(db.shops, ShopKey)
    && Unique(db.shops, ShopOwner)
    && (forall s :: s in db.shops ==> IsSeller(db, s.owner))
  }

  /** Every product belongs to an existing shop. */
  predicate CatalogOk(db: Db)
  {
    && Unique(db.categories, CategoryKey)
    && Unique(db.products, ProductKey)
    && (forall p :: p in db.products ==> p.shop in Keys(db.shops, ShopKey))
  }

  /** Every review and order refers to an existing product and customer. */
  predicate ActivityOk(db: Db)
  {
    && Unique(db.reviews, ReviewKey)
    && Unique(db.orders, OrderKey)
    && (forall r :: r in db.reviews ==> IsProduct(db, r.product) && IsCustomer(db, r.author))
    && (forall o :: o in db.orders ==> IsProduct(db, o.product) && IsCustomer(db, o.customer))
  }

  /** Token keys are unique, and each user has at most one token. */
  predicate TokensOk(db: Db)
  {
    && Unique(db.tokens, TokenKey)
    && Unique(db.tokens, TokenUser)
    && (forall t :: t in db.tokens ==> IsUser(db, t.user))
  }

  /** The primary-key, one-to-one and foreign-key constraints of the schema. */
  predicate WellFormed(db: Db)
  {
    ProfilesOk(db) && ShopsOk(db) && CatalogOk(db) && ActivityOk(db) && TokensOk(db)
  }

  /** The database that the views read and write, one field per table. */
  class Marketplace {
    var users: seq<User>
    var sellers: seq<Seller>
    var customers: seq<Customer>
    var shops: seq<Shop>
    var categories: seq<Category>
    var products: seq<Product>
    var reviews: seq<Review>
    var orders: seq<Order>
    var tokens: seq<Token>

    /** The current contents of every table. */
    function Snapshot(): Db
      reads this
    {
      Db(users, sellers, customers, shops, categories, products, reviews, orders, tokens)
    }

    predicate Valid()
      reads this
    {
      WellFormed(Snapshot())
    }

    constructor (db: Db)
      requires WellFormed(db)
      ensures Valid() && Snapshot() == db
    {
      users, sellers, customers := db.users, db.sellers, db.customers;
      shops, categories, products := db.shops, db.categories, db.products;
      reviews, orders, tokens := db.reviews, db.orders, db.tokens;
    }
  }
}
