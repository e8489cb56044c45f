/**
 * The shop views of shop/views.py: the `SpecificShop` filter of the shop
 * list and shop creation with its one-shop-per-seller rule. The dashboard
 * of the same file is in module Dashboard.
 */
module ShopViews {
  import opened Wrappers
  import opened Seqs
  import opened Tables

  function ShopWithId(id: nat): Shop -> bool { (s: Shop) => s.id == id }
  function ShopOwnedBy(u: nat): Shop -> bool { (s: Shop) => s.owner == u }

  /**
   * The shop list filter. `allShops` is the whole shop table and `queryset`
   * the list it is applied to; a given `shopId` and then a given `userId`
   * each replace the result by a fresh selection from the whole table, so
   * `userId` wins over `shopId`. `None` stands for a parameter that is
   * absent or empty.
   */
  function SpecificShop(allShops: seq<Shop>, queryset: seq<Shop>, shopId: Option<nat>, userId: Option<nat>): (r: seq<Shop>)
    ensures userId.Some? ==> forall s :: s in r <==> s in allShops && s.owner == userId.value
    ensures userId.None? && shopId.Some? ==> forall s :: s in r <==> s in allShops && s.id == shopId.value
    ensures userId.None? && shopId.None? ==> r == queryset
  {
    var byId := if shopId.Some? then Filter(allShops, ShopWithId(shopId.value)) else queryset;
    if userId.Some? then Filter(allShops, ShopOwnedBy(userId.value)) else byId
  }

  /** With a well-formed shop table, filtering by a seller yields at most that seller's one shop. */
  lemma SpecificShopByOwnerAtMostOne(db: Db, queryset: seq<Shop>, shopId: Option<nat>, u: nat)
    requires WellFormed(db)
    ensures |SpecificShop(db.shops, queryset, shopId, Some(u))| <= 1
  {
    var r := SpecificShop(db.shops, queryset, shopId, Some(u));
    FilterUnique(db.shops, ShopOwnedBy(u), ShopOwner);
    assert forall i :: 0 <= i < |r| ==> r[i] in r && ShopOwner(r[i]) == u;
    UniqueSameKey(r, ShopOwner, u);
  }

  datatype ShopError = UserNotFound | NotSeller | AlreadyOwnsShop | Invalid

  /** The fields a client sends for a new shop. */
  datatype ShopDraft = ShopDraft(name: string, description: string, location: string, hotline: Option<string>)

  /** The checks of shop creation, in the order the view makes them. */
  function CheckCreateShop(db: Db, owner: int): (r: Outcome<ShopError>)
    ensures r == Fail(UserNotFound) <==> !IsUser(db, owner)
    ensures r == Fail(NotSeller) <==> IsUser(db, owner) && !IsSeller(db, owner)
    ensures r == Fail(AlreadyOwnsShop) <==> IsUser(db, owner) && IsSeller(db, owner) && OwnsShop(db, owner)
    ensures r == Pass <==> IsUser(db, owner) && IsSeller(db, owner) && !OwnsShop(db, owner)
  {
    if !IsUser(db, owner) then Fail(UserNotFound)
    else if SellerOf(db, owner).None? then Fail(NotSeller)
    else if ShopOf(db, owner).Some? then Fail(AlreadyOwnsShop)
    else Pass
  }

  /**
   * Shop creation. `valid` is the serializer's verdict on `draft`. On
   * success one shop owned by `owner` is appended with a new primary key,
   * and it is the only shop `owner` owns; on any failure nothing changes.
   */
  method CreateShop(m: Marketplace, owner: UserId, draft: ShopDraft, valid: bool) returns (r: Outcome<ShopError>)
    requires m.Valid()
    modifies m
    ensures m.Valid()
    ensures CheckCreateShop(old(m.Snapshot()), owner).Fail? ==> r == CheckCreateShop(old(m.Snapshot()), owner)
    ensures CheckCreateShop(old(m.Snapshot()), owner).Pass? ==> r == if valid then Pass else Fail(Invalid)
    ensures r.Fail? ==> m.Snapshot() == old(m.Snapshot())
    ensures r.Pass? ==>
      var shop := Shop(NextKey(old(m.shops), ShopKey), owner, draft.name, draft.description,
                       draft.location, draft.hotline);
      && m.Snapshot() == old(m.Snapshot()).(shops := old(m.shops) + [shop])
      && forall s :: s in m.shops && s.owner == owner ==> s == shop
  {
    var db := m.Snapshot();
    if !IsUser(db, owner) {
      return Fail(UserNotFound);
    }
    if SellerOf(db, owner).None? {
      return Fail(NotSeller);
    }
    if ShopOf(db, owner).Some? {
      return Fail(AlreadyOwnsShop);
    }
    if !valid {
      return Fail(Invalid);
    }
    var shop := Shop(NextKey(m.shops, ShopKey), owner, draft.name, draft.description,
                     draft.location, draft.hotline);
    AddShopWellFormed(db, shop);
    m.shops := m.shops + [shop];
    assert m.Snapshot() == db.(shops := db.shops + [shop]);
    r := Pass;
  }

  /** Adding a shop with a new key for a seller without a shop keeps the database well-formed. */
  lemma AddShopWellFormed(db: Db, shop: Shop)
    requires WellFormed(db)
    requires IsSeller(db, shop.owner) && !OwnsShop(db, shop.owner)
    requires forall s :: s in db.shops ==> s.id < shop.id
    ensures WellFormed(db.(shops := db.shops + [shop]))
  {
    var db' := db.(shops := db.shops + [shop]);
    assert ProfilesOk(db') && ActivityOk(db') && TokensOk(db');
    assert ShopsOk(db') by {
      UniqueAppend(db.shops, shop, ShopKey);
      UniqueAppend(db.shops, shop, ShopOwner);
    }
    assert CatalogOk(db') by {
      KeysAppend(db.shops, shop, ShopKey);
    }
  }
}
