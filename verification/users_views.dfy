/**
 * The account views of users/views.py: the `user_id` filters of the user,
 * seller and customer lists, and the session-token handling of login and
 * logout.
 */
module UserViews {
  import opened Wrappers
  import opened Seqs
  import opened Tables

  // ---------------------------------------------------------------------
  // List filters

  function UserWithId(u: nat): User -> bool { (x: User) => x.id == u }

  /** The user list filter: narrowed to the user `userId` when it is given, unchanged otherwise. */
  function SpecificUser(queryset: seq<User>, userId: Option<nat>): (r: seq<User>)
    ensures userId.None? ==> r == queryset
    ensures userId.Some? ==> forall x :: x in r <==> x in queryset && x.id == userId.value
  {
    if userId.Some? then Filter(queryset, UserWithId(userId.value)) else queryset
  }

  /** With unique user keys the filtered user list has at most one row. */
  lemma SpecificUserAtMostOne(queryset: seq<User>, u: nat)
    requires Unique(queryset, UserKey)
    ensures |SpecificUser(queryset, Some(u))| <= 1
  {
    var r := SpecificUser(queryset, Some(u));
    FilterUnique(queryset, UserWithId(u), UserKey);
    assert forall i :: 0 <= i < |r| ==> r[i] in r && UserKey(r[i]) == u;
    UniqueSameKey(r, UserKey, u);
  }

  function ProfileOfUser<T>(owner: T -> int, u: nat): T -> bool { (x: T) => owner(x) == u }

  /**
   * The filter shared by the seller and the customer lists: a profile's
   * primary key is its user, given by `owner` (`SellerKey` or
   * `CustomerKey`); the list is narrowed to the profile of `userId` when it
   * is given, unchanged otherwise.
   */
  function SpecificSellerAndCustomer<T(!new)>(queryset: seq<T>, owner: T -> int, userId: Option<nat>): (r: seq<T>)
    ensures userId.None? ==> r == queryset
    ensures userId.Some? ==> forall x :: x in r <==> x in queryset && owner(x) == userId.value
  {
    if userId.Some? then Filter(queryset, ProfileOfUser(owner, userId.value)) else queryset
  }

  /** With unique profile keys the filtered list has at most one row. */
  lemma ProfileFilterAtMostOne<T(!new)>(queryset: seq<T>, owner: T -> int, u: nat)
    requires Unique(queryset, owner)
    ensures |SpecificSellerAndCustomer(queryset, owner, Some(u))| <= 1
  {
    var r := SpecificSellerAndCustomer(queryset, owner, Some(u));
    FilterUnique(queryset, ProfileOfUser(owner, u), owner);
    assert forall i :: 0 <= i < |r| ==> r[i] in r && owner(r[i]) == u;
    UniqueSameKey(r, owner, u);
  }

  /** In a well-formed database the seller list filtered by a user holds that user's profile, if any. */
  lemma SpecificSellerIsProfile(db: Db, u: nat)
    requires WellFormed(db)
    ensures var r := SpecificSellerAndCustomer(db.sellers, SellerKey, Some(u));
      |r| <= 1 && (|r| == 1 <==> IsSeller(db, u)) && (|r| == 1 ==> SellerOf(db, u) == Some(r[0]))
  {
    var r := SpecificSellerAndCustomer(db.sellers, SellerKey, Some(u));
    assert Unique(db.sellers, SellerKey);
    ProfileFilterAtMostOne(db.sellers, SellerKey, u);
    if IsSeller(db, u) {
      var s :| s in db.sellers && SellerKey(s) == u;
      assert s in r;
    }
    if |r| == 1 {
      assert r[0] in db.sellers;
      SameSellerKey(db.sellers, SellerOf(db, u).value, r[0]);
    }
  }

  lemma SameSellerKey(sellers: seq<Seller>, a: Seller, b: Seller)
    requires Unique(sellers, SellerKey) && a in sellers && b in sellers && a.user == b.user
    ensures a == b
  {
    var i :| 0 <= i < |sellers| && sellers[i] == a;
    var j :| 0 <= j < |sellers| && sellers[j] == b;
    UniquePair(sellers, SellerKey, i, j);
    UniquePair(sellers, SellerKey, j, i);
  }

  /** In a well-formed database the customer list filtered by a user holds that user's profile, if any. */
  lemma SpecificCustomerIsProfile(db: Db, u: nat)
    requires WellFormed(db)
    ensures var r := SpecificSellerAndCustomer(db.customers, CustomerKey, Some(u));
      |r| <= 1 && (|r| == 1 <==> IsCustomer(db, u))
  {
    var r := SpecificSellerAndCustomer(db.customers, CustomerKey, Some(u));
    assert Unique(db.customers, CustomerKey);
    ProfileFilterAtMostOne(db.customers, CustomerKey, u);
    if IsCustomer(db, u) {
      var c :| c in db.customers && CustomerKey(c) == u;
      assert c in r;
    }
    if |r| == 1 {
      assert r[0] in db.customers;
    }
  }

  // ---------------------------------------------------------------------
  // Login

  datatype LoginError = LoginInvalid | BadCredentials

  /**
   * `Token.objects.get_or_create(user=u)`: the user's token when there is
   * one, with the table unchanged; otherwise a new token under `freshKey`,
   * appended to the table. The result is the token and the new table.
   */
  function GetOrCreateToken(tokens: seq<Token>, u: UserId, freshKey: string): (r: (Token, seq<Token>))
    ensures r.0 in r.1 && r.0.user == u
    ensures u in Keys(tokens, TokenUser) ==> r.1 == tokens
    ensures u !in Keys(tokens, TokenUser) ==> r.0 == Token(freshKey, u) && r.1 == tokens + [r.0]
  {
    match TokenOfUser(tokens, u)
    case Some(t) => (t, tokens)
    case None => var t := Token(freshKey, u); (t, tokens + [t])
  }

  /**
   * A second get-or-create for the same user returns the same token, leaves
   * the table as the first left it, and ignores the key offered.
   */
  lemma GetOrCreateTwice(tokens: seq<Token>, u: UserId, key1: string, key2: string)
    ensures var (t1, tokens1) := GetOrCreateToken(tokens, u, key1);
      GetOrCreateToken(tokens1, u, key2) == (t1, tokens1)
  {
    var (t1, tokens1) := GetOrCreateToken(tokens, u, key1);
    var t := TokenOfUser(tokens1, u).value;
    if TokenOfUser(tokens, u).None? {
      FindAppend(tokens, [t1], (t: Token) => t.user == u);
    }
  }

  /**
   * Get-or-create with a key not yet in use keeps both token invariants:
   * keys are unique, and every user has at most one token.
   */
  lemma GetOrCreateKeepsOneTokenPerUser(tokens: seq<Token>, u: UserId, freshKey: string)
    requires Unique(tokens, TokenKey) && Unique(tokens, TokenUser)
    requires freshKey !in Keys(tokens, TokenKey)
    ensures Unique(GetOrCreateToken(tokens, u, freshKey).1, TokenKey)
    ensures Unique(GetOrCreateToken(tokens, u, freshKey).1, TokenUser)
  {
    if u !in Keys(tokens, TokenUser) {
      var t := Token(freshKey, u);
      assert forall i :: 0 <= i < |tokens| ==> tokens[i] in tokens;
      UniqueAppend(tokens, t, TokenKey);
      UniqueAppend(tokens, t, TokenUser);
    }
  }

  /** The token table after get-or-create with a new key keeps the database well-formed. */
  lemma LoginWellFormed(db: Db, u: UserId, freshKey: string)
    requires WellFormed(db) && IsUser(db, u) && freshKey !in Keys(db.tokens, TokenKey)
    ensures WellFormed(db.(tokens := GetOrCreateToken(db.tokens, u, freshKey).1))
  {
    var db' := db.(tokens := GetOrCreateToken(db.tokens, u, freshKey).1);
    GetOrCreateKeepsOneTokenPerUser(db.tokens, u, freshKey);
    assert ProfilesOk(db') && ShopsOk(db') && CatalogOk(db') && ActivityOk(db');
    assert TokensOk(db');
  }

  /**
   * Login. `valid` is the serializer's verdict on the request and
   * `authenticated` is what the credential check returns: the user, or
   * `None` when the credentials are wrong. `freshKey` is the key a new
   * token would get; key generation is random and yields a key not in use.
   * On success the user's token, old or new, is returned.
   */
  method Login(m: Marketplace, valid: bool, authenticated: Option<UserId>, freshKey: string)
    returns (r: Result<Token, LoginError>)
    requires m.Valid()
    requires authenticated.Some? ==> IsUser(m.Snapshot(), authenticated.value)
    requires freshKey !in Keys(m.tokens, TokenKey)
    modifies m
    ensures m.Valid()
    ensures !valid ==> r == Err(LoginInvalid)
    ensures valid && authenticated.None? ==> r == Err(BadCredentials)
    ensures r.Err? ==> m.Snapshot() == old(m.Snapshot())
    ensures valid && authenticated.Some? ==>
      var (t, tokens) := GetOrCreateToken(old(m.tokens), authenticated.value, freshKey);
      && r == Ok(t)
      && m.Snapshot() == old(m.Snapshot()).(tokens := tokens)
  {
    if !valid {
      return Err(LoginInvalid);
    }
    if authenticated.None? {
      return Err(BadCredentials);
    }
    var u := authenticated.value;
    var db := m.Snapshot();
    LoginWellFormed(db, u, freshKey);
    var (t, tokens) := GetOrCreateToken(m.tokens, u, freshKey);
    m.tokens := tokens;
    assert m.Snapshot() == db.(tokens := tokens);
    r := Ok(t);
  }

  // ---------------------------------------------------------------------
  // Logout

  datatype LogoutError = LogoutInvalid | TokenNotFound | WrongUser

  /**
   * The verdict of logout on token `key` for user `u`: the serializer's
   * verdict first, then the token must exist, then it must belong to `u`.
   */
  function LogoutOutcome(tokens: seq<Token>, key: string, u: int, valid: bool): (r: Outcome<LogoutError>)
    ensures r == Fail(LogoutInvalid) <==> !valid
    ensures r == Fail(TokenNotFound) <==> valid && key !in Keys(tokens, TokenKey)
    ensures r == Fail(WrongUser) <==> valid && TokenByKey(tokens, key).Some? && TokenByKey(tokens, key).value.user != u
    ensures r == Pass <==> valid && TokenByKey(tokens, key).Some? && TokenByKey(tokens, key).value.user == u
  {
    if !valid then Fail(LogoutInvalid)
    else match TokenByKey(tokens, key)
      case None => Fail(TokenNotFound)
      case Some(t) => if t.user == u then Pass else Fail(WrongUser)
  }

  function TokenKeyOtherThan(key: string): Token -> bool { (t: Token) => t.key != key }

  /** The token table without the token whose key is `key`. */
  function DeleteToken(tokens: seq<Token>, key: string): (r: seq<Token>)
    ensures forall t :: t in r <==> t in tokens && t.key != key
    ensures key !in Keys(r, TokenKey)
  {
    Filter(tokens, TokenKeyOtherThan(key))
  }

  /** Deleting a token keeps the database well-formed. */
  lemma LogoutWellFormed(db: Db, key: string)
    requires WellFormed(db)
    ensures WellFormed(db.(tokens := DeleteToken(db.tokens, key)))
  {
    var db' := db.(tokens := DeleteToken(db.tokens, key));
    FilterUnique(db.tokens, TokenKeyOtherThan(key), TokenKey);
    FilterUnique(db.tokens, TokenKeyOtherThan(key), TokenUser);
    assert ProfilesOk(db') && ShopsOk(db') && CatalogOk(db') && ActivityOk(db');
    assert TokensOk(db');
  }

  /**
   * Logout. An invalid request, an unknown key and a token of another user
   * each fail and leave the token table as it was; otherwise exactly the
   * token with that key is deleted.
   */
  method Logout(m: Marketplace, key: string, u: int, valid: bool) returns (r: Outcome<LogoutError>)
    requires m.Valid()
    modifies m
    ensures m.Valid()
    ensures r == LogoutOutcome(old(m.tokens), key, u, valid)
    ensures r.Fail? ==> m.Snapshot() == old(m.Snapshot())
    ensures r.Pass? ==> m.Snapshot() == old(m.Snapshot()).(tokens := DeleteToken(old(m.tokens), key))
  {
    if !valid {
      return Fail(LogoutInvalid);
    }
    var token := TokenByKey(m.tokens, key);
    if token.None? {
      return Fail(TokenNotFound);
    }
    if token.value.user != u {
      return Fail(WrongUser);
    }
    var db := m.Snapshot();
    LogoutWellFormed(db, key);
    m.tokens := DeleteToken(m.tokens, key);
    assert m.Snapshot() == db.(tokens := DeleteToken(db.tokens, key));
    r := Pass;
  }

  /** With unique token keys, logout succeeds exactly when the user holds a token under that key. */
  lemma LogoutPassIffOwnToken(tokens: seq<Token>, key: string, u: int)
    requires Unique(tokens, TokenKey)
    ensures LogoutOutcome(tokens, key, u, true) == Pass <==> exists t :: t in tokens && t.key == key && t.user == u
  {
    if t :| t in tokens && t.key == key && t.user == u {
      var found := TokenByKey(tokens, key).value;
      var i :| 0 <= i < |tokens| && tokens[i] == t;
      var j :| 0 <= j < |tokens| && tokens[j] == found;
      UniquePair(tokens, TokenKey, i, j);
      UniquePair(tokens, TokenKey, j, i);
    }
  }

  /**
   * After a successful logout the user has no token left, so the next
   * login creates a new one under the key then offered.
   */
  lemma LoginAfterLogoutNewToken(tokens: seq<Token>, key: string, u: UserId, freshKey: string)
    requires Unique(tokens, TokenUser) && LogoutOutcome(tokens, key, u, true) == Pass
    ensures GetOrCreateToken(DeleteToken(tokens, key), u, freshKey).0 == Token(freshKey, u)
  {
    var rest := DeleteToken(tokens, key);
    var own := TokenByKey(tokens, key).value;
    forall t | t in rest ensures t.user != u {
      var i :| 0 <= i < |tokens| && tokens[i] == t;
      var j :| 0 <= j < |tokens| && tokens[j] == own;
      UniquePair(tokens, TokenUser, i, j);
      UniquePair(tokens, TokenUser, j, i);
    }
    assert u !in Keys(rest, TokenUser);
  }
}
