# JuicyCart marketplace views in Dafny

This project models the rules behind the REST views of a small fruit
marketplace. The views cover a seller dashboard, shop creation and lookup,
the product catalogue with its filters and pagination, seller-only product
changes, product reviews, and login/logout session tokens.

The database is an in-memory snapshot of its tables (`Tables.Db`): users,
seller and customer profiles, shops, categories, products, reviews, orders
and tokens. Each table is a sequence of rows in table order. `Tables.WellFormed`
states the schema's constraints:
- primary keys are unique;
- a seller or customer profile is keyed by its user;
- a seller owns at most one shop;
- every product belongs to a shop;
- every review and order refers to an existing product and customer;
- every user has at most one token.

The views fall into two kinds:
- Read-only views are functions over a snapshot: the dashboard, the list
  filters, pagination and the review list.
- Views that write are methods on a `Tables.Marketplace` object, with one
  field per table: shop creation, product add/delete/edit, review creation,
  login and logout. Each method is specified against a pure function of the
  old snapshot, and each keeps `WellFormed`.

Modules:
- `Wrappers`: Option, Result and Outcome.
- `Seqs`: filter, find, sum, key uniqueness and their lemmas.
- `Tables`: entities, snapshot, lookups, schema invariant, `Marketplace`.
- `Dashboard`: `MyDashboard` of shop/views.py.
- `ShopViews`: the shop filter and shop creation of shop/views.py.
- `ListingViews`: listing/views.py.
- `UserViews`: the filters, login and logout of users/views.py.

Conventions:
- Money is integer cents.
- An optional query parameter is an `Option`. `None` stands for a parameter
  that is absent or empty, since the views test it for truthiness.
- A new row gets the key one above the largest key in use
  (`Seqs.NextKey`), so it never collides with a row in the table.

Notes on the code:
- The dashboard computes a row count of the shop's orders
  (shop/views.py:75), but the response (shop/views.py:88-98) does not
  include it. `Dashboard.Metrics` keeps it as `orderCount`, so that it can
  be compared with the quantity sum `totalOrders`.
- The shop filter (shop/views.py:20-23) takes its `shop_id` and `user_id`
  selections from the whole shop table, not from the incoming queryset.
  With both parameters, `user_id` wins.

## Model

| member | source | states |
|---|---|---|
| Seqs.NextKey | listing/views.py:85 | the key given to a new row is positive and above every key in the table |
| Tables.SellerOf | shop/views.py:61-64 | finds the seller profile of a user exactly when the user has one |
| Tables.ShopOf | shop/views.py:66-69 | finds a shop owned by the user exactly when the user owns one |
| Tables.ProductById | listing/views.py:103-106 | finds a product with the given key exactly when that key is in the product table |
| Tables.TokenByKey | users/views.py:141-142 | finds the token with the given key exactly when the key is in the token table |
| Tables.TokenOfUser | users/views.py:123 | finds the user's token exactly when the user has one |
| Tables.SellerShop | shop/views.py:59-69 | resolves user to seller to shop; each of the three failures happens exactly when its lookup fails; on success the shop is owned by the user |
| Tables.SellerShopIsOwnedShop | shop/models.py:6 | with one shop per seller, the resolved shop is the one shop the user owns |
| Dashboard.ProductShop | shop/views.py:73-74 | the `product__shop` join: defined exactly for products in the table, and then gives the shop of such a product |
| Dashboard.ShopProducts | shop/views.py:71 | selects exactly the products of the shop |
| Dashboard.ShopReviews | shop/views.py:73 | selects exactly the reviews whose product belongs to the shop |
| Dashboard.ShopOrders | shop/views.py:74 | selects exactly the orders whose product belongs to the shop |
| Dashboard.EngagementScore | shop/views.py:86 | the score in cents: apart from total_earning, which is already in cents, it is a whole number of currency units, namely reviews*5 + total_orders*2 + product_count*3 - total_cancelled |
| Dashboard.Aggregate | shop/views.py:71-86 | the counts are those of the selected rows; with no products the stock is 0 and with no orders every order sum is 0 (the `or 0` defaults); the score in cents is (reviews*5 + total_orders*2 + product_count*3 - total_cancelled)*100 + total_earning of the returned fields |
| Dashboard.ShopMetrics | shop/views.py:71-86 | product_count, reviews and the order row count are the sizes of the shop's product, review and order selections, and the score is built from the returned fields as above |
| Dashboard.MyDashboard | shop/views.py:56-98 | unknown user, no seller profile and no shop each give their own error; otherwise the metrics of a shop the user owns |
| Dashboard.DashboardOfOwnedShop | shop/views.py:66-67 | in a well-formed database the dashboard reports on the user's one shop |
| Dashboard.NoProductsNoStock | shop/views.py:71-78 | a shop without products has product count 0 and stock 0, not a missing value |
| Dashboard.NoOrdersZeroTotals | shop/views.py:75-83 | a shop without orders has every order count and sum equal to 0 |
| Dashboard.StatusPartition | shop/views.py:79-82 | when every status is Completed, Cancelled or Pending, the three status sums add up to the total quantity |
| Dashboard.SumOfWithStatusCons | shop/views.py:80-82 | the first order adds its quantity to the sum of its own status only |
| Dashboard.DashboardPartition | shop/views.py:79-82 | sold + cancelled + pending == total_orders for a shop whose statuses are all known |
| Dashboard.DashboardPartsBounded | shop/views.py:79-82 | with non-negative quantities each status sum lies between 0 and total_orders |
| Dashboard.StatusPartNonNegative | shop/views.py:80-82 | with non-negative quantities a status sum is not negative |
| Dashboard.StatusPartsAtMostTotal | shop/views.py:79-82 | with non-negative quantities the Completed, Cancelled and Pending sums together never exceed the total quantity, whatever other statuses occur |
| Dashboard.DashboardPartsSumBounded | shop/views.py:79-82 | with non-negative quantities sold + cancelled + pending <= total_orders |
| Dashboard.RowCountAtMostQuantity | shop/views.py:75-79 | with quantities of at least 1, the order row count never exceeds the quantity sum |
| Dashboard.SingleOrderOfFive | shop/views.py:75-79 | one order of quantity 5 counts as 1 row and 5 units |
| Dashboard.WorkedScenario | shop/views.py:78-86 | stock 5 and 7, one review, orders 2 Completed/20.00, 1 Cancelled/10.00 and 3 Pending/30.00 give totals 6, 2, 1, 3, earning 2000 cents and score 4200 cents, that is 42.00 |
| Dashboard.ScenarioStatuses | shop/views.py:80-82 | each status filter of the worked example keeps exactly its one order |
| Dashboard.ScenarioSums | shop/views.py:79-83 | the quantity and price sums of the worked example's orders |
| Dashboard.ForeignOrderIgnored | shop/views.py:74 | an order of another shop's product changes no metric |
| Dashboard.ForeignReviewIgnored | shop/views.py:73 | a review of another shop's product changes no metric |
| Dashboard.ForeignProductIgnored | shop/views.py:71 | a new product of another shop changes no metric |
| ShopViews.SpecificShop | shop/views.py:16-24 | a given user_id selects the user's shops from the whole table and overrides shop_id; otherwise shop_id selects by key; with neither the queryset is unchanged |
| ShopViews.SpecificShopByOwnerAtMostOne | shop/views.py:22-23 | in a well-formed database the owner filter yields at most one shop |
| ShopViews.CheckCreateShop | shop/views.py:38-47 | rejects, in order, an unknown user, a non-seller and a seller who already owns a shop; passes exactly otherwise |
| ShopViews.CreateShop | shop/views.py:35-53 | a failed check or invalid data changes nothing; success appends one shop with a new key owned by the user, the only shop the user owns; keeps the schema invariant |
| ShopViews.AddShopWellFormed | shop/views.py:46-51 | adding a shop with a new key for a seller without a shop keeps the schema invariant |
| ListingViews.CategoryQuery | listing/views.py:20-25 | a given category_id keeps exactly the categories with that key; otherwise the list is unchanged |
| ListingViews.LowerString | listing/views.py:55 | case folding maps each character to its lower-case form and keeps the length |
| ListingViews.OccursAtShift | listing/views.py:55 | a match in the tail of a string is a match one position later in the whole string |
| ListingViews.Occurs | listing/views.py:55 | true exactly when the needle stands at some position of the string |
| ListingViews.WindowsAreOccurrences | listing/views.py:55 | a window equal to the needle up to letter case is exactly an occurrence of the lower-cased needle in the lower-cased name |
| ListingViews.ContainsIgnoreCase | listing/views.py:55 | `name__icontains` holds exactly when some window of the name equals the needle up to letter case |
| ListingViews.ContainsIgnoreCaseOfLowered | listing/views.py:55 | the letter case of the needle does not matter |
| ListingViews.EmptyNameMatchesAll | listing/views.py:54-55 | an empty needle is in every name |
| ListingViews.ProductQuery | listing/views.py:38-63 | a product is listed exactly when it is in the table and meets every supplied filter: key, category, name, inclusive min and max price, shop |
| ListingViews.PassesAllSteps | listing/views.py:50-61 | passing the six guarded steps is meeting every supplied filter; an empty name imposes nothing |
| ListingViews.Matches | listing/views.py:50-61 | the conjunction of the supplied filters: key, category, name, inclusive min and max price, shop |
| ListingViews.FilterChain | listing/views.py:49-61 | the chain of `queryset.filter` steps, each run only when its parameter was sent, equals one filter of the table by the conjunction of the steps run so far, in table order |
| ListingViews.ProductQueryIsFilter | listing/views.py:38-63 | the product list is the table filtered by `Matches`, in table order |
| ListingViews.NoFiltersWholeTable | listing/views.py:49-63 | with no parameters the product list is the whole table |
| ListingViews.PageSize | listing/views.py:28-31 | the page size is between 1 and 100: 10 when absent or not positive, the requested size up to 100, and 100 above that |
| ListingViews.PageCount | listing/views.py:28-29 | the page count is at least 1 and is the least number of pages holding all rows |
| ListingViews.PageBounds | listing/views.py:28-29 | a valid page starts within the list, ends one page size later, and every page before the last ends before the list does |
| ListingViews.Page | listing/views.py:28-29 | a page exists exactly for numbers 1 to the page count; it holds at most page-size rows, the rows from its offset on, and only the last page is short |
| ListingViews.RowOnItsPage | listing/views.py:28-31 | every row appears on the page and at the offset its position gives |
| ListingViews.AuthorizeChange | listing/views.py:95-113 | in order: user exists, is a seller, product exists, seller owns a shop, product is in that shop; each failure happens exactly when its check fails |
| ListingViews.AuthorizeChangeIffOwner | listing/views.py:108-113 | in a well-formed database the checks pass exactly when the product belongs to the requesting seller's shop |
| ListingViews.OwnerPassesChecks | listing/views.py:103-113 | the owner of a product's shop passes every check, and the checks return that product |
| ListingViews.ProductByIdUnique | listing/views.py:103-104 | with unique keys the lookup by key returns the very row |
| ListingViews.DeleteProductCascade | listing/views.py:115 | deletion removes exactly the rows with that product key, and by cascade exactly its reviews and orders; every other table is unchanged |
| ListingViews.DeleteProductWellFormed | listing/migrations/0002_initial.py:22-25 | the cascade keeps the schema invariant |
| ListingViews.DeleteKeepsCatalog | listing/migrations/0002_initial.py:17-20 | product keys stay unique and every remaining product keeps its shop |
| ListingViews.DeleteKeepsActivity | order/migrations/0002_initial.py:23-26 | every remaining review and order still refers to an existing product |
| ListingViews.DeleteProduct | listing/views.py:90-116 | a failed check returns its error and changes nothing; otherwise the cascade delete is applied |
| ListingViews.RemoveProduct | listing/views.py:115 | the new state is the cascade delete of the old one, and the schema invariant holds |
| ListingViews.ApplyPatch | listing/views.py:146-148 | a partial update changes exactly the supplied fields; key and shop stay |
| ListingViews.EmptyPatchKeepsProduct | listing/views.py:146 | a patch with no fields leaves the product as it was |
| ListingViews.ApplyPatchIdempotent | listing/views.py:146-148 | applying a patch twice is applying it once |
| ListingViews.ReplaceProduct | listing/views.py:148 | the row with the patched key is replaced and every other row is kept, position by position |
| ListingViews.ReplaceProductUnique | listing/views.py:148 | the update keeps product keys unique |
| ListingViews.ReplaceProductRows | listing/views.py:148 | the updated row is present and rows with other keys are exactly the old ones |
| ListingViews.ReplaceProductKeepsRow | listing/views.py:148 | a row with another key is present after the update exactly when it was before |
| ListingViews.ReplaceProductKeys | listing/views.py:148 | the update keeps the set of product keys |
| ListingViews.ReplaceProductWellFormed | listing/views.py:148 | the update keeps the schema invariant |
| ListingViews.ReplaceKeepsCatalog | listing/views.py:148 | the updated product still belongs to an existing shop |
| ListingViews.ReplaceKeepsActivity | listing/views.py:148 | reviews and orders still refer to existing products |
| ListingViews.UpdateProduct | listing/views.py:148 | the new state is the old one with the row replaced, and the schema invariant holds |
| ListingViews.EditProduct | listing/views.py:119-150 | a failed check returns its error, invalid data returns Invalid, and both change nothing; passing checks with valid data always succeed, and success replaces the product row by its patched version |
| ListingViews.EditedProductInPlace | listing/views.py:141-148 | after an edit the product keeps its key and stays in the seller's shop, and every other product is unchanged |
| ListingViews.CheckAddProduct | listing/views.py:70-79 | rejects, in order, an unknown user, a non-seller and a seller without a shop; on success gives the shop the user owns |
| ListingViews.AddProductWellFormed | listing/views.py:84-85 | appending a product with a new key in an existing shop keeps the schema invariant |
| ListingViews.AddProduct | listing/views.py:69-87 | a failed check returns its error and invalid data returns Invalid, both changing nothing; passing checks with valid data always succeed, and success appends one product with a new key in the requesting seller's own shop, which that seller may then change |
| ListingViews.ReviewsOfProduct | listing/views.py:156-158 | the review list holds exactly the reviews of that product |
| ListingViews.ReviewsOfProductAppend | listing/views.py:156-158 | a new review of a product comes last in that product's review list |
| ListingViews.CheckCreateReview | listing/views.py:160-174 | in order: valid data, existing user, user is a customer, existing product; each failure happens exactly when its check fails |
| ListingViews.AddReviewWellFormed | listing/views.py:176 | a review by an existing customer of an existing product with a new key keeps the schema invariant |
| ListingViews.AppendReview | listing/views.py:176 | the new state is the old one with one review appended, and the schema invariant holds |
| ListingViews.CreateReview | listing/views.py:160-177 | a failed check changes nothing; success appends one review with a new key, which becomes the last of the product's review list |
| UserViews.SpecificUser | users/views.py:19-24 | a given user_id keeps exactly that user; otherwise the queryset is unchanged |
| UserViews.SpecificUserAtMostOne | users/views.py:23 | with unique keys the filtered user list has at most one row |
| UserViews.SpecificSellerAndCustomer | users/views.py:32-37 | a given user_id keeps exactly the profiles of that user; otherwise the queryset is unchanged |
| UserViews.ProfileFilterAtMostOne | users/views.py:36 | with profiles keyed by user, the filtered list has at most one row |
| UserViews.SpecificSellerIsProfile | users/views.py:39-42 | the filtered seller list has one row exactly when the user is a seller, and that row is the user's seller profile |
| UserViews.SameSellerKey | users/models.py:6 | two seller profiles of the same user are the same profile |
| UserViews.SpecificCustomerIsProfile | users/views.py:44-47 | the filtered customer list has one row exactly when the user is a customer |
| UserViews.GetOrCreateToken | users/views.py:123 | returns a token of the user that is in the new table; the table is unchanged when the user had a token, else grows by one new token |
| UserViews.GetOrCreateTwice | users/views.py:121-125 | a second login of the same user returns the same token and leaves the table unchanged |
| UserViews.GetOrCreateKeepsOneTokenPerUser | users/views.py:123 | token keys stay unique and each user keeps at most one token |
| UserViews.LoginWellFormed | users/views.py:123 | login keeps the schema invariant |
| UserViews.Login | users/views.py:115-128 | invalid data or failed authentication returns an error and creates no token; success returns the user's get-or-create token |
| UserViews.LogoutOutcome | users/views.py:137-150 | invalid data, an unknown key and a token of another user each fail exactly in their case; passes exactly when the key's token belongs to the user |
| UserViews.DeleteToken | users/views.py:145 | exactly the token with that key is gone and every other token remains |
| UserViews.LogoutWellFormed | users/views.py:145 | deleting a token keeps the schema invariant |
| UserViews.Logout | users/views.py:135-152 | a failure leaves the token table unchanged; a success deletes exactly the token with that key |
| UserViews.LogoutPassIffOwnToken | users/views.py:141-146 | with unique keys, logout succeeds exactly when the user holds a token with that key |
| UserViews.LoginAfterLogoutNewToken | users/views.py:145 | after a successful logout the user's next login gets a new token |

## Left out

- Registration and e-mail confirmation of users/views.py (lines 50-110): template rendering, mail, the activation token generator and base64 ids are I/O and library calls.
- Password checking: `authenticate` is a parameter holding the authenticated user or nothing. The session `login(request, user)` call is not modelled.
- Serializer validation and saving: `is_valid()` is a boolean parameter. The serializers are not part of this model.
- ListingViews.ApplyPatch: a patch cannot change a product's key or shop. Whether the product serializer would accept a new shop is not known, because it is not part of this model.
- ListingViews.ContainsIgnoreCase: case folding covers ASCII letters only. The database's Unicode case rules are not modelled.
- Query parameters that are not numbers are not modelled: ids, prices and page numbers are integers or absent. The page size counts as absent when it is not a number, as DRF's pagination treats it. The page number `last` is not modelled.
- Prices, balances and earnings are integer cents, not decimals.
- Concurrent requests and transaction isolation are not modelled. Each view runs alone on one snapshot.
- HTTP routing, status codes and response bodies are not modelled; only which error or success a view reaches is kept. For example, the product creation view answers invalid data with status 200, and the model only reports `Invalid`.
- The uncaught `User.DoesNotExist` of the dashboard (shop/views.py:59) and of product creation (listing/views.py:71) is modelled as a generic `UserNotFound` failure.
- Login: the new token's key is a parameter, assumed not to be in use, standing in for random key generation.
- Deleting a product cascades only to its reviews and orders. No other table refers to products.
- Seqs.NextKey: a new key is one above the largest key in use, so after the row with the largest key is deleted its key is handed out again. The database's auto-increment sequence never reuses a key. The model only promises that a new key is not in use.
