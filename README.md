# Storefront core, modelled in Dafny

This project models the core of an Apple-products storefront built on Next.js
and Prisma:

- the client cart store and its server mirror;
- the order API: placing an order, and the order history that prunes finished orders;
- the catalog APIs for products, brands, categories and brand-category links;
- the page middleware, which decides between passing a request on, sending it to `/not-found`, and sending it to `/login`;
- the admin forms that create products, brands and brand-category links, with the slug generator they share;
- the admin order table's status updates.

The Prisma store is one class, `Db.Database`. Its fields are the tables:

- Catalog tables are maps from row id to row.
- The cart-item, order and order-item tables are sequences in insertion order.
- One counter hands out row ids and creation times. So "newest first" is the reverse of insertion order.

Each route handler is a method on the database. It states the whole new state
and the response. Each handler is specified by functions on the tables, and
lemmas about those functions state what the handler promises. Examples:

- a synced cart reads back exactly as sent;
- a user sees exactly their orders that are not cancelled or delivered, newest first;
- finished orders are pruned;
- generated slugs are idempotent;
- protected areas never pass unauthorised.

Modules, one per source file plus shared ones:

| module | models |
|---|---|
| `Wrappers`, `Text`, `Fields`, `Listing` | Option; JavaScript whitespace and `trim`; truthy request fields; listing a map's keys in id order |
| `Slug` | the `generateSlug` helper of the admin forms |
| `Db` | the Prisma schema and its integrity (`Database.Valid`) |
| `CartStore` | `store/cart.ts` |
| `CartRoute`, `OrdersRoute`, `ProductsRoute`, `BrandsRoute`, `CategoriesRoute`, `BrandCategoriesRoute` | the API routes under `app/api/` |
| `Middleware` | `middleware.ts` |
| `BrandCategoryForm`, `ProductForm`, `BrandForm`, `OrdersDashboard` | the admin pages |

Two behaviours of the code worth knowing:

- **Cancelled orders.** The order history never lists a CANCELLED order, even on the request that deletes it. The code filters it out of the response.
- **Quantities.** Cart quantities are not clamped to at least 1. `updateQuantity` stores any number.

## Model

| member | source | states |
|---|---|---|
| Text.TrimStart | app/dashboard/brands/new/page.tsx:33-44 | the result is a suffix of the input and does not start with whitespace |
| Text.TrimStartSuffix | app/dashboard/brands/new/page.tsx:33-44 | only whitespace is removed: the dropped prefix is all whitespace |
| Text.TrimEndPrefix | app/dashboard/brands/new/page.tsx:33-44 | only trailing whitespace is removed and the result is a prefix |
| Text.Trim | app/dashboard/brands/new/page.tsx:33-44 | `trim` leaves no whitespace at either end and never lengthens |
| Text.TrimSlice | app/dashboard/brands/new/page.tsx:33-44 | `trim` is the slice of the input between its leading and trailing whitespace |
| Text.BlankIffTrimEmpty | app/dashboard/brands/new/page.tsx:33-44 | `!s.trim()` holds exactly when the trimmed text is empty |
| Text.NotBlankIsTruthy | app/api/brands/route.ts:53-58 | a field that passes the form's blank check is non-empty, so it also passes the route's truthiness check |
| Text.TrimNoSpace | app/dashboard/brands/new/page.tsx:15-22 | trimming text without whitespace changes nothing |
| Slug.LowerChar | app/dashboard/brands/new/page.tsx:17 | lowercasing maps A-Z to a-z and fixes every other character |
| Slug.Lower | app/dashboard/brands/new/page.tsx:17 | `toLowerCase` keeps the length and leaves no upper-case letter |
| Slug.StripDisallowed | app/dashboard/brands/new/page.tsx:19 | only word characters, whitespace and hyphens remain, all drawn from the input; text already made of them is unchanged; a single character is kept exactly when it is one of them |
| Slug.StripConcat | app/dashboard/brands/new/page.tsx:19 | stripping works character by character: the strip of a concatenation is the concatenation of the strips |
| Slug.Squeeze | app/dashboard/brands/new/page.tsx:20-21 | each run of matching characters becomes one replacement character; nothing else is introduced |
| Slug.SqueezeOther | app/dashboard/brands/new/page.tsx:20-21 | a character outside the run class is kept as it is, and squeezing goes on after it |
| Slug.SqueezeRun | app/dashboard/brands/new/page.tsx:20-21 | a whole run of class characters, however long, becomes exactly one replacement character |
| Slug.SqueezeNoAdjacent | app/dashboard/brands/new/page.tsx:20-21 | after squeezing, no two neighbouring characters both belong to a run |
| Slug.SqueezeIdentity | app/dashboard/brands/new/page.tsx:20-21 | text with no runs and no other run characters is a fixed point of squeezing |
| Slug.GenerateSlug | app/dashboard/brands/new/page.tsx:15-22 | a slug has only lower-case word characters and hyphens, with no doubled hyphen |
| Slug.SlugFixpoint | app/dashboard/products/new/page.tsx:38-45 | a slug-shaped text is its own slug |
| Slug.GenerateSlugIdempotent | app/dashboard/products/new/page.tsx:38-45 | generating a slug from a slug gives it back |
| Slug.NothingKeptEmptySlug | app/dashboard/brands/new/page.tsx:15-22 | a name made only of stripped characters yields the empty slug |
| Listing.KeysUpComplete | app/api/categories/route.ts:8-17 | the ascending listing holds exactly the table's ids, ascending |
| Listing.KeysDownComplete | app/api/brands/route.ts:16-18 | the `createdAt desc` listing holds exactly the table's ids, descending |
| Listing.AscendingSnoc | app/api/brands/route.ts:27 | appending an id larger than all others keeps a listing ascending |
| CartStore.Merged | store/cart.ts:31-35 | merging an existing line keeps the number of lines |
| CartStore.Without | store/cart.ts:44 | the filtered cart holds no line with the removed id |
| CartStore.WithQuantity | store/cart.ts:51 | updating a quantity keeps the number of lines |
| CartStore.AddExisting | store/cart.ts:28-36 | adding a product already in the cart adds to that one line's quantity and changes nothing else |
| CartStore.Added | store/cart.ts:26-41 | after `addItem` the product is in the cart, the list grows by at most one line, and every existing line keeps its product and place |
| CartStore.AddNew | store/cart.ts:37-39 | adding a new product appends it as the last line |
| CartStore.AddedKeepsUniqueIds | store/cart.ts:26-41 | `addItem` never creates two lines for one product |
| CartStore.WithQuantityKeepsUniqueIds | store/cart.ts:48-55 | `updateQuantity` keeps line ids unique |
| CartStore.WithoutUnique | store/cart.ts:42-47 | `removeItem` keeps line ids unique |
| CartStore.WithoutAt | store/cart.ts:44 | with unique ids, removing a line's id removes exactly that line |
| CartStore.WithoutAbsent | store/cart.ts:44 | removing an id that is not in the cart changes nothing |
| CartStore.WithoutKeepsOrder | store/cart.ts:44 | removal keeps the other lines in their order and drops nothing else |
| CartStore.TotalConcat | store/cart.ts:56-59 | the total of a concatenation is the sum of the totals |
| CartStore.Total | store/cart.ts:56-59 | lines with non-negative prices and quantities have a non-negative total |
| CartStore.TotalReplaceAt | store/cart.ts:56-59 | replacing one line changes the total by the difference of the line totals |
| CartStore.TotalAfterAddNew | store/cart.ts:26-41 | adding a new product raises the total by its price times its quantity |
| CartStore.TotalAfterAddExisting | store/cart.ts:28-36 | adding to an existing line raises the total by the stored price times the added quantity |
| CartStore.TotalAfterRemove | store/cart.ts:42-47 | removing a product lowers the total by its line total; removing an absent one keeps it |
| CartStore.TotalAfterUpdate | store/cart.ts:48-55 | a quantity update changes the total by price times the quantity change; an unknown id changes nothing |
| CartStore.Store.Sync | store/cart.ts:64-75 | every sync sends the current items to the server |
| CartStore.Store.AddItem | store/cart.ts:26-41 | the new items are `Added(old items, item)`; they are synced; unique ids are kept |
| CartStore.Store.RemoveItem | store/cart.ts:42-47 | the new items are the old ones without the id; they are synced; unique ids are kept |
| CartStore.Store.UpdateQuantity | store/cart.ts:48-55 | only the quantity of the matching line changes; the items are synced; unique ids are kept |
| CartStore.Store.GetTotal | store/cart.ts:56-59 | the answer is the sum of price times quantity over the lines |
| CartStore.Store.ClearCart | store/cart.ts:60-63 | the cart becomes empty and the empty cart is synced |
| CartStore.ClearCartHelper | store/cart.ts:83-85 | the exported helper empties the cart without syncing |
| CartRoute.FindOrCreateCart | app/api/cart/route.ts:16-24 | the caller's cart is reused, or one is created with a fresh id |
| CartRoute.Post | app/api/cart/route.ts:6-48 | 401 without a session and nothing changes; otherwise the tables become those of `Sync` |
| CartRoute.SyncEffect | app/api/cart/route.ts:16-46 | the caller's cart is reused or created; success exactly when every product exists; on success the cart's rows are the sent lines in order; on failure they are gone; other carts' rows are untouched |
| CartRoute.Sync | app/api/cart/route.ts:16-46 | the caller ends with a cart, the only cart that may be new, and no existing cart changes; the answer is success exactly when every posted product exists, and never 401 |
| CartRoute.SyncCallerRows | app/api/cart/route.ts:27-38 | after a sync the caller's rows are exactly the new rows, or none when the insert fails |
| CartRoute.SyncOtherRows | app/api/cart/route.ts:27-29 | `deleteMany` touches only the caller's cart |
| CartRoute.RowsOfOther | app/api/cart/route.ts:27-29 | removing one cart's rows leaves every other cart's rows as they were |
| CartRoute.SyncIdempotent | app/api/cart/route.ts:6-48 | posting the same cart twice leaves the tables as after the first post |
| CartRoute.PostThenGet | app/api/cart/route.ts:50-76 | after a successful sync, GET returns that cart with one line per sent item, in order, joined to its product |
| CartRoute.Get | app/api/cart/route.ts:50-76 | 401 without a session; otherwise the caller's cart with its items and products, or null |
| OrdersRoute.NewItems | app/api/orders/route.ts:37-43 | one order-item row per requested line |
| OrdersRoute.NewItemsCopyLines | app/api/orders/route.ts:37-43 | each row copies product id, quantity and price from its line, belongs to the order and has a fresh distinct id |
| OrdersRoute.NewOrderKeepsClientTotal | app/api/orders/route.ts:23-36 | a new order is PENDING, belongs to the caller and stores the client's total regardless of the lines |
| OrdersRoute.TamperedTotalIsStored | app/api/orders/route.ts:27 | an order whose lines sum to 250000 is stored with the client's total of 1 |
| OrdersRoute.PlacedTablesValid | app/api/orders/route.ts:23-48 | inserting an order and its items keeps the order tables consistent |
| OrdersRoute.Post | app/api/orders/route.ts:7-67 | 401 without a session; otherwise the order and its items are appended and the caller's cart is deleted together with its item rows, other carts' rows kept; 500 when an item's product is missing (nothing written) or when there was no cart (order kept) |
| OrdersRoute.OrdersOf | app/api/orders/route.ts:80-96 | selecting the caller's orders never lengthens the table |
| OrdersRoute.Reverse | app/api/orders/route.ts:95 | `createdAt desc` is the reverse of insertion order |
| OrdersRoute.FetchOne | app/api/orders/route.ts:80-96 | a fetched order carries its order row |
| OrdersRoute.FetchEach | app/api/orders/route.ts:80-96 | one fetched entry per order, in order |
| OrdersRoute.ToDelete | app/api/orders/route.ts:99-101 | the orders to delete are a selection of the fetched ones |
| OrdersRoute.Active | app/api/orders/route.ts:123-125 | the active orders are a selection of the fetched ones |
| OrdersRoute.FormatOrder | app/api/orders/route.ts:128-149 | the view carries the order's id, status, total and time, and one item per row |
| OrdersRoute.FormatAll | app/api/orders/route.ts:128-149 | one view per order, in order |
| OrdersRoute.FetchedAreMine | app/api/orders/route.ts:80-96 | the fetch returns exactly the caller's orders |
| OrdersRoute.FetchedNewestFirst | app/api/orders/route.ts:95 | the fetched orders are in strictly decreasing creation time |
| OrdersRoute.DroppedStep | app/api/orders/route.ts:104-120 | one loop step adds the order to the deleted set unless a delete fails for it |
| OrdersRoute.PruneKeepsTablesValid | app/api/orders/route.ts:104-120 | pruning keeps the order tables consistent |
| OrdersRoute.DeleteEach | app/api/orders/route.ts:104-120 | the loop removes the items of each pruned order whose item delete succeeded, and the orders whose deletes both succeeded |
| OrdersRoute.Get | app/api/orders/route.ts:69-160 | 401 without a session; otherwise the answer formats the active fetched orders and the tables lose exactly the pruned rows |
| OrdersRoute.OrdersOfAscending | app/api/orders/route.ts:80-96 | the caller's orders stay in creation order |
| OrdersRoute.PrunedOrders | app/api/orders/route.ts:99-120 | an order leaves the table exactly when it is the caller's, CANCELLED or SUCCESS, and both its deletes succeed |
| OrdersRoute.PrunedItems | app/api/orders/route.ts:99-120 | an item row leaves the table exactly when its order is the caller's, CANCELLED or SUCCESS, and the item delete succeeds |
| OrdersRoute.ActiveKeepsOrder | app/api/orders/route.ts:123-125 | filtering keeps newest-first order |
| OrdersRoute.ShownIsListed | app/api/orders/route.ts:123-149 | every fetched order that is neither cancelled nor delivered is in the answer |
| OrdersRoute.ListedIsShown | app/api/orders/route.ts:123-149 | every listed order comes from a fetched order that is neither cancelled nor delivered |
| OrdersRoute.ListedAreShown | app/api/orders/route.ts:69-149 | every listed order is one of the caller's and is neither cancelled nor delivered |
| OrdersRoute.ListedIffShown | app/api/orders/route.ts:69-149 | one of the caller's orders is listed exactly when it is neither cancelled nor delivered |
| OrdersRoute.ListedNewestFirst | app/api/orders/route.ts:95-149 | the answer is in strictly decreasing creation time |
| OrdersRoute.SuccessListedThenDeleted | app/api/orders/route.ts:99-149 | a SUCCESS order is listed one last time and deleted in the same request |
| OrdersRoute.DeliveredHiddenButKept | app/api/orders/route.ts:99-149 | a DELIVERED order is never listed and never deleted |
| OrdersRoute.AppendedFetchedFirst | app/api/orders/route.ts:80-96 | the most recently inserted order of a user is fetched first |
| OrdersRoute.InsertedItemsOf | app/api/orders/route.ts:37-43 | the items of a new order are exactly the rows inserted with it |
| OrdersRoute.PlacedOrderListedFirst | app/api/orders/route.ts:7-149 | right after placing, the new order is listed first, PENDING, with the client's total and one item per line carrying the product's current name, price and image |
| ProductsRoute.Post | app/api/products/route.ts:32-81 | 400 for a missing field or a taken slug, 500 for a missing brand or category; otherwise exactly the requested row is inserted under a fresh id |
| ProductsRoute.MissingFieldsFirst | app/api/products/route.ts:37-42 | the missing-field answer is given exactly when a required field is absent, empty or zero |
| ProductsRoute.Guard | app/api/products/route.ts:37-70 | a product is let through only with every required field present, a slug not yet taken and existing brand and category; the taken-slug answer comes only for a complete request |
| ProductsRoute.ZeroStockOrPriceRejected | app/api/products/route.ts:37-42 | a stock or price of 0 counts as missing |
| ProductsRoute.CreatedExactly | app/api/products/route.ts:37-70 | a product is created exactly when its fields are present, its slug is new and its references exist |
| ProductsRoute.AddKeepsSlugsUnique | app/api/products/route.ts:45-54 | inserting after the slug check keeps product slugs unique |
| ProductsRoute.Get | app/api/products/route.ts:5-30 | 404 exactly for an empty table; otherwise every product once, with its brand and category |
| BrandsRoute.Post | app/api/brands/route.ts:47-90 | 400 for a missing name or slug or a taken slug; otherwise exactly the requested brand is inserted |
| BrandsRoute.AddKeepsSlugsUnique | app/api/brands/route.ts:61-70 | inserting after the slug check keeps brand slugs unique |
| BrandsRoute.LinkIdsComplete | app/api/brands/route.ts:27 | a brand's link listing holds exactly its links |
| BrandsRoute.LinkIdsAscending | app/api/brands/route.ts:27 | a brand's links are listed in creation order |
| BrandsRoute.ProductIdsComplete | app/api/brands/route.ts:28-35 | a brand's product listing holds exactly the products naming that brand |
| BrandsRoute.ProductIdsAscending | app/api/brands/route.ts:28-35 | a brand's products are listed in creation order |
| BrandsRoute.CategoryNames | app/api/brands/route.ts:27 | one name per link, the linked category's name |
| BrandsRoute.Summaries | app/api/brands/route.ts:28-35 | one summary per product, in order, each carrying that product's id, name, price, image, description and slug |
| BrandsRoute.FormatBrand | app/api/brands/route.ts:21-36 | the view carries the brand's id, name, slug, image and description |
| BrandsRoute.FormatAll | app/api/brands/route.ts:21-36 | one view per brand id, in order |
| BrandsRoute.ListsEveryBrandNewestFirst | app/api/brands/route.ts:5-44 | every brand is listed once, newest first |
| BrandsRoute.CategoryNamesFollowLinks | app/api/brands/route.ts:21-36 | a listed brand's categories are the names of its linked categories, in link order |
| BrandsRoute.ProductsFollowBrand | app/api/brands/route.ts:21-36 | a listed brand's products are exactly the products naming it, in creation order, each summarised with its six fields |
| CategoriesRoute.Post | app/api/categories/route.ts:44-87 | 400 for a missing name or slug or a taken slug; otherwise exactly the requested category is inserted |
| CategoriesRoute.AddKeepsSlugsUnique | app/api/categories/route.ts:58-67 | inserting after the slug check keeps category slugs unique |
| CategoriesRoute.LinkIdsComplete | app/api/categories/route.ts:24 | a category's link listing holds exactly its links |
| CategoriesRoute.LinkIdsAscending | app/api/categories/route.ts:24 | a category's links are listed in creation order |
| CategoriesRoute.ProductIdsComplete | app/api/categories/route.ts:25-32 | a category's product listing holds exactly the products naming that category |
| CategoriesRoute.ProductIdsAscending | app/api/categories/route.ts:25-32 | a category's products are listed in creation order |
| CategoriesRoute.BrandNames | app/api/categories/route.ts:24 | one name per link, the linked brand's name |
| CategoriesRoute.Summaries | app/api/categories/route.ts:18-33 | one summary per product, in order, each carrying that product's id, name, price, image, description and slug |
| CategoriesRoute.FormatCategory | app/api/categories/route.ts:18-33 | the view carries the category's id, name, slug, image and description |
| CategoriesRoute.FormatAll | app/api/categories/route.ts:18-33 | one view per category id, in order |
| CategoriesRoute.ListsEveryCategory | app/api/categories/route.ts:6-41 | every category is listed exactly once |
| CategoriesRoute.BrandNamesFollowLinks | app/api/categories/route.ts:18-33 | a listed category's brands are the names of its linked brands, in link order |
| CategoriesRoute.ProductsFollowCategory | app/api/categories/route.ts:18-33 | a listed category's products are exactly the products naming it, in creation order, each summarised with its six fields |
| BrandCategoriesRoute.Get | app/api/brand-categories/route.ts:6-23 | every link is returned once, with its brand and category |
| BrandCategoriesRoute.Post | app/api/brand-categories/route.ts:26-75 | 400 for a missing field, 404 when the brand or category does not exist; otherwise exactly the requested link is inserted |
| BrandCategoriesRoute.Patched | app/api/brand-categories/route.ts:103-118 | each of name, description, slug, brand id and category id is the request's value when given and the row's own value when absent |
| BrandCategoriesRoute.EmptyPatchKeepsRow | app/api/brand-categories/route.ts:103-118 | a PUT with no fields leaves the row unchanged |
| BrandCategoriesRoute.PatchIdempotent | app/api/brand-categories/route.ts:103-118 | applying the same PUT twice is the same as once |
| BrandCategoriesRoute.Put | app/api/brand-categories/route.ts:78-126 | 400 without an id, 404 for an unknown id; otherwise only that row is patched |
| BrandCategoriesRoute.Delete | app/api/brand-categories/route.ts:129-166 | 400 without an id, 404 for an unknown id; otherwise only that row is removed |
| BrandCategoriesRoute.DeleteRemovesOnlyThatRow | app/api/brand-categories/route.ts:154-158 | a delete removes one row and keeps every other row as it was |
| Middleware.SomeStartsWithExists | middleware.ts:53-78 | `prefixes.some(startsWith)` holds exactly when some prefix matches |
| Middleware.CheckPath | middleware.ts:50-87 | the path check never asks for sign-in, and every listed path passes it |
| Middleware.Authorized | middleware.ts:91-99 | every path outside `/admin` and `/profile` is authorised, and a token of role ADMIN is authorised everywhere |
| Middleware.Matched | middleware.ts:107-113 | every path under `/admin/` or `/profile/` reaches the middleware |
| Middleware.Gate | middleware.ts:89-113 | a request is sent to sign-in only on an `/admin` or `/profile` path, and never with a token of role ADMIN |
| Middleware.ProtectedNotBypassed | middleware.ts:89-105 | `withAuth`'s own pass-through for its pages, `/_next` and `/favicon.ico` never covers an `/admin` or `/profile` path |
| Middleware.FaviconPasses | middleware.ts:89-113 | `/favicon.ico` is matched yet passed on by `withAuth`, though the path check alone would send it to not-found |
| Middleware.MatchedBypassIsFavicon | middleware.ts:89-113 | of the paths `withAuth` passes on unchecked, only those under `/favicon.ico` get past the matcher |
| Middleware.CheckPathAllows | middleware.ts:53-84 | the path check never asks for sign-in; a path passes exactly when it has a skipped, dynamic or valid prefix or is a valid path |
| Middleware.NotFoundAllowed | middleware.ts:5-35 | the not-found page itself passes the path check |
| Middleware.BareRootRedirected | middleware.ts:22-24 | `/brand`, `/product` and `/category` without a trailing segment are sent to not-found |
| Middleware.PatternEntriesAreLiteral | middleware.ts:22-35 | the `:path*` entries are compared as text, so the bare roots are redirected while `/dashboard` passes |
| Middleware.ProtectedMatched | middleware.ts:107-113 | every `/admin` and `/profile` path reaches the middleware |
| Middleware.AdminNeedsAdminRole | middleware.ts:91-104 | an `/admin` path goes to sign-in exactly without a token of role ADMIN |
| Middleware.ProfileNeedsToken | middleware.ts:91-104 | a `/profile` path goes to sign-in exactly without a token |
| Middleware.ProtectedAreasNotListed | middleware.ts:5-48 | even when authorised, `/admin` and `/profile` paths are not listed and are redirected |
| Middleware.ExcludedNotMatched | middleware.ts:107-113 | paths under an excluded word pass untouched |
| Middleware.RedirectTargetsPass | middleware.ts:81-113 | `/not-found` and `/login` pass, so redirects do not loop |
| Middleware.ImagesSkipPathCheck | middleware.ts:53-113 | `/images/...` requests pass because the matcher skips them, though the path check would redirect them |
| Middleware.ImagePathRedirected | middleware.ts:53-84 | the path check alone would send `/images/...` to not-found |
| BrandCategoryForm.Without | app/dashboard/brand-category/new/page.tsx:104-106 | removing a category never lengthens the selection |
| BrandCategoryForm.WithoutMembers | app/dashboard/brand-category/new/page.tsx:104-106 | the selection loses exactly that category |
| BrandCategoryForm.WithoutAbsent | app/dashboard/brand-category/new/page.tsx:104-106 | removing an unselected category changes nothing |
| BrandCategoryForm.WithoutKeepsNoDuplicates | app/dashboard/brand-category/new/page.tsx:104-106 | removal keeps the selection free of duplicates |
| BrandCategoryForm.ToggleMembers | app/dashboard/brand-category/new/page.tsx:95-102 | selecting toggles exactly that category's membership |
| BrandCategoryForm.Toggle | app/dashboard/brand-category/new/page.tsx:95-102 | the clicked category is selected afterwards exactly when it was not selected before |
| BrandCategoryForm.ToggleKeepsNoDuplicates | app/dashboard/brand-category/new/page.tsx:95-102 | toggling keeps the selection free of duplicates |
| BrandCategoryForm.ToggleTwice | app/dashboard/brand-category/new/page.tsx:95-102 | toggling twice restores the members, and the exact selection when the category was unselected |
| BrandCategoryForm.WithoutAppend | app/dashboard/brand-category/new/page.tsx:95-106 | removing a category just appended restores the selection |
| BrandCategoryForm.ProblemOrder | app/dashboard/brand-category/new/page.tsx:111-127 | each validation message is shown exactly when every earlier check passed |
| BrandCategoryForm.FirstProblem | app/dashboard/brand-category/new/page.tsx:111-127 | a form with no problem has a name, a description, a brand and at least one selected category |
| BrandCategoryForm.Payloads | app/dashboard/brand-category/new/page.tsx:133-145 | one request per selected category, in order |
| BrandCategoryForm.AnyFails | app/dashboard/brand-category/new/page.tsx:147-152 | the submission fails exactly when some request is refused |
| BrandCategoryForm.PayloadsPassRouteGuard | app/dashboard/brand-category/new/page.tsx:129-145 | a validated form sends requests that pass the route's required-field check |
| BrandCategoryForm.Page.SelectCategory | app/dashboard/brand-category/new/page.tsx:95-102 | the selection becomes the toggled selection |
| BrandCategoryForm.Page.RemoveCategory | app/dashboard/brand-category/new/page.tsx:104-106 | the selection loses that category |
| BrandCategoryForm.Page.HandleSubmit | app/dashboard/brand-category/new/page.tsx:108-161 | an invalid form sends nothing; otherwise one request per category is sent and the outcome fails exactly when one is refused |
| ProductForm.Decimal | app/dashboard/products/new/page.tsx:112-116 | the decimal text of a number is non-empty and all digits |
| ProductForm.DecimalValue | app/dashboard/products/new/page.tsx:112-116 | the digits read back as the number |
| ProductForm.ParseDecimal | app/dashboard/products/new/page.tsx:112-116 | `Number` of a decimal text gives the number back |
| ProductForm.ProblemOrder | app/dashboard/products/new/page.tsx:104-131 | each message is shown exactly when every earlier check passed; a valid form has a positive price and a non-negative stock |
| ProductForm.FirstProblem | app/dashboard/products/new/page.tsx:104-131 | a form with no problem has a name, a description, an accepted price and stock, a brand, a category and an image |
| ProductForm.ParseZero | app/dashboard/products/new/page.tsx:116 | `Number("0")` is 0 |
| ProductForm.ParseNumber | app/dashboard/products/new/page.tsx:112-116 | `Number` reads blank text as 0 and a string of digits as its decimal value |
| ProductForm.ZeroPriceRefusedZeroStockAccepted | app/dashboard/products/new/page.tsx:112-116 | the form refuses a price of 0 and accepts a stock of 0 |
| ProductForm.Payload | app/dashboard/products/new/page.tsx:140-151 | the request carries the name, description and image as typed, the slug generated from the name, the chosen brand and category, the price and stock as `Number` reads them (a positive price and a non-negative stock) and status AVAILABLE |
| ProductForm.RouteRequiredFields | app/dashboard/products/new/page.tsx:133-151 | a validated form meets the route's required fields exactly when its slug is non-empty and its stock is not 0 |
| ProductForm.ZeroStockRefusedByRoute | app/api/products/route.ts:37-42 | a product with stock 0 passes the form but is refused by the route as missing fields |
| ProductForm.Page.HandleSubmit | app/dashboard/products/new/page.tsx:100-168 | an invalid form sends nothing; otherwise exactly one request is sent and the outcome follows the server's answer |
| BrandForm.ProblemOrder | app/dashboard/brands/new/page.tsx:33-44 | each message is shown exactly when every earlier check passed |
| BrandForm.FirstProblem | app/dashboard/brands/new/page.tsx:33-44 | a form with no problem has a name, a description and an image |
| BrandForm.PayloadMeetsRoute | app/dashboard/brands/new/page.tsx:46-52 | a validated form sends a name; the slug is present exactly when it is non-empty; the slug is already slug-shaped |
| BrandForm.Payload | app/dashboard/brands/new/page.tsx:46-52 | the request carries the name, description and image as typed, and the slug generated from the name, which is already slug-shaped |
| BrandForm.PunctuationNameRefusedByRoute | app/api/brands/route.ts:53-58 | a name made only of punctuation passes the form but yields an empty slug, which the route refuses |
| BrandForm.PunctuationNameExists | app/dashboard/brands/new/page.tsx:33-44 | such a name exists: "!!!" is not blank and keeps no character |
| BrandForm.Page.HandleSubmit | app/dashboard/brands/new/page.tsx:31-66 | an invalid form sends nothing; otherwise exactly one request is sent and the outcome follows `res.ok` |
| OrdersDashboard.WithStatus | app/dashboard/orders/page.tsx:108-112 | the local update keeps the number of rows |
| OrdersDashboard.WithStatusEffect | app/dashboard/orders/page.tsx:108-112 | exactly the rows with that id get the new status; everything else is unchanged |
| OrdersDashboard.WithStatusAbsent | app/dashboard/orders/page.tsx:108-112 | an unknown id changes nothing |
| OrdersDashboard.LastUpdateWins | app/dashboard/orders/page.tsx:108-112 | two updates of one order equal the last one alone |
| OrdersDashboard.NextStepFollowsPath | app/dashboard/orders/page.tsx:232-246 | each row action moves one step along PENDING, PROCESSING, SHIPPING, DELIVERED; none off that path or at its end |
| OrdersDashboard.NextStep | app/dashboard/orders/page.tsx:232-246 | an action always changes the status, never back to PENDING and never to CANCELLED or SUCCESS; DELIVERED, CANCELLED and SUCCESS rows offer none |
| OrdersDashboard.PendingToDelivered | app/dashboard/orders/page.tsx:232-246 | three actions take a new order to DELIVERED, and then none is offered |
| OrdersDashboard.MenuOffersAnyStatus | app/dashboard/orders/page.tsx:154-177 | the status menu offers every status but SUCCESS, from any status |
| OrdersDashboard.Table.HandleUpdateStatus | app/dashboard/orders/page.tsx:91-119 | the list changes, through the local update, only when the server accepts |

## Left out

- **Network and UI.** Network I/O, toasts, routing and loading spinners are not modelled.
  - The server's answer to a form submission or status update is a parameter (`accepted`, `failing`).
  - The cart store's sync to the server is a ghost log of the item lists sent.
  - A thrown fetch counts as not accepted.
- **Concurrency.** Handlers run one at a time. `Promise.all` is modelled as sending its requests in order.
- **Numbers.** JavaScript floating point is not modelled. Prices and totals are integers.
  - `Number`, `parseInt` and `parseFloat` are modelled on decimal integer text with optional sign and surrounding whitespace.
  - Any other numeral is treated as not a number.
- **Ids and time.** Prisma's cuid ids and `createdAt` timestamps are abstracted to one counter of natural numbers.
- **Order of unordered queries.** The product and brand-category listings are maps, with no order.
  - The categories listing and the link lists have no `orderBy` in the source. They are modelled in creation order.
  - The same holds for the includes without `orderBy`, which the database may return in any order:
    - the cart's items in `CartRoute.Get` and `CartRoute.PostThenGet` (app/api/cart/route.ts:57-66);
    - an order's items in `OrdersRoute.FetchOne` and `OrdersRoute.PlacedOrderListedFirst` (app/api/orders/route.ts:81-91);
    - a brand's and a category's product lists in `BrandsRoute.ProductsFollowBrand` and `CategoriesRoute.ProductsFollowCategory`.
- **PUT with null.** An explicit `null` field in a PUT of a brand-category link is not modelled. A field is either given or absent.
- **String numbers.** A product POST whose stock or price arrives as a string is not modelled. The request carries integers.
- **Database errors.** Prisma errors other than foreign-key failures are not modelled.
  - A foreign-key failure answers 500. This covers a cart or order line naming a missing product, and a product naming a missing brand or category.
  - Order deletion faults are a parameter.
- CartRoute.Post: a body without `items` is not modelled. The source creates the cart and deletes its rows (app/api/cart/route.ts:16-29) before it reads `items` (line 33), so the 500 it then answers keeps those writes.
- OrdersRoute.Post: a body without `shippingInfo` is not modelled. The source throws reading it (app/api/orders/route.ts:30) and answers 500 with nothing written.
- OrdersRoute.Post: the Prisma schema is not part of this model. The cart's item rows are taken to be removed with the cart, as a cascading relation does; under a restricting relation the delete would fail and the handler would answer 500 with the order kept.
- Middleware.Gate: `withAuth`'s prefix test on its own routes uses the path of `NEXTAUTH_URL`, taken to be the default `/api/auth`. On paths the matcher lets through, the pass-through reduces to `/favicon.ico` either way.
- **Sign-in redirect.** `withAuth`'s redirect to the sign-in page is one decision, `RedirectSignIn`. The callback URL is not modelled.
- **Status badge crash.** The table's status badge for a SUCCESS order (`statusMap` has no entry for it) is not modelled. The source crashes rendering that cell.
- Slug.Lower: lowercasing covers ASCII only. A non-ASCII character whose lowercase is ASCII (the Kelvin sign becomes `k`) is dropped by the model's later stripping, while the source keeps it.
- **Other routes and pages.** The admin and user listing routes, authentication, checkout and image upload are not part of this model.
