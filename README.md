# Product catalog dashboard — a verified model

This project models the logic behind a small product catalog application. The application has two
React clients: a read-only "Product Dashboard" and a management front end. They talk to two Express
servers: one serves products, the other handles authentication. The model covers five sequential
cores:

- **The catalog store** (`ProductStore`, `Catalog`, `Pagination`). The store's fields are the full
  product list, the visible list, the category list, the current page and the page size. Its actions
  are set, search, filter by category, sort by price and set page. The pages compute the page window
  and the page count from these fields.
- **The client session** (`Session`, `FrontendAuthStore`, `DashboardAuthStore`, `RequireAuth`,
  `LoginPage`). Two near-identical auth stores move between `idle`, `loading`, `authenticated` and
  `unauthenticated`. A route gate maps the status to a spinner, a redirect or the protected page. A
  sign-in/register form drives the store.
- **The product dialog** (`ManageHome`). The management page checks a product form in a fixed order
  and sends a create or update request only when every check passes.
- **The product handlers** (`ProductsModel`, `ProductsController`). These are status-code decision
  chains over a products table: truthiness validation, then existence, then ownership, then the write.
- **The auth handlers** (`UserModel`, `AuthController`). Register, login, logout and current-user run
  over a users table. Hashing and token signing are abstract.

`JsValues` holds the JavaScript semantics these cores rely on: truthiness, ASCII `toLowerCase`,
`includes`, `trim` over ECMAScript white space, and `slice`. `ClientServer` connects the product
dialog to the product handlers.

Stateful code is written as classes with `modifies` clauses. Each method is proved against pure
specification functions, and the functions' properties are proved as lemmas:

- `ProductStore.Store` keeps `multiset(filteredProducts) <= multiset(products)` as an invariant: the
  visible list is always a permutation of a subsequence of the catalog.
- The two `AuthStore` classes end every action in `Session.<Action>(old(State()), response)`.
- `ProductsModel.ProductTable` and `UserModel.UserTable` are tables whose methods state the whole new
  table.

The network is replaced by outcome parameters: `Outcome<T>`, `SaveOutcome`, `Option<seq<Product>>`.
The database answering is the parameter `dbUp`. The password hash and `bcrypt.compare` are the
parameters `hashed` and `compare`. A signed token is the value `Signed(claims, "3d")`.

## Model

| member | source | states |
|---|---|---|
| ProductStore.Store.constructor | Product-Dashboard/src/store/ProductStore.ts:19-25 | the store starts with empty lists, page 1 and 6 items per page |
| ProductStore.Store.SetProducts | Product-Dashboard/src/store/ProductStore.ts:27-35 | catalog and view both become the list; categories become `Categories(list)`; the page is kept; the invariant holds |
| ProductStore.Store.Search | Product-Dashboard/src/store/ProductStore.ts:37-47 | the view is rebuilt from the whole catalog (not the current view) as the term's matches; the page resets to 1; the catalog and categories are unchanged |
| ProductStore.Store.FilterByCategory | Product-Dashboard/src/store/ProductStore.ts:49-56 | `"all"` restores the catalog; any other value keeps the products of exactly that category; the page resets to 1 |
| ProductStore.Store.SortByPrice | Product-Dashboard/src/store/ProductStore.ts:58-67 | `default` resets the view to the catalog, dropping any search or filter; `asc`/`desc` reorder the current view by `Catalog.SortByPrice`; the page is kept |
| ProductStore.Store.SetPage | Product-Dashboard/src/store/ProductStore.ts:69 | stores the page with no bounds check and changes nothing else |
| ProductStore.SortedView | Product-Dashboard/src/store/ProductStore.ts:63-66 | the sorted view is ordered, is a permutation of the previous view, and keeps equal prices in their previous relative order |
| Catalog.Filter | Product-Dashboard/src/store/ProductStore.ts:40-44 | the filtered list is no longer than the input and every element satisfies the criterion |
| Catalog.FilterSubsequence | Product-Dashboard/src/store/ProductStore.ts:40-44 | the filtered list is a subsequence of the input, so input order is kept |
| Catalog.FilterCount | Product-Dashboard/src/store/ProductStore.ts:40-44 | each product occurs in the result as often as in the input if it satisfies the criterion, else never |
| Catalog.FilterSubMultiset | Product-Dashboard/src/store/ProductStore.ts:37-56 | search and category views are sub-multisets of the catalog |
| Catalog.SubsequenceMultiset | Product-Dashboard/src/store/ProductStore.ts:37-56 | a subsequence is a sub-multiset |
| Catalog.FilterKeepingAll | Product-Dashboard/src/store/ProductStore.ts:40-44 | a filter that every element satisfies returns the input unchanged |
| Catalog.FilterAppend | Product-Dashboard/src/store/ProductStore.ts:40-44 | filtering distributes over concatenation |
| Catalog.SearchEmptyKeepsAll | Product-Dashboard/src/store/ProductStore.ts:40-44 | searching for `""` keeps every product, because every string includes the empty string |
| Catalog.SearchIgnoresCase | Product-Dashboard/src/store/ProductStore.ts:42-43 | two terms that lowercase alike select the same products |
| Catalog.Insert | Product-Dashboard/src/store/ProductStore.ts:63-65 | inserting adds exactly the one element to the multiset |
| Catalog.InsertPreceded | Product-Dashboard/src/store/ProductStore.ts:63-65 | an element that may precede the list and the inserted element may precede the result |
| Catalog.InsertOrdered | Product-Dashboard/src/store/ProductStore.ts:63-65 | inserting into an ordered list keeps it ordered |
| Catalog.InsertStable | Product-Dashboard/src/store/ProductStore.ts:63-65 | the inserted element goes before every element of equal price already present |
| Catalog.SortByPrice | Product-Dashboard/src/store/ProductStore.ts:63-65 | the result is ordered by price (non-decreasing or non-increasing) and is a permutation of the input |
| Catalog.SortStable | Product-Dashboard/src/store/ProductStore.ts:63-65 | for every price, the products at that price appear in the same order as before, as a stable sort guarantees |
| Catalog.OrderedUnique | Product-Dashboard/src/store/ProductStore.ts:63-65 | when no two products share a price, two lists ordered the same way with the same products are equal, so the sorted view is unique |
| Catalog.SortDirectionsMirror | Product-Dashboard/src/store/ProductStore.ts:63-65 | when no two prices tie, the descending sort is exactly the ascending sort reversed |
| Catalog.AscThenDescReverses | Product-Dashboard/src/store/ProductStore.ts:58-67 | when no two prices tie, sorting a view ascending and then descending gives exactly the reverse of the ascending view |
| Catalog.FirstIndex | Product-Dashboard/src/store/ProductStore.ts:28 | an index no greater than the length, holding the category when it is less |
| Catalog.FirstIndexIsFirst | Product-Dashboard/src/store/ProductStore.ts:28 | no product before that index has the category |
| Catalog.FirstIndexAt | Product-Dashboard/src/store/ProductStore.ts:28 | a position holding the category with none before it is the first index |
| Catalog.FirstIndexInPrefix | Product-Dashboard/src/store/ProductStore.ts:28 | a first occurrence found in a prefix is the first occurrence in the whole list |
| Catalog.Categories | Product-Dashboard/src/store/ProductStore.ts:28 | there are at most as many categories as products |
| Catalog.CategoriesCover | Product-Dashboard/src/store/ProductStore.ts:28 | every product's category is listed |
| Catalog.CategoriesFirstSeen | Product-Dashboard/src/store/ProductStore.ts:28 | every product's category is listed; the categories are listed in order of first appearance |
| Catalog.CategoriesDistinct | Product-Dashboard/src/store/ProductStore.ts:28 | no category is listed twice |
| Catalog.CategoriesExact | Product-Dashboard/src/store/ProductStore.ts:28 | a string is listed exactly when some product has it as its category |
| JsValues.LowerChar | Product-Dashboard/src/store/ProductStore.ts:42 | upper-case ASCII letters map to lower case (32 code points down); every other character is unchanged |
| JsValues.Lower | Product-Dashboard/src/store/ProductStore.ts:42-43 | lowercasing keeps the length and maps each character on its own |
| JsValues.LowerIdempotent | Product-Dashboard/src/store/ProductStore.ts:42-43 | lowercasing twice equals lowercasing once |
| JsValues.IncludesAt | Product-Dashboard/src/store/ProductStore.ts:42-43 | `includes` holds exactly when the needle occurs at some index |
| JsValues.IncludesEmpty | Product-Dashboard/src/store/ProductStore.ts:40-44 | every string includes the empty string |
| JsValues.TrimStartSpec | frontend/src/pages/Login.tsx:31 | the result is a suffix of the input; every dropped character is white space; the result does not start with white space |
| JsValues.TrimEndSpec | frontend/src/pages/Login.tsx:31 | the result is a prefix of the input; every dropped character is white space; the result does not end with white space |
| JsValues.TrimEmptyIffBlank | frontend/src/pages/Login.tsx:31-32 | a string trims to empty exactly when all its characters are white space |
| JsValues.TrimIsCore | frontend/src/pages/Home.tsx:109-112 | the trimmed string occurs inside the original and has no white space at either end |
| JsValues.TrimUntouched | frontend/src/pages/Home.tsx:109-112 | a string with no white space at either end trims to itself |
| JsValues.RelativeIndex | Product-Dashboard/src/pages/Home.tsx:32-35 | `slice` index resolution: a negative index counts back from the end, and any index is clamped to `[0, len]` |
| JsValues.Slice | Product-Dashboard/src/pages/Home.tsx:32-35 | a slice is never longer than the sequence |
| Pagination.WindowOfPage | Product-Dashboard/src/pages/Home.tsx:31-35 | for page ≥ 1 the window starts at `(page-1)*size` and has length `max(0, min(size, len - start))`; it is the slice from the start index, or empty past the end |
| Pagination.ItemOnItsPage | Product-Dashboard/src/pages/Home.tsx:31-35 | item `i` is shown on page `i / size + 1` at position `i % size` |
| Pagination.TotalPages | Product-Dashboard/src/pages/Home.tsx:37 | the least page count whose pages hold every item: `ceil(len / size)` |
| Pagination.PagerShownIffOverflow | Product-Dashboard/src/pages/Home.tsx:98 | the pager appears (`totalPages > 1`) exactly when there are more items than fit on one page |
| Pagination.ShowingBounds | Product-Dashboard/src/pages/Home.tsx:71-72 | the "Showing" upper bound never exceeds the list length and, on a real page, exceeds the start index by exactly the window's length |
| Pagination.TenItemsSixPerPage | frontend/src/pages/Home.tsx:186-192 | with 10 items and 6 per page, page 2 holds the last 4 items, there are 2 pages, and "Showing" ends at 10 |
| Pagination.OutOfRangePages | frontend/src/pages/Home.tsx:186-190 | page 0 shows nothing; page -1 shows the first 4 of 10 items, because a negative start wraps around in `slice` |
| DashboardHome.Render | Product-Dashboard/src/pages/Home.tsx:78-113 | spinner exactly while loading; the no-results message exactly when loaded and the list is empty; otherwise the page window (at most `size` items), with the pager exactly when the list is longer than a page |
| DashboardHome.Dashboard.constructor | Product-Dashboard/src/pages/Home.tsx:10 | the page mounts in the loading state |
| DashboardHome.Dashboard.FetchProducts | Product-Dashboard/src/pages/Home.tsx:19-29 | a successful fetch replaces the catalog; a failed one leaves the store as it was; loading ends false either way |
| ManageHome.Clean | frontend/src/pages/Home.tsx:109-146 | the payload of a checked form has price > 0, rate in [0, 5] and rating count ≥ 0 |
| ManageHome.PlanSubmit | frontend/src/pages/Home.tsx:101-161 | a request is sent exactly when the user id is truthy, every check passes and, when editing, a product is selected; the request carries that user, the trimmed texts and parsed numbers, and the selected product when editing |
| ManageHome.RefusalNamesFirstFailure | frontend/src/pages/Home.tsx:104-156 | each refusal message appears exactly when its check fails and every earlier check passes |
| ManageHome.BlankFormRefused | frontend/src/pages/Home.tsx:118-121 | the blank create form is refused with "Please fill all fields." |
| ManageHome.ZeroRatingAccepted | frontend/src/pages/Home.tsx:128-136 | a zero rating and a zero rating count pass the client's checks |
| ManageHome.EditForm | frontend/src/pages/Home.tsx:84-92 | the edit form carries the product's own texts and numbers |
| ManageHome.UnchangedEditResends | frontend/src/pages/Home.tsx:80-161 | saving an opened product unchanged sends an update of that product with its own values, texts trimmed |
| ManageHome.ManageDashboard.constructor | frontend/src/pages/Home.tsx:43-49 | the page mounts loading, the dialog closed, in create mode, on the blank form, with no error |
| ManageHome.ManageDashboard.FetchProducts | frontend/src/pages/Home.tsx:60-70 | a successful fetch replaces the catalog; a failed one leaves the store as it was; loading ends false |
| ManageHome.ManageDashboard.OpenCreateDialog | frontend/src/pages/Home.tsx:72-78 | clears the error, selects no product and opens the blank form in create mode |
| ManageHome.ManageDashboard.OpenEditDialog | frontend/src/pages/Home.tsx:80-94 | clears the error, selects the product and opens its values in edit mode |
| ManageHome.ManageDashboard.CloseDialog | frontend/src/pages/Home.tsx:96-99 | the dialog closes unless a save is in flight; nothing else changes |
| ManageHome.ManageDashboard.SubmitDialog | frontend/src/pages/Home.tsx:101-170 | sends exactly the planned request; a refusal sets its message and leaves the store alone; a successful save closes the dialog and refetches; a failed save keeps the dialog open with the server's message or "Failed to save product."; `saving` ends false |
| ManageHome.ManageDashboard.DeleteProduct | frontend/src/pages/Home.tsx:172-184 | a delete is sent exactly when the user id is truthy and the user confirms; the store changes only by a refetch after a successful delete; `loading` ends false after that refetch and is otherwise untouched |
| Session.ServerMessage | frontend/src/store/AuthStore.ts:58-60 | the frontend copy reads the server message only from Axios errors; the dashboard copy reads it from any error |
| Session.Bootstrap | frontend/src/store/AuthStore.ts:38-49 | changes nothing while loading; otherwise ends settled with no error, authenticated with the returned user exactly on success, or unauthenticated with no user |
| Session.Register | frontend/src/store/AuthStore.ts:51-67 | always ends unauthenticated and never writes the user; a failure sets the server message or "Registration failed" |
| Session.Login | frontend/src/store/AuthStore.ts:69-85 | authenticated with the user and no error exactly on success; otherwise no user, and the server message or "Login failed" |
| Session.Logout | frontend/src/store/AuthStore.ts:87-94 | always ends with no user, unauthenticated and no error, whether or not the request fails |
| Session.ClearError | frontend/src/store/AuthStore.ts:36 | clears the error and keeps the user and the status |
| Session.Partialize | frontend/src/store/AuthStore.ts:98 | only the user and the status are persisted |
| Session.Rehydrate | frontend/src/store/AuthStore.ts:96-99 | restoring persisted state gives back exactly what was saved, with no error |
| Session.ClearErrorNotPersisted | frontend/src/store/AuthStore.ts:36-98 | clearing the error does not change what is persisted |
| Session.ActionsRestoreConsistency | frontend/src/store/AuthStore.ts:38-94 | after bootstrap, login or logout, a user is present exactly when the status is authenticated; clear-error preserves this |
| Session.RegisterKeepsUser | frontend/src/store/AuthStore.ts:51-56 | registering while signed in leaves the user set with the status unauthenticated, which breaks the user/status agreement |
| Session.CopiesAgreeOnAxiosErrors | Product-Dashboard/src/store/AuthStore.ts:52-56 | on an Axios error the two store copies give the same login and register results |
| Session.CopiesDifferOnOtherErrors | Product-Dashboard/src/store/AuthStore.ts:66-72 | for a non-Axios error that carries a message, the dashboard copy shows the message and the frontend copy shows "Login failed" |
| FrontendAuthStore.AuthStore.constructor | frontend/src/store/AuthStore.ts:32-34 | the store starts with no user, status idle and no error |
| FrontendAuthStore.AuthStore.ClearError | frontend/src/store/AuthStore.ts:36 | the new state is `Session.ClearError` of the old one |
| FrontendAuthStore.AuthStore.Bootstrap | frontend/src/store/AuthStore.ts:38-49 | the new state is `Session.Bootstrap` of the old one |
| FrontendAuthStore.AuthStore.Register | frontend/src/store/AuthStore.ts:51-67 | the new state is `Session.Register` with Axios-only messages; the failure is rethrown exactly when the request fails |
| FrontendAuthStore.AuthStore.Login | frontend/src/store/AuthStore.ts:69-85 | the new state is `Session.Login` with Axios-only messages; the failure is rethrown exactly when the request fails |
| FrontendAuthStore.AuthStore.Logout | frontend/src/store/AuthStore.ts:87-94 | the new state is `Session.Logout`; a request failure still propagates after the `finally` |
| DashboardAuthStore.AuthStore.constructor | Product-Dashboard/src/store/AuthStore.ts:27-29 | the store starts with no user, status idle and no error |
| DashboardAuthStore.AuthStore.ClearError | Product-Dashboard/src/store/AuthStore.ts:31 | the new state is `Session.ClearError` of the old one |
| DashboardAuthStore.AuthStore.Bootstrap | Product-Dashboard/src/store/AuthStore.ts:33-44 | the new state is `Session.Bootstrap` of the old one |
| DashboardAuthStore.AuthStore.Register | Product-Dashboard/src/store/AuthStore.ts:46-59 | the new state is `Session.Register` with messages from any error; the failure is rethrown |
| DashboardAuthStore.AuthStore.Login | Product-Dashboard/src/store/AuthStore.ts:61-74 | the new state is `Session.Login` with messages from any error; the failure is rethrown |
| DashboardAuthStore.AuthStore.Logout | Product-Dashboard/src/store/AuthStore.ts:76-83 | the new state is `Session.Logout` |
| RequireAuth.Gate | Product-Dashboard/src/components/RequireAuth.tsx:17-29 | spinner exactly for idle or loading; children exactly when authenticated; a replacing redirect to `/login` that carries the location exactly when unauthenticated |
| RequireAuth.AfterMount | Product-Dashboard/src/components/RequireAuth.tsx:11-15 | bootstrap runs only from idle and then settles the status; otherwise the state is unchanged |
| RequireAuth.FreshSessionResolves | Product-Dashboard/src/components/RequireAuth.tsx:11-29 | a first visit leaves the spinner after one bootstrap and shows the children exactly when `/auth/me` succeeds |
| RequireAuth.ReloadWhileLoadingSpinsForever | Product-Dashboard/src/store/AuthStore.ts:33-88 | state persisted while loading reloads as loading: the mount effect and bootstrap both do nothing, so the gate shows the spinner |
| RequireAuth.PartializeResumable | Product-Dashboard/src/store/AuthStore.ts:85-88 | the corrected persistence never stores loading and otherwise stores what `partialize` stores |
| RequireAuth.ReloadAlwaysResolves | Product-Dashboard/src/components/RequireAuth.tsx:11-23 | with the corrected persistence, every reload leaves the spinner after mounting |
| LoginPage.TrimmedNonEmpty | frontend/src/pages/Login.tsx:31 | `!s.trim()` is false exactly when `s` has a non-white-space character |
| LoginPage.CanSubmit | frontend/src/pages/Login.tsx:30-34 | submit is allowed exactly when email and password have content and, in register mode, so does the username |
| LoginPage.SignInIgnoresUsername | frontend/src/pages/Login.tsx:32-33 | in sign-in mode the username does not affect `canSubmit` |
| LoginPage.SubmitDisabledWhen | frontend/src/pages/Login.tsx:103-107 | the submit button is disabled exactly while loading or while the email, the password or (when registering) the username trims to nothing |
| LoginPage.LoginForm.constructor | frontend/src/pages/Login.tsx:19-23 | the form opens in sign-in mode with empty fields |
| LoginPage.LoginForm.OnSubmit | frontend/src/pages/Login.tsx:36-48 | the error is cleared first; register switches to sign-in only when it resolves; sign-in navigates to `/` only when it resolves; a rejection propagates |
| LoginPage.LoginForm.Toggle | frontend/src/pages/Login.tsx:114-117 | clears the error and flips between sign-in and register |
| ProductsModel.ProductTable.FindProductById | Backend-Task/src/models/productsModel.js:3-9 | the row stored under the id, or nothing when there is none |
| ProductsModel.ProductTable.RowsFrom | Backend-Task/src/models/productsModel.js:11-14 | every row from a given id on, each exactly once, in increasing id order |
| ProductsModel.ProductTable.GetAllProducts | Backend-Task/src/models/productsModel.js:11-14 | every row, in increasing id order, and nothing else |
| ProductsModel.ProductTable.CreateProduct | Backend-Task/src/models/productsModel.js:16-40 | adds one row with a fresh id, the given fields and the owner; other rows are unchanged |
| ProductsModel.ProductTable.UpdateProduct | Backend-Task/src/models/productsModel.js:42-68 | overwrites the fields only of a row matching both the id and the owner, and reports 1 affected row; otherwise changes nothing |
| ProductsModel.ProductTable.DeleteProductById | Backend-Task/src/models/productsModel.js:70-76 | removes only a row matching both the id and the owner; otherwise changes nothing |
| ProductsController.ShapeRoundTrip | Backend-Task/src/controllers/productsController.js:14-28 | the response shape loses nothing but the owner: `rate` and `rate_count` reappear as `rating.rate` and `rating.count` |
| ProductsController.ZeroReadsAsMissing | Backend-Task/src/controllers/productsController.js:71-80 | a zero price, rating or rating count fails the required-field check |
| ProductsController.GetProducts | Backend-Task/src/controllers/productsController.js:10-34 | 200 with one shaped product per row, in row order; 500 when the database fails |
| ProductsController.GetProductsById | Backend-Task/src/controllers/productsController.js:37-61 | 200 with a one-element array exactly when the row exists; an absent id gives 500, not 404 |
| ProductsController.AddStatus | Backend-Task/src/controllers/productsController.js:64-99 | 400 exactly when some field is falsy; 201 exactly when every field is truthy and the insert runs; otherwise 500 |
| ProductsController.EditStatus | Backend-Task/src/controllers/productsController.js:102-144 | fields are checked first (400), then existence (404), then ownership (403); 200 exactly for the owner of an existing product |
| ProductsController.DeleteStatus | Backend-Task/src/controllers/productsController.js:147-166 | no field check; 404 for an absent product, 403 for a non-owner, 200 exactly for the owner |
| ProductsController.AddProduct | Backend-Task/src/controllers/productsController.js:64-99 | on 201 exactly one new row owned by the route's user, returned by id; on any other status the table is unchanged |
| ProductsController.EditProduct | Backend-Task/src/controllers/productsController.js:102-144 | on 200 the product's fields are overwritten; on any other status the table is unchanged; each status has its message |
| ProductsController.DeleteProduct | Backend-Task/src/controllers/productsController.js:147-166 | on 200 the row is removed; on 403 or 404 it stays; each status has its message |
| ProductsController.OnlyOwnerMutates | Backend-Task/src/controllers/productsController.js:120-158 | neither edit nor delete succeeds for a user who does not own the product |
| ClientServer.Received | frontend/src/pages/Home.tsx:138-146 | the JSON body arrives with strings as strings and numbers as numbers |
| ClientServer.SentPassesServerIff | Backend-Task/src/controllers/productsController.js:71-80 | of the requests the client sends, the server accepts exactly those with a non-zero rating and a non-zero rating count |
| ClientServer.UnratedProductRejected | frontend/src/pages/Home.tsx:128-136 | a product nobody has rated yet passes the client's checks and gets 400 from the server |
| ClientServer.AddStatusIntended | Backend-Task/src/controllers/productsController.js:71-81 | the corrected add handler rejects with 400 exactly when a field is absent or an empty string, so a zero number counts as provided |
| ClientServer.SentCreatesAreStored | Backend-Task/src/controllers/productsController.js:71-95 | under the corrected check, every create the client sends is stored (201) when the database answers |
| UserModel.FindUserByEmail | Backend-Task/src/models/userModel.js:10-15 | the first row with that email, or nothing exactly when no row has it |
| UserModel.GetAllUsers | Backend-Task/src/models/userModel.js:3-8 | one `{id, username, email}` projection per user, in order, with no password |
| UserModel.GetAllUsersIgnoresStore | Backend-Task/src/models/userModel.js:4-6 | the result does not depend on `store_id` |
| UserModel.UserTable.CreateUser | Backend-Task/src/models/userModel.js:17-23 | appends exactly one row with a fresh id that stores the hashed password |
| AuthController.SendToken | backend/src/controllers/authController.js:11-26 | sets the `token` cookie, signed over `{id, email, role}`, http-only, secure only in production |
| AuthController.CookieLivesAsLongAsToken | backend/src/controllers/authController.js:12-23 | the token expires in "3d" and the cookie's `maxAge` is 259200000 ms, the same three days |
| AuthController.RegisterStatus | backend/src/controllers/authController.js:28-51 | 400 exactly for a missing field or an existing email; 500 exactly when the fields are filled and the database fails; 201 exactly when the fields are filled, the database answers and no row has the email |
| AuthController.RegisterUser | backend/src/controllers/authController.js:28-51 | on 201 exactly one row is added, holding the hash, never the plaintext, and its id is returned; otherwise nothing is created; no cookie is ever set |
| AuthController.LoginUser | backend/src/controllers/authController.js:53-84 | 200 exactly when the fields are filled, the email is known and the password matches; 400 exactly for a missing field or a password that does not match the found row; 404 exactly for an unknown email; 500 exactly for a database failure after the field check; the cookie is set exactly on 200, and on 200 the body is the found row without its password and the cookie carries that row's token |
| AuthController.Logout | backend/src/controllers/authController.js:86-94 | always 200, and the `token` cookie is cleared |
| AuthController.LogoutClearsTheSetCookie | backend/src/controllers/authController.js:86-91 | logout clears the same cookie name, with the same options, that login sets |
| AuthController.CurrentUser | backend/src/controllers/authController.js:96-120 | 401 exactly without a user or email on the request; 500 exactly for a database failure after that; 404 exactly when no row has that email; 200 exactly when a row has it, with that row's id, username and email as the body |
| AuthController.RegisterThenLogin | backend/src/controllers/authController.js:28-120 | a fresh email registers (201), then logs in (200, cookie for that email) as the registered user (the id `register` returned, the username and the email), and current-user then answers 200 with that same user |
| AuthController.FirstMatchIsNew | Backend-Task/src/models/userModel.js:10-15 | after a new email is registered, the lookup finds the new row |

## Left out

- React rendering, MUI layout and the presentational components are left out: they only forward events to the store.
- Both product detail pages are left out; they are rendering and number formatting.
- Network transport is not modelled. Each request is an outcome parameter, and axios, cookie transport and `db.query` are not modelled.
- Async interleaving is left out. Each action runs to completion before the next one starts. Stale responses overwriting newer state, and double submits, are not modelled. As a consequence, `saving` is always false between calls, and the `CloseDialog` guard only matters under interleaving.
- bcrypt and JWT are parameters: a hash string, a `compare` function and a `Signed` token value. The `protect` middleware that fills `req.user` is not part of this model; `CurrentUser` takes its result as a parameter.
- Floating point is not modelled. Prices and ratings are `real` values, and NaN is not a value.
- `Number(text)` on the form fields is a parameter of the form: `Some(x)` stands for a finite number, `None` for NaN or an infinity. The blank form's numeric fields are `Some(0.0)`, because `Number("")` is 0.
- ManageHome.EditForm: `String(n)` followed by `Number(...)` is assumed to give back `n`. This holds for finite doubles.
- JsValues.Lower: only ASCII letters are lowercased. Unicode case mapping is left out.
- The route parameters are plain integers; `parseInt` on them is left out. A non-numeric `userId` never equals an owner id, and the model does not cover that case.
- The `image` response field versus the `product_image` insert column depends on a database schema that is not shown. Rows store one `image` field.
- MySQL collation is left out: email lookup compares strings exactly.
- Zustand `persist` and localStorage are modelled only as `Partialize` and `Rehydrate` of the persisted fields.
- The management page's product store lives in `frontend/src/store/ProductStore.ts`, which is not part of this model. It is modelled by the dashboard's store.
- The auth request bodies hold optional strings. A non-string JSON value for `username`, `email` or `password` is not modelled.
- The register and login request payloads sent by the stores are not modelled: the stores' outcomes are parameters.
- The stores' intermediate `loading` state is not observable between calls, so each store method states only the final state.
- Registering while signed in keeps the user but sets the status to unauthenticated, so user and status disagree until the next bootstrap, login or logout (`Session.RegisterKeepsUser`). This is accepted and modelled as written: the next login, logout or bootstrap (when not already loading) restores the agreement (`Session.ActionsRestoreConsistency`).
- A delete by a non-owner answers 403 before any row is touched; the model follows the code.
- A lookup of an absent product id dereferences `undefined` and answers 500; the model follows the code.
- `SELECT * FROM products` and `SELECT * FROM users` have no `ORDER BY`, so the row order is the database engine's choice. The model takes it to be increasing id order. That order also decides which row `FindUserByEmail` returns first when two rows share an email.
- The server's `getUsers` handler only forwards `getAllUsers`, so only `UserModel.GetAllUsers` is modelled.
- Catalog.Categories: its own contract states only the length bound. First-seen order, distinctness and coverage are stated by `CategoriesFirstSeen`, `CategoriesDistinct` and `CategoriesExact`.
- JsValues.Slice: its own contract states only the length bound. The window it produces is stated by `Pagination.WindowOfPage`.

## Findings

| source | as written | input that shows it | evidently intended | confidence | as-written member | corrected member |
|---|---|---|---|---|---|---|
| Product-Dashboard/src/store/AuthStore.ts:87 | `partialize` persists `status`, including `loading`, and `bootstrap` returns at once when the status is `loading` | reload the page while `/auth/me` is pending: the status rehydrates as `loading`, `RequireAuth` never calls `bootstrap`, and the spinner stays up | persist only a settled status, so a reload resumes from `idle` and bootstraps again | medium, not executed | RequireAuth.ReloadWhileLoadingSpinsForever | RequireAuth.ReloadAlwaysResolves |
| Backend-Task/src/controllers/productsController.js:71-80 | the required-field check uses truthiness, so numeric zero reads as missing | a signed-in user creates a product with rating 0 and rating count 0: the client (frontend/src/pages/Home.tsx:128-136) accepts it and the server answers 400 "Missing required fields" | a zero rating and a zero rating count are valid values for a new product | high, not executed | ClientServer.UnratedProductRejected | ClientServer.SentCreatesAreStored |

For the first finding, `Session.Partialize` and the two stores model the persistence as written. The
corrected persistence is `RequireAuth.PartializeResumable`. For the second finding, the controller
models the code as written. The corrected handler is `ClientServer.AddStatusIntended`.
