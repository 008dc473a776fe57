# Storefront core in Dafny

This project models the logic of a small storefront: a React frontend and a Spring backend. The model covers three parts.

- **Admin role and identity cache.** The frontend caches the signed-in user as a JSON object under the localStorage key `minimalUser`. The admin route guard (`AdminRoute` in `App.js`) and the user helper (`userHelper.js`) decide admin status from that cached role and fall back to the backend. When the backend says the user is an admin, they rewrite the cached role. The registration modal writes the cached identity. The admin product page gates its add, update and delete requests behind a case-sensitive role check and keeps an edit form.
- **Checkout and order placement.** The checkout view validates an order, then sends it and navigates on success. On the backend, `PlaceOrderCommand` turns a cart into an order and can undo that. `OrderCommandInvoker` keeps a LIFO history of the commands that succeeded.
- **Backend services.**
  - the user facade's role normalisation, login and role lookup, and the authorization check;
  - a caching proxy in front of the product repository;
  - a flyweight factory of product categories;
  - a cursor over a product's reviews, and the review utilities (sort by rating, rating total and count).

How the model stands in for things it cannot run:

- **JavaScript values.**
  - Values are a small JSON datatype.
  - An absent field is `None`.
  - Truthiness follows JavaScript.
  - Calling `toUpperCase` on a truthy non-string is a `TypeError` result.
- **The cache.** The localStorage entry is `Missing`, `Corrupt` (text that does not parse) or `Stored(object)`.
- **Backend answers.** Every answer the frontend waits for is a `Result` parameter. The methods return which request, if any, was sent.
- **Repositories.**
  - Carts, orders and users are maps or sequences of records held by a repository class.
  - Clocks, the ids the store assigns and the password hash are parameters.
  - Calendar dates are day numbers.

One Dafny module per source file:

| module | file | form |
|---|---|---|
| `Text` | string built-ins used by the core | functions and lemmas |
| `IdentityCache` | cached identity object, shared by the frontend files | datatypes, functions, class `Cache` |
| `UserHelper` | `frontend/src/utils/userHelper.js` | functions, methods on `Cache` |
| `AdminRoute` | `frontend/src/App.js` | class `AdminRoute` |
| `Checkout` | `frontend/src/Checkout.jsx` | class `CheckoutView` |
| `AdminProducts` | `frontend/src/components/AdminProductManagement.jsx` | class `ProductManagement` |
| `RegisterModal` | `frontend/src/RegisterModal.jsx` | class `RegisterForm` |
| `AddProduct` | `frontend/src/Add_product.jsx` | functions, lemmas, one method |
| `Catalog` | product and review records | datatypes |
| `PlaceOrder` | `PlaceOrderCommand.java` | classes `CartRepo`, `OrdersRepo`, `PlaceOrderCommand` |
| `OrderInvoker` | `OrderCommandInvoker.java` | class `OrderCommandInvoker` |
| `Users` | `UserServiceFacade.java` | functions, class `UsersRepo` |
| `Authorization` | `AuthorizationService.java` | function and lemma |
| `ProductProxy` | `ProductRepositoryProxy.java` | class `ProductRepositoryProxy` |
| `Categories` | `flyweight/ProductCategoryFactory.java` | classes `ProductCategory`, `ProductCategoryFactory` |
| `Reviews` | both copies of `ReviewIterator.java` | class `ReviewIterator` |
| `ReviewTools` | `util/ReviewUtils.java` | functions, lemmas, methods |

## Model

| member | source | states |
|---|---|---|
| Text.Trim | frontend/src/Add_product.jsx:21-22 | the result has no white space at either end and is no longer than the input; it is empty exactly when the input is all white space |
| Text.TrimOfPadded | frontend/src/Add_product.jsx:21-22 | trim removes exactly the white space around a non-empty string that has no white space at its ends |
| Text.TrimOfTrimmed | frontend/src/Add_product.jsx:21-22 | a string with no white space at its ends is left unchanged by trim |
| Text.TrimIdempotent | frontend/src/Add_product.jsx:21-22 | trimming twice gives the same result as trimming once |
| Text.Split | frontend/src/Add_product.jsx:21-22 | split gives one piece per separator plus one, and no piece contains the separator |
| Text.JoinSplit | frontend/src/Add_product.jsx:21-22 | joining the pieces of a split with the separator gives back the input |
| Text.SplitJoin | frontend/src/Add_product.jsx:21-22 | splitting a join of separator-free pieces gives back the pieces |
| Text.TrimAll | frontend/src/Add_product.jsx:21-22 | mapping trim keeps the count, and every element is trimmed |
| Text.ToUpper | frontend/src/App.js:38 | upper-casing keeps the length; each lower-case ASCII letter becomes its upper-case partner and every other character stays; no lower-case letter remains |
| Text.ToUpperIsCaseInsensitiveKey | frontend/src/App.js:38 | two strings upper-case to the same text exactly when they differ at most in the case of their letters |
| Text.ToLower | backend/src/main/java/com/cs353/ooadproj/flyweight/ProductCategoryFactory.java:19 | lower-casing keeps the length; each upper-case ASCII letter becomes its lower-case partner and every other character stays; no upper-case letter remains |
| Text.ToLowerIsCaseInsensitiveKey | backend/src/main/java/com/cs353/ooadproj/flyweight/ProductCategoryFactory.java:19 | two names get the same lower-cased key exactly when they differ at most in the case of their letters |
| IdentityCache.RoleUpperIsAdmin | frontend/src/App.js:38 | the role test is true exactly for a string role that upper-cases to "ADMIN"; it is false for a missing or falsy role, and it throws for a truthy non-string role |
| IdentityCache.WithAdminRole | frontend/src/App.js:57 | the merged object has role "ADMIN", every other field is unchanged, and its keys are the old keys plus "role" |
| UserHelper.GetUserData | frontend/src/utils/userHelper.js:5-16 | null exactly when nothing is stored or the text does not parse; otherwise the parsed object |
| UserHelper.IsUserAdmin | frontend/src/utils/userHelper.js:18-32 | false for null; true exactly when the role upper-cases to "ADMIN", or the role test is false and `isAdmin` is exactly `true`; throws when the role test throws |
| UserHelper.LookupId | frontend/src/utils/userHelper.js:35-39 | the id used is the argument when it is truthy, otherwise the cached object's id, and none when nothing usable is cached |
| UserHelper.CheckAndFixUserData | frontend/src/utils/userHelper.js:34-65 | no usable id: null and no backend call. Otherwise one call with that id. A backend error returns the cached data and writes nothing. Nothing cached: null and no write. Otherwise the cache becomes `{...cached, role:"ADMIN"}`, which is returned, exactly when the backend's `isAdmin` is truthy and the cached role is not exactly "ADMIN"; in every other case the cached object is returned unchanged. Only `isAdmin` is consulted |
| UserHelper.UpdateUserRole | frontend/src/utils/userHelper.js:67-79 | true exactly when an object is cached; then only `role` is replaced; otherwise nothing is written |
| AdminRoute.AdminVerdict | frontend/src/App.js:50 | the backend verdict is admin exactly when `isAdmin` is truthy or the role upper-cases to "ADMIN"; it throws only when `isAdmin` is falsy and the role is a truthy non-string |
| AdminRoute.AdminRoute.View | frontend/src/App.js:74-88 | the spinner shows exactly while loading; the children show exactly when loading has ended and the user is admin; otherwise a redirect |
| AdminRoute.AdminRoute.CheckAdminStatus | frontend/src/App.js:23-69 | loading always ends. Nothing cached or unparsable: not admin, no call, no write. A cached role that upper-cases to "ADMIN": admin with no call. A role that throws: not admin. Otherwise one call with the cached id: admin exactly on an admin verdict, and then the cache becomes the old object with only role "ADMIN"; a non-admin verdict or an error writes nothing |
| AdminRoute.Mount | frontend/src/App.js:18-89 | a fresh guard shows the spinner; after the check it shows the children exactly when an identity is cached and either its role upper-cases to "ADMIN" or the backend, asked because the role did not, gave an admin verdict |
| Checkout.ThankYouPath | frontend/src/Checkout.jsx:64 | the navigation target ends with the order id |
| Checkout.Validate | frontend/src/Checkout.jsx:37-50 | a blank address is reported first, a missing cart id second and an empty cart third; the checks pass exactly when none applies |
| Checkout.CheckoutView.GetCart | frontend/src/Checkout.jsx:20-30 | a loaded cart sets the id, the total, and the items (`[]` when absent); a failure changes nothing |
| Checkout.CheckoutView.StartPlaceOrder | frontend/src/Checkout.jsx:36-61 | fails, without a request and without setting `isSubmitting`, exactly when Validate reports a problem. Otherwise it sets `isSubmitting` and sends the cart id, the address as typed and today plus 2 days |
| Checkout.CheckoutView.FinishPlaceOrder | frontend/src/Checkout.jsx:63-74 | navigates to `/thankyou?orderId=<id>` exactly when the response has a truthy id; `isSubmitting` ends false |
| AdminProducts.ParseUser | frontend/src/components/AdminProductManagement.jsx:18 | nothing stored parses as `{}`; unparsable text is an error |
| AdminProducts.AdminGateIsCaseSensitive | frontend/src/components/AdminProductManagement.jsx:18-21 | nothing cached is not admin; for every string role the page accepts exactly "ADMIN", while the admin route's test accepts every spelling equal to it ignoring case, so "admin" passes the route and is refused here |
| AdminProducts.ProductManagement.FetchProducts | frontend/src/components/AdminProductManagement.jsx:29-37 | a successful list replaces the products; a failure keeps them |
| AdminProducts.ProductManagement.HandleInputChange | frontend/src/components/AdminProductManagement.jsx:39-42 | only the named field changes |
| AdminProducts.ProductManagement.HandleImageUrlChange | frontend/src/components/AdminProductManagement.jsx:44-47 | images becomes the one-element list; the other fields are unchanged |
| AdminProducts.ProductManagement.HandleSubmit | frontend/src/components/AdminProductManagement.jsx:49-81 | a non-admin sends nothing and changes nothing. An admin sends an update for `currentProductId` exactly when editing with a truthy id, and an add otherwise. Success resets the form, leaves edit mode and refetches; failure keeps the form and the edit state |
| AdminProducts.ProductManagement.HandleDelete | frontend/src/components/AdminProductManagement.jsx:83-99 | a delete is sent exactly for an admin who confirms, and a refetch happens exactly after a successful delete |
| AdminProducts.ProductManagement.HandleEdit | frontend/src/components/AdminProductManagement.jsx:101-111 | the five product fields are copied into the form, and edit mode starts on the product's id |
| AdminProducts.EditThenSave | frontend/src/components/AdminProductManagement.jsx:49-111 | after an edit, an admin's submit updates exactly the edited product with its fields, and success resets the page |
| RegisterModal.ChosenRole | frontend/src/RegisterModal.jsx:22-30 | "ADMIN" exactly when the box is ticked and the code is "admin123"; "USER" exactly when the box is not ticked; an abort otherwise |
| RegisterModal.CachedIdentity | frontend/src/RegisterModal.jsx:46-52 | the cached object has exactly the keys email, id, username and role; the first three come from the server and the role from the form |
| RegisterModal.RegisterForm.HandleLogin | frontend/src/RegisterModal.jsx:19-66 | a wrong admin code sends nothing, caches nothing and leaves the form and the modal as they were. Otherwise the form's fields and the chosen role are sent. Success caches the identity with the chosen role, closes the modal and keeps the password. Failure clears the password, caches nothing and leaves the modal open as it was |
| RegisterModal.CachedAdminNeedsCode | frontend/src/RegisterModal.jsx:22-55 | the cached identity passes the admin role test exactly when the box was ticked with the right code |
| AddProduct.CommaList | frontend/src/Add_product.jsx:21-22 | one piece per comma plus one, each without commas and without white space at either end |
| AddProduct.BuildPayload | frontend/src/Add_product.jsx:17-24 | title, description and price are sent as typed, images and tags as comma lists, and reviews empty |
| AddProduct.EmptyTagsGiveOneEmptyTag | frontend/src/Add_product.jsx:22 | an empty tag input sends the one tag "" |
| AddProduct.CommaListRoundTrip | frontend/src/Add_product.jsx:21-22 | when no piece has white space around it, joining the list with commas gives back the input |
| AddProduct.HandleSubmit | frontend/src/Add_product.jsx:14-32 | the payload is sent, and navigation to "/" happens exactly on success |
| PlaceOrder.OrderFrom | backend/src/main/java/com/cs353/ooadproj/PlaceOrderCommand.java:49-55 | the order has the cart's owner, lines and stored total, and the request's address and delivery date |
| PlaceOrder.Emptied | backend/src/main/java/com/cs353/ooadproj/PlaceOrderCommand.java:62-64 | the cleared cart keeps its id and owner, has no lines and a total of 0 |
| PlaceOrder.PlaceOrderCommand.GetSavedOrder | backend/src/main/java/com/cs353/ooadproj/PlaceOrderCommand.java:88-90 | the saved order, or none before a successful execute |
| PlaceOrder.PlaceOrderCommand.Execute | backend/src/main/java/com/cs353/ooadproj/PlaceOrderCommand.java:30-70 | an unknown cart or a cart with null or no lines fails and changes nothing. Otherwise the order is saved under the new id, the cart is cleared and kept, and a snapshot of the cart is kept |
| PlaceOrder.PlaceOrderCommand.Undo | backend/src/main/java/com/cs353/ooadproj/PlaceOrderCommand.java:72-86 | with no saved order nothing changes. Otherwise the order is deleted, and when the cart still exists its lines and total are restored from the snapshot; its other fields stay |
| PlaceOrder.ExecuteThenUndo | backend/src/main/java/com/cs353/ooadproj/PlaceOrderCommand.java:30-86 | undo after execute leaves both repositories exactly as before when the order id was unused; the order in between carried the cart's owner, lines and total |
| OrderInvoker.OrderCommandInvoker.ExecuteCommand | backend/src/main/java/com/cs353/ooadproj/OrderCommandInvoker.java:20-35 | null fails and changes nothing. A failing command is not remembered. A successful one is pushed on top. The history length stays equal to the successful executes minus the undos |
| OrderInvoker.OrderCommandInvoker.UndoLastCommand | backend/src/main/java/com/cs353/ooadproj/OrderCommandInvoker.java:40-48 | on an empty history nothing happens; otherwise the most recent command is popped and undone once |
| OrderInvoker.ExecuteThenUndoLast | backend/src/main/java/com/cs353/ooadproj/OrderCommandInvoker.java:20-48 | on any history, executing a command and undoing the last one (when it succeeded) restores the history and both repositories: the undo pops exactly the command just pushed |
| Users.FindFirst | backend/src/main/java/com/cs353/ooadproj/UserServiceFacade.java:29-32 | the lookup behind `getUserById` and, by name, behind `findByUsername` at line 56: a stored user whose id (or name) equals the one asked for, or none exactly when no stored user has it |
| Users.StoredUserIsFound | backend/src/main/java/com/cs353/ooadproj/UserServiceFacade.java:29-32 | with unique ids, the lookup finds the user stored under the id |
| Users.NormaliseRole | backend/src/main/java/com/cs353/ooadproj/UserServiceFacade.java:44-49 | "ADMIN" exactly for a requested "ADMIN" or "admin"; "USER" for anything else, null included |
| Users.OnlyTwoSpellingsOfAdmin | backend/src/main/java/com/cs353/ooadproj/UserServiceFacade.java:45 | "Admin", "aDMIN" and null register as "USER" |
| Users.AuthenticateUser | backend/src/main/java/com/cs353/ooadproj/UserServiceFacade.java:54-70 | succeeds exactly when the name is known and the password check accepts; it then returns that stored user; both failures carry the same message |
| Users.GetUserRole | backend/src/main/java/com/cs353/ooadproj/UserServiceFacade.java:72-86 | answers with the requested id. A known user gives its role and `isAdmin` exactly when the role is "ADMIN". An unknown user gives no role key and false |
| Users.UsersRepo.RegisterUser | backend/src/main/java/com/cs353/ooadproj/UserServiceFacade.java:34-52 | appends a user with the request's email and username, the hash of the password and the normalised role; ids stay unique, and the new user is found under its id |
| Authorization.IsAdmin | backend/src/main/java/com/cs353/ooadproj/AuthorizationService.java:20-31 | an unknown id gives false; the answer equals `isAdmin` from the role lookup; the repository is only read |
| Authorization.IsAdminOfStored | backend/src/main/java/com/cs353/ooadproj/AuthorizationService.java:28 | for a stored user the answer is true exactly when its role is exactly "ADMIN", so "admin" gives false |
| Authorization.RegisterThenCheck | backend/src/main/java/com/cs353/ooadproj/AuthorizationService.java:20-31 | a user registered with "ADMIN" or "admin" is an admin at once, and with any other role is not |
| ProductProxy.ExpiryBoundary | backend/src/main/java/com/cs353/ooadproj/ProductRepositoryProxy.java:24-37 | an entry is fresh for exactly 600000 ms, the boundary included, and expired one millisecond later; once expired it stays expired |
| ProductProxy.Find | backend/src/main/java/com/cs353/ooadproj/ProductRepositoryProxy.java:65 | a stored product with that id, or none exactly when none has it |
| ProductProxy.FindUpsert | backend/src/main/java/com/cs353/ooadproj/ProductRepositoryProxy.java:75 | after a repository save, the product is found under its id and every other id finds what it found before |
| ProductProxy.FindRemove | backend/src/main/java/com/cs353/ooadproj/ProductRepositoryProxy.java:84 | after a repository delete, nothing is found under that id and every other id finds what it found before |
| ProductProxy.ProductRepositoryProxy.FindAll | backend/src/main/java/com/cs353/ooadproj/ProductRepositoryProxy.java:45-55 | refetches exactly when no list is cached or the cached one is older than 10 minutes, and stamps it with now, returning the repository's list; otherwise the cached list is returned, stale or not. A coherent proxy stays coherent and answers with the repository's list |
| ProductProxy.StaleListAfterBypass | backend/src/main/java/com/cs353/ooadproj/ProductRepositoryProxy.java:45-55 | a repository change that bypasses the proxy is not seen by a list read while the cached list is under 10 minutes old |
| ProductProxy.ProductRepositoryProxy.FindById | backend/src/main/java/com/cs353/ooadproj/ProductRepositoryProxy.java:57-72 | an unexpired entry answers without asking the repository. A miss asks the repository and caches only a present result; an absent result leaves the cache unchanged. A query answers with the repository's product; a coherent proxy stays coherent and always answers with the repository's product |
| ProductProxy.ProductRepositoryProxy.Save | backend/src/main/java/com/cs353/ooadproj/ProductRepositoryProxy.java:74-81 | writes through, caches the product under its id, keeps every other entry and drops the list; a coherent proxy stays coherent |
| ProductProxy.ProductRepositoryProxy.DeleteById | backend/src/main/java/com/cs353/ooadproj/ProductRepositoryProxy.java:83-87 | deletes through, removes only that entry and drops the list; a coherent proxy stays coherent |
| ProductProxy.SaveDeleteRoundTrip | backend/src/main/java/com/cs353/ooadproj/ProductRepositoryProxy.java:57-87 | a read after a save returns the saved product, and a read after a delete returns nothing, whatever the clock |
| Categories.ProductCategoryFactory.GetProductCategory | backend/src/main/java/com/cs353/ooadproj/flyweight/ProductCategoryFactory.java:18-26 | a present lower-cased key returns the existing object and changes nothing (first write wins); an absent key stores and returns a new category with the given details; every category stays stored under its lower-cased name |
| Categories.ProductCategoryFactory.GetCategory | backend/src/main/java/com/cs353/ooadproj/flyweight/ProductCategoryFactory.java:31-33 | none exactly when the lower-cased name is absent; it never stores anything; a category found has the asked name up to case |
| Categories.ProductCategoryFactory.GetAllCategories | backend/src/main/java/com/cs353/ooadproj/flyweight/ProductCategoryFactory.java:38-40 | a map value with the same keys and categories, so a caller cannot change the factory through it |
| Categories.SameCategoryAnyCase | backend/src/main/java/com/cs353/ooadproj/flyweight/ProductCategoryFactory.java:18-33 | two names equal ignoring the case of their letters give the same object; the map grows by at most the one key; a later lookup in any casing finds that object |
| Reviews.ReviewIterator.HasNext | backend/src/main/java/com/cs353/ooadproj/iterator/ReviewIterator.java:21-23 | true exactly when reviews remain past the cursor |
| Reviews.ReviewIterator.Next | backend/src/main/java/com/cs353/ooadproj/iterator/ReviewIterator.java:26-31 | returns the review at the cursor and moves it by one; when exhausted, an error and the cursor stays; the cursor never passes the end |
| Reviews.Drain | backend/src/main/java/com/cs353/ooadproj/ReviewIterator.java:19-29 | draining yields the remaining reviews in order, with one call to next per review |
| ReviewTools.ReviewsOf | backend/src/main/java/com/cs353/ooadproj/util/ReviewUtils.java:19 | a null review list reads as empty |
| ReviewTools.GetReviewIterator | backend/src/main/java/com/cs353/ooadproj/util/ReviewUtils.java:18-20 | a new iterator at the start of the product's reviews, or of an empty list when they are null |
| ReviewTools.SortIsOrderedPermutation | backend/src/main/java/com/cs353/ooadproj/util/ReviewUtils.java:25-29 | the sorted list runs from the highest rating to the lowest and is a permutation of the reviews |
| ReviewTools.SortIsStable | backend/src/main/java/com/cs353/ooadproj/util/ReviewUtils.java:27 | reviews with equal ratings keep their original order |
| ReviewTools.SortedByRatingAsWritten | backend/src/main/java/com/cs353/ooadproj/util/ReviewUtils.java:25-29 | throws exactly when the product's review list is null; otherwise it is the stable sort |
| ReviewTools.NullReviewsBreakSort | backend/src/main/java/com/cs353/ooadproj/util/ReviewUtils.java:19-26 | for a product with null reviews the iterator sees an empty list but the sort throws |
| ReviewTools.SortedByRating | backend/src/main/java/com/cs353/ooadproj/util/ReviewUtils.java:25-29 | with null read as empty: a new list, from the highest rating to the lowest, a permutation, stable; it agrees with the as-written sort whenever that does not throw |
| ReviewTools.SumRatingsBounds | backend/src/main/java/com/cs353/ooadproj/util/ReviewUtils.java:39-48 | ratings between lo and hi give a total between lo and hi times the count |
| ReviewTools.RatingTotals | backend/src/main/java/com/cs353/ooadproj/util/ReviewUtils.java:34-46 | 0 and 0 for null or empty reviews; otherwise the loop ends with the sum of the ratings and the number of reviews |

## Left out

- Text.ToUpper, Text.ToLower: map only the ASCII letters. JavaScript's `toUpperCase` and Java's `toLowerCase` apply full Unicode case mapping, and with a Unicode mapping the length can change.
- AddProduct.BuildPayload: `Number(price)` is floating-point parsing and is not modelled; the price is sent as the typed text.
- Checkout.CheckoutView.StartPlaceOrder: the delivery date is a day number; `setDate` calendar arithmetic and the ISO 8601 text of `toISOString` are not modelled.
- The async steps of the frontend handlers run to completion one at a time. Interleavings of overlapping requests and React's batching of state updates are not modelled.
- `apiAdapter.checkAdminStatus`, `addProduct`, `updateProduct` and `deleteProduct` have no definition in `frontend/src/services/ApiAdapter.js`. Their answers are parameters, and a call that throws for lack of a method is the error case of that parameter.
- A cached text that parses to a JSON value other than an object (such as `null` or a number) is not distinguished from unparsable text.
- AdminProducts.ProductManagement: the cached identity is read once per render, so it is a constant of the page object.
- Users.UsersRepo.RegisterUser: password hashing is an opaque function parameter, so "the stored hash differs from the password" is not stated. The store's assignment of a fresh id is the `newId` parameter, which is required to be unused.
- Users.AuthenticateUser: the password check is a function parameter.
- Users.FindFirst: both repository queries are modelled as the first match. What the Spring repository does with duplicate names is not modelled.
- ProductProxy.ProductRepositoryProxy.Save: the repository's id assignment for a product without an id is not modelled; the product's own id is the key.
- Order commands: the invoker's history and parameters hold `PlaceOrderCommand`, where `OrderCommandInvoker.java` accepts any `OrderCommand`. `PlaceOrderCommand` is the only implementation of that interface among the files modelled here, so no behaviour of those files is lost.
- ReviewTools.RatingTotals: Java `int` overflow of the rating sum and the final floating-point division `sum / count` are not modelled.
- Review dates (`LocalDateTime.now()`) and order dates are clock readings and enter as parameters or not at all.
- Logging, HTTP controllers, toasts and alerts are not modelled. They produce no state the core reads.
- Categories.ProductCategoryFactory.GetProductCategory: a null name (a `NullPointerException` from `toLowerCase`) is not modelled; names are strings.

## Findings

| source | as written | input that shows it | evidently intended | confidence | as-written member | corrected member |
|---|---|---|---|---|---|---|
| backend/src/main/java/com/cs353/ooadproj/util/ReviewUtils.java:26 | `new ArrayList<>(product.getReviews())` throws `NullPointerException` when the product's review list is null | a product whose `reviews` is null, for which `getReviewIterator` and `getAverageRating` in the same class handle null as empty | a null review list sorts to the empty list, as the class's other helpers treat it | not executed; medium | ReviewTools.NullReviewsBreakSort | ReviewTools.SortedByRating |
