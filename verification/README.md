# accessory-store-frontend, modelled in Dafny

The repository is a React storefront for an accessory shop, with an admin
panel. It holds a product catalogue with filters and an image search, a
cart, checkout, order history, a profile page, login and registration on
the customer side. The admin side has CRUD pages for categories, roles,
discounts, products, users, orders and contacts.

Most of the code fetches data and renders it. This project lifts out the
rules buried in the event handlers and proves properties of them. Each
outcome of the network, of `localStorage`, of a timer or of the clock is a
parameter: a `Response` (the request threw, or returned a body), a `Slot`
(a storage key that is absent, holds unparsable text, or holds a value), or
a plain number for the current time.

One Dafny module models each source file or area:

- `Common`: JavaScript semantics that the handlers depend on. This covers
  truthiness, `a || d`, `toLowerCase`, `trim`, `split` and `join`.
- `FileName`: the upload file-name normalisation. Its accent tables are
  modelled with the characters the source file actually holds. Those are
  Thai letters, a no-break space and C1 control characters, not the
  Vietnamese letters the comments name, so a Vietnamese letter with a
  diacritic is deleted by the `[a-z0-9\s-]` filter rather than folded.
- `Storage` and `FormData`: the stored session keys and the multipart
  bodies.
- `CartLines`, `CartPage`, `CartBadge`, `Checkout`, `ProductDetail`: the
  cart arithmetic, the optimistic quantity update, removal, the badge
  count, the order confirmation and the add-to-cart button.
- `Catalog`: the product filter and AI-search state machine.
- `OrderHistory`: the customer's order list, sort and status tags.
- `Profile`, `Auth`, `UserLayout`, `AdminLayout`: the session decisions and
  the breadcrumb text.
- `AddressModal`: the province → district → ward cascade.
- `AdminForms`: the admin form validators.
- `AdminPages` and `OrderList`: the paging, payloads and outcomes of the
  admin CRUD pages, and the order-status modal.

## Model

| member | source | states |
|---|---|---|
| Common.OrElse | src/pages/user/Order.js:80 | `a \|\| d` on an optional string: the value when it is non-empty, the default otherwise |
| Common.Lower | src/utils/normalizeFileName.js:5 | `toLowerCase` keeps the length and maps each character by the case table |
| Common.Upper | src/pages/user/OrderHistory.js:23 | `toUpperCase` grows the text by one character per sharp s, and without one maps each character by the case table |
| Common.UpperAppend | src/pages/user/OrderHistory.js:23 | upper-casing a concatenation is upper-casing each part |
| Common.UpperSharpS | src/pages/user/OrderHistory.js:23 | the sharp s becomes "SS": "straße" upper-cases to "STRASSE" |
| Common.UpperLeavesLatin1 | src/pages/user/OrderHistory.js:23 | 'ÿ' and 'µ' become the capitals 'Ÿ' and 'Μ', outside Latin-1 |
| Common.Trim | src/utils/normalizeFileName.js:25 | `trim` gives the slice of its input that starts after the leading whitespace; whitespace is all that follows the slice, and the slice has none at either end |
| Common.TrimDetermined | src/utils/normalizeFileName.js:25 | a text with only whitespace around it, and none at its own ends, is exactly what `trim` returns |
| Common.TrimPadded | src/utils/normalizeFileName.js:25 | whitespace padding on either side of such a text is removed and nothing else |
| Common.IndexOf | src/pages/admin/user/UserForm.js:41-45 | the first occurrence of a character, or -1 exactly when it is absent |
| Common.Split | src/layouts/AdminLayout.js:48 | `split` on one character gives at least one part, and no part holds the separator |
| Common.Join | src/pages/user/Product.js:37 | `join` of no parts is empty, and every character of every part appears in the result |
| Common.JoinSplit | src/layouts/AdminLayout.js:48 | joining the parts of a split gives the string back |
| Common.SplitJoin | src/components/AddressModal.js:65 | splitting a join of separator-free parts gives the parts back |
| FileName.ReplaceSelf | src/utils/normalizeFileName.js:7-15 | a global replace of a literal with itself changes nothing |
| FileName.ReplaceAbsent | src/utils/normalizeFileName.js:7-15 | a global replace whose pattern does not occur changes nothing |
| FileName.DigraphsReduce | src/utils/normalizeFileName.js:7-15 | of the nine digraph rules only `gh → g` and then `ngh → ng` have an effect |
| FileName.DigraphsWithoutGh | src/utils/normalizeFileName.js:7-15 | text with no "gh" passes the digraph rules unchanged |
| FileName.NghRuleRewrites | src/utils/normalizeFileName.js:9-12 | the `ngh` rule is not dead: "nghh" becomes "ngh" under `gh → g`, then "ng" |
| FileName.ReplaceClass | src/utils/normalizeFileName.js:16-21 | a class rule keeps the length and replaces exactly the characters of its class, in place |
| FileName.VowelRulesPointwise | src/utils/normalizeFileName.js:16-21 | the six class rules in order act on each character alone: the first class holding it picks its letter |
| FileName.YRuleDead | src/utils/normalizeFileName.js:21 | every character of the `y` class is taken by an earlier class, so only 'y' itself comes out as 'y' |
| FileName.URuleDead | src/utils/normalizeFileName.js:22 | the `u` pattern starts with a character of the `o` class, so after the class rules it never matches |
| FileName.TablesMissVietnamese | src/utils/normalizeFileName.js:16 | the tables as stored hold no Vietnamese letter: 'á' and 'ạ' pass unchanged, while a no-break space becomes 'a' |
| FileName.KeepAllowed | src/utils/normalizeFileName.js:24 | the filter keeps exactly the characters of `[a-z0-9\s-]`, and text made only of them comes back unchanged |
| FileName.KeepAllowedAppend | src/utils/normalizeFileName.js:24 | filtering a concatenation is filtering each part and concatenating |
| FileName.KeepAllowedChar | src/utils/normalizeFileName.js:24 | one character is kept exactly when the class allows it |
| FileName.SkipDashes | src/utils/normalizeFileName.js:26-27 | dropping a leading hyphen run leaves a suffix that does not start with '-' |
| FileName.HyphenateSpaces | src/utils/normalizeFileName.js:26 | `\s+ → -` leaves no whitespace, adds only '-', and keeps every other character |
| FileName.HyphenateWordPrefix | src/utils/normalizeFileName.js:26 | a leading stretch without whitespace is copied unchanged |
| FileName.HyphenateNoSpace | src/utils/normalizeFileName.js:26 | text without whitespace is left unchanged |
| FileName.HyphenateWords | src/utils/normalizeFileName.js:26 | non-empty words joined by single spaces come out joined by single hyphens |
| FileName.CollapseDashes | src/utils/normalizeFileName.js:27 | `-+ → -` leaves no "--", keeps the set of characters and the first character |
| FileName.CollapseKeepsUndashed | src/utils/normalizeFileName.js:27 | with all hyphens removed, the result and the input are the same text |
| FileName.CollapseFixed | src/utils/normalizeFileName.js:27 | text without "--" is left unchanged |
| FileName.Sanitise | src/utils/normalizeFileName.js:24-27 | the last four stages leave only `[a-z0-9-]` characters and no "--" |
| FileName.NormalizeName | src/utils/normalizeFileName.js:1-28 | a falsy argument gives ""; otherwise the result is made of `[a-z0-9-]` and has no "--" |
| FileName.TransliterateSafe | src/utils/normalizeFileName.js:5-22 | `[a-z0-9-]` text without "gh" passes lower-casing and every replacement rule unchanged |
| FileName.SanitiseSafe | src/utils/normalizeFileName.js:24-27 | `[a-z0-9-]` text without "--" passes the filter, `trim` and both run rules unchanged |
| FileName.NormalizeSafeFixed | src/utils/normalizeFileName.js:1-28 | a name of `[a-z0-9-]` with no "--" and no "gh" is its own normal form |
| FileName.LastDot | src/utils/normalizeFileName.js:31 | `lastIndexOf('.')`: -1 exactly when there is no dot, otherwise a dot with no dot after it |
| FileName.NormalizedSplitsAtSameDot | src/utils/normalizeFileName.js:34-36 | the result's last dot is where the normalised stem ends: stem followed by the lower-cased suffix from the last dot |
| FileName.StemHasNoDot | src/utils/normalizeFileName.js:24 | a normalised stem never contains '.' |
| FileName.ExtensionHasOneDot | src/utils/normalizeFileName.js:35 | the lower-cased suffix starts with the last dot and holds no other dot |
| FileName.NoDotIsWholeName | src/utils/normalizeFileName.js:31-32 | a name without a dot is normalised whole, into `[a-z0-9-]` characters |
| FileName.ExtensionNotSanitised | src/utils/normalizeFileName.js:35 | the extension is only lower-cased: ".P G" stays ".p g" |
| FileName.LeadingDotIsAllExtension | src/utils/normalizeFileName.js:31-36 | a name whose only dot is its first character is all extension, so it is only lower-cased |
| Storage.IsAdminIgnoresCase | src/pages/auth/LoginPage.js:57 | the admin role test accepts the code "ADMIN" in any case |
| Storage.ClearSession | src/layouts/UserLayout.js:78-80 | logout removes `user` and `token` and keeps the remembered login |
| FormData.AsText | src/pages/user/Profile.js:61 | an appended value is its text, and an undefined one becomes "undefined" |
| FormData.Keys | src/pages/admin/product/ProductPage.js:90-102 | the keys of a body, one per part, in append order |
| FormData.KeysAppend | src/pages/admin/product/ProductPage.js:97-102 | the keys of two bodies appended are the keys of each, in order |
| CartLines.Quantities | src/pages/user/CartContext.js:14 | the sum of quantities is at least the number of lines when every quantity is at least 1 |
| CartLines.Total | src/pages/user/Cart.js:171 | the sum of price × quantity is non-negative for priced lines, and is that product for one line |
| CartLines.QuantitiesAppend | src/pages/user/CartContext.js:14 | the quantity sum distributes over concatenation |
| CartLines.TotalAppend | src/pages/user/Cart.js:171 | the amount sum distributes over concatenation |
| CartPage.WithQuantity | src/pages/user/Cart.js:54-56 | lines with the id get the new quantity and nothing else changes; other lines are untouched |
| CartPage.Without | src/pages/user/Cart.js:76 | the filter keeps exactly the lines whose id differs |
| CartPage.Only | src/pages/user/Cart.js:76 | the lines the filter drops are exactly those with the id |
| CartPage.Count | src/pages/user/Cart.js:54-56 | the number of lines with the id is 0 exactly when no line has it |
| CartPage.WithoutAppend | src/pages/user/Cart.js:76 | the filter distributes over concatenation, so relative order is kept |
| CartPage.WithoutAbsent | src/pages/user/Cart.js:76 | removing an id no line has leaves the lines as they are |
| CartPage.QuantitiesSplit | src/pages/user/Cart.js:76 | the quantity sum is the sum of the kept lines plus the sum of the dropped lines |
| CartPage.QuantitiesAfterChange | src/pages/user/Cart.js:54-56 | after the update the sum is the untouched lines' sum plus the new quantity once per matching line |
| CartPage.ChangeQuantity | src/pages/user/Cart.js:50-68 | out of 1..99: no change, no request; in range: the optimistic lines, kept on success with a count refresh, or exactly the snapshot restored with an error on failure |
| CartPage.ChangeKeepsRange | src/pages/user/Cart.js:51 | a cart whose quantities are in 1..99 stays so, whether the request succeeds or fails |
| CartPage.ChangeMovesCount | src/pages/user/Cart.js:54-63 | for a unique line, the badge total moves by the new quantity minus the old |
| CartPage.RemoveLine | src/pages/user/Cart.js:70-81 | success drops the id's lines, toasts and refreshes the badge; failure leaves the lines untouched and shows the error |
| CartPage.RemoveLowersCount | src/pages/user/Cart.js:76-77 | a removal lowers the quantity sum by exactly the removed lines' quantities |
| CartPage.CartUserId | src/pages/user/Cart.js:18-29 | the user id exists exactly when a readable stored user has a truthy id |
| CartPage.LoadCart | src/pages/user/Cart.js:32-44 | without a user id nothing is fetched; a throw keeps the lines with an error; a reply sets the lines (or none) and refreshes the badge |
| CartPage.StepperButtons | src/pages/user/Cart.js:137 | minus is enabled exactly when the handler accepts quantity − 1; plus is ignored exactly at 99 |
| CartPage.AmountDue | src/pages/user/Cart.js:171 | the displayed total is non-negative for priced lines and 0 for an empty cart |
| CartPage.RemoveLowersAmount | src/pages/user/Cart.js:76 | a removal lowers the displayed total by exactly the removed lines' amounts |
| CartBadge.FetchCartCount | src/pages/user/CartContext.js:8-23 | unreadable user: the handler throws, count unchanged; no user: 0 without a request; error or no data: 0; data: the sum of quantities |
| CartBadge.MountCount | src/pages/user/CartContext.js:6-27 | the count starts at 0 and is non-zero only after a returned array |
| Checkout.Project | src/pages/user/Order.js:68-72 | the order items are a same-length, same-order projection of the lines onto product id, quantity and price |
| Checkout.ProjectKeepsTotal | src/pages/user/Order.js:74-130 | the total sent with the order equals the total displayed |
| Checkout.CheckoutUser | src/pages/user/Order.js:35 | unreadable text makes the page throw; an absent user reads as the empty object |
| Checkout.LoadCheckout | src/pages/user/Order.js:38-52 | without a user id: a warning and no request; a throw keeps the lines with an error; a reply sets the lines or none |
| Checkout.PrefillName | src/pages/user/Order.js:58 | with a signed-in user the prefilled name is `trim` of family name, a space and given name; without one it is empty |
| Checkout.PrefillJoinsNames | src/pages/user/Order.js:58 | for names without surrounding whitespace the prefill is "family given", or the one name that is present when the other is empty |
| Checkout.CheckPhone | src/pages/user/Order.js:162 | the phone rule accepts exactly ten ASCII digits |
| Checkout.ConfirmOrder | src/pages/user/Order.js:63-101 | an empty cart is rejected before any request; the order carries the projection, total, note default and payment; PayPal with a URL redirects without clearing and without a message; any other success clears the cart, refreshes the badge and navigates; the page navigates to the success page exactly when the clear succeeds, and never after a failed order, a failed clear or a PayPal redirect |
| ProductDetail.DetailRangeWiderThanCart | src/pages/user/ProductDetail.js:148-149 | every cart quantity is a valid detail quantity, and 100 is the only detail quantity the cart refuses |
| ProductDetail.ProductIdToSend | src/pages/user/ProductDetail.js:50 | the route-state id when truthy, otherwise the loaded product's id |
| ProductDetail.AddToCart | src/pages/user/ProductDetail.js:39-60 | without a user id: an error and a redirect to login, no request; the badge refreshes exactly on status 200 or 201; a throw shows the failure |
| ProductDetail.AddedQuantityReachesBadge | src/pages/user/ProductDetail.js:39-60 | when the add succeeds the user is signed in, and if the server appended the line the refreshed badge grows by exactly the quantity added |
| ProductDetail.ClickAdd | src/pages/user/ProductDetail.js:175 | an inactive product's button does nothing |
| Catalog.QueryOf | src/pages/user/Product.js:35-44 | the listing request carries the joined categories, the price range, keyword and page |
| Catalog.Reset | src/pages/user/Product.js:89-92 | reset turns AI mode off, clears the keyword, goes to page 1 and keeps categories and price |
| Catalog.Apply | src/pages/user/Product.js:54-192 | categories, Enter and slider release go to page 1 with AI off; typing, sliding and paging change only their field; a successful AI search sets the detected keyword or the placeholder; a refused one changes nothing; a failed one resets |
| Catalog.Step | src/pages/user/Product.js:104-107 | a listing request is issued exactly when the filters were set or AI mode changed, and AI mode ends off |
| Catalog.AiModeHoldsListing | src/pages/user/Product.js:105-106 | while AI mode is on, typing, sliding and paging fetch nothing and keep AI mode |
| Catalog.FilterEventsFetchWhenAiOff | src/pages/user/Product.js:104-107 | with AI mode off, every filter change fetches the listing for the new filters |
| Catalog.ImageResultsHidePagination | src/pages/user/Product.js:66-76 | once an image search succeeds the pagination bar is hidden |
| Catalog.MountPagination | src/pages/user/Product.js:290 | after the first listing the bar shows exactly when the server reports a total above 12 |
| Catalog.ResetRestoresPagination | src/pages/user/Product.js:79-92 | clearing the search, or an image search that throws, shows the bar again exactly when the total exceeds the page size |
| Catalog.Run | src/pages/user/Product.js:104-107 | a run of events issues at most one listing request per event |
| Common.RunOfAppend | src/pages/user/Product.js:104-107 | for any step function, running two event sequences one after the other is running their concatenation |
| Common.RunOfAtMostOne | src/pages/user/Product.js:104-107 | when each event issues at most one request, a run issues at most one per event |
| Catalog.RunAppend | src/pages/user/Product.js:104-107 | running two event sequences one after the other is running their concatenation; the requests concatenate |
| Catalog.MountQuery | src/pages/user/Product.js:23-29 | the first request is page 1 of 12, no keyword or category, price 0 to 5 000 000 |
| Catalog.RunKeepsValid | src/pages/user/Product.js:23-29 | any run of widget events keeps page ≥ 1, page size 12 and a price range inside 0..5 000 000, in every request |
| OrderHistory.Insert | src/pages/user/OrderHistory.js:38-40 | inserting into a newest-first list keeps it newest first and adds exactly that order |
| OrderHistory.SortNewestFirst | src/pages/user/OrderHistory.js:38-40 | the sort gives a newest-first permutation of the orders |
| OrderHistory.FetchOrders | src/pages/user/OrderHistory.js:26-48 | no stored user: no request; unreadable text: the error; a reply: the orders (or none) sorted newest first; a throw keeps the list with the error |
| OrderHistory.StatusConfig | src/pages/user/OrderHistory.js:15-21 | exactly the five keys pending, processing, shipped, completed and cancelled are configured |
| OrderHistory.StatusTag | src/pages/user/OrderHistory.js:22-23 | the lower-cased status selects the configured tag, otherwise colour 'default' with the raw text; the text is upper-cased; a missing status makes the render throw |
| OrderHistory.StatusIgnoresCase | src/pages/user/OrderHistory.js:22 | two statuses equal up to case get the same colour, and the same tag when known |
| OrderHistory.ShoutedStatusIsKnown | src/pages/user/OrderHistory.js:14-23 | "PENDING" is recognised and shown like "pending", in gold |
| OrderHistory.ItemName | src/pages/user/OrderHistory.js:140 | the product name when truthy, otherwise 'Sản phẩm' |
| OrderHistory.ItemRows | src/pages/user/OrderHistory.js:138-143 | one row per item in order, and none when the order has no items |
| Profile.TokenGuard | src/pages/user/Profile.js:23-29 | without a token: the warning and the redirect to login; with one: nothing |
| Profile.ChooseFile | src/pages/user/Profile.js:43-50 | without an original file the selection is kept; otherwise it is the file under its normalised name |
| Profile.FieldParts | src/pages/user/Profile.js:59-62 | the body holds every form field except an empty password, and nothing else |
| Profile.FieldPartsAppend | src/pages/user/Profile.js:59-62 | the parts of two field lists in a row are the parts of each, in the same order |
| Profile.FieldPartsOne | src/pages/user/Profile.js:60-61 | one field gives its key and text, except an empty password, which gives nothing |
| Profile.FieldPartsKeepOrder | src/pages/user/Profile.js:59-62 | two sent fields appear in the body in the order of the form |
| Profile.UpdateBody | src/pages/user/Profile.js:58-63 | the image part is appended last and only when a file was chosen |
| Profile.SaveProfile | src/pages/user/Profile.js:56-86 | success stores and shows the returned user with the stored role, leaves edit mode, clears preview and file and dispatches `userUpdated`; failure changes nothing and shows the error |
| Profile.SaveKeepsRole | src/pages/user/Profile.js:74-75 | the persisted user always carries the previously stored role |
| Profile.PasswordOnlyWhenTyped | src/pages/user/Profile.js:60 | an empty password is never sent, and a typed one is |
| Auth.Landing | src/pages/auth/LoginPage.js:57-61 | '/admin' exactly for an admin role code, '/' otherwise |
| Auth.SignIn | src/pages/auth/LoginPage.js:28-70 | a refusal or throw stores nothing and shows the message or the default; success stores token and user, remembers or forgets the login, and redirects by role |
| Auth.SignInThenRead | src/pages/auth/LoginPage.js:47-61 | after a successful login the stored user and token read back as returned, and the redirect is '/admin' exactly for admins |
| Auth.PrefillLogin | src/pages/auth/LoginPage.js:16-26 | a remembered login fills email and password with remember checked; unreadable text makes the effect throw |
| Auth.RememberedLoginRoundTrip | src/pages/auth/LoginPage.js:50-51 | with remember checked, the next visit prefills the same email and password |
| Auth.ForgottenLogin | src/pages/auth/LoginPage.js:52-53 | with remember unchecked, the next visit prefills nothing |
| Auth.ConfirmErrors | src/pages/auth/RegisterPage.js:85-95 | an empty confirmation gets the required message, a non-empty mismatch gets 'Mật khẩu không khớp', and a match passes |
| Auth.Register | src/pages/auth/RegisterPage.js:14-30 | success navigates to login; a refusal shows the server message or the default; a throw shows the default |
| UserLayout.CheckExpiry | src/layouts/UserLayout.js:55-74 | no token: nothing; undecodable: logout; expired: logout; otherwise one timer for exp·1000 − now ms, never negative |
| UserLayout.Logout | src/layouts/UserLayout.js:78-83 | both keys removed, the shown user cleared, navigation to login |
| UserLayout.LoadUser | src/layouts/UserLayout.js:25-31 | a stored user is shown and the badge refreshed; otherwise the shown user stays (an unreadable one throws out of the listener, which changes nothing; at mount see `Mount`) |
| UserLayout.OnStorage | src/layouts/UserLayout.js:42-46 | a storage event reloads the user only for the key 'user' |
| UserLayout.RemoteLogoutKeepsUser | src/layouts/UserLayout.js:26-30 | a logout in another tab does not clear the user shown here |
| UserLayout.MenuKeys | src/layouts/UserLayout.js:85-110 | profile, order history and logout, with the dashboard prepended exactly for admins |
| UserLayout.Mount | src/layouts/UserLayout.js:25-36 | at mount a corrupt stored user crashes the layout; otherwise a user is shown exactly when one is stored |
| UserLayout.BadgeFollowsSession | src/layouts/UserLayout.js:185 | the badge reads 0 after logout and when no user is stored at mount, and the refreshed count after a stored user is loaded |
| UserLayout.TimerDelay | src/layouts/UserLayout.js:65-67 | the browser waits the delay itself when it fits in 0..2³¹−1 ms, and something in that range otherwise |
| UserLayout.LogoutAt | src/layouts/UserLayout.js:63-67 | as written the logout never comes before now, and comes exactly at expiry when the delay fits in 32 bits |
| UserLayout.LongTokenLogsOutAtOnce | src/layouts/UserLayout.js:64-67 | a token valid for 2 147 484 s logs out at once, because its delay wraps |
| UserLayout.SafeDelay | src/layouts/UserLayout.js:64-67 | the capped delay never exceeds the remaining time or the browser's maximum, and equals the remaining time when that fits |
| UserLayout.SafeTimerNeverLate | src/layouts/UserLayout.js:64-67 | with the delay capped at the 32-bit limit the timer never fires after expiry, and fires at expiry whenever the browser can wait that long |
| UserLayout.RearmedLogoutOnTime | src/layouts/UserLayout.js:64-67 | a timer re-armed with the capped delay until expiry logs the user out exactly at expiry, however far away it is |
| UserLayout.RearmedLongToken | src/layouts/UserLayout.js:64-67 | the token of the finding, 2 147 484 s away, is logged out exactly at expiry |
| AdminLayout.DashesToSpaces | src/layouts/AdminLayout.js:44 | every '-' and '_' becomes a space and every other character stays |
| AdminLayout.Unspaced | src/layouts/AdminLayout.js:45 | removing spaces keeps exactly the non-space characters |
| AdminLayout.CamelSplit | src/layouts/AdminLayout.js:45 | no lower→upper boundary remains, only spaces are added, and the first character stays |
| AdminLayout.CamelSplitOnlyAddsSpaces | src/layouts/AdminLayout.js:45 | without spaces, the camel-split text is the original text |
| AdminLayout.CamelSplitNoBoundary | src/layouts/AdminLayout.js:45 | text with no lower→upper boundary is left as it is |
| AdminLayout.CamelSplitAppend | src/layouts/AdminLayout.js:45 | texts that do not meet at a lower→upper boundary are split separately, so a space is inserted only at a boundary |
| AdminLayout.CamelSplitPair | src/layouts/AdminLayout.js:45 | one character is kept; two get exactly one space between them iff the first is a lower-case and the second an upper-case ASCII letter |
| AdminLayout.CamelSplitOneBoundary | src/layouts/AdminLayout.js:45 | "aBc" becomes "a Bc": one space at the boundary and none elsewhere |
| AdminLayout.CapitalizeAfter | src/layouts/AdminLayout.js:46 | each word start is upper-cased and every other character kept, given the character before |
| AdminLayout.Capitalize | src/layouts/AdminLayout.js:46 | `\b\w` upper-cases exactly the word characters with no word character before them |
| AdminLayout.FormatBreadcrumb | src/layouts/AdminLayout.js:42-46 | a breadcrumb title holds no '-' or '_' and is at least as long as the segment |
| AdminLayout.DashedSegment | src/layouts/AdminLayout.js:42-46 | "edit-item" becomes "Edit Item" |
| AdminLayout.CapitalizeEditItem | src/layouts/AdminLayout.js:46 | "edit item" becomes "Edit Item" |
| AdminLayout.AccentedSegment | src/layouts/AdminLayout.js:46 | `\w` is ASCII only, so a letter after a Vietnamese letter is capitalised: "đơn" becomes "đơN" |
| AdminLayout.Segments | src/layouts/AdminLayout.js:48 | the path's segments are non-empty and hold no '/' |
| AdminLayout.NonEmpty | src/layouts/AdminLayout.js:48 | `filter(Boolean)` keeps only non-empty parts, and keeps all of them when none is empty |
| AdminLayout.NonEmptyAppend | src/layouts/AdminLayout.js:48 | the filter distributes over concatenation, so the kept parts stay in order |
| AdminLayout.NonEmptyOne | src/layouts/AdminLayout.js:48 | one part is kept iff it is non-empty |
| AdminLayout.DoubledSlashesDropped | src/layouts/AdminLayout.js:48 | the parts of "a//b/" filter to "a" and "b" |
| AdminLayout.SegmentsOfJoinedPath | src/layouts/AdminLayout.js:48 | the segments of "/" + segments joined by '/' are those segments |
| AdminLayout.Breadcrumbs | src/layouts/AdminLayout.js:48-55 | 'Admin', then the formatted segments after the first: 1 + max(0, n − 1) titles |
| AdminLayout.AdminMount | src/layouts/AdminLayout.js:26-40 | unreadable text throws in render; no user redirects to login; any stored user is shown |
| AdminLayout.GuardIgnoresRole | src/layouts/AdminLayout.js:28-40 | a customer without the admin role still gets the admin layout |
| AdminLayout.AdminLogout | src/layouts/AdminLayout.js:137-141 | both keys removed and a full page load of the login page |
| AddressModal.Loaded | src/components/AddressModal.js:18-27 | an option list is the returned array, or empty; a failure notice appears exactly when the request threw |
| AddressModal.Choose | src/components/AddressModal.js:74-76 | the first option with the code, or none when no option has it |
| AddressModal.SelectProvince | src/components/AddressModal.js:35-46 | a new province clears district and ward and loads its districts, or empties them when cleared |
| AddressModal.SelectDistrict | src/components/AddressModal.js:48-58 | a new district clears the ward and loads its wards, or empties them when cleared |
| AddressModal.Step | src/components/AddressModal.js:29-76 | provinces are fetched exactly when the modal becomes visible; typing changes only the street; the selects cascade |
| AddressModal.StepKeepsConsistent | src/components/AddressModal.js:35-58 | no selection outlives the selection above it, and a selected item is among the loaded options |
| AddressModal.Run | src/components/AddressModal.js:29-76 | no events leave the form and issue nothing |
| AddressModal.RunAppend | src/components/AddressModal.js:29-76 | running two event sequences one after the other is running their concatenation |
| AddressModal.RunKeepsConsistent | src/components/AddressModal.js:35-58 | any run of events keeps the cascade consistent |
| AddressModal.ClosedIsConsistent | src/components/AddressModal.js:9-16 | the initial form is consistent |
| AddressModal.ProvincesOnlyWhenShown | src/components/AddressModal.js:29-33 | a province request means the modal just became visible |
| AddressModal.FullAddress | src/components/AddressModal.js:65 | the address is street, ward, district and province joined by ", " |
| AddressModal.Confirm | src/components/AddressModal.js:60-68 | a missing street or selection warns and calls nothing; otherwise onConfirm with the address, then onClose |
| AddressModal.AddressSplitsBack | src/components/AddressModal.js:65 | comma-free parts can be read back from the address by splitting on ',' |
| AdminForms.CodeClash | src/pages/admin/category/CategoryForm.js:11-17 | a clash exactly when another record has the same code, compared exactly |
| AdminForms.NamesOf | src/pages/admin/category/CategoryForm.js:20-26 | the id and name of each record, in order |
| AdminForms.NameClash | src/pages/admin/category/CategoryForm.js:20-26 | a clash exactly when another record has the same name up to case |
| AdminForms.CheckCoded | src/pages/admin/category/CategoryForm.js:9-31 | rejected exactly on a code or name clash, the code message first; otherwise the values with the slug of the name |
| AdminForms.EditedRecordExcluded | src/pages/admin/role/RoleForm.js:11-23 | the record being edited never blocks its own submit |
| AdminForms.NameCheckIgnoresCase | src/pages/admin/role/RoleForm.js:20-26 | two names equal up to case are rejected alike |
| AdminForms.CodeCheckIsExact | src/pages/admin/category/CategoryForm.js:11-26 | "ao" passes the code check against "AO", but "áo" is rejected against "Áo" by name |
| AdminForms.CheckDiscount | src/pages/admin/discount/DiscountForm.js:9-20 | rejected exactly when another discount has the name up to case; otherwise the values unchanged |
| AdminForms.PercentageErrors | src/pages/admin/discount/DiscountForm.js:52-57 | the percentage passes exactly when it is a number in 0.01..100; missing fails the required rule, `NaN` fails both rules, any other number only the range rule |
| AdminForms.EditedPercentageErrors | src/pages/admin/discount/DiscountForm.js:28-57 | a form prefilled from a stored discount passes the percentage rules exactly when one is stored and converts to a number in 0.01..100; none stored gives the required message, and a text that is not a number gives both messages |
| AdminForms.DateErrors | src/pages/admin/discount/DiscountForm.js:60-74 | both dates are required, each with its own message |
| AdminForms.InitialPercentage | src/pages/admin/discount/DiscountForm.js:28 | a truthy stored percentage is converted by `Number`, giving `NaN` exactly when the conversion does; a falsy one stays missing |
| AdminForms.IsEmailMatchesPattern | src/pages/admin/user/UserForm.js:41-45 | the direct check (one '@' after a non-empty local part, no whitespace, a dot inside the domain) accepts exactly what the pattern matches |
| AdminForms.EmailHasShape | src/pages/admin/user/UserForm.js:44 | an accepted address splits into three atoms around '@' and '.' |
| AdminForms.ShapeIsEmail | src/pages/admin/user/UserForm.js:44 | three atoms around '@' and '.' are accepted |
| AdminForms.UserErrors | src/pages/admin/user/UserForm.js:18-107 | no error exactly when every required field is present and the e-mail matches; a missing e-mail gets only the required message |
| AdminForms.SubmitUser | src/pages/admin/user/UserForm.js:8-10 | the values are forwarded unchanged, and only when the form has no error |
| AdminPages.ListRequest | src/pages/admin/category/CategoryPage.js:35-40 | the page and size requested, with `keyword \|\| null` as search; the order list sends none |
| AdminPages.MountRequest | src/pages/admin/category/CategoryPage.js:35-53 | the first list request is page 1 of 6 with no search |
| AdminPages.ContactMountRequest | src/pages/admin/contact/ContactPage.js:16-40 | the contact list starts at page 1 of 5 with no search |
| AdminPages.PageAfterDelete | src/pages/admin/category/CategoryPage.js:73-74 | one page back exactly when the page held one row and was not the first; never below page 1 |
| AdminPages.ContactPageAfterDelete | src/pages/admin/contact/ContactPage.js:50-52 | one page back exactly when no row remains and the page was not the first |
| AdminPages.ContactStepBackAgrees | src/pages/admin/contact/ContactPage.js:50-52 | the contact page's remaining-count rule steps back exactly when the others' rule does |
| AdminPages.DeleteFailed | src/pages/admin/category/CategoryPage.js:77 | the category page shows the server's message or the default; the others always show the default |
| AdminPages.Delete | src/pages/admin/product/ProductPage.js:75-85 | a throw refetches nothing; success refetches the stepped-back page with the search and shows the server's message, with 'Xóa thành công' as the category page's default and 'Xóa đơn hàng thành công' always on the order page |
| AdminPages.DeleteNeverBelowFirstPage | src/pages/admin/user/UserPage.js:91-93 | after a delete the refetched page is at least 1 and at most one below the current one |
| AdminPages.SearchTyped | src/pages/admin/product/ProductPage.js:133 | typing refetches page 1 at the same page size with the new text |
| AdminPages.Loaded | src/pages/admin/role/RolePage.js:34-48 | a reply sets the paging to the requested page and the total; a throw keeps it and shows the page's error |
| AdminPages.ContactLoaded | src/pages/admin/contact/ContactPage.js:21-36 | a reply sets the paging to the requested page and the total; a throw keeps it and shows 'Lỗi khi tải danh sách liên hệ' |
| AdminPages.ContactLoadedLikeOthers | src/pages/admin/contact/ContactPage.js:21-36 | the contact list treats a response as the other lists do, and only the words of its error differ |
| AdminPages.WriteFor | src/pages/admin/order/OrderPage.js:111-112 | PUT to the edited record when editing, POST otherwise |
| AdminPages.RefusedDefault | src/pages/admin/product/ProductPage.js:115 | the product page's default refusal text is 'Cập nhật thất bại', the others' 'Thao tác thất bại' |
| AdminPages.Submit | src/pages/admin/role/RolePage.js:81-98 | success refetches the current page and shows the server's message ('Thao tác thành công' by default on the category page, always on the order page); a refusal shows the message; the category page closes only on success, the order page ignores the flag, the others close on any reply |
| AdminPages.RefusedSubmitCloses | src/pages/admin/user/UserPage.js:118-130 | a refused submit closes the modal on every page except the category page |
| AdminPages.UpdateStatus | src/pages/admin/order/OrderPage.js:44-61 | only a successful status update refetches the current page |
| AdminPages.RowNumber | src/pages/admin/order/OrderList.js:36 | the row number of a page lies strictly after the previous pages' rows and within this page |
| AdminPages.RowNumbersDistinct | src/pages/admin/category/CategoryPage.js:146 | two rows with the same number are the same row of the same page |
| AdminPages.ImagePart | src/pages/admin/product/ProductPage.js:97-102 | the image is appended under its normalised name, and only when present |
| AdminPages.Flag | src/pages/admin/product/ProductPage.js:95 | is_active is sent as "1" or "0" |
| AdminPages.ProductFields | src/pages/admin/product/ProductPage.js:90-95 | name, price, description (default '') and category, then discountId only when truthy, then is_active |
| AdminPages.ProductBody | src/pages/admin/product/ProductPage.js:88-102 | the product body is its fields followed by the image part |
| AdminPages.ProductBodyKeys | src/pages/admin/product/ProductPage.js:94-102 | discountId is sent exactly when truthy, and image exactly when a file is present |
| AdminPages.UserBody | src/pages/admin/user/UserPage.js:101-115 | the seven user fields in order, password as text and is_active as 1/0, then the image part |
| AdminPages.Project | src/pages/admin/order/OrderPage.js:96-100 | the stored order items projected onto product id, quantity and price, in order |
| AdminPages.OrderPayloadOf | src/pages/admin/order/OrderPage.js:95-108 | items from `items`, else the projected `order_item`, else none; the note defaults to ''; the total and other fields are carried over |
| AdminPages.ProjectKeepsItems | src/pages/admin/order/OrderPage.js:96-100 | each projected item keeps its product, quantity and price |
| AdminPages.Add | src/pages/admin/order/OrderPage.js:83 | add opens the modal with no record being edited |
| AdminPages.Edit | src/pages/admin/order/OrderPage.js:84 | edit opens the modal on that record |
| AdminPages.Close | src/pages/admin/role/RolePage.js:95 | closing hides the modal and keeps the edited record |
| AdminPages.AddThenSubmitPosts | src/pages/admin/category/CategoryPage.js:55-88 | a submit after add always creates |
| AdminPages.ContactAddAsWritten | src/pages/admin/contact/ContactPage.js:42 | the contact page's add opens the modal and keeps the previously edited contact |
| AdminPages.ContactAddUpdatesOldContact | src/pages/admin/contact/ContactPage.js:42-63 | edit, close, then add: the submit updates the old contact |
| AdminPages.ContactAdd | src/pages/admin/contact/ContactPage.js:42 | the corrected add opens the modal with no contact being edited, like the other pages |
| AdminPages.ContactAddCreates | src/pages/admin/contact/ContactPage.js:62-74 | with the corrected add, a submit after add always creates |
| AdminPages.ContactSubmit | src/pages/admin/contact/ContactPage.js:60-79 | a create refetches page 1; an edit refetches the current page only on success; any reply closes; a reply that is not a refused edit shows the server's message; a throw shows 'Thao tác thất bại' |
| AdminPages.ContactDelete | src/pages/admin/contact/ContactPage.js:45-58 | success refetches the stepped-back page with the search and shows the server's message; a throw refetches nothing |
| OrderList.FindOption | src/pages/admin/order/OrderList.js:58 | the option found has the status as its value, and none is found exactly when no option has it |
| OrderList.StatusTag | src/pages/admin/order/OrderList.js:6-58 | a known status shows its label and colour; any other the raw value in 'default' |
| OrderList.StatusMatchIsExact | src/pages/admin/order/OrderList.js:58 | "paid" is recognised, "PAID" is not |
| OrderList.FindCustomer | src/pages/admin/order/OrderList.js:42-45 | the customer found has the id, and none is found exactly when no user has it |
| OrderList.CustomerName | src/pages/admin/order/OrderList.js:42-45 | family name, a space, given name; 'Không xác định' when the user is unknown |
| OrderList.Open | src/pages/admin/order/OrderList.js:19-23 | opening preselects the order's own status |
| OrderList.Pick | src/pages/admin/order/OrderList.js:19-30 | picking changes only the chosen status |
| OrderList.Confirm | src/pages/admin/order/OrderList.js:25-30 | onUpdateStatus fires exactly when an order is selected and the status differs from its own; the modal closes either way |
| OrderList.Cancel | src/pages/admin/order/OrderList.js:19-30 | cancelling closes the modal and fires nothing |
| OrderList.OpenThenConfirmFiresNothing | src/pages/admin/order/OrderList.js:19-28 | opening and confirming at once changes no order |
| OrderList.PickThenConfirmFires | src/pages/admin/order/OrderList.js:19-28 | picking another status and confirming updates exactly the order the modal was opened for |

## Left out

- Rendering, styles, icons, the Dashboard, the About/Home/Contact/Search/payment pages, `ViewModeSwitch`, `StatusModal` and `helpers.js`. They hold no rule beyond display.
- Network, storage, timers and the clock are parameters. The backend's replies are not modelled beyond their shape.
- Responses that arrive after a newer request are not modelled. Each handler is taken to complete before the next event.
- `slugify`, `Number(...)` and `jwtDecode` are abstract function parameters or a decoded value.
- `FileName.NormalizeName`: an argument that is not a string is not modelled. Only a missing string and the empty string stand for falsy inputs. The contract states the shape of every result; which characters survive is stated stage by stage and by `NormalizeSafeFixed`, not for the whole pipeline at once.
- `ProductDetail.AddedQuantityReachesBadge`: how the server merges a line into an existing one for the same product is not modelled; the lemma takes the appended line as given.
- `Common.Lower`, `Common.Upper`: the case mapping covers ASCII, Latin-1 and the Vietnamese letters only, with the sharp s, 'ÿ' and 'µ' upper-cased as `toUpperCase` does. Other scripts, and their special casings, map to themselves.
- `OrderHistory.SortNewestFirst`: it is proved to be a sorted permutation, not to be stable. The comparison uses a whole-number creation time; date parsing is not modelled.
- `OrderHistory.StatusTag`: a status string that names an `Object.prototype` member, such as "constructor", is not modelled.
- `UserLayout.CheckExpiry`: times are whole milliseconds and expiry is whole seconds. The logout timer is never cancelled in the source, and that is not modelled either.
- `AdminForms.PercentageErrors`: the percentage is in hundredths, a whole number. Fractions finer than 0.01 and the InputNumber's handling of a cleared field are not modelled. Which texts `Number` turns into `NaN` is a parameter.
- `AdminPages.ImagePart`: the `File` object's type and contents are not modelled, and neither is the throw when the first uploaded entry has no `originFileObj`: the product and user pages then read `.name` of undefined.
- `Profile.ChooseFile`: the `File` object's type and contents are not modelled. The profile page reads the file through optional chaining, so it cannot throw, and a missing file keeps the current selection.
- `AdminLayout.FormatBreadcrumb`: the contract proves no dash or underscore remains. It does not state the capitalisation pointwise; `Capitalize` does, and `CamelSplitAppend` with `CamelSplitPair` pins where `CamelSplit` puts spaces.
- Locale formatting of prices and floating point prices are not modelled. Prices and quantities are integers.

## Findings

| source | as written | input that shows it | evidently intended | confidence | as-written member | corrected member |
|---|---|---|---|---|---|---|
| src/layouts/UserLayout.js:64-67 | the remaining time is passed straight to `setTimeout`, which converts it to a 32-bit signed integer | a token expiring 2 147 484 s from now gives 2 147 484 000 ms, which wraps to a negative delay, so the user is logged out at once | the user is logged out at expiry, never before | not executed | UserLayout.LongTokenLogsOutAtOnce | UserLayout.RearmedLogoutOnTime |
| src/pages/admin/contact/ContactPage.js:42 | `handleAdd` opens the modal without clearing the contact edited last | edit contact 7, close the modal, press add, submit: the request is a PUT to contact 7 | add creates a new contact, as every other admin page's add does | not executed | AdminPages.ContactAddUpdatesOldContact | AdminPages.ContactAddCreates |
