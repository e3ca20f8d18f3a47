# PRM-fe client logic in Dafny

PRM-fe is the React client of a marketplace for used electric-vehicle batteries.
Buyers search listings, order them and pay from a wallet. Sellers post listings
and ask for a price suggestion. Everyone signs in with an access/refresh token pair.
Most of the client renders pages. This project models its decision logic as pure
functions over immutable data:

- the axios client's token-refresh coordinator (`refresh_client.dfy`), an explicit
  state machine driven by atomic events (a failed response, the refresh reply or
  error, the expiry timer);
- token extraction from loosely shaped login replies and the token storage
  (`auth_service.dfy`, `storage.dfy`), with the order in which `Object.entries`
  lists an object's keys (`object_keys.dfy`);
- the session-expiry guard, `isAuthenticated` and the password rules (`auth_utils.dfy`);
- the form checks of the register, login, post-listing, account, order and
  price-suggestion forms, each returning the first failing rule in source order;
- the search page's filter pipeline, its query parameters and option lists
  (`search_page.dfy`, with the product record in `catalog.dfy`);
- the home page's loading state, category counts and grids (`home_page.dfy`);
- the order total, shortfall and error classification (`order_page.dfy`);
- the account page's profile edits, avatar and top-up checks, and listing labels
  (`account_page.dfy`);
- the chat page's seller header, find-or-create conversation, send guard and
  avatar grouping (`chat_page.dfy`);
- the price-suggestion panel and service envelope (`price_suggestion.dfy`,
  `price_suggestion_service.dfy`);
- the payment-URL field precedence (`payment_service.dfy`).

Shared modules hold the JavaScript semantics the code leans on:

- `Js`: parsed JSON values, where a property read is `Option<Json>` and `None`
  means `undefined`. It covers truthiness, `||`, `??`, optional chaining,
  `String(v)`, `Number(v)` and `parseInt`.
- `Text`: `trim`, `\s`, case mapping, `includes`, `split` and `join`.
- `Seqs`: filter, count, deduplication and descending sort.
- `Wrappers`: `Option` and `Result`.
- `Forms`: the two regular expressions, as predicates.

Each validator returns a `Problem` value. Its `Message` function maps the value to
the exact string the page shows.

Money is an integer number of VND. A JavaScript number is `Num = Int(v) | NaN`.
Browser I/O, HTTP calls and timers are not modelled. Whatever they return is an
explicit parameter: a reply body, a thrown error, a parse function, or the fact
that a call threw.

## Model

| member | source | states |
|---|---|---|
| RefreshClient.InitialValid | src/services/axiosInstance.ts:26-31 | At start-up no refresh is in flight and the queue of waiting requests is empty. |
| RefreshClient.Outgoing | src/services/axiosInstance.ts:13-24 | With a non-empty stored token, an outgoing request carries `Bearer <token>`. With none, its authorization is left as it was. URL and retry mark never change. |
| RefreshClient.OutgoingIdempotent | src/services/axiosInstance.ts:13-24 | Passing a request through the request interceptor twice is the same as passing it once. |
| RefreshClient.Expire | src/services/axiosInstance.ts:61-66 | The expiry handler keeps the refresh state and sets the guard. It raises the notice only when the guard was clear. It clears storage exactly as `handleTokenExpiration` does. |
| RefreshClient.RejectAll | src/services/axiosInstance.ts:33-42 | On failure, every queued request is rejected with the same refresh error, in queue order. |
| RefreshClient.ReplayAll | src/services/axiosInstance.ts:33-42 | On success, every queued request is re-sent through the interceptor, in queue order. |
| RefreshClient.NextValid | src/services/axiosInstance.ts:44-136 | Every event keeps three facts: a refresh is in flight iff `isRefreshing`; the queue is empty when no refresh runs; the request that started a refresh is marked retried. |
| RefreshClient.SignoutBypass | src/services/axiosInstance.ts:50-52 | A failure whose URL contains `/users/signout` is rejected unchanged, whatever its status, and the client state is untouched. |
| RefreshClient.NoRefreshForIneligible | src/services/axiosInstance.ts:55-69 | A non-401, an already retried request, or a `refresh-token` URL is rejected with its own error and posts no refresh. The expiry handler runs only for a 401 on a `refresh-token` URL. |
| RefreshClient.LogoutIsNotBypassed | src/services/axiosInstance.ts:50-52 | A 401 from `/auth/logout`, the path logout really posts, does not match the signout bypass: during a refresh it is queued like any request. |
| RefreshClient.MarkedUrlEndsSession | src/services/axiosInstance.ts:55-66 | A 401 on a request sent through the instance to a URL containing `refresh-token` (not the signout path) runs the expiry handler, leaves the queue alone and posts no refresh. No request the program sends through the instance has such a URL: both refresh calls use plain `axios` (axiosInstance.ts:98, authService.ts:130). |
| RefreshClient.QueuedWhileRefreshing | src/services/axiosInstance.ts:71-82 | During a refresh, an eligible 401 is appended to the queue unmarked. No effect is emitted and nothing else changes. |
| RefreshClient.StartsOneRefresh | src/services/axiosInstance.ts:84-102 | The first eligible 401 marks the request retried and sets `isRefreshing`. It posts the stored refresh token to `/users/refresh-token` exactly once and leaves storage as it was. |
| RefreshClient.MissingRefreshToken | src/services/axiosInstance.ts:89-95 | Without a stored refresh token, the attempt fails before any network call. The session is expired and the request is rejected with the missing-token error. |
| RefreshClient.ErrorsWhileRefreshing | src/services/axiosInstance.ts:71-82 | Any number of 401s during a refresh are queued in arrival order, with no effects. |
| RefreshClient.ConcurrentErrorsOneRefresh | src/services/axiosInstance.ts:71-102 | However many requests fail together, a single refresh is posted. The first request is in flight and the others wait in order. |
| RefreshClient.SingleFlight | src/services/axiosInstance.ts:84-85 | No event posts more than one refresh. An event that posts one found no refresh running and leaves one running. |
| RefreshClient.RefreshSucceeds | src/services/axiosInstance.ts:105-123 | A reply with both tokens has these effects: both are stored, the default header is set, and only those keys change. Each queued request is re-sent with the new token, then the original. The queue is empty and the flag is cleared. |
| RefreshClient.RefreshFails | src/services/axiosInstance.ts:124-134 | A failed call or a reply without both tokens has these effects: every queued request and then the original is rejected with the same error; the session is expired; the queue is emptied; the flag is cleared; no refresh is posted. |
| RefreshClient.DrainedOnce | src/services/axiosInstance.ts:33-42 | Once a refresh has settled, a second settlement does nothing: the queue is drained exactly once per attempt. |
| RefreshClient.TokensWrittenAsPair | src/services/axiosInstance.ts:105-116 | The stored token changes only when a reply carried both tokens, and the refresh token is written with it. |
| AuthService.DirectFirst | src/services/authService.ts:29-36 | Whenever a direct candidate of either role is truthy, the direct tokens are the result. Each role is truthy exactly when one of its own candidates is, and then holds the first truthy one: for access in the order `accessToken`, `access_token`, `token`, `jwt`, `access`, `data.accessToken`, `data.access_token`; for refresh in the order `refreshToken`, `refresh_token`, `refresh`, `data.refreshToken`, `data.refresh_token`. |
| AuthService.TokenObjectTakenWhole | src/services/authService.ts:29-40 | A truthy top-level `token` object is returned whole as the access token, so the `token` container of the next stage is never searched. |
| AuthService.Containers | src/services/authService.ts:39-48 | Only truthy containers take part in the second stage. |
| AuthService.FirstNested | src/services/authService.ts:50-56 | The second stage yields the tokens of the first container that holds either token. It yields nothing iff no container does. |
| AuthService.ContainerOrder | src/services/authService.ts:39-56 | When the direct stage finds nothing and some container holds a token, the result is that of the first such container. |
| AuthService.ScanEntry | src/services/authService.ts:69-80 | One entry fills a slot only if the slot is unset, the value is a string, and the lower-cased key matches (`access`/`token`/`jwt` for access, `refresh` for refresh). A filled slot is never overwritten. |
| AuthService.ScanEntriesKeeps | src/services/authService.ts:72-77 | Scanning an object never overwrites an already filled slot. |
| AuthService.ScanEntriesSource | src/services/authService.ts:69-77 | Every slot the scan fills holds the string value of an entry whose key matches that slot. |
| AuthService.ScanEntriesLoop | src/services/authService.ts:69-81 | The imperative entry loop computes the recursive scan and pushes exactly the object-valued children. |
| AuthService.ScanLevelLoop | src/services/authService.ts:64-82 | One level of the loop scans every queued node and queues exactly the next level. |
| AuthService.DeepSearch | src/services/authService.ts:58-85 | The while loop with its level counter equals the level-by-level breadth-first search. |
| ObjectKeys.EntriesOrder | src/services/authService.ts:69 | `Object.entries` lists exactly the object's fields (as a multiset): first its array-index keys, in ascending numeric order, then its other keys in creation order. |
| ObjectKeys.EntriesWithoutIndexKeys | src/services/authService.ts:69 | An object without array-index keys is listed in creation order. |
| ObjectKeys.IndexKeyListedFirst | src/services/authService.ts:69 | An array-index key created after a named key is still listed before it. |
| ObjectKeys.FlatObjectInOrder | src/services/authService.ts:69 | An object of strings without array-index keys is already in listing order, so the deep search reads it as written. |
| AuthService.OnlyDeepSearch | src/services/authService.ts:29-85 | An object with none of the direct or container keys is answered by the deep search alone, run over the body with every object in `Object.entries` order. |
| AuthService.IndexKeyScannedFirst | src/services/authService.ts:60-84 | For `{"b":{"token":"x"},"1":{"token":"y"}}` the search queues `d["1"]` before `d.b` and returns `"y"` as the access token. |
| AuthService.ScanTokenLeaf | src/services/authService.ts:70-74 | A string under a `token` key fills the access slot. |
| AuthService.ScanWrapper | src/services/authService.ts:78-80 | A wrapping object yields no token itself and puts its child on the next level. |
| AuthService.DepthBound | src/services/authService.ts:63 | A token nested under m wrappers is found iff it lies within the first 5 levels. |
| AuthService.RefreshKeyFillsBothSlots | src/services/authService.ts:72-77 | A key such as `REFRESH_TOKEN` fills both the access and the refresh slot. |
| AuthService.NothingFound | src/services/authService.ts:84-87 | When no stage finds a token, the result holds neither token. |
| AuthService.SaveTokens | src/services/authService.ts:90-103 | The access token and default header are written iff the access token is truthy. The refresh token is written iff it is truthy. No other key changes, and nothing changes when neither is found. |
| AuthService.ClearTokens | src/services/authService.ts:105-109 | Both tokens and the default header are removed. Every other key, `profile` included, is kept. |
| AuthService.Logout | src/services/authService.ts:139-147 | Whatever the endpoint answered or threw, the session is no longer authenticated and the header is gone. The profile is kept and the call's outcome is passed on. |
| AuthService.RefreshRequest | src/services/authService.ts:126-137 | Without a non-empty stored refresh token it fails with `No refresh token` before any call. Otherwise it sends that token. |
| AuthService.AfterTokenResponse | src/services/authService.ts:111-124 | After login, register or refresh, a falsy reply leaves storage as it was. A truthy one is saved. |
| AuthUtils.HandleTokenExpiration | src/utils/authUtils.ts:7-16 | With the guard set, nothing changes and no notice is shown. Otherwise the guard is set, one notice is shown, and `token`, `refreshToken` and `profile` are removed. Nothing else changes, the default header included. |
| AuthUtils.TimerFires | src/utils/authUtils.ts:30-37 | The delayed callback is what clears the guard. |
| AuthUtils.AtMostOneNotificationPerReset | src/utils/authUtils.ts:7-38 | Over any sequence of expiries and timer firings, the notices shown are at most the firings plus one (none extra when the guard starts set). |
| AuthUtils.IsAuthenticatedMeaning | src/utils/authUtils.ts:41-45 | Signed in iff both `token` and `refreshToken` are stored and non-empty. The header and route guard use the same predicate. |
| AuthUtils.ExpiryLogsOut | src/utils/authUtils.ts:10-15 | After an expiry the user is no longer signed in. |
| AuthUtils.Failing | src/utils/authUtils.ts:56-78 | The failed rules, in rule order, are exactly those of the given rules that do not hold. |
| AuthUtils.ValidatePassword | src/utils/authUtils.ts:53-84 | The errors are exactly the rules that fail, at most five, in the order length ≥ 8, upper, lower, digit, special (special means one of the twenty punctuation characters of the source's character class, the vertical bar among them). `isValid` holds iff there are no errors, iff every rule holds. |
| Forms.EmailMatchesPattern | src/pages/RegisterPage.tsx:41 | The email predicate accepts exactly the strings `a@b.c` where a, b and c are non-empty runs of non-whitespace, as `^\S+@\S+\.\S+$` does. |
| Forms.FailureMessage | src/pages/RegisterPage.tsx:74-76 | The shown error is the server's message if truthy, else the error's own message if truthy, else the page's fallback. |
| LoginPage.Validate | src/pages/LoginPage.tsx:12-18 | Returns the first failing check among empty email, malformed email and empty password. Returns none iff all pass. |
| LoginPage.PasswordCheckedLast | src/pages/LoginPage.tsx:13-16 | "Password is required" is reported iff the email is well formed and the password is empty. |
| LoginPage.Submit | src/pages/LoginPage.tsx:20-30 | A failing check shows its message and login is not called. Otherwise login gets the typed email and password, which pass the checks. |
| RegisterPage.Validate | src/pages/RegisterPage.tsx:39-51 | The first failing check in the order: email, email format, password, length ≥ 6, confirmation, match, full name (untrimmed), phone (optional; else 10–11 digits). None iff all pass. |
| RegisterPage.Optional | src/pages/RegisterPage.tsx:69-70 | An empty optional field is sent as absent; otherwise as typed. |
| RegisterPage.Submit | src/pages/RegisterPage.tsx:53-71 | A failing check shows its message and register is not called. Otherwise the payload is the typed email, password and full name, with phone and address absent iff empty. It is therefore valid: a well-formed email, a password of at least 6 characters, a non-empty name and a well-formed phone if any. |
| PostListing.AddCapped | src/pages/PostListingPage.tsx:50-62 | Adding images keeps `old ++ new` truncated to 10. The length is the smaller of the sum and 10, and old images stay a prefix. |
| PostListing.RemoveAt | src/pages/PostListingPage.tsx:64-66 | Removing index i drops exactly that element and keeps the rest in order. An index out of range removes nothing. |
| PostListing.ImagesStayAligned | src/pages/PostListingPage.tsx:50-75 | Files and preview URLs keep equal lengths through uploads and removals. |
| PostListing.Back | src/pages/PostListingPage.tsx:623 | "Back" never goes below step 1 and otherwise goes one step back. |
| PostListing.Forward | src/pages/PostListingPage.tsx:635-638 | "Continue" is offered iff the step is below 4, and then moves one step on. |
| PostListing.StepInRange | src/pages/PostListingPage.tsx:623-638 | From any step in 1..4, both buttons keep the step in 1..4. |
| PostListing.Validate | src/pages/PostListingPage.tsx:78-92 | The first failing rule in source order. Name, brand, capacity, voltage and description must be non-blank after trimming. Type, year, price, condition and location must be non-empty. At least one image. None iff all pass. |
| PostListing.BuildProduct | src/pages/PostListingPage.tsx:123-139 | Status is always `Pending`. An unparsable cycle count becomes 0 and a parsable one is kept. The year is `parseInt` of the typed year, the price is the parsed price, the owner is the user id value when truthy, else `""`. Name, brand, type, capacity, voltage, condition, warranty, location, description and images are passed through. |
| Js.ParseIntHex | src/pages/PostListingPage.tsx:129-132 | `parseInt` without a radix reads `0x` followed by hexadecimal digits in base 16, all of them. |
| Js.ParseIntHexSixteen | src/pages/PostListingPage.tsx:129-132 | `parseInt("0x10")` is 16. |
| Js.ParseIntBareHexPrefix | src/pages/PostListingPage.tsx:129-132 | `parseInt("0x")` is `NaN`. |
| PostListing.CycleCountRoundTrip | src/pages/PostListingPage.tsx:132 | A cycle count typed as the digits of n is sent as n. |
| PostListing.Submit | src/pages/PostListingPage.tsx:94-139 | A failing check shows its message and no product is created. Otherwise the product built from the typed form is created; it is `Pending` and has a non-blank name and description. |
| SearchPage.FiltersFrom | src/pages/SearchPage.tsx:17-26 | The initial filters mirror the query parameters of the same names, with absent ones as `""`. |
| SearchPage.HandleFilterChange | src/pages/SearchPage.tsx:128-136 | Only the changed filter takes the value. Its parameter is set when the value is non-empty and deleted otherwise. Every other parameter is unchanged. |
| SearchPage.FilterChangeAgrees | src/pages/SearchPage.tsx:128-136 | Filters that mirror the parameters still mirror them after a change. |
| SearchPage.FilterChangeUndone | src/pages/SearchPage.tsx:128-136 | Setting a filter whose parameter was absent, then emptying it, restores the parameters exactly. |
| SearchPage.ClearFilters | src/pages/SearchPage.tsx:138-150 | Every filter is empty, and the parameters are emptied too, so they still agree. |
| SearchPage.RunStagesIsOneFilter | src/pages/SearchPage.tsx:85-126 | The chain of conditional `filter` calls equals one filter by the conjunction of the active conditions. |
| SearchPage.PassesAllStages | src/pages/SearchPage.tsx:88-123 | A product passes every active stage iff it matches the criteria. |
| SearchPage.PipelineIsFilter | src/pages/SearchPage.tsx:85-126 | The result is the loaded list filtered by the match predicate. |
| SearchPage.PipelineSelects | src/pages/SearchPage.tsx:85-126 | The result is an order-preserving subsequence of the loaded products. It contains exactly those that match: query on name, brand or type; exact category, brand and location; inclusive price bounds; year; mileage; featured status. |
| SearchPage.ClearedShowsAll | src/pages/SearchPage.tsx:138-150 | After clearing, every loaded product is shown. |
| SearchPage.UnparsableBoundShowsNothing | src/pages/SearchPage.tsx:103-104 | A minimum price that does not parse (NaN) hides every product. |
| SearchPage.MissingMileageKept | src/pages/SearchPage.tsx:109-114 | The mileage bound never excludes a product without a mileage. |
| SearchPage.QueryIgnoresCase | src/pages/SearchPage.tsx:88-97 | The text query matches regardless of the case it was typed in. |
| SearchPage.ToVehicle | src/pages/SearchPage.tsx:68-83 | The card is featured iff the status is published or available in any case. Missing mileage shows as 0, and a missing id, type or location as `""`. |
| SearchPage.FeaturedCardsOnly | src/pages/SearchPage.tsx:117-123 | With `featured=true`, every shown product maps to a featured card. |
| SearchPage.Brands | src/pages/SearchPage.tsx:28-30 | Brand options are duplicate-free and are exactly the non-empty brands of the loaded products. |
| SearchPage.Locations | src/pages/SearchPage.tsx:34-36 | Location options are duplicate-free and are exactly the non-empty locations of the loaded products. |
| SearchPage.Years | src/pages/SearchPage.tsx:31-33 | Year options are duplicate-free, sorted descending, and are exactly the non-zero years of the loaded products. |
| Catalog.ListItems | src/pages/SearchPage.tsx:47-51 | An array reply gives its elements; otherwise an array `items` field gives its elements; a non-empty list comes from nowhere else. |
| Catalog.ListShapesAgree | src/pages/HomePage.tsx:21-27 | A bare array and any object holding that array under `items`, wherever the field sits (`{ total, items }`), give the same list. |
| Catalog.ListItemsNeedsArray | src/pages/HomePage.tsx:21-27 | Any other reply gives the empty list. |
| Catalog.Products | src/pages/SearchPage.tsx:47-52 | One product record per list item, in order. |
| Catalog.FeaturedIgnoresCase | src/pages/SearchPage.tsx:78-80 | Featured status does not depend on the status's letter case. |
| Catalog.NoStatusNotFeatured | src/pages/SearchPage.tsx:78-80 | A missing or empty status is never featured. |
| HomePage.Fetch | src/pages/HomePage.tsx:15-34 | Loading always ends. A reply replaces the list and clears the error. A failure sets the error message and keeps the old list. |
| HomePage.RetryClearsError | src/pages/HomePage.tsx:15-34 | A successful retry after a failure lands where a first success would. |
| HomePage.FirstLoadFails | src/pages/HomePage.tsx:28-33 | A first load that fails shows the error with an empty list. |
| HomePage.Categories | src/pages/HomePage.tsx:36-57 | Four categories in fixed order, named `Pin <id>`. Each count is the number of loaded products of that type. |
| HomePage.TotalCountsEachListingOnce | src/pages/HomePage.tsx:36-57 | For distinct ids, the counts add up to the number of products whose type is one of them. |
| HomePage.CategoryCountsWithinList | src/pages/HomePage.tsx:36-57 | The four counts never add up to more than the loaded list. |
| HomePage.FeaturedSection | src/pages/HomePage.tsx:297-345 | The featured area shows a spinner iff loading, the error iff loaded with an error, the empty notice iff loaded with no products. Otherwise it shows the first min(n, 6) products, in order. |
| HomePage.LatestSection | src/pages/HomePage.tsx:352-376 | The latest grid appears iff not loading and more than 6 products are loaded. It shows products 7 to at most 12, in order. |
| HomePage.GridsShowFirstPage | src/pages/HomePage.tsx:297-376 | For every n loaded products without error, the two grids together show exactly the first min(n, 12) products, each once: the featured cards alone up to 6 products (none for 0), both grids beyond that. |
| HomePage.LatestShownBesideError | src/pages/HomePage.tsx:352 | A failed reload keeps the old list, so the error notice and the latest grid can show together. |
| HomePage.CardLink | src/pages/HomePage.tsx:258 | A category card links to the search page with the card's id under a single parameter; the page writes `type`, the corrected link `category`. |
| HomePage.CategoryLinkAsWrittenShowsAll | src/pages/HomePage.tsx:255-258 | Following such a link shows every product: the search page ignores `type`. |
| HomePage.CategoryLinkShowsCounted | src/pages/HomePage.tsx:36-57 | Following the corrected link shows exactly the products of that type, as many as the card counts. |
| OrderPage.HandleChange | src/pages/OrderPage.tsx:54-64 | The fee field is stored as `Number(value)`. Other fields are stored as typed and leave the fee alone. |
| OrderPage.FeeFieldRoundTrip | src/pages/OrderPage.tsx:62 | Typing the digits of n stores n. Clearing the field stores 0. |
| OrderPage.Add | src/pages/OrderPage.tsx:73 | A sum is NaN iff an operand is. Otherwise it is the arithmetic sum. |
| OrderPage.Total | src/pages/OrderPage.tsx:73 | The total is 0 without a product. Otherwise it is price plus fee, and NaN when either is. |
| OrderPage.Submit | src/pages/OrderPage.tsx:94-112 | A blank address is refused with its message. Otherwise the request carries the address untrimmed, the chosen payment method and the notes as typed, a fee of 0 when NaN, and the product id or `""`. |
| OrderPage.CurrentUserId | src/pages/OrderPage.tsx:75-87 | The result is truthy or `null`. A parsed stored `user` gives the first truthy of its `id`, `_id` and `userId`, else `null`. An unparsable one gives `null`. Without `user`, it is the stored `userId` when non-empty, else `null`. |
| OrderPage.UserIdPrecedence | src/pages/OrderPage.tsx:80-81 | A parsed user's `id` wins over `_id`, `_id` wins over `userId`, and `userId` is used when it alone is truthy. With none truthy the result is `null`. |
| OrderPage.AboutBalanceMeaning | src/pages/OrderPage.tsx:130-135 | A message is about the balance iff its lower-cased text contains one of the three phrases. |
| OrderPage.RawBalanceFirstDefined | src/pages/OrderPage.tsx:141-148 | The raw balance is the first defined of the six wallet fields, in order, or 0. |
| OrderPage.ZeroBalanceKept | src/pages/OrderPage.tsx:141-149 | A wallet with `balance: 0` has balance 0, whatever its other fields say. |
| OrderPage.UnreadableBalanceIsZero | src/pages/OrderPage.tsx:149 | A balance that is not a number counts as 0. |
| OrderPage.Shortfall | src/pages/OrderPage.tsx:150 | The shortfall is NaN iff the total is. It is never negative, is 0 iff the balance covers the total, and otherwise fills the gap. |
| OrderPage.OnOrderError | src/pages/OrderPage.tsx:117-164 | A truthy server shortfall opens the top-up dialog with it. A balance-related message with a user and a readable wallet opens the dialog with the computed shortfall. Everything else shows the plain message. The dialog opens iff a shortfall is set. |
| OrderPage.ZeroServerShortfallFallsThrough | src/pages/OrderPage.tsx:121-123 | A server shortfall of 0 is falsy, so it does not open the dialog alone. |
| OrderPage.NeedAmountOnlyBehindNullish | src/pages/OrderPage.tsx:121-122 | `needAmount` is used when `shortfall` is `null` but not when it is 0. |
| OrderPage.ComputedShortfallNonNegative | src/pages/OrderPage.tsx:141-153 | A shortfall the page computes is non-negative, and is 0 iff the balance covers the total. |
| AccountPage.With | src/pages/AccountPage.tsx:224-231 | Setting one payload field changes that field only. |
| AccountPage.OrAbsent | src/pages/AccountPage.tsx:224-231 | An empty display name or avatar is sent as absent. |
| AccountPage.Current | src/pages/AccountPage.tsx:224-231 | The payload rebuilt from the profile keeps its fields, with empty display name and avatar absent. |
| AccountPage.SaveField | src/pages/AccountPage.tsx:193-248 | The first failure among: no profile id, blank required field, malformed phone. On success only the edited field changes, to its trimmed value (absent when blank). |
| AccountPage.SavedRequiredFieldsFilled | src/pages/AccountPage.tsx:200-219 | A saved name, phone or address is its trimmed value. A saved phone is 10–11 digits. |
| AccountPage.BlankDisplayNameSaved | src/pages/AccountPage.tsx:224-231 | A blank display name passes and is sent as absent. |
| AccountPage.Optional | src/pages/AccountPage.tsx:280-293 | An optional field is absent iff blank. Otherwise it is sent trimmed. |
| AccountPage.EditProfile | src/pages/AccountPage.tsx:251-293 | The first failing check in order (profile, name, phone, phone format, address). On success the required fields are trimmed and the optional ones trimmed or absent. |
| AccountPage.EditProfileIdempotent | src/pages/AccountPage.tsx:303-309 | Re-submitting the form refilled from a saved profile sends the same payload. |
| AccountPage.CheckAvatar | src/pages/AccountPage.tsx:127-136 | The file is accepted iff its type starts with `image/` and it is at most 5 MB. A non-image is reported first. |
| AccountPage.AvatarPayload | src/pages/AccountPage.tsx:150-157 | The avatar upload changes only the avatar field. |
| AccountPage.Ceil | src/pages/AccountPage.tsx:343 | `Math.ceil`: the least integer not below the amount. |
| AccountPage.CheckTopUp | src/pages/AccountPage.tsx:324-343 | NaN or non-positive amounts are invalid. Amounts below 10,000 are refused. Others pass, rounded up. |
| AccountPage.WholeAmountSentAsIs | src/pages/AccountPage.tsx:343 | A whole amount of at least 10,000 is sent unchanged. |
| AccountPage.OnTopUpReply | src/pages/AccountPage.tsx:348-359 | The page redirects iff `returncode` is the string `"1"` and `orderUrl` is truthy. An undefined or null reply throws, and the catch alerts its own message. Otherwise it alerts with the server's message or the fallback. |
| AccountPage.NumericReturnCodeRejected | src/pages/AccountPage.tsx:348-350 | A numeric return code 1 does not redirect, because the comparison is strict. |
| AccountPage.StatusLabelAsWritten | src/pages/AccountPage.tsx:915-922 | "Đang bán" iff `published`/`available`, "Đã bán" iff `sold`, "Đang chờ duyệt" iff `pending`, compared exactly. |
| AccountPage.PostedListingShowsProcessing | src/pages/AccountPage.tsx:915-922 | A listing posted with status `Pending` is labelled "Đang xử lý". |
| AccountPage.StatusLabel | src/pages/AccountPage.tsx:915-922 | The corrected label compares the lower-cased status. |
| AccountPage.PostedListingAwaitsReview | src/pages/AccountPage.tsx:920-921 | A freshly posted listing is labelled "Đang chờ duyệt", and the label ignores case. |
| AccountPage.LabelsAgreeOnLowerCase | src/pages/AccountPage.tsx:915-922 | The two labellings agree on every lower-case status. |
| ChatPage.Initials | src/pages/ChatPage.tsx:53-60 | A trimmed name with a space gives the upper-cased first letters of the first and last words. Otherwise it gives the first two characters upper-cased. |
| ChatPage.InitialsShape | src/pages/ChatPage.tsx:53-60 | Initials of a non-empty name have one or two characters. |
| ChatPage.SellerName | src/pages/ChatPage.tsx:49 | The seller's full name, else their display name, else "Người bán"; never empty. |
| ChatPage.SellerHeader | src/pages/ChatPage.tsx:46-65 | A failed lookup shows "Người bán" / "NB". Otherwise the name and its initials are shown. |
| ChatPage.FallbacksAgree | src/pages/ChatPage.tsx:49-64 | The initials of "Người bán" are "NB". A seller with no names looks like a failed lookup. |
| ChatPage.ChatsOf | src/pages/ChatPage.tsx:79-80 | The plain reads `res.data.data` throw iff the body or its `data` is undefined or null. Otherwise the list is that value when it is an array, else empty. |
| ChatPage.FindChat | src/pages/ChatPage.tsx:82-87 | `find` stops at the first entry that is `null` (where `c.listingId` throws) or is the conversation with this listing, seller and the current buyer. It finds none iff every entry is a non-null other conversation. |
| ChatPage.InitChat | src/pages/ChatPage.tsx:79-99 | The catch's error is shown, and nothing is created, iff a read throws. An existing conversation is reused. A new one is created iff the lookup completes without a match. |
| ChatPage.MissingDataFails | src/pages/ChatPage.tsx:79-80 | A body that is undefined or null, or whose `data` is, ends in the catch's error. |
| ChatPage.NullBeforeMatchFails | src/pages/ChatPage.tsx:82-87 | A `null` entry ahead of every match ends in the catch's error. |
| ChatPage.ReopeningReuses | src/pages/ChatPage.tsx:79-95 | Once a conversation has been created, opening the chat again reuses it. |
| ChatPage.Send | src/pages/ChatPage.tsx:131-136 | A message is sent iff there is a chat id, the input is not blank and nothing is sending. It is sent trimmed. |
| ChatPage.InputAfter | src/pages/ChatPage.tsx:134-144 | The input is cleared on success and restored on failure. |
| ChatPage.RetrySendsSameText | src/pages/ChatPage.tsx:131-149 | After a failed send, sending again sends the same text. |
| ChatPage.AvatarStartsRun | src/pages/ChatPage.tsx:253-254 | Every message belongs to a run of one sender that begins with a message showing the avatar. |
| ChatPage.OneAvatarPerRun | src/pages/ChatPage.tsx:253-254 | A message from the same sender as the previous one shows no avatar. |
| PriceSuggestion.DefaultForm | src/components/Common/PriceSuggestion.tsx:17-24 | The form starts with the current year, 0 cycles and empty text fields. |
| PriceSuggestion.HandleChange | src/components/Common/PriceSuggestion.tsx:26-34 | Year and cycle count are stored as `Number(value)`. Brand, capacity, condition and voltage are stored as typed, and nothing else changes. |
| PriceSuggestion.YearRoundTrip | src/components/Common/PriceSuggestion.tsx:32 | Typing the digits of a year stores that year. |
| PriceSuggestion.StartSuggest | src/components/Common/PriceSuggestion.tsx:36-54 | The old result is cleared. The service is called iff brand, capacity, condition and voltage are filled, with loading on and no error. Otherwise the missing-fields message is shown. |
| PriceSuggestion.FinishSuggest | src/components/Common/PriceSuggestion.tsx:55-62 | Loading ends. A returned suggestion is shown. A thrown error shows its message or the fallback. |
| PriceSuggestion.ServiceReachesPanel | src/components/Common/PriceSuggestion.tsx:36-63 | A service success is shown with no error. A service failure's text is shown with no result. |
| PriceSuggestion.Reset | src/components/Common/PriceSuggestion.tsx:222-233 | "Xóa" restores the default form and clears the result and the error. |
| PriceSuggestion.ResetBlocksSubmit | src/components/Common/PriceSuggestion.tsx:222-233 | A freshly reset form does not call the service. |
| PriceSuggestion.Close | src/components/Common/PriceSuggestion.tsx:86-90 | Closing hides the panel and clears the result and the error, but keeps the form. |
| PriceSuggestion.RangeNeedsBothBounds | src/components/Common/PriceSuggestion.tsx:251-252 | For every result, the price range shows iff it is an object holding both a `minPrice` and a `maxPrice` field, whatever their values. |
| PriceSuggestion.NullBoundsShowRange | src/components/Common/PriceSuggestion.tsx:251-252 | Bounds that are `null` count as present (`!== undefined`) and are read as `null`, wherever the fields sit in the object. |
| PriceSuggestionService.FailureText | src/services/priceSuggestionService.ts:41 | The server's message if truthy, else "Lấy gợi ý giá thất bại". |
| PriceSuggestionService.GetPriceSuggestion | src/services/priceSuggestionService.ts:36-46 | Checks in order: no body, `success` falsy (server message), `data` missing. Succeeds iff all three hold, returning `data`. |
| PriceSuggestionService.EnvelopeRoundTrip | src/services/priceSuggestionService.ts:39-46 | Wrapping truthy data in a success envelope and reading it back gives the data. |
| PriceSuggestionService.ServerMessageKept | src/services/priceSuggestionService.ts:39-42 | A failure envelope's non-empty message is the error. Without one, the fallback is the error. |
| PaymentService.BodyOrEmpty | src/services/paymentService.ts:27 | An undefined or null body becomes `{}`. |
| PaymentService.CreatePaymentUrl | src/services/paymentService.ts:27-38 | The URL is the first truthy candidate among `paymentUrl`, `paymentURL`, `url`, `data.paymentUrl`, `data.url` and a string body. With none, it is the last candidate. `paymentUrl` and the raw body are passed through. |
| PaymentService.UrlFoundIffSomeCandidate | src/services/paymentService.ts:30-36 | A usable URL is returned iff some candidate is truthy. |
| PaymentService.NoLink | src/services/paymentService.ts:30-36 | With no truthy candidate the URL is undefined, except `""` for an empty-string body. |
| PaymentService.BareStringIsLink | src/services/paymentService.ts:30-36 | A non-empty string body is itself the URL. |
| PaymentService.TopFieldWins | src/services/paymentService.ts:30-36 | A top-level `paymentUrl` wins over a nested `data.paymentUrl`. |
| PaymentService.NullBodyIsEmptyObject | src/services/paymentService.ts:27 | A `null` body gives no URL and `{}` as the raw value. |

## Left out

- Browser and network I/O are not modelled: HTTP calls, `localStorage` as a global, `FileReader`, object URLs, toasts, alerts, navigation and redirects. Replies, thrown errors and parse results are parameters.
- Timers (the expiry toast's delay, the order page's redirect delay, the chat's 3-second polling) are events or are not modelled.
- Promise scheduling is not modelled. Each interceptor event is one atomic step, which is how the single-threaded event loop runs the synchronous parts between `await`s.
- `JSON.parse` is a parameter (`OrderPage.CurrentUserId`). JWT payload decoding is not modelled: the post-listing owner id is a given value.
- `createZaloPayUrl`, `updateProfile`, `getUserById`, `getWalletByUser`, `createOrder`, `getProducts` and the chat service are not part of this model. Their results are inputs.
- The chat bot, the proxy configuration and the thin service wrappers (order, product, user, wallet, chat) only forward HTTP calls and are not part of this model.
- AuthService.DeepSearch: the `seen` set is not modelled. Parsed JSON is a tree, so no object is reached twice and the set never skips anything.
- Js.Json: numbers are integers only. Fractional prices, `parseFloat` precision and `Intl` currency formatting are not modelled. The top-up amount is an exact real, given already parsed (`None` for NaN). `parseFloat("Infinity")` passes both top-up checks and is sent as `Infinity` (AccountPage.tsx:325-343); a real cannot hold it, so `AccountPage.CheckTopUp` does not model that input.
- Js.ToNumber: only blank strings and optionally signed decimal digit strings are numbers. JavaScript also reads exponent (`"1e3"`), fraction (`"1.0"`), `0x`/`0o`/`0b` and `Infinity` forms, which give `NaN` here, because a `Num` holds integers and `NaN` only.
- OrderPage.HandleChange: the fee goes through `Js.ToNumber`, so a fee typed as `"1e3"` is `NaN` (and sent as 0) here.
- Js.Json: an object with a duplicated key is read by its first binding; `JSON.parse` keeps the last.
- Text.Lower: case mapping covers ASCII letters only. Vietnamese letters are left as they are.
- Text.Upper: upper-casing covers ASCII letters only, like `Text.Lower`.
- ChatPage.Initials: the initials are upper-cased through `Text.Upper`, so a Vietnamese first letter stays lower-case: the initials of "đức anh" are "ĐA" in JavaScript and "đA" here.
- String lengths count characters, not UTF-16 code units.
- Catalog.ProductOf: a `null` or non-numeric price, year or mileage is read as absent, and so is a non-string `id`, `name`, `brand`, `type`, `location` or `status` (JavaScript would stringify or compare it as it is). JavaScript would coerce `null` to 0 in `>=`/`<=`. A missing year would make `p.year.toString()` throw; the model treats it as a non-match.
- SearchPage.Pipeline: `batteryCapacity` has a filter field and a parameter but no filter stage, as in the source. The `sort` parameter is ignored, as in the source.
- SearchPage.HandleFilterChange: the query string is a map, so repeated parameters of the same name are not modelled.
- SearchPage.Brands: the order of the option list is that of first occurrence. The contract states membership and absence of duplicates, not the order.
- SearchPage.Locations: the same holds for the location option list: membership and absence of duplicates are stated, not the first-occurrence order.
- HomePage.Fetch: the `page`/`pageSize` request arguments go to the service, which is not modelled.
- ChatPage: the current user id is the constant hard-coded in the page. `ChatPage.InitChat` assumes the `productId && sellerId` guard (ChatPage.tsx:75) has passed: with either one empty the page reads and creates nothing, which is not modelled. The product title and the message list rendering are not modelled.
- OrderPage.HandleChange and PriceSuggestion.HandleChange: field names are a closed enumeration. A change event for an unknown name cannot occur.
- The visual state of the pages (loading spinners outside the home page, modals, tabs) is not modelled.

## Findings

| source | as written | input that shows it | evidently intended | confidence | as-written member | corrected member |
|---|---|---|---|---|---|---|
| src/pages/HomePage.tsx:258 | a category card links to `/search?type=<id>`, but the search page reads only `category` (src/pages/SearchPage.tsx:19) | any category card, e.g. "Pin LiFePO4" when some listing has another type | `/search?category=<id>`, showing the listings the card counts | medium, not executed | HomePage.CategoryLinkAsWrittenShowsAll | HomePage.CategoryLinkShowsCounted |
| src/pages/AccountPage.tsx:915-922 | the label compares `listing.status === "pending"`, but a posted listing carries `"Pending"` (src/pages/PostListingPage.tsx:137) | a freshly posted listing whose status the backend stores as sent | "Đang chờ duyệt" for a pending listing, whatever the case | medium (the backend might lower-case statuses), not executed | AccountPage.PostedListingShowsProcessing | AccountPage.PostedListingAwaitsReview |
