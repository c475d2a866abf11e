# Tesco Ireland integration for Home Assistant: a verified model

This project models in Dafny the core of the `tesco_ie` Home Assistant
integration. It has three parts.

- **The home-inventory sensor** (`TescoInventorySensor`) keeps a ledger of
  groceries. Each product key maps to a running total and to the delivery
  batches behind it, oldest first. A delivery receipt appends one batch per
  line. Removal takes units from the oldest batches first (FIFO) and deletes
  the entry once its total reaches zero or less. The ledger is saved to a
  versioned store after every change. When a version-1 document is loaded,
  every entry without batches is given one "migrated" batch.
- **The scraping client** (`TescoAPI`) handles everything that talks to the
  shop:
  - login with exponential backoff after failures
  - read and write rate limits on a monotonic clock
  - extraction of the CSRF token from the login page
  - the account fetch (Clubcard balance, next delivery, basket)
  - product search and add-to-basket
  - the selector sanity check and its exception
  - close
- **The shopping list** (`TescoShoppingList`) holds the user's list. Adding
  an item searches the shop and puts the first product found in the basket.
  Updating changes the first item with a given id. Removing and clearing
  filter the list.

Where the source changes state, the model uses a class with the source's
fields and `modifies` clauses:
- `InventorySensor.TescoInventorySensor`
- `ApiSession.TescoApi`
- `ShoppingList.TescoShoppingList`

Loops in the source are loops in the model:
- receipt ingestion, FIFO consumption and the migration walk
- the delivery scan, product collection and basket collection
- the update walk, which stops at the first match

Each method is proved against a specification function: `ApplyReceipt`,
`Removal`, `Consume`, `LoginStep`, `SearchStep`, `UpdateFirst` and so on. The
properties the source promises are proved as lemmas about those functions.

Modules:
- `common.dfy`: Python value semantics the source relies on:
  - truthiness and `a or b or c` chains
  - slicing past the end
  - `str(n)` and `int(text)`, with their round trip
  - `strip`, `lower`, `join`
- `inventory_model.dfy`: the ledger as values, its operations as functions,
  and the persistence format.
- `inventory_sensor.dfy`: the inventory sensor class.
- `api_extract.dfy`: what the client reads out of pages:
  - the CSRF scan, the Clubcard balance, the delivery info
  - search tiles and basket lines
  - the classification of add-to-basket replies
  - selector validation
- `api_session.dfy`: the client's state and its calls, with the rate limiter,
  the login backoff and the add-to-basket finding.
- `shopping_list.dfy`: the shopping list class.

The network, the HTML parser and the clock are replaced by parameters:
- A reply is given as a transport error, or as a status plus a body that can
  or cannot be read.
- A page is given as what the selectors and patterns found in it.
- Time is an integer millisecond clock that the rate limiter and the backoff
  advance by exactly the time they wait.
- The ledger's timestamps (`now`, `savedAt`, the batch id) are parameters.

`TescoInventorySensor.NativeValue` is the sensor state, `len(inventory)`
(`custom_components/tesco_ie/sensor.py:188`). `TescoShoppingList.Items` is
the list property (`custom_components/tesco_ie/shopping_list.py:40-42`).
Neither has a contract of its own. The contract of
`AddItemsFromReceipt` states the value of `NativeValue` after ingestion.

Search keeps only the first `MAX_SEARCH_RESULTS` tiles
(`product_containers[:MAX_SEARCH_RESULTS]`, `tesco_api.py:596`). The code imports `MAX_SEARCH_RESULTS` from `const.py`
(`custom_components/tesco_ie/tesco_api.py:26`), but `const.py` does not
define it. The model follows the code's slicing and takes the bound as the
parameter `maxResults`.

## Model

| member | source | states |
|---|---|---|
| Common.FirstTruthy | custom_components/tesco_ie/tesco_api.py:599-616 | For an `a or b or c` chain of optional strings: when some element is present and non-empty, the result is the first such element, and every element before it is falsy. When every element is missing or empty the result is None, where Python would return the last (falsy) operand. The only use, the product id at lines 599-616, is followed by `or f"product_{n}"`, which treats `""` and None alike, so the two agree there |
| Common.Take | custom_components/tesco_ie/tesco_api.py:596 | `s[:n]` has length min(n, len(s)) and is a prefix of s |
| Common.IntStringRoundTrip | custom_components/tesco_ie/tesco_api.py:770 | `int(str(i)) == i` for every integer, so a basket quantity printed by the shop is read back exactly |
| Common.Strip | custom_components/tesco_ie/tesco_api.py:120 | `str.strip()` gives a slice `s[a..b]` of its input. Everything before `a` and from `b` on is whitespace, and the result neither starts nor ends with whitespace. So exactly the leading and trailing whitespace is removed |
| InventoryModel.ApplyReceiptAt | custom_components/tesco_ie/sensor.py:212-244 | For one key, after a receipt: the key is present iff it was present before or some line maps to it (line id, else name, else "unknown"). A known entry is restocked with exactly its lines, in receipt order. A new key gets an entry built from its first line and restocked with the rest |
| InventoryModel.ApplyReceiptKeys | custom_components/tesco_ie/sensor.py:212-244 | The keys after a receipt are the old keys plus the receipt's keys, so `native_value` becomes the size of that union |
| InventoryModel.ReceiptAppendsSharedBatches | custom_components/tesco_ie/sensor.py:209-244 | An entry's batch list after a receipt is its old list followed by one batch per line filed under its key, in order; every new batch carries the receipt's batch id, delivery time and order number |
| InventoryModel.QuantityOfBatches | custom_components/tesco_ie/sensor.py:214-242 | The batches built from lines add up to the lines' quantities (a missing quantity counts 1) |
| InventoryModel.ApplyReceiptConsistent | custom_components/tesco_ie/sensor.py:216-244 | Ingestion preserves the ledger invariant: every entry's total equals the sum of its batches |
| InventoryModel.Consume | custom_components/tesco_ie/sensor.py:264-286 | The FIFO walk keeps at most as many batches as it was given. When part of the demand is left unmet, no batch is kept. A non-negative demand leaves a non-negative shortfall. A demand of zero or less keeps every batch unchanged |
| InventoryModel.ConsumeSum | custom_components/tesco_ie/sensor.py:264-289 | The kept batches add up to the old sum, minus the demand, plus the unmet remainder |
| InventoryModel.ConsumeIsFifo | custom_components/tesco_ie/sensor.py:265-286 | For a positive demand, some prefix of batches whose sum stays within the demand is dropped whole. The next batch is reduced by what remains, or kept untouched when nothing remains. Every later batch is kept as it was |
| InventoryModel.ConsumeDropsOldestUnits | custom_components/tesco_ie/sensor.py:250-286 | Viewing batches as a queue of units (batch id, delivery time, order number), consuming r units leaves exactly the queue without its first min(r, length) units |
| InventoryModel.ConsumeKeepsNonNegative | custom_components/tesco_ie/sensor.py:277-286 | Consumption never makes a batch negative |
| InventoryModel.Removal | custom_components/tesco_ie/sensor.py:258-300 | Removal changes only the named key. The key stays iff total minus quantity is positive, with that new total and the FIFO-consumed batches; otherwise it is deleted. The ledger size drops by one exactly on deletion |
| InventoryModel.RemovalConsistent | custom_components/tesco_ie/sensor.py:288-293 | Removing a non-negative quantity preserves the ledger invariant |
| InventoryModel.RemovalNonNegative | custom_components/tesco_ie/sensor.py:265-293 | Removal keeps every batch non-negative |
| InventoryModel.RemovalTakesOldestUnits | custom_components/tesco_ie/sensor.py:249-293 | When an entry survives a removal of q units, its unit queue is the old queue without its q oldest units |
| InventoryModel.SaveLoadRoundTrip | custom_components/tesco_ie/sensor.py:109-183 | Loading the document a save wrote gives back the same ledger, with no migration |
| InventoryModel.CurrentVersionNotMigrated | custom_components/tesco_ie/sensor.py:115-116 | A document at the current version or later is adopted unchanged |
| InventoryModel.LoadMigratesVersionOne | custom_components/tesco_ie/sensor.py:144-169 | Loading a version-1 (or unversioned) document keeps every key, total (missing total = 0), name, unit and timestamp. An entry without batches gets exactly one "migrated" batch holding its total, dated `added` or now, with no order number, so it meets the invariant. An entry with batches is kept |
| InventoryModel.LoadKeepsKeys | custom_components/tesco_ie/sensor.py:124 | Load neither adds nor drops keys |
| InventoryModel.OlderVersionsOnlyRelabelled | custom_components/tesco_ie/sensor.py:146-169 | A document older than version 1 gets the current version label but keeps its entries |
| InventorySensor.TescoInventorySensor.constructor | custom_components/tesco_ie/sensor.py:101 | A new sensor has an empty ledger and has written no document |
| InventorySensor.TescoInventorySensor.LoadInventory | custom_components/tesco_ie/sensor.py:109-130 | A failed read empties the ledger. An empty store leaves it unchanged. A document is upgraded when older, then adopted. Loading writes nothing |
| InventorySensor.TescoInventorySensor.MigrateStorage | custom_components/tesco_ie/sensor.py:132-169 | The migration loop computes `MigratedDocument`: the current version label, `last_saved` kept, and entries changed only from version 1 |
| InventorySensor.TescoInventorySensor.SaveInventory | custom_components/tesco_ie/sensor.py:171-183 | A save appends exactly one document to the store's write history: the current version, the whole ledger and the save time. The ledger is unchanged |
| InventorySensor.TescoInventorySensor.AddItemsFromReceipt | custom_components/tesco_ie/sensor.py:199-247 | The line loop computes `ApplyReceipt`. The keys become old keys plus receipt keys, and `native_value` becomes the size of that union. The invariant is preserved. Exactly one document is written, after the last line, holding the final ledger |
| InventorySensor.TescoInventorySensor.RemoveItem | custom_components/tesco_ie/sensor.py:249-305 | A known product is updated to `Removal` and exactly one document holding the new ledger is written; it is deleted iff total minus quantity is at most 0; a non-negative removal preserves the invariant. An unknown product changes nothing and writes nothing |
| InventorySensor.TescoInventorySensor.ConsumeOldestFirst | custom_components/tesco_ie/sensor.py:259-286 | The batch loop computes `Consume(...).kept`. For a demand between 0 and the stock, the kept batches add up to the stock minus the demand |
| InventorySensor.TescoInventorySensor.WillRemoveFromHass | custom_components/tesco_ie/sensor.py:307-310 | Removing the entity writes the unchanged ledger exactly once more |
| ApiExtract.SearchCsrfLeftmost | custom_components/tesco_ie/tesco_api.py:247-249 | `re.search` finds no token iff the pattern matches at no position; otherwise it returns the capture of the leftmost match |
| ApiExtract.CsrfTokenShape | custom_components/tesco_ie/tesco_api.py:248 | A captured script token is non-empty and has no quote. It sits after the key, right after an opening quote, and ends at a quote or at the end of the text |
| ApiExtract.CsrfAssignmentRecognised | custom_components/tesco_ie/tesco_api.py:246-252 | Text of the form `csrfToken` + optional quote + spaces + `=` or `:` + spaces + quote + t + (quote or end) yields exactly t, in both assignment and property form |
| ApiExtract.CsrfTokenIsFirstCandidate | custom_components/tesco_ie/tesco_api.py:223-255 | The token is the first present, non-empty candidate in this order: meta content, hidden input value, then each script's capture in document order. It is None when there is none |
| ApiExtract.ClubcardPointsSource | custom_components/tesco_ie/tesco_api.py:479-520 | The balance comes from the earliest clubcard element with a matching pattern. Failing that, it comes from the page text. It is 0 when nothing matches |
| ApiExtract.ParseDeliveryInfo | custom_components/tesco_ie/tesco_api.py:522-561 | The element loop computes the first date found, the first slot found and the last order number found |
| ApiExtract.LastSomeIsLast | custom_components/tesco_ie/tesco_api.py:556-559 | An order number found in an element is the one reported when no later element yields one: each match overwrites the previous |
| ApiExtract.CollectProducts | custom_components/tesco_ie/tesco_api.py:596-629 | The tile loop over `containers[:max]` computes `ProductsFrom` |
| ApiExtract.ProductsAreNamedTiles | custom_components/tesco_ie/tesco_api.py:596-625 | There is one product per tile that has a name, in order. The j-th product takes the tile's first non-empty id attribute, else "product_j"; its price text, else "N/A" |
| ApiExtract.SearchResultBound | custom_components/tesco_ie/tesco_api.py:596-617 | A search yields at most `maxResults` products, each with a non-empty id |
| ApiExtract.CollectBasketItems | custom_components/tesco_ie/tesco_api.py:755-778 | The basket loop computes `ItemsFrom` |
| ApiExtract.ItemsFromConcat | custom_components/tesco_ie/tesco_api.py:755-778 | Basket lines are read independently and in order |
| ApiExtract.BadLineDropsOnlyItself | custom_components/tesco_ie/tesco_api.py:756-778 | A line without a name, or whose quantity text is not an integer, is skipped without affecting its neighbours; a named line whose quantity text is `str(q)` yields quantity q |
| ApiExtract.AddReplyClassification | custom_components/tesco_ie/tesco_api.py:683-726 | An add succeeds iff the reply is a readable 200 or 201, and a success carries data. An HTTP failure reports its status and a body prefix of at most 200 characters. Response data is absent iff a transport or read error occurred |
| ApiExtract.AddReplyContents | custom_components/tesco_ie/tesco_api.py:683-726 | Pins each case of the reply classification: a 200/201 reply carries `{}` for an empty body, the decoded JSON, or `raw_response` when the body is not JSON. Any other status gives "Failed with HTTP <status>" with the status and `response_text[:200]`. A transport or decoding error gives "Error: <message>" with no data |
| ApiExtract.BaseMessageStart | custom_components/tesco_ie/tesco_api.py:96-101 | Every known selector message, and the fallback, is non-empty and starts with a non-space character |
| ApiExtract.SelectorValidationOutcome | custom_components/tesco_ie/tesco_api.py:257-290 | Pins each case of the validation: it passes iff something was found, and it raises iff nothing was found and warnings are not enough, with message `<base> Found 0 elements` |
| ApiSession.RateLimitSpacing | custom_components/tesco_ie/tesco_api.py:198-221 | After the limiter, at least the delay has passed since a truthy stamp of the same kind. It waits no longer than needed and never turns the clock back. It stamps its own kind with the new time. The other kind and the rest of the state are untouched |
| ApiSession.BackoffSchedule | custom_components/tesco_ie/tesco_api.py:308-309 | The backoff is 2^n seconds for n up to 8 and 300 seconds from 9 on. It is always between 1 and 300 and never shrinks as failures grow |
| ApiSession.LoginSuccess | custom_components/tesco_ie/tesco_api.py:330-384 | Login succeeds iff the login page is a readable 200, the form reply is a readable 200, 302 or 303, and its lower-cased HTML contains an indicator. On success the client is logged in, the failure count is 0, the password is forgotten, the session is open and the page's CSRF token is kept |
| ApiSession.LoginFailure | custom_components/tesco_ie/tesco_api.py:323-436 | A failed login leaves the logged-in flag and the password unchanged. It counts a failure except when the login page is refused. It closes the session except when a body cannot be read |
| ApiSession.InvalidCredentialsMessage | custom_components/tesco_ie/tesco_api.py:385-401 | A rejected form with no error text on the page fails with "Login failed: Invalid credentials" |
| ApiSession.LoginBackoff | custom_components/tesco_ie/tesco_api.py:307-321 | Unless there are earlier failures and a truthy previous stamp, the attempt is stamped with the clock of the call (no wait). Otherwise it is stamped `max(clock, last + min(2^n, 300) s)`: the login waits exactly until the backoff has passed, and not at all if it already has |
| ApiSession.CloseForgetsLogin | custom_components/tesco_ie/tesco_api.py:789-804 | Close leaves no session, no login and no token. It keeps the failure count and the password. Closing twice is the same as closing once |
| ApiSession.LoggedInCallsDoNotRaise | custom_components/tesco_ie/tesco_api.py:563-787 | Once logged in, search, basket and add-to-basket never raise, and add returns the classification of its reply |
| ApiSession.SearchAndBasketRaiseOnLogin | custom_components/tesco_ie/tesco_api.py:563-566 | As written, a client that is not logged in and whose login fails gets that authentication error raised from search and from the basket read (also lines 728-731). The state is the failed login's. Every later failure gives an empty list instead |
| ApiSession.GetDataDoesNotRetry | custom_components/tesco_ie/tesco_api.py:438-477 | A failed account page raises "Failed to fetch data: …" at once. No login is attempted: the counter and stamp are unchanged and the client stays logged in |
| ApiSession.GetDataLoginFailurePropagates | custom_components/tesco_ie/tesco_api.py:440-441 | When the login the fetch needs fails, the fetch raises that authentication error |
| ApiSession.GetDataRecord | custom_components/tesco_ie/tesco_api.py:445-466 | A full fetch returns the balance, first date, first slot, last order number and basket, whatever the clock. The basket page is read one full read delay after the account page whenever the account read's stamp is truthy |
| ApiSession.GetDataUnavailable | custom_components/tesco_ie/tesco_api.py:467-473 | An account page answering other than 200 gives the reduced record without raising |
| ApiSession.AddToBasketAsWrittenRaisesOnLogin | custom_components/tesco_ie/tesco_api.py:653-654 | As written, a logged-out client whose login page request fails with a client error (a connection failure, say) raises `TescoAuthError("Network error: <reason>")` from add-to-basket, and no basket request is sent |
| ApiSession.AddToBasketReportsAuthErrors | custom_components/tesco_ie/tesco_api.py:713-719 | With the login inside the handler, add-to-basket never raises. A failed login gives success=false with "Authentication error: <message>" and no data; otherwise the behaviour is as written |
| ApiSession.BasketRequestsSent | custom_components/tesco_ie/tesco_api.py:658-675 | Add-to-basket sends exactly one request once its preamble succeeds: `{"productId", "quantity"}` plus `_csrf` exactly when the client's token is truthy. A failed login sends none, and login, search and the basket read never send one |
| ApiSession.SearchValueLoggedIn | custom_components/tesco_ie/tesco_api.py:563-566 | A search that returns leaves the client logged in |
| ApiSession.TescoApi.constructor | custom_components/tesco_ie/tesco_api.py:128-157 | A new client is logged out, has no session, no token, no stamps and no basket request sent, a failure count of 0, and the given delays |
| ApiSession.TescoApi.RateLimit | custom_components/tesco_ie/tesco_api.py:198-221 | The wait-and-stamp computes `RateLimited` |
| ApiSession.TescoApi.Login | custom_components/tesco_ie/tesco_api.py:292-436 | Login computes `LoginStep`: backoff, stamp, page load and CSRF, form post, and the outcome with its counter and session effects |
| ApiSession.TescoApi.PostLoginForm | custom_components/tesco_ie/tesco_api.py:339-436 | The form post and its outcome compute `PostLoginFormStep` |
| ApiSession.TescoApi.Prepare | custom_components/tesco_ie/tesco_api.py:440-443 | The preamble logs in when logged out and opens the session, computing `PrepareStep` |
| ApiSession.TescoApi.SearchProducts | custom_components/tesco_ie/tesco_api.py:563-639 | Search computes `SearchStep` |
| ApiSession.TescoApi.GetBasket | custom_components/tesco_ie/tesco_api.py:728-787 | The basket fetch computes `GetBasketStep` |
| ApiSession.TescoApi.AddToBasket | custom_components/tesco_ie/tesco_api.py:641-726 | Add-to-basket of a product id and quantity computes the corrected `AddToBasketStep`, including the request it sends, and never raises |
| ApiSession.TescoApi.GetData | custom_components/tesco_ie/tesco_api.py:438-477 | The account fetch, including the nested basket call, computes `GetDataStep` |
| ApiSession.TescoApi.Close | custom_components/tesco_ie/tesco_api.py:789-804 | Close computes `CloseStep` |
| ShoppingList.RemovalEffect | custom_components/tesco_ie/shopping_list.py:81-83 | Removal drops exactly the items with that id (items without an id stay). It keeps the rest in order and distributes over concatenation. It is idempotent, and it changes nothing iff no item has the id |
| ShoppingList.ClearingEffect | custom_components/tesco_ie/shopping_list.py:85-87 | Clearing drops exactly the completed items. It keeps the rest in order and distributes over concatenation. It is idempotent, and it changes nothing iff no item is complete |
| ShoppingList.FirstMatch | custom_components/tesco_ie/shopping_list.py:76-77 | The index of the first item whose id equals the given id, or the list length when there is none |
| ShoppingList.UpdateFirstAt | custom_components/tesco_ie/shopping_list.py:74-79 | An update changes exactly the first item with the id, applying the given name, id and complete keys over the old ones. Later items with the same id are untouched, and a list without a match is unchanged |
| ShoppingList.MarkedCompleteIsCleared | custom_components/tesco_ie/shopping_list.py:74-87 | An item that an update marks complete is removed by the next clear; the items around it clear as before |
| ShoppingList.AddedEntryLifecycle | custom_components/tesco_ie/shopping_list.py:51-72 | A newly added entry is open, so clearing keeps it. An entry linked to a product is taken off again by removing that product id, leaving the earlier list filtered as before |
| ShoppingList.TescoShoppingList.constructor | custom_components/tesco_ie/shopping_list.py:33-37 | A new list is empty and uses the given client |
| ShoppingList.TescoShoppingList.AddItem | custom_components/tesco_ie/shopping_list.py:44-72 | If the search raises, the error propagates and the list is unchanged. Otherwise one open entry named as typed is appended: linked to the first product's id, or unlinked when nothing was found. With a product found, exactly one basket request is sent, for that product's id and quantity 1 (with the client's truthy token); with none, no request is sent |
| ShoppingList.TescoShoppingList.UpdateItem | custom_components/tesco_ie/shopping_list.py:74-79 | The loop with `break` computes `UpdateFirst` |
| ShoppingList.TescoShoppingList.RemoveItem | custom_components/tesco_ie/shopping_list.py:81-83 | The list becomes `WithoutId` of the old list |
| ShoppingList.TescoShoppingList.ClearCompleted | custom_components/tesco_ie/shopping_list.py:85-87 | The list becomes `Incomplete` of the old list |

## Left out

- I/O is not modelled: the HTTP session, cookie jar, request headers, the login form and search payloads, the search URL and the request timeout. Each reply is an input. The add-to-basket JSON body is modelled as a record of the requests sent.
- HTML parsing is not modelled: BeautifulSoup and the class-name regular expressions that pick elements.
- Most capture patterns are not modelled: the points, date, slot and order-number patterns. What each one captured is an input. Only the CSRF script pattern is modelled character by character.
- Text handling is ASCII-only: `lower()`, `strip()` and `\s` use ASCII whitespace and letters. `int()` accepts ASCII digits only, not other Unicode digits.
- Time is simplified. Each wait ends exactly when it should, and requests take no time. `datetime.now()` is a parameter, and migration uses a single `now` for all entries.
- Floating-point seconds are not modelled. Delays are whole milliseconds, and the backoff is `BackoffSeconds * 1000`.
- Logging, `async_write_ha_state`, `extra_state_attributes`, the other sensors, `async_setup_entry` and `_ensure_session` are not modelled. `_ensure_session` is reduced to "a session is open".
- Store write failures are not modelled. A save that raises is logged and swallowed by the source, so the model always records the written document.
- InventorySensor.TescoInventorySensor.LoadInventory: requires that every entry of the upgraded document carries a total and a batch list. Entries of a current-version document that lack them fall outside the model's entry type. The source would load them and fail later.
- InventoryModel.Removal: dictionaries are not shared between the ledger and the caller. Aliasing of the stored batch dictionaries is not modelled; in the source the FIFO walk mutates them in place.
- A ledger entry always has a batch list, so the `item.get("deliveries", [])` default in removal (`sensor.py:261`) never applies in the model. Receipt quantities are integers or missing; other Python values are not modelled.
- ShoppingList.TescoShoppingList.UpdateItem: updates are limited to the `name`, `id` and `complete` keys. Other keys and non-boolean `complete` values are not modelled.
- ShoppingList.TescoShoppingList.AddItem: uses the corrected add-to-basket. The search's query text does not appear, because the search reply is an input. The basket result is ignored, as in the source.
- The per-tile `except Exception: continue` in search has no trigger in the model, because a tile is given as already-extracted attributes.
- Search, the basket read and the account fetch also call the login outside their error handling (`tesco_api.py:440-441`, `565-566`, `730-731`), so a failed login raises from them. The code raises here, and it is modelled as written (see `ApiSession.SearchAndBasketRaiseOnLogin`). This defeats the functions' own `except Exception: … return []` handlers (`tesco_api.py:636-638`, `785-787`), which turn every other failure into an empty list. The model follows the code, and it keeps the never-raise promise only for a client that is already logged in (`ApiSession.LoggedInCallsDoNotRaise`).
- The `MAX_SEARCH_RESULTS` constant is undefined in `const.py`, so the bound is the parameter `maxResults`.

## Findings

| source | as written | input that shows it | evidently intended | confidence | as-written member | corrected member |
|---|---|---|---|---|---|---|
| custom_components/tesco_ie/tesco_api.py:653-654 | `async_add_to_basket` calls `async_login` before its `try`, so the `except TescoAuthError` handler at lines 713-719 can never catch a login failure; the error escapes to the caller | a client that is not logged in, whose login page request fails with an `aiohttp.ClientError` such as a connection failure (`ClientConnectionError`): add-to-basket raises `TescoAuthError("Network error: <reason>")` | a failed login is reported as `{"success": False, "message": "Authentication error: …", "response_data": None}`, as the handler and the `BasketOperationResult` return type promise | not executed | ApiSession.AddToBasketAsWrittenStep (lemma ApiSession.AddToBasketAsWrittenRaisesOnLogin) | ApiSession.AddToBasketStep (lemma ApiSession.AddToBasketReportsAuthErrors; used by ApiSession.TescoApi.AddToBasket) |
