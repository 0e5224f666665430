# A verified model of an Egyptian tourism site and its back office

The site sells packages, experiences and trips. A visitor books through a form: the booking is
compared with earlier bookings of the same tuple (email, page, item, date), stored as a
`pending` order in the `users` table, and announced to a webhook. The back office lists and
filters those orders and moves them between `pending`, `confirmed` and `cancelled`. It edits
the catalogue through forms whose list columns are typed as comma-separated text, maintains the
price tiers of trips and experiences, reorders the home page's background images, and shows
aggregate figures. A small Node script, `duplicates.js`, reports translation keys defined twice
in the language blocks of the translations file.

This Dafny project models that logic and proves what it promises. Its parts are:

- The hosted database is a `Store.Table` class whose `rows` the operations reassign. Every
  answer the database or the network gives is a parameter of the operation: a refusal, a query
  failure, the id and timestamp of a new row, or the webhook's HTTP status.
- React components with state become classes whose fields are the component's state:
  `HeroSectionEditor.Editor`, `HeroSection.Carousel`, `OrdersManager.OrdersPage`,
  `PricingTiersEditor.Editor`, `BookingForm.BookingPage`, `SubmitUserData.SubmitHook` and the
  three catalogue `Form` classes. Their handlers become methods whose `ensures` state the whole
  new state.
- Derived values are functions with lemmas about them: filters, counts, sort orders, payloads,
  price extraction and message texts.
- `duplicates.js` is modelled as a program with loops: the two `exec` loops are methods with
  invariants, proved against recursive functions that scan for the regular expressions' leftmost
  matches.

Shared modules:

- `Wrappers` holds `Option` and `Result`.
- `JsText` holds the JavaScript string and number operations the code relies on: `includes`,
  `toLowerCase`, `trim`, `split`, `join`, `Number()` and `toString()`.
- `Seqs` holds `filter`, `map`, `findIndex` and `Math.max`.
- `Sorting` holds a stable sort by an integer key. It models both the database's `order(...)`
  and `Array.prototype.sort`, which section 22.1.3.27 of ECMA-262, 10th edition (2019), requires to be stable.
- `Store` holds the table.
- `Orders` holds the booking and order records.
- `CatalogForm` and `BookingForm` hold what the three catalogue forms and the three booking pages
  have in common.

## Model

| member | source | states |
|---|---|---|
| Duplicates.KeyMatchAtSound | duplicates.js:20 | what the key pattern matches at a position is a quote, one or more non-quote characters, a quote and a colon |
| Duplicates.KeyMatchAtComplete | duplicates.js:20 | every text of that shape is matched at its start, with exactly those bounds (`[^']+` can only stop at the next quote) |
| Duplicates.KeyExecIsLeftmost | duplicates.js:20-22 | `exec` from `lastIndex` returns the leftmost match at or after it, and returns nothing only when no position matches |
| Duplicates.KeysAreQuoteFree | duplicates.js:20-23 | every key captured by group 1 is non-empty and holds no quote |
| Duplicates.ExtractKeys | duplicates.js:19-24 | the `exec` loop pushes exactly the keys of the successive matches, left to right, each search resuming after the previous match |
| Duplicates.LangMatchAtSound | duplicates.js:10 | what the language pattern matches is a `\w+` name, a colon, optional white space, `{`, one or more characters other than `}`, and `}` |
| Duplicates.LangMatchAtComplete | duplicates.js:10 | every text of that shape is matched at its start with exactly those bounds, since the greedy runs leave no other split |
| Duplicates.LangExecIsLeftmost | duplicates.js:10-12 | `exec` returns the leftmost language match at or after `lastIndex`, and nothing only when there is none |
| Duplicates.Lookup | duplicates.js:15 | reading `langBlocks[lang]` gives nothing exactly when no entry is named `lang` |
| Duplicates.Assign | duplicates.js:15 | `langBlocks[lang] = body` keeps every stored name in its place and appends a name not stored yet, with its body, last |
| Duplicates.AssignLookup | duplicates.js:15 | after `langBlocks[lang] = body`, `lang` reads `body` and every other name reads what it read before |
| Duplicates.AssignKeepsNamesDistinct | duplicates.js:15 | an assignment never stores a name twice: a known name is overwritten in place, a new one is appended |
| Duplicates.LastBlockWins | duplicates.js:12-16 | after all the assignments each language reads the body of its last block, and a language never matched reads what it read before |
| Duplicates.FileBlocksHoldLastBodies | duplicates.js:9-16 | the object built from the file holds each language once, with the body of its last block |
| Duplicates.ExtractBlocks | duplicates.js:9-16 | the `exec` loop builds exactly the object of assigning every (name, body) match of the file in order |
| Duplicates.IndexOf | duplicates.js:25 | `indexOf` is -1 exactly when the key is absent, and otherwise the first index holding it |
| Duplicates.RepeatIsSeenBefore | duplicates.js:25 | the filter condition `indexOf(key) !== idx` holds exactly when the key also occurs before `idx` |
| Duplicates.DuplicateCounts | duplicates.js:25 | the filtered list holds each key once for every occurrence after its first |
| Duplicates.ReportedKeys | duplicates.js:25-28 | a key is printed exactly when it occurs at least twice, no key is printed twice, and the filtered list holds each key one time fewer than it occurs |
| Duplicates.SetOrderMembers | duplicates.js:28 | `[...new Set(xs)]` holds exactly the values of `xs`, each once |
| Duplicates.ReportedIsSecondOccurrences | duplicates.js:25-28 | the keys are printed in the order in which each is seen for the second time, the order an independent definition gives directly |
| Duplicates.NoDuplicatesPrintsNothing | duplicates.js:25-26 | a block whose keys are all different has an empty filtered list, so nothing is printed for it |
| Duplicates.ReportIsExact | duplicates.js:18-29 | a language is reported exactly when its block has a repeated key, and then with its printed keys |
| Duplicates.Report | duplicates.js:18-29 | the report has at most one finding per language block |
| Duplicates.ReportMember | duplicates.js:26-28 | each reported language comes from a block of the object that has a repeated key |
| Duplicates.ReportHas | duplicates.js:26-28 | each block with a repeated key has its finding in the report |
| Duplicates.ReportedKeysNotEmpty | duplicates.js:26-28 | a reported language always has at least one printed key |
| Duplicates.FindDuplicates | duplicates.js:9-30 | the whole run reports, in the object's order, exactly the finding of each language block with a repeated key |
| Duplicates.KeyExec | duplicates.js:20-22 | a key match found from `lastIndex` starts at or after it and is the match at that position |
| Duplicates.LangExec | duplicates.js:10-12 | a language match found from `lastIndex` starts at or after it and is the match at that position |
| Duplicates.AssignAllKeepsNamesDistinct | duplicates.js:12-16 | however many blocks are assigned, the object never holds a language name twice |
| Duplicates.DuplicatesLast | duplicates.js:25 | the filter keeps a key exactly when it occurred earlier in the block |
| Duplicates.ReportedInSecondOccurrenceOrder | duplicates.js:25-28 | the Set built from the filtered list holds the repeated keys in the order of their second occurrence |
| SubmitUserData.CheckDuplicateRequest | src/hooks/useSubmitUserData.ts:29-48 | a failed query reports no duplicate; otherwise a duplicate is reported exactly when a stored order has the same email, source page, source id and date, together with the id, creation time and status of such an order |
| SubmitUserData.StatusText | src/hooks/useSubmitUserData.ts:67-69 | the label is the "unknown" one exactly when the status is none of "pending", "approved" and "rejected" |
| SubmitUserData.StatusTextDistinguishes | src/hooks/useSubmitUserData.ts:67-69 | "pending", "approved" and "rejected" get three different labels |
| SubmitUserData.DuplicateMessageQuotes | src/hooks/useSubmitUserData.ts:71-73 | the duplicate message quotes the booking date and the status label, and it is Arabic text |
| SubmitUserData.ErrorMessageFor | src/hooks/useSubmitUserData.ts:146-166 | every message the `catch` block produces contains Arabic text, and a thrown message that already contains Arabic is shown unchanged |
| SubmitUserData.ErrorMessageIdempotent | src/hooks/useSubmitUserData.ts:150-151 | normalising an already normalised message changes nothing |
| SubmitUserData.KeywordPrecedence | src/hooks/useSubmitUserData.ts:152-163 | a message without Arabic is never shown as it is; "network" and "connection" win over "timeout", which wins over "permission" and "access", which give the permission message; a message with none of these words is shown as the generic prefix followed by the message |
| SubmitUserData.ThrownMessagesKept | src/hooks/useSubmitUserData.ts:71-111 | the duplicate, conflict and database-error messages thrown before the webhook reach the user unchanged |
| SubmitUserData.WebhookFailureKept | src/hooks/useSubmitUserData.ts:130-133 | a webhook error status is reported with its own message, quoting the status and its text |
| SubmitUserData.WebhookError | src/hooks/useSubmitUserData.ts:118-133 | the webhook step throws nothing exactly when `fetch` answered with a 2xx status |
| SubmitUserData.PendingRow | src/hooks/useSubmitUserData.ts:77-83 | the inserted row carries the submitted fields with the status forced to "pending", the new id and the insert time |
| SubmitUserData.PostWebhook | src/hooks/useSubmitUserData.ts:118-133 | a thrown `fetch` is rethrown, and an answer outside 2xx becomes the status error |
| SubmitUserData.Attempt | src/hooks/useSubmitUserData.ts:54-141 | the `try` block throws what the pre-check, the insert with its conflict fallback and the webhook decide; the row is stored exactly when there is no duplicate and the insert is accepted; the webhook is posted exactly then, with the new id |
| SubmitUserData.SubmitHook.SubmitData | src/hooks/useSubmitUserData.ts:50-178 | the hook's result is the outcome of the attempt, `isLoading` is false afterwards, and the rows and the webhook body are those of the attempt |
| SubmitUserData.DuplicateOutcome | src/hooks/useSubmitUserData.ts:56-74 | a duplicate found by the pre-check is reported as a failure carrying the detailed duplicate message |
| SubmitUserData.RefusalOutcome | src/hooks/useSubmitUserData.ts:85-112 | a refused insert is reported as a failure carrying the conflict message or the database-error message |
| SubmitUserData.WebhookFailureOutcome | src/hooks/useSubmitUserData.ts:130-133 | a stored booking whose webhook answers outside 2xx is still reported as a failure |
| SubmitUserData.SubmitOutcome | src/hooks/useSubmitUserData.ts:135-174 | success needs an accepted insert and a 2xx webhook answer and carries the stored row; every failure carries an Arabic message and no data |
| SubmitUserData.SecondSubmissionIsDuplicate | src/hooks/useSubmitUserData.ts:29-74 | once a booking is stored, a second submission of the same tuple is a duplicate (when its query succeeds); if it was the first such row, the message quotes the date and the "pending" label |
| SubmitUserData.SubmitHook.constructor | src/hooks/useSubmitUserData.ts:25-26 | the hook starts not loading and without a result |
| SubmitUserData.ConstantsAreArabic | src/hooks/useSubmitUserData.ts:146-166 | every fixed message the hook can show contains Arabic text |
| SubmitUserData.WebhookFailureIsArabic | src/hooks/useSubmitUserData.ts:130-133 | the webhook failure message contains Arabic text, whatever status it quotes |
| PricingTiers.CoerceTrip | src/hooks/usePricingTiers.ts:34-37 | absent, `null` and `""` become `null`, a number is kept as it is, any other text goes through `Number()` |
| PricingTiers.TripColumn | src/hooks/usePricingTiers.ts:40 | the JSON body carries a coerced trip id as that integer, and `NaN` or no id as `null` |
| PricingTiers.CoerceTripText | src/hooks/usePricingTiers.ts:34-37 | a trip id given as its decimal text is read as that number |
| PricingTiers.QueryFor | src/hooks/usePricingTiers.ts:18-22 | the query carries the trip filter exactly for a present, non-null, non-empty trip id (as a number), and the experience filter exactly for a truthy experience id |
| PricingTiers.QueryFn | src/hooks/usePricingTiers.ts:12-27 | `queryFn` rethrows the store's error, and otherwise returns the rows the query selects in its order |
| PricingTiers.Execute | src/hooks/usePricingTiers.ts:13-26 | the query returns the stored rows that satisfy its `eq` filters, each as often as it is stored |
| PricingTiers.ExecuteContents | src/hooks/usePricingTiers.ts:13-26 | every returned row is a stored row satisfying the filters, and every stored row satisfying them is returned |
| PricingTiers.ExecuteOrdered | src/hooks/usePricingTiers.ts:16 | the rows come in ascending `sort_order`, and rows without one come after all the others |
| PricingTiers.EnabledQueryFilters | src/hooks/usePricingTiers.ts:18-28 | a query that is enabled always carries at least one `eq` filter |
| PricingTiers.CreatedTierIsListed | src/hooks/usePricingTiers.ts:33-45 | a tier created for a trip matches that trip's query exactly when the trip id is a number, and one created only for an experience is returned by that experience's query |
| PricingTiers.NaNTripIsLost | src/hooks/usePricingTiers.ts:18-20 | a trip text that `Number()` reads as `NaN` is stored as `null`, and the query for that text returns no row |
| PricingTiers.CreatePricingTier | src/hooks/usePricingTiers.ts:33-45 | a refusal is rethrown and stores nothing; otherwise exactly the shaped row is appended and returned |
| PricingTiers.PatchOtherFields | src/hooks/usePricingTiers.ts:54 | every field given by the partial payload replaces the stored value, an absent field keeps it, and the experience and currency never change |
| PricingTiers.UpdateAsWritten | src/hooks/usePricingTiers.ts:54 | as written, the update always overwrites the trip column with the coerced `trip_id` of the payload, and patches the other fields as given |
| PricingTiers.UpdateIntended | src/hooks/usePricingTiers.ts:54 | as intended, the update keeps the stored trip when the payload has no `trip_id` and writes the coerced one otherwise, and patches the other fields as given |
| PricingTiers.EditDetachesTripAsWritten | src/hooks/usePricingTiers.ts:54 | as written, an edit without `trip_id` writes `null` into the trip column, so a trip's tier leaves its trip's query |
| PricingTiers.EditKeepsTarget | src/hooks/usePricingTiers.ts:47-60 | with the intended update an edit without `trip_id` keeps the tier in every query that listed it, and changes only the fields given |
| PricingTiers.GivenTripIsWritten | src/hooks/usePricingTiers.ts:54 | when the payload does give a trip id, both versions write the coerced id |
| PricingTiers.UpdatePricingTier | src/hooks/usePricingTiers.ts:47-60 | a refusal is rethrown and changes nothing; otherwise every row with that id gets the (intended) patch and all other rows stay as they were |
| PricingTiers.DeletePricingTier | src/hooks/usePricingTiers.ts:62-66 | a refusal is rethrown and changes nothing; otherwise the rows with that id are removed and `true` is returned |
| PricingTiersEditor.NextSortOrder | src/components/dashboard/sections/PricingTiersEditor.tsx:39-42 | 1 for no tiers; otherwise above every tier's `sort_order` (missing ones read as 0) and one more than one of them |
| PricingTiersEditor.NewTierPayload | src/components/dashboard/sections/PricingTiersEditor.tsx:48-63 | the new tier is in USD, has the draft's people count and price, the draft's sort order or the proposed one, the coerced trip id and the experience id only when it is non-empty |
| PricingTiersEditor.ProposedSortOrderIsLast | src/components/dashboard/sections/PricingTiersEditor.tsx:39-42 | a tier created with the proposed sort order sorts after every tier already listed |
| PricingTiersEditor.TargetMeansPayloadTarget | src/components/dashboard/sections/PricingTiersEditor.tsx:33-55 | `hasTarget` holds exactly when the payload has a trip or an experience to attach the tier to |
| PricingTiersEditor.EditPayload | src/components/dashboard/sections/PricingTiersEditor.tsx:82-86 | the edit sends people count, price and sort order and never a trip id |
| PricingTiersEditor.RemoveErrorMessage | src/components/dashboard/sections/PricingTiersEditor.tsx:102 | the error's own message when it has one, otherwise "Failed to delete" |
| PricingTiersEditor.Editor.constructor | src/components/dashboard/sections/PricingTiersEditor.tsx:24-30 | the editor starts with no tiers, no draft, nothing being edited and no error |
| PricingTiersEditor.Editor.Refetch | src/components/dashboard/sections/PricingTiersEditor.tsx:24 | the tiers become what the editor's query returns from the stored rows; a failed query keeps the tiers already loaded; nothing else changes |
| PricingTiersEditor.Editor.StartAdding | src/components/dashboard/sections/PricingTiersEditor.tsx:194 | the "add row" button opens an empty draft proposing the next sort order |
| PricingTiersEditor.Editor.HandleAdd | src/components/dashboard/sections/PricingTiersEditor.tsx:44-71 | an incomplete draft or a missing target stores nothing; a refusal is rethrown and keeps the draft; otherwise the shaped tier is stored (a `NaN` trip as `null`), the draft is closed, the error is cleared and the tiers are fetched again, or kept when that fetch fails |
| PricingTiersEditor.Editor.StartEdit | src/components/dashboard/sections/PricingTiersEditor.tsx:73-76 | editing a row opens that row's id with its people count, price and sort order |
| PricingTiersEditor.Editor.SaveEdit | src/components/dashboard/sections/PricingTiersEditor.tsx:78-94 | nothing happens unless `editingId` is truthy; a refusal is rethrown and keeps the edit open; otherwise the edited tier gets the patch, keeps its trip, the edit is closed and the tiers are fetched again, or kept when that fetch fails |
| PricingTiersEditor.Editor.CloseEdit | src/components/dashboard/sections/PricingTiersEditor.tsx:87-90 | after a saved edit the edit row is closed, the error is cleared and the tiers are fetched again, or kept when that fetch fails |
| PricingTiersEditor.Editor.Remove | src/components/dashboard/sections/PricingTiersEditor.tsx:96-104 | a refusal shows its message and changes nothing else; otherwise the tier is deleted, the error is cleared and the tiers are fetched again, or kept when that fetch fails |
| HeroSectionEditor.Ordered | src/pages/dashboard/HeroSectionEditor.tsx:26-34 | a successful fetch returns every stored image, each as often as it is stored |
| HeroSectionEditor.OrderedIsSorted | src/pages/dashboard/HeroSectionEditor.tsx:30 | the fetched list is in ascending `order_index` |
| HeroSectionEditor.NextOrderIndex | src/pages/dashboard/HeroSectionEditor.tsx:38 | a new image's `order_index` is 1 for an empty list, and otherwise one more than the largest shown, so above every shown image |
| HeroSectionEditor.SwapKeepsImages | src/pages/dashboard/HeroSectionEditor.tsx:64-66 | a move exchanges the `order_index` of the two images and changes nothing else: ids, urls, alts, places and the other images stay |
| HeroSectionEditor.SwapPermutesIndices | src/pages/dashboard/HeroSectionEditor.tsx:64-66 | after a move the list holds the same `order_index` values as before, as a multiset |
| HeroSectionEditor.SwapTwiceRestores | src/pages/dashboard/HeroSectionEditor.tsx:59-73 | moving an image and then moving it back restores the list |
| HeroSectionEditor.Editor.constructor | src/pages/dashboard/HeroSectionEditor.tsx:17-20 | the editor starts with no images, loading, and empty new-image inputs |
| HeroSectionEditor.Editor.FetchImages | src/pages/dashboard/HeroSectionEditor.tsx:26-34 | on success the list becomes the stored images in order, on error it is kept; loading ends either way |
| HeroSectionEditor.Editor.AddImage | src/pages/dashboard/HeroSectionEditor.tsx:36-47 | an empty URL changes nothing; otherwise the image is inserted with an empty alt as `null` and the next `order_index` (unless the store refuses), the inputs are cleared and the list is fetched again |
| HeroSectionEditor.Editor.UpdateImage | src/pages/dashboard/HeroSectionEditor.tsx:49-52 | the row with that id gets the given url, alt and `order_index` unless the store refuses, then the list is fetched again |
| HeroSectionEditor.Editor.DeleteImage | src/pages/dashboard/HeroSectionEditor.tsx:54-57 | the row with that id is deleted unless the store refuses, then the list is fetched again |
| HeroSectionEditor.Editor.MoveImage | src/pages/dashboard/HeroSectionEditor.tsx:59-73 | the first image cannot move up and the last cannot move down; otherwise the two `order_index` values are exchanged in the list, each of the two rows is updated unless its update is refused, and a failed refetch leaves the exchanged list |
| HeroSectionEditor.Editor.EditUrl | src/pages/dashboard/HeroSectionEditor.tsx:89-92 | typing a URL changes the URL of the images with that id in the local list only |
| HeroSectionEditor.Editor.EditAlt | src/pages/dashboard/HeroSectionEditor.tsx:99-102 | typing an alt text changes the alt of the images with that id in the local list only |
| HeroSectionEditor.LocalEditsTouchOneImage | src/pages/dashboard/HeroSectionEditor.tsx:89-102 | a local edit changes only the edited field of the images with that id; every other image and field is kept |
| HeroSectionEditor.AddedImageSortsLast | src/pages/dashboard/HeroSectionEditor.tsx:36-47 | an image whose `order_index` is above all stored ones is listed last after the refetch, after the earlier images in their order |
| HeroSection.Urls | src/components/home/HeroSection.tsx:23-29 | the carousel's list is the URL of every image in `order_index` order |
| HeroSection.Next | src/components/home/HeroSection.tsx:38 | a tick moves to the next image, and from the last image back to the first |
| HeroSection.TicksCompose | src/components/home/HeroSection.tsx:35-42 | `a` ticks followed by `b` ticks are `a + b` ticks |
| HeroSection.TicksAdvance | src/components/home/HeroSection.tsx:38 | before the end of the list `k` ticks move `k` images on |
| HeroSection.TicksWrapToFirst | src/components/home/HeroSection.tsx:38 | from any image the first image comes back once the rest have been shown |
| HeroSection.FullCycleReturns | src/components/home/HeroSection.tsx:35-42 | after as many ticks as there are images the same image is shown again |
| HeroSection.EveryImageShown | src/components/home/HeroSection.tsx:35-42 | every image is shown within one cycle, from whatever image the carousel starts |
| HeroSection.Carousel.constructor | src/components/home/HeroSection.tsx:15-17 | the carousel starts with no images, the first index and loading |
| HeroSection.Carousel.Fetch | src/components/home/HeroSection.tsx:19-33 | on success the list becomes the URLs in order, on error it is kept; loading ends |
| HeroSection.Carousel.Tick | src/components/home/HeroSection.tsx:35-42 | with images a tick moves to the next index and the shown index stays a valid one |
| HeroSection.Carousel.Click | src/components/home/HeroSection.tsx:212 | a click on an indicator shows that image |
| OrdersManager.FetchOrders | src/components/dashboard/sections/OrdersManager.tsx:58-75 | every stored order is loaded, each as often as it is stored; a failed query gives an empty list |
| OrdersManager.FetchOrdersNewestFirst | src/components/dashboard/sections/OrdersManager.tsx:63 | the loaded orders are in descending `created_at` |
| OrdersManager.LocalUpdateMatchesReload | src/components/dashboard/sections/OrdersManager.tsx:133-135 | changing a status in the loaded list gives the list a fresh load of the updated store would give, so no order moves |
| OrdersManager.MatchesSearch | src/components/dashboard/sections/OrdersManager.tsx:109-113 | the search box matches on name, email, booked item or price digits, and an empty box matches every order |
| OrdersManager.FilteredOrders | src/components/dashboard/sections/OrdersManager.tsx:108-119 | the list shows exactly the loaded orders that match the search and both filters |
| OrdersManager.FilteredKeepsOrder | src/components/dashboard/sections/OrdersManager.tsx:108 | the filtered orders keep the newest-first order |
| OrdersManager.NoFilterShowsAll | src/components/dashboard/sections/OrdersManager.tsx:83-85 | with an empty search and both filters on "all", every loaded order is shown |
| OrdersManager.SearchIgnoresCase | src/components/dashboard/sections/OrdersManager.tsx:109-113 | a search term and its lower case find the same orders |
| OrdersManager.TabCount | src/components/dashboard/sections/OrdersManager.tsx:253-262 | the "all" tab counts every loaded order, and no tab counts more |
| OrdersManager.TabList | src/components/dashboard/sections/OrdersManager.tsx:362-580 | a tab lists filtered orders with its status only |
| OrdersManager.TabCountBoundsList | src/components/dashboard/sections/OrdersManager.tsx:253-262 | a tab never lists more rows than its label counts, even with a search or filter |
| OrdersManager.UnfilteredTabsMatchCounts | src/components/dashboard/sections/OrdersManager.tsx:253-262 | without search or filters each label counts exactly the rows its tab lists |
| OrdersManager.Offered | src/components/dashboard/sections/OrdersManager.tsx:319-334 | "restore" is offered only in the cancelled tab, "confirm" only for a pending order or in the pending tab, "cancel" never in the cancelled tab; in the "all" tab and the dialog no button rewrites the order's current status |
| OrdersManager.ButtonsChangeStatus | src/components/dashboard/sections/OrdersManager.tsx:319-334 | every status button shown next to an order or in its dialog writes a different status; only pending orders are confirmed and only cancelled ones restored |
| OrdersManager.CancelAlwaysReachable | src/components/dashboard/sections/OrdersManager.tsx:319-334 | every order that is not cancelled can be cancelled from the list and from the dialog, and the list offers "confirm" exactly for pending orders |
| OrdersManager.StatusNotice | src/components/dashboard/sections/OrdersManager.tsx:137-143 | "pending", "confirmed" and "cancelled" each get a non-empty message, and every other status gets none |
| OrdersManager.OrdersPage.constructor | src/components/dashboard/sections/OrdersManager.tsx:78-86 | the page starts empty and loading, with no error, no selection, an empty search and both filters on "all" |
| OrdersManager.OrdersPage.LoadOrders | src/components/dashboard/sections/OrdersManager.tsx:89-105 | the list becomes what `fetchOrders` returns, loading ends and the error stays unset |
| OrdersManager.OrdersPage.UpdateOrderStatus | src/components/dashboard/sections/OrdersManager.tsx:122-148 | a refused update changes nothing and reports the failure message; an accepted one changes the status in the store and in the list and reports the status message |
| OrdersManager.OrdersPage.ViewOrderDetails | src/components/dashboard/sections/OrdersManager.tsx:151-154 | the order is selected and the dialog opens |
| OrdersManager.OrdersPage.DialogAction | src/components/dashboard/sections/OrdersManager.tsx:680-701 | a dialog button updates the selected order's status as the list does and closes the dialog |
| OrdersManager.StatusUpdateChangesOnlyStatus | src/components/dashboard/sections/OrdersManager.tsx:133-135 | a status update changes only the status of the orders with that id; everything they were submitted with stays |
| Analytics.ApprovedRevenue | src/pages/dashboard/Analytics.tsx:18 | the one-pass revenue equals the source's sum over the approved orders first filtered out, a missing price counting as 0 |
| Analytics.ApprovedRevenueAppend | src/pages/dashboard/Analytics.tsx:18 | the revenue of two lists of orders is the sum of their revenues |
| Analytics.OnlyApprovedEarn | src/pages/dashboard/Analytics.tsx:18 | an order whose status is not "approved" adds nothing to the revenue, wherever it stands |
| Analytics.RevenueBounds | src/pages/dashboard/Analytics.tsx:18 | with non-negative prices the revenue is not negative and at least the price of any approved order |
| Analytics.TotalRevenue | src/pages/dashboard/Analytics.tsx:17-18 | a query without data gives revenue 0; otherwise the revenue is the sum over the approved orders |
| Analytics.TypeStats | src/pages/dashboard/Analytics.tsx:20-24 | one count per booking type "package", "experience", "trip", in that order, each the number of orders of that type, 0 without data |
| Analytics.StatusStats | src/pages/dashboard/Analytics.tsx:26-30 | one count per status "pending", "approved", "rejected", in that order, each the number of orders with that status, 0 without data |
| Analytics.TotalOfThree | src/pages/dashboard/Analytics.tsx:21-30 | the total of a three-entry list of counts is the sum of its entries |
| Analytics.DisjointCountsBounded | src/pages/dashboard/Analytics.tsx:21-30 | counts under three mutually exclusive conditions add up to at most the number of orders |
| Analytics.StatsBounded | src/pages/dashboard/Analytics.tsx:20-30 | the type counts, and likewise the status counts, add up to at most the number of orders |
| Analytics.UnlistedStatusNotCounted | src/pages/dashboard/Analytics.tsx:27 | an order with a status outside the list, such as "confirmed" or "cancelled", changes no status count |
| Analytics.FetchAnalytics | src/pages/dashboard/Analytics.tsx:13-32 | the four figures: the exact number of orders or none, the approved revenue, the type counts and the status counts, each 0 or absent when its own query returns no data |
| Analytics.MissingDataIsZero | src/pages/dashboard/Analytics.tsx:18-30 | when every query returns no data, the revenue and every count are 0 |
| BookingForm.Change | src/pages/PackageDetails.tsx:43-45 | a change writes the input's text into the field it names and leaves every other field as it was |
| BookingForm.Record | src/pages/PackageDetails.tsx:56-63 | the booking record carries the form's fields, the item's page, id and name, the number of people read with `Number()` and the price |
| BookingForm.FirstDigitRun | src/pages/PackageDetails.tsx:53 | the match of `/\d+/` is the leftmost run of digits, as long as it goes; there is none exactly when the text has no digit |
| BookingForm.ExtractPrice | src/pages/PackageDetails.tsx:52-54 | a price text without a digit gives 0; otherwise the price is the value of its first run of digits |
| BookingForm.PriceOfPoundsText | src/pages/PackageDetails.tsx:51-54 | the price text "500 ج.م" gives 500 |
| BookingForm.LeadingDigitsArePrice | src/pages/PackageDetails.tsx:52-54 | a price text that starts with digits gives their value whatever follows them |
| BookingForm.FindByRoute | src/pages/PackageDetails.tsx:26 | the item found is the first whose id equals the route id as text; none is found exactly when no id matches |
| BookingForm.BookingPage.constructor | src/pages/PackageDetails.tsx:17-24 | the booking form starts empty with one person, and not yet successful |
| BookingForm.BookingPage.HandleChange | src/pages/PackageDetails.tsx:43-45 | a change updates the form as `Change` says and nothing else |
| BookingForm.BookingPage.Submit | src/pages/PackageDetails.tsx:65-79 | the record goes through `submitData`; a successful booking sets `success` and empties the form, a failed one leaves both as they were |
| PackageDetails.FindPackage | src/pages/PackageDetails.tsx:26 | the package shown is the first whose id matches the route, and none exactly when no id matches |
| PackageDetails.PackageBooking | src/pages/PackageDetails.tsx:52-63 | a package booking is of page "package" with the package's id and title, priced from the first number in the package's price text |
| PackageDetails.BookingFromInitialForm | src/pages/PackageDetails.tsx:17-24 | a booking from the initial form is for one person, and a package priced "500 ج.م" is booked at 500 |
| PackageDetails.HandleSubmit | src/pages/PackageDetails.tsx:46-80 | submitting books the package as `PackageBooking` says, stores it as `submitData` does and resets the form only on success |
| ExperiencesDetails.FindExperience | src/pages/ExperiencesDetails.tsx:29 | the experience shown is the first whose id matches the route, and none exactly when no id matches |
| ExperiencesDetails.ExperienceBooking | src/pages/ExperiencesDetails.tsx:55-67 | an experience booking is of page "experience" with the experience's id and title, priced from the first number in its price text |
| ExperiencesDetails.HandleSubmit | src/pages/ExperiencesDetails.tsx:50-84 | submitting books the experience as `ExperienceBooking` says, stores it as `submitData` does and resets the form only on success |
| DestinationTrip.ListOr | src/pages/DestinationTrip.tsx:107 | a present, non-empty list is shown as it is; a missing or empty one is replaced by the default |
| DestinationTrip.TextOr | src/pages/DestinationTrip.tsx:125 | a present, non-empty text is shown as it is; a missing or empty one is replaced by the default |
| DestinationTrip.ShownDetails | src/pages/DestinationTrip.tsx:102-141 | inclusions, exclusions, meeting point, things to remember and cancellation policy each fall back to their own default |
| DestinationTrip.NoSectionIsEmpty | src/pages/DestinationTrip.tsx:11-36 | every section of the trip page has something to show, whatever the trip leaves out |
| DestinationTrip.FetchTrip | src/hooks/useTrip.ts:21-39 | no trip without a route id; otherwise the trip is the one row with that id, and there is none unless exactly one row matches |
| DestinationTrip.TripBooking | src/pages/DestinationTrip.tsx:68-76 | a trip booking is of page "trip" with the trip's id and name, and the trip's price as it is |
| DestinationTrip.HandleSubmit | src/pages/DestinationTrip.tsx:65-82 | submitting books the trip as `TripBooking` says, stores it as `submitData` does and resets the form only on success |
| Destinations.FilteredDestinations | src/pages/Destinations.tsx:37-43 | the page lists exactly the loaded destinations that match the search and both selects |
| Destinations.FilteredKeepsOrder | src/pages/Destinations.tsx:37 | the listed destinations keep the order they were loaded in |
| Destinations.DefaultsShowAll | src/pages/Destinations.tsx:14-16 | with the initial empty search and both selects on "all", every destination is listed |
| Destinations.SearchIgnoresCase | src/pages/Destinations.tsx:38-39 | a search term and its lower case find the same destinations |
| Destinations.RegionIsExact | src/pages/Destinations.tsx:40 | a region other than "all" lists only destinations of exactly that region |
| Destinations.ActivityIsListed | src/pages/Destinations.tsx:41 | an activity other than "all" lists only destinations that list that activity |
| Destinations.SelectsOnlyNarrow | src/pages/Destinations.tsx:37-43 | choosing a region or an activity never lists more destinations than "all" does |
| PriceTable.Rows | src/components/pricing/PriceTable.tsx:13-15 | nothing is shown without tiers; otherwise every tier is shown once, on a copy of the list |
| PriceTable.RowsSorted | src/components/pricing/PriceTable.tsx:15 | the rows are in non-decreasing `sort_order`, a missing one counted as 0 |
| PriceTable.RowsStable | src/components/pricing/PriceTable.tsx:15 | tiers with the same sort order keep the order they came in |
| PriceTable.OrderedTiersUnchanged | src/components/pricing/PriceTable.tsx:15 | tiers that are already in order are shown as they came |
| CatalogForm.TextOrEmpty | src/components/dashboard/sections/PackageForm.tsx:17-23 | a text column starts as its value, or as the empty text when it is missing |
| CatalogForm.JoinedField | src/components/dashboard/sections/PackageForm.tsx:24 | a list column starts as its items joined with ", ", a one-item list as that item, a missing list as the empty text |
| CatalogForm.SavedList | src/components/dashboard/sections/PackageForm.tsx:38 | a saved list has at least one item, and every item is trimmed and holds no comma |
| CatalogForm.TrimmedIsPart | src/components/dashboard/sections/PackageForm.tsx:38 | trimming an item never brings in a character it did not have |
| CatalogForm.EmptyFieldSavesOneEmptyItem | src/components/dashboard/sections/PackageForm.tsx:38 | an empty list field is saved as a list of one empty item, not as an empty list |
| CatalogForm.EmptyListBecomesOneEmptyItem | src/components/dashboard/sections/PackageForm.tsx:24-38 | an empty list does not survive an unedited save |
| CatalogForm.SpaceAfterComma | src/components/dashboard/sections/PackageForm.tsx:24 | joining with ", " is joining with "," after a space in front of every item but the first |
| CatalogForm.Pieces | src/components/dashboard/sections/PackageForm.tsx:24-38 | the pieces a ", "-joined text splits into on "," are the items, each after the first with a leading space |
| CatalogForm.JoinAsPieces | src/components/dashboard/sections/PackageForm.tsx:24 | a ", "-joined text is its pieces joined with "," |
| CatalogForm.TrimmedPieces | src/components/dashboard/sections/PackageForm.tsx:38 | trimming the pieces of items without commas or outer white space gives the items back |
| CatalogForm.UneditedListSurvives | src/components/dashboard/sections/PackageForm.tsx:24-38 | a list with at least one item, none holding a comma or outer white space, is saved back unchanged when the form is not edited |
| CatalogForm.Save | src/components/dashboard/sections/PackageForm.tsx:41-47 | with a non-empty id the record with that id is replaced, otherwise one new record is appended; a refusal changes nothing and is returned |
| PackageForm.InitialRating | src/components/dashboard/sections/PackageForm.tsx:21 | a missing rating and the rating 0 start as the empty text, any other rating as itself |
| PackageForm.InitialFields | src/components/dashboard/sections/PackageForm.tsx:16-25 | each input starts from its column, missing columns as the empty text and the highlights joined |
| PackageForm.Change | src/components/dashboard/sections/PackageForm.tsx:28-30 | the named input takes the typed text and the others keep theirs |
| PackageForm.Payload | src/components/dashboard/sections/PackageForm.tsx:36-40 | the package sent holds the texts as they are, the highlights split and trimmed, and the rating read with `Number()` |
| PackageForm.UneditedSaveKeepsPackage | src/components/dashboard/sections/PackageForm.tsx:16-40 | opening a stored package with representable highlights and saving it unedited sends the same package, the rating 0 included |
| PackageForm.Form.constructor | src/components/dashboard/sections/PackageForm.tsx:14-26 | the form opens on the given record's fields and is not loading |
| PackageForm.Form.HandleChange | src/components/dashboard/sections/PackageForm.tsx:28-30 | a change updates the inputs as `Change` says |
| PackageForm.Form.HandleSubmit | src/components/dashboard/sections/PackageForm.tsx:32-55 | the package is updated by id when editing and inserted otherwise; success is reported exactly when the store reports no error, and loading ends |
| ExperienceForm.InitialFields | src/components/dashboard/sections/ExperienceForm.tsx:16-24 | each input starts from its column, missing columns as the empty text and the highlights joined |
| ExperienceForm.Change | src/components/dashboard/sections/ExperienceForm.tsx:27-29 | the named input takes the typed text and the others keep theirs |
| ExperienceForm.Payload | src/components/dashboard/sections/ExperienceForm.tsx:35-38 | the experience sent holds the texts as they are and the highlights split and trimmed |
| ExperienceForm.UneditedSaveKeepsExperience | src/components/dashboard/sections/ExperienceForm.tsx:16-38 | opening a stored experience with representable highlights and saving it unedited sends the same experience |
| ExperienceForm.Form.constructor | src/components/dashboard/sections/ExperienceForm.tsx:14-25 | the form opens on the given record's fields and is not loading |
| ExperienceForm.Form.HandleChange | src/components/dashboard/sections/ExperienceForm.tsx:27-29 | a change updates the inputs as `Change` says |
| ExperienceForm.Form.HandleSubmit | src/components/dashboard/sections/ExperienceForm.tsx:31-53 | the experience is updated by id when editing and inserted otherwise; success is reported exactly when the store reports no error, and loading ends |
| DestinationForm.InitialFields | src/components/dashboard/sections/DestinationForm.tsx:16-23 | each input starts from its column, missing columns as the empty text and both lists joined |
| DestinationForm.Change | src/components/dashboard/sections/DestinationForm.tsx:26-28 | the named input takes the typed text and the others keep theirs |
| DestinationForm.Payload | src/components/dashboard/sections/DestinationForm.tsx:34-38 | the destination sent holds the texts as they are and the activities and highlights split and trimmed |
| DestinationForm.UneditedSaveKeepsDestination | src/components/dashboard/sections/DestinationForm.tsx:16-38 | opening a stored destination with representable lists and saving it unedited sends the same destination |
| DestinationForm.Form.constructor | src/components/dashboard/sections/DestinationForm.tsx:14-24 | the form opens on the given record's fields and is not loading |
| DestinationForm.Form.HandleChange | src/components/dashboard/sections/DestinationForm.tsx:26-28 | a change updates the inputs as `Change` says |
| DestinationForm.Form.HandleSubmit | src/components/dashboard/sections/DestinationForm.tsx:30-53 | the destination is updated by id when editing and inserted otherwise; success is reported exactly when the store reports no error, and loading ends |
| Store.UpdateWhereId | src/components/dashboard/sections/OrdersManager.tsx:125-135 | an update by id patches exactly the rows with that id and keeps every other row and the order |
| Store.DeleteWhereId | src/pages/dashboard/HeroSectionEditor.tsx:55 | a delete by id keeps exactly the rows with another id |
| Store.Table.Insert | src/hooks/useSubmitUserData.ts:78-83 | an accepted insert appends the new row and returns it; a refused one changes nothing and returns the error |
| Store.Table.Update | src/components/dashboard/sections/OrdersManager.tsx:125-130 | an accepted update patches the rows with that id; a refused one changes nothing; the error is returned |
| Store.Table.Delete | src/pages/dashboard/HeroSectionEditor.tsx:55 | an accepted delete removes the rows with that id; a refused one changes nothing; the error is returned |
| Orders.WithStatus | src/hooks/useSubmitUserData.ts:79-82 | a stored order holds everything submitted, plus the given status |
| JsText.JoinOfSplit | src/components/dashboard/sections/PackageForm.tsx:24-38 | splitting a text on a separator and joining with it gives the text back |
| JsText.SplitOfJoin | src/components/dashboard/sections/PackageForm.tsx:24-38 | joining items free of the separator and splitting again gives the items back |
| JsText.NumberOfIntToString | src/components/dashboard/sections/PackageForm.tsx:21-39 | `Number()` of an integer's decimal text is that integer |
| JsText.DecimalOfNatToString | src/components/dashboard/sections/OrdersManager.tsx:113 | the decimal text of a natural number reads back as that number |
| JsText.LowerTermMatchesAlike | src/components/dashboard/sections/OrdersManager.tsx:110-112 | a case-insensitive search finds the same text for a term and its lower case |
| Sorting.SortBySorted | src/components/pricing/PriceTable.tsx:15 | the sort puts keys in non-decreasing order |
| Sorting.SortByStable | src/components/pricing/PriceTable.tsx:15 | the sort is stable: elements with equal keys keep their order |
| Sorting.SortBySortedInput | src/components/pricing/PriceTable.tsx:15 | an already sorted list is left as it is |

## Left out

- Database traffic is reduced to its effect on a table's rows. Connection handling, auth, RPCs
  (`orders_per_month_users`, `revenue_per_month_users`, `top_items_users` on the analytics page)
  and column projections are not modelled. What the database answers is a parameter.
- The webhook `fetch` is reduced to its outcome: it throws, or it answers with a status and a
  status text.
- Concurrency is not modelled: two clients racing on the same booking, the un-awaited
  `fetchImages()` of the image editor (modelled as running after the write it follows), and the
  two updates of `moveImage` under `Promise.all` (modelled as applied one after the other, each of
  which may be refused on its own). The database's uniqueness constraint appears as a refusal
  with code `23505`.
- Dates and times are not modelled: `toLocaleDateString`, `Intl.DateTimeFormat` and
  `toISOString` are opaque texts passed in, and `created_at` is an integer timestamp.
- Currency formatting (`formatUSD`, `parseFloat`, `Intl.NumberFormat`) is not modelled, and
  neither is any other floating point. Prices are integers.
- `Number()` is modelled for an optional sign followed by ASCII digits, after JavaScript's
  `trim`. Every other text reads as `NaN`, including fractions, exponents and hexadecimal. The
  number's precision is unbounded.
- `toLowerCase` is modelled for the ASCII letters A-Z only. Other characters are left as they are.
- React rendering, JSX, animation, toasts, dialogs' visual state, `setInterval` timing, routing,
  and the query cache (`queryKey`, `staleTime`, `retry`) are not modelled. The carousel's interval
  appears as the `Tick` method, which can only be called while there are images.
- In `duplicates.js`, reading the file and printing with `console.log` are not modelled. The
  printout is the list of `Finding`s returned.
- `Duplicates`: JavaScript lists an object's integer-like keys before its other keys. The model
  keeps every language name in insertion order, which matches the code for language names that
  are not integers.
- `Duplicates.Assign`: every language name becomes an entry. In JavaScript, assigning to the key
  `__proto__` of a plain object sets its prototype and creates no own entry, so a block named
  `__proto__` would not be reported.
- `Duplicates.Captured` and `Duplicates.KeyOf` carry a fallback branch for malformed spans that
  the scanners never produce. Those branches model no behaviour of the script.
- `TripForm.tsx` and `TestimonialForm.tsx` are not part of this model. Their logic is the same
  update-or-insert wiring as the three catalogue forms, plus floating-point and date conversions.
- `PricingTiers.CreatePricingTier`: takes `Number(payload.price)` to be the integer price the
  editor passes.
- `PricingTiers.MatchesQuery`: a `trip_id` filter of `NaN` is modelled as matching no row.
  Depending on the column's type the database may reject such a query instead; either way no
  tier is listed.
- The database's `order(...)` leaves rows with equal keys in no specified order. The model
  returns them in stored order, as a stable sort does. This concerns
  `PricingTiers.Execute`, `HeroSectionEditor.Ordered` and `OrdersManager.FetchOrders`.
- `PricingTiers.UpdatePricingTier`: applies the corrected patch, which keeps the stored trip when
  the payload gives none. The source's behaviour as written is `PricingTiers.UpdateAsWritten`,
  and see "Findings".
- `PricingTiersEditor.Editor.SaveEdit`: uses the corrected patch `PricingTiers.UpdateIntended`,
  so a saved edit keeps the tier's trip. As written the save detaches a trip's tier, which
  `PricingTiers.EditDetachesTripAsWritten` shows.
- `OrdersManager.MatchesSearch`: takes `source_name` to be present. The code's `?.` makes a
  missing name match nothing.
- `OrdersManager.OrdersPage.LoadOrders`: the error panel and its retry button are unreachable,
  because `fetchOrders` catches every failure and returns `[]`. The model therefore never sets
  `error`; the retry button is not modelled.
- Two facts about the code are stated as lemmas, not as changes:
  - `Analytics.UnlistedStatusNotCounted`: the analytics page counts the statuses "pending",
    "approved" and "rejected", and its revenue needs "approved", while the order list writes
    "confirmed" and "cancelled". Orders the admin confirmed or cancelled are counted nowhere.
  - `SubmitUserData.StatusText`: for the same reason, the duplicate message calls a
    confirmed or cancelled earlier booking "unknown".

## Findings

| source | as written | input that shows it | evidently intended | confidence | as-written member | corrected member |
|---|---|---|---|---|---|---|
| src/hooks/usePricingTiers.ts:54 | `updatePricingTier` always writes `trip_id: coerceTrip(payload.trip_id)`, and the tier editor's `saveEdit` never sends a `trip_id` (src/components/dashboard/sections/PricingTiersEditor.tsx:82-86), so every edit writes `null` into the trip column | a tier stored with `trip_id` 5, edited through `saveEdit`: afterwards it no longer matches the query of trip 5 and disappears from that trip's price table. The consequence is latent in the application as it stands: the editor's only caller (src/components/dashboard/sections/ExperiencesManager.tsx:150) passes only `experienceId`, and only src/pages/ExperiencesDetails.tsx:30 reads tiers, by experience | an update without `trip_id` keeps the stored trip | not executed | `PricingTiers.EditDetachesTripAsWritten` | `PricingTiers.EditKeepsTarget` |
