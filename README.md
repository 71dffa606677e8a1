# Cinix front end: a Dafny model

Cinix is a React movie-ticketing front end. This project models the logic of its pages
and states what that logic guarantees. Everything else is left out: rendering, routing
and the network. The pages and what each model covers:

- **Booking page.** Loading and grouping the studio's seat map into sorted rows. The
  capped seat selection. The price breakdown (subtotal, 11% tax rounded half up, admin
  fee). The confirmation modal. The payment request and the handling of its reply. The
  Snap widget's callbacks. The ticket saved in `localStorage` after a successful payment.
- **Ticket history page.** Probing one `tickets_<id>` key per candidate user id,
  collapsing the records through a JavaScript `Map` keyed by ticket id, a stable
  newest-first sort, and clearing the history.
- **Wishlist page.** The same probing and `Map` merge, then reversed. Removing a movie:
  the page list uses strict `!==`, the stored lists use loose `!=`, and the loop stops at
  the first value that is not an array. Resolving the poster URL.
- **Trailer modal.** The YouTube id regular expression, with its greedy leading `.*`
  and the 11-character check.
- **Search page.** `formatDuration` with JavaScript's truncating `%`. The debounced
  search, which sends nothing for queries shorter than two characters.
- **Admin movie form.** Filling the form from the edited movie. The multipart payload of
  the non-empty fields. The submit and its error paths, where a 401 drops the stored
  admin token.
- **Admin session flags** in `localStorage`.
- **Login page.** The saved profile, the display name, the failure messages, the button
  state.
- **Password reset page.** The mismatch check, the request, the status banner.

How JavaScript semantics are modelled:

- `localStorage` is a class `Storage.Store<V>` owning a map.
- JavaScript values are `Js.JsValue`, with truthiness, `||`, template-literal
  stringification and loose equality written out.
- HTTP replies, timers and widget callbacks are inputs of the methods that handle them.

`BookingPage.jsx` has no seat-hold countdown and no seat locks: a selection lives only
in the page's state until payment.

## Model

| member | source | states |
|---|---|---|
| Base.Without | src/pages/BookingPage.jsx:183 | `filter(s => s !== x)`: the result holds exactly the elements other than `x`, and is `s` itself when `x` is absent; `WithoutIsFilter` states order and counts |
| Base.WithoutIsFilter | src/pages/BookingPage.jsx:183 | removing a seat is `filter(e => e !== x)`: the other seats keep their order and their number of occurrences, and every occurrence of `x` goes |
| Base.WithoutShortens | src/pages/BookingPage.jsx:182-184 | unselecting a selected seat of a duplicate-free selection removes exactly one entry and keeps it duplicate-free |
| Base.WithoutKeepsDistinct | src/pages/BookingPage.jsx:183 | filtering a seat out never creates duplicates |
| Base.Backwards | src/pages/WishlistPage.jsx:37 | `reverse()` puts element `i` at position `n-1-i` |
| Base.BackwardsInvolutive | src/pages/WishlistPage.jsx:37 | reversing twice gives the list back |
| Base.Reverse | src/pages/WishlistPage.jsx:37 | the in-place swap loop leaves the array equal to the reversal of its old contents |
| Base.Filter | src/pages/WishlistPage.jsx:55-64 | `filter(keep)` keeps exactly the elements that pass, and is never longer |
| Base.FilterAppend | src/pages/WishlistPage.jsx:55-64 | filtering distributes over concatenation, so relative order is kept |
| Base.FilterIdempotent | src/pages/WishlistPage.jsx:55-64 | a filter that removes nothing is the identity; filtering twice equals filtering once |
| Text.NatToString | src/pages/SearchPage.jsx:81-82 | a number renders as a non-empty digit string, one digit exactly below ten |
| Text.IntToString | src/pages/BookingPage.jsx:219 | `toString()` of an integer is non-empty and starts with '-' exactly for negatives |
| Text.ParseNatToString | src/pages/BookingPage.jsx:219 | reading a rendered natural number back gives the number |
| Text.NumberOfIntToString | src/pages/BookingPage.jsx:219 | `Number(String(n)) == n` for every integer |
| Text.BeforeFirst | src/pages/LoginPage.jsx:97 | `split(c)[0]` holds no `c` and is ended by `c` or the end of the string |
| Text.BeforeFirstIsPrefix | src/pages/LoginPage.jsx:97 | `split(c)[0]` is a prefix of the string |
| Text.BeforeFirstUnique | src/components/admin/MovieFormModal.jsx:44 | a `c`-free prefix ended by `c` or the end of the string is `split(c)[0]` |
| Text.BeforeFirstOfJoined | src/pages/LoginPage.jsx:97 | the part before the first `c` of `a + c + b` is `a` when `a` has no `c` |
| Text.LexLessIrreflexive | src/pages/BookingPage.jsx:165 | the order `sort()` uses on row labels is irreflexive |
| Text.LexLessTotal | src/pages/BookingPage.jsx:165 | any two different labels are ordered one way |
| Text.LexLessAsymmetric | src/pages/BookingPage.jsx:165 | the order is asymmetric |
| Text.LexLessTransitive | src/pages/BookingPage.jsx:165 | the order is transitive |
| Js.LooseEq | src/pages/WishlistPage.jsx:64 | `a == b` by type pair (no contract of its own): `null`/`undefined` equal each other only, a number and a string compare through the string's number; its properties are `Js.LooseEqReflexive` and `Wishlist.StrictAndLooseDisagree` |
| Js.LooseEqReflexive | src/pages/WishlistPage.jsx:64 | every value is `==` to itself, so the loose filter drops whatever the strict one drops |
| Js.NumLooselyEqualsItsString | src/pages/WishlistPage.jsx:55-64 | `5 == "5"` holds while `5 === "5"` does not, and both render as the same key suffix |
| Storage.Store.GetItem | src/utils/auth.js:6 | `getItem` returns the stored value exactly when the key is present, else null |
| Storage.Store.SetItem | src/utils/auth.js:10 | `setItem` stores the value under its key and leaves every other key as it was |
| Storage.Store.RemoveItem | src/utils/auth.js:15 | `removeItem` drops that key and leaves every other key as it was |
| HistoryMerge.CandidateIds | src/pages/MyTicketsPage.jsx:14-20 | `[...].filter(Boolean)`: exactly the truthy listed fields, in field order |
| HistoryMerge.Distinct | src/pages/MyTicketsPage.jsx:23-28 | the keys read once each: duplicate-free, and the same key set as the input |
| HistoryMerge.DistinctKeepsFirstOccurrenceOrder | src/pages/MyTicketsPage.jsx:27 | keys stay in the order of their first occurrence |
| HistoryMerge.CollectStored | src/pages/MyTicketsPage.jsx:22-41 | the probing loop reads each distinct key once, in order, and gathers exactly the arrays stored under them |
| HistoryMerge.IndexOfKey | src/pages/MyTicketsPage.jsx:43 | the lookup of a `Map` finds an entry with the key, or reports that none has it |
| HistoryMerge.LastWithKey | src/pages/MyTicketsPage.jsx:43 | the last record with a key is a record of the list with that key |
| HistoryMerge.Dedup | src/pages/MyTicketsPage.jsx:43 | the `Map` merge (no contract of its own); `DedupKeepsFirstPositionLastValue` and `DedupHasDistinctKeys` state what it gives |
| HistoryMerge.DedupKeepsFirstPositionLastValue | src/pages/MyTicketsPage.jsx:43 | `new Map(xs.map(x => [x.id, x])).values()`: keys in first-occurrence order, each holding the last record with that key |
| HistoryMerge.DedupHasDistinctKeys | src/pages/MyTicketsPage.jsx:43 | the merge has one record per id, and every input id appears |
| MyTickets.InsertNewestFirstPermutes | src/pages/MyTicketsPage.jsx:44 | one insertion step rearranges and loses nothing |
| MyTickets.InsertNewestFirstSorted | src/pages/MyTicketsPage.jsx:44 | one insertion step keeps the list newest first |
| MyTickets.InsertNewestFirstStable | src/pages/MyTicketsPage.jsx:44 | one insertion step keeps tickets of equal booking time in order |
| MyTickets.SortNewestFirst | src/pages/MyTicketsPage.jsx:44 | the sort by booking time (no contract of its own); `SortNewestFirstCorrect` states its order, permutation and stability |
| MyTickets.SortNewestFirstCorrect | src/pages/MyTicketsPage.jsx:44 | the sort is newest first, a permutation, and stable for equal booking times |
| MyTickets.InsertNewestFirstKeepsUniqueIds | src/pages/MyTicketsPage.jsx:44 | one insertion step keeps ids unique |
| MyTickets.SortNewestFirstKeepsUniqueIds | src/pages/MyTicketsPage.jsx:44 | sorting keeps ids unique |
| MyTickets.MergedUniqueIds | src/pages/MyTicketsPage.jsx:43 | the `Map` merge holds one ticket per id |
| MyTickets.MergedCoversIds | src/pages/MyTicketsPage.jsx:43 | every stored ticket's id appears in the merge |
| MyTickets.MergedLastVersions | src/pages/MyTicketsPage.jsx:43 | each merged ticket is the last stored version of its id |
| MyTickets.TicketHistory | src/pages/MyTicketsPage.jsx:43-46 | the shown history (no contract of its own); `TicketHistoryCorrect` states what it holds |
| MyTickets.TicketHistoryCorrect | src/pages/MyTicketsPage.jsx:43-46 | the shown history is newest first, one ticket per id, covers every stored id, and shows each id's last stored version |
| MyTickets.TicketsPage.LoadTicketsSmart | src/pages/MyTicketsPage.jsx:11-51 | no user: nothing read or changed; otherwise the distinct keys of the truthy ids are read and the page shows their history |
| MyTickets.TicketsPage.ClearHistory | src/pages/MyTicketsPage.jsx:61-70 | after confirmation exactly the keys of the truthy `email`, `uid`, `id`, `username` are removed and the list emptied; otherwise nothing changes |
| MyTickets.ClearKeepsUserIdList | src/pages/MyTicketsPage.jsx:64 | the `userId` list survives clearing unless another cleared id names the same key |
| Wishlist.WishlistOf | src/pages/WishlistPage.jsx:36-37 | the merged wishlist (no contract of its own); `WishlistOfCorrect` states what it holds |
| Wishlist.WishlistOfCorrect | src/pages/WishlistPage.jsx:36-37 | one movie per id, every stored id shown, each the last stored version, ids in reverse first-occurrence order |
| Wishlist.KeysOfBackwards | src/pages/WishlistPage.jsx:37 | the ids of the reversed list are the reversed ids |
| Wishlist.BackwardsNoDuplicates | src/pages/WishlistPage.jsx:37 | reversing keeps ids distinct |
| Wishlist.WishlistMembers | src/pages/WishlistPage.jsx:36-37 | every stored movie's id is shown, and every shown movie is the last stored version of its id |
| Wishlist.StoredIdShown | src/pages/WishlistPage.jsx:36-37 | a stored movie's id is among the shown ids |
| Wishlist.ShownIsLastVersion | src/pages/WishlistPage.jsx:36-37 | a shown movie is the last stored version of its id |
| Wishlist.Purge | src/pages/WishlistPage.jsx:58-67 | the removal from every key (no contract of its own); `PurgeFrame`, `PurgeOutcome`, `PurgeClean` and `PurgeIdempotent` state its effect |
| Wishlist.PurgeFrame | src/pages/WishlistPage.jsx:58-67 | the removal creates no key and leaves keys it is not given unchanged |
| Wishlist.PurgeOutcome | src/pages/WishlistPage.jsx:58-67 | a removal that completes leaves every listed key free of loosely matching movies; one that stops met a listed non-array value |
| Wishlist.PurgeClean | src/pages/WishlistPage.jsx:58-67 | removing from keys already clean changes nothing |
| Wishlist.PurgeIdempotent | src/pages/WishlistPage.jsx:58-67 | removing the same movie twice is removing it once |
| Wishlist.StrictAndLooseDisagree | src/pages/WishlistPage.jsx:55-64 | a movie stored with id "5" stays on the page but leaves storage when id 5 is removed |
| Wishlist.PosterPath | src/pages/WishlistPage.jsx:78 | `poster_path`, else `poster_url`, else `image`, whichever comes first non-empty; empty exactly when all three are |
| Wishlist.PosterUrl | src/pages/WishlistPage.jsx:77-82 | `getPosterUrl` (no contract of its own); `PosterUrlAbsolute` and `PosterUrlIdempotent` state its cases |
| Wishlist.PosterUrlAbsolute | src/pages/WishlistPage.jsx:77-82 | the poster URL always starts with `http`; no poster field gives the placeholder; a path is kept exactly when it starts with `http`, and any other path is put under the TMDB image base |
| Wishlist.PosterUrlIdempotent | src/pages/WishlistPage.jsx:77-82 | resolving a resolved URL gives it back |
| Wishlist.WishlistPage.LoadWishlistSmart | src/pages/WishlistPage.jsx:11-42 | no user: nothing changes; otherwise the distinct keys are read and the page shows the merge reversed in place |
| Wishlist.WishlistPage.RemoveFromWishlist | src/pages/WishlistPage.jsx:52-68 | the page keeps strictly different ids; storage is purged key by key with loose equality, stopping at a non-array value |
| Pricing.OrDefault | src/pages/BookingPage.jsx:89 | the result is what JavaScript's `prop \|\| d` gives on the two numbers |
| Pricing.SubTotal | src/pages/BookingPage.jsx:94 | an empty selection costs nothing; a non-negative price gives a non-negative subtotal |
| Pricing.TaxAmount | src/pages/BookingPage.jsx:95 | the tax is within half a rupiah of 11% of the subtotal |
| Pricing.TaxAmountUnique | src/pages/BookingPage.jsx:95 | only one integer is that close, so it is the half-up rounding |
| Pricing.GrandTotal | src/pages/BookingPage.jsx:94-96 | the total (no contract of its own); `GrandTotalParts`, `GrandTotalMonotone` and `DefaultPriceTotals` state its value |
| Pricing.GrandTotalParts | src/pages/BookingPage.jsx:96 | nothing selected costs 0; otherwise the total is subtotal plus tax plus exactly one admin fee |
| Pricing.DefaultPriceTotals | src/pages/BookingPage.jsx:89-96 | at 50000 per seat the tax is 5500 per seat and `n > 0` seats cost `55500 n + 3000` |
| Pricing.GrandTotalMonotone | src/pages/BookingPage.jsx:94-96 | with a non-negative price one more seat never lowers the total |
| Selection.Toggled | src/pages/BookingPage.jsx:181-191 | the seat toggle (no contract of its own); `ToggledValid` and `ToggledMembership` state its effect |
| Selection.ToggledValid | src/pages/BookingPage.jsx:181-191 | toggling keeps the selection duplicate-free and within the cap |
| Selection.ToggledMembership | src/pages/BookingPage.jsx:181-191 | the toggled seat flips unless the cap stops it, other seats keep their status; removal is the in-order filter, an added seat goes after the unchanged selection, and the cap alert changes nothing |
| Selection.ToggleTwiceRestores | src/pages/BookingPage.jsx:181-191 | picking a new seat and picking it again restores the selection |
| Selection.Join | src/pages/BookingPage.jsx:218 | `join(",")` of no seats is empty and of one seat is that seat |
| Selection.SplitJoin | src/pages/BookingPage.jsx:218 | the joined seat list splits back into the selection when no seat number holds the separator |
| SeatGrid.RowLabel | src/pages/BookingPage.jsx:152 | `charAt(0)`: one character, a prefix of the seat number, empty only for an empty number |
| SeatGrid.DigitPrefix | src/pages/BookingPage.jsx:153 | the digits `parseInt` reads: a digit prefix followed by a non-digit or the end |
| SeatGrid.ParseInt | src/pages/BookingPage.jsx:153 | `parseInt` on a seat number (no contract of its own); `ParseIntOfNumber` states that it reads a rendered number back |
| SeatGrid.ParseIntOfNumber | src/pages/BookingPage.jsx:153 | `parseInt` reads a rendered number back, whatever non-digit text follows |
| SeatGrid.ToGridSeat | src/pages/BookingPage.jsx:156-160 | the grid seat keeps the number and availability of the listed seat |
| SeatGrid.ToGridSeatNumber | src/pages/BookingPage.jsx:153 | seat `<letter><n>` gets `n` as its `_num` |
| SeatGrid.InsertByNumPermutes | src/pages/BookingPage.jsx:164 | one insertion step rearranges and loses nothing |
| SeatGrid.InsertByNumOrdered | src/pages/BookingPage.jsx:164 | one insertion step keeps a numbered row in order |
| SeatGrid.SortByNum | src/pages/BookingPage.jsx:164 | the row sort as a function (no contract of its own); `SortByNumCorrect` states it is a permutation that orders numbered rows |
| SeatGrid.SortByNumCorrect | src/pages/BookingPage.jsx:164 | the row sort is a permutation, and orders the row when every seat has a number |
| SeatGrid.ShiftLarger | src/pages/BookingPage.jsx:164 | the inner loop of the in-place sort shifts right exactly the seats that sort after the inserted one |
| SeatGrid.InsertAt | src/pages/BookingPage.jsx:164 | one step of the in-place sort inserts the next seat into the sorted prefix |
| SeatGrid.SortRow | src/pages/BookingPage.jsx:164 | `row.sort((a, b) => a._num - b._num)` in place leaves the array equal to the sort of its old contents |
| SeatGrid.RowSeats | src/pages/BookingPage.jsx:151-162 | the seats of a row all carry that row's label |
| SeatGrid.InsertLabelPermutes | src/pages/BookingPage.jsx:165 | one insertion step of the label sort loses nothing |
| SeatGrid.AscendingTail | src/pages/BookingPage.jsx:165 | the tail of an ascending label list is ascending and after its head |
| SeatGrid.InsertLabelCorrect | src/pages/BookingPage.jsx:165 | one insertion step keeps distinct labels strictly ascending |
| SeatGrid.SortLabelsCorrect | src/pages/BookingPage.jsx:165 | `Object.keys(grouped).sort()` gives each label once, strictly ascending |
| SeatGrid.GridOf | src/pages/BookingPage.jsx:151-165 | the grid has one row per distinct label |
| SeatGrid.GridOfRows | src/pages/BookingPage.jsx:151-165 | rows in strictly ascending label order, each holding exactly the seats of its label, in seat-number order when all are numbered |
| SeatGrid.GridOfCoversSeats | src/pages/BookingPage.jsx:151-165 | every listed seat appears in the row of its label and in no other row |
| SeatGrid.RowSeatsHasSeat | src/pages/BookingPage.jsx:154-160 | each seat is among the seats of its own row |
| SeatGrid.GroupedRows | src/pages/BookingPage.jsx:151-162 | the `reduce` accumulator has an array for exactly the labels that occur, holding that row's seats in list order |
| SeatGrid.GroupByRow | src/pages/BookingPage.jsx:151-162 | the `reduce` loop builds that accumulator and its key list |
| SeatGrid.GroupSeats | src/pages/BookingPage.jsx:151-165 | grouping, the in-place row sorts and the label sort build exactly the grid |
| Checkout.OrChainFirstTruthy | src/pages/BookingPage.jsx:72 | an `\|\|` chain yields its first truthy operand, or its last operand when none is truthy |
| Checkout.BookingUserId | src/pages/BookingPage.jsx:65-77 | the booking's user id (no contract of its own); `BookingUserIdChoice` states the choice |
| Checkout.BookingUserIdChoice | src/pages/BookingPage.jsx:65-77 | a truthy prop wins; else the first truthy `id_user`, `id`, `userId`, `email` of the stored user; else a falsy id |
| Checkout.TicketKey | src/pages/BookingPage.jsx:238-239 | the storage key (no contract of its own); `TicketKeyChoice` states which key |
| Checkout.TicketKeyChoice | src/pages/BookingPage.jsx:238-239 | a falsy user id saves under `tickets_guest_user`, a truthy one under its own key |
| Checkout.StatusOf | src/pages/BookingPage.jsx:349 | a seat shows taken exactly when unavailable, and selected exactly when available and selected |
| Checkout.PaymentRequestFor | src/pages/BookingPage.jsx:216-219 | the payment request (no contract of its own); `PaymentRequestContents` states what it holds |
| Checkout.PaymentRequestContents | src/pages/BookingPage.jsx:216-219 | the request's seat list splits back into the selection, and its amount is the subtotal, which differs from the total the page shows |
| Checkout.SavedTickets | src/pages/BookingPage.jsx:256-257 | nothing or a blank value stored gives the one new ticket; a stored array gives the new ticket followed by it; any other stored value writes nothing |
| Checkout.ResolveStudioId | src/pages/BookingPage.jsx:124-136 | the schedule's `studio_id`, else its nested one, else the initial studio; a failed or skipped schedule request keeps the initial one |
| Checkout.BookingPage.constructor | src/pages/BookingPage.jsx:62-92 | price and cap fall back to 50000 and 8, the user id comes from the prop or the stored user, the selection starts empty |
| Checkout.BookingPage.ToggleSeat | src/pages/BookingPage.jsx:181-191 | the selection becomes the toggled one, the cap alert fires exactly at the cap, validity is kept, nothing else changes |
| Checkout.BookingPage.ClickSeat | src/pages/BookingPage.jsx:16-22 | a taken seat is ignored; any other seat toggles |
| Checkout.BookingPage.CheckoutEnabled | src/pages/BookingPage.jsx:432 | the checkout button's `disabled` test negated (no contract of its own); `ExecutePayment`, `PaymentReplied`, `OnSnapError` and `OnSnapClose` state how it changes |
| Checkout.BookingPage.HandleInitialCheckout | src/pages/BookingPage.jsx:200-203 | the modal opens exactly when seats are selected |
| Checkout.BookingPage.DismissModal | src/pages/BookingPage.jsx:446 | the modal closes unless a payment is being submitted |
| Checkout.BookingPage.ExecutePayment | src/pages/BookingPage.jsx:205-219 | nothing with no seats; without a schedule the alert and a closed modal; otherwise submitting, the request for the selection is sent, that selection is remembered as the paid one, and the checkout button is disabled |
| Checkout.BookingPage.PaymentReplied | src/pages/BookingPage.jsx:227-292 | a failure alerts its message or the default and ends submitting; a token with Snap loaded opens Snap; else the redirect; else the invalid-reply alert; staying on the page re-enables the checkout button exactly when seats are still selected |
| Checkout.BookingPage.NewTicket | src/pages/BookingPage.jsx:241-254 | the ticket records the paid selection, its count, its grand total, "Lunas", and the transaction id or else the order id |
| Checkout.BookingPage.OnSnapSuccess | src/pages/BookingPage.jsx:235-266 | the new ticket goes in front of the user's stored list and carries the paid seats and their total; nothing is written when reading the list throws; then the success alert and `/mytickets` |
| Checkout.BookingPage.NewTicketMatchesRequest | src/pages/BookingPage.jsx:216-219 | the saved ticket's seats are the ones the payment request lists, and the request's amount is the subtotal of the ticket's count |
| Checkout.BookingPage.OnSnapPending | src/pages/BookingPage.jsx:267-270 | the pending alert and a move to `/` |
| Checkout.BookingPage.OnSnapError | src/pages/BookingPage.jsx:271-274 | the error alert; submitting ends, so the checkout button is enabled exactly when seats are selected; the selection stays |
| Checkout.BookingPage.OnSnapClose | src/pages/BookingPage.jsx:275-277 | submitting ends, so the checkout button is enabled exactly when seats are selected; nothing else changes |
| Checkout.BookingPage.Load | src/pages/BookingPage.jsx:118-175 | no studio gives the studio error; a failed, missing or empty seat list its error; otherwise the grid of the listed seats |
| Checkout.BookingPage.LoadingTimerFired | src/pages/BookingPage.jsx:172-174 | loading ends and nothing else changes |
| Checkout.SavedTicketInHistory | src/pages/BookingPage.jsx:256-259 | a ticket saved under a key the history page reads is shown there, as the last stored version of its id |
| Checkout.BookingKeyIsProbed | src/pages/MyTicketsPage.jsx:14-28 | the history page reads the booking's key when the booking's user id is one of the signed-in user's truthy ids |
| Trailer.MarkerLen | src/components/TrailerModal.jsx:9 | a marker match has one of the alternatives' lengths and fits in the string |
| Trailer.LineEnd | src/components/TrailerModal.jsx:9 | the first line terminator, which `.` cannot cross |
| Trailer.LastMarker | src/components/TrailerModal.jsx:9 | the greedy `.*` picks the rightmost marker position, with none after it |
| Trailer.RunEnd | src/components/TrailerModal.jsx:9 | `[^#&?]*` runs to the first `#`, `&` or `?`, or the end |
| Trailer.LastMarkerIs | src/components/TrailerModal.jsx:9 | a marker with none to its right is the one the match uses |
| Trailer.RunEndIs | src/components/TrailerModal.jsx:9 | a stop-free run ended by a stop is the id group |
| Trailer.GetYoutubeId | src/components/TrailerModal.jsx:7-12 | `getYoutubeId` (no contract of its own); `GetYoutubeIdCorrect` states exactly which id it finds and `GetYoutubeIdShape` its length and characters |
| Trailer.GetYoutubeIdSound | src/components/TrailerModal.jsx:7-12 | every result is 11 characters long and matched after the rightmost reachable marker |
| Trailer.GetYoutubeIdComplete | src/components/TrailerModal.jsx:7-12 | every such 11-character match is the result |
| Trailer.GetYoutubeIdCorrect | src/components/TrailerModal.jsx:7-12 | the result is `id` if and only if `id` is an 11-character match after the rightmost reachable marker |
| Trailer.GetYoutubeIdShape | src/components/TrailerModal.jsx:11 | a result is 11 characters long and holds no `#`, `&` or `?` |
| Trailer.NoMarkerNoId | src/components/TrailerModal.jsx:8-11 | a null or empty URL, or one without a marker, gives null |
| Trailer.LineEndIs | src/components/TrailerModal.jsx:9 | a string without line terminators is matched up to its end |
| Trailer.VPathExample | src/components/TrailerModal.jsx:7-12 | `v/<id>` yields its 11-character id |
| Trailer.RightmostMarkerWins | src/components/TrailerModal.jsx:9-11 | an id after `v/` is lost when a later `&v=` is followed by a run of another length |
| Search.JsRem | src/pages/SearchPage.jsx:80 | `%` takes the sign of the dividend and is smaller than the divisor in magnitude |
| Search.JsRemIsTruncatedRemainder | src/pages/SearchPage.jsx:80 | `%` is the remainder of division truncated toward zero |
| Search.DigitsHaveNo | src/pages/SearchPage.jsx:81-82 | a rendered number holds no non-digit |
| Search.ReadHoursForm | src/pages/SearchPage.jsx:81 | `"<h>j <m>m"` reads back as `60h + m` |
| Search.ReadMinutesForm | src/pages/SearchPage.jsx:82 | `"<m> Menit"` reads back as `m` |
| Search.FormatDuration | src/pages/SearchPage.jsx:77-83 | the text is empty exactly for an absent or zero duration |
| Search.FormatDurationRoundTrip | src/pages/SearchPage.jsx:77-83 | every positive duration renders to text that reads back as the same minutes |
| Search.NegativeDurationExample | src/pages/SearchPage.jsx:79-82 | -90 minutes renders as "-30 Menit": floored hours are dropped when not positive |
| Search.SearchPage.SetQuery | src/pages/SearchPage.jsx:138 | typing sets the query and nothing else |
| Search.SearchPage.DebounceElapsed | src/pages/SearchPage.jsx:146-152 | the debounced query becomes the typed one |
| Search.SearchPage.FetchMovies | src/pages/SearchPage.jsx:155-161 | fewer than two characters empties the results and sends nothing; otherwise loading starts and the query is sent |
| Search.SearchPage.SearchReplied | src/pages/SearchPage.jsx:162-174 | the results come from the reply and loading ends on every path |
| MovieForm.BlankForm | src/components/admin/MovieFormModal.jsx:26-30 | every text field and the date are "", the poster is `null` |
| MovieForm.FormFor | src/components/admin/MovieFormModal.jsx:35-46 | the modal's form has every field; `FormForText` and `FormForDateAndPoster` state each value |
| MovieForm.FormForText | src/components/admin/MovieFormModal.jsx:35-43 | a text field shows the movie's value when truthy, else "" |
| MovieForm.FormForDateAndPoster | src/components/admin/MovieFormModal.jsx:44-45 | the date is a prefix of the movie's date with no `T`, and no poster file is chosen |
| MovieForm.Payload | src/components/admin/MovieFormModal.jsx:77-82 | the payload as a function (no contract of its own); `PayloadMembers` and `PayloadOrder` state what it holds |
| MovieForm.PayloadMembers | src/components/admin/MovieFormModal.jsx:77-82 | the payload holds exactly the listed fields whose value is neither null nor "", each with its value |
| MovieForm.PayloadOrder | src/components/admin/MovieFormModal.jsx:77-82 | payload entries come in the order of their fields in the key list |
| MovieForm.NothingKept | src/components/admin/MovieFormModal.jsx:78-82 | fields that are all null or "" contribute nothing |
| MovieForm.BlankFormSendsNothing | src/components/admin/MovieFormModal.jsx:26-30 | an untouched new-movie form sends no field |
| MovieForm.EditFormSends | src/components/admin/MovieFormModal.jsx:35-46 | an edited movie sends each text field exactly when it is truthy, and never a poster it did not choose |
| MovieForm.RequestFor | src/components/admin/MovieFormModal.jsx:87-93 | an edit is a PUT to `updatemovie/<id_movie \|\| id>`, a new movie a POST to `addmovie`, both carrying the payload |
| MovieForm.MovieFormModal.Open | src/components/admin/MovieFormModal.jsx:33-52 | the form and preview are filled from the edited movie, or reset |
| MovieForm.MovieFormModal.ChangeField | src/components/admin/MovieFormModal.jsx:134 | typing changes that field only |
| MovieForm.MovieFormModal.ChangeImage | src/components/admin/MovieFormModal.jsx:54-60 | a chosen file becomes the poster and the preview; no file changes nothing |
| MovieForm.MovieFormModal.BuildPayload | src/components/admin/MovieFormModal.jsx:77-82 | the `forEach` loop appends exactly the payload |
| MovieForm.MovieFormModal.HandleSubmit | src/components/admin/MovieFormModal.jsx:64-118 | no token: the alert and a reload, nothing sent; otherwise the request; a 401 removes only the token; loading always ends |
| AdminAuth.AfterSetAuth | src/utils/auth.js:9-12 | afterwards the session is authenticated, a truthy token is stored, a falsy one keeps the old token, other keys unchanged |
| AdminAuth.AfterClearAuth | src/utils/auth.js:14-17 | afterwards no session flag and no token, other keys unchanged |
| AdminAuth.ClearUndoesSet | src/utils/auth.js:9-17 | logging out after logging in is the same as logging out |
| AdminAuth.SetAuthIdempotent | src/utils/auth.js:9-12 | setting the same session twice is setting it once |
| AdminAuth.IsAdminAuthenticated | src/utils/auth.js:1-3 | authenticated exactly when `admin_auth` holds exactly "true" |
| AdminAuth.GetAdminToken | src/utils/auth.js:5-7 | the stored token, or null when absent |
| AdminAuth.SetAdminAuth | src/utils/auth.js:9-12 | the store becomes `AfterSetAuth`, so the session is authenticated |
| AdminAuth.ClearAdminAuth | src/utils/auth.js:14-17 | the store becomes `AfterClearAuth`: not authenticated and no token |
| Login.Changed | src/pages/LoginPage.jsx:66-68 | the named field takes the value and every other field keeps its own |
| Login.DisplayName | src/pages/LoginPage.jsx:97 | the shown name (no contract of its own); `DisplayNameChoice` states the choice |
| Login.DisplayNameChoice | src/pages/LoginPage.jsx:97 | `name`, else `username`, else the email before '@'; falsy only when all three are |
| Login.ProfileObject | src/pages/LoginPage.jsx:100-107 | the saved object has exactly `id`, `email`, `name`, `role` |
| Login.ProfileFor | src/pages/LoginPage.jsx:100-105 | id is `id \|\| user_id`, email is `email \|\| form email`, role is `role \|\| "user"` and always truthy |
| Login.SavedProfileKeysBookings | src/pages/LoginPage.jsx:100-107 | with no user id prop, the booking page keys tickets by the saved profile's id, or its email when the id is falsy |
| Login.FailureMessage | src/pages/LoginPage.jsx:123-129 | the server's message else "Email atau password salah."; the CORS message without a response; else the generic one |
| Login.FailureMessageShown | src/pages/LoginPage.jsx:123-130 | every failure message is truthy, so the banner shows |
| Login.LoginPage.HandleChange | src/pages/LoginPage.jsx:66-68 | the form becomes `Changed`, nothing else changes |
| Login.LoginPage.HandleLogin | src/pages/LoginPage.jsx:70-132 | 200 saves the profile and succeeds; another status shows "Login gagal. Coba lagi."; a failure shows its message; the button is disabled afterwards exactly after success |
| ResetPassword.ReplyStatus | src/pages/ResetPassword.jsx:83-92 | success exactly on a successful reply; a failure shows the server message else the expired-token message |
| ResetPassword.ReplyStatusShown | src/pages/ResetPassword.jsx:83-92 | the banner message is always truthy after a request |
| ResetPassword.ResetPasswordPage.SetPassword | src/pages/ResetPassword.jsx:139 | the first field changes alone |
| ResetPassword.ResetPasswordPage.SetConfirmPassword | src/pages/ResetPassword.jsx:149 | the second field changes alone |
| ResetPassword.ResetPasswordPage.SubmitReset | src/pages/ResetPassword.jsx:67-82 | a mismatch shows its error and sends nothing, loading untouched; otherwise the banner clears, loading starts so the button is disabled, and the password goes to the token's endpoint |
| ResetPassword.ResetPasswordPage.ResetReplied | src/pages/ResetPassword.jsx:83-96 | the reply sets the banner and loading ends whatever the reply, so the button is enabled again exactly when both fields are filled in |

## Left out

- HTTP is not modelled. Replies are method inputs: a reply value or a failure kind.
  Requests in flight are not modelled either, so a stale search reply arriving after a
  newer query is handled like any other reply.
- Timers are not modelled: the loading delays, the search debounce, the redirects after
  login and after a reset. Each timer's effect is a separate method, such as
  `LoadingTimerFired` or `DebounceElapsed`.
- `JSON.parse`/`JSON.stringify` are not modelled. A stored value is its decoded form,
  with explicit blank, non-array and unparseable cases. A stored JSON string is treated
  like any other non-array value. In the source, spreading a stored string splits it
  into characters (src/pages/BookingPage.jsx:257).
- Floating point is not modelled. The 11% tax is computed exactly, rounding half up,
  and `Math.floor(minutes / 60)` is integer floor division. Numbers are integers
  throughout.
- `Date` is not modelled: the booking time is an integer timestamp. Also out: the
  `localeCompare` order of the displayed seat list, `toLocaleString`, and the QR-code
  URL.
- Seat and row ordering are simplified. A `NaN` seat-number difference counts as 0. For
  such rows the engine's sort order is not specified, so the model does not pin it down.
  Row labels compare by character, not by UTF-16 code unit.
- The Midtrans Snap script loader and `window.snap.pay` are not modelled. Whether Snap
  is loaded is an input, and its callbacks are methods.
- Reloads, redirects, `alert` and `confirm` are not modelled beyond their results.
  Alerts and navigations are returned values, and `confirm` is a boolean input.
- `URL.createObjectURL` is an input value.
- Where the booking page's props and navigation state come from is not modelled: the
  constructor receives the already merged values. The movie's title, poster, cinema,
  showtime and date are strings.
- Checkout.BookingPage.Load: only a missing or empty array counts as no seats. A
  non-array payload, or a seat without a `seat_number`, would throw inside the grouping.
  The model does not cover that.
- MovieForm.FormFor: an edited movie's `release_date` is read through its string form.
  A truthy non-string date would throw at `split`. The model does not cover that.
- Js.LooseEq: a string compared with a number is read by `Js.StrToNumber`, which takes
  only an optionally signed run of decimal digits. JavaScript also trims whitespace and
  reads `"5.0"`, `"5e0"`, `"0x5"`, and a string of only whitespace as 0. So a stored id `" 5"` survives
  the removal of movie 5 in the model, where the source deletes it.
- Trailer.GetYoutubeId: the 11-character check counts characters, not UTF-16 code units;
  an id holding a character outside the Basic Multilingual Plane is measured differently.
- Search.SearchPage.FetchMovies: the query-length test counts characters, not UTF-16 code
  units, the same simplification.
- Js.JsValue.Obj: an object is represented by its kind only. Two distinct objects of
  one kind are therefore equal in the model, where JavaScript compares objects by
  identity. Stringifying an array gives `[object Array]` rather than its joined
  elements. Ids and stored fields in these pages are never objects, so no modelled
  comparison depends on this.
- MyTickets.TicketsPage.LoadTicketsSmart: stored arrays hold tickets only. A `null`
  element would make `ticket.id` throw outside the `try` (src/pages/MyTicketsPage.jsx:43)
  and end the load; that throw is not modelled.
- Wishlist.WishlistPage.LoadWishlistSmart: stored arrays hold movies only. A `null`
  element would make `movie.id` throw outside the `try` (src/pages/WishlistPage.jsx:36)
  and end the load; that throw is not modelled.
- Wishlist.WishlistPage.RemoveFromWishlist: stored arrays hold movies only. A `null`
  element would make `m.id` throw inside the filter (src/pages/WishlistPage.jsx:64) and
  end the removal at that key; `Wishlist.Purge` stops only at non-array values, so that
  throw is not modelled.
- Rendering, styling and routing are not modelled. That covers the headers, footer,
  biodata, the route table and guards, the admin dashboard and the admin login
  component.

