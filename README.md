# woo-admin-backend core, modelled in Dafny

`app.js` is an Express service that sits in front of a WooCommerce store. This model covers its four pieces of logic:

- **Customer aggregation** (`/customers`). One `forEach` pass over the fetched orders builds a dictionary of profiles. Each profile is keyed by the order's trimmed phone, or by its trimmed email when there is no phone. A profile counts its orders and sums what they spent. It keeps the first order's name, phone, city and state, the last non-empty email, and the latest order date. The dictionary is then emitted with `Object.values`, with the spent total rounded to cents.
- **Customer order lookup** (`/customers/orders/:id`). It keeps the orders whose email or phone, trimmed and lower-cased, equals the requested identity. It then sorts them newest first.
- **Device token registry** (`deviceTokens`, `/save-token`). This is an in-memory list, loaded once from `tokens.json`. A token is appended when no stored entry shares its `expoPushToken` or its `fcmToken` under `===`. The file is rewritten after every insertion. The `===` test also matches two absent fields (see Findings). `TokenRegistry.Register` models the test as written. `TokenRegistry.RegisterIntended` and the `Intended` lemmas model the corrected test, which compares only non-empty fields.
- **Push messages** (`/test-notification`, `/order-created`). Each handler builds one message per entry with an Expo token. It cuts the messages into batches of 100 and submits the batches one after another.

Modules:

- `JsValues`: the JavaScript values the code touches, truthiness, `${}` rendering, `trim` over the ECMAScript white-space set, and ASCII `toLowerCase`.
- `Orders`: the order records, `parseFloat`, and `new Date`.
- `Sequences`: filter and a stable insertion sort by an optional rank.
- `Customers`: the aggregation.
- `CustomerOrders`: the lookup.
- `Registry`: the class `TokenRegistry` and the duplicate test.
- `Notifications`: message building, batching, submission and the two handlers.

A throw inside a handler is modelled as the `Throws` completion. Examples are calling `trim` on a non-string, or reading a field of a missing `billing`. The handler's `catch` then answers 500, or a plain 200 "OK" in the webhook.

Behaviour of the code worth noting, which the model keeps:

- A rejected batch stops the remaining submissions, because the `try` wraps the whole loop (`Notifications.Submit`).
- An unparsable `date_created` compares as NaN, never as the epoch. So it never replaces a stored date, and a stored unparsable date is replaced by no later order (`Customers.LastOrderDateIsLatest`).
- A lookup over an order without a billing object throws and answers 500 (`CustomerOrders.MissingBillingFailsLookup`).
- Registry deduplication compares absent fields with `===`, so two absent fields match (see Findings).

## Model

| member | source | states |
|---|---|---|
| JsValues.Truthy | app.js:94 | JavaScript truthiness as `!` and `if` test it: `undefined`, `null`, `false`, `0` and `""` are falsy, everything else truthy |
| JsValues.Or | app.js:187-194 | `v \|\| d`: `v` when it is truthy, otherwise the default `d` |
| JsValues.NatToDecimal | app.js:272-274 | the decimal rendering of a number is a non-empty digit string that denotes the number, with a leading `0` only for zero |
| JsValues.Render | app.js:272-273 | `${v}` for the values the code interpolates: `undefined`, `null`, booleans, integers through NatToDecimal, strings as they are |
| JsValues.Trim | app.js:177-178 | `trim`, with its meaning given by the trim lemmas below |
| JsValues.TrimStartSpec | app.js:177-178 | trimming the start removes exactly the leading white space, so the result starts with a non-space |
| JsValues.TrimEndSpec | app.js:177-178 | trimming the end removes exactly the trailing white space, so the result ends with a non-space |
| JsValues.TrimKeepsCore | app.js:177-178 | `trim` returns a slice `s[i..j]` with only white space outside it and none at its ends |
| JsValues.TrimIdempotent | app.js:177-178 | trimming twice is trimming once |
| JsValues.LowerChar | app.js:230 | an upper-case ASCII letter maps to its lower-case letter and every other character is unchanged |
| JsValues.ToLower | app.js:230 | lower-casing maps every character independently and keeps the length |
| JsValues.ToLowerIdempotent | app.js:230 | lower-casing twice is lower-casing once |
| JsValues.TrimLower | app.js:237-238 | trimming and lower-casing commute |
| Orders.TimeOrEpoch | app.js:207-208 | `new Date(d \|\| 0)` is the epoch for a falsy date and is NaN exactly for an unparsable one |
| Orders.Spent | app.js:193-199 | `parseFloat(order.total) \|\| 0`, as used when a profile is opened (line 193) and merged (line 199): NaN counts as 0 |
| Orders.TimeOf | app.js:242 | `new Date(d)` is a number only for `null` (the epoch) or a parsable date |
| Sequences.Filter | app.js:236-240 | `Array.prototype.filter`, with its meaning given by the filter lemmas below |
| Sequences.FilterAppend | app.js:236-240 | filtering distributes over concatenation |
| Sequences.FilterMembers | app.js:236-240 | the filtered sequence holds exactly the kept members of the input |
| Sequences.FilterCount | app.js:236-240 | filtering keeps each kept value as often as in the input and drops every other value |
| Sequences.FilterKeepsAll | app.js:236-240 | a filter that keeps every element returns its input |
| Sequences.SortBy | app.js:242 | `Array.prototype.sort` as a stable insertion sort by rank, with its meaning given by the sort lemmas below |
| Sequences.SortMultiset | app.js:242 | the sort is a permutation of its input |
| Sequences.SortSorted | app.js:242 | when every element has a rank, the sorted sequence is ordered by rank |
| Sequences.SortByRank | app.js:242 | when every element has a rank, the sorted elements come from the input and have non-decreasing ranks |
| Sequences.SortMembers | app.js:242 | every sorted element comes from the input, whether or not it has a rank |
| Sequences.SortKeepsRanked | app.js:242 | sorting keeps every element ranked |
| Sequences.InsertMultiset | app.js:242 | one insertion step adds exactly the inserted element |
| Sequences.InsertSorted | app.js:242 | one insertion step keeps a ranked sequence ordered |
| Sequences.InsertPosSpec | app.js:242 | an element is inserted after every element it does not precede, and in front of the first one it precedes |
| Sequences.InsertStable | app.js:242 | one insertion step keeps the relative order of elements with equal rank |
| Sequences.SortStable | app.js:242 | the sort keeps the input order of equal-rank elements |
| Customers.Cents | app.js:216 | `toFixed(2)` gives the nearest whole number of cents, with ties away from zero |
| Customers.Round2 | app.js:216 | the emitted total is a whole number of cents within half a cent of the running sum |
| Customers.PropertyOrder | app.js:214 | the order `Object.values` visits the keys in, with its meaning given by the two lemmas below |
| Customers.PropertyOrderPermutes | app.js:214 | `Object.values` visits every own key exactly once |
| Customers.PropertyOrderShape | app.js:214 | `Object.values` visits array-index keys first, in ascending numeric order, then the other keys in insertion order |
| Customers.IndicesAscending | app.js:214 | sorting the array-index keys puts them in ascending numeric order |
| Customers.Emit | app.js:214-217 | the result holds one profile per dictionary key |
| Customers.EmitShape | app.js:214-217 | the emitted ids are the keys in `Object.values` order, and each profile is its dictionary entry with the total rounded |
| Customers.BillingOf | app.js:176 | `order.billing \|\| {}`: the order's billing object, or one whose every field is `undefined` |
| Customers.Trimmable | app.js:177-178 | `v?.trim()` throws a TypeError exactly when `v` is neither nullish nor a string |
| Customers.Readable | app.js:177-178 | the aggregation's callback throws on an order exactly when its billing phone or email is not Trimmable |
| Customers.Contact | app.js:177-178 | `v?.trim() \|\| null`: the trimmed text, or none when it is missing or blank; its meaning is given by the trim lemmas |
| Customers.NameOf | app.js:187 | first and last name, each `\|\| ""`, joined by a space and trimmed |
| Customers.FirstDate | app.js:194 | `order.date_created \|\| null`: a falsy date is stored as `null` |
| Customers.Later | app.js:207-209 | `new Date(d \|\| 0) > new Date(than \|\| 0)`, false when either side is NaN; used by MergeLatest |
| Customers.Finish | app.js:214-216 | the emitted copy of a profile with `totalSpent` rounded by Round2 |
| Customers.KeyOf | app.js:176-182 | the key is the trimmed phone or else the trimmed email; it is never empty and is already trimmed |
| Customers.Open | app.js:184-195 | a new profile has the key as id, one order and that order's parsed total |
| Customers.Merge | app.js:196-210 | a later order keeps the id, name, phone, city and state, adds one order and its parsed total |
| Customers.Step | app.js:175-211 | one `forEach` callback on the dictionary; its meaning is given by AccumulateGroups |
| Customers.Accumulate | app.js:175-211 | the whole `forEach` pass; its meaning is given by AccumulateGroups and LastOrderDateIsLatest |
| Customers.VisitOrder | app.js:175-211 | one `forEach` callback updates the key list and the dictionary exactly as one step of the pass does |
| Customers.AggregateCustomers | app.js:173-217 | the handler returns the emitted profiles of the pass, or throws when some phone or email cannot be trimmed |
| Customers.AccumulateWellFormed | app.js:184-195 | the pass lists each key once, exactly the keys with a profile, and files each profile under its own id |
| Customers.StepWellFormed | app.js:184-210 | one callback keeps the dictionary well formed |
| Customers.AccumulateNext | app.js:175 | the pass over one more order is one more callback |
| Customers.AccumulateGroups | app.js:175-206 | a key has a profile iff some order carries it. The profile counts those orders and sums their totals. Its name, phone, city and state come from the first of them, and its email from the last one that has one |
| Customers.LatestOfUnique | app.js:194-209 | the date rule fixes the stored date: at most one date satisfies it |
| Customers.OpenLatest | app.js:194 | a new profile's date is its order's date, with a falsy date stored as `null` |
| Customers.MergeLatest | app.js:207-209 | the stored date is replaced only by a strictly later parsable date, so ties keep the earlier-seen one and a stored unparsable date is never replaced |
| Customers.LastOrderDateIsLatest | app.js:194-209 | the stored date is the first key order's unparsable date if it has one. Otherwise it is the date of the earliest order whose time is the largest, a missing date counting as the epoch and an unparsable one never winning |
| Customers.KeylessOrderIgnored | app.js:181-182 | an order with neither phone nor email changes nothing, wherever it sits |
| Customers.AggregateOnePerKey | app.js:173-217 | the result holds exactly one profile for each key some order carries, and none for any other string |
| Customers.FinishedProfile | app.js:184-217 | an emitted profile summarises its key's orders, with the total rounded once at the end, and carries the date the date rule fixes |
| Customers.AggregateProfiles | app.js:173-217 | every emitted profile summarises the orders with its key and carries the date the date rule fixes |
| Customers.SamePhoneBook | app.js:184-210 | two orders with the same phone open one profile and merge into it |
| Customers.NamedKeyAlone | app.js:214 | a lone non-index key is visited alone |
| Customers.EmitSingle | app.js:214-217 | a one-entry dictionary emits just that profile, rounded |
| Customers.SamePhoneExample | app.js:173-217 | orders of 10.00 and 5.25 from one phone make one profile with 2 orders, 15.25 spent and the later date |
| CustomerOrders.RequestedId | app.js:230 | the requested identity trimmed and lower-cased, from the already decoded parameter; see RequestedIdIdempotent |
| CustomerOrders.Normalisable | app.js:237-238 | `(v \|\| "").trim()` throws a TypeError exactly when `v` is truthy and not a string |
| CustomerOrders.Searchable | app.js:236-240 | the filter callback throws on an order exactly when `o.billing` is missing or its email or phone is not Normalisable |
| CustomerOrders.Normalise | app.js:237-238 | `(v \|\| "").trim().toLowerCase()` for a value that does not make `trim` throw |
| CustomerOrders.Matches | app.js:236-240 | the filter callback: the normalised email or phone equals the identity; its meaning is given by FindOrdersExact |
| CustomerOrders.NewestFirst | app.js:242 | the comparator as a rank: later dates rank lower, an Invalid Date has no rank; see SortedNewestFirst |
| CustomerOrders.FindOrders | app.js:230-242 | the handler body after the fetch; its meaning is given by the lookup lemmas below |
| CustomerOrders.RequestedIdIdempotent | app.js:230 | normalising the requested identity twice is normalising once |
| CustomerOrders.LookupIgnoresCase | app.js:230-240 | the lookup ignores the case of the requested identity |
| CustomerOrders.LookupNormalisedId | app.js:230-240 | the lookup ignores white space around the identity, and an already normalised identity is looked up as is |
| CustomerOrders.FindOrdersExact | app.js:236-242 | the result holds exactly the matching orders, each as often as in the input |
| CustomerOrders.SortedNewestFirst | app.js:242 | when every date parses, sorting by the comparator puts later dates first |
| CustomerOrders.FindOrdersNewestFirst | app.js:230-242 | when every matching order's date parses, the matching orders come out newest first, whatever the other orders' dates |
| CustomerOrders.FindOrdersStable | app.js:242 | when every matching order's date parses, matching orders with the same date keep their input order |
| CustomerOrders.BlankIdFindsBlankContacts | app.js:236-240 | a blank identity finds exactly the orders whose email or phone is missing or blank |
| CustomerOrders.MissingBillingFailsLookup | app.js:237 | one order without a billing object makes the whole lookup throw |
| Registry.Loaded | app.js:66-76 | `loadTokens()`: the saved list, or empty when the file is missing or unparsable |
| Registry.Outcome | app.js:88-96 | the reply to a request: 400 without a body, 400 without a truthy token, success otherwise |
| Registry.Known | app.js:101-107 | `find` returns an entry: some stored entry collides with the request; see FindFirst |
| Registry.Collides | app.js:101-105 | the `find` callback as written, with `===` on both fields |
| Registry.AfterRegister | app.js:101-110 | the list after one request as written; its meaning is given by the lemmas below |
| Registry.FindFirst | app.js:101-105 | `find` returns the first stored entry the duplicate test relates to the incoming token, and returns nothing iff there is none |
| Registry.TokenRegistry.Load | app.js:66-76 | start-up loads the saved list, or an empty one when the file is missing or unparsable |
| Registry.TokenRegistry.Register | app.js:85-115 | answers 400 for no body or no token, otherwise success. Appends the token iff no stored entry collides with it under `===`. Rewrites the file exactly when it appended |
| Registry.TokenRegistry.RegisterIntended | app.js:85-115 | the same route with the corrected duplicate test: appends the token iff no stored entry shares a non-empty field with it (see Findings) |
| Registry.RegisterGrowsByAtMostOne | app.js:101-110 | with the test as written, a request keeps the stored entries and appends at most its own token, exactly when it is accepted and new |
| Registry.RegisterTwiceOnce | app.js:101-110 | with the test as written, a repeated request inserts at most once |
| Registry.RegisterKeepsDistinct | app.js:101-110 | with the test as written, after a request no two entries share an `expoPushToken` or an `fcmToken` value |
| Registry.RegisterAllKeepsDistinct | app.js:101-110 | with the test as written, any series of requests keeps the entries pairwise distinct |
| Registry.SharedExpoLeavesOne | app.js:101-110 | with the test as written, requests sharing one Expo token leave only the first one's entry |
| Registry.NonCollidingAllKept | app.js:101-110 | with the test as written, accepted requests that pairwise collide on neither field are all stored, in order |
| Registry.AbsentFcmCollides | app.js:101-105 | two Expo-only devices collide through their two absent `fcmToken`s, so the second is never stored |
| Registry.IntendedKeepsDistinctDevices | app.js:101-105 | with the duplicate test on non-empty fields only, requests for different devices are all stored |
| Registry.IntendedKeepsDistinct | app.js:101-110 | with the corrected test, a request never stores a second entry for a device already stored |
| Registry.IntendedTwiceOnce | app.js:101-110 | the intended test still inserts a repeated request once |
| Registry.IntendedAgreesWhenComplete | app.js:101-105 | the intended test and the written one agree when every field is non-empty |
| Notifications.OrderNotice | app.js:272-274 | the new-order title and body; reading the first name throws when billing is missing |
| Notifications.Reachable | app.js:268 | `if (t.expoPushToken)`: an entry gets a message exactly when its Expo token is truthy, in both loops (also app.js:123) |
| Notifications.Compose | app.js:269-275 | one push message: the entry's Expo token, the notice's title, body and order id, and the default sound; the same object literal as app.js:124-129 with the test text |
| Notifications.Messages | app.js:265-277 | one message per entry with a truthy Expo token, in registry order |
| Notifications.Chunks | app.js:279 | consecutive batches of 100; its meaning is given by ChunksPartition |
| Notifications.BuildMessages | app.js:120-131 | the loop builds one message per entry with a truthy Expo token, in registry order. If the text throws, as the webhook's loop at app.js:265-277 can, it throws at the first such entry |
| Notifications.MessagesReachEveryExpoToken | app.js:267-277 | every message goes to a registered Expo token with the given title, body and sound, and every entry with an Expo token gets its message |
| Notifications.FcmOnlyUnreachable | app.js:122-123 | an entry without an Expo token gets no message and changes nobody else's |
| Notifications.ChunksPartition | app.js:133 | the batches hold every message once and in order, each batch has 1 to 100 of them, and there are ceil(n/100) batches |
| Notifications.Submit | app.js:134-136 | batches are submitted in order, and the first rejected call ends the loop |
| Notifications.TestNotification | app.js:118-141 | the test message goes to every Expo token, and a rejected batch makes the reply a 500 with the later batches unsent |
| Notifications.OrderCreated | app.js:253-288 | a missing order or one with a falsy id is acknowledged with nothing sent. Otherwise the new-order message goes to every Expo token, and every throw is acknowledged with "OK" |
| Notifications.TwelveBatches | app.js:279-282 | 1200 Expo tokens make 1200 messages in 12 batches |

## Left out

- HTTP routing, `express.json`, `express.urlencoded` and the `rawBody` verify hook, response bodies other than success and error, and all logging: these are wiring, not logic.
- The WooCommerce REST client and `/products`: orders come in as a parameter, already fetched. `response.data || []` is taken as given.
- The Expo SDK. `chunkPushNotifications` is taken to cut the messages into consecutive batches of 100. Each `sendPushNotificationsAsync` call is reduced to success or rejection (`failAt`). Per-message tickets are not modelled.
- File I/O. `tokens.json` is given as missing, unreadable or a saved list. `writeFileSync` is taken to succeed. `JSON.parse` of a well-formed non-array is not modelled.
- Concurrency: every handler runs to completion, one at a time. Interleaving at `await` is not modelled.
- Customers.Round2: floating point is not modelled. `parseFloat` yields an exact real or NaN, sums are exact, and `toFixed(2)` rounds exact reals half away from zero, so binary rounding effects on ties are not captured: for 10.00 + 5.005 the model gives 15.01, while the doubles in app.js sum to just under 15.005 and give 15.00.
- Orders.Stamp: date parsing is not modelled. A `date_created` is given already classified: absent, null, empty, unparsable, or milliseconds.
- CustomerOrders.RequestedId: `decodeURIComponent` is not modelled. The route parameter is taken already decoded, and a malformed escape, which would throw, is left out.
- JsValues.ToLower, JsValues.LowerChar: only ASCII letters are case-folded. Non-ASCII case mappings of `toLowerCase` are not modelled.
- JsValues.JsValue: numbers are integers. Fractional or non-finite `order.id` and `order.total` values are not rendered into message text.
- Sequences.SortBy: the engine's sort algorithm is not specified when the comparator returns NaN, that is when some date does not parse. The model uses a stable insertion sort that treats NaN as "equal". Only the permutation and membership properties are claimed for such inputs. Ordering and stability are proved when every date parses.
- Customers.Step: every key is taken as an ordinary absent key until it is stored. In the code, the read `!customers[key]` also sees members inherited from `Object.prototype`. A key naming one of them ("constructor", "toString", "__proto__", …) takes the merge branch, gets no profile, and writes onto a shared built-in object.

## Findings

| source | as written | input that shows it | evidently intended | confidence | as-written member | corrected member |
|---|---|---|---|---|---|---|
| app.js:101-105 | the duplicate test `t.expoPushToken === expoPushToken \|\| t.fcmToken === fcmToken` also matches when both `fcmToken`s are absent (`undefined === undefined`) | two devices registering only `{ expoPushToken: "ExponentPushToken[a]" }` and then `{ expoPushToken: "ExponentPushToken[b]" }`: the second is never stored and never gets notifications | a stored entry is the same device only when it shares a non-empty `expoPushToken` or a non-empty `fcmToken` | not executed | Registry.AbsentFcmCollides | Registry.IntendedKeepsDistinctDevices |
