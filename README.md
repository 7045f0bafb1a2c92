# schmalify marketplace core in Dafny

This project models the core logic of the schmalify student marketplace (a Nuxt application) and proves properties of that model.

The core is the **chat session handler**. Each connection is a `ChatPeer` object with four parts:
- its `ctx` (user, conversation, room and receiver);
- the set of rooms it is subscribed to;
- a key-value store;
- a log of everything it does (subscribe, publish, store, send, unsubscribe).

The peer goes through three steps:
- `Open` runs the handshake, specified by the pure function `Handshake`;
- `Message` handles one frame (persist, then publish), specified by `OnFrame`;
- `Close` sends the leave notice and unsubscribes.

Around it are the pieces the handler and the HTTP routes rely on:
- **Public ids.** These are the base64 text (RFC 4648, section 4) of an id's UTF-8 octets (RFC 3629). Both codecs are proved to round-trip in both directions.
- **`GET /api/category`.** The "Free"-first sort is an in-place array method proved equal to a stable reference order.
- **The item listings.** They re-encode each item's three ids.
- **The item filter store.** It is a class whose two actions toggle list membership.
- **The phone-number pattern.** It is written as a small regular-expression syntax with its own matching semantics, proved equal to a plain description.
- **The request schemas and handlers.** These cover register, login, guest login, guests, category creation, item creation and password reset.
- **`parseInt`, `trim` and the route guard.** The route guard and the profile-picture URL choice are modelled as pure functions.

Everything outside the process is an input to the model:
- the database and password hashing of the HTTP handlers are function-typed parameters that return `Call<T>` (`Returned(v)` or `Threw`);
- in the chat handler, JWT verification is a function to `Option<string>` (a throw counts as `None`, as the handler's `catch` makes it), and the conversation table is a `map`;
- the clock is a timestamp string;
- the KV write's success is a boolean;
- the e-mail format check of the schema library is a predicate.

HTTP behaviour follows the framework the handlers run on:
- a body refused by `readValidatedBody` outside any `try` answers 400;
- any other error that escapes a handler answers 500;
- an error caught by a handler's own `catch` gets the status that `catch` gives it.

Three behaviours of the code worth knowing:
- **A failed KV write stops the publish.** In `server/api/messages/websocket.ts:128-134` a failed `set` skips `peer.publish` and sends the error frame to the sender. `OnFrame` publishes exactly when the write succeeds.
- **No heartbeat.** The handler has no heartbeat branch; every frame is a message.
- **Duplicate e-mail gives 500.** Registering an already registered e-mail answers 500, not 400, because the handler's own `catch` rewraps the 400 it throws (`Register.DuplicateEmailIsInternalError`).

## Model

| member | source | states |
|---|---|---|
| Base64.Encode | server/utils/encrypt.ts:2 | 4·⌈n/3⌉ characters for n octets; `=` exactly in the last 0–2 positions (per n mod 3), alphabet characters everywhere else |
| Base64.CharOf | server/utils/encrypt.ts:2 | each of the 64 values has a character, and reading that character back gives the value |
| Base64.CharOfValueOf | server/utils/encrypt.ts:2 | every alphabet character is the character of its own value |
| Base64.DecodeEncode | server/utils/encrypt.ts:1-7 | decoding the encoding of any octet string gives it back |
| Base64.Decode | server/utils/encrypt.ts:5-7 | accepts only texts whose length is a multiple of 4, and yields no octets only for the empty text; `DecodeEncode` and `EncodeDecode` make it the exact inverse of `Encode` |
| Base64.EncodeDecode | server/utils/encrypt.ts:1-7 | every text the strict decoder accepts is the encoding of what it decodes to (one canonical spelling) |
| Utf8.EncodeChar | server/utils/encrypt.ts:2 | a character's encoding has its UTF-8 width, a lead octet and then continuation octets |
| Utf8.Encode | server/utils/encrypt.ts:2 | between one and four octets per character; empty exactly for the empty string |
| Utf8.DecodeEncode | server/utils/encrypt.ts:1-7 | decoding the UTF-8 encoding of any string gives it back |
| Utf8.Decode | server/utils/encrypt.ts:5-7 | each decoded character takes one to four octets; `DecodeEncode` and `EncodeDecode` make it the exact inverse of `Encode` |
| Utf8.EncodeDecode | server/utils/encrypt.ts:5-7 | every octet string the decoder accepts is the encoding of its decoding |
| Utf8.EncodeInjective | server/utils/encrypt.ts:1-3 | distinct strings have distinct encodings |
| Encrypt.EncodeId | server/utils/encrypt.ts:1-3 | length 4·⌈n/3⌉ for n UTF-8 octets; only alphabet characters and `=`; empty exactly for the empty id |
| Encrypt.DecodeId | server/utils/encrypt.ts:5-7 | accepts only canonical lengths and gives the empty id only for the empty text; `DecodeEncodeId` and `EncodeDecodeId` make it the inverse of `encodeId` |
| Encrypt.DecodeIdAt | server/utils/encrypt.ts:5-7 | at run time `decodeId` returns the exact decoding wherever the text is a canonical encoding |
| Encrypt.DecodeEncodeId | server/utils/encrypt.ts:1-7 | `decodeId(encodeId(s)) == s` |
| Encrypt.DecodeAtEncodeId | server/utils/encrypt.ts:1-7 | the same round trip holds whatever the runtime does with malformed text |
| Encrypt.EncodeDecodeId | server/utils/encrypt.ts:1-7 | a text that decodes exactly is the public id of what it decodes to |
| Encrypt.EncodeIdInjective | server/utils/encrypt.ts:1-3 | two ids have the same public id if and only if they are equal |
| Encrypt.EmptyId | server/utils/encrypt.ts:1-7 | `encodeId("") == ""` and `decodeId("") == ""` |
| ChatSocket.FindOther | server/api/messages/websocket.ts:60 | no result exactly when every participant is the user; otherwise the first participant different from the user (every earlier one is the user) |
| ChatSocket.MessageKey | server/api/messages/websocket.ts:126 | the key is `messages:`, the conversation id, `:` and the timestamp, each at its position; `MessageKeyInjective` shows it is unambiguous |
| ChatSocket.Handshake | server/api/messages/websocket.ts:6-71 | 400 exactly when either query value is missing or empty; otherwise 401 exactly when the token does not verify; "Conversation not found" exactly when the decoded ids do not make the user a participant; a rejection after `peer.ctx` was created exactly when no usable other participant exists; accepted exactly when the token verifies, the decoded user is a participant of the decoded conversation and a non-empty other participant exists; on success the room is `chat:` + the raw conversation id, the user is the token's, the receiver is non-empty |
| ChatSocket.ReceiverIsOtherParticipant | server/api/messages/websocket.ts:60-71 | on success the receiver decodes to a participant other than the decoded user |
| ChatSocket.NoSessionWithOneself | server/api/messages/websocket.ts:52-66 | a conversation whose participants are all the user is refused with 404 |
| ChatSocket.OnFrame | server/api/messages/websocket.ts:107-135 | stores and publishes exactly when the four context fields are truthy and the KV write succeeds; otherwise only the error frame is sent; the stored and published values are the same `{senderId, receiverId, content, timestamp}`, under `messages:{conversationId}:{timestamp}` in the context's room |
| ChatSocket.OnClose | server/api/messages/websocket.ts:90-105 | a leave notice exactly when the room is truthy, sent by "server" to the recorded receiver |
| ChatSocket.MessageKeyInjective | server/api/messages/websocket.ts:126 | for conversation ids without `:`, two keys are equal exactly when conversation and timestamp are |
| ChatSocket.NoColonInPublicId | server/utils/encrypt.ts:1-3 | a public id never contains `:`, so keys built from public ids are unambiguous |
| ChatSocket.ChatPeer.constructor | server/api/messages/websocket.ts:5-6 | a new connection has no context, no subscription, no events |
| ChatSocket.ChatPeer.Open | server/api/messages/websocket.ts:6-89 | returns `Handshake`; a rejection subscribes and publishes nothing and leaves `ctx` absent or empty; a success fills the four fields, subscribes to exactly the room, then publishes one join notice |
| ChatSocket.ChatPeer.Message | server/api/messages/websocket.ts:107-135 | the KV map gains exactly the entry `OnFrame` stores (with TTL 259200, an equal key overwriting); the log gains store, then publish, or the error frame |
| ChatSocket.ChatPeer.Close | server/api/messages/websocket.ts:90-106 | with a room: one leave notice, then leaving exactly that room; without one: nothing changes |
| ChatSocket.RefusedSession | server/api/messages/websocket.ts:58-105 | after a refused handshake, `close` leaves no events and no subscription |
| ChatSocket.JoinedSession | server/api/messages/websocket.ts:68-135 | a whole session produces exactly: subscribe, join notice, store, publish, leave notice, unsubscribe |
| CategoryList.Compare | server/api/category/index.get.ts:8-12 | negative exactly when the first category is "Free", positive exactly when only the second is, otherwise 0; `FreeFirstIsStableSort` shows the reference order is sorted by it |
| CategoryList.FreeFirst | server/api/category/index.get.ts:8-12 | the sorted order is a permutation of the input of the same length |
| CategoryList.FreeFirstIsStableSort | server/api/category/index.get.ts:8-12 | the order is sorted for the comparator, and the other categories keep their relative order |
| CategoryList.FreeComesFirst | server/api/category/index.get.ts:8-12 | if a "Free" category exists it comes first |
| CategoryList.FreeFirstAt | server/api/category/index.get.ts:8-12 | with the one "Free" category at index f: it, then the categories before f, then those after f |
| CategoryList.SortFreeFirst | server/api/category/index.get.ts:8-12 | sorting the array in place leaves exactly the reference order |
| CategoryList.PublicCategory | server/api/category/index.get.ts:16 | the new id decodes to the old one; every other field is unchanged |
| CategoryList.ListCategories | server/api/category/index.get.ts:4-18 | status 200; as many categories as fetched, each the re-encoded category at its sorted position; "Free" first when present |
| ItemList.PublicItem | server/api/items/latest.get.ts:7-12 | `id`, `seller_id` and `category_id` decode to the row's; every other field, `seller` included, is unchanged |
| ItemList.PublicItems | server/api/items/latest.get.ts:7-12 | same length and order as the rows |
| ItemList.PublicIdsDistinct | server/api/items/latest.get.ts:9 | two listed items share a public id exactly when they share a row id |
| ItemList.LatestItems | server/api/items/latest.get.ts:4-14 | one result per row, in order: row k becomes `PublicItem` of row k, so its id decodes to that row's, `seller_id` and `category_id` are re-encoded and every other field is copied |
| ItemList.AllItems | server/api/items/index.get.ts:6-14 | `status` 200 and the same items as the latest-items mapping |
| ItemStore.IndexOf | stores/itemStore.ts:11 | -1 exactly when absent; otherwise an index holding the value with no earlier occurrence |
| ItemStore.Toggle | stores/itemStore.ts:9-17 | a present value makes the list one shorter; an absent one is appended at the end; `ToggleFlips` and `ToggleTwice` state membership and the round trip |
| ItemStore.ToggleCounts | stores/itemStore.ts:9-17 | toggling adds one occurrence of an absent value and removes one occurrence of a present one |
| ItemStore.ToggleFlips | stores/itemStore.ts:9-17 | on a duplicate-free list the value's membership flips, no other value's changes, and the list stays duplicate-free |
| ItemStore.ToggleRemoves | stores/itemStore.ts:11-13 | removing a present value keeps every other element in order |
| ItemStore.ToggleTwice | stores/itemStore.ts:14-16 | an absent value is appended after the unchanged list; toggling it again restores the list |
| ItemStore.ItemFilters.constructor | stores/itemStore.ts:4-7 | both filter lists start empty |
| ItemStore.ItemFilters.SetCategoryFilter | stores/itemStore.ts:9-17 | `category` is toggled, its membership of the id flips, `condition` is untouched |
| ItemStore.ItemFilters.SetConditionFilter | stores/itemStore.ts:19-27 | `condition` is toggled, its membership of the value flips, `category` is untouched |
| Const.PhoneRegexMeaning | utils/const.ts:1 | the pattern matches exactly: an optional `+`, a digit 1–9, then 1 to 14 digits |
| Const.PhoneNumberShape | utils/const.ts:1 | a match has 2 to 16 characters, no leading `0` after the optional `+`, and only digits after the first character |
| Const.LimitsOrdered | utils/const.ts:3-7 | minimum price below maximum price, minimum phone length below maximum, a positive item limit |
| Catalog.ParseCondition | base.d.ts:1 | accepts exactly the six condition texts and returns the condition spelled that way |
| ItemsPost.ParseBody | server/api/items/index.post.ts:4-24 | accepts exactly: title 1–20 characters, no description or one of at most 100, price 1–5000, one of the six conditions |
| ItemsPost.Handle | server/api/items/index.post.ts:26-49 | an item is created exactly when the body passes, `userId` is present and the insert succeeds; it carries the decoded seller and category ids and the body's title, description, price and condition; every failure is 400 |
| ItemsPost.PublicIdsStoreRowIds | server/api/items/index.post.ts:30-40 | a body carrying public ids stores the rows' own ids, at a price within the shop's limits |
| CategoryPost.ParseBody | server/api/category/index.post.ts:4-10 | accepts exactly names of 1–20 characters, with any `img` |
| CategoryPost.Handle | server/api/category/index.post.ts:12-33 | refused body 400, failed insert 500; otherwise 201, "Category {name} created successfully" and the created `{id, name}` as body |
| JsString.Trim | server/api/auth/register.post.ts:9 | the result is a slice of the input with only white space before and after it, and no white space at either end |
| JsString.TrimIdempotent | server/api/auth/register.post.ts:9-18 | trimming twice is trimming once |
| JsString.ParseInt | server/api/auth/reset-password.post.ts:31 | after leading white space, text that starts with neither a digit nor a sign is `NaN`, and a negative result needs a minus sign; `ParseIntDecimal` shows it reads back decimal text |
| JsString.ParseIntDecimal | server/api/auth/reset-password.post.ts:31 | `parseInt` reads a decimal number back, with or without a minus sign, followed by anything but a digit, or by anything but a digit, `x` or `X` after a lone `0` (which `parseInt` would read as a hexadecimal prefix) |
| Register.ParseBody | server/api/auth/register.post.ts:5-21 | accepts exactly when the raw e-mail passes the e-mail check, the trimmed e-mail has at most 40 characters, the trimmed password 8–15 and the trimmed name 3–20; yields the trimmed strings |
| Register.Handle | server/api/auth/register.post.ts:23-49 | succeeds exactly when the body passes, the e-mail is unknown, hashing and insert succeed; every failure is 500 with nothing written; success is 201 "Registration successful" with the hashed-password row and a non-guest session whose id decodes to the new row's |
| Register.StoresTrimmedValues | server/api/auth/register.post.ts:33-37 | the row holds the trimmed e-mail and name and the hash of the trimmed password |
| Register.DuplicateEmailIsInternalError | server/api/auth/register.post.ts:27-47 | a known e-mail is answered with 500 |
| Login.ParseBody | server/api/auth/login.post.ts:5-11 | accepts exactly an e-mail that passes the check with at most 40 characters and a password of 8–15, untrimmed |
| Login.Handle | server/api/auth/login.post.ts:13-34 | refused body 400; success exactly when the user exists and the password verifies, giving 200 "Login successful" and a non-guest session whose id decodes to the user's; every 401 says "Invalid email or password"; no session on failure |
| Login.UnknownEmailLooksLikeWrongPassword | server/api/auth/login.post.ts:18-26 | an unknown e-mail and a wrong password produce the same reply |
| Accounts.RegisterThenLogin | server/api/auth/register.post.ts:33-42 | logging in with what a registration stored writes the same session the registration wrote |
| GuestLogin.ParseBody | server/api/auth/guestLogin.post.ts:5-13 | accepts exactly a non-empty first name and a phone of 8–20 characters of the phone shape |
| GuestLogin.AcceptedPhone | server/api/auth/guestLogin.post.ts:8-12 | the phone check is the pattern itself, and an accepted phone has at most 16 characters |
| GuestLogin.Handle | server/api/auth/guestLogin.post.ts:15-38 | success exactly when the body passes and the insert succeeds: a guest row with the body's names and phone, a replaced session `{isGuest, id}` for 259200 seconds, 200 "Guest login successful"; every failure 400 |
| GuestsPost.ParseBody | server/api/guests/index.post.ts:5-15 | accepts exactly a non-empty first name and a phone of 10–15 characters of the phone shape |
| GuestsPost.AcceptedPhone | server/api/guests/index.post.ts:8-14 | the phone check is the pattern itself |
| GuestsPost.StricterThanGuestLogin | server/api/guests/index.post.ts:8-14 | every body accepted here is accepted by guest login, and one 8-digit phone is accepted only there |
| GuestsPost.Handle | server/api/guests/index.post.ts:17-26 | refused body 400, failed insert 500; otherwise 201 "Guest {firstName} created successfully" |
| ResetPassword.ParseBody | server/api/auth/reset-password.post.ts:5-15 | accepts exactly a checked e-mail, a password of 8–15 and an equal confirmation |
| ResetPassword.Handle | server/api/auth/reset-password.post.ts:17-47 | success exactly when the body passes, the trimmed e-mail finds a user, the stored token verifies to the code `parseInt` reads from the token, and hash and update succeed; then the user's password is set to the hash, 200; every failure 500 with nothing updated |
| ResetPassword.CodeComparison | server/api/auth/reset-password.post.ts:31 | the decimal text of the code passes the comparison; a token `parseInt` cannot read never does |
| ResetPassword.WrongCodeChangesNothing | server/api/auth/reset-password.post.ts:31-33 | a code that does not match fails with nothing updated |
| Redirect.Redirect | middleware/redirect.global.ts:1-14 | the only redirect target is "/", given exactly for "/categories", "/categories/" and a "/profile" prefix while signed out |
| Redirect.SignedInReachesProfile | middleware/redirect.global.ts:9-13 | a signed-in user is redirected only from the two category paths |
| Redirect.ProfilePrefix | middleware/redirect.global.ts:9 | every path beginning with "/profile" is guarded |
| Redirect.CategoryPagesPass | middleware/redirect.global.ts:3 | "/categories/x" is not redirected |
| Getters.ProfilePicUrl | utils/getters.ts:1-3 | an `https` avatar is returned as is; otherwise `/api/blob/{userId}/serveProfile` with the user id as a template literal shows it |
| Getters.UrlIsSecureOrServed | utils/getters.ts:2 | the result is an `https` URL or a profile-picture route |
| Getters.ServedRouteNamesUser | utils/getters.ts:2 | different users get different routes |
| Getters.UrlIgnoresUnusedArgument | utils/getters.ts:2 | an `https` avatar makes the user id irrelevant; the fallback ignores the refused avatar |

## Left out

- Encrypt.DecodeId: decodes only canonical base64 of well-formed UTF-8. What the runtime's lenient decoder makes of other text is an input (`DecodeIdAt`), and lone surrogates in ids are not modelled.
- Strings are sequences of Unicode scalar values, while JavaScript's `length` counts UTF-16 code units. The length bounds of the schemas therefore differ for characters outside the Basic Multilingual Plane.
- ItemList.PublicItem: requires a non-null `seller_id` and `category_id`, as the code's `!` asserts; what a null would do at run time is not modelled.
- CategoryList.SortFreeFirst: requires at most one "Free" category, which the unique name column guarantees. With two the comparator is inconsistent and the engine's order is unspecified.
- ChatSocket.Handshake: a token payload without `userId`, and a conversation lookup that throws, are not modelled. JWT verification is an input that yields the user id or nothing; a throwing verification counts as nothing, as the code's `catch` makes it.
- ChatSocket.ChatPeer.Close: when `peer.ctx` was never created the code throws a TypeError before doing anything. The model records no effect.
- ChatSocket.Query: holds the values `getQuery(parseURL(peer.url))` yields. The URL parsing itself is not modelled: it turns `+` into a space and a repeated key into an array. The client puts the base64 conversation id into the URL unencoded, so an id containing `+` reaches the handler altered.
- CategoryList.ListCategories: answers from the current rows. The handler is cached for 7 days (`maxAge`), so a real response can be up to a week old; the cache is not modelled.
- ItemList.AllItems, GuestsPost.Handle: only the mapping and schema logic of these handlers is modelled. As written, `server/api/items/index.get.ts:1` default-imports `getAllItems`, which `server/service/item.ts:5` exports only by name, and `server/service/guest.ts:15` inserts into `tables.guest`, which `server/database/schema.ts` does not define; so neither handler runs as the model describes.
- Delivery of published messages to other peers, and concurrency between connections, are left to the runtime. Publishes are recorded as (room, message) events.
- The clock, `message.text()`, logging, and the session's `loggedInAt` timestamp are left out; timestamps are inputs.
- `setUserSession` and `replaceUserSession` are assumed to succeed.
- Register.ParseBody: the schema's e-mail format check is an input predicate. This also applies to the other schemas that check e-mails.
- ResetPassword.ParseBody: returns only acceptance. The zod issue list, its messages, and the `confirmPassword` path of the refinement are not modelled.
- Messages of errors rethrown through `createError({ message: err })` are not modelled: `Fail(status, None)`.
- ItemsPost.ParseBody: prices are integers, as the column stores them. The fractional numbers `z.number()` also accepts are not modelled.
- ItemsPost.Handle: returns nothing on success, and the HTTP status the framework then sends is not modelled.
- ResetPassword.Handle: its success branch cannot be reached as the code is deployed. Nothing writes `passwordResetToken` (server/database/schema.ts:16 only declares the column), and the forgot-password handler signs `{email, exp}` without a reset code and mails that token, so the stored token `server/api/auth/reset-password.post.ts:27` verifies is always empty, and `parseInt` of the mailed token is `NaN`, which the comparison at line 31 never accepts. The model keeps the success branch over the verifier input.
- JsString.ParseInt: reads digits exactly. Rounding of very long digit strings to a double is not modelled.
- Persistence, the conversation finder, e-mail sending, JWT signing, password hashing, image handling and the client UI are not part of this model. Where handlers call them, they are function-typed inputs.
- The NuxtHub KV store is a map, and its TTL is recorded but not enforced.
