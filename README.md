# Instagram-clone realtime core, modelled in Dafny

This project models the in-memory realtime router of the socket server
(`server.js`), plus a few small rules from the web client and the Clerk
webhook:

- **Realtime** (`realtime.dfy`): the `onlineUsers` registry (user id to
  socket id), the per-socket `socket.userId`, socket.io conversation rooms, and
  one method per inbound event (`join`, `send_message`, `typing_start`,
  `typing_stop`, `join_conversation`, `send_notification`, `disconnect`) on one
  `Router` object. Node runs these handlers one at a time, so the methods run
  one after another. Each handler returns the list of deliveries it emits,
  as (target socket, outbound event) pairs. The socket.io primitives are
  modelled as sets of targets:
  - `socket.broadcast.emit` reaches every connected socket except the sender.
  - `socket.to(room)` reaches the room's members except the sender.
  - `io.to(id)` reaches that one socket while it is still connected.

  `DeliversOnceTo` plus the lemma `ReceivedExactlyOnce` turn each handler's
  contract into a per-socket statement: every target receives exactly one copy
  of the event, and every other socket receives nothing.
- **Reels** (`reels.dfy`): the like toggle over the reel list, and the
  page state (current index, play/pause, mute) that the scroll and button
  handlers update.
- **Messages** (`messages.dfy`): `formatTime`, which buckets elapsed whole
  hours into "now", hours, days and weeks.
- **PostCard** (`post_card.dfy`): the card's like state and count, and
  the conditions for showing the likes line and the comments link.
- **ClerkWebhook** (`clerk_webhook.dfy`): the Svix header check, the outcome
  of each branch of the `POST` handler, and how `username`, `full_name` and
  `email` are derived.
- **JsValues** (`js_values.dfy`): `undefined` as `Option`, and JavaScript
  truthiness for optional booleans and strings.

Inputs the code reads from outside are passed in as parameters:
- the clock (`new Date()`), given as millisecond counts or opaque timestamps;
- the parsed message date;
- the result of Svix signature verification, of `JSON.parse` and of the
  database call;
- the fetched reel list;
- whether an `onLike` callback was supplied.

## Model

| member | source | states |
|---|---|---|
| `Realtime.Router.constructor` | server.js:19 | the server starts with no connected socket, an empty `onlineUsers` map and no rooms |
| `Realtime.Router.Connect` | server.js:21-22 | a new connection gets a fresh id. It has no `userId`, is in no room and is not registered. Nothing else changes. |
| `Realtime.Fanout` | server.js:30 | a broadcast delivers the event exactly once to each socket of the target set and to no other socket |
| `Realtime.ReceivedExactlyOnce` | server.js:30 | for such a broadcast, each target receives exactly `[e]` and every other socket receives nothing |
| `Realtime.Router.EmitTo` | server.js:39 | `io.to(id)` delivers one copy to that socket if it is still connected, otherwise nothing |
| `Realtime.Router.Join` | server.js:25-31 | `onlineUsers[u]` becomes the calling socket (overwriting any earlier entry) and `socket.userId` becomes `u`. One `user_online(u)` goes to every other connected socket, joined or not, and none to the caller. Rooms and connections are unchanged. |
| `Realtime.Router.SendMessage` | server.js:34-47 | one `new_message` carrying `socket.userId`, the receiver id, the content and the conversation id goes to the receiver's registered socket while it is connected. Nothing is sent when the receiver is not registered. State is unchanged. |
| `Realtime.Router.TypingStart` | server.js:50-56 | one `user_typing{conversationId, userId}` goes to every room member except the sender, and nothing to non-members. The sender need not be a member. |
| `Realtime.Router.TypingStop` | server.js:58-64 | the same, for `user_stop_typing` |
| `Realtime.Router.JoinConversation` | server.js:67-69 | adds the socket to that room only; joining twice is the same as joining once. The registry and `userId`s are unchanged. |
| `Realtime.Router.SendNotification` | server.js:72-83 | one `new_notification{type, message}` goes to the user's registered socket while connected, and nothing is sent if the user is not registered. State is unchanged. |
| `Realtime.Router.Close` | server.js:86-87 | the transport's part of a disconnect: the socket leaves the connected set and every room. The registry is untouched. |
| `Realtime.Router.Disconnect` | server.js:86-94 | as written: if the socket has a truthy `userId`, that user's entry is deleted, even when it points at a newer socket, and one `user_offline` goes to every remaining socket. Otherwise the registry is unchanged and nothing is sent. |
| `Realtime.Router.DisconnectIfOwner` | server.js:86-94 | corrected disconnect: registry entries that belong to other sockets always survive. The entry is removed and the user announced offline only when this socket still owns it. |
| `Realtime.DirectMessageScenario` | server.js:25-47 | alice and bob join and alice messages bob: bob's socket receives exactly the one `new_message`, and every other socket receives nothing |
| `Realtime.OfflineDropScenario` | server.js:34-47 | after bob disconnects, a message to bob produces no delivery at all |
| `Realtime.SupersededDisconnectScenario` | server.js:89-93 | closing alice's older socket unregisters alice and tells her newer, still connected socket that alice is offline |
| `Realtime.SupersededDisconnectIfOwnerScenario` | server.js:89-93 | with the ownership check, the same sequence keeps alice registered on the newer socket and sends nothing |
| `Reels.ToggleLike` | app/reels/page.tsx:107-112 | `is_liked` becomes the negation of its truthiness. The count drops by one if the reel was liked and rises by one otherwise. Likes from others are unchanged, and no other field changes. |
| `Reels.ToggleLikeTwice` | app/reels/page.tsx:110-111 | two toggles restore the count exactly and `is_liked` up to truthiness |
| `Reels.ToggleLikeById` | app/reels/page.tsx:105-115 | the list keeps its length and order. Reels with the given id are toggled and every other reel is unchanged. |
| `Reels.ToggleLikeByIdTwice` | app/reels/page.tsx:104-116 | liking the same id twice restores every count and like state. Reels whose `is_liked` was set come back identical. |
| `Reels.ReelsFeed.constructor` | app/reels/page.tsx:27-31 | the page starts at index 0, playing and not muted, with the fetched list |
| `Reels.ReelsFeed.HandleScroll` | app/reels/page.tsx:91-102 | the index changes exactly when the new index differs from the current one and lies in `0 <= i < reels.length`, so it stays in range |
| `Reels.ReelsFeed.HandleLike` | app/reels/page.tsx:104-116 | the list becomes `ToggleLikeById` of the old list; the other state is unchanged |
| `Reels.ReelsFeed.TogglePlayPause` | app/reels/page.tsx:118-120 | flips `isPlaying` and nothing else |
| `Reels.ReelsFeed.ToggleMute` | app/reels/page.tsx:122-124 | flips `isMuted` and nothing else |
| `Reels.TogglesTwiceRestore` | app/reels/page.tsx:118-124 | pressing play/pause twice and mute twice leaves the page as it was |
| `Messages.HoursBetween` | app/messages/page.tsx:101 | the result is the floor of the elapsed milliseconds divided by 3,600,000 |
| `Messages.Bucket` | app/messages/page.tsx:103-106 | exactly one branch applies to every hour count. "now" is any `h < 1`, including negative values. Hours covers `1 <= h < 24` and shows `h`. Days covers `24 <= h < 168` with `floor(h/24)` in 1..6. Weeks covers `h >= 168` with `floor(h/168) >= 1`. |
| `Messages.Elapsed` | app/messages/page.tsx:98-101 | an invalid date, and only an invalid date, gives the `NaN` bucket. For a valid date the bucket is "now" exactly when less than an hour has elapsed, and an hour count `h` means `h` to `h + 1` hours have elapsed. |
| `Messages.NatToString` | app/messages/page.tsx:104-106 | the number printed into the label is a non-empty string of decimal digits with no leading zero; it starts with `0` only for zero |
| `Messages.NatToStringOfDigitsValue` | app/messages/page.tsx:104-106 | every numeral without leading zeros is the printed form of its value, so a number has exactly one printed form |
| `Messages.RenderRoundTrip` | app/messages/page.tsx:103-106 | every label reads back as the bucket it came from, so no two buckets share a label |
| `Messages.FormatTime` | app/messages/page.tsx:98-107 | the label reads back as the bucket of the elapsed time (the bucket of `NaN`, `"NaNw"`, for an invalid date); numbers in labels have no leading zero |
| `Messages.LabelIsUnique` | app/messages/page.tsx:103-106 | two strings that read back as the same bucket are equal, so together with `FormatTime` the label of every elapsed time is fixed |
| `Messages.FutureDateIsNow` | app/messages/page.tsx:101-103 | a date in the future is shown as "now" |
| `PostCard.Card.constructor` | components/post-card.tsx:19-20 | initial `isLiked` is the truthiness of `post.is_liked`; initial `likesCount` is `post.likes_count` |
| `PostCard.Card.HandleLike` | components/post-card.tsx:22-26 | `isLiked` is negated and the count moves by -1 if it was liked, +1 otherwise, so likes from others stay the same. The post id goes to `onLike` when one was supplied. |
| `PostCard.LikeTwiceRestores` | components/post-card.tsx:22-26 | two clicks restore both `isLiked` and `likesCount` |
| `PostCard.LikesLabel` | components/post-card.tsx:91-93 | the likes line is shown exactly when the count is positive; the word is "like" exactly when the count is 1, and "likes" otherwise |
| `PostCard.CommentsLink` | components/post-card.tsx:108-112 | the "View all N comments" link is shown exactly when `comments_count > 0`, and shows that count |
| `ClerkWebhook.TrimStart` | app/api/webhooks/clerk/route.ts:60 | removes exactly the leading ECMAScript white space: the result is a suffix that does not start with white space |
| `ClerkWebhook.TrimEnd` | app/api/webhooks/clerk/route.ts:60 | removes exactly the trailing white space: the result is a prefix that does not end with white space |
| `ClerkWebhook.Trim` | app/api/webhooks/clerk/route.ts:60 | the result is the middle of the input, between a white-space prefix and a white-space suffix, and neither of its ends is white space |
| `ClerkWebhook.LastEight` | app/api/webhooks/clerk/route.ts:59 | `id.slice(-8)` is the last eight characters of `id`, or all of `id` when it is shorter |
| `ClerkWebhook.Username` | app/api/webhooks/clerk/route.ts:59 | the supplied username when it is truthy, otherwise `"user_"` plus the last eight characters of the id; never empty |
| `ClerkWebhook.FullName` | app/api/webhooks/clerk/route.ts:60 | the result has no surrounding white space, and is `""` when both names are missing or empty |
| `ClerkWebhook.FullNameOfTrimmedNames` | app/api/webhooks/clerk/route.ts:60 | names already trimmed are joined by one space, or a single name stands alone when the other is missing |
| `ClerkWebhook.FirstEmail` | app/api/webhooks/clerk/route.ts:58 | the first address's `email_address`, or `undefined` when the list is empty |
| `ClerkWebhook.DeriveFields` | app/api/webhooks/clerk/route.ts:56-62 | the email is the first address, the username is never empty, the full name is trimmed, and the avatar is `image_url` |
| `ClerkWebhook.HeadersPresent` | app/api/webhooks/clerk/route.ts:20 | the headers are missing exactly when one of `svix-id`, `svix-timestamp` and `svix-signature` is absent or empty |
| `ClerkWebhook.ActionFor` | app/api/webhooks/clerk/route.ts:51-113 | `user.created` inserts, `user.updated` updates with the current time, `user.deleted` deletes, and any other type does nothing. Every write is keyed by the event's Clerk id, and inserts and updates write the derived fields. |
| `ClerkWebhook.HandleWebhook` | app/api/webhooks/clerk/route.ts:6-116 | a missing secret throws. A missing Svix header gives 400 before the body is read and before any database call. After that, a failure of `req.text()`, a body that is not JSON or a secret that `new Webhook` rejects throws. A failed verification gives 400 with no database call. A failure of `createServerClient()` after verification throws, whatever the event type. The handler throws exactly in these cases. Otherwise a handled event type makes its database call and gives 200 when the call succeeds and 500 when it fails, and other event types give 200 with no database call. Status 500 only follows a failed database call. |
| `ClerkWebhook.CreatedAndUpdatedAgree` | app/api/webhooks/clerk/route.ts:52-97 | `user.created` and `user.updated` on the same data write the same email, username, full name and avatar under the same Clerk id |

## Left out

- Server bootstrap (Express, the HTTP server, CORS, `listen`, logging) is plumbing.
- socket.io internals are not modelled; the model relies on two assumptions about them:
  - the library removes a closing socket from the connected set and from every room (`Router.Close`);
  - handlers run only for connected sockets.
- A socket's own room, named by its socket id, is modelled only through `io.to(id)`. A conversation id that happens to equal a socket id is not modelled.
- Socket.io deletes rooms that become empty; the model keeps an empty set instead, which `Members` cannot distinguish.
- `send_notification`'s sender socket is not an input to it, because the handler never reads it.
- Events without a handler are ignored by socket.io and are not modelled. `server.js` has no malformed-event error, bounded outbound queues, back-pressure or idle timeouts.
- `Realtime.Router.SendMessage`, `Realtime.Router.TypingStart`, `Realtime.Router.TypingStop`, `Realtime.Router.SendNotification`: payloads are modelled as well-typed fields. A `null` or `undefined` payload makes the destructuring at server.js:35, 51, 59 and 73 throw inside the handler, which is not modelled.
- `Realtime.Router.JoinConversation`: the conversation id is modelled as one string. `socket.join` at server.js:68 also accepts an array and then joins every room in it, which is not modelled.
- The order in which socket.io walks its sockets during a broadcast is not modelled: `Fanout` fixes the set of deliveries, not their order.
- `Realtime.Router.Join`: user ids are modelled as strings, so JavaScript values of other types (numbers, objects, `null`) are not modelled. Truthiness of `socket.userId` is modelled as "non-empty".
- Server timestamps (`new Date().toISOString()`) are opaque string parameters.
- `Messages.HoursBetween`: does not model floating-point division. For integer millisecond counts below 2^53 the double result floors to the same integer. Parsing of date strings is outside the model: the date comes in as milliseconds, or as `None` for an invalid date.
- The "K" number formatting, `toLocaleString`, `toLocaleDateString` and `Math.round(scrollTop / itemHeight)` are floating-point display code. `HandleScroll` takes the rounded index as an integer.
- The embedded `user` record of reels and posts is not modelled: no rule reads it.
- `fetchReels` mock data and `Math.random` fixtures, the `loading` flag, video play/pause side effects and all rendering are not modelled.
- `ClerkWebhook.LastEight`: Dafny strings are sequences of Unicode scalar values, while JavaScript strings are UTF-16 code units. `id.slice(-8)` therefore differs for ids that contain characters outside the Basic Multilingual Plane.
- `ClerkWebhook.HandleWebhook`: a `TypeError` inside the `try` before the database call (for example `email_addresses` or `id` missing from `evt.data`, route.ts:52-59) also gives 500 without a database call. The model treats `evt.data` as well-formed, so in the model a 500 always follows a failed database call.
- `req.text()`, `new Webhook(secret)`, Svix signature verification, `JSON.parse`, `createServerClient()`, the Supabase calls and `headers()` are foreign code. Their outcomes are inputs to `HandleWebhook` (each of the setup calls either returns or throws), and both a returned error and a thrown error from the database are the single `dbSucceeds = false` case.
- lib/socket.ts, lib/api.ts, lib/api/user-api.ts, middleware.ts and context/UserContext.tsx are not part of this model: client wrappers, remote queries, auth middleware and React context.

## Findings

| source | as written | input that shows it | evidently intended | confidence | as-written member | corrected member |
|---|---|---|---|---|---|---|
| server.js:89-93 | `disconnect` deletes `onlineUsers[socket.userId]` and broadcasts `user_offline` even when that entry now belongs to a newer socket of the same user | socket A joins "alice", socket B joins "alice", A disconnects: "alice" is unregistered and B is told alice is offline while B stays connected as alice, so messages to alice are dropped | delete and announce only when `onlineUsers.get(socket.userId) === socket.id` | medium; not executed | `Realtime.SupersededDisconnectScenario` | `Realtime.Router.DisconnectIfOwner` |
