# GigFlow marketplace core in Dafny

GigFlow is a freelance marketplace. Clients post gigs, freelancers bid on them, and a gig's owner hires exactly one bid. The hire assigns the gig, rejects the competing bids and notifies the hired freelancer. This project models that core and proves its properties:

- the Express routes for gigs, bids and notifications;
- the zod request schemas;
- the Notification record;
- the Socket.io handshake;
- the four Redux slices the browser keeps.

**The server store.** The store is one value `Store.Db`. It holds three maps keyed by ObjectId (gigs, bids, notifications), the log of Socket.io events, and the counter that hands out ObjectIds.

- Every record's `createdAt` is the tick at which its id was handed out. So "newest first" (`sort({ createdAt: -1 })`) is descending id order.
- Each write route is a transition function: `BidRoutes.Submit`, `BidRoutes.Hire`, `GigRoutes.CreateGig` and `NotificationRoutes.MarkRead`. Each returns the answer (a result or a `Failure`) and the store after it.
- The read routes are functions from the store to a list.

**The invariant.** `Store.Inv` holds in every reachable store:

- records are keyed by their ids;
- every bid names a stored gig and is not by its owner;
- there is at most one bid per (gig, freelancer);
- an open gig's bids are all pending;
- an assigned gig has exactly one hired bid and no pending one.

Every transition keeps it.

**Hire.** The hire transaction (`PATCH /api/bids/:bidId/hire`) is one atomic step:

- five ordered checks, any of which aborts with nothing written;
- then the three conditional writes (`Gig.updateOne`, `Bid.updateOne`, `Bid.updateMany`);
- then the notification and the live event.

The proofs show three things:

- the writes' filters always match once the checks pass;
- afterwards the gig has exactly one hired bid and no pending one;
- every later hire on that gig fails.

**The imperative class.** `Server.Marketplace` holds the same collections as mutable fields. Its methods run each route's checks with early returns, then update the maps in place; the bulk rejection is a loop over the bids. Each method is proved to leave exactly the store the transition function describes, and to keep `Inv`.

**The browser state.** The Redux slices are classes whose methods are the reducer cases. Two results connect the client to the server:

- `BidSlice.MarkHiredMatchesServer` proves that the client's optimistic `hireBid.fulfilled` update equals what refetching the gig's bids returns.
- `GigRoutes.CreatedGigListedFirst` states the server-side fact behind `createGig.fulfilled` prepending the new gig.

**The unread counter.** The notification slice's counter is modelled as written. `markAsRead.fulfilled` decrements only for a reply that is still unread, but the server always replies with `isRead: true`. So marking an unread notification read leaves the counter one too high until the next fetch (`NotificationSlice.ReadReplyLeavesCountHigh`). The dashboard refetches right after marking, which is why this stays unnoticed there.

## Model

| member | source | states |
|---|---|---|
| Entities.NewNotification | server/models/Notification.js:3-22 | creating a notification succeeds exactly when a receiver and a non-empty message are given, fails with the matching required-field error otherwise, and starts unread |
| Entities.StatusCode | server/routes/bidRoutes.js:16-51 | every failure answers with a 4xx status: 404 exactly for a missing gig, bid or notification, 403 exactly for a foreign gig or notification, 400 for every other failure |
| Entities.Message | server/routes/bidRoutes.js:19-166 | the `message` text each refusal of the gig, bid and notification routes sends (the notification route's two at notificationRoutes.js:28 and 36) |
| Validation.Utf16Length | server/utils/validation.js:3-24 | the length zod measures lies between the number of characters and twice that |
| Validation.BmpLength | server/utils/validation.js:3-24 | for text without astral characters zod's length is the number of characters |
| Validation.ParseHex | server/utils/validation.js:21 | the value of a hex string is below 16 to the power of its length |
| Validation.FormatHex | server/utils/validation.js:21 | formatting gives exactly `width` lower-case hex digits |
| Validation.ParseObjectId | server/utils/validation.js:21 | a 24-hex-digit id denotes a 96-bit value |
| Validation.ObjectIdString | server/utils/validation.js:21 | every id's text matches `/^[0-9a-fA-F]{24}$/` |
| Validation.ParseFormat | server/utils/validation.js:21 | parsing a formatted value gives the value back |
| Validation.FormatParse | server/utils/validation.js:21 | formatting a parsed string gives back its lower-case form |
| Validation.ObjectIdRoundTrip | server/utils/validation.js:21 | id to text to id is the identity |
| Validation.ObjectIdCasing | server/utils/validation.js:21 | two accepted gig ids name the same gig exactly when they agree ignoring case, and an id's canonical text is the lower-case input |
| Validation.RegisterValid | server/utils/validation.js:3-7 | `registerSchema`: username of 3 to 30 and password of at least 6 UTF-16 code units, and an e-mail the format check accepts |
| Validation.LoginValid | server/utils/validation.js:9-12 | `loginSchema`: an accepted e-mail and a non-empty password |
| Validation.GigValid | server/utils/validation.js:14-18 | `gigSchema`: title of 1 to 200 and description of 1 to 2000 code units, budget at least 1 |
| Validation.BidValid | server/utils/validation.js:20-24 | `bidSchema`: a gig id matching `/^[0-9a-fA-F]{24}$/`, a message of 1 to 1000 code units, a price of at least 1 |
| Validation.BidValidMeans | server/utils/validation.js:20-24 | an accepted bid has a 24-character gig id naming a 96-bit id, a 1 to 1000 character message and a price of at least 1 |
| Validation.GigValidMeans | server/utils/validation.js:14-18 | an accepted gig has a 1 to 200 character title, a 1 to 2000 character description and a budget of at least 1 |
| Validation.RegisterValidMeans | server/utils/validation.js:3-7 | an accepted registration has a username of 2 to 30 characters, a password of at least 3 characters (6 code units) and an e-mail the format check accepts |
| Validation.LoginValidMeans | server/utils/validation.js:9-12 | an accepted login has a non-empty password and an e-mail the format check accepts |
| Listing.Descending | server/routes/bidRoutes.js:92-94 | the listed ids are exactly the selected ones below the bound, each once, strictly newest first |
| Listing.DescendingAgrees | server/routes/gigRoutes.js:20-22 | the listing depends only on which ids below the bound are selected |
| Listing.DescendingGrow | server/routes/gigRoutes.js:20-22 | a record created at the bound goes first if selected; the earlier listing follows unchanged |
| Listing.Lookup | server/routes/bidRoutes.js:92-94 | the records fetched for a list of ids are those ids' records, in that order |
| Listing.LookupHas | server/routes/bidRoutes.js:92-94 | every listed id's record appears in the result |
| Listing.LookupExtend | server/routes/gigRoutes.js:20-22 | a newly stored record listed first appears first, followed by the earlier records |
| Listing.Take | server/routes/notificationRoutes.js:13 | `.limit(n)` keeps a prefix of at most n elements, all of them when there are fewer |
| Store.EmptyInv | server/server.js:71-75 | the routes are mounted over a database that starts with no records; that empty store satisfies the store invariant |
| Store.StatusChangesKeepReferences | server/routes/bidRoutes.js:170-186 | status-only updates keep bids' gig references and the one-bid-per-freelancer rule |
| Store.AtMostOneHired | server/routes/bidRoutes.js:161-186 | in every reachable store each gig has at most one hired bid, and none pending once one is hired |
| BidRoutes.SubmitCheck | server/routes/bidRoutes.js:16-51 | the four ordered checks of bid intake (gig missing, gig not open, own gig, earlier bid), the first failing one deciding the answer |
| BidRoutes.Submit | server/routes/bidRoutes.js:11-69 | `POST /api/bids`: validate the body, run the checks, then store a pending bid for the caller under a fresh id |
| BidRoutes.SubmitEffect | server/routes/bidRoutes.js:41-59 | a refused bid leaves the store unchanged; an accepted one adds exactly one pending bid with a fresh id, the caller as freelancer and the given gig, message and price |
| BidRoutes.SubmitFailures | server/routes/bidRoutes.js:12-51 | each refusal (invalid body, missing gig, gig not open, own open gig, earlier bid) happens exactly when the earlier checks pass and its own fails; a bid is accepted exactly when all pass, so on an open gig not its own, by a caller with no earlier bid on it |
| BidRoutes.SubmitPreservesInv | server/routes/bidRoutes.js:41-59 | bid intake keeps the store invariant, including at most one bid per (gig, freelancer) |
| BidRoutes.AddBidKeepsInv | server/routes/bidRoutes.js:53-59 | storing a pending bid on an open gig, by neither its owner nor an earlier bidder, keeps the store invariant |
| BidRoutes.NoSecondBid | server/routes/bidRoutes.js:40-51 | after an accepted bid, the same caller's next bid on that gig is refused as a duplicate and changes nothing |
| BidRoutes.ListGigBids | server/routes/bidRoutes.js:72-100 | `GET /api/bids/:gigId`: 404 for a missing gig, 403 for a non-owner, otherwise the gig's bids sorted newest first |
| BidRoutes.ListGigBidsSpec | server/routes/bidRoutes.js:76-94 | 404 exactly for a missing gig, 403 exactly for a non-owner, success exactly for the owner of an existing gig, and then exactly the gig's bids, newest first |
| BidRoutes.MyBids | server/routes/bidRoutes.js:103-113 | `GET /api/bids/mine`: the caller's bids sorted newest first |
| BidRoutes.MyBidsSpec | server/routes/bidRoutes.js:103-113 | exactly the caller's bids, newest first |
| BidRoutes.HireCheck | server/routes/bidRoutes.js:122-167 | the five ordered checks of the hire: bid missing, bid not pending, gig missing, caller not the owner, gig not open |
| BidRoutes.Hire | server/routes/bidRoutes.js:116-218 | `PATCH /api/bids/:bidId/hire`: the checks, the three conditional writes, the `hired` event and the stored notification, as one step |
| BidRoutes.HireFailures | server/routes/bidRoutes.js:122-167 | each refusal (bid missing 404, bid not pending, gig missing 404, non-owner 403, gig not open) happens exactly when the earlier checks pass and its own fails; a hire succeeds exactly when all pass, so only the gig's owner can hire, and only a pending bid of an open gig |
| BidRoutes.HireGuardsHold | server/routes/bidRoutes.js:169-186 | once the checks at lines 123-167 pass, the filters of the three writes match: gig open, bid pending, and the bulk update selects exactly the gig's other pending bids |
| BidRoutes.HireWrites | server/routes/bidRoutes.js:170-186 | a refused hire changes nothing; a successful one assigns the gig, hires the chosen bid, rejects the gig's other pending bids and leaves every other gig and bid as it was |
| BidRoutes.HireDecidesGig | server/routes/bidRoutes.js:161-186 | after a successful hire the gig is assigned, the chosen bid is its only hired bid, none is pending and all other bids are rejected |
| BidRoutes.WritesDecideBids | server/routes/bidRoutes.js:176-186 | on an undecided gig, the bid update and the bulk update leave exactly the chosen bid hired and every other bid of the gig rejected |
| BidRoutes.HireNotifies | server/routes/bidRoutes.js:196-206 | a successful hire stores one unread notification "You have been hired for <title>!" for the freelancer under a fresh id and emits the same text, type `hired`, to the freelancer's room |
| BidRoutes.HireKeepsShape | server/routes/bidRoutes.js:170-186 | the hire changes only statuses, and its notification is keyed like every record |
| BidRoutes.HireKeepsKeys | server/routes/bidRoutes.js:170-206 | after a hire every record is still keyed and stamped by its id, the new notification included |
| BidRoutes.HireDecidesOnlyItsGig | server/routes/bidRoutes.js:170-186 | a hire decides its own gig and leaves every other gig and its bids as they were |
| BidRoutes.HireKeepsOtherGigs | server/routes/bidRoutes.js:182-186 | other gigs and their bids' decisions are untouched by a hire |
| BidRoutes.HirePreservesInv | server/routes/bidRoutes.js:116-218 | the hire transaction keeps the store invariant |
| BidRoutes.DecidingKeepsInv | server/routes/bidRoutes.js:161-186 | assigning one gig with exactly one hired bid and none pending, changing only statuses, keeps the store invariant |
| BidRoutes.HireGigChecksUnreachable | server/routes/bidRoutes.js:141-167 | in a reachable store the gig-missing and gig-not-open checks never fire |
| BidRoutes.HireOnAssignedGigFails | server/routes/bidRoutes.js:132-139 | any hire on a bid of an assigned gig answers "Bid is no longer available" and changes nothing |
| BidRoutes.SecondHireFails | server/routes/bidRoutes.js:132-139 | after a successful hire, hiring the same bid or any sibling fails with no change |
| BidRoutes.NoBidAfterHire | server/routes/bidRoutes.js:25-30 | once a gig is hired for, every bid on it is refused as no longer accepting bids |
| GigRoutes.ListOpenGigs | server/routes/gigRoutes.js:9-28 | `GET /api/gigs` without a search term: the open gigs sorted newest first |
| GigRoutes.GetGig | server/routes/gigRoutes.js:31-48 | `GET /api/gigs/:id`: the stored gig, or 404 |
| GigRoutes.ListOpenGigsSpec | server/routes/gigRoutes.js:9-28 | without a search term: only open gigs, every open gig, newest first |
| GigRoutes.GetGigAgreesWithListing | server/routes/gigRoutes.js:31-48 | 404 exactly for an absent gig, otherwise exactly the stored gig under that id; a gig is in the open listing exactly when fetching it gives an open gig |
| GigRoutes.MyGigs | server/routes/gigRoutes.js:71-80 | `GET /api/gigs/mine`: the caller's gigs of any status sorted newest first |
| GigRoutes.MyGigsSpec | server/routes/gigRoutes.js:71-80 | exactly the caller's gigs of any status, newest first |
| GigRoutes.CreateGig | server/routes/gigRoutes.js:51-68 | `POST /api/gigs`: validate the body, then store an open gig owned by the caller under a fresh id |
| GigRoutes.CreateGigEffect | server/routes/gigRoutes.js:51-68 | an accepted body adds exactly one open gig with the validated fields and the caller as owner; a refused one changes nothing |
| GigRoutes.CreateGigPreservesInv | server/routes/gigRoutes.js:51-68 | gig creation keeps the store invariant |
| GigRoutes.CreatedGigListedFirst | server/routes/gigRoutes.js:51-80 | a created gig heads both the open listing and its owner's list, followed by the earlier lists unchanged |
| NotificationRoutes.ListNotifications | server/routes/notificationRoutes.js:8-19 | `GET /api/notifications`: the caller's notifications sorted newest first, at most 50 |
| NotificationRoutes.MarkRead | server/routes/notificationRoutes.js:22-47 | `PATCH /api/notifications/:id/read`: 404 for a missing id, 403 for another receiver, otherwise the notification saved with `isRead` true |
| NotificationRoutes.ListNotificationsSpec | server/routes/notificationRoutes.js:8-19 | at most 50 notifications, all the caller's, newest first, and the newest ones: any left out is older than all listed, and then the page is full |
| NotificationRoutes.MarkReadEffect | server/routes/notificationRoutes.js:22-47 | 404 exactly for a missing id, 403 exactly for another receiver, both without change; success exactly for the receiver of an existing notification, read or not, and then only that notification's `isRead` becomes true and it is returned |
| NotificationRoutes.MarkReadIdempotent | server/routes/notificationRoutes.js:40-46 | marking twice equals marking once |
| NotificationRoutes.MarkReadThenList | server/routes/notificationRoutes.js:22-47 | after marking, the caller's listing has the same notifications in the same order, with that one read |
| NotificationRoutes.MarkReadPreservesInv | server/routes/notificationRoutes.js:40-41 | mark-read keeps the store invariant |
| Server.Marketplace.constructor | server/server.js:71-75 | a new store is empty and satisfies the invariant |
| Server.Marketplace.FindBid | server/routes/bidRoutes.js:41-44 | finds a bid by this freelancer on this gig exactly when one exists |
| Server.Marketplace.SubmitBid | server/routes/bidRoutes.js:11-69 | the route with early returns answers and updates exactly as `BidRoutes.Submit` and keeps the invariant |
| Server.Marketplace.RejectPendingSiblings | server/routes/bidRoutes.js:182-186 | the bulk update, bid by bid, rejects exactly the gig's other pending bids and touches nothing else |
| Server.Marketplace.Hire | server/routes/bidRoutes.js:116-218 | the transaction body answers and updates exactly as `BidRoutes.Hire` and keeps the invariant |
| Server.Marketplace.CommitHire | server/routes/bidRoutes.js:169-206 | once the checks have passed, the writes, the event and the notification leave exactly the store `BidRoutes.Hire` describes |
| Server.Marketplace.CreateGig | server/routes/gigRoutes.js:51-68 | answers and updates exactly as `GigRoutes.CreateGig` and keeps the invariant |
| Server.Marketplace.MarkRead | server/routes/notificationRoutes.js:22-47 | answers and updates exactly as `NotificationRoutes.MarkRead` and keeps the invariant |
| BidSlice.HireOutcome | client/src/store/slices/bidSlice.js:124-129 | one element of the `hireBid.fulfilled` map: the hired `_id` becomes hired, another pending bid rejected, the rest unchanged |
| BidSlice.MarkHired | client/src/store/slices/bidSlice.js:122-131 | same length and order, only statuses change, nothing stays pending, a bid is hired exactly when chosen or already hired, and rejected otherwise |
| BidSlice.MarkHiredMatchesServer | client/src/store/slices/bidSlice.js:122-131 | after a successful hire, the client's updated list equals the server's listing of the gig's bids |
| BidSlice.BidState.constructor | client/src/store/slices/bidSlice.js:69-74 | empty lists, not loading, no error |
| BidSlice.BidState.ClearGigBids | client/src/store/slices/bidSlice.js:76-78 | empties the gig's bids and nothing else |
| BidSlice.BidState.Pending | client/src/store/slices/bidSlice.js:83-86 | loading, error cleared, lists unchanged |
| BidSlice.BidState.Rejected | client/src/store/slices/bidSlice.js:91-94 | not loading, error is the message, lists unchanged |
| BidSlice.BidState.CreateBidFulfilled | client/src/store/slices/bidSlice.js:87-90 | the new bid is appended to the gig's bids; loading cleared |
| BidSlice.BidState.FetchGigBidsFulfilled | client/src/store/slices/bidSlice.js:100-103 | replaces only the gig's bids |
| BidSlice.BidState.FetchMyBidsFulfilled | client/src/store/slices/bidSlice.js:113-116 | replaces only the user's bids |
| BidSlice.BidState.HireBidFulfilled | client/src/store/slices/bidSlice.js:122-131 | the gig's bids become `MarkHired` of them; nothing else changes |
| NotificationSlice.UnreadCount | client/src/store/slices/notificationSlice.js:62 | the unread count is at most the list length, zero exactly when all are read, the length exactly when none is |
| NotificationSlice.UnreadCountUpdate | client/src/store/slices/notificationSlice.js:69-78 | replacing one item changes the unread count by the old and new items' contributions |
| NotificationSlice.FindIndex | client/src/store/slices/notificationSlice.js:71 | the first position with the id, or -1 exactly when there is none |
| NotificationSlice.Decrement | client/src/store/slices/notificationSlice.js:75 | `Math.max(0, count - 1)`: one less for a positive count, zero otherwise |
| NotificationSlice.ReadReplyLeavesCountHigh | client/src/store/slices/notificationSlice.js:69-78 | replacing an unread item by a read reply lowers the number of unread items by one (the counter half is in `MarkAsReadFulfilled`) |
| NotificationSlice.NotificationState.constructor | client/src/store/slices/notificationSlice.js:36-41 | empty list, counter zero and in agreement with the list |
| NotificationSlice.NotificationState.AddNotification | client/src/store/slices/notificationSlice.js:43-46 | prepends the item and adds one to the counter, which stays in agreement for an unread item |
| NotificationSlice.NotificationState.ClearNotifications | client/src/store/slices/notificationSlice.js:47-50 | empty list and counter zero |
| NotificationSlice.NotificationState.FetchPending | client/src/store/slices/notificationSlice.js:55-58 | loading, error cleared, list and counter unchanged |
| NotificationSlice.NotificationState.FetchFulfilled | client/src/store/slices/notificationSlice.js:59-63 | the list is the payload and the counter its number of unread items |
| NotificationSlice.NotificationState.FetchRejected | client/src/store/slices/notificationSlice.js:64-67 | not loading, error is the message, list and counter unchanged |
| NotificationSlice.NotificationState.MarkAsReadFulfilled | client/src/store/slices/notificationSlice.js:69-78 | replaces the first item with the reply's id, keeping the length; decrements (never below zero) only for an unread reply; no match changes nothing; a read reply over an unread item leaves a counter that agreed with the list one above the unread count |
| GigSlice.GigState.constructor | client/src/store/slices/gigSlice.js:67-73 | empty lists, no current gig, not loading, no error |
| GigSlice.GigState.ClearCurrentGig | client/src/store/slices/gigSlice.js:75-77 | clears the current gig and nothing else |
| GigSlice.GigState.Pending | client/src/store/slices/gigSlice.js:82-85 | loading, error cleared, lists and current gig unchanged |
| GigSlice.GigState.Rejected | client/src/store/slices/gigSlice.js:90-93 | not loading, error is the message, lists and current gig unchanged |
| GigSlice.GigState.FetchGigsFulfilled | client/src/store/slices/gigSlice.js:86-89 | replaces only the browsed gigs |
| GigSlice.GigState.FetchGigFulfilled | client/src/store/slices/gigSlice.js:99-102 | replaces only the current gig |
| GigSlice.GigState.CreateGigFulfilled | client/src/store/slices/gigSlice.js:112-116 | the new gig goes first in both lists; loading cleared |
| GigSlice.GigState.FetchMyGigsFulfilled | client/src/store/slices/gigSlice.js:126-129 | replaces only the user's gigs |
| AuthSlice.AuthState.constructor | client/src/store/slices/authSlice.js:68-72 | signed out, not loading |
| AuthSlice.AuthState.SignOut | client/src/store/slices/authSlice.js:74-109 | `clearAuth` (lines 74-77) and `logout.fulfilled` (lines 106-109), which do the same: no user, not authenticated, loading flag kept |
| AuthSlice.AuthState.Pending | client/src/store/slices/authSlice.js:82-84 | loading; user and authentication unchanged |
| AuthSlice.AuthState.SignedIn | client/src/store/slices/authSlice.js:85-89 | the payload becomes the user, authenticated, not loading |
| AuthSlice.AuthState.SignInRejected | client/src/store/slices/authSlice.js:90-92 | only the loading flag drops |
| AuthSlice.AuthState.GetCurrentUserFulfilled | client/src/store/slices/authSlice.js:111-116 | a user in the answer signs in; an empty answer changes nothing |
| AuthSlice.AuthState.GetCurrentUserRejected | client/src/store/slices/authSlice.js:117-120 | no user, not authenticated |
| Socket.TrimStart | server/socket/socket.js:13 | drops exactly the leading JavaScript white space |
| Socket.TrimEnd | server/socket/socket.js:13 | drops exactly the trailing JavaScript white space, keeping a prefix |
| Socket.TrimStartSuffix | server/socket/socket.js:13 | what is kept after leading white space is the rest of the string |
| Socket.IndexOf | server/socket/socket.js:15 | the first position of the separator |
| Socket.Split | server/socket/socket.js:12 | at least one piece, none containing the separator, the whole string when it has none |
| Socket.SplitJoin | server/socket/socket.js:12 | joining the pieces of a split gives the string back |
| Socket.JoinSplit | server/socket/socket.js:12 | splitting joined separator-free pieces gives the pieces back |
| Socket.SplitAfter | server/socket/socket.js:12 | a leading piece free of the separator is split off unchanged |
| Socket.FindFirst | server/socket/socket.js:13 | `find` gives the first position whose element satisfies the test, or -1 exactly when none does |
| Socket.FindTokenPiece | server/socket/socket.js:13 | the first cookie whose trimmed text starts with `token=`, or -1 exactly when none does |
| Socket.TokenPieceHasValue | server/socket/socket.js:14-15 | the chosen cookie has an `=`, so `split('=')[1]` exists |
| Socket.CookieTokenShape | server/socket/socket.js:15 | the cookie token contains neither `;` nor `=` |
| Socket.CookieTokenRoundTrip | server/socket/socket.js:11-16 | a header carrying `token=<t>` (after white space, and after cookies that are not the token) yields exactly `t` |
| Socket.SplitTokenPiece | server/socket/socket.js:15 | `split('=')[1]` of `token=<t>` is `t` |
| Socket.Trim | server/socket/socket.js:13 | `trim()`: leading and then trailing JavaScript white space dropped |
| Socket.CookieToken | server/socket/socket.js:11-16 | the token cookie's value: `split('=')[1]` of the first `;`-piece whose trim starts with `token=`, or none |
| Socket.HandshakeToken | server/socket/socket.js:8-21 | the token the middleware continues with is never empty |
| Socket.HandshakeTokenSource | server/socket/socket.js:8-21 | a truthy auth token wins and cookies are ignored; otherwise the token cookie's value is used whenever it is non-empty, nothing else supplies one, and an empty value supplies none |
| Socket.RoomsIdentifyUsers | server/socket/socket.js:30-41 | two users share a room name exactly when they are the same user |
| LiveEvents.HiredEventReachesFreelancer | server/routes/bidRoutes.js:195-199 | the `hired` event of a successful hire goes to the room that the hired freelancer's connections join, and to no other user's room |
| Socket.Connection.constructor | server/socket/socket.js:6-35 | a new connection has no user and no rooms |
| Socket.Connection.Authenticate | server/socket/socket.js:6-35 | no token or a failed verification or lookup answers "Authentication error", an unknown user "User not found", a known user is admitted with its id text as `userId`; refusals leave the connection unchanged |
| Socket.Connection.JoinOwnRoom | server/socket/socket.js:37-42 | the connection joins the room named by its user id |

## Left out

- Concurrency and the MongoDB session machinery (`startSession`, `commitTransaction`, `abortTransaction`, `endSession`). The hire is one atomic step, so two racing hires become "a second hire on the same gig fails".
- Failures after the commit. The model does not cover the `abortTransaction` in the catch block, nor a failure while writing the notification or emitting the event.
- BidRoutes.Hire: the notification is written after the event is emitted and after the commit. The model applies both at once, with the notification last.
- Real-time transport. `req.io.to(...).emit` is an appended `Event`; Socket.io delivery is not modelled.
- The client socket singleton (client/src/utils/socket.js) and server wiring, CORS and static serving (server/server.js) are not part of this model.
- The `search` regex filter of `GET /api/gigs` (server/routes/gigRoutes.js:13-18). It depends on MongoDB's regex semantics. Only the listing without a search term is modelled.
- Validation.RegisterValid and Validation.LoginValid: zod's `email()` format is the oracle `isEmail`, not a checked definition.
- Prices and budgets are mathematical reals. JavaScript float rounding is not modelled.
- `populate` is left out. Listings return the stored records, not the joined user and gig fields.
- Route ordering. `/mine` is registered after `/:gigId` in both routers, so Express would send `GET /mine` to `/:gigId`. The "mine" queries are modelled as plain filters.
- Malformed route parameters. A non-ObjectId `:gigId`, `:bidId` or `:id` makes Mongoose throw a cast error. The model takes route parameters as ids.
- LiveEvents.HiredEventReachesFreelancer: the store keeps user ids as unbounded numbers, while the socket names rooms after 24-digit ObjectId text. The lemma therefore takes the freelancer's id as an ObjectId value, below 16^24.
- Entities.StatusCode: the status and text of a zod validation error come from the error middleware, which is not part of this model. 400 is assumed.
- `updatedAt` timestamps are not modelled. `createdAt` is the id counter.
- The Gig and Bid schemas are not part of this model. New gigs are taken to start `open` and new bids `pending`.
- Auth internals: password hashing, JWT signing and cookie options. `jwt.verify` and `User.findById` are oracles in `Socket.Connection.Authenticate`.
- Socket.Connection.Authenticate: the handshake's auth token is taken to be a string or absent. Non-string values and their truthiness are not modelled.
- The async thunk bodies (axios calls, toasts) and the React pages are I/O and rendering. Their reducer cases are modelled.
- Socket connection logging and the disconnect handler (server/socket/socket.js:38, 43-45) only print. The `io.toRoute` helper (49-51) is not used by the modelled routes.
