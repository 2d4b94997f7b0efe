# Matchcamp: what holds of the backend, proved

Matchcamp is a dating-app backend: a small relational state machine that concurrent HTTP
requests drive through separate SQL statements, with photos in an object store and presence in
Redis. This project models its stateful parts in Dafny and proves, for every run and every
interleaving, which of its guarantees hold and exactly when the others do.

`dafny verify dfyconfig.toml` checks everything.

## How to read it

* **Swipes, matches, conversations.** `MatchTables` holds the tables and what they must satisfy.
  `SwipeProtocol` runs any number of `recordSwipe` transactions at READ COMMITTED, one SQL
  statement a step, with aborts anywhere; a conflicting insert waits. An event that cannot happen
  leaves the state as it is, so a theorem about `After(users, run)` for all `run` speaks of every
  interleaving. `RecordSwipe` is the code itself, statement by statement, over a mutable store, and
  `SerialCalls` shows that one call running alone in the protocol does the same.
* **Chat.** `ChatSafety` adds `createMessage` beside the swipe protocol. `Reading` has the
  `is_read` flag, unread counts and the `last_message_at` trigger; `ChatStore` has the handlers over
  a mutable store; `MessagePages` has cursor paging and the in-place reversal; `MatchLists` (with
  `Ordering` and `Messages`) has the two list queries.
* **Photos.** `PhotoProtocol` overlaps uploads and deletions with failures, crashes and lost
  replies; `PhotoService` is the handlers. `PathClean`, `UrlParse` and `StoreUrls` are the map from
  keys to files and URLs and back, `CleanRules` and `UrlRules` say in terms of the texts what these do,
  and `BasePaths` has the map under base URLs with a path. `PhotoKeys` shows that different uploads
  get different keys, which `PhotoProtocol` takes for granted. `PhotoLeaks` says which overlaps leak.
* **Timed machines.** `Presence` and `RateLimiter`.
* **Discovery and identity.** `Discovery` has the handlers and the list, `DiscoveryRuns` says from a
  run's events alone who is on it; `GoogleIdentity` (concurrent callbacks and
  registrations), `GoogleCallbacks` (the code and its serial meaning), `GoogleOverlap`.
* **Order and calendar.** `Uuids` and `Age`.

`Common` and `Texts` hold what several modules share. Ids in the protocol modules are the 128-bit
values of UUIDs; `Uuids.ValueOfPair` says that nothing is lost by that. Generated ids, keys and random bytes are inputs taken to be new; clocks are inputs.

## What turned out not to hold

Each of these is proved with a run or an input, beside the condition under which the code does keep
the guarantee.

* Two overlapping likes can both commit without a match (`SwipeProtocol.OverlapMisses`); they do so
  exactly when each looked before the other committed (`SwipeProtocol.MissedExactly`).
* Two overlapping first callbacks of one Google subject with different emails sign the second one in
  as a user the subject is not linked to (`GoogleOverlap.OverlapReturnsUnlinkedUser`,
  `GoogleIdentity.ReturnsLinkedUserExactly`).
* A photo row loses its object when an upsert took effect but was reported as failed
  (`PhotoService.LostReplyKillsRow`), and in no other case (`PhotoProtocol.DeadExactly`).
* Overlapping uploads can leave an unused object without any failure (`PhotoService.OverlapLeaks`);
  they do so exactly when an upsert took an object from its row that no upload had read as the old
  one (`PhotoLeaks.NoLeakExactly`).
* `KeyFromURL` leads back to the file exactly for cleaned keys without `%`, `?`, `#` and control
  characters (`StoreUrls.LocalRoundTrip`, `StoreUrls.EscapedKeyLeadsElsewhere`); under a base URL with a path, for none of them unless they
  go up (`BasePaths.RoundTripUnderPath`).
* One `is_read` flag counts unread messages for at most two members (`Reading.OneFlagEnough`), and
  `last_message_at` is the newest only if inserts take effect in timestamp order
  (`Reading.CacheExactInOrder`, `Reading.OutOfOrderIsStale`).
* A user without a connection can be online, exactly when the key was last set by a tick of a
  connection that had already deleted it, or by a connection that then ended with its process, less
  than 45 s ago (`Presence.ClosedOnlineExactly`, `Presence.LateTickLingers`,
  `Presence.DeadProcessLingers`). Every deployment does the latter: the server's shutdown does not
  wait for WebSocket handlers (cmd/api/main.go:98-102). A user with a connection can be
  offline (`Presence.GapIsTight`), exactly between a close of another and the next set
  (`Presence.OpenOfflineExactly`).
* The rate limiter reads the clock before it takes the bucket's lock, so calls can reach the bucket
  out of the order of their times, and one tick is enough to exceed the bound of a window
  (`RateLimiter.OneTickExceeds`). The bound holds when a key's grants come in order
  (`RateLimiter.WindowBound`), and in every order exactly for bursts of at most one
  (`RateLimiter.BoundedInAnyOrderExactly`).

Where code and documentation disagree, the code is followed: photo positions are 0 to 2
(internal/server/server.go:1556, migrations/00005_max_3_photos.sql:4), though README.md:31, the
OpenAPI file and the error text in internal/apperror/apperror.go:46 say 0 to 3.

## Model

| member | source | states |
|---|---|---|
| MatchTables.MembersLikeEachOther | migrations/00001_init.sql:76-96 | in consistent tables a member of a conversation has exactly one partner in it, and the two like each other |
| MatchTables.WithSwipeConsistent | migrations/00001_init.sql:65-74 | a new allowed swipe keeps every constraint and every row |
| MatchTables.WithMatchConsistent | internal/server/server.go:1203-1224 | a match with its conversation and two members, added for a mutual like that has none, keeps every constraint and every row |
| SwipeProtocol.StepKeeps | internal/server/server.go:1166-1227 | every statement, commit or abort of any transaction keeps the invariant of the protocol |
| SwipeProtocol.RunKeeps | internal/server/server.go:1166-1227 | the invariant holds after every interleaving of any number of calls |
| SwipeProtocol.AlwaysConsistent | migrations/00001_init.sql:65-96 | every committed state has ordered, unique matches backed by both likes, one conversation a match, and exactly the match's two members |
| SwipeProtocol.AtMostOneWinner | internal/server/server.go:1225-1246 | in every interleaving at most one call per unordered pair returns matched |
| SwipeProtocol.NoMatchYet | internal/server/server.go:1203-1208 | a transaction that saw the other's like never finds a committed match of its pair |
| SwipeProtocol.UpsertsInsert | internal/database/db/match.sql.go:215-234 | both upserts of this path insert: they return the id they generated |
| SwipeProtocol.NeverConflicts | internal/database/db/match.sql.go:15-19 | in every run no upsert of a match, conversation or member takes its ON CONFLICT branch |
| SwipeProtocol.WinnerReturnsItsRows | internal/server/server.go:1203-1246 | the ids a winning call returns are those of its pair's match and that match's conversation, whose members are the two users |
| SwipeProtocol.CommitIs | internal/server/server.go:1179-1227 | what a commit adds is the swipe alone, or the swipe with its match, conversation and two members |
| SwipeProtocol.CommitConsistent | internal/server/server.go:1225-1227 | a commit keeps the committed tables consistent, whatever else is open |
| SwipeProtocol.CommittedRowsStay | migrations/00001_init.sql:65-96 | no later step of any run changes or removes a committed row |
| SwipeProtocol.NewReadExact | internal/database/db/match.sql.go:47-52 | a reciprocal read answers true exactly when the other like was committed before it |
| SwipeProtocol.SawExactly | internal/server/server.go:1188-1201 | of two committed likes of a pair, one saw the other exactly when the other had committed first |
| SwipeProtocol.MissedExactly | internal/server/server.go:1174-1208 | for two committed likes of a pair there is a match unless each read came before the other's commit |
| SwipeProtocol.SerialComplete | internal/server/server.go:1174-1208 | when committed calls do not overlap, a match exists if and only if both likes do |
| SwipeProtocol.OverlapMisses | internal/server/server.go:1167-1201 | a concrete overlap of two calls commits both likes and no match |
| RecordSwipe.AloneKeeps | internal/server/server.go:1166-1247 | a call that runs alone keeps the tables consistent and every mutual like matched, and answers matched exactly when it made the match |
| RecordSwipe.MatchStore.CreateSwipe | internal/database/db/match.sql.go:31-34 | inserts exactly when no constraint of swipes is broken |
| RecordSwipe.MatchStore.HasReciprocalLike | internal/database/db/match.sql.go:47-52 | true exactly for a stored like |
| RecordSwipe.MatchStore.UpsertMatch | internal/database/db/match.sql.go:229-234 | returns the pair's match, changing nothing if there is one and adding only the new row otherwise |
| RecordSwipe.MatchStore.UpsertConversationForMatch | internal/database/db/match.sql.go:215-220 | returns the match's conversation, changing nothing if there is one and adding only the new row otherwise |
| RecordSwipe.MatchStore.OpenMatch | internal/server/server.go:1203-1224 | the statements after a reciprocal like add the match, its conversation and both members |
| RecordSwipe.MatchStore.RecordSwipe | internal/server/server.go:1166-1247 | the code refines the serial specification and keeps consistency and completeness |
| SerialCalls.StepsAlone | internal/server/server.go:1166-1247 | the protocol's steps for one call, with no other open, end as the serial specification says |
| SerialCalls.AloneIsOneCall | internal/server/server.go:1166-1247 | the same after any history: tables, refusal, match and returned ids agree |
| MatchLists.SameRows | internal/database/db/match.sql.go:66-92 | the low/high join and the two-member self-join admit the same rows |
| MatchLists.EveryMatchListed | internal/database/db/match.sql.go:141-169 | each match of the user has a row |
| MatchLists.OneRowPerMatch | internal/database/db/match.sql.go:153-167 | and only one, up to ties among newest messages |
| MatchLists.RowsAreMatches | internal/database/db/match.sql.go:66-92 | every row of an answer is a match of the user, with its partner and its conversation |
| MatchLists.EveryMatchOnce | internal/database/db/match.sql.go:141-169 | every match of the user stands in every answer exactly once |
| MatchLists.SameAnswers | internal/database/db/match.sql.go:66-169 | any answer of one list query is an answer of the other |
| MatchLists.SameOrder | internal/database/db/match.sql.go:92-168 | any two answers show the same lines with the same recency at every position |
| MatchLists.OrderIsActivity | internal/database/db/match.sql.go:92-168 | a row placed before another is never of a conversation that was last active, by its newest message or else by its opening, at an earlier time |
| MatchLists.LaterActivityFirst | internal/database/db/match.sql.go:92-168 | in every answer of either query, a conversation whose newest message, or else whose opening, is newer than all messages of another, or than the other's opening if it is empty, stands before it |
| MatchLists.SameLists | internal/database/db/match.sql.go:66-169 | without ties the two lists are equal in all columns they share, partner and last message included |
| Ordering.Unique | internal/database/db/match.sql.go:168 | with distinct keys there is only one descending order of a set |
| Messages.LastExists | internal/database/db/match.sql.go:85-91 | the lateral subquery always has an answer, null exactly for an empty conversation |
| ChatSafety.MembersFixed | internal/database/db/chat.sql.go:69-73 | the members of an existing conversation never change |
| ChatSafety.StepKeeps | internal/server/server.go:1112-1152 | every step of any send or swipe keeps the invariant |
| ChatSafety.MessagesBetweenMutualLikes | internal/server/server.go:1116-1124 | in every interleaving a stored message's sender and its one other member have committed mutual likes |
| ChatSafety.PublishedToMembersOnce | internal/server/server.go:1144-1150 | an event reaches a channel at most once, and only a member's |
| ChatSafety.PublishedWhenDone | internal/server/server.go:1144-1150 | when a send is done, each member has the event exactly once unless its publication failed |
| Reading.UnreadIsSinceRead | internal/database/db/match.sql.go:78-79 | in a two-member conversation the unread count is the number of the partner's messages since the user's last mark |
| Reading.OneFlagEnough | internal/database/db/chat.sql.go:146-152 | one flag a message gives every member that count in every run if and only if there are at most two members |
| Reading.ThirdMemberLosesCount | internal/database/db/chat.sql.go:146-152 | with a third member, another's reading clears the count |
| Reading.MarkChanges | internal/database/db/chat.sql.go:146-152 | marking zeroes the reader's count in that conversation and leaves the other member's and every other conversation's |
| Reading.FlagsNeverRevert | migrations/00003_chat_read_status.sql:3 | a message never changes but for its flag, which is never cleared |
| Reading.CacheExactInOrder | migrations/00003_chat_read_status.sql:10-21 | last_message_at agrees with the newest row, null included, at every point of a run if and only if inserts take effect in timestamp order |
| Reading.OutOfOrderIsStale | migrations/00003_chat_read_status.sql:10-21 | two sends out of timestamp order leave last_message_at behind the newest row |
| Texts.TrimSpaceIs | internal/server/server.go:1155 | trimming takes only spaces, and all of them at both ends |
| Texts.SpacesAre | internal/server/server.go:1155 | what counts as space is the 25 characters with the Unicode property White_Space |
| Texts.HasLinkExactly | internal/server/server.go:1159-1161 | a text has a link if and only if http://, https:// or data: stands somewhere in it, each letter in either case |
| Texts.BytesExactly | internal/server/server.go:483-486 | the bytes that limits count are one a character and one more for each of the bounds U+0080, U+0800 and U+10000 it reaches |
| Texts.PayloadOkExactly | internal/server/server.go:1154-1164 | a payload passes if and only if its conversation is not nil and the text to be stored is trimmed, of 1 to 1000 characters and without a link; a link is the error exactly when all else is right |
| ChatStore.Chat.CreateMessage | internal/server/server.go:1112-1124 | stores exactly a member's acceptable text, trimmed, unread and last, and moves last_message_at; a payload error comes before the membership error |
| ChatStore.Chat.NoStoredLinks | internal/server/server.go:1159-1161 | no stored message has one of the three link prefixes at any place, in any case |
| ChatStore.Chat.MarkMessagesRead | internal/database/db/chat.sql.go:146-152 | marks what others sent in the conversation and nothing else, so the reader's count is zero |
| ChatStore.Chat.ShowMessages | internal/server/server.go:892-920 | only a member is shown the page, in reading order, and only a member's reading marks |
| ChatStore.Chat.UnreadCountIsSinceRead | internal/database/db/match.sql.go:78-79 | over the handlers' own history the stored flags give the count of messages since the last read |
| MessagePages.ReverseInPlace | internal/server/server.go:918-920 | the two-index loop reverses the array |
| MessagePages.PageIs | internal/database/db/chat.sql.go:95-102 | a page is the newest stretch of what its cursor leaves, as long as the limit allows |
| MessagePages.WalkIsHistory | internal/server/server.go:902-920 | pages joined are the history as it stood at the first page, each message once and in order, whatever is added meanwhile; a short page completes it |
| MessagePages.WalkEnds | internal/server/server.go:902-920 | a walk has at most one page more than the history has messages and ends exactly when the history is complete |
| PhotoProtocol.RunKeeps | internal/server/server.go:584-675 | the invariant holds after every interleaving of uploads, deletions, failures, crashes and lost replies |
| PhotoProtocol.DeadExactly | internal/server/server.go:639-648 | a stored photo row lacks its object if and only if its upload was told the upsert failed though it took effect, and then deleted the object |
| PhotoProtocol.RowsAreLive | internal/server/server.go:622-673 | as long as a reported error means nothing was written, every row has its object |
| PhotoService.UploadKeepsNoLeak | internal/server/server.go:622-651 | a successful upload keeps stored objects exactly those the rows refer to |
| PhotoService.DeleteKeepsNoLeak | internal/server/server.go:661-673 | so does a deletion |
| PhotoService.SerialRunsDoNotLeak | internal/server/server.go:622-673 | and so every serial run without failures |
| PhotoService.PhotoStore.RemoveProfilePhotoObject | internal/server/server.go:1447-1453 | removes at most the object its URL maps to |
| PhotoService.PhotoStore.UploadProfilePhoto | internal/server/server.go:584-653 | new table, store and reply for every outcome of every call to table and store, lost replies included, and no leak when all succeed |
| PhotoService.PhotoStore.DeleteProfilePhoto | internal/server/server.go:655-675 | the same for deletion |
| PhotoService.UploadIsRun | internal/server/server.go:622-651 | an upload alone in the protocol does what the handler does |
| PhotoService.DeleteIsRun | internal/server/server.go:661-673 | a deletion alone in the protocol does what the handler does |
| PhotoService.LostReplyKillsRow | internal/server/server.go:644-648 | a run in which a lost reply leaves a row without its object |
| PhotoService.UploadKillsItsRowExactly | internal/server/server.go:632-648 | an upload alone leaves its own row dead if and only if the upsert took effect, was reported as failed, and the clean-up worked |
| PhotoService.OverlapLeaks | internal/server/server.go:622-651 | a run without failures in which overlapping uploads leave an unused object, so the condition below is needed |
| PhotoLeaks.StepKeeps | internal/server/server.go:622-673 | every step without a failure keeps account of why each object is stored and of who read what left its row |
| PhotoLeaks.NoLeakExactly | internal/server/server.go:622-673 | after any overlap of uploads and deletions without failures, the stored objects are exactly those the rows refer to if and only if every object an upsert took from its row had been read as the old one by some upload |
| PhotoLeaks.UndisturbedDoesNotLeak | internal/server/server.go:622-651 | in particular when each upsert overwrote what its upload had read |
| PathClean.SplitJoin | internal/storage/storage.go:81 | splitting at slashes undoes joining |
| PathClean.BelowClean | internal/storage/storage.go:81 | cleaning a path first does not change where it leads below the root |
| PathClean.CleanUnderRoot | internal/storage/storage.go:81 | Clean("/" + Clean(k)) equals Clean("/" + k) |
| CleanRules.DropsInside | internal/storage/storage.go:81 | inside a path Clean drops a doubled slash, a "." and a name followed by "..", whatever stands around them |
| CleanRules.DropsAtEnds | internal/storage/storage.go:81 | it drops ".." at the root, a leading "./" and a trailing slash |
| CleanRules.CleanIsNormal | internal/storage/local.go:35 | its result has none of these left, and a path is its own result exactly when it has none |
| UrlParse.PathPartLength | internal/storage/local.go:54 | plain text parses to itself, any other to something shorter or to an error |
| UrlParse.ParseWithBase | internal/storage/local.go:54-59 | after a scheme and a host with an optional port of digits the path is parsed on its own |
| UrlRules.UnescapeExactly | internal/storage/local.go:54 | percent-decoding gives a text if and only if its input writes that text character by character or as '%' and two digits of either case |
| UrlRules.UrlLeadsTo | internal/storage/local.go:53-68 | a URL below /uploads/ leads to the key that its path writes and to no other, whatever query or fragment follows |
| UrlRules.ForeignUrls | internal/storage/local.go:58-67 | a URL of another host, or of the own host outside /uploads/, leads to no key |
| UrlRules.ForeignToBucket | internal/storage/r2.go:81-83 | nor does a URL of another host lead to a key of the bucket |
| UrlRules.FileExactly | internal/storage/storage.go:80-98 | a key is refused if and only if it leads to the root, a component has ".." in it, or the root is that of the file system; else its file is its components below the root |
| StoreUrls.LocalStore.Put | internal/storage/local.go:24-40 | writes only the file of an accepted key and returns its URL |
| StoreUrls.LocalStore.Delete | internal/storage/local.go:42-51 | removes only the file of an accepted key |
| StoreUrls.LocalStore.RemoveByURL | internal/server/server.go:1447-1453 | removing by the URL that Put returned removes the file that Put wrote |
| StoreUrls.LocalRoundTrip | internal/storage/local.go:53-68 | for every accepted key the key read back names the same file if and only if the cleaned key is free of %, ?, # and control characters |
| StoreUrls.EscapedKeyLeadsElsewhere | internal/storage/local.go:53-68 | an accepted key with a percent sign is read back as the key of another file |
| StoreUrls.KeysMayDiffer | internal/storage/local.go:35 | the two keys can differ and still name one file |
| BasePaths.RoundTripUnderPath | internal/storage/local.go:24-68 | under any base path, for every accepted key, the key read back names the same file if and only if that path is empty or under /uploads, the cleaned key is plain, and it goes up as often as the path goes down |
| BasePaths.BaseWithPathLosesKeys | internal/storage/local.go:64-67 | under a base URL with a path no cleaned key that does not go up leads back to its file |
| BasePaths.DecodedElsewhere | internal/storage/local.go:64-67 | decoded under a plain directory, a path that is not plain never leads where it says |
| StoreUrls.R2RoundTrip | internal/storage/r2.go:72-89 | the bucket's key is read back if and only if it is plain, not empty, not rooted and without ".." |
| StoreUrls.PhotoKeysRoundTrip | internal/storage/storage.go:52-64 | keys made for detected extensions are accepted and read back unchanged by both stores |
| StoreUrls.EveryPhotoRoundTrips | internal/storage/storage.go:52-78 | so for the text of every user id, every position and every random nonce |
| PhotoKeys.KeyTells | internal/storage/storage.go:52-64 | equal photo keys are of one user, one position, the same random bytes and one extension |
| PhotoKeys.FreshBytesFreshKey | internal/storage/storage.go:59-63 | random bytes that no earlier upload drew give a key, a file and a URL that none of them has |
| Uuids.TextShape | internal/storage/storage.go:63 | the text of an id is its bytes in five groups of 8, 4, 4, 4 and 12 digits |
| Presence.OpenMeansOnline | internal/server/server.go:989-1015 | with ticks delayed by less than 25 s, a user with an open connection is online unless another of its connections closed within a refresh interval and that delay |
| Presence.OnlineMeansRecentSet | internal/server/server.go:1612-1615 | online means some set in the last 45 s |
| Presence.GapIsTight | internal/server/server.go:989-991 | the exception lasts as long as stated, for every delay |
| Presence.OnlineExactly | internal/server/server.go:989-1015 | at any time of any run a user is online if and only if the key was set in the last 45 s and no connection has closed since |
| Presence.ClosedOnlineExactly | internal/server/server.go:971-1007 | a user with no open connection is online if and only if the key was set in the last 45 s, with no close since, by a tick of a connection that had already deleted it or by a connection that then ended with its process |
| Presence.OpenOfflineExactly | internal/server/server.go:989-1015 | a user with an open connection that ticks in time is offline if and only if a connection has closed and none has set the key since |
| Presence.LateTickLingers | internal/server/server.go:1004-1007 | a run in which such a tick does it, for 45 s and no longer |
| Presence.DeadProcessLingers | cmd/api/main.go:98-102 | a process that ends with an open connection leaves the user online until 45 s after the last set |
| RateLimiter.KeyedLimiter.Allow | internal/server/ratelimit.go:26-35 | a bucket made at first use answers as one full from the start; in time order a call is refused exactly when some window of its key is full |
| RateLimiter.RefusedExactly | internal/server/ratelimit.go:26-35 | for calls of a key in time order, a call is refused if and only if some window that ends with it has already had the burst and one grant a period |
| RateLimiter.KeysIndependent | internal/server/ratelimit.go:26-35 | a key's answers do not depend on other keys' calls |
| RateLimiter.Potential | internal/server/ratelimit.go:26-35 | in whatever order calls reach the bucket, grants of a window and what is left exceed a full bucket by no more than the time gone and the steps back |
| RateLimiter.WindowBound | internal/server/server.go:127-132 | when the grants of a key come in the order of their times, it is granted at most the burst and one call a period in any window |
| RateLimiter.WindowBoundAnyOrder | internal/server/ratelimit.go:33-34 | in any order, a key is granted at most the burst and what the window and the steps back refill |
| RateLimiter.ExceededMeansInverted | internal/server/ratelimit.go:33-34 | a key that exceeded the bound had two grants out of order |
| RateLimiter.OneTickExceeds | internal/server/ratelimit.go:33-34 | for every rate with a burst of two or more, a swap by one tick exceeds it |
| RateLimiter.BoundedInAnyOrderExactly | internal/server/ratelimit.go:26-35 | the bound holds for every run, key and window in any order if and only if the burst is at most one |
| DiscoveryRuns.ListedExactly | internal/database/db/profile.sql.go:201-224 | after any run from empty tables a user is listed to another if and only if its last effective change of visibility showed it, the viewer has not swiped it, neither blocks the other, and the birthdays gone by lie within the viewer's last accepted bounds, birth date or bounds missing aside |
| DiscoveryRuns.LaterTouchedFirst | internal/database/db/profile.sql.go:222 | of two listed users the one whose profile was last saved, shown or hidden later stands first |
| DiscoveryRuns.RefusedExactly | internal/server/server.go:799-812 | after any run a swipe is refused as repeated exactly when the pair was swiped before, and otherwise only for being of oneself or between non-users |
| Discovery.ListedCanBeSwiped | internal/server/server.go:792-820 | whoever is listed can be swiped without any violation |
| Discovery.SwipedNeverListedAgain | internal/database/db/profile.sql.go:206-211 | and is then never listed to that viewer again, whatever happens |
| Discovery.BlocksAre | internal/server/server.go:717-753 | a block stands exactly when the last of its blocks and unblocks was a block |
| Discovery.BlocksHideBoth | internal/database/db/profile.sql.go:212-216 | a standing block by either side hides both, and nothing but standing blocks does |
| Discovery.ProfileStore.BlockUser | internal/database/db/profile.sql.go:15-19 | adds the block unless it is of oneself or of nobody, and from then on neither is eligible for the other |
| Discovery.ProfileStore.UnblockUser | internal/database/db/profile.sql.go:301-303 | takes back only one's own block: the other's stands |
| Discovery.ProfileStore.UpsertProfile | internal/server/server.go:474-508 | stores exactly what fits, breaks no CHECK of the columns, and leaves visible as it was, false for a new row |
| Discovery.ProfileStore.UpdateProfileVisibility | internal/database/db/profile.sql.go:315-321 | changes exactly a profile with course and campus, and reports whether it did |
| Discovery.ProfileStore.UpsertPreferences | internal/server/server.go:543-566 | stores exactly an allowed interest with bounds within 18 to 99 |
| Discovery.ShownAgeIsWanted | internal/database/db/profile.sql.go:217-221 | the age shown satisfies the viewer's preferences |
| Discovery.PagesPartition | internal/database/db/profile.sql.go:222-224 | on unchanged tables with distinct updated_at, offset pages partition the eligible users |
| GoogleIdentity.StepKeeps | internal/server/server.go:1381-1421 | every statement of any callback, and every registration, keeps the invariant |
| GoogleIdentity.EmailsStayUnique | migrations/00001_init.sql:4-22 | in every interleaving emails are unique across password and Google accounts, and links point to users |
| GoogleIdentity.EmailOkExactly | migrations/00001_init.sql:11 | the CHECK admits exactly a non-empty text without '@', an '@' and any text after it |
| GoogleIdentity.DisplayNameIs | internal/server/server.go:1400-1403 | a new account is named as Google says, or else by the part of the email before its first '@' |
| GoogleIdentity.LinksNeverChange | internal/database/db/auth.sql.go:131-135 | no committed link or user is ever changed or removed |
| GoogleIdentity.NewLookupExact | internal/database/db/auth.sql.go:66-71 | a lookup finds the link exactly when an earlier commit made it |
| GoogleIdentity.ReturnsLinkedUserExactly | internal/server/server.go:1381-1421 | a callback that commits leaves its subject linked, and returns the linked user unless another callback linked it, with another email, after this one looked |
| GoogleIdentity.LaterCallbacksAgree | internal/server/server.go:1391-1395 | after one committed callback every later one of the subject returns the linked user, whatever email Google gives |
| GoogleCallbacks.AloneKeeps | internal/server/server.go:1400-1420 | alone, a callback returns the linked user, and a first one joins the account its email has, left as it is |
| GoogleCallbacks.AgainSameUser | internal/server/server.go:1391-1395 | from then on the subject's callbacks change nothing and return that user |
| GoogleCallbacks.IdentityStore.UpsertGoogleUserByEmail | internal/database/db/auth.sql.go:148-154 | returns the email's account unchanged, or inserts one if the email is well formed |
| GoogleCallbacks.IdentityStore.LinkGoogleIdentity | internal/database/db/auth.sql.go:131-135 | keeps an existing link |
| GoogleCallbacks.IdentityStore.UpsertGoogleUser | internal/server/server.go:1381-1421 | the code refines the serial specification and keeps emails unique |
| GoogleCallbacks.IdentityStore.Register | internal/server/server.go:275-290 | registers exactly a well-formed email that no account has, and changes no other row |
| GoogleCallbacks.AloneIsOneCall | internal/server/server.go:1381-1421 | after any history, the protocol's steps for one callback with no other open end as the serial specification says |
| GoogleOverlap.OverlapReturnsUnlinkedUser | internal/server/server.go:1391-1420 | for any two profiles of one subject with different emails, an overlap returns the second a user its subject is not linked to |
| Uuids.TextOrderIsByteOrder | internal/server/server.go:1580-1585 | comparing lower-case hyphenated text is comparing the sixteen bytes |
| Uuids.NormalizePairOrders | migrations/00001_init.sql:76-83 | for distinct users the pair is symmetric, holds both, and satisfies the CHECK |
| Uuids.ValueOfPair | internal/server/server.go:1580-1585 | identifying a UUID with its value keeps equality, order and the chosen pair |
| Age.AgeCountsBirthdays | internal/server/server.go:1592-1603 | the age shown is the number of birthdays passed, 29 February counting as 1 March in common years |
| Age.AgeIsSqlYear | internal/database/db/profile.sql.go:220 | it is the year of SQL's AGE |
| Age.AgeMonotone | internal/server/server.go:1592-1603 | it never goes down |
| Age.DaysFollow | internal/server/server.go:1592-1603 | the months and leap years behind ages count the days: each date's successor is one day later, 97 leap days in 400 years |

## Left out

- HTTP routing, cookies, JSON, multipart parsing, CORS, Swagger, health check: I/O plumbing.
- Password hashing, session tokens, random bytes, image sniffing, the S3, Redis and Google clients: foreign code; keys, ids and nonces are inputs, publication is a count.
- internal/config, internal/apperror and cmd: lookups and wiring that would add only easy members.
- PostgreSQL locks, deadlocks and liveness: a conflicting insert waits, and every step may instead be an abort; deletion of users with its cascades does not occur in these handlers.
- Match notifications (internal/server/server.go:1228-1245) and typing events: sent after the commit and stored nowhere.
- emailAllowed and the verified-email check: they stand before the modelled transaction and only refuse; letter case is taken as already lowered.
- SwipeProtocol.AlwaysConsistent: UNIQUE keys that a statement uses are map keys or waiting; the primary keys of swipes are not modelled.
- MatchLists.SameLists: the unread count is a column of the conversation list alone; it is in Reading.
- MessagePages.WalkIsHistory: timestamps of a conversation are distinct, as exact paging with ties is not kept by the code; limits are in 1 to 100, as internal/server/server.go:1641-1646 makes them; is_read is not a column of these rows.
- Reading.UnreadIsSinceRead: serial runs; a mark covers the whole conversation, not only the page shown.
- PhotoProtocol.DeadExactly: a URL is abstract there, StoreUrls relates it to text; keys are new by assumption.
- StoreUrls.LocalRoundTrip: file-system errors, and a file that stands where a directory is needed, are not modelled; the base URL has no path (BasePaths.RoundTripUnderPath has one), and the separator is "/".
- UrlParse.ParseWithBase: net/url is modelled for the URLs the stores build: schemes of letters, hosts of letters, digits, dots and hyphens with an optional port, no user information; a string is taken as bytes.
- Presence.OpenMeansOnline: Redis calls succeed and take no time; a ping failure that stops the ticker while the read loop still waits counts as a late tick.
- RateLimiter.WindowBound: the library's bucket in integer units; each call takes effect when it takes the bucket's lock, with a time read before.
- Texts.PayloadOkExactly: strings are valid UTF-8; the JSON key check before it (internal/server/server.go:1484-1499) is parsing.
- PhotoLeaks.NoLeakExactly: runs without failures; with failures objects also stay behind whenever a delete fails.
- Discovery.PagesPartition: the offset fits in 32 bits, as the handler converts it unchecked; viewers who swipe between pages shift them.
- Discovery.BlocksHideBoth: blocks are consulted only by discovery, so blocked users can still swipe and chat; a visible profile may have had its course or campus cleared.
- Age.AgeIsSqlYear: one shared calendar date and a birth date not in the future; time zones and daylight saving are left out.
- GoogleIdentity.ReturnsLinkedUserExactly: serialization failures do not arise at READ COMMITTED; row locks on an existing user only remove interleavings.
