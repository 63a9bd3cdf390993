# XLeaks node: verified model

XLeaks is a peer-to-peer social node. This project models the parts of it that keep state consistent while
messages arrive in any order, content comes and goes, goroutines interleave and file operations fail, and proves
what they promise on every input, every run or every interleaving. `dafny verify dfyconfig.toml` checks all of it.

| file | part of the node | main results |
|---|---|---|
| `Wrappers.dfy`, `Sets.dfy`, `Sequences.dfy`, `Streams.dfy` | shared | options and results, counting, sorting, byte streams that fragment or break |
| `Bits.dfy`, `Bech32.dfy`, `Remainder.dfy` | checksum of addresses | the register is a polynomial remainder; six-symbol bursts are detected at any length; the checksum is unique |
| `Vectors.dfy`, `Powers.dfy`, `ErrorDetection.dfy`, `KnownAnswer.dfy` | checksum of addresses | two addresses that differ in at most three characters, wherever they are, are not both accepted; the address of a given key |
| `ConvertBits.dfy`, `Address.dfy` | bit regrouping and addresses | the wrapping accumulator computes bit-string regrouping; round trip; the accepted texts are exactly the addresses of keys |
| `Replication.dfy`, `SignedPosts.dfy`, `FailingLikes.dfy` | posts, likes and their counts | delivery-order convergence; exactly when two runs, and when all orders, agree on the posts, with and without signatures; which likes are stored when inserts fail |
| `Profiles.dfy`, `ProfileRaces.dfy` | profile updates | the highest version wins, in every interleaving; delivery order is irrelevant if and only if no author has two profiles of the highest version; how much overlap the content store survives |
| `Follows.dfy` | follow events and their counts | follows are conserved; exactly when two deliveries, and when all orders, agree |
| `Recounting.dfy`, `CountRaces.dfy` | counts under concurrency | settled counts are right in every run if and only if recounts of one key do not overlap |
| `PinPolicy.dfy`, `Eviction.dfy`, `PinRaces.dfy` | pins and storage pressure | pins right in every run of whole steps; the eviction loop; statement by statement, exactly which pinned posts are safe and how much overlap the pins survive |
| `SingleFlight.dfy` | concurrent content fetches | one leader per id, results shared, concurrency and backoff, in every interleaving |
| `WsHub.dfy` | WebSocket hub | slots bounded, no double close, no send on a closed channel, in every interleaving |
| `FixedWindow.dfy`, `RateLimit.dfy`, `RouteLimit.dfy` | rate limiters | bound over every interval of every run, through the whole middleware |
| `ReplayFilter.dfy` | replay cache and message filter | spacing of admitted messages over every run |
| `Threads.dfy` | reply threads | the tree holds the root and every transitive reply exactly once |
| `Chunking.dfy`, `Framing.dfy` | media chunks, content transfer | any permutation reassembles; streamed receiving refines buffered receiving; framing round trips |
| `KeyRename.dfy` | renaming a migrated key file | no fault pattern loses a key; exactly when the next unlock finds it |
| `Conversations.dfy` | conversation list | one entry per other party, newest message, exact unread count |

## How the model is built

* An object whose methods update its fields is a class. Each of its methods is proved equal to a step function on
  a value (`PostStep`, `FollowChanged`, `Allowed`, `Fixed`, ...), and the theorems about whole runs are lemmas about
  those functions. Loops stay loops.
* Concurrent code is a transition system: each section under a mutex and each channel operation is one step, and a
  run is any sequence of steps. The locked sections themselves are methods of `ContentExchange` and `WSHub`, proved
  to perform exactly one step.
* Each module says what its steps are. In `Replication`, `Follows`, `Profiles` and `PinPolicy` a handler or a follow
  change is one step and runs are sequences of those; the source holds no lock over a whole handler, so statements of
  different handlers can interleave. `CountRaces`, `ProfileRaces` and `PinRaces` make each statement a step of its own and
  say which of the results survive.
* SQL statements have their map or set meaning: a primary key is a map key, `INSERT OR IGNORE` and upserts are
  conditional map updates, `COUNT` is the size of a set, ties in `ORDER BY` may come in any order.
* Time is an integer parameter. The hash of content is a function parameter (`hash`, `decode`, `sum`); where ids
  must not collide, that is a stated hypothesis (`CollisionFree`).
* A fault is a parameter (`Faults`, `callbackOk`, `Reader.broken`, `Writer.room`) or a step (`Recounting.Fail`,
  `ProfileRaces.Fail`).

## What turned out not to hold

* Replay spacing holds for the moments at which the filter admits messages. For the moments at which the handler
  runs it holds if and only if the handler is called without delay: `ReplayFilter.SpacedIffPrompt`, with the run in
  `ReplayFilter.LateHandler`.
* The pin invariant breaks when a topic callback fails, because `changeFollowState` returns before it recomputes
  the pins: `PinPolicy.FailedCallback` says exactly when, `PinPolicy.FailedCallbackUnpins` gives a case.
* After a failed key rename the next unlock may not find the key: `KeyRename.ConsistentIffNotStranded` says exactly when, `KeyRename.RollbackStrands` gives a case. No key contents are ever lost.
* Follow events are kept by arrival and not by timestamp, so they do not converge in general:
  `Follows.SameRowsIffSameLast` says exactly when two deliveries agree, `Follows.OrderIrrelevantIff` for which events all
  orders do, `Follows.StaleUnfollowWins` gives a case.
* A post that arrives only before its author's profile is lost, because of the foreign key:
  `Replication.PostsConvergeIff` says exactly when two runs agree on the posts, `Replication.EarlyPostLost` gives a
  case.
* Two profiles with the same highest version do not converge: `Profiles.ConvergesIffUniqueTop`.
* A post's id does not fix its stored signature, since the id hashes the post without it. The first admitting delivery
  decides: `SignedPosts.SignatureIsFirst`. `SignedPosts.SignedConvergeIff` says when two runs agree on the signed posts,
  `SignedPosts.OrderIrrelevantIff` for which messages all orders do.
* Counts go wrong when recounts of one target overlap: `CountRaces.ReactionCountsSurviveIff` and
  `CountRaces.FollowCountsSurviveIff` say that settled counts are right in every run if and only if at most one recount of
  a key is between its first count and its upsert; `CountRaces.RacingRepliesLoseOne` and `CountRaces.RacingFollowsLoseOne`
  are runs that end with a wrong count and no recount under way.
* The content store can be left with an older profile than the table: `ProfileRaces.StoreSurvivesIff` says how much overlap
  of handlers it survives, `ProfileRaces.OlderObjectStays` gives a run. The table itself is right in every interleaving.
* A followed author's posts can be left unpinned when two decisions about the author overlap, and then be evicted:
  `PinRaces.PinsSurviveIff` says how much overlap the pins survive, `PinRaces.StaleDecisionUnpins` and
  `PinRaces.StaleDecisionLoses` are such runs.
* An eviction pass deletes what it listed without looking at the pins again, so a post can be lost after its author was
  followed: `PinRaces.FollowAfterListLoses`. `PinRaces.SafeIff` says exactly which pinned posts are safe.
* A like whose insert fails is not stored by a later delivery until its object is evicted: `FailingLikes.LikeStoredIff` says
  exactly which likes are stored, `FailingLikes.RetryNeedsEviction` gives a case.
* Twice the configured route limit bounds the requests of an interval if and only if the limit is at least one, because
  the first request of a window is always admitted: `RouteLimit.BoundIffPositive`.
* Comments and code disagree in two places; the model follows the code. `StartStorageManager` speaks of 90% and
  the eviction target is 0.85; BIP-173 keeps the separator out of the human-readable part and the code keeps it in.

## Model

| member | source | states |
|---|---|---|
| `Bech32.Polymod` | pkg/identity/address.go:59-72 | the nested loops compute the left fold of the register step, whose meaning the lemmas below fix |
| `Bech32.HRPExpand` | pkg/identity/address.go:74-84 | position by position: the high parts of all characters, a zero, then the low parts |
| `Bech32.CreateChecksum` | pkg/identity/address.go:86-95 | the six base-32 digits of the register after six zeros, with the low bit flipped |
| `Bech32.VerifyChecksum` | pkg/identity/address.go:97-99 | true exactly when the register ends at one |
| `Bech32.FeedLinear` | pkg/identity/address.go:62-70 | one register step is linear for exclusive or |
| `Bech32.FeedInjective` | pkg/identity/address.go:62-70 | one register step loses no information on 30-bit registers |
| `Bech32.PolymodLinear` | pkg/identity/address.go:59-72 | the register of a difference of strings is the difference of their registers |
| `Bech32.PolymodInjective` | pkg/identity/address.go:59-72 | feeding a common string keeps different registers different |
| `Bech32.BurstDetected` | pkg/identity/address.go:97-99 | for any prefix and length, two accepted strings that agree outside six consecutive symbols are equal |
| `Bech32.ChecksumUnique` | pkg/identity/address.go:86-99 | six symbols verify if and only if they are the computed checksum |
| `Remainder.NextGenerator` | pkg/identity/address.go:60-60 | each generator constant is the previous one times a in the field of 32 elements |
| `Remainder.FeedRemainder` | pkg/identity/address.go:63-69 | one step multiplies by x, adds the symbol and subtracts a multiple of the generator polynomial of BIP-173 |
| `Remainder.PolymodIsRemainder` | pkg/identity/address.go:59-72 | the register is the remainder of the string's polynomial modulo the generator polynomial, coefficient by coefficient |
| `Remainder.DivisionUnique` | pkg/identity/address.go:59-72 | quotient and remainder are determined by the string |
| `Remainder.VerifiesIffDivides` | pkg/identity/address.go:97-99 | a string verifies if and only if its polynomial is one plus a multiple of the generator polynomial |
| `Vectors.ValueMul` | pkg/identity/address.go:65-69 | the product of bit vectors is the field product behind the generator constants |
| `Powers.ScaleShift` | pkg/identity/address.go:62-70 | a register step commutes with multiplication by a symbol |
| `Powers.PowersIndependent` | pkg/identity/address.go:59-72 | no two powers of x below the 58th are proportional up to a constant |
| `ErrorDetection.ShowsShift` | pkg/identity/address.go:62-70 | feeding a zero into the register is multiplication by x of the vector it holds |
| `ErrorDetection.ThreeErrorsDetected` | pkg/identity/address.go:97-99 | up to 58 symbols, two accepted strings that differ in at most three positions are equal |
| `ErrorDetection.AddressErrorsDetected` | pkg/identity/address.go:37-57 | two accepted addresses that differ in at most three characters name the same key |
| `KnownAnswer.ShowsFeed` | pkg/identity/address.go:62-70 | feeding a symbol is multiplication by x and addition of the symbol |
| `KnownAnswer.ChecksumOfZeros` | pkg/identity/address.go:86-95 | the checksum of 52 zeros under the prefix of addresses, as six numbers |
| `KnownAnswer.ZeroKeyAddress` | pkg/identity/address.go:24-35 | the address of the key of 32 zero bytes, as a text |
| `KnownAnswer.Alphabet` | pkg/identity/address.go:10-10 | the 32 symbols as characters, in order |
| `ConvertBits.Convert` | pkg/identity/address.go:168-200 | with a wrapping 64-bit accumulator, for input of any length, the result is the regrouped big-endian bit string or the same error |
| `ConvertBits.WrapLow` | pkg/identity/address.go:178-178 | 64-bit overflow does not change the bits the loop still reads |
| `ConvertBits.RegroupNumber` | pkg/identity/address.go:168-200 | the padded groups are the digits of the same number, shifted by fewer bits than one group |
| `ConvertBits.RegroupInverse` | pkg/identity/address.go:168-200 | wider to narrower with padding and back without is the identity |
| `ConvertBits.RegroupCanonical` | pkg/identity/address.go:190-197 | what passes the padding checks is the padded regrouping of its result |
| `Address.CharsetInverse` | pkg/identity/address.go:13-22 | the reverse table inverts the charset |
| `Address.Bech32Encode` | pkg/identity/address.go:101-119 | prefix, data and checksum in charset symbols, or an error for a value above 31 |
| `Address.Bech32Decode` | pkg/identity/address.go:121-166 | each error in the order of the checks, else prefix and data before the checksum |
| `Address.Refusals` | pkg/identity/address.go:121-136 | too long exactly above 90 bytes, then a bad character exactly for one outside the printable range, then mixed case exactly for letters of both cases |
| `Address.PubKeyToAddress` | pkg/identity/address.go:24-35 | succeeds exactly on 32 bytes, with a text that decodes to the key |
| `Address.AddressToPubKey` | pkg/identity/address.go:37-57 | on success 32 bytes whose address is the lower-case form of the input |
| `Address.KeyRoundTrip` | pkg/identity/address.go:24-57 | decoding the address of any key gives the key |
| `Address.Canonical` | pkg/identity/address.go:37-57 | an accepted text is, in lower case, the address of the key it decodes to |
| `Address.AcceptedExactly` | pkg/identity/address.go:24-166 | a text decodes to a key if and only if it is that key's address in one letter case |
| `Address.AddressBurstDetected` | pkg/identity/address.go:37-57 | two accepted addresses that agree outside six consecutive characters name the same key |
| `Replication.MessageProcessor.InsertPost` | pkg/storage/posts_repo.go:23-34 | inserts unless the id exists or the author has no profile, empty references as null |
| `Replication.MessageProcessor.InsertReaction` | pkg/storage/reactions_repo.go:20-30 | ignored when the id or the author, target and type exist |
| `Replication.MessageProcessor.UpdateReactionCount` | pkg/storage/reactions_repo.go:74-114 | the target's row becomes a recount, nothing else changes |
| `Replication.MessageProcessor.HandlePost` | pkg/p2p/handlers.go:148-216 | the whole new state; the object of a post without a row is in the content store afterwards, an unknown author's included |
| `Replication.MessageProcessor.HandleReaction` | pkg/p2p/handlers.go:218-261 | the whole new state, nothing if the content store has the id, which it has afterwards |
| `Replication.MessageProcessor.HandleProfile` | pkg/p2p/handlers.go:277-292 | an accepted profile makes its author's posts storable and puts an object under the author's key |
| `Replication.MessageProcessor.EvictObject` | pkg/content/store.go:85-91 | one content object is gone, the tables are unchanged |
| `Replication.PostKeepsCounts` | pkg/p2p/handlers.go:148-216 | handling a post keeps all counts equal to a recount |
| `Replication.ReactionKeepsCounts` | pkg/p2p/handlers.go:218-261 | handling a reaction keeps all counts equal to a recount |
| `Replication.CountsAlwaysAgree` | pkg/storage/reactions_repo.go:74-114 | after every run of handlers one at a time, with evictions, the stored counts equal a recount, a missing row read as zero |
| `Replication.RunTracks` | pkg/p2p/handlers.go:148-261 | after any run the tables hold exactly the posts delivered at least once after their author's profile and the delivered likes |
| `Replication.LikesAreLikers` | pkg/storage/schema.go:72-79 | the like rows of a target are as many as its distinct liking authors |
| `Replication.FinalCounts` | pkg/p2p/handlers.go:148-261 | final counts in terms of the delivered messages: distinct likers, admitted replies, admitted reposts |
| `Replication.PostsConvergeIff` | pkg/p2p/handlers.go:148-216 | two runs end with the same posts, signatures aside, if and only if the same posts were delivered at least once after their author's profile |
| `Replication.ConvergesAdmitted` | pkg/p2p/handlers.go:148-261 | runs that admit the same posts and deliver the same likes end with the same posts, signatures aside, and counts |
| `Replication.Converges` | pkg/p2p/handlers.go:148-261 | with the profiles stored, the same posts and likes in any order, with repetition and evictions, give the same posts, signatures aside, and counts |
| `Replication.EarlyPostLost` | pkg/storage/schema.go:31-41 | a post that arrives only before its author's profile has no row, though its object is in the content store |
| `SignedPosts.SignatureIsFirst` | pkg/p2p/handlers.go:153-174 | in every run the stored signature of an id is that of its first delivery after the author's profile |
| `SignedPosts.ArrivalIsFirst` | pkg/storage/posts_repo.go:23-34 | in every run the stored arrival time of an id is that of its first delivery after the author's profile |
| `SignedPosts.StoreHolds` | pkg/p2p/handlers.go:158-165 | in every run the content store holds an id exactly when the last step that puts or evicts it is a put, a post being put by each delivery made before it has a row |
| `SignedPosts.SignedConvergeIff` | pkg/p2p/handlers.go:148-216 | two runs end with the same posts, signatures included, if and only if they admit the same posts and each id's first admitting delivery carries the same signature |
| `SignedPosts.OrderIrrelevantIff` | pkg/p2p/handlers.go:148-216 | all orders of delivery give the same posts, signatures included, if and only if no author's profile arrives on the way and no post of a known author comes with two signatures |
| `FailingLikes.StoreBlocks` | pkg/p2p/handlers.go:224-234 | the content store holds an id exactly when its last step is a delivery and not an eviction |
| `FailingLikes.LikesStored` | pkg/p2p/handlers.go:224-241 | in every run with failing inserts the stored likes are those of the effective deliveries |
| `FailingLikes.LikeStoredIff` | pkg/p2p/handlers.go:224-241 | a like is stored if and only if a delivery of one by that author was not blocked by an object and its insert did not fail |
| `FailingLikes.LikeCount` | pkg/p2p/handlers.go:224-249 | the likes of a target are as many as its authors with an effective delivery |
| `FailingLikes.SameLikesIff` | pkg/p2p/handlers.go:224-241 | two runs store the same likes if and only if the same authors have effective deliveries for the same targets |
| `FailingLikes.RetryNeedsEviction` | pkg/p2p/handlers.go:224-241 | a failed insert is made good by a later delivery only after an eviction |
| `Profiles.ProfileStore.UpsertProfile` | pkg/storage/profiles_repo.go:22-41 | the row is replaced exactly by a higher version |
| `Profiles.ProfileStore.HandleProfile` | pkg/p2p/handlers.go:263-305 | stale and repeated versions change nothing, others reach table and content store |
| `Profiles.RunHighest` | pkg/p2p/handlers.go:268-292 | after any run of handlers one at a time each author's row is a delivered profile of the highest delivered version, and the content store agrees with the table |
| `Profiles.StoreHolds` | pkg/p2p/handlers.go:268-284 | the content store holds an author's object exactly when the last step that puts or evicts it delivered a higher version than all before |
| `Profiles.VersionsGrow` | pkg/p2p/handlers.go:268-275 | along a run a row never disappears and changes only to a higher version |
| `Profiles.FirstTopStays` | pkg/p2p/handlers.go:268-275 | of several profiles of the highest version the first to arrive stays |
| `Profiles.ConvergesIffUniqueTop` | pkg/p2p/handlers.go:263-305 | all delivery orders of a set of profiles agree if and only if no author has two different ones of the highest version |
| `ProfileRaces.TableAlwaysRight` | pkg/p2p/handlers.go:268-292 | in every interleaving, failing handlers included, whatever arrived is under way, lost, or no higher than the row, and every row arrived |
| `ProfileRaces.SettledHighest` | pkg/p2p/handlers.go:268-292 | with nothing under way or lost, each row is an arrived profile of the highest version |
| `ProfileRaces.SettledConverge` | pkg/p2p/handlers.go:263-305 | settled runs that received the same profiles, no author with two of the highest version, have the same table |
| `ProfileRaces.StoreSurvivesIff` | pkg/p2p/handlers.go:268-292 | if nothing fails, the content store agrees with the table for every settled author in every run with at most k overlapping handlers of one author, if and only if k is at most one |
| `ProfileRaces.OlderObjectStays` | pkg/p2p/handlers.go:268-292 | two versions pass the guard together and the older object is stored last: the table has the newer version, the content store the older |
| `Follows.FollowStore.InsertFollowEvent` | pkg/storage/subscriptions_repo.go:155-168 | one row per author and target, replaced by the arriving event |
| `Follows.FollowStore.UpdateFollowerCount` | pkg/storage/subscriptions_repo.go:288-319 | the key's row becomes a recount of both directions |
| `Follows.FollowStore.HandleFollow` | pkg/p2p/handlers.go:307-330 | event stored, both parties recounted |
| `Follows.CountsAlwaysAgree` | pkg/storage/subscriptions_repo.go:288-319 | after every run of handlers one at a time the counts equal a recount, a missing row read as zero |
| `Follows.FollowsConserved` | pkg/storage/subscriptions_repo.go:288-319 | after every such run total followers, total following and the rows with action follow are the same number |
| `Follows.FinalFollowCounts` | pkg/storage/subscriptions_repo.go:288-319 | a key's followers are as many as those whose last event to it is a follow, and likewise whom it follows |
| `Follows.RowIsLast` | pkg/storage/subscriptions_repo.go:155-168 | the row of a pair is the event delivered last for it |
| `Follows.SameRowsIffSameLast` | pkg/storage/subscriptions_repo.go:155-168 | two runs end with the same rows if and only if every pair has the same last event |
| `Follows.OrderIrrelevantIff` | pkg/storage/subscriptions_repo.go:155-168 | all orders of delivery of a set of events end with the same rows if and only if no pair has two different events |
| `Follows.StaleUnfollowWins` | pkg/storage/subscriptions_repo.go:155-168 | an older unfollow that arrives later replaces a newer follow |
| `Recounting.ReadingsTrue` | pkg/storage/reactions_repo.go:74-114 | in every interleaving of statements what is stored or in hand was true of the version it was counted on |
| `Recounting.RightIffBasis` | pkg/storage/reactions_repo.go:74-114 | a stored value is right if and only if the counted value is the same now as on the version behind it |
| `Recounting.OrderedRight` | pkg/storage/reactions_repo.go:74-114 | if nothing fails and upserts follow the order of their counts, a key without a recount under way is right |
| `Recounting.LockedOrdered` | pkg/storage/reactions_repo.go:74-114 | a lock per key from the first count to the upsert puts the upserts in order |
| `Recounting.OvertakenStale` | pkg/storage/reactions_repo.go:74-114 | when a later recount stores its result first, the row ends with the older values |
| `Recounting.OneAtATimeRight` | pkg/storage/reactions_repo.go:74-114 | recounts of a key one at a time leave every row right that has none under way |
| `Recounting.OvertakingWrong` | pkg/storage/reactions_repo.go:74-114 | two overlapping recounts are enough for a wrong row |
| `Recounting.FailedStale` | pkg/p2p/handlers.go:236-249 | a recount that fails leaves the row as it was |
| `CountRaces.PostCovers` | pkg/p2p/handlers.go:168-207 | storing a post changes counts only of the posts whose recount the handler starts |
| `CountRaces.ReactionCovers` | pkg/p2p/handlers.go:236-249 | storing a reaction changes counts only of its target |
| `CountRaces.ReactionCountRightIff` | pkg/storage/reactions_repo.go:74-114 | in every interleaving what a wrong count means: a like, reply or repost was stored since the count in the row, and conversely |
| `CountRaces.ReactionCountsOrdered` | pkg/storage/reactions_repo.go:74-114 | with ordered recounts every target without a recount under way is right |
| `CountRaces.ReactionCountsSurviveIff` | pkg/storage/reactions_repo.go:74-114 | if nothing fails, every target without a recount under way has the right counts in every run with at most k overlapping recounts of one target, if and only if k is at most one |
| `CountRaces.RacingRepliesLoseOne` | pkg/p2p/handlers.go:192-199 | two replies whose recounts overtake each other leave a count of one |
| `CountRaces.EventCovers` | pkg/p2p/handlers.go:312-328 | storing a follow event changes counts only of its two parties |
| `CountRaces.FollowCountRightIff` | pkg/storage/subscriptions_repo.go:288-319 | in every interleaving what a wrong count means: follows gained and lost since the count in the row do not balance, and conversely |
| `CountRaces.FollowCountsOrdered` | pkg/storage/subscriptions_repo.go:288-319 | with ordered recounts every key without a recount under way is right |
| `CountRaces.FollowCountsSurviveIff` | pkg/storage/subscriptions_repo.go:288-319 | the same for follower and following counts |
| `CountRaces.RacingFollowsLoseOne` | pkg/p2p/handlers.go:312-328 | two new followers whose recounts overtake each other are counted as one |
| `PinPolicy.PinStore.ShouldPin` | pkg/storage/content_access_repo.go:125-131 | true exactly for a local identity or a key some local identity subscribes to |
| `PinPolicy.PinStore.TrackContentAccess` | pkg/storage/content_access_repo.go:13-35 | time and count of the row, its pin raised but never cleared, and no other row changed |
| `PinPolicy.AccessedIsNewest` | pkg/storage/content_access_repo.go:13-35 | after an access no row is newer than the accessed one |
| `PinPolicy.PinStore.TrackContentForAuthor` | pkg/storage/content_access_repo.go:143-149 | row touched with the author's pin decision |
| `PinPolicy.PinStore.SetPinnedForAuthor` | pkg/storage/content_access_repo.go:196-221 | the author's key and posts get the pin value, missing rows are created |
| `PinPolicy.PinStore.HandlePost` | pkg/p2p/handlers.go:153-182 | storing a post tracks it with the author's pin decision |
| `PinPolicy.PinStore.HandleProfile` | pkg/p2p/handlers.go:277-295 | an accepted profile makes its author known and is tracked with the author's pin decision |
| `PinPolicy.PinStore.ReloadSubscriptions` | pkg/feed/manager.go:34-51 | the runtime set becomes the keys followed in the owner's and the ownerless subscription rows, or in all rows if no owner is given |
| `PinPolicy.PinStore.ChangeFollowState` | pkg/social/follows.go:106-133 | subscription changed through the runtime set, pins recomputed unless the callback fails |
| `PinPolicy.StepKeeps` | pkg/social/follows.go:106-133 | every step keeps each stored post pinned exactly when its author should be |
| `PinPolicy.PinsAlwaysRight` | pkg/storage/content_access_repo.go:125-149 | the pin invariant in every run of whole steps from an empty store, profiles arriving at any time |
| `PinPolicy.NeverEvictedWhileFollowed` | pkg/feed/replicator.go:199-207 | in every run of whole steps a stored post stays stored and pinned for as long as its author is local or followed |
| `PinPolicy.FailedCallback` | pkg/feed/manager.go:79-132 | after a failed callback the pins are right if and only if, before the call, the target had no posts, was local, or was followed in a way that the change leaves as it is |
| `PinPolicy.FailedCallbackUnpins` | pkg/feed/manager.go:97-101 | a first follow whose callback fails leaves the author's post unpinned |
| `Eviction.Replicator.GetLRUContent` | pkg/storage/content_access_repo.go:59-81 | unpinned ids, oldest access first, no older one left out, all of them if fewer than the limit |
| `Eviction.Replicator.DirSize` | pkg/content/store.go:103-113 | the sum of the sizes of the stored objects |
| `Eviction.Replicator.Delete` | pkg/content/store.go:85-91 | the object is gone, or the deletion fails and nothing changed |
| `Eviction.Replicator.DeleteContentAccess` | pkg/storage/content_access_repo.go:84-90 | the row is gone, or the statement fails and nothing changed |
| `Eviction.Replicator.EvictItems` | pkg/feed/replicator.go:204-207 | each object and each row of the batch goes unless its deletion fails, and nothing else does |
| `Eviction.Replicator.EvictStaleContent` | pkg/feed/replicator.go:131-156 | one batch: only unpinned tracked content, a prefix in access order; nothing at all if the query fails |
| `Eviction.Replicator.CheckAndEvict` | pkg/feed/replicator.go:183-225 | for every fault pattern: the passes made, each a non-empty batch of the least recently used and its deletions; the loop ends exactly within the limit, at the target, with nothing unpinned, at a failing query, or after a pass that freed nothing; pinned and untracked objects untouched; removed rows a prefix in access order |
| `Eviction.FaultFreeEnd` | pkg/feed/replicator.go:199-222 | without faults it ends at or below the target, with nothing unpinned, or after a batch of absent or empty objects |
| `Eviction.SizesFall` | pkg/feed/replicator.go:199-222 | after i passes that freed something at least i bytes are free |
| `Eviction.FreedBytes` | pkg/feed/replicator.go:199-222 | the drop in size is the sum of the sizes of the deleted objects |
| `Eviction.BatchKeeps` | pkg/feed/replicator.go:200-207 | a batch taken from what earlier batches left extends their removals to a longer prefix |
| `PinRaces.DeleteRowKeepsPinsIff` | pkg/feed/replicator.go:204-207 | deleting a row keeps the pins right if and only if it is not a pinned post's at that moment |
| `PinRaces.SafeWhileFollowed` | pkg/social/follows.go:106-133 | in every interleaving of statements a pinned post on no list, with no unpin decision pending, stays so for as long as its author is followed |
| `PinRaces.SafeIff` | pkg/feed/replicator.go:199-207 | a pinned post of a followed author keeps its object, and its pin, in every run in which the author stays followed if and only if no eviction pass has listed it and no follow change holds a decision to unpin the author |
| `PinRaces.FollowAfterListLoses` | pkg/feed/replicator.go:199-207 | a post listed before its author is followed is deleted afterwards, pinned as it is |
| `PinRaces.Overtaken` | pkg/social/follows.go:106-133 | a state that is reached with the post pinned, on no list, its author followed and a decision to unpin pending |
| `PinRaces.StaleDecisionUnpins` | pkg/social/follows.go:129-133 | the pending decision leaves the followed author's post unpinned with nothing under way |
| `PinRaces.StaleDecisionLoses` | pkg/feed/replicator.go:199-207 | then an eviction pass deletes the post |
| `PinRaces.PinsSurviveIff` | pkg/social/follows.go:106-133 | without failing callbacks and eviction, every settled author's posts have the right pins in every run with at most k decisions about one author in flight, if and only if k is at most one |
| `SingleFlight.ContentExchange.CheckFetchBackoffLocked` | pkg/p2p/bitswap_fetch.go:447-456 | refuses while the recorded time lies ahead, else drops the entry |
| `SingleFlight.ContentExchange.RecordFetchResultLocked` | pkg/p2p/bitswap_fetch.go:464-470 | a failure sets the backoff, a success clears it |
| `SingleFlight.ContentExchange.JoinOrLead` | pkg/p2p/bitswap_fetch.go:110-128 | performs the entry step of a shared fetch: refused, follower or leader |
| `SingleFlight.ContentExchange.CheckFetchBackoff` | pkg/p2p/bitswap_fetch.go:84-91 | performs the entry step of a fetch to a file |
| `SingleFlight.ContentExchange.PublishResult` | pkg/p2p/bitswap_fetch.go:132-138 | performs the finishing step of a leader |
| `SingleFlight.EntryExact` | pkg/p2p/bitswap_fetch.go:110-128 | in every run a fetch is refused if and only if a failure of its id less than fifteen seconds back has no later success; otherwise it waits for the shared fetch under way or is queued |
| `SingleFlight.Progress` | pkg/p2p/bitswap_fetch.go:141-169 | a queued fetch can start exactly while fewer than four run, a running one can complete with any result, a completed one can return |
| `SingleFlight.ResultReturned` | pkg/p2p/bitswap_fetch.go:130-138 | a fetch returns the result it completed with, and that is what is recorded |
| `SingleFlight.FollowerReturns` | pkg/p2p/bitswap_fetch.go:116-124 | a follower whose leader has returned can return that result, and can give up at any time |
| `SingleFlight.InvHolds` | pkg/p2p/bitswap_fetch.go:84-169 | the invariants behind the rows below hold after every interleaving |
| `SingleFlight.OneLeaderPerCid` | pkg/p2p/bitswap_fetch.go:110-139 | at most one shared leader per id at any time |
| `SingleFlight.ClosedExactlyOnce` | pkg/p2p/bitswap_fetch.go:126-138 | a done channel is closed once, exactly when its leader has returned |
| `SingleFlight.FollowerGetsLeaderResult` | pkg/p2p/bitswap_fetch.go:116-124 | a follower returning through the channel returns its leader's result |
| `SingleFlight.FollowerNotStranded` | pkg/p2p/bitswap_fetch.go:116-124 | a waiting follower can return or its leader is still at work |
| `SingleFlight.ConcurrencyBounded` | pkg/p2p/bitswap_fetch.go:141-169 | fetches of both kinds together never exceed the semaphore |
| `SingleFlight.BackoffRespected` | pkg/p2p/bitswap_fetch.go:441-470 | after a recorded failure nothing passes the check within the backoff unless a success came in between |
| `WsHub.WSHub.ReserveSlot` | pkg/api/ws.go:155-164 | performs the reservation step, refused at the limit |
| `WsHub.WSHub.ReleasePendingSlot` | pkg/api/ws.go:166-173 | performs the release step |
| `WsHub.WSHub.RegisterClient` | pkg/api/ws.go:84-92 | performs the registration step |
| `WsHub.WSHub.SendOrMarkStale` | pkg/api/ws.go:111-118 | performs one turn of the broadcast loop; stale exactly when the buffer is full |
| `WsHub.WSHub.RemoveStale` | pkg/api/ws.go:121-131 | closes and removes each stale client that is still registered, once |
| `WsHub.WSHub.CloseAllClients` | pkg/api/ws.go:136-146 | closes each registered client's channel once and empties the hub |
| `WsHub.WSHub.Unregister` | pkg/api/ws.go:206-213 | the reader's exit removes the client and leaves its channel open |
| `WsHub.RegisteredReceives` | pkg/api/ws.go:62-119 | below the limit a handler gets a slot and registers, and the next broadcast sends to its client |
| `WsHub.StaleGoes` | pkg/api/ws.go:121-131 | a client found stale is gone, with its channel closed, after the second half of the broadcast |
| `WsHub.DrainMakesRoom` | pkg/api/ws.go:182-194 | a writer takes one message off its queue |
| `WsHub.InvHolds` | pkg/api/ws.go:62-173 | the invariants behind the rows below hold after every interleaving |
| `WsHub.SlotsBounded` | pkg/api/ws.go:155-173 | clients plus reservations never exceed the limit; pending is the number of handlers holding one |
| `WsHub.ChannelsSafe` | pkg/api/ws.go:100-146 | no channel is closed twice, nothing is sent on a closed channel |
| `WsHub.BroadcastReachesAll` | pkg/api/ws.go:110-119 | when a broadcast ends, each registered client was sent to once or is stale |
| `FixedWindow.FarApart` | pkg/p2p/ratelimit.go:53-90 | two admissions twice the limit apart are more than a window apart |
| `FixedWindow.IntervalBound` | pkg/p2p/ratelimit.go:53-90 | at most twice the limit in any closed interval of one window |
| `RateLimit.PubsubRateLimiter.Allow` | pkg/p2p/ratelimit.go:53-90 | decision and new counters, posts and reactions sharing one window |
| `RateLimit.PubsubRateLimiter.Cleanup` | pkg/p2p/ratelimit.go:100-110 | exactly the expired authors are dropped |
| `RateLimit.Windows` | pkg/p2p/ratelimit.go:53-110 | after any monotone run the admissions fall into disjoint windows, each within the limit |
| `RateLimit.RateBound` | pkg/p2p/ratelimit.go:53-110 | at most 20 posts and 200 reactions per author in any closed window-length interval of any run |
| `RateLimit.AllowedIff` | pkg/p2p/ratelimit.go:53-90 | in every monotone run a post is admitted if and only if fewer than 10, a reaction if and only if fewer than 100, were admitted in the author's current minute |
| `RouteLimit.RouteRateLimiter.AddLimit` | pkg/api/middleware/ratelimit.go:77-86 | the limit is set and its table is empty |
| `RouteLimit.RouteRateLimiter.SetGlobalLimit` | pkg/api/middleware/ratelimit.go:90-98 | the global limit is set, its table stays |
| `RouteLimit.RouteRateLimiter.AllowLocked` | pkg/api/middleware/ratelimit.go:174-189 | decision and new counter in the named table, no other table changes |
| `RouteLimit.RouteRateLimiter.Middleware` | pkg/api/middleware/ratelimit.go:101-138 | the longest matching route; served if and only if the global and the route's table admit; a globally refused request does not reach the route's table |
| `RouteLimit.RouteRateLimiter.Cleanup` | pkg/api/middleware/ratelimit.go:206-225 | exactly the expired visitors leave every table |
| `RouteLimit.Windows` | pkg/api/middleware/ratelimit.go:174-225 | after any monotone run the admissions fall into disjoint windows, each within the limit |
| `RouteLimit.RateBound` | pkg/api/middleware/ratelimit.go:174-225 | at most twice the requests of a window per address in any closed window-length interval of any run |
| `RouteLimit.FirstAdmitted` | pkg/api/middleware/ratelimit.go:174-189 | the first request is admitted whatever the limit |
| `RouteLimit.BoundIffPositive` | pkg/api/middleware/ratelimit.go:174-225 | twice the configured limit bounds every interval of every run if and only if the limit is at least one |
| `RouteLimit.AllowedIff` | pkg/api/middleware/ratelimit.go:174-189 | in every monotone run a request is admitted if and only if it opens a window or fewer than the configured number were admitted in the current one |
| `RouteLimit.ServedIff` | pkg/api/middleware/ratelimit.go:101-138 | in every run of the middleware a request is served if and only if the global table and its route's table have room |
| `RouteLimit.RouteProjection` | pkg/api/middleware/ratelimit.go:101-138 | a route serves exactly whom its table admits of the requests that passed the global limit |
| `RouteLimit.GlobalProjection` | pkg/api/middleware/ratelimit.go:101-138 | whoever is served was admitted by the global table |
| `RouteLimit.MiddlewareBound` | pkg/api/middleware/ratelimit.go:101-225 | in any closed window-length interval of any run an address is served by a route at most twice its limit, and in all at most twice the global limit |
| `RouteLimit.MatchRoute` | pkg/api/middleware/ratelimit.go:143-170 | none exactly when nothing matches, else the strictly longest matching key, whatever the iteration order |
| `RouteLimit.MatchByLength` | pkg/api/middleware/ratelimit.go:143-170 | matching keys of one length are equal, so the choice is unique |
| `RouteLimit.MatchForms` | pkg/api/middleware/ratelimit.go:143-170 | a key with a space matches exactly its method and the paths its prefix begins, a key without one exactly its method |
| `ReplayFilter.SeenCache.MarkSeen` | pkg/p2p/seencache.go:53-59 | the id is marked with the time |
| `ReplayFilter.SeenCache.CheckAndMark` | pkg/p2p/seencache.go:63-71 | replay exactly when already marked, and marked afterwards |
| `ReplayFilter.SeenCache.Cleanup` | pkg/p2p/seencache.go:81-91 | exactly the entries older than the age limit are dropped |
| `ReplayFilter.Filter` | pkg/p2p/pubsub.go:102-127 | invoked exactly for a readable message with an unseen id, extracted or hashed, that the limiter allows; a replay does not reach the limiter |
| `ReplayFilter.AdmittedIff` | pkg/p2p/pubsub.go:102-127 | in every history a message reaches the handler if and only if the limiter lets it and no first mark of its id is still remembered; replays do not renew a mark |
| `ReplayFilter.ReplaySpacing` | pkg/p2p/pubsub.go:102-127 | over every run two admissions of one id are more than the age limit apart |
| `ReplayFilter.LateHandler` | pkg/p2p/pubsub.go:102-127 | a delayed first invocation brings two invocations within the age limit |
| `ReplayFilter.SpacedIffPrompt` | pkg/p2p/pubsub.go:102-127 | with delays up to d invocations are always spaced if and only if d is zero |
| `Threads.DescendantIds` | pkg/storage/posts_repo.go:259-278 | the recursive query ends and lists each transitive reply once |
| `Threads.GetAllDescendantReplies` | pkg/storage/posts_repo.go:259-278 | the same in timestamp order |
| `Threads.GroupByParent` | pkg/social/threads.go:52-57 | each parent's group is its listed replies, in the listed order |
| `Threads.Assemble` | pkg/social/threads.go:76-94 | every node carries its own post, all its direct replies in time order, and their number |
| `Threads.GetThread` | pkg/social/threads.go:23-94 | none exactly for a missing root, else a tree with the root and every transitive reply exactly once |
| `Threads.EachOnce` | pkg/social/threads.go:23-94 | any tree that is right node by node lists its subtree without repetition |
| `Threads.UnderUnique` | pkg/storage/posts_repo.go:259-278 | being a transitive reply does not depend on the ranking used to show that the graph is acyclic |
| `Chunking.ChunkFile` | pkg/content/chunker.go:51-79 | fixed-size pieces with their hash and index, or the error for empty or oversized data |
| `Chunking.ChunkedExactly` | pkg/content/chunker.go:51-79 | piece i is the bytes from i times 262144, numbered i, with its hash; their number; errors exactly for empty data and for more than 104857600 bytes |
| `Chunking.ChunkReader` | pkg/content/chunker.go:84-125 | for any fragmentation the same chunks and the same failures as `ChunkFile`; a broken stream always fails |
| `Chunking.AssembleChunks` | pkg/content/assembler.go:10-41 | succeeds exactly when some arrangement of the chunks is numbered without gaps, with the bytes joined in that order |
| `Chunking.ValidateChunks` | pkg/content/assembler.go:45-52 | true exactly when every chunk's id is the hash of its data |
| `Chunking.SortedIsContiguous` | pkg/content/assembler.go:15-27 | sorting by index restores the one arrangement without gaps |
| `Chunking.ReassembleAny` | pkg/content/assembler.go:10-52 | any permutation of the chunks of a file assembles to the file and validates |
| `Streams.Reader.ReadFull` | pkg/content/chunker.go:89-117 | independent of fragmentation: the requested bytes, or what is left with the matching end status |
| `Framing.ReadContentResponseLength` | pkg/p2p/bitswap_fetch.go:417-432 | the length prefix, with the errors for short, zero and too large |
| `Framing.ReadContentResponse` | pkg/p2p/bitswap_fetch.go:360-371 | the framed bytes or the error, for any fragmentation |
| `Framing.ValidateContentHash` | pkg/p2p/bitswap_fetch.go:400-415 | no error exactly when the hash of the data is the id |
| `Framing.ReadContentResponseToFile` | pkg/p2p/bitswap_fetch.go:373-397 | succeeds exactly when buffered receiving and validation does and the file takes the bytes, with the same bytes in the file |
| `Framing.WriteContentResponse` | pkg/p2p/bitswap_serve.go:86-112 | succeeds exactly for sizes 1 to the maximum that the source delivers and the stream takes, with prefix and bytes |
| `Framing.WriteCIDRequest` | pkg/p2p/bitswap_fetch.go:342-357 | succeeds exactly when the stream takes it: length prefix and id |
| `Framing.ReadCIDFromStream` | pkg/p2p/bitswap_serve.go:65-83 | the framed id or the error, for any fragmentation |
| `Framing.NetworkOrder` | pkg/p2p/bitswap_serve.go:94-100 | the most significant byte of a length comes first |
| `Framing.ResponseErrors` | pkg/p2p/bitswap_fetch.go:360-432 | the exact inputs of each error of a response: too short for a length, four zero bytes, over 104857600, cut off |
| `Framing.RequestErrors` | pkg/p2p/bitswap_serve.go:65-83 | the exact inputs of each error of a request: too short for a length, a length outside 1 to 1024, cut off |
| `Framing.ResponseRoundTrip` | pkg/p2p/bitswap_serve.go:86-112 | a framed response is read back if and only if its size is between 1 and the maximum |
| `Framing.RequestRoundTrip` | pkg/p2p/bitswap_fetch.go:342-357 | a framed id is read back if and only if its length is between 1 and 1024 |
| `KeyRename.Holder.ResolveActivePubkey` | pkg/identity/holder.go:134-147 | the key the active file names or, without that file, the only key |
| `KeyRename.Holder.FilesEqual` | pkg/identity/holder.go:184-194 | same, different, missing destination or read error |
| `KeyRename.Holder.RenameFileAndSync` | pkg/identity/fileio.go:48-56 | fails before or after taking effect, or works |
| `KeyRename.Holder.RemoveFileAndSync` | pkg/identity/fileio.go:58-66 | fails before or after taking effect, or works |
| `KeyRename.Holder.WriteActivePubkeyHex` | pkg/identity/fileio.go:11-46 | the old contents stay unless the final rename is reached |
| `KeyRename.Holder.FixMigratedKeyName` | pkg/identity/holder.go:151-182 | files and verdict for every fault pattern |
| `KeyRename.ContentsKept` | pkg/identity/holder.go:151-182 | the set of stored key contents is unchanged under every fault pattern |
| `KeyRename.OthersUntouched` | pkg/identity/holder.go:151-182 | other files are unchanged, and a destination with other contents stops the rename |
| `KeyRename.SuccessIff` | pkg/identity/holder.go:151-182 | succeeds if and only if the name is proper already, or the proper name holds the same contents and the write and the removal work, or it is free and the rename and the write work; and the files afterwards |
| `KeyRename.SuccessIsConsistent` | pkg/identity/holder.go:151-182 | on success the key has its proper name and contents, and the active file names it |
| `KeyRename.ConsistentIffNotStranded` | pkg/identity/holder.go:151-182 | from a placeholder that unlocking resolves to, by active file or as the only key, the next unlock finds the contents if and only if none of the listed fault patterns occurs |
| `KeyRename.RollbackStrands` | pkg/identity/holder.go:167-176 | a sync error after the active file was replaced, then a rollback, leaves it naming no key |
| `Conversations.PairIsPeer` | pkg/storage/dm_repo.go:98-113 | for one user's messages the normalised pair determines the other party and is determined by it |
| `Conversations.SamePairSamePeer` | pkg/storage/dm_repo.go:98-113 | two messages share a partition if and only if they share the other party |
| `Conversations.AnswerGivesList` | pkg/storage/dm_repo.go:94-153 | the row loop turns any answer of the query, ties in any order, into the promised list |
| `Conversations.ListMeaning` | pkg/storage/dm_repo.go:94-153 | the other end of every message has an entry, and an entry's unread count is the number of unread messages its party sent |
| `Conversations.Partition` | pkg/storage/dm_repo.go:105-112 | one message of each partition, none later |
| `Conversations.RunQuery` | pkg/storage/dm_repo.go:95-129 | an answer of the query: rank-one rows with their unread counts, newest first |
| `Conversations.ScanRows` | pkg/storage/dm_repo.go:135-152 | each row with the other party recovered from the pair |
| `Conversations.GetConversations` | pkg/storage/dm_repo.go:94-153 | exactly one entry per other party, with a latest message and the exact unread count, newest first |

## Left out

- libp2p host, discovery, relay and NAT; HTTP handlers, pages, cookies and logging; search, trending, configuration and backup: wrappers over libraries that are not part of this model.
- Signatures, encryption, multihash and protobuf encoding: content hashes are parameters, messages are datatypes, and validity is a hypothesis (`ValidStep`, `Legal`).
- The token managers and the indexer's response cache: simpler than the rate limiters and the replay cache beside them.
- `handleDM`, media handlers and their prefetching, notifications, tags and `post_media`: rows that no modelled table depends on.
- Four scattered errors in an address: BIP-173 rests that on a search over all error patterns; three are proved here.
- ErrorDetection.ThreeErrorsDetected: up to the 58 symbols of an address, not for the longer strings that the decoder alone accepts and `AddressToPubKey` then refuses.
- Replication.MessageProcessor.HandlePost: leaves out media rows and access tracking, and their failures; a failure after the insert is the step `Fail` of `Recounting`, and `PinPolicy` has the tracking.
- Replication.MessageProcessor.HandleReaction: leaves out access tracking, whose failure skips the recount (the step `Fail` of `Recounting`), and a failing insert, which `FailingLikes` has.
- Replication.MessageProcessor.HandleProfile: the accepted update only; the version guard is in `Profiles`.
- Replication.MessageProcessor.UpdateReactionCount: one step for four statements; `Recounting` takes them one by one.
- Replication.CountsAlwaysAgree: handlers run one at a time; `CountRaces.ReactionCountsSurviveIff` is the statement for overlapping ones.
- Replication.RunTracks: leaves out the stored signature, which `SignedPosts.SignatureIsFirst` gives, and failing inserts, which `FailingLikes.LikesStored` has.
- Replication.PostsConvergeIff: leaves out the stored signature, which `SignedPosts.SignedConvergeIff` includes.
- Replication.ConvergesAdmitted: leaves out the stored signature, which `SignedPosts.SignedConvergeIff` includes.
- Replication.Converges: leaves out the stored signature, which `SignedPosts.OrderIrrelevantIff` includes, and the arrival time; ids do not collide.
- Profiles.RunHighest: handlers run one at a time; `ProfileRaces.TableAlwaysRight` and `ProfileRaces.StoreSurvivesIff` are the statements for overlapping ones.
- Profiles.ProfileStore.UpsertProfile: display name, bio, images and website are one text; versions are natural numbers, without the upper half of the 64-bit range that SQLite cannot hold.
- Follows.FollowStore.UpdateFollowerCount: one step for three statements; `Recounting` takes them one by one.
- Follows.CountsAlwaysAgree: handlers run one at a time; `CountRaces.FollowCountsSurviveIff` is the statement for overlapping ones.
- Follows.FollowsConserved: rests on handlers that run one at a time; where recounts overtake each other it is false, by `CountRaces.RacingFollowsLoseOne`.
- PinPolicy.PinStore.SetPinnedForAuthor: leaves out media, thumbnails and reactions, which authors can share; the pin invariant is about posts.
- PinPolicy.PinStore.ReloadSubscriptions: leaves out the topic callbacks after the set is replaced, which change no modelled table.
- PinPolicy.PinStore.ChangeFollowState: leaves out the follow event and its counts, which `Follows` covers, and signing and publishing.
- PinPolicy.PinsAlwaysRight: each step runs to its end; `PinRaces.PinsSurviveIff` is the statement for overlapping ones.
- PinPolicy.NeverEvictedWhileFollowed: each step runs to its end; `PinRaces.SafeIff` is the statement for overlapping ones.
- Eviction.Replicator.CheckAndEvict: the 0.85 target is any number up to the limit. The source's directory walk swallows every error, so its measurement never fails; a file it cannot read, and so counts as empty, is not modelled.
- SingleFlight.InvHolds: the goroutines themselves are places of a transition system; the variant without a semaphore, which only a hand-made exchange has, is not modelled, and neither are timeouts beyond a result or cancellation at any moment.
- WsHub.InvHolds: the goroutines themselves are steps of a transition system; connection writes and ping timing are not modelled.
- RouteLimit.MiddlewareBound: limits are configured before the first request; setting one again empties its table.
- Threads.Assemble: builds tree nodes as values and not by appending in place; the reply graph is acyclic, as content-hash ids make it.
- The copying of a legacy key file before the rename: the file model starts from an existing placeholder key.
