# A verified model of web3-proxy's stateful core

web3-proxy balances Ethereum JSON-RPC requests over many backend servers. This project models the parts of it that keep
state over time and states, for all inputs and all runs, what they guarantee. `dafny verify dfyconfig.toml` checks
everything.

**Finding the consensus head.** Every server reports its head block. Ten nested groups (tier n holds the servers of tiers
0 to n) remember the heads; a search walks from a group's highest block through its parents until enough servers, by
count and by summed soft limit, are on that block or on a later one; the lowest tier that succeeds is published.
`Chain` holds blocks and ancestry, `HeadScan` says what one walk decides without walking, `Tiers` holds the groups and
the choice of a tier, `HeadTracker` is the state machine over reports, `Rescan` and `SkippedScan` say exactly when its
early return loses nothing, `FallingHead` and `MissedHead` build runs in which the published head goes backwards and in
which the early return misses a head, `Agreement` says over all runs which heads are tracked and when servers that agree
get their block published, and `Consensus` is the code itself: classes and loops proved against the other modules.

**Limiting rates.** `RateLimiter`: a counter per proxy in front of one redis counter. `RateOutage`: the same while redis
cannot be reached, all the time or now and then.

**Choosing servers.** `ServerSelection` (one server, with retries), `Broadcast` (many servers), `ResponseVote` (the vote
over their answers) and `BlockData` (which blocks a server is believed to hold).

**Smaller machines.** `StatEmitter` (stats per period), `MigrationLock` (processes migrating one database) and
`BlockParams` (rewriting block parameters).

Modelling decisions:

- A server is a stable identity with fixed tier, backup flag and soft limit; servers are told apart by name. Soft limits
  and counters are unbounded naturals, which agrees with the code as long as no sum reaches 2^32 (soft limits) or 2^64.
- A hash determines its block and a parent is numbered one below its child (`Chain.Linked`). What the backends serve may
  differ from report to report, and each lookup that succeeds is cached.
- Answers to a broadcast are counted by their debug text, which is left open: different answers may share a text, and only
  the class of an answer is assumed to show in it, as the names of the variants do.
- Clocks, random shuffles, latencies, and the answers of redis, backends and databases are parameters of the operations.
- 64-bit saturation is modelled where it shows: in the window of the walk and in block data limits.

Where the code does something other than what its comments suggest, the model follows the code:

- The rescan after a removal compares against the removed highest block, so a group's highest block is never lowered
  (`Tiers.HighestIsFirstMaximum`).
- The floor is meant to keep the head from going backwards, but if only backups make a quorum and the window is used up,
  the published head is the parent just past the window, one block below the floor. `HeadScan.FloorBrokenIff` and
  `HeadTracker.HeadFallsIff` say exactly when, `HeadTracker.HeadNeverFallsBack` bounds how often, and
  `FallingHead.FallsAreAttained` gives runs that attain the bound although no tracked server is on an older block.
- With both thresholds at zero the floor does not hold at all (`HeadScan.FloorNeedsPositiveQuorum`); the results about
  falling heads and skipped searches are therefore stated for a positive threshold.
- The search is skipped when a report changes no head, although a search would also depend on which tracked servers are
  registered and which parents can be fetched. If these change, a head can be missed: `MissedHead.LateRegistration`. If
  they are what they were at the last search, `SkippedScan.SkippingIff` says exactly when nothing is missed: always if
  nothing is published; after a primary-voted publication if the tier's highest block is not numbered 2^64 - 1 and no
  lower tier that had given up on an unknown server would now succeed (`Rescan.RescanIff`); after a backup-voted one only
  in special cases (`Rescan.BackupRescanIff`), since a new search would in general move on by another block
  (`MissedHead.SkippingCanDiffer`).
- `update_rpc` answers true for every block of a server whose tier is ten or more, which no group ever tracks
  (`Tiers.ChangedIffHeadsChanged`).
- The earliest time to retry at starts at `None` and `min` keeps it there, so neither selection ever reports one
  (`ServerSelection.BestAvailableRpc`, `Broadcast.AllConnections`). The branch of the retry loop that sleeps is therefore
  never taken, and the loop ends without any assumption about the answers.
- For an old range the age filter subtracts the allowed age from the age of the consensus head, so it rejects even servers
  that sit on that head, unless no age or an age of zero is configured or the head is new
  (`ServerSelection.HeadServerEligibleIff`).
- A range from the consensus head to beyond it is handed to servers that lack the end of it
  (`ServerSelection.BeyondHeadIsHandedOut`).
- One process that overrides the migration lock is enough to apply a migration twice, whatever the migrations
  (`MigrationLock.SafeIffHarmless`), and then to return an error although no migration failed
  (`MigrationLock.NoErrorsIffHarmless`).
- While redis is down a proxy lets the first request through without counting it (`RateOutage.OutageIsLocal`). If redis is
  down only now and then, updates are lost and there is no bound on what is admitted (`RateOutage.OutagesOvershoot`).
- The checks for rate limit and missing header messages continue only their own inner loops, so those errors are returned
  instead of retried (`ServerSelection.Unsupported`).
- A node probed while the chain is shorter than the depth it keeps is taken for an archive node
  (`BlockData.SoundForeverIff`).

## Model

| member | source | states |
|---|---|---|
| Chain.LaterIsAncestor | web3_proxy/src/rpcs/consensus.rs:278-289 | along one walk every later block is an ancestor of every earlier one, in the whole chain and not only among the blocks known |
| HeadScan.Scan.QuorumGrows | web3_proxy/src/rpcs/consensus.rs:223-267 | going further back never loses a quorum of primaries |
| HeadScan.Scan.PrimaryElection | web3_proxy/src/rpcs/consensus.rs:220-267 | primaries elect a head if and only if a nearest agreed block exists in the window and no unknown server stops the search before it; the head is that block and the servers are exactly the primaries on it or on a later block |
| HeadScan.Scan.AgreementIsFound | web3_proxy/src/rpcs/consensus.rs:216-313 | with all tracked servers registered, any agreed block in the window whose parents can be fetched makes the search succeed, with the nearest such block |
| HeadScan.BackupElection | web3_proxy/src/rpcs/consensus.rs:269-355 | backups decide if and only if in the window no unknown server makes the search give up, no primary quorum exists and a backup quorum does; if the walk could go on, the head is the block just past the window, older than the one voted for |
| HeadScan.Scan.FailsIff | web3_proxy/src/rpcs/consensus.rs:203-335 | a search finds nothing if and only if an unknown server is met before any primary quorum while nothing is published, or the window holds neither a primary nor a backup quorum (and, if it is empty, a threshold is positive) |
| HeadScan.Scan.PrimariesDecide | web3_proxy/src/rpcs/consensus.rs:220-267 | with all tracked servers registered, primaries elect a head if and only if all primaries in the window together are enough |
| HeadScan.FloorBrokenIff | web3_proxy/src/rpcs/consensus.rs:161-187 | an elected head is below the floor if and only if in the window no unknown server makes the search give up, no primary quorum exists and a backup quorum does, one more parent can be fetched and the highest number is below 2^64 - 1; it is then exactly one block below |
| HeadScan.FloorNeedsPositiveQuorum | web3_proxy/src/rpcs/consensus.rs:317-335 | for given thresholds, all elected heads are at most one block below the floor, and not below it unless backups were needed, if and only if one of the thresholds is positive |
| Tiers.HighestIsFirstMaximum | web3_proxy/src/rpcs/consensus.rs:120-159 | after any mix of insertions and removals the highest block is the first of the greatest height ever inserted and bounds every tracked head |
| Tiers.UpdateValid | web3_proxy/src/rpcs/consensus.rs:360-503 | every report keeps tier i equal to the last tier restricted to servers of tier at most i, with nested highest blocks |
| Tiers.ReportTracks | web3_proxy/src/rpcs/consensus.rs:455-503 | after a report its server is tracked, with block b, if and only if its tier is below ten, it reported b and b is not older than allowed; no other server changes |
| Tiers.ChangedIffHeadsChanged | web3_proxy/src/rpcs/consensus.rs:455-503 | update_rpc answers true exactly when the tracked heads changed or a server beyond the last tier reported a head, and false only when nothing at all changed |
| Tiers.BestIsLowest | web3_proxy/src/rpcs/consensus.rs:528-545 | the chosen consensus is found by its own tier and every lower tier finds none |
| Tiers.FloorIff | web3_proxy/src/rpcs/consensus.rs:520-524 | a number is not below the floor if and only if it is within the configured lag of the highest block and not below the watched head |
| Rescan.ShrinkingKeepsFailure | web3_proxy/src/rpcs/consensus.rs:177-186 | a search that failed for want of a quorum still fails with a smaller window |
| Rescan.ReachedAgain | web3_proxy/src/rpcs/consensus.rs:220-267 | an elected head is elected again, with the same servers and backup vote and no unknown server before it, if and only if the new window reaches it |
| Rescan.RescanIff | web3_proxy/src/rpcs/blockchain.rs:381-398 | right after a primary-voted head is published, with the same tracked servers registered and the same parents reachable, searching again gives the same tier, head, servers and backup vote if and only if the tier's highest number is below 2^64 - 1 and the votes of every lower tier fail |
| Rescan.RescanElectsTheSame | web3_proxy/src/rpcs/blockchain.rs:381-398 | if something was published before or all tracked servers are registered, lower tiers fail by themselves, so the number is the only condition |
| Rescan.RescanFindsNothing | web3_proxy/src/rpcs/blockchain.rs:390-398 | a search that found nothing finds nothing again, although nothing is published then |
| HeadTracker.NextSound | web3_proxy/src/rpcs/blockchain.rs:372-578 | every report leaves caches and groups consistent and, if anything is published, a head that is an ancestor of every published server's tracked head, non-backup servers of its tier or lower, met thresholds unless backups were needed, behind a backup vote servers with a backup among them that meet the thresholds and descend from the block voted for, and a watched head equal to the published one |
| HeadTracker.RunIsSound | web3_proxy/src/rpcs/blockchain.rs:333-578 | that holds in every state of every run of reports |
| Agreement.TrackedIffLastReport | web3_proxy/src/rpcs/consensus.rs:455-503 | in every state of every run a server is tracked, with block b, if and only if its tier is below ten and its last report was of b and not too old |
| Agreement.PublishedInTime | web3_proxy/src/rpcs/consensus.rs:479-484 | in every state of every run the last report of each published server was not too old and of a descendant of the published head |
| Agreement.AgreementIsPublished | web3_proxy/src/rpcs/consensus.rs:163-267 | with all tracked servers registered and a highest number below 2^64 - 1, if after a changed report servers of a tier that meet the thresholds are on a fetched block or later ones, and that block is within the lag and not below the watched head (or, without either, among the first ten), a consensus of that tier or a lower one is published; if it is that tier's and none of them is a backup, primaries elect that block or a later one |
| Agreement.RunPublishesAgreement | web3_proxy/src/rpcs/blockchain.rs:372-578 | that holds at every step of every run |
| Agreement.FirstHeadWithinTen | web3_proxy/src/rpcs/consensus.rs:177-190 | with a positive threshold, before anything was published and without a lag, a published head is at most nine blocks below its tier's highest block, or ten with backups |
| Agreement.NumbersArePublished | web3_proxy/src/rpcs/blockchain.rs:134-166 | in every state of every run a height is mapped to the hash of the watched head last published at that height, and to nothing if none was |
| HeadTracker.NextFloor | web3_proxy/src/rpcs/consensus.rs:511-524 | one report moves the watched head back by at most one block and only if backups voted, and publishes nothing further behind the highest block than the configured lag, plus one if backups voted |
| HeadTracker.NextFallsIff | web3_proxy/src/rpcs/blockchain.rs:372-578 | one report makes the watched head fall if and only if, before it is processed, the watched head is the floor, some tier's votes break that floor and the votes of every lower tier fail; it then falls by one block, in a publication that needed backups |
| HeadTracker.HeadFallsIff | web3_proxy/src/rpcs/consensus.rs:505-546 | that holds for every step of every run |
| HeadTracker.HeadNeverFallsBack | web3_proxy/src/rpcs/consensus.rs:161-187 | between any two states of any run the watched head falls by at most one block per step that meets that condition, and there are no more of these than backup-voted publications, so it never falls while primaries vote |
| FallingHead.FallsAreAttained | web3_proxy/src/rpcs/consensus.rs:269-355 | for every height n and every d up to n there is a run that publishes block n and then falls to block n - d in d backup-voted publications, while every tracked server stays on block n |
| HeadTracker.PublishedWithinLag | web3_proxy/src/rpcs/consensus.rs:520-524 | every head published in any run is within the configured lag of the highest block ever tracked, plus one if backups voted |
| Rescan.BackupRescanIff | web3_proxy/src/rpcs/blockchain.rs:381-398 | right after a backup-voted head is published, in the same setting, searching again gives the same consensus if and only if no unknown server is met, the votes of every lower tier fail, and the configured lag keeps the search above that head, or the head's parent cannot be fetched and all primaries on the walk are published; with a highest number of 2^64 - 1, instead, the same primaries and backup vote are counted before the head |
| SkippedScan.RunSettled | web3_proxy/src/rpcs/blockchain.rs:372-578 | in every state of every run, for every setting that shows a search the same registrations and parents as the last search saw, a new search finds what is published, or nothing where nothing is, if and only if nothing is published or the condition for a primary-voted or backup-voted consensus holds |
| SkippedScan.SkippingIff | web3_proxy/src/rpcs/blockchain.rs:381-388 | in every run, when a report changes nothing and the setting is that of the last search, searching and publishing anyway would leave exactly the same state if and only if that holds |
| SkippedScan.SkippingBeforeAnySearch | web3_proxy/src/rpcs/blockchain.rs:381-388 | before the first search of a run skipping misses nothing in any setting |
| MissedHead.SkippingCanDiffer | web3_proxy/src/rpcs/blockchain.rs:381-398 | for every height n there is a run in which, with the setting of the last search unchanged, a report that changes nothing leaves block n - 1 published where searching anyway would publish block n - 2 |
| MissedHead.LateRegistration | web3_proxy/src/rpcs/blockchain.rs:381-388 | for every height n there is a run in which a server reports block n before it is registered and again after, and nothing stays published where searching anyway would publish block n |
| Consensus.Web3Rpcs.TryCacheBlock | web3_proxy/src/rpcs/blockchain.rs:134-166 | caches by hash unless the hash is zero or known, and by number on the heaviest chain |
| Consensus.Web3Rpcs.BlockByHash | web3_proxy/src/rpcs/blockchain.rs:171-240 | finds a block if and only if it is cached or served, and caches it without changing what can be looked up |
| Consensus.ConnectionsGroup.Remove | web3_proxy/src/rpcs/consensus.rs:120-139 | untracks the server and leaves the highest block alone whenever it bounds the tracked heads |
| Consensus.ConnectionsGroup.Insert | web3_proxy/src/rpcs/consensus.rs:141-159 | tracks the head and raises the highest block only for a strictly greater number |
| Consensus.ConnectionsGroup.CountVotes | web3_proxy/src/rpcs/consensus.rs:223-259 | for any iteration order, adds exactly the registered servers on the block, keeps both sums, and fails if and only if an unknown server is met while nothing is published |
| Consensus.ConnectionsGroup.VoteOn | web3_proxy/src/rpcs/consensus.rs:220-276 | one depth of the walk gives up, elects or goes on exactly as the specification of that depth says |
| Consensus.ConnectionsGroup.Walk | web3_proxy/src/rpcs/consensus.rs:203-356 | the whole loop answers what the declarative specification of the search says, in every outcome including each error |
| Consensus.ConnectionsGroup.ConsensusHeadConnections | web3_proxy/src/rpcs/consensus.rs:163-201 | the same with the checks before the loop and the computed window |
| Consensus.ConsensusFinder.Remove | web3_proxy/src/rpcs/consensus.rs:412-427 | removes the server from every group that could hold it and answers its last head |
| Consensus.ConsensusFinder.Insert | web3_proxy/src/rpcs/consensus.rs:429-453 | updates every group that covers the server's tier and answers its previous head |
| Consensus.ConsensusFinder.UpdateRpc | web3_proxy/src/rpcs/consensus.rs:455-503 | caches and tracks a report, or untracks a server whose block is too old, and answers whether the head changed |
| Consensus.ConsensusFinder.BestConsensusConnections | web3_proxy/src/rpcs/consensus.rs:505-546 | answers the consensus of the first tier that finds one, with the floor that is exactly the lag below the highest block or the watched head, whichever is higher |
| Consensus.PublishResult | web3_proxy/src/rpcs/blockchain.rs:390-575 | withdraws or replaces the consensus and sends the head unless it is the block published before |
| Consensus.ProcessBlockFromRpc | web3_proxy/src/rpcs/blockchain.rs:372-578 | one call is one step of the state machine and keeps its consistency |
| Consensus.ProcessIncomingBlocks | web3_proxy/src/rpcs/blockchain.rs:333-367 | the loop over all reports, with a registry that may change before each of them, produces a run in the sense of the theorems above |
| RateLimiter.HeadroomIff | deferred-rate-limiter/src/lib.rs:194-198 | a count is admitted without waiting for redis if and only if it is below the limit and at most 99% of it |
| RateLimiter.AllowedIff | deferred-rate-limiter/src/lib.rs:75-208 | RetryNever is answered exactly at a zero limit; with redis down a request is allowed if and only if nothing is cached or the cached count leaves room; with redis up if and only if the cached count leaves room and it is within the headroom or redis counts it within the limit, or, uncached, redis does |
| RateLimiter.RedisRateLimiter.ThrottleLabel | redis-rate-limiter/src/lib.rs:69-123 | increments the shared counter and compares, counts nothing when the limit is zero or redis is unreachable |
| RateLimiter.DeferredRateLimiter.Throttle | deferred-rate-limiter/src/lib.rs:64-210 | one request changes local count, redis and background updates as specified, in every branch including redis errors, under the limit of the request, else the default of the limiter, else that of redis |
| RateLimiter.DeferredRateLimiter.RunBackground | deferred-rate-limiter/src/lib.rs:160-192 | a background update counts in redis, stores redis' count and drops the answer |
| RateLimiter.AdmittedAtMost | deferred-rate-limiter/src/lib.rs:84-208 | with redis up, n proxies in any interleaving, each finishing its background update before its next request, admit at most the limit plus n - 1 times the smaller of the largest request and the headroom; nothing at all with a zero limit or empty requests |
| RateLimiter.BoundIsAttained | deferred-rate-limiter/src/lib.rs:136-208 | for every limit, largest request and number of proxies some such run admits exactly that much |
| RateLimiter.OverlappingUpdatesOvershoot | deferred-rate-limiter/src/lib.rs:160-206 | without that sequencing there is no bound, with redis up: for every limit, largest request and k some run, even of one proxy, admits k times the smaller of the largest request and the headroom |
| RateLimiter.UnsequencedLimitIff | deferred-rate-limiter/src/lib.rs:136-208 | all runs with redis up, sequenced or not, stay within the limit if and only if the limit is at most one, all requests are empty, or there is no proxy |
| RateLimiter.OneProxyIsExact | deferred-rate-limiter/src/lib.rs:136-208 | one proxy answers every request of every such run exactly as a redis limiter that counts all requests would |
| RateOutage.DownRequestAllowedIff | deferred-rate-limiter/src/lib.rs:115-189 | at every request of every run, whenever redis failed before, with redis down it is allowed if and only if nothing is cached or the cached count leaves room |
| RateOutage.OutageIsLocal | deferred-rate-limiter/src/lib.rs:115-189 | during an outage one proxy answers exactly as a limiter that lets the first request through uncounted and counts all later ones itself |
| RateOutage.OutageAdmitsAtMost | deferred-rate-limiter/src/lib.rs:115-189 | during an outage n proxies admit at most n times the sum of the limit and the largest request, however updates overlap; nothing at all with a zero limit or empty requests |
| RateOutage.OutageBoundIsAttained | deferred-rate-limiter/src/lib.rs:115-189 | for every limit, largest request and number of proxies some run during an outage admits exactly that much |
| RateOutage.OutagesOvershoot | deferred-rate-limiter/src/lib.rs:160-192 | with redis down now and then there is no bound: for every k some run admits k times the smaller of the largest request and the limit, although every update is done before the next request |
| RateOutage.OutageLimitIff | deferred-rate-limiter/src/lib.rs:84-208 | all sequenced runs, whenever redis is down, stay within the limit if and only if the limit is zero, all requests are empty, or there is no proxy |
| ResponseVote.Tally | web3_proxy/src/rpcs/many.rs:430-455 | counts every answer by its debug text, keeps the first answer with each text and notes which classes are present |
| ResponseVote.MostCommonKey | web3_proxy/src/rpcs/many.rs:457-460 | the key with the most votes, the smallest on a tie |
| ResponseVote.MostCommonResponse | web3_proxy/src/rpcs/many.rs:407-483 | for any non-empty input and any debug text that tells classes apart, returns an answer of the best class present whose text is the most frequent, smallest on a tie, and which came first among those with its text; falls out of the loop only on empty input |
| ResponseVote.WinnerMeans | web3_proxy/src/rpcs/many.rs:457-479 | a result wins over json errors and these over transport errors; no answer of the winner's class has a text that came in more often, or as often and smaller |
| ResponseVote.TextLessIff | web3_proxy/src/rpcs/many.rs:457 | keys are ordered by the first character they differ in, and a beginning comes before its continuations |
| ResponseVote.WinnerIsUnique | web3_proxy/src/rpcs/many.rs:457-479 | the answers alone determine the text of that answer, so arrival order does not matter |
| BlockData.Web3Rpc.CheckBlockDataLimit | web3_proxy/src/rpcs/one.rs:288-380 | stores the deepest depth found before the first miss and leaves the limit alone otherwise; fails if and only if the limit is automatic and the node does not tell its head before the first miss |
| BlockData.Web3Rpc.IsHeld | web3_proxy/src/rpcs/one.rs:387-404 | a block is believed held if and only if it is between the head and the limit below it |
| BlockData.SoundIff | web3_proxy/src/rpcs/one.rs:387-404 | a stored limit promises no missing block at a head if and only if the limit, or the whole chain, fits the depth kept |
| BlockData.ProbedLimitIsSound | web3_proxy/src/rpcs/one.rs:300-371 | the probed limit never overstates what a node keeps at the head it was probed at |
| BlockData.SoundForeverIff | web3_proxy/src/rpcs/one.rs:304-371 | it stays sound as the chain grows if and only if the chain had already outgrown the depth kept |
| BlockData.ProbedLimitIsLargest | web3_proxy/src/rpcs/one.rs:304 | on a chain that has outgrown the depth kept, the limit stored is the largest of 0, 32, 64, 128, 256, 512, 1024, 90000 and 2^64 - 1 that the node keeps |
| BlockData.RangeIsHeld | web3_proxy/src/rpcs/many.rs:553-575 | a server that has the data of both ends of a range has all of it |
| ServerSelection.GroupCandidates | web3_proxy/src/rpcs/many.rs:494-631 | collects exactly the candidates, each once and under its tier and head, and fails if and only if the range is malformed |
| ServerSelection.RangeKindIff | web3_proxy/src/rpcs/many.rs:505-532 | a range is malformed if and only if its ends are in the wrong order; otherwise it is old, at the head or in the future by its lower end, or by the only end given |
| ServerSelection.CandidateIff | web3_proxy/src/rpcs/many.rs:539-631 | the candidates in plain numbers: registered, unskipped, both ends between head and data limit, within the lag, and young enough for an old range; the unskipped servers of the consensus at its head; none beyond it |
| ServerSelection.DuelWonBy | web3_proxy/src/rpcs/many.rs:651-660 | a server wins exactly its own duel when no slower than its successor and its predecessor's when strictly faster |
| ServerSelection.TriedInGroup | web3_proxy/src/rpcs/many.rs:640-681 | for every shuffle, exactly which servers of a group are tried: a fastest one always, a strictly slowest of several never, none more than twice |
| ServerSelection.TryGroup | web3_proxy/src/rpcs/many.rs:654-680 | duels run in order until the first granted handle, or all of them |
| ServerSelection.TryGroups | web3_proxy/src/rpcs/many.rs:638-711 | groups are tried in order of tier and head up to the one that grants, all of them if nothing is granted, and no time to retry at is ever reported |
| ServerSelection.VisitedInOrder | web3_proxy/src/rpcs/many.rs:494-640 | every group visited has a tier at most that of every group left, and within one tier a lower head |
| ServerSelection.BestAvailableRpc | web3_proxy/src/rpcs/many.rs:485-711 | hands out only candidates, takes the first grant among the duel winners of the groups in order, after a fastest candidate of every lower tier, and of every lower head in its own tier, was asked and refused; gives up only after all winners refused, a fastest candidate of every group included; fails if and only if the range is malformed, and never answers with a time to retry at |
| ServerSelection.HandedOutHoldsIff | web3_proxy/src/rpcs/many.rs:505-631 | for every kind of range, a server handed out was not skipped and, with a sound limit, holds every block asked for if and only if nothing or an old range is asked for, or its own head is past the end of the range and it keeps blocks down to the consensus head |
| ServerSelection.BeyondHeadIsHandedOut | web3_proxy/src/rpcs/many.rs:512-528 | a range from the consensus head to beyond it is handed to every unskipped server of the consensus, though none on the consensus head has its end |
| ServerSelection.HeadServerEligibleIff | web3_proxy/src/rpcs/many.rs:539-597 | an unskipped server on the consensus head that holds both ends of an old range is a candidate if and only if no age or an age of zero is configured or the head's age is zero |
| ServerSelection.TrySendBest | web3_proxy/src/rpcs/many.rs:825-1037 | sends to servers handed out in turn, only while fewer were sent to than are registered in that round, and never to one twice; answers with the first final reply; without one it ends only when as many were sent to as are registered, when the next range is malformed, which is then and only then its error, or when all duel winners of the next round refused, with the last complaint about an unknown method or else that the data is not available |
| ServerSelection.FinalIff | web3_proxy/src/rpcs/many.rs:877-960 | every success is passed on, no broken request is, and every json error is unless its code is -32601 and its message "Method not found" or "the method" … "is not available" |
| ServerSelection.LastComplaint | web3_proxy/src/rpcs/many.rs:998-1037 | without a final reply the answer is the last json error received, and that data is not available if and only if there was none |
| ServerSelection.SentToDistinct | web3_proxy/src/rpcs/many.rs:844-857 | servers that were candidates given the skipped ones have different names |
| Broadcast.SortByStatusSorts | web3_proxy/src/rpcs/many.rs:1210-1238 | the sort yields a permutation ordered by descending head, then tier, then backup flag, then load |
| Broadcast.SortedMeans | web3_proxy/src/rpcs/many.rs:1210-1238 | of two servers in sorted order the first has the higher head, or the same and a lower tier, or the same and is no backup unless the other is, or the same and no more load; no head counts as block zero |
| Broadcast.SortIsStable | web3_proxy/src/rpcs/many.rs:1210-1238 | servers that sort alike keep their order |
| Broadcast.AllConnections | web3_proxy/src/rpcs/many.rs:718-821 | the handles are exactly those granted by tried servers that pass the filters, at most as many as asked for, else as known, fewer only when every server was tried; none is a backup unless backups are allowed and each has both ends asked for; an empty collection is never handed out and the retry time is always None |
| Broadcast.ConnectionsMeaning | web3_proxy/src/rpcs/many.rs:762-813 | the handles belong to different servers, no backups unless allowed, with both given ends between head and data limit, and when every server was tried none such that would grant is missing |
| Broadcast.UnseenAppend | web3_proxy/src/rpcs/many.rs:750-773 | synced servers are all considered before any other |
| Broadcast.SyncedFirst | web3_proxy/src/rpcs/many.rs:736-773 | a server that is not synced is only tried once all synced ones were |
| Broadcast.BroadcastRound | web3_proxy/src/rpcs/many.rs:1054-1100 | the vote is only held over at least one answer and then always has a winner; without a connection, if at least one was asked for, every server was tried |
| StatEmitter.KeyOf | web3_proxy/src/app_stats.rs:36-80 | the archive and error flags are kept, only the anonymous level drops the key id, only the aggregated level drops the method name, so both are joined only at the detailed level, and a request made with a key never has its origin saved |
| StatEmitter.Aggregate.Add | web3_proxy/src/app_stats.rs:153-180 | adds the stat's whole worth even when a histogram cannot record it |
| StatEmitter.StatEmitter.Receive | web3_proxy/src/app_stats.rs:356-375 | adds a stat to its own key's aggregate and to no other |
| StatEmitter.StatEmitter.Drain | web3_proxy/src/app_stats.rs:376-387 | saving in any order conserves every key's totals |
| StatEmitter.StatEmitter.StatLoop | web3_proxy/src/app_stats.rs:325-415 | it fails only when the stat channel closes or no event is left; in every run that ends in shutdown, for every key and period, where the k-th tick ends the period starting k - 1 periods after the start, the saved rows add up to what was received; no row is empty, every row has hits plus misses equal to frontend requests, and with a positive period no two rows share key and period |
| StatEmitter.TotalsAreSums | web3_proxy/src/app_stats.rs:153-180 | what was received for a key and period is, column by column, the number of stats, their backend requests, those with and without any, and the sums of their request bytes, response bytes and milliseconds |
| MigrationLock.StepSafe | web3_proxy/src/app/mod.rs:300-342 | every step of every process that does not override a held lock keeps mutual exclusion, the lock table and the log of applied migrations right |
| MigrationLock.MigrationsAreSafe | web3_proxy/src/app/mod.rs:282-342 | for any number of processes and any interleaving in which no override can meet a held lock, at most one process is between acquire and drop, the table exists exactly while one is, no migration is applied twice, and no process returns successfully while one is pending |
| MigrationLock.OverrideAppliesTwice | web3_proxy/src/app/mod.rs:310-324 | for any migrations and any two processes one of which was called with the override, some run applies the first migration twice |
| MigrationLock.SafeIffHarmless | web3_proxy/src/app/mod.rs:295-342 | all runs are safe if and only if there are no migrations, fewer than two processes, or no process that overrides |
| MigrationLock.ErrorsAreOwn | web3_proxy/src/app/mod.rs:309-342 | where no override can meet a held lock, a process returns an error only if one of its own migrations failed |
| MigrationLock.AllCanReturn | web3_proxy/src/app/mod.rs:307-342 | there, after any run all processes can still return, exactly those with an error that had failed |
| MigrationLock.OverrideEndsInError | web3_proxy/src/app/mod.rs:310-342 | with an override and any other process, some run without a failing migration applies everything twice; the one process returns successfully and the overriding one with an error, because the lock is gone when it drops it |
| MigrationLock.NoErrorsIffHarmless | web3_proxy/src/app/mod.rs:282-342 | without failing migrations no run makes a process return an error if and only if no override can meet a held lock |
| BlockParams.HexRoundTrip | web3_proxy/src/block_number.rs:57-59 | a number written into the params reads back as itself |
| BlockParams.HexShape | web3_proxy/src/block_number.rs:57-59 | a number is written as 0x and lower-case digits without leading zeros, the lowest last |
| BlockParams.TagsMean | web3_proxy/src/block_number.rs:14-39 | what earliest, latest, pending, safe, finalized and a number mean at a head, where a subtraction panics, and that only latest is rewritten |
| BlockParams.Request.CleanBlockNumber | web3_proxy/src/block_number.rs:43-106 | rewrites the params in place and answers the block as specified, in every branch |
| BlockParams.CleanMeans | web3_proxy/src/block_number.rs:43-106 | only the given parameter changes; a missing last one becomes the head, one given by hash means the block found for it |
| BlockParams.CleanIdempotent | web3_proxy/src/block_number.rs:43-106 | cleaning twice at one head is cleaning once, for all params |
| BlockParams.SameRequest | web3_proxy/src/block_number.rs:14-106 | an omitted block, "latest" and the head's own number give the same params and block |
| BlockParams.PinnedIffStable | web3_proxy/src/block_number.rs:14-106 | cleaned params mean the same block at every later head if and only if they name it by number or hash or as the genesis block |
| BlockParams.RewrittenIsPinned | web3_proxy/src/block_number.rs:57-100 | whatever was rewritten is fixed in that sense |
| BlockParams.BlockNeededIdempotent | web3_proxy/src/block_number.rs:123-287 | checking a request twice at one head is checking it once, for every method and all params |
| BlockParams.KindIff | web3_proxy/src/block_number.rs:123-270 | which methods are never cached, name a block by hash, by which parameter, or are log requests |
| BlockParams.KeyMeans | web3_proxy/src/app/mod.rs:1564-1640 | the cache key of every request: none for traces, one for all blocks for hashes, the named block, the head where none is named or it cannot be read |
| BlockParams.LogsMean | web3_proxy/src/block_number.rs:170-222 | a log request is cached under its first and last block, which default to the genesis block and the head, or under none with a block hash |
| BlockParams.LogsFail | web3_proxy/src/block_number.rs:170-222 | when a log request panics and when it is refused |
| BlockParams.SameCacheEntry | web3_proxy/src/app/mod.rs:1564-1610 | the three ways to ask for the head share one cache key |

## Left out

- HTTP and websocket handlers, login, admin and user endpoints, command line tools, kafka, prometheus and pagerduty: input and output around libraries that are not part of this model.
- Database entities and migration scripts: declarative schema.
- Cache eviction and expiry, redis key expiry, period ids and clocks: caches are maps and the limiter is modelled within one throttle key.
- Provider connections, reconnects, health checks and subscriptions: foreign calls and timing.
- Latency averages, histogram quantiles and random draws: latencies are only compared, shuffles are arbitrary permutations.
- Watch channels without any receiver, where sending the head fails: a receiver is assumed, as the application keeps one.
- Servers re-created under a known name with other settings: identity is by name only.
- Consensus.ProcessIncomingBlocks: other tasks change the registry of servers between reports, not during the processing of one.
- RateLimiter.DeferredRateLimiter.Throttle: does not model 64-bit wrap-around of the counters, and takes 99% of the limit without floating point rounding.
- ServerSelection.TrySendBest: takes some round in which no more servers are registered than were sent to, since the loop need not end while servers keep being added.
- StatEmitter.StatEmitter.StatLoop: rows count as saved when they are handed to the database; a failing insert is only logged by the code and loses the row.
- MigrationLock.MigrationsAreSafe: processes do not crash between acquire and drop; a crash would leave the lock table behind.
- BlockParams.BlockNeededIdempotent: models the rewriting inside `block_needed` on values; the parsing of block tags belongs to a library and is modelled for the lower-case tags and for hexadecimal numbers.
- Rate counting, gas increases and key conversions: they would only add easy members.
