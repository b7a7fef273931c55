# Auction simulation and AMQP client: a Dafny model

This project models three parts of the auction repository and proves what they promise.

**The auction** (`types/`, `auctionrep/`, `auctioneer/`, `simulation/`). Auctioneers place instances on
representatives with fixed memory, disk and container totals: they score a random subset, reserve tentatively,
claim one and release the rest, for a number of rounds. Two layers cover it.

- `pool.dfy`, `rep.dfy`, `selection.dfy`, `client.dfy` and `auctioneer.dfy` follow the program's classes and
  loops. The client lets other auctions take any number of steps before each atomic call on a representative, so
  the contracts of the five algorithms hold in any company. It keeps, as ghosts, all states the pool has been in
  and the claims that were sent, and each algorithm returns as a ghost the log of its rounds, so that a contract can say what was asked, what was
  answered, that the answers were true when given, and what was decided on them. A client that is `quiet` (nobody else bids) and
  `Timely` (no latency exceeds the timeout) gives the stronger, sequential results: the four scoring algorithms
  refine one greedy specification. `fairness.dfy` builds whole sequences of auctions on that.
- `system.dfy` is the concurrent system as steps: any number of auctions under the distributor's semaphore, each
  with its own algorithm, interleaved at every call on a representative, with any timeouts and any subsets drawn. A step
  of one auction is, to every other, the interference of the first layer. `decisions.dfy` says where every claim,
  release and answer of any run came from, `solo.dfy` what one auction alone comes to, and `report.dfy` derives what
  a report says.

**The AMQP 0-9-1 client** (the vendored `streadway/amqp`). `wire.dfy`, `tables.dfy` and `tableio.dfy` are the
recursive field tables of section 4.2.5.5 with the type letters of RabbitMQ, and
`tableimage.dfy` says which of them can come off the wire at all; `frames.dfy` and `frameio.dfy` are
the frames of section 4.2.3 and the content header with its presence mask; `content.dfy` and `channel.dfy` split
content into frames (section 4.2.6) and put it together again on many channels; `confirms.dfy` is the heap of
publisher confirms; `deliveries.dfy` the unbounded buffer in front of a consumer. A table is written in whatever
order the map yields: `Ordered` is a value together with such an order, and the writing methods return the one
that was used as a ghost result.

**Two small numeric cores**: `stats.dfy` (streaming moments against batch moments) and `histogram.dfy` (`binUp`),
over exact reals.

`pool.dfy`, `tables.dfy`, `frames.dfy` and `content.dfy` define the meaning as functions on values; the classes
and loops in `rep.dfy`, `client.dfy`, `tableio.dfy`, `frameio.dfy`, `channel.dfy` and `confirms.dfy` are proved
equal to them, and the theorems are about the functions. Several proofs hide definitions they do not need, which
keeps each of them small.

## Where the code differs from what is promised

- A frame size of 0 is documented as unlimited (connection.go:39). When neither side sets a limit the tuned size
  is 0 and sending any body slices out of bounds; at a size of exactly 8 it sends empty frames forever.
  `Content.SendingEnds` and `Content.UnlimitedCannotSend` give the exact conditions.
- A byte string in a field is written with an unsigned length but read with a signed one, so from 2^31 bytes up to
  2^32 the reader panics (`Tables.FieldRoundTrip`); beyond that the length wraps and it may not
  (`Tables.ScalarReadBack`). Keys and other short strings are cut to their length modulo 256, and times lose their
  nanoseconds. `TableImage.FieldComesBack` and `Frames.HeaderComesBack` say exactly what does come back.
- A method for a channel that is not open, or content on channel 0, makes the reader wait for an answer that only it
  could read, so no channel hears anything more (`Content.StrayMethodEndsAll`, `Content.ContentOnZeroEndsAll`); a
  heartbeat for an open channel crashes the program. `Content.SurvivesIfHarmless` gives the exact condition.
- Publisher confirms count from the first message of the channel, the server from the moment confirms are turned
  on: the numbers agree only if nothing was published before (`Confirms.NumbersAgree`).
- Confirms are documented to be reported in order of publishing. They are if and only if each single confirm names
  the least tag that waits (`Confirms.ReportedInOrder`); `Confirms.SecondReportedFirst` and
  `Confirms.AscendingOutOfOrder` are runs where they are not.
- A distributor with `maxConcurrent` 0 never starts an auction (`System.StartsIffPermitted`).
- Streaming and batch variance differ on one datum (population) and on none (sample).

## Model

| member | source | states |
|---|---|---|
| Pool.ReserveKeepsValid | auctionrep/auction_rep.go:59-80 | a reservation made after the room check never overcommits memory, disk or containers, also when the guid was already held and is overwritten |
| Pool.ReleaseKeepsValid | simulation/simulationrepdelegate/simulation_rep_delegate.go:72-84 | releasing any guid, held or not, keeps every remainder at or above zero |
| Pool.RemainingWithinTotal | simulation/simulationrepdelegate/simulation_rep_delegate.go:127-135 | what remains never exceeds the totals |
| Pool.ScoreBand | auctionrep/auction_rep.go:146-153 | a representative with room scores in [n, n+1), n being its instances of the app |
| Pool.ScoreIsLexicographic | auctionrep/auction_rep.go:146-153 | scores compare first by instances of the app and then by mean utilisation, in both directions; what utilisation is, the three lemmas below pin down |
| Pool.EmptyScoresZero | auctionrep/auction_rep.go:146-153 | a representative that holds nothing scores 0 |
| Pool.ReserveRaisesScore | auctionrep/auction_rep.go:146-153 | a fresh instance raises the score by exactly (memory/total + disk/total + 1/total containers)/3, and by one more if it is of the app that is scored |
| Pool.FullerScoresHigher | auctionrep/auction_rep.go:146-153 | of two with equal totals and counts, the one with less left of some resource and no more of the others scores strictly higher |
| RepClasses.SimulationRepDelegate.RemainingResources | simulation/simulationrepdelegate/simulation_rep_delegate.go:127-135 | the loop over the map, in any order, leaves the totals minus the sums over all held instances |
| RepClasses.SimulationRepDelegate.NumInstancesForAppGuid | simulation/simulationrepdelegate/simulation_rep_delegate.go:38-51 | the number of held guids whose instance belongs to the app |
| RepClasses.SimulationRepDelegate.Reserve | simulation/simulationrepdelegate/simulation_rep_delegate.go:53-70 | succeeds exactly when there is room; then the map gains the instance, otherwise nothing changes |
| RepClasses.SimulationRepDelegate.ReleaseReservation | simulation/simulationrepdelegate/simulation_rep_delegate.go:72-84 | fails exactly when the guid is not held, and removes it otherwise; the error names the zero instance, as the code does |
| RepClasses.SimulationRepDelegate.Claim | simulation/simulationrepdelegate/simulation_rep_delegate.go:86-98 | fails exactly when the guid is not held, and changes nothing |
| RepClasses.SimulationRepDelegate.Instances | simulation/simulationrepdelegate/simulation_rep_delegate.go:114-123 | every held instance, once each, in some order |
| RepClasses.AuctionRep.Score | auctionrep/auction_rep.go:44-57 | the score when there is room and "insufficient resources" otherwise |
| RepClasses.AuctionRep.ScoreThenTentativelyReserve | auctionrep/auction_rep.go:59-80 | scores before it reserves; after its own room check the delegate's cannot fail, so it succeeds exactly when there was room |
| Selection.PermutationKeepsElements | types/vote_results.go:37-46 | picking the elements at permuted positions rearranges them |
| Selection.RandomSubsetByCount | types/rep_guids.go:9-21 | n of the guids as a sub-multiset, or all of them when there are fewer than n |
| Selection.RandomSubsetByFraction | types/rep_guids.go:23-31 | ceil(len * f) of the guids as a sub-multiset, all of them for f >= 1 |
| Selection.SubMultisetDistinct | types/rep_guids.go:9-31 | a drawn subset of duplicate-free guids is duplicate-free |
| Selection.PoolSizeBounds | types/rep_guids.go:23-31 | a fraction f below 1 asks for the least whole number that is not below n*f, and never for more than there are |
| Selection.Without | types/rep_guids.go:33-47 | exactly the guids that are not looked up, in order |
| Selection.KeepCounts | types/vote_results.go:26-35 | filtering keeps each passing element as often as it occurs and no other |
| Selection.AllFailed | types/vote_results.go:13-15 | true exactly when no answer is free of an error |
| Selection.Shuffle | types/vote_results.go:37-46 | a rearrangement of the answers |
| Selection.Rank | types/vote_results.go:26-51 | filter, shuffle and sort together give the error-free answers, ascending |
| Selection.RankHeadIsBest | types/vote_results.go:26-51 | the head of a ranking is error-free and no error-free answer scores lower |
| Selection.RankReps | types/vote_results.go:17-24 | the ranked representatives are exactly those that answered without an error, once each |
| Client.InprocessClient.BeSlowAndPossiblyTimeout | simulation/communication/inprocess/inprocess_client.go:36-46 | no timeout when no latency can exceed it, always one when every latency does |
| Client.InprocessClient.Score | simulation/communication/inprocess/inprocess_client.go:64-99 | one answer per representative asked; nothing of this instance moves; every answer is a timeout, where some latency can exceed it, or was the true score or lack of room at some moment of the call; alone and on time it is the truth at the start |
| Client.InprocessClient.ScoreThenTentativelyReserve | simulation/communication/inprocess/inprocess_client.go:101-136 | whatever other auctions do meanwhile, the representatives that hold the instance afterwards are exactly those that answered without an error, and every answer is a timeout or was true at some moment of the call |
| Client.InprocessClient.ReleaseReservation | simulation/communication/inprocess/inprocess_client.go:138-151 | every representative named no longer holds the instance; the missing reservations that are reported are exactly as many as did not hold it |
| Client.InprocessClient.Claim | simulation/communication/inprocess/inprocess_client.go:153-157 | moves nothing, meets its reservation if and only if it was held, and is the one claim sent |
| Client.ReservedTwice | simulation/communication/inprocess/inprocess_client.go:101-136 | reservations made in two steps add up |
| Client.ReservedThenReleased | simulation/communication/inprocess/inprocess_client.go:138-151 | releasing undoes reserving: alone, the pool is what it was |
| Auctioneer.AllRescoreAuction | auctioneer/all_rescore.go:14-60 | under any interference the instance ends on the winner only and no reservation is ever missed; the rounds are played as Plays says: the lowest score is told to reserve, the others score again while it holds its reservation, it is claimed only if no second answer is lower than its own and released only if one is; rounds and messages are counted exactly; alone the outcome is greedy over the subset drawn, and over the whole pool it is reached in round 1 |
| Auctioneer.ReserveNBestAuction | auctioneer/reserve_n_best.go:13-56 | the same ownership, counts and outcome; in each round exactly the five cheapest of those who can, or all of them, are told to reserve, and the lowest of those who did is claimed |
| Auctioneer.AllReserveAuction | auctioneer/all_reserve.go:12-39 | the same; all who are drawn are told to reserve, and the lowest of those who did is claimed |
| Auctioneer.PickBestAuction | auctioneer/pick_best.go:12-41 | the same; the lowest score is told to reserve, and claimed if it did |
| Auctioneer.RandomAuction | auctioneer/random.go:13-31 | the same ownership and counts with one representative drawn per round; it needs a representative to draw |
| Auctioneer.Auction | auctioneer/auctioneer.go:18-43 | every algorithm settles the instance on its winner or nowhere, and its report is that of its rounds: only the last claims, what it claims is the winner and the one claim sent, failure takes MaxRounds+1, and the messages are the sum of what the rounds sent; all but random refine the one greedy specification |
| Auctioneer.WholePool | types/rep_guids.go:23-31 | over the whole pool a greedy draw is greedy among all, and a full draw means nobody has room |
| Auctioneer.RankedIsBest | auctioneer/pick_best.go:26 | the head of a ranking of true answers is a representative of minimal score among those with room |
| Auctioneer.SecondPlaceIsNoBetter | auctioneer/all_rescore.go:44-52 | alone, the winner can reserve and no second answer undercuts it, so it is never released |
| Auctioneer.ShortlistHoldsTheBest | auctioneer/reserve_n_best.go:27-44 | alone, somebody among the top five can reserve and the cheapest who does is best overall |
| Auctioneer.RecastSucceeds | auctioneer/all_rescore.go:30-42 | alone, the best representative still has its room and its score when told to reserve |
| Auctioneer.FirstAreCheapest | auctioneer/reserve_n_best.go:27-33 | the first n of a ranking are the n cheapest of all error-free answers, or all of them |
| Auctioneer.UndercutBySecond | auctioneer/all_rescore.go:44-52 | the head of the second ranking is below the recast if and only if some error-free second answer is |
| Auctioneer.MessagesBounded | auctioneer/reserve_n_best.go:13-56 | the messages of a whole auction are bounded by the rounds: with k drawn, r(2k+1) for all-rescore, r(k+5)+5 for reserve-n-best, rk+k for all-reserve, r(k+1)+1 for pick-best, r+1 for random |
| Fairness.RoomIsAFreeSlot | auctionrep/auction_rep.go:138-144 | with equal instances, room means fewer instances than slots |
| Fairness.BestHasFewest | auctionrep/auction_rep.go:146-153 | a best representative has the fewest instances among those with room |
| Fairness.FairStep | auctioneer/reserve_n_best.go:13-56 | one greedy auction keeps the pool fair: whoever has room trails nobody by more than one |
| Fairness.FullWhenNoRoom | auctionrep/auction_rep.go:138-144 | the pool is full exactly when nobody has room, and never more than full |
| Fairness.FairSpread | auctionrep/auction_rep.go:138-153 | after every auction of a run from an empty pool of any totals: fair, and exactly min(auctions, slots) instances placed |
| Fairness.HoldOneByOne | simulation/auctiondistributor/auction_distributor.go:39-77 | the same of the algorithms themselves, held one by one by any of the four greedy algorithms |
| System.StepKeepsInv | auctioneer/all_rescore.go:14-60 | every step of every interleaving keeps ownership, capacity, the semaphore and the results consistent; what the decisions decide is in Decisions and Solo |
| System.EveryReachableState | auctioneer/reserve_n_best.go:13-56 | in every reachable state of any number of auctions, a representative holds an instance exactly while its auction has it reserved there or has won there; nothing is overcommitted; no claim or release was missed; at most maxConcurrent are past the semaphore |
| System.PoolAfter | auctionrep/auction_rep.go:44-94 | a step overcommits no representative and moves only the acting auction's instance |
| System.HeldAfter | auctioneer/all_reserve.go:12-39 | an auction's control state and the representatives agree after each step on what it holds |
| System.StepIsInterference | auctionrep/auction_rep.go:44-94 | to every other auction a step is the interference that the auctioneers are proved against |
| System.NothingMissed | simulation/simulationrepdelegate/simulation_rep_delegate.go:72-98 | no claim or release meets "no reservation" |
| System.ConcurrentIsSequential | simulation/auctiondistributor/auction_distributor.go:60-64 | once all results are in, the pool is the initial one with each instance placed on its winner, one after another, and nowhere for no winner |
| System.CollectedAll | simulation/auctiondistributor/auction_distributor.go:60-64 | as many results as instances means one from each auction |
| System.CompleteRunDelivers | simulation/auctiondistributor/auction_distributor.go:43-64 | with a permit, a run that has nothing left to do has exactly one result from every auction, and each instance is on its winner or nowhere |
| System.StepDecreases | simulation/auctiondistributor/auction_distributor.go:46-58 | every step brings the auction that takes it nearer its end |
| System.EveryRunEnds | simulation/auctiondistributor/auction_distributor.go:43-64 | no schedule is longer than the measure of its first state |
| System.NeverDeadlocked | simulation/auctiondistributor/auction_distributor.go:43-64 | with a permit, some auction can step until all have gone |
| System.StartsIffPermitted | simulation/auctiondistributor/auction_distributor.go:44-48 | something can start if and only if there is an instance and maxConcurrent is at least 1; at 0 every auction blocks |
| Decisions.ClaimsWereDecided | auctioneer/all_rescore.go:39-56 | in every run of any auctions: a claim goes back to a decision with all answers in; all-rescore claims whom it told to reserve only if that agreed and no second answer was lower, the others claim the lowest of those that reserved and release the rest |
| Decisions.WinnersWereClaimed | auctioneer/all_rescore.go:54-56 | in every run: no auction reports a winner, or lets others go for it, that it has not claimed before and decided to claim before that |
| Decisions.ReleasesWereUndercut | auctioneer/all_rescore.go:44-52 | in every run: a reservation is given back without a winner only by all-rescore and only because some second answer was lower |
| Decisions.PhasesWereDecided | auctioneer/reserve_n_best.go:27-37 | in every run: those told to reserve are the cheapest, one or five, of all who were asked for a score in that round; all-rescore asks all the others again once its choice has answered |
| Decisions.AnswersWereGiven | auctionrep/auction_rep.go:44-80 | in every run: each answer an auction has was given in its present phase and round, from what the representative then held: an error if it came too late or there was no room, and else the score |
| Decisions.EveryRoundIsTried | auctioneer/pick_best.go:12-41 | in every run: rounds stay within 1 to MaxRounds, and an auction gives up only in round MaxRounds+1 |
| Decisions.NothingIsRuledOut | simulation/auctiondistributor/auction_distributor.go:43-58 | a waiting auction may start exactly while fewer than the permitted number are past the semaphore, any subset of the right size may be drawn, and whoever is asked may answer next, in time or too late |
| Solo.EveryStateKnows | auctioneer/all_rescore.go:14-60 | along every run of one auction alone: all answers are those of the first pool, whoever is told to reserve alone is a best representative, and a second round means that nobody has room |
| Solo.SoloIsGreedy | auctioneer/reserve_n_best.go:13-56 | every complete run of one auction that draws the whole pool, is not random and meets no timeout, however it is scheduled: the one result is greedy over the whole pool, the pool gains the instance there and nothing else, and success comes in round 1 |
| Reporting.Report.IsAuctionedInstance | simulation/visualization/report.go:37-46 | the cache answers as the list of results does |
| Reporting.Report.NMissingInstances | simulation/visualization/report.go:56-67 | auctions held minus listed instances that were auctioned |
| Reporting.CountedOnce | simulation/visualization/report.go:56-67 | each auctioned instance a representative holds is counted once |
| Reporting.Conservation | simulation/auctiondistributor/auction_distributor.go:60-76 | under every interleaving the memory, disk and containers used in the pool rise by exactly what the winners asked for |
| Reporting.MissingMeansNoWinner | simulation/visualization/report.go:56-67 | the missing count is the number of auctions without a winner |
| Wire.UintRoundTrip | Godeps/_workspace/src/github.com/streadway/amqp/write.go:320-334 | a big-endian integer of any width reads back |
| Wire.BigEndian | Godeps/_workspace/src/github.com/streadway/amqp/write.go:210-222 | byte i of an integer is the integer shifted right by the bytes behind it: network byte order |
| Wire.LengthInFront | Godeps/_workspace/src/github.com/streadway/amqp/write.go:239-269 | the bytes of a short and of a long string: its length in one or four bytes, and itself |
| Wire.TooFewBytes | Godeps/_workspace/src/github.com/streadway/amqp/read.go:45-50 | a read that finds too few bytes is an unexpected end, one that finds none is the end |
| Wire.PrefixedReadBack | Godeps/_workspace/src/github.com/streadway/amqp/write.go:239-269 | a short or long string reads back as the part its length announces, leaving what follows |
| Tables.ScalarReadBack | Godeps/_workspace/src/github.com/streadway/amqp/write.go:287-396 | every scalar of any length: texts and byte strings are cut at their length modulo 2^32, and a byte string whose length then reads as negative panics the reader |
| Tables.ScalarOnTheWire | Godeps/_workspace/src/github.com/streadway/amqp/write.go:287-396 | the bytes of every scalar, with the number of its type letter, integers in two's complement and network order |
| Tables.ArrayOnTheWire | Godeps/_workspace/src/github.com/streadway/amqp/write.go:341-361 | an array is the letter A, its length in bytes, and its items one by one |
| Tables.TableOnTheWire | Godeps/_workspace/src/github.com/streadway/amqp/write.go:372-411 | a table is the letter F, its length in bytes, and its keys and values one by one |
| Tables.UnknownLetter | Godeps/_workspace/src/github.com/streadway/amqp/read.go:166-256 | a field is a syntax error at its letter if and only if that is none of the fourteen |
| Tables.AnyOctetIsABool | Godeps/_workspace/src/github.com/streadway/amqp/read.go:172-178 | every octet but zero reads as true |
| Tables.CutOffArray | Godeps/_workspace/src/github.com/streadway/amqp/read.go:294-317 | an array whose stream ends between two items reads as a shorter array, without an error |
| Tables.FieldRoundTrip | Godeps/_workspace/src/github.com/streadway/amqp/read.go:166-317 | any nesting, any visiting order: what is written reads back in normal form and leaves exactly the suffix, or panics exactly when some byte string is too long |
| Tables.ArrayRoundTrip | Godeps/_workspace/src/github.com/streadway/amqp/read.go:294-317 | the limited reader of an array takes exactly its items |
| Tables.TableRoundTrip | Godeps/_workspace/src/github.com/streadway/amqp/read.go:264-292 | a table reads back key by key |
| Tables.NormalIsErase | Godeps/_workspace/src/github.com/streadway/amqp/write.go:239-269 | with each key visited once, the normal form is the value itself if and only if all keys are under 256 bytes and all times whole seconds, at every depth |
| TableImage.DecodedFieldFits | Godeps/_workspace/src/github.com/streadway/amqp/read.go:166-317 | whatever bytes come in, a value that is read has short keys, whole seconds and lengths within their prefixes, and is no larger than what was consumed |
| TableImage.GoodIsFitting | Godeps/_workspace/src/github.com/streadway/amqp/write.go:287-411 | a value is fit to be written, in whatever order, if and only if a reader can produce it |
| TableImage.FieldComesBack | Godeps/_workspace/src/github.com/streadway/amqp/read.go:166-317 | any value at all comes back as it was sent, leaving what follows, if and only if all lengths, keys and times fit the wire, at every depth |
| TableImage.TableComesBack | Godeps/_workspace/src/github.com/streadway/amqp/write.go:398-411 | the same of a table on its own, for every order of its map |
| TableImage.OrderDoesNotMatter | Godeps/_workspace/src/github.com/streadway/amqp/write.go:398-411 | two visiting orders of one table take the same number of bytes and are read alike |
| TableIO.WriteField | Godeps/_workspace/src/github.com/streadway/amqp/write.go:287-396 | succeeds exactly on the values that validate, and appends the encoding of the value in the order it visited |
| TableIO.WriteTable | Godeps/_workspace/src/github.com/streadway/amqp/write.go:398-411 | the loop over the map in any order writes every key once, with its value |
| TableIO.ReadField | Godeps/_workspace/src/github.com/streadway/amqp/read.go:166-256 | consumes and returns what the specification decodes, on every input |
| TableIO.ReadTable | Godeps/_workspace/src/github.com/streadway/amqp/read.go:264-292 | the loop over the nested bytes, on every input, well-formed or not |
| TableIO.ReadArray | Godeps/_workspace/src/github.com/streadway/amqp/read.go:294-317 | the loop over the limited reader; any end of file ends the array, as in the code |
| Frames.AddFlag | Godeps/_workspace/src/github.com/streadway/amqp/write.go:87-128 | setting a flag above all clear bits changes no other |
| Frames.MaskMarksPresence | Godeps/_workspace/src/github.com/streadway/amqp/write.go:84-128 | bit i of the mask is set if and only if property i is not its default |
| Frames.MaskByField | Godeps/_workspace/src/github.com/streadway/amqp/types.go:85-98 | the mask as the sum of thirteen literal flags, each for its field being set |
| Frames.HasPropertyIsTheBit | Godeps/_workspace/src/github.com/streadway/amqp/read.go:320-322 | testing a property is looking at one bit of the mask |
| Frames.PropertiesOnTheWire | Godeps/_workspace/src/github.com/streadway/amqp/write.go:134-198 | the bytes of the properties, field by field in the order of their flags |
| Frames.FrameOnTheWire | Godeps/_workspace/src/github.com/streadway/amqp/write.go:209-236 | the bytes of every frame: type 2, 3 or 8, channel, length of the payload, payload, 206; and the payload of a header |
| Frames.SlotsRoundTrip | Godeps/_workspace/src/github.com/streadway/amqp/read.go:324-419 | the properties announced by the mask are told apart again |
| Frames.HeaderRoundTrip | Godeps/_workspace/src/github.com/streadway/amqp/read.go:324-419 | a header payload reads back, without looking at the frame length |
| Frames.FrameRoundTrip | Godeps/_workspace/src/github.com/streadway/amqp/read.go:45-90 | header, body and heartbeat frames read back as what is left of them, and the suffix is untouched; a header panics the reader exactly when its table does |
| Frames.BodyComesBack | Godeps/_workspace/src/github.com/streadway/amqp/read.go:421-432 | a body comes back if and only if its length fits four bytes |
| Frames.RefusedByType | Godeps/_workspace/src/github.com/streadway/amqp/read.go:45-80 | a frame type other than the four is a frame error, and a heartbeat with a payload crashes |
| Frames.RefusedByMark | Godeps/_workspace/src/github.com/streadway/amqp/read.go:81-90 | any frame with any other byte in the place of its end mark is a frame error, and what follows is left |
| Frames.CutShort | Godeps/_workspace/src/github.com/streadway/amqp/read.go:45-90 | a body frame cut anywhere is an unexpected end, but a plain end where it is cut before the frame, before its payload or before its end mark |
| Frames.ReservedIsRead | Godeps/_workspace/src/github.com/streadway/amqp/read.go:412-416 | the fourteenth property, never written, is read |
| Frames.PropertiesArrive | Godeps/_workspace/src/github.com/streadway/amqp/write.go:68-201 | the properties arrive unchanged if and only if their short strings are under 256 bytes, the table is absent or non-empty and faithful, the time whole seconds and the reserved string empty |
| Frames.DecodedFrameFits | Godeps/_workspace/src/github.com/streadway/amqp/read.go:324-419 | whatever bytes come in, the header table of a frame that is read fits the wire |
| Frames.HeaderComesBack | Godeps/_workspace/src/github.com/streadway/amqp/read.go:45-90 | on the wire, with any bytes behind it: a header frame comes back as it was sent if and only if its properties are clean and every length in its table is within its prefix |
| Frames.StreamRoundTrip | Godeps/_workspace/src/github.com/streadway/amqp/read.go:45-90 | a stream of frames of any kinds is told apart again, frame by frame, to its end |
| FrameIO.BuildMask | Godeps/_workspace/src/github.com/streadway/amqp/write.go:84-128 | the first pass over the properties builds the mask |
| FrameIO.WriteProperties | Godeps/_workspace/src/github.com/streadway/amqp/write.go:134-198 | the second pass writes exactly the announced properties, and fails exactly on a table that does not validate |
| FrameIO.WriteHeaderFrame | Godeps/_workspace/src/github.com/streadway/amqp/write.go:68-201 | writes the whole frame or, when the table does not validate, nothing |
| FrameIO.ParseHeaderFrame | Godeps/_workspace/src/github.com/streadway/amqp/read.go:324-419 | consumes and returns what the specification decodes, on every input |
| FrameIO.ReadOneFrame | Godeps/_workspace/src/github.com/streadway/amqp/read.go:45-90 | the same for one frame of any type, with its errors |
| Content.SendingEnds | Godeps/_workspace/src/github.com/streadway/amqp/channel.go:220-248 | the loop over the body ends well if and only if the body is empty or the frame size is above eight |
| Content.UnlimitedCannotSend | Godeps/_workspace/src/github.com/streadway/amqp/connection.go:683-700 | when the tuned frame size lets a body be sent; with no limit on either side it is 0 and none can be |
| Content.PickIsTheTighter | Godeps/_workspace/src/github.com/streadway/amqp/connection.go:683-700 | what is tuned is the tighter of the two limits, none counting as no limit |
| Content.ChunksMakeTheBody | Godeps/_workspace/src/github.com/streadway/amqp/channel.go:239-248 | the pieces make up the body, none is empty, none too long, all but the last are full |
| Content.FramesFit | Godeps/_workspace/src/github.com/streadway/amqp/channel.go:213-258 | every body frame encodes to at most the agreed frame size |
| Content.EmittedFrames | Godeps/_workspace/src/github.com/streadway/amqp/channel.go:213-248 | a message is its method, then a header with its class, weight 0 and the length of the body, then pieces of the body, all on one channel |
| Content.MessageArrives | Godeps/_workspace/src/github.com/streadway/amqp/channel.go:315-399 | from any state, interrupted content included, the frames of a message cause exactly one dispatch, of that message with the identical body |
| Content.ConversationArrives | Godeps/_workspace/src/github.com/streadway/amqp/channel.go:315-399 | messages one after another arrive in order, once each, from any state |
| Content.HandedOnWasSent | Godeps/_workspace/src/github.com/streadway/amqp/channel.go:315-399 | whatever frames come to a fresh channel: each message it hands on lies in the stream as contiguous method, header and body frames that make up exactly that message, the announced size reached with the last and not before; different messages lie in different frames, in order |
| Content.HandedOnIffSent | Godeps/_workspace/src/github.com/streadway/amqp/channel.go:315-399 | a message is handed on if and only if its frames came, next to each other, somewhere |
| Content.CarriedArrives | Godeps/_workspace/src/github.com/streadway/amqp/channel.go:315-399 | from any state, the frames of a message, however its body is cut, hand it on with the last of them |
| Content.StrayFrameHandsOnNothing | Godeps/_workspace/src/github.com/streadway/amqp/channel.go:326-399 | one frame hands on one message at most, and a header or body frame that is not due none: what was collected is forgotten |
| Content.SentMeansEmitted | Godeps/_workspace/src/github.com/streadway/amqp/channel.go:239-248 | when the loop over the body has ended, what was sent are its chunks |
| Content.LastsUntilAFatalFrame | Godeps/_workspace/src/github.com/streadway/amqp/connection.go:370-444 | the connection handles exactly the frames before the first that ends it, and goes down for that reason |
| Content.SurvivesIfHarmless | Godeps/_workspace/src/github.com/streadway/amqp/connection.go:370-444 | a connection survives a stream if and only if no frame, when it comes, is a method for a channel that is not open (but closing), content or close on channel 0, or a heartbeat for an open channel |
| Content.StrayMethodEndsAll | Godeps/_workspace/src/github.com/streadway/amqp/connection.go:428-444 | after a method for a channel that is not open no channel hears anything more, whatever follows |
| Content.ContentOnZeroEndsAll | Godeps/_workspace/src/github.com/streadway/amqp/connection.go:400-407 | the same after content on channel 0 |
| Content.DroppedWithoutATrace | Godeps/_workspace/src/github.com/streadway/amqp/connection.go:428-444 | content, heartbeats and the end of a channel that is not open leave everything as if they had not come |
| Content.OtherMethodsOnZero | Godeps/_workspace/src/github.com/streadway/amqp/connection.go:378-399 | no method on channel 0 but the close of the connection has an effect on any channel |
| Content.ClosedOrCrashed | Godeps/_workspace/src/github.com/streadway/amqp/connection.go:370-407 | the other side closing the connection, or a heartbeat for an open channel, is the end of it |
| Content.OpenChannelTakes | Godeps/_workspace/src/github.com/streadway/amqp/connection.go:409-412 | an open channel takes every frame carried to it, is open no longer exactly after its close, and no such frame ends the connection |
| Content.ChannelsAreIndependent | Godeps/_workspace/src/github.com/streadway/amqp/connection.go:370-444 | however frames are interleaved, an open channel takes exactly its own, up to the one that closes it or the frame that ends the connection |
| Content.NothingIsMadeUp | Godeps/_workspace/src/github.com/streadway/amqp/connection.go:370-444 | over a connection, whatever comes: a channel that was fresh has handed on a message if and only if its frames came next to each other among those the channel heard |
| Content.EveryChannelGetsItsMessages | Godeps/_workspace/src/github.com/streadway/amqp/connection.go:370-444 | with every channel in any state, their frames mixed in any way and nothing that ends the connection, each hands on exactly its messages |
| Channels.Channel.RecvMethod | Godeps/_workspace/src/github.com/streadway/amqp/channel.go:315-340 | the object takes the step that HandedOnWasSent, CarriedArrives and StrayFrameHandsOnNothing are about |
| Channels.Channel.RecvHeader | Godeps/_workspace/src/github.com/streadway/amqp/channel.go:342-369 | the same in the second state |
| Channels.Channel.RecvContent | Godeps/_workspace/src/github.com/streadway/amqp/channel.go:373-399 | the same in the third state |
| Channels.Connection.CloseWith | Godeps/_workspace/src/github.com/streadway/amqp/connection.go:300-309 | asks for the connection to be closed, and the reader handles nothing more |
| Channels.Connection.Dispatch0 | Godeps/_workspace/src/github.com/streadway/amqp/connection.go:378-407 | on channel 0 content ends the connection, and so does the close of the other side |
| Channels.Connection.DispatchClosed | Godeps/_workspace/src/github.com/streadway/amqp/connection.go:428-444 | for a channel that is not open content is dropped, a close answered, a close-ok ignored, and any other method ends the connection |
| Channels.Connection.DispatchOpen | Godeps/_workspace/src/github.com/streadway/amqp/connection.go:409-412 | an open channel takes the frame; told to close, it is answered for and removed |
| Channels.Connection.Demux | Godeps/_workspace/src/github.com/streadway/amqp/connection.go:370-415 | one frame changes its own channel only, or ends the connection, as specified |
| Channels.AnswersFitFates | Godeps/_workspace/src/github.com/streadway/amqp/connection.go:370-444 | the peer is asked to close exactly for frames that are errors, what it closes is confirmed, and nothing else is answered |
| Channels.Connection.Reader | Godeps/_workspace/src/github.com/streadway/amqp/connection.go:449-468 | the loop over incoming frames does what handling them one after another specifies, stops where that ends the connection, and, if writing never fails, has written exactly the answers |
| Channels.Connection.SendOpen | Godeps/_workspace/src/github.com/streadway/amqp/channel.go:213-258 | for every frame size: after any number of turns, exactly the frames specified, or a proper prefix when writing fails; it reports whether it has ended, crashed or goes on, and ended means all frames of the message |
| TagHeap.RootIsLeast | Godeps/_workspace/src/github.com/streadway/amqp/types.go:210-221 | the root of the heap is its least tag |
| TagHeap.TagSet.Up | Godeps/_workspace/src/github.com/streadway/amqp/types.go:210-221 | sifting up restores the heap and loses nothing |
| TagHeap.TagSet.Down | Godeps/_workspace/src/github.com/streadway/amqp/types.go:210-221 | sifting down does, and leaves the rest alone |
| TagHeap.TagSet.Push | Godeps/_workspace/src/github.com/streadway/amqp/types.go:210-221 | adds the tag and keeps the heap |
| TagHeap.TagSet.Pop | Godeps/_workspace/src/github.com/streadway/amqp/types.go:210-221 | takes out a least tag and keeps the heap |
| Confirms.Publisher.Publish | Godeps/_workspace/src/github.com/streadway/amqp/channel.go:1327-1367 | a message counts, gets the next number and waits for its confirm exactly when its headers validate and it could be sent |
| Confirms.Publisher.ConfirmOne | Godeps/_workspace/src/github.com/streadway/amqp/channel.go:568-593 | tells the listeners of its own kind just the tag and the others nothing, and keeps all other tags waiting; crashes if and only if the tag does not wait |
| Confirms.Publisher.ConfirmMultiple | Godeps/_workspace/src/github.com/streadway/amqp/channel.go:597-615 | reports all waiting tags up to it, ascending; crashes if and only if the tag does not wait |
| Confirms.Publisher.Dispatch | Godeps/_workspace/src/github.com/streadway/amqp/channel.go:283-295 | an ack goes to the listeners for acks and a nack to those for nacks, one or several at a time |
| Confirms.Publisher.Confirm | Godeps/_workspace/src/github.com/streadway/amqp/channel.go:1509-1524 | starts with nothing waiting |
| Confirms.MultipleReportsUpTo | Godeps/_workspace/src/github.com/streadway/amqp/channel.go:597-615 | what a multiple confirm reports and what it leaves, element by element |
| Confirms.OtherKindHearsNothing | Godeps/_workspace/src/github.com/streadway/amqp/channel.go:568-615 | a single confirm adds exactly its tag to the log of its kind; no confirm adds to the log of the other |
| Confirms.HeardFromItsKind | Godeps/_workspace/src/github.com/streadway/amqp/channel.go:283-295 | over any run: the listeners for acks heard of a tag if and only if an ack named it, or named a later one while it waited; those for nacks likewise |
| Confirms.EveryRunIsAccounted | Godeps/_workspace/src/github.com/streadway/amqp/channel.go:568-615 | over any publishes and confirms: waiting is exactly published minus reported, and no tag is reported twice, to either kind of listener or across both |
| Confirms.NumbersAgree | Godeps/_workspace/src/github.com/streadway/amqp/channel.go:1485-1524 | the server's numbers and the channel's agree if and only if nothing was published before confirms were turned on |
| Confirms.ReportedInOrder | Godeps/_workspace/src/github.com/streadway/amqp/channel.go:539-540 | over all legal runs, acks and nacks and single and multiple confirms mixed: what has been reported is exactly 1, 2, 3 and so on, after every prefix, if and only if each single confirm names the least tag that waits |
| Confirms.SecondReportedFirst | Godeps/_workspace/src/github.com/streadway/amqp/channel.go:568-593 | two messages confirmed one by one, the second first, are reported as 2, 1 |
| Confirms.AscendingOutOfOrder | Godeps/_workspace/src/github.com/streadway/amqp/channel.go:568-615 | confirms that arrive ascending can be reported as 2, 1, 3 |
| Confirms.SinglesKeepTheirOrder | Godeps/_workspace/src/github.com/streadway/amqp/channel.go:568-593 | legal single confirms are reported in the order they come |
| Deliveries.NothingLostOrReordered | Godeps/_workspace/src/github.com/streadway/amqp/consumers.go:34-62 | under every schedule the output is a prefix of the input, the rest is in the queue or in hand, and the output closes only when all has gone out |
| Deliveries.EveryDrainingRunEnds | Godeps/_workspace/src/github.com/streadway/amqp/consumers.go:34-62 | once the input is closed every run is bounded |
| Deliveries.NeverStuck | Godeps/_workspace/src/github.com/streadway/amqp/consumers.go:34-62 | and has a step until the output is closed |
| Deliveries.BufferDeliveries | Godeps/_workspace/src/github.com/streadway/amqp/consumers.go:34-62 | the loops, with every select decided freely, put out the input |
| Moments.ShiftDeviations | Godeps/_workspace/src/github.com/GaryBoone/GoStats/stats/stats.go:81-99 | moving the centre changes the sums of powers by the binomial formulas |
| Moments.OneMore | Godeps/_workspace/src/github.com/GaryBoone/GoStats/stats/stats.go:81-99 | the update formulas take the batch figures of some data to those of the data with one more datum |
| Moments.Stats.Update | Godeps/_workspace/src/github.com/GaryBoone/GoStats/stats/stats.go:81-99 | after any updates mean, sum, min, max and the second, third and fourth sums are the batch ones |
| Moments.Stats.UpdateArray | Godeps/_workspace/src/github.com/GaryBoone/GoStats/stats/stats.go:102-106 | the same for an array |
| Moments.StatsMin | Godeps/_workspace/src/github.com/GaryBoone/GoStats/stats/stats.go:174-185 | the least datum, or not a number |
| Moments.StatsMax | Godeps/_workspace/src/github.com/GaryBoone/GoStats/stats/stats.go:187-198 | the greatest datum, or not a number |
| Moments.StatsMean | Godeps/_workspace/src/github.com/GaryBoone/GoStats/stats/stats.go:200-209 | the quotient of sum and count |
| Moments.SumPoweredDeltas | Godeps/_workspace/src/github.com/GaryBoone/GoStats/stats/stats.go:211-218 | the loops over the deviations add up their powers |
| Moments.PopulationVariancesAgree | Godeps/_workspace/src/github.com/GaryBoone/GoStats/stats/stats.go:108-113 | the streaming and batch population variances agree except over exactly one datum |
| Moments.SampleVariancesAgree | Godeps/_workspace/src/github.com/GaryBoone/GoStats/stats/stats.go:115-120 | the sample variances agree except over no data |
| Moments.KurtosesAgree | Godeps/_workspace/src/github.com/GaryBoone/GoStats/stats/stats.go:151-153 | the excess kurtoses agree on all data; without spread neither is a number |
| Histogram.BinUp | simulation/visualization/report_card.go:195-210 | stays in bounds exactly when the last datum is not above the last boundary; then each bin holds the fraction of the data in its half-open interval |
| Histogram.AllCounted | simulation/visualization/report_card.go:195-210 | the bins together count each datum once |
| Histogram.CumulativeCount | simulation/visualization/report_card.go:195-210 | the first bins together count exactly the data not above their last boundary: a datum on a boundary goes below it |
| Histogram.FractionsSumToOne | simulation/visualization/report_card.go:195-210 | the fractions sum to 1 |

## Left out

- NATS, rabbit and HTTP transports between auctioneers and representatives, JSON, logging, flags and the programs around them: input and output.
- The algorithm pick_among_best: it slices five answers unconditionally, so it needs at least five without an error, and adds nothing to pick_best.
- Setting and resetting a representative's instances: set-up of a simulation; any state that fits serves as the initial one.
- The aliasing of representatives: the in-process client holds each representative by its contents and builds the object for a call, so one object under two guids is not modelled.
- Locks and goroutines: each call on a representative is one atomic step, in any order; sleeping is a free choice of a latency within its bounds, and random numbers are any permutation.
- float64: amounts, scores and statistics are exact reals, so rounding, overflow and signed zeros are not modelled. Totals of representatives are positive.
- Guids and error texts: numbers stand for guids and constructors for errors; they are only ever compared.
- Sort order among equal scores: the library sort is any ascending rearrangement.
- Messages in the concurrent steps: they are counted in the methods, under interference.
- Method frames on the wire: their arguments are generated code for each method; the reader's specification stops with MethodArguments there. In content.dfy a method is opaque but for whether content follows it.
- The thirteen property conditions of the header writer and the fourteen of its reader are loops over the properties in the order of their flags, with the same conditions and the same order.
- The location inside a time value, signalling NaNs, and strings as text: times are seconds and nanoseconds, floats bit patterns, strings bytes.
- Channel 0 beyond what ends the connection: handshake, tuning but for pick, blocked notices, answers to calls, TLS.
- What a dispatched message does beyond being handed on and, for a close, closing its channel: flow, cancel, consumers. Handing on waits for a receiver, who is taken to be there.
- Channels that the local side opens or closes while frames come in: the open channels change only by closes of the other side. Channel numbers wrap after 65535; the model has no open channel 0.
- A failed write shuts the connection down in the background: the model only says what was sent.
- Channels.Connection.SendOpen: is watched for a number of turns of its loop, because at a frame size of eight the loop does not end.
- Tables.FieldRoundTrip: says what arrives only where every length is within its four bytes; beyond that TableImage.FieldComesBack says that the value does not come back, not what comes instead.
- Tables.TableRoundTrip: the same.
- Tables.ArrayRoundTrip: the same.
- The container/heap package is not part of this repository; TagHeap models its sift-up and sift-down over the repository's tag set.
- Confirms.Publisher.Publish: tags are unbounded, so the wrap-around of the 64-bit counter is not modelled.
- Skew and standard deviations: they only apply square roots to figures that are modelled.
- Drawing and printing of reports.
