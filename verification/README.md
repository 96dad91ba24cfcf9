# Verification model of the bidding and auction services

This project models the decision making of the Bidding and Auction services of the Privacy Sandbox and
proves properties of it:

- **The egress payload** (`EgressNumbers`, `EgressFeatures`, `EgressPipeline`): packing feature bits from the
  last byte backwards, the header byte, and the schema cache whose copies requests fill in.  The payload is
  shown to be a mixed-radix number, and to be decodable.
- **The auction** (`Auctions`, `IndexLists`, `RejectionPass`, `CandidateScan`, `AuctionOutcome`, `WinnerSelection`,
  `OtherBids`, `DispatchRequests`): the partition of the scored ads, the sort, the choice of winner and ghost
  winners, the bids of the runners-up, and the index from dispatch ids to ads.
- **Sampled debug reports** (`SellerDebugReports`, `BuyerDebugReports`): scans with three flags and an early exit.
- **The seller frontend** (`TaskTracker`, `BuyerFanOut`, `FanOutRuns`, `CurrencyFilter`, `KAnon`, `ScoringJoin`,
  `KAnonWinners`): whom bid requests go to, the currency filter, and the join of the k-anonymity query with the
  fetch of the scoring signals.  `FanOutRuns` and `ScoringJoin` are state machines; their theorems hold of every
  sequence of events, so of every interleaving.  `KAnonWinners` joins them with the auction.
- **The bidding service** (`RunningMean`, `BinaryBidding`, `Contributions`): execution statistics with their
  truncating running average, the final response, and the contribution limiter.

Code that works in place is a class or a method over an array or a mutable list, proved against a function or
predicate; what the result means is then proved about that function.  Random choices, the order of hash maps and the
order `std::sort` leaves among equal elements are arbitrary, so every statement holds for all of them.

## Where the code does less than one might expect

- Candidate lists compare a score with a score cut to an `int`.  Ads tied at a fractional top score are therefore not
  all candidates (`Auctions.CandidatesCompleteIff`, `Auctions.FractionalTieLosesCandidate`); the winner still has the
  greatest score.
- The comment at services/auction_service/score_ads_reactor.cc:1528-1529 calls every ad above the first k-anonymous one
  a ghost candidate; the code keeps only those tied with the first of them at an integer score
  (`CandidateScan.GhostsCompleteIff`, `CandidateScan.LowerGhostDropped`).
- The scores of other bids are sorted by integer part, so the two highest are reported in every case only under the
  exact condition of `OtherBids.TopTwoReportedIff`.
- The early exit of the sampled debug reports loses a report when several ads share the winning interest group
  (`SellerDebugReports.SharedGroupLosesReport`, `BuyerDebugReports.SharedGroupLosesReport`).
- A replay that asks remembered chaff while chaffing is off does not tell the tracker about it
  (`BuyerFanOut.SelectAdReactor.TrackerUnderflowsIff`).
- A replayed request whose remembered buyer has no input any more waits for a reply nobody will send
  (`BuyerFanOut.ReplayWithoutInputWaits`, `FanOutRuns.CallbackReachableIff`).
- A mismatch of generation ids drops the requests of a top-level auction and keeps its ads
  (`DispatchRequests.MismatchLeavesAd`, `DispatchRequests.LeftoverIff`).
- With one dispatch id in both ad maps a response finds the wrong ad (`DispatchRequests.ResolvesIff`,
  `DispatchRequests.SharedIdFindsOtherAd`).
- When every execution of the bidding code misses its start deadline, the request ends as exhausted in batch mode but
  as a success without bids in the other mode (`BinaryBidding.BatchExhaustedIff`,
  `BinaryBidding.TrackedNeverExhausted`).
- Feature sizes are added up in 32 bits.  When that loses part of the total and a payload is packed all the same, some
  values make the packer write outside its array, and only then (`EgressFeatures.InBoundsIff`,
  `EgressFeatures.WrappedTotalOverruns`).

## Model

| member | source | states |
|---|---|---|
| `EgressNumbers.PayloadNumber` | services/bidding_service/protected_app_signals_generate_bids_reactor.cc:133-163 | The payload bytes, read as one big-endian integer, are the mixed-radix number of the features (feature i weighs 2 to the total width of the features before it), which is below 2 to the total width, so all padding bits are zero |
| `EgressNumbers.RoundTrip` | services/bidding_service/protected_app_signals_generate_bids_reactor.cc:98-163 | A reader who knows only the widths recovers the bits of every feature, and recovers the schema version if and only if it is at most 7 |
| `EgressNumbers.EncodeInjective` | services/bidding_service/protected_app_signals_generate_bids_reactor.cc:98-163 | Two different (version, feature bits) of one layout and versions up to 7 never give the same bytes |
| `EgressNumbers.HeaderVersion` | services/bidding_service/protected_app_signals_generate_bids_reactor.cc:98-103 | The upper three bits of the header byte are the version modulo 8 and the lower five are zero |
| `EgressNumbers.OrBitMeaning` | services/bidding_service/protected_app_signals_generate_bids_reactor.cc:151-153 | OR-ing a shifted bit into a byte sets that bit and leaves every other bit alone |
| `EgressNumbers.BigEndianSetBit` | services/bidding_service/protected_app_signals_generate_bids_reactor.cc:151-153 | Setting a clear bit of byte i adds exactly the weight of that bit to the whole payload number |
| `EgressNumbers.MixedRadixOfStream` | services/bidding_service/protected_app_signals_generate_bids_reactor.cc:137-161 | The mixed-radix sum over the features is the value of the bit stream the packer produces |
| `EgressNumbers.CutFieldsOfStream` | services/bidding_service/protected_app_signals_generate_bids_reactor.cc:137-161 | Cutting the bit stream at the widths and reversing each piece gives back the features, whatever padding follows |
| `EgressNumbers.StreamOfValue` | services/bidding_service/protected_app_signals_generate_bids_reactor.cc:133-161 | The bits of the payload number are the bits packed followed by zeros |
| `EgressFeatures.EgressFeature.Copy` | services/bidding_service/egress_schema_cache.cc:119-124 | A copy is a new object with the same type and size and no value |
| `EgressFeatures.SizesFitIff` | services/bidding_service/protected_app_signals_generate_bids_reactor.cc:110-133 | The allocated bytes hold the declared bits if and only if the true total survives the 32-bit sum and the 32-bit rounding |
| `EgressFeatures.FieldsFitIff` | services/bidding_service/protected_app_signals_generate_bids_reactor.cc:133-161 | The bits of values of exactly the declared widths fit into the allocated bytes under exactly that condition |
| `EgressFeatures.InBoundsIff` | services/bidding_service/protected_app_signals_generate_bids_reactor.cc:133-161 | The packer writes inside its array for all values of the declared widths if and only if that condition holds |
| `EgressFeatures.WrappedTotalOverruns` | services/bidding_service/protected_app_signals_generate_bids_reactor.cc:110-153 | Sizes adding up to 2^32 + 8 pass for eight bits, get one byte, and some values of these sizes make the packer write outside it |
| `EgressFeatures.CollectedSizes` | services/bidding_service/protected_app_signals_generate_bids_reactor.cc:137-140 | The widths of the values of a request are the sizes the schema declares |
| `EgressFeatures.ByteCount` | services/bidding_service/protected_app_signals_generate_bids_reactor.cc:126-133 | Rounding up to whole bytes leaves fewer than eight padding bits, unless the rounding itself wraps to zero |
| `EgressFeatures.PackStep` | services/bidding_service/protected_app_signals_generate_bids_reactor.cc:151-154 | Inside the array writing a bit appends it to the packed stream; outside it a clear bit is harmless and a set one is an overrun |
| `EgressFeatures.PackField` | services/bidding_service/protected_app_signals_generate_bids_reactor.cc:144-157 | The inner loop appends one feature, its last bit first, or leaves the array exactly when a set bit lies beyond it |
| `EgressFeatures.PackFeatures` | services/bidding_service/protected_app_signals_generate_bids_reactor.cc:133-161 | All features are packed, or the first one that cannot be serialized is the error, or the array is overrun, whichever comes first |
| `EgressFeatures.SerializeEgressFeatures` | services/bidding_service/protected_app_signals_generate_bids_reactor.cc:106-163 | For all sizes, values and limits: nothing if the 32-bit total is zero or exceeds the limit; otherwise an overrun, the error of the first feature without a value, or exactly the bytes for that total followed by the version modulo 8 in the upper bits of one more |
| `EgressFeatures.PayloadMeaning` | services/bidding_service/protected_app_signals_generate_bids_reactor.cc:106-163 | The same for the payload as a value, and that the bytes before the header are, as a number, the fields in mixed radix |
| `EgressFeatures.CollectFieldsMeaning` | services/bidding_service/protected_app_signals_generate_bids_reactor.cc:137-140 | The fields are the values of all features, or the error is that of the first one without a value |
| `EgressFeatures.PayloadValue` | services/bidding_service/protected_app_signals_generate_bids_reactor.cc:133-163 | The payload bytes are the number of the packed stream whenever no set bit lies beyond them |
| `EgressPipeline.PopulateValuesForEgressFeatures` | services/bidding_service/protected_app_signals_generate_bids_reactor.cc:72-96 | Succeeds if and only if there are as many entries as features and every entry names the type of its feature; then each feature serializes to its entry; on failure exactly the entries before the first misfit were stored |
| `EgressPipeline.ExtractFeatures` | services/bidding_service/egress_schema_cache.cc:38-65 | One new, distinct, unset feature per schema entry, in order and of its type and size, if and only if every entry names one of the five feature types |
| `EgressPipeline.EgressSchemaCache.Update` | services/bidding_service/egress_schema_cache.cc:69-94 | Accepts exactly the well-formed documents with a version, a known CDDL version, conforming contents and features of the five types; then the entry of the id has the version modulo 2^32 and the types and sizes of the document and no other entry changes; a rejected document changes nothing |
| `EgressPipeline.EgressSchemaCache.Get` | services/bidding_service/egress_schema_cache.cc:100-127 | Fresh deep copies with the cached version and layout; misses exactly when the id was never loaded |
| `EgressPipeline.GetSerializedEgressPayload` | services/bidding_service/protected_app_signals_generate_bids_reactor.cc:438-456 | For every cached schema and document the result is a function of these alone, and the cache does not change: requests cannot see each other's values; a nonempty payload means a positive 32-bit total within the limit |
| `EgressPipeline.PopulateSerializedEgressPayload` | services/bidding_service/protected_app_signals_generate_bids_reactor.cc:458-481 | A payload is replaced by its serialized form, or cleared when that fails |
| `EgressPipeline.SentIff` | services/bidding_service/protected_app_signals_generate_bids_reactor.cc:438-456 | Something is sent if and only if the schema is cached, the entries match its types one by one and have values, the 32-bit total is positive and within the limit, and no set bit leaves the array |
| `EgressPipeline.RequestRoundTrip` | services/bidding_service/protected_app_signals_generate_bids_reactor.cc:438-456 | A reader who knows only the sizes in the cached schema recovers the value of every entry of the request from a nonempty payload if and only if the declared total is at most 2^32 - 8, and the version if and only if it is at most 7 |
| `EgressPipeline.RequestsDistinct` | services/bidding_service/protected_app_signals_generate_bids_reactor.cc:438-456 | Two requests with different values under one cached schema never send the same nonempty payload |
| `Auctions.RejectedIff` | services/auction_service/score_ads_reactor.cc:1198-1249 | What becomes of every ad and why: a foreign currency of the bid (the buyer's if no modified bid is set in a component auction) first, then an incoming bid more than 0.00001 away from a buyer bid made in the seller's currency, then the seller's own reason if the score is positive; otherwise it is kept or not allowed |
| `Auctions.UpdatedBid` | services/auction_service/score_ads_reactor.cc:187-217 | An unset bid of a component ad becomes the buyer's with its currency, and nothing else changes |
| `Auctions.ChangedBids` | services/auction_service/score_ads_reactor.cc:113-125 | No ad with a changed incoming bid is kept, and every one is recorded as an invalid bid unless its currency fails |
| `Auctions.KeptBidCurrency` | services/auction_service/score_ads_reactor.cc:187-217 | A kept component ad has a positive bid whenever the buyer bid, and that bid is in the seller's currency or in none |
| `Auctions.Conservation` | services/auction_service/score_ads_reactor.cc:1438-1500 | Ads = kept + rejected with a reason + not allowed in a component auction |
| `Auctions.KeptAdsMember` | services/auction_service/score_ads_reactor.cc:1438-1498 | An ad is in the auction if and only if it is the update of an input ad judged to stay |
| `Auctions.StrictWeakOrder` | services/auction_service/score_ads_reactor.cc:1405-1428 | The comparison is by score, then buyer bid, then k-anonymity, and is irreflexive, asymmetric, transitive, with transitive incomparability, as sorting needs |
| `Auctions.TruncMeaning` | services/auction_service/score_ads_reactor.cc:310-317 | A score cut to an int is the nearest integer toward zero |
| `Auctions.TruncTie` | services/auction_service/score_ads_reactor.cc:310-317 | For positive scores, the comparison with the truncated score holds exactly for equal integers |
| `Auctions.AboveWinnersIff` | services/auction_service/score_ads_reactor.cc:1503-1533 | In a ranked list, standing before every k-anonymous ad with a positive score is scoring strictly higher than each of them in (desirability, buyer bid) |
| `Auctions.CandidatesCompleteIff` | services/auction_service/score_ads_reactor.cc:1522-1525 | All top-scoring k-anonymous ads are candidates if and only if the top score is an integer or is not shared |
| `Auctions.FractionalTieLosesCandidate` | services/auction_service/score_ads_reactor.cc:310-317 | Two k-anonymous ads tied at 2.5: the second can never win |
| `RejectionPass.KeepAt` | services/auction_service/score_ads_reactor.cc:1438-1495 | Keeping an ad where it stands preserves the invariant of the partition pass |
| `RejectionPass.RejectAt` | services/auction_service/score_ads_reactor.cc:1470-1475 | Swapping a rejected ad to the tail preserves the invariant of the partition pass |
| `RejectionPass.EndAt` | services/auction_service/score_ads_reactor.cc:1496-1500 | When the pass ends the front holds a permutation of exactly the kept ads, and every ad was evaluated exactly once |
| `RejectionPass.RecordedUnique` | services/auction_service/score_ads_reactor.cc:1441-1446 | With unique ids every ad, rejected or not, is recorded with the score it had before the auction changed it |
| `WinnerSelection.ScoreAdsReactor.ConsiderAd` | services/auction_service/score_ads_reactor.cc:1438-1495 | One step of the pass considers one ad: kept where it stands, or updated and swapped to the tail with its reason recorded |
| `CandidateScan.ScanStep` | services/auction_service/score_ads_reactor.cc:1505-1533 | One step of the scan adds an ad to a candidate list exactly when it is a candidate |
| `CandidateScan.WinnerCandidateIff` | services/auction_service/score_ads_reactor.cc:310-317 | Later candidates are exactly the eligible ads whose truncated score equals the first candidate's score |
| `CandidateScan.GhostCandidateIff` | services/auction_service/score_ads_reactor.cc:310-317 | The same for ghost candidates |
| `CandidateScan.GhostsCompleteIff` | services/auction_service/score_ads_reactor.cc:1526-1532 | All ads above the winners are ghost candidates if and only if they share one integer score or there is only one |
| `CandidateScan.LowerGhostDropped` | services/auction_service/score_ads_reactor.cc:1526-1532 | Ads that are not k-anonymous at 3 and 2 above a k-anonymous one at 1: only the first is a ghost candidate |
| `AuctionOutcome.WinnerOutcome` | services/auction_service/score_ads_reactor.cc:1503-1545 | No winner if and only if no accepted ad is k-anonymous with a positive score; otherwise the winner has the greatest score of all such ads, whatever order the sort leaves |
| `AuctionOutcome.GhostOutcome` | services/auction_service/score_ads_reactor.cc:1526-1545 | Every chosen ghost winner lacks k-anonymity, scores strictly higher than every eligible ad, has the greatest such score, and is not the winner |
| `AuctionOutcome.GhostsExistIff` | services/auction_service/score_ads_reactor.cc:1526-1532 | There are ghost candidates if and only if some accepted ad that is not k-anonymous beats all eligible ones |
| `IndexLists.ChooseRandomElements` | services/auction_service/score_ads_reactor.cc:319-329 | A sample of the asked size, in the original order, no element twice |
| `WinnerSelection.ScoringData.ChooseWinnerAndGhostWinners` | services/auction_service/score_ads_reactor.cc:349-365 | Any winner candidate, or -1 without one; min(limit, candidates) distinct ghost candidates |
| `WinnerSelection.ScoreAdsReactor.DropRejectedAds` | services/auction_service/score_ads_reactor.cc:1434-1500 | The swap-to-tail loop keeps a permutation of exactly the kept ads, with as many reasons as rejections, and records every ad |
| `WinnerSelection.ScoreAdsReactor.SortAds` | services/auction_service/score_ads_reactor.cc:1502-1503 | Some order the comparison allows, a permutation of the kept ads |
| `WinnerSelection.ScoreAdsReactor.AddIfCandsEmptyOrHasEqLastDesirability` | services/auction_service/score_ads_reactor.cc:310-317 | An index joins the list if the list is empty or its last ad's score equals the score cut to an int |
| `WinnerSelection.ScoreAdsReactor.CollectCandidates` | services/auction_service/score_ads_reactor.cc:1505-1533 | The two lists are exactly the candidates in rank order, and ads above the winners lose their debug URLs |
| `WinnerSelection.ScoreAdsReactor.GroupByScore` | services/auction_service/score_ads_reactor.cc:1546-1563 | Every kept ad that is no ghost candidate is in exactly the bucket of its score, in rank order |
| `WinnerSelection.ScoreAdsReactor.FindWinningAd` | services/auction_service/score_ads_reactor.cc:1430-1565 | For the whole method: partition, conservation, ranking, candidates, choice, buckets, winner and ghost winners judged against the ads that came in; every rejection is recorded with its reason; no ad with a changed incoming bid is left and each is recorded |
| `WinnerSelection.ScannedMeaning` | services/auction_service/score_ads_reactor.cc:1526-1532 | The scan clears the debug URLs of exactly the ads with a positive score before which, and at which, no ad is k-anonymous with a positive score, and changes nothing else |
| `OtherBids.SortScores` | services/auction_service/score_ads_reactor.cc:1604-1614 | An order of the scores by their integer parts |
| `OtherBids.ChosenScores` | services/auction_service/score_ads_reactor.cc:1619-1622 | At most two scores, all from the list and none of them zero |
| `OtherBids.ChosenAreTopTrunc` | services/auction_service/score_ads_reactor.cc:1613-1622 | No score left out has a greater integer part than a reported one |
| `OtherBids.TopTwoReportedIff` | services/auction_service/score_ads_reactor.cc:1613-1622 | The reported scores are the two highest ones in every order the sort may pick, if and only if scores with one integer part are harmless |
| `OtherBids.IntegralScoresHarmless` | services/auction_service/score_ads_reactor.cc:1613-1614 | Integer scores are harmless, so for them exactly the top two are reported |
| `OtherBids.FractionHiddenByZero` | services/auction_service/score_ads_reactor.cc:1613-1622 | With scores 0.5 and 0 the positive one can go unreported |
| `OtherBids.ListedIff` | services/auction_service/score_ads_reactor.cc:1619-1627 | An ad is listed if and only if its score is reported and it is neither the winner nor a ghost candidate |
| `OtherBids.ListedOnce` | services/auction_service/score_ads_reactor.cc:1619-1657 | No ad is listed twice |
| `OtherBids.HighestScoringOtherBids.AddBucket` | services/auction_service/score_ads_reactor.cc:1624-1657 | The bids of one bucket are added under their owners, the winner excepted |
| `OtherBids.HighestScoringOtherBids.PopulateHighestScoringOtherBidsData` | services/auction_service/score_ads_reactor.cc:1596-1659 | Outside top-level auctions the winner gets, per owner and in order, the bids of exactly the listed ads; in them nothing changes |
| `OtherBids.ReportedBids` | services/auction_service/score_ads_reactor.cc:1629-1656 | For every listed ad its owner, Protected Audience data first, has one more bid in list order: the bid of that data without a seller currency or a recorded score, and the recorded incoming bid otherwise |
| `OtherBids.ReportedCount` | services/auction_service/score_ads_reactor.cc:1637-1656 | An owner keeps its earlier bids and has exactly one more for each listed ad of its own |
| `OtherBids.IncomingBidsReported` | services/auction_service/score_ads_reactor.cc:1649-1656 | With a seller currency and unique ids the reported bids are exactly the incoming bids of the listed ads |
| `OtherBids.ScoreAdsCallback` | services/auction_service/score_ads_reactor.cc:1686-1776 | An auction followed by the report of the other bids: from ids that can be looked up, the winner gets exactly one bid per ad kept with a chosen score, without the winner and the ghost candidates: the bids in the data of the ads without a seller currency, and their incoming bids with one and unique ids |
| `DispatchRequests.RegisterAgrees` | services/auction_service/score_ads_reactor.cc:745-757 | Registering an ad keeps requests and ad maps in agreement even when ids collide |
| `DispatchRequests.DispatchedIffFound` | services/auction_service/score_ads_reactor.cc:1251-1264 | Some ad is found for a response id if and only if a request was dispatched under it, and there is one request per registered ad |
| `DispatchRequests.ResolvesIff` | services/auction_service/score_ads_reactor.cc:1251-1264 | The ad found is the one the request was built for, whatever is registered later, if and only if it is a Protected Audience ad or no such ad has its id |
| `DispatchRequests.SharedIdFindsOtherAd` | services/auction_service/score_ads_reactor.cc:1251-1264 | One id in both maps: the response about the second ad is taken for the first |
| `DispatchRequests.RegisterResultsKept` | services/auction_service/score_ads_reactor.cc:543-679 | The results of a top-level auction keep what is registered, and keep requests and ads in agreement |
| `DispatchRequests.LeftoverIff` | services/auction_service/score_ads_reactor.cc:644-676 | After a mismatch some response id resolves to an ad without a request if and only if a considered result before the mismatch has a winner with a render URL, a known type and a request id that no earlier winner had, or, under enforcement, a ghost winner for the top-level auction with a request id and a known type |
| `DispatchRequests.RegisteredIff` | services/auction_service/score_ads_reactor.cc:543-676 | The same condition for all results: from nothing, some ad is registered exactly then, and the ids with reporting data are exactly those of the winners |
| `DispatchRequests.MismatchLeavesAd` | services/auction_service/score_ads_reactor.cc:653-662 | Two results of different generations: the winner of the first stays registered without a request |
| `DispatchRequests.RegisterAllExtends` | services/auction_service/score_ads_reactor.cc:681-832 | A list of ads never replaces an ad registered before |
| `DispatchRequests.RegisterAllAgrees` | services/auction_service/score_ads_reactor.cc:681-832 | The same for a whole list of ads |
| `DispatchRequests.RegisteredMayJoin` | services/auction_service/score_ads_reactor.cc:533-539 | A top-level auction records k-anonymity join candidates for exactly the requests it dispatches |
| `DispatchRequests.RegisteredCameFrom` | services/auction_service/score_ads_reactor.cc:459-635 | Every ad of a top-level auction is, under its own id and type, the winner of a real result with a seller and a render URL or, under enforcement, a ghost winner for the top-level auction of one |
| `DispatchRequests.RegisteredUnderIff` | services/auction_service/score_ads_reactor.cc:459-635 | An id is registered under a type if and only if the first winner with the id is of that type or, under enforcement, a result that counts has a ghost winner for the top-level auction with that id and type |
| `DispatchRequests.ReportedIsFirstWinner` | services/auction_service/score_ads_reactor.cc:543-635 | The reporting data under an id, and the seller if there is one, are those of the first winner with that id |
| `DispatchRequests.SellersOfWinners` | services/auction_service/score_ads_reactor.cc:543-635 | Without enforcement exactly the registered winners have a seller recorded |
| `DispatchRequests.GenerationsAgreeIff` | services/auction_service/score_ads_reactor.cc:644-662 | Generations agree unless some real result with a seller names one and a later such result has another |
| `DispatchRequests.GenerationMismatch` | services/auction_service/score_ads_reactor.cc:653-662 | Once a second generation id has been seen, no later result makes the list acceptable again |
| `DispatchRequests.DispatchBuilder.PopulateDispatchRequests` | services/auction_service/score_ads_reactor.cc:681-832 | An id gets registered if and only if some ad has it and, where signals are required, they are there and have its render URL; it stands for the last such ad; a request is added for exactly the new ids; requests and ads stay in agreement |
| `DispatchRequests.RegisteredAds` | services/auction_service/score_ads_reactor.cc:681-832 | An id is registered if and only if it was before or an ad with that id has the required signals, and a new id stands for the last such ad of the list |
| `DispatchRequests.RequestsAdded` | services/auction_service/score_ads_reactor.cc:681-832 | The requests added are for exactly the ids that were not registered before |
| `DispatchRequests.DispatchBuilder.BuildScoreAdRequestForComponentWinner` | services/auction_service/score_ads_reactor.cc:543-635 | An id used for a winner before is not used again |
| `DispatchRequests.DispatchBuilder.BuildScoreAdRequestForComponentGhostWinners` | services/auction_service/score_ads_reactor.cc:459-541 | Registers the ghost winners meant for the top-level auction |
| `DispatchRequests.DispatchBuilder.PopulateTopLevelAuctionDispatchRequests` | services/auction_service/score_ads_reactor.cc:637-679 | Succeeds if and only if no result that counts names a generation that a later one does not have; then every result is registered and the requests agree with the ads; otherwise there are no requests and the ads of the results before the first mismatch stay registered |
| `SellerDebugReports.EarlyExitSoundIff` | services/auction_service/score_ads_reactor.cc:2160-2209 | The early exit loses no report, for all sampling outcomes, if and only if no ad of the winning group with something to report can come after the exit |
| `SellerDebugReports.EarlyExitSound` | services/auction_service/score_ads_reactor.cc:2174-2199 | In that case the loop with the break gives the same reports as the loop without it |
| `SellerDebugReports.UniqueWinnerIsNotLate` | services/auction_service/score_ads_reactor.cc:2183-2191 | With at most one ad of the winning group the early exit is sound |
| `SellerDebugReports.SharedGroupLosesReport` | services/auction_service/score_ads_reactor.cc:2177-2180 | Two ads of the winning group: a report is lost |
| `SellerDebugReports.ReportsBounded` | services/auction_service/score_ads_reactor.cc:2160-2276 | For any order and sampling: URL sizes within the budget, at most one loss URL, at most two reports more than twice the winning group's ads (four for one ad) |
| `SellerDebugReports.VisitMeaning` | services/auction_service/score_ads_reactor.cc:2182-2276 | What visiting one ad adds, in terms of the draws: the win URL of the response or an empty win report, then its loss URL, an empty report or a confirmed loss, each with its component-win flag, and what it draws and counts |
| `SellerDebugReports.ReportContents` | services/auction_service/score_ads_reactor.cc:2160-2276 | Every report is explained by a visited ad: a win report carries the win URL of the response or nothing and needs an ad of the winning group; a loss report carries the loss URL of an ad or nothing, and is flagged as a component win if and only if that ad is of the winning group |
| `SellerDebugReports.ExitPointIsFirst` | services/auction_service/score_ads_reactor.cc:2176-2180 | The scan exits no later than the first point where all three flags hold |
| `SellerDebugReports.SingleSellerBounded` | services/auction_service/score_ads_reactor.cc:2112-2158 | At most one report, within the budget |
| `SellerDebugReports.SingleSellerMeaning` | services/auction_service/score_ads_reactor.cc:2106-2158 | The one report is about the first ad that counts (of the winning group with a win URL, or another with a loss URL) and whose draw succeeds, a win exactly for the winning group, left out only beyond the budget; if no draw succeeds it is empty and of the kind of the last ad that counts |
| `SellerDebugReports.DebugReporter.AddSellerDebugReportToResponse` | services/auction_service/score_ads_reactor.cc:2335-2363 | A report is added, and its size counted, unless the budget would be exceeded |
| `SellerDebugReports.DebugReporter.SampleDebugWinReportForComponentAuctionWinner` | services/auction_service/score_ads_reactor.cc:2211-2236 | The win URL of the response if it is drawn, an empty report if not, nothing without a URL |
| `SellerDebugReports.DebugReporter.SampleDebugLossReportForComponentAuctionAd` | services/auction_service/score_ads_reactor.cc:2238-2276 | One step for a loss URL, flags included |
| `SellerDebugReports.DebugReporter.PerformSampledDebugReportingForComponentAuction` | services/auction_service/score_ads_reactor.cc:2160-2209 | The reports of the early-exiting scan, within the bounds, each explained by a visited ad, and equal to the full scan when no winner is late |
| `SellerDebugReports.DebugReporter.PerformSampledDebugReportingForSingleSeller` | services/auction_service/score_ads_reactor.cc:2106-2158 | The first considered URL that is drawn, or an empty report of the kind considered last |
| `BuyerDebugReports.EarlyExitSoundIff` | services/seller_frontend_service/select_ad_reactor.cc:1942-1990 | The early exit reports the same as the full scan if and only if no bid of the winning group with something to report comes after it |
| `BuyerDebugReports.MayExitIff` | services/seller_frontend_service/select_ad_reactor.cc:1958-1963 | All three flags hold exactly when there are a bid of the winning group, a loss URL, and a losing bid with another loss report |
| `BuyerDebugReports.NextReports` | services/seller_frontend_service/select_ad_reactor.cc:1964-2053 | What one more bid adds, told by the bids alone: the win URL of the winning group or an empty win report after failed sampling; its loss URL if it is the buyer's first, flagged as a component win for the winning group, which otherwise gets an empty loss report |
| `BuyerDebugReports.CooldownIff` | services/seller_frontend_service/select_ad_reactor.cc:1982-1988 | An empty report follows if and only if a losing bid has a loss URL or failed sampling and its URL is not the first one of the buyer |
| `BuyerDebugReports.ReportContents` | services/seller_frontend_service/select_ad_reactor.cc:1945-2053 | Every report is explained by a visited bid: its win URL or loss URL or a failed sampling, with the flag telling whether it is of the winning group |
| `BuyerDebugReports.SingleSellerContents` | services/seller_frontend_service/select_ad_reactor.cc:1882-1939 | A URL is reported if and only if some bid has one that counts and did not fail sampling; it is that of the first such bid, a win exactly for the winning group; otherwise there is one empty report, for the win if that failed sampling and for a loss if one did, or none |
| `BuyerDebugReports.UniqueWinnerIsNotLate` | services/seller_frontend_service/select_ad_reactor.cc:1964-1973 | With at most one bid of the winning group the early exit is sound |
| `BuyerDebugReports.SharedGroupLosesReport` | services/seller_frontend_service/select_ad_reactor.cc:1958-1963 | Two bids of the winning group around a losing one: the scan exits before the second and its report is lost |
| `BuyerDebugReports.BuyerDebugReporter.AddBuyerDebugReportToResponse` | services/seller_frontend_service/select_ad_reactor.cc:2114-2132 | Appends to the reports of one ad tech and no other |
| `BuyerDebugReports.BuyerDebugReporter.HandleSampledDebugWinReportForComponentAuctionWinner` | services/seller_frontend_service/select_ad_reactor.cc:1992-2016 | The win URL, or an empty report if it failed sampling |
| `BuyerDebugReports.BuyerDebugReporter.HandleSampledDebugLossReportForComponentAuctionAd` | services/seller_frontend_service/select_ad_reactor.cc:2018-2053 | One step for a loss URL, flags included |
| `BuyerDebugReports.BuyerDebugReporter.ReportComponentBuyer` | services/seller_frontend_service/select_ad_reactor.cc:1945-1989 | Stops at the first point where all flags hold; every report added is explained by a visited bid; nothing is lost when no winner is late |
| `BuyerDebugReports.BuyerDebugReporter.ReportSingleSellerBuyer` | services/seller_frontend_service/select_ad_reactor.cc:1882-1939 | At most one report per buyer: the first URL that passed sampling, or a cooldown report |
| `BuyerDebugReports.BuyerDebugReporter.PerformSampledDebugReportingForSingleSeller` | services/seller_frontend_service/select_ad_reactor.cc:1882-1939 | Over all buyers, each gets its one report or none, and nobody else is affected |
| `BuyerDebugReports.BuyerDebugReporter.PerformSampledDebugReportingForComponentAuction` | services/seller_frontend_service/select_ad_reactor.cc:1942-1990 | Every buyer gets exactly the reports up to the exit of its scan, which are those of a full scan without a late winner; nobody else is affected |
| `TaskTracker.AnySuccessfulMeaning` | services/common/util/async_task_tracker.cc:110-122 | With every task accounted for, the callback is told of a failure if and only if something failed and everything failed or was cancelled |
| `TaskTracker.AsyncTaskTracker.TaskCompleted` | services/common/util/async_task_tracker.cc:41-89 | Counts one task under its status and calls back exactly when it was the last pending one |
| `BuyerFanOut.ScaledCount` | services/seller_frontend_service/select_ad_reactor.cc:538-546 | A count scaled by a clamped factor and rounded up stays between zero and the count, stays positive for a positive factor, and is less than one above the product |
| `BuyerFanOut.SelectAdReactor.ChooseNumChaffRequests` | services/seller_frontend_service/select_ad_reactor.cc:510-547 | At most as many chaff requests as candidates, also after the reduction; without the reduction at least one, and two when nobody real is asked, as far as there are candidates |
| `BuyerFanOut.SelectAdReactor.GetChaffingConfig` | services/seller_frontend_service/select_ad_reactor.cc:471-558 | The remembered buyers in a replay; otherwise the number of real buyers and some permutation of the chaff candidates, or none |
| `BuyerFanOut.SelectAdReactor.GetNonChaffBuyerNames` | services/seller_frontend_service/select_ad_reactor.cc:570-607 | Exactly the configured buyers that are in the auction and have an input, in order |
| `BuyerFanOut.SelectAdReactor.BuildRequests` | services/seller_frontend_service/select_ad_reactor.cc:630-669 | One request per non-chaff buyer with an input and one per each of the first chaff candidates |
| `BuyerFanOut.SelectAdReactor.PlanRequests` | services/seller_frontend_service/select_ad_reactor.cc:619-673 | Requests are for the right buyers, and requests + wanted buyers without an input = tasks tracked + remembered chaff asked while chaffing is off |
| `BuyerFanOut.SelectAdReactor.SendRequests` | services/seller_frontend_service/select_ad_reactor.cc:675-701 | At most the cap is sent and the others are completed as skipped, while any calls are answered at any time: the tracker ends up as after some run in which all requests are processed |
| `BuyerFanOut.SelectAdReactor.ReceiveReplies` | services/seller_frontend_service/select_ad_reactor.cc:985-1104 | Any number of unanswered calls complete their task, at once or later, with any status, and none when nothing is pending |
| `BuyerFanOut.SelectAdReactor.FetchBids` | services/seller_frontend_service/select_ad_reactor.cc:609-722 | For every random choice: whom is asked (a fresh run asks exactly the real buyers, and without the second version of chaffing at least the minimum of chaff if any), that the tracker follows a run of sending and answering, when the direct call happens, and what is remembered for a replay |
| `BuyerFanOut.SelectAdReactor.WhoIsAsked` | services/seller_frontend_service/select_ad_reactor.cc:570-669 | A fresh run asks really exactly the configured buyers in the auction with an input, and sends chaff only to configured ones in the auction without; a replay asks exactly the remembered buyers that still have an input and all remembered chaff |
| `BuyerFanOut.SelectAdReactor.EnoughChaff` | services/seller_frontend_service/select_ad_reactor.cc:510-547 | Without the second version of chaffing, chaff goes to at least two buyers if none is real and to at least one otherwise, or to all candidates |
| `BuyerFanOut.RememberedBuyers` | services/seller_frontend_service/select_ad_reactor.cc:683-722 | Remembered as chaff or as real are exactly the buyers asked as such |
| `BuyerFanOut.SelectAdReactor.TrackerUnderflowsIff` | services/seller_frontend_service/select_ad_reactor.cc:473-482 | In a replay that asks anybody, some run completes a task when none is pending if and only if remembered chaff asked while chaffing is off outnumbers the wanted buyers without an input |
| `BuyerFanOut.SelectAdReactor.EveryoneAskable` | services/seller_frontend_service/select_ad_reactor.cc:630-637 | Tasks tracked = requests built if and only if every wanted buyer has an input; always in a fresh run |
| `BuyerFanOut.ShuffledNames` | services/seller_frontend_service/select_ad_reactor.cc:671-673 | Shuffling changes neither the chaff nor the real buyers |
| `BuyerFanOut.ReplayStable` | services/seller_frontend_service/select_ad_reactor.cc:473-482 | A replay contacts exactly the requests of the first run, chaff as chaff and real as real, if and only if the buyers asked still have an input, under any shuffle; it skips none, then matches the tracked count, and has no surplus chaff while the chaffing setting is the same |
| `BuyerFanOut.ReplayWithoutInputWaits` | services/seller_frontend_service/select_ad_reactor.cc:630-637 | A replay whose only remembered buyer has lost its input asks nobody, and the final callback never runs |
| `FanOutRuns.StepKeeps` | services/common/util/async_task_tracker.cc:41-89 | What every send, skip and reply keeps: pending = unsent + unanswered + unaskable, and the callback has run exactly when that is zero |
| `FanOutRuns.CallbackOnce` | services/seller_frontend_service/select_ad_reactor.cc:675-701 | Over every interleaving: the tracker is never completed with nothing pending, at most the cap is sent, sent + capped + unsent = built, and the callback runs at most once, exactly when everything is answered |
| `FanOutRuns.CallbackVerdict` | services/common/util/async_task_tracker.cc:110-122 | The callback is told of a failure exactly when something failed and all replies failed or were cancelled |
| `FanOutRuns.FinishedRun` | services/seller_frontend_service/select_ad_reactor.cc:675-701 | A run with nothing left to do has sent min(built, cap), capped the rest, and called back if and only if every tracked task could be asked |
| `FanOutRuns.CallbackReachableIff` | services/seller_frontend_service/select_ad_reactor.cc:609-701 | Some run reaches the callback if and only if there is a request and every tracked task could be asked |
| `FanOutRuns.UnderflowReachableIff` | services/common/util/async_task_tracker.cc:41-89 | Some run completes a task when none is pending if and only if fewer tasks are tracked than requests were built |
| `FanOutRuns.OrderDoesNotMatter` | services/seller_frontend_service/select_ad_reactor.cc:1134-1183 | Two finished runs with the same replies end in the same state |
| `ScoringJoin.StepKeeps` | services/seller_frontend_service/select_ad_reactor.cc:1219-1238 | Every event of the two branches keeps the invariant that relates the tracker, the branches, the answers sent and the k-anonymity statuses |
| `ScoringJoin.JoinSafe` | services/seller_frontend_service/select_ad_reactor.cc:1185-1239 | Over every interleaving and all four settings: the request is answered at most once, the tracked count is the number of branches started, `OnFetchScoringSignalsDone` runs at most once and exactly when all started branches are done, and ads are scored exactly then and only with usable signals |
| `ScoringJoin.AnswerIff` | services/seller_frontend_service/select_ad_reactor.cc:1185-1239 | Over every interleaving, which answer is sent is told by the events: an error if and only if the request was cancelled, no buyer succeeded, all bids mismatched, the signals could not be asked for or their second version was cancelled; chaff if and only if buyers succeeded without bids, a second-version reply had no signals, or everything awaited came and the signals were missing or empty; scoring if and only if there are bids, everything awaited came, and the signals, if fetched, are usable |
| `ScoringJoin.StepHistory` | services/seller_frontend_service/select_ad_reactor.cc:1185-1239 | Every event keeps the relation between the events so far, the phase, the two branches and the requests ended |
| `ScoringJoin.ScoringReachable` | services/seller_frontend_service/select_ad_reactor.cc:1185-1239 | Whatever is fetched and enforced and whatever the service finds, some run scores the ads |
| `ScoringJoin.QueriedIsFound` | services/seller_frontend_service/select_ad_reactor.cc:2204-2222 | The queried set is what the k-anonymity service last answered, empty without an answer |
| `ScoringJoin.FailClosed` | services/seller_frontend_service/select_ad_reactor.cc:2180-2267 | Over every interleaving, when ads are scored under enforcement a bid is forwarded as k-anonymous if and only if its buyer has a report-win URL and the hashes of its render URL, its reporting ids and each of its components are all in the answer: errors, skips and missing report-win URLs all give false |
| `KAnon.NothingQueriedNothingAnonymous` | services/seller_frontend_service/select_ad_reactor.cc:2269-2333 | Every hashed bid has at least one hash, so nothing is k-anonymous without an answer |
| `KAnon.SelectAdReactor.GetKAnonHashesForBids` | services/seller_frontend_service/select_ad_reactor.cc:2269-2333 | Hash sets for exactly the bids of buyers with a report-win URL: the render, the reporting ids and every component |
| `KAnon.SelectAdReactor.HashBid` | services/seller_frontend_service/select_ad_reactor.cc:2295-2328 | The hashes of one bid: the render URL, the reporting ids and every component, and no others |
| `KAnon.HashesFoundIff` | services/seller_frontend_service/select_ad_reactor.cc:2246-2262 | All hashes of a bid are in a set if and only if those of its render URL, its reporting ids and each component are |
| `KAnon.SelectAdReactor.PopulateKAnonStatusForBids` | services/seller_frontend_service/select_ad_reactor.cc:2234-2267 | Every hashed bid is k-anonymous exactly if enforcement is off or all its hashes are in the queried set, no other status changes, and the early break changes nothing |
| `KAnon.SelectAdReactor.QueryKAnonHashes` | services/seller_frontend_service/select_ad_reactor.cc:2180-2232 | Skipped without hashes; otherwise all hashes are asked for, or the refused call is an error with all statuses filled in; the same function is the step of the state machine in `ScoringJoin` |
| `KAnon.SelectAdReactor.OnKAnonReply` | services/seller_frontend_service/select_ad_reactor.cc:2204-2222 | A failed reply leaves queried set and statuses alone; a successful one replaces the set and fills in the statuses; again as in `ScoringJoin` |
| `KAnon.SelectAdReactor.BuildMetadataStatus` | services/seller_frontend_service/select_ad_reactor.cc:280-284 | The forwarded status; looking it up never changes what is forwarded |
| `KAnonWinners.WinnersAreKAnonymous` | services/auction_service/score_ads_reactor.cc:1382-1383 | With enforcement at both services, over every interleaving and sort order: the buyer of the winner has a report-win URL and the render URL, the reporting ids and each component of the winner were answered to be k-anonymous, and of every ghost winner something was not |
| `CurrencyFilter.FilterBidsWithMismatchingCurrencyHelper` | services/seller_frontend_service/select_ad_reactor.cc:1241-1268 | The in-place swap and cut leaves, as often as they were there, exactly the bids without a currency or with the buyer's |
| `CurrencyFilter.SplitConforming` | services/seller_frontend_service/select_ad_reactor.cc:1244-1267 | A list split into conforming and other bids has exactly the conforming bids in front |
| `CurrencyFilter.ConformingCount` | services/seller_frontend_service/select_ad_reactor.cc:1248-1249 | A bid stays, as often as it was there, if and only if its currency is empty or the buyer's |
| `CurrencyFilter.SelectAdReactor.FilterBuyer` | services/seller_frontend_service/select_ad_reactor.cc:1292-1321 | One buyer: both lists filtered, or untouched without a currency; tells whether anything enabled is left |
| `CurrencyFilter.SelectAdReactor.FilterBidsWithMismatchingCurrency` | services/seller_frontend_service/select_ad_reactor.cc:1270-1337 | Every list is filtered, exactly the buyers with bids left stay, and the result is true if and only if the map is not empty afterwards |
| `CurrencyFilter.LeftConforms` | services/seller_frontend_service/select_ad_reactor.cc:1241-1268 | A bid is left, as often as it was there, if and only if the buyer has no currency or the bid has none or the same |
| `CurrencyFilter.FilteredConforms` | services/seller_frontend_service/select_ad_reactor.cc:1292-1321 | The same for both lists of a buyer that was filtered |
| `RunningMean.AverageBetween` | services/bidding_service/generate_bids_binary_reactor.cc:401-404 | From the first value on the average lies between the least and the greatest value, whatever it started from |
| `RunningMean.AverageError` | services/bidding_service/generate_bids_binary_reactor.cc:401-404 | After n values, twice the distance of n times the average from the sum is at most n(n-1) |
| `RunningMean.BoundIsTight` | services/bidding_service/generate_bids_binary_reactor.cc:401-404 | The bound is met for every n: values falling by one keep the average at the first of them |
| `RunningMean.MovedBetween` | services/bidding_service/generate_bids_binary_reactor.cc:401-404 | A step goes toward the new value, never past it, and reaches it at n = 1 |
| `RunningMean.MovedRounds` | services/bidding_service/generate_bids_binary_reactor.cc:401-404 | A step goes one n-th of the way, rounded toward where it started, in either direction |
| `BinaryBidding.StatsOfRun` | services/bidding_service/generate_bids_binary_reactor.cc:352-409 | Every response is counted under exactly one counter, and the average is the running mean of the successful ones |
| `BinaryBidding.CountersOfRun` | services/bidding_service/generate_bids_binary_reactor.cc:352-401 | Successes, missed deadlines, timeouts and failures are each the number of responses of that kind |
| `BinaryBidding.QueueTimeOfRun` | services/bidding_service/generate_bids_binary_reactor.cc:371-413 | The queue time is at least every wait and, for a missed deadline, the batch timeout, and is one of them or the value it started with |
| `BinaryBidding.StatusMeaning` | services/bidding_service/generate_bids_binary_reactor.cc:357-459 | A response is a success if and only if it has bids within the limit, empty without any, and an error with more, and then none of them is stored |
| `BinaryBidding.AverageOfRun` | services/bidding_service/generate_bids_binary_reactor.cc:401-409 | The mean bounds for the average reported for a whole request |
| `BinaryBidding.SentIff` | services/bidding_service/generate_bids_binary_reactor.cc:516-543 | A bid is sent, as often as it came, if and only if it is not zero and, in a device component auction, allows it |
| `BinaryBidding.SentMembers` | services/bidding_service/generate_bids_binary_reactor.cc:516-543 | Over all groups, a bid is sent if and only if it was stored, is not zero and is allowed |
| `BinaryBidding.SentInOrder` | services/bidding_service/generate_bids_binary_reactor.cc:516-543 | What is sent of two lists is sent one after the other |
| `BinaryBidding.SentOfOne` | services/bidding_service/generate_bids_binary_reactor.cc:516-543 | Of one bid that bid is sent, unless it is zero or not allowed |
| `BinaryBidding.FlattenInOrder` | services/bidding_service/generate_bids_binary_reactor.cc:516-543 | The groups are sent one after the other |
| `BinaryBidding.DroppedIff` | services/bidding_service/generate_bids_binary_reactor.cc:516-543 | The zero bids counted are exactly those that are zero, allowed or not |
| `BinaryBidding.EveryBidCounted` | services/bidding_service/generate_bids_binary_reactor.cc:516-543 | Bids received = sent + zero bids + bids not allowed in a component auction |
| `BinaryBidding.BatchExhaustedIff` | services/bidding_service/generate_bids_binary_reactor.cc:482-489 | In batch mode the request ends as exhausted if and only if every execution missed its start deadline |
| `BinaryBidding.BatchOutcomeIff` | services/bidding_service/generate_bids_binary_reactor.cc:482-504 | In batch mode the end is told by the responses: exhausted if all missed their deadline, an error if none succeeded, cancelled or OK otherwise |
| `BinaryBidding.TrackedNeverExhausted` | services/bidding_service/generate_bids_binary_reactor.cc:278-284 | In the mode that tracks executions one by one it never does: skipped executions count as a success, so the answer is OK without bids |
| `BinaryBidding.GenerateBidsBinaryReactor.ProcessResponse` | services/bidding_service/generate_bids_binary_reactor.cc:352-460 | Status, counters, average and stored bids for one response |
| `BinaryBidding.GenerateBidsBinaryReactor.CollectBids` | services/bidding_service/generate_bids_binary_reactor.cc:516-543 | The response gets exactly the valid bids in order, and received = added + zero + rejected |
| `BinaryBidding.GenerateBidsBinaryReactor.OnAllBidsDone` | services/bidding_service/generate_bids_binary_reactor.cc:471-562 | One final status, and bids only with status OK: then exactly the stored ones that are not zero and allowed |
| `BinaryBidding.GenerateBidsBinaryReactor.OnBatchDone` | services/bidding_service/generate_bids_binary_reactor.cc:322-332 | A whole batch: counters, the bids stored for exactly the responses within the limit, final status told by the responses, and the response |
| `Contributions.LimitedCount` | services/bidding_service/generate_bids_reactor.cc:246-273 | Of every event type min(count, limit) contributions are left, of the unspecified one none |
| `Contributions.LimitedTwice` | services/bidding_service/generate_bids_reactor.cc:246-273 | Limiting twice changes nothing |
| `Contributions.ErasingKeepsLimited` | services/bidding_service/generate_bids_reactor.cc:266-272 | Erasing the collected indices from the back leaves exactly the first contributions of each type, in order |
| `Contributions.LimitedMeaning` | services/bidding_service/generate_bids_reactor.cc:246-273 | What is left are, in order, the contributions that name an event type and have fewer than the limit of earlier ones for the same |
| `Contributions.IndicesToRemove` | services/bidding_service/generate_bids_reactor.cc:252-264 | The collected indices are exactly those of contributions without an event type or with at least the limit of earlier ones for the same |
| `Contributions.ProcessPAggContributions` | services/bidding_service/generate_bids_reactor.cc:250-273 | The in-place algorithm leaves, in order, exactly the contributions with fewer than the limit of earlier ones of their type |

## Left out

- EgressFeatures.SerializeEgressFeatures: what happens after a write outside the array is not modelled, since C++ does not define it; Base64 is not modelled.
- EgressPipeline.RequestRoundTrip: assumes that a value is serialized to exactly the bits its feature declares, which holds of all feature types under the schema specification 1.0.0, except a histogram whose own 32-bit sum of sizes wraps around.
- EgressFeatures.EgressFeature.Serialized: the encodings of the feature types are not part of this model; a value carries its own outcome, either bits or an error.
- EgressPipeline.EgressSchemaCache.Update: parsing and CDDL validation are an arbitrary outcome, and the lock is not modelled.
- WinnerSelection.ScoreAdsReactor.FindWinningAd: floats are reals, so rounding, NaN and conversions outside the range of `int` are not captured; the fairness of the random choice is not stated.
- WinnerSelection.ScoreAdsReactor.SortAds: `std::sort` is any permutation that the comparison allows.
- RejectionPass.RecordedUnique: assumes unique ad ids; with a repeated id the first score stays.
- OtherBids.HighestScoringOtherBids.PopulateHighestScoringOtherBidsData: the lookup of an ad by id is a parameter that must know every ad, as the source asserts.
- OtherBids.ScoreAdsCallback: its clause on incoming bids is for unique ids and an auction with no score recorded before; otherwise the score recorded first under an id counts (`OtherBids.ReportedBids`).
- DispatchRequests.DispatchBuilder.PopulateTopLevelAuctionDispatchRequests: the dispatch id of an ad is an arbitrary, possibly missing or repeated, value; contents of the requests are not modelled.
- SellerDebugReports.ReportsBounded: counts the URL sizes before placeholders are replaced, as the code does.
- BuyerDebugReports.BuyerDebugReporter.PerformSampledDebugReportingForComponentAuction: the merge with the seller reports and the reports of auctions without sampling are not modelled.
- BuyerFanOut.SelectAdReactor.FetchBids: a random number generator is present, answers from other threads come in between two requests, and inserting into the cache succeeds.  It requires that the tracker is told of enough tasks (`TracksEnough`), since otherwise the assertion of the tracker at services/common/util/async_task_tracker.cc:50-52 can fail (`BuyerFanOut.SelectAdReactor.TrackerUnderflowsIff`); that holds while the chaffing setting is the one under which the chaff was remembered (`BuyerFanOut.ReplayStable`).
- FanOutRuns.CallbackOnce: time does not exist, so nothing is said about when a reply comes, only about what holds once it has.
- ScoringJoin.JoinSafe: what happens after `ScoreAds` or after the request has been answered, such as the lifetime of the reactor, is not modelled; that some answer is always sent is not claimed, since several early returns leave a task uncompleted.
- KAnon.SelectAdReactor.GetKAnonHashesForBids: hashes are the data hashed, so collisions are not modelled; Protected App Signals bids have no hashes.
- CurrencyFilter.SelectAdReactor.FilterBidsWithMismatchingCurrency: requires what the source states as its two preconditions, and that no two buyers share a list object.
- BinaryBidding.GenerateBidsBinaryReactor.ProcessResponse: responses are processed one at a time, whereas the mode that tracks executions one by one may process them concurrently, without a lock, on plain counters; `int` overflow, log messages and the parsing of bids are not modelled, and neither is the validation of debug URLs in the final response.
- Contributions.ProcessPAggContributions: a contribution is its event type and an opaque rest.
- The winner's identity in the response (services/auction_service/score_ads_reactor.cc:1773-1774), which indexes a list that the sort does not touch.
- Reporting URLs, report generation, private aggregation values and noise: field copying.
- gRPC, protobuf and JSON handling, encryption, compression, logging, metrics, configuration.
- The V8 and BYOB executions and the key-value clients: their results are arbitrary inputs.
