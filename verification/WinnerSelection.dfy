/**
 Choosing the winner and the ghost winners of an auction
 (services/auction_service/score_ads_reactor.cc, `FindWinningAd`).

 The work is done in place on the vector of scored ads: rejected ads are swapped to the tail and
 cut off, the rest is sorted, and two scans over the sorted ads collect the candidates and group
 the ads by score.  The vector is an array here, and cutting it off is returning the length kept.
 */
module WinnerSelection {
  import opened Results
  import opened Auctions
  import opened IndexLists
  import opened RejectionPass
  import opened CandidateScan
  import opened AuctionOutcome

  class ScoringData {
    var winnerIndex: int
    var sellerRejectedBidCount: nat
    var scoreAdMap: map<real, seq<nat>>
    var adRejectionReasons: seq<AdRejectionReason>
    var winnerCandIndices: seq<nat>
    var ghostWinnerCandIndices: seq<nat>
    var ghostWinnerIndices: seq<nat>

    constructor ()
      ensures winnerIndex == -1 && sellerRejectedBidCount == 0 && scoreAdMap == map[] && adRejectionReasons == []
      ensures winnerCandIndices == [] && ghostWinnerCandIndices == [] && ghostWinnerIndices == []
    {
      winnerIndex, sellerRejectedBidCount, scoreAdMap, adRejectionReasons := -1, 0, map[], [];
      winnerCandIndices, ghostWinnerCandIndices, ghostWinnerIndices := [], [], [];
    }

    /** Any winner candidate may win; the ghost winners are a sample of the ghost candidates. */
    method ChooseWinnerAndGhostWinners(maxGhostWinners: nat)
      requires winnerIndex == -1 && ghostWinnerIndices == [] && Increasing(ghostWinnerCandIndices)
      modifies `winnerIndex, `ghostWinnerIndices
      ensures if winnerCandIndices == [] then winnerIndex == -1 else winnerIndex in winnerCandIndices
      ensures GhostChoice(ghostWinnerCandIndices, maxGhostWinners, ghostWinnerIndices)
    {
      if winnerCandIndices != [] {
        var winner := ChooseRandomElements(winnerCandIndices, 1);
        SubsequenceMembers(winner, winnerCandIndices);
        assert winner[0] in winner;
        winnerIndex := winner[0];
      }
      if ghostWinnerCandIndices != [] {
        if |ghostWinnerCandIndices| < maxGhostWinners {
          ghostWinnerIndices := ghostWinnerCandIndices;
        } else {
          var count := if maxGhostWinners < |ghostWinnerCandIndices| then maxGhostWinners else |ghostWinnerCandIndices|;
          ghostWinnerIndices := ChooseRandomElements(ghostWinnerCandIndices, count);
          SubsequenceMembers(ghostWinnerIndices, ghostWinnerCandIndices);
          SubsequenceIncreasing(ghostWinnerIndices, ghostWinnerCandIndices);
        }
      }
    }
  }

  /** As many distinct candidates as allowed. */
  ghost predicate GhostChoice(cands: seq<nat>, maxGhostWinners: nat, chosen: seq<nat>) {
    && |chosen| == (if |cands| < maxGhostWinners then |cands| else maxGhostWinners)
    && Increasing(chosen)
    && forall i :: i in chosen ==> i in cands
  }

  /** An ad above the winners loses its debug report URLs in the scan. */
  ghost function Scanned(ranked: seq<ScoredAdData>, i: nat): ScoredAdData
    requires i < |ranked|
  {
    if AboveWinners(ranked, i) then ranked[i].(adScore := ranked[i].adScore.(debugUrls := None)) else ranked[i]
  }

  /** That is every ad with a positive score that is not k-anonymous and comes before all that are. */
  lemma ScannedMeaning(ranked: seq<ScoredAdData>, i: nat)
    requires i < |ranked|
    ensures Scanned(ranked, i).adScore.debugUrls ==
              if ranked[i].adScore.desirability > 0.0
                 && forall j :: 0 <= j <= i ==> !(ranked[j].kAnonStatus && ranked[j].adScore.desirability > 0.0)
              then None else ranked[i].adScore.debugUrls
    ensures Scanned(ranked, i).(adScore := ranked[i].adScore) == ranked[i]
    ensures Scanned(ranked, i).adScore.(debugUrls := ranked[i].adScore.debugUrls) == ranked[i].adScore
  {
    forall j | 0 <= j < |ranked|
      ensures Eligible(ranked, j) <==> ranked[j].kAnonStatus && ranked[j].adScore.desirability > 0.0
    {
    }
  }

  /** Some of the first `n` ads, all of score `d` and none of them a ghost candidate, in rank order. */
  ghost predicate Bucket(ads: seq<ScoredAdData>, n: nat, ghosts: seq<nat>, d: real, bucket: seq<nat>)
    requires n <= |ads|
  {
    && bucket != [] && Increasing(bucket)
    && forall i :: i in bucket ==> i < n && ads[i].adScore.desirability == d && i !in ghosts
  }

  /** The first `n` ads grouped by score, each list in rank order, without the ghost candidates. */
  ghost predicate GroupedByScore(ads: seq<ScoredAdData>, n: nat, ghosts: seq<nat>, scoreAdMap: map<real, seq<nat>>)
    requires n <= |ads|
  {
    && (forall d :: d in scoreAdMap ==> Bucket(ads, n, ghosts, d, scoreAdMap[d]))
    && (forall i :: 0 <= i < n && i !in ghosts ==>
          ads[i].adScore.desirability in scoreAdMap && i in scoreAdMap[ads[i].adScore.desirability])
  }

  function Grouped(scoreAdMap: map<real, seq<nat>>, d: real, i: nat): map<real, seq<nat>> {
    scoreAdMap[d := (if d in scoreAdMap then scoreAdMap[d] else []) + [i]]
  }

  lemma GroupStep(ads: seq<ScoredAdData>, n: nat, ghosts: seq<nat>, scoreAdMap: map<real, seq<nat>>)
    requires n < |ads| && GroupedByScore(ads, n, ghosts, scoreAdMap)
    ensures n in ghosts ==> GroupedByScore(ads, n + 1, ghosts, scoreAdMap)
    ensures n !in ghosts ==> GroupedByScore(ads, n + 1, ghosts, Grouped(scoreAdMap, ads[n].adScore.desirability, n))
  {
    if n !in ghosts {
      var d := ads[n].adScore.desirability;
      var bucket := if d in scoreAdMap then scoreAdMap[d] else [];
      if d in scoreAdMap {
        Members(scoreAdMap[d], n);
      } else {
        Members([], n);
      }
      var grouped := Grouped(scoreAdMap, d, n);
      assert grouped[d] == bucket + [n];
      forall i | 0 <= i < n + 1 && i !in ghosts
        ensures ads[i].adScore.desirability in grouped && i in grouped[ads[i].adScore.desirability]
      {
      }
    }
  }

  class ScoreAdsReactor {
    const cfg: AuctionConfig
    const numAllowedGhostWinners: nat
    var adScores: map<string, AdScore>

    constructor (cfg: AuctionConfig, numAllowedGhostWinners: nat)
      ensures this.cfg == cfg && this.numAllowedGhostWinners == numAllowedGhostWinners && adScores == map[]
    {
      this.cfg, this.numAllowedGhostWinners, this.adScores := cfg, numAllowedGhostWinners, map[];
    }

    /** Records the score of an ad unless its id is taken. */
    method RecordAd(ad: ScoredAdData)
      modifies `adScores
      ensures adScores == if ad.id in old(adScores) then old(adScores) else old(adScores)[ad.id := ad.adScore]
    {
      if ad.id !in adScores {
        adScores := adScores[ad.id := ad.adScore];
      }
    }

    /** One step of the pass: an ad is kept where it stands, or swapped to the tail. */
    method ConsiderAd(parsedAds: array<ScoredAdData>, index: nat, end: nat, data: ScoringData,
                      ghost input: seq<ScoredAdData>, ghost seen: multiset<ScoredAdData>)
      returns (newIndex: nat, newEnd: nat)
      requires index < end <= parsedAds.Length
      requires PassAt(cfg, input, parsedAds[..], index, end, seen, data.adRejectionReasons)
      requires data.sellerRejectedBidCount == |data.adRejectionReasons|
      modifies parsedAds, data`adRejectionReasons, data`sellerRejectedBidCount
      ensures newIndex <= newEnd <= end && newEnd - newIndex == end - index - 1
      ensures PassAt(cfg, input, parsedAds[..], newIndex, newEnd, seen + multiset{old(parsedAds[index])}, data.adRejectionReasons)
      ensures data.sellerRejectedBidCount == |data.adRejectionReasons|
    {
      hide PassAt, WithModifiedBid, Judge, GetAdRejectionReason, ReasonOf, SwapAt;
      ghost var all, reasons := parsedAds[..], data.adRejectionReasons;
      var ad := parsedAds[index];
      parsedAds[index] := ad.(adScore := WithModifiedBid(cfg.scope, ad.adScore));
      assert parsedAds[..] == all[index := Updated(cfg, ad)];
      var reason := GetAdRejectionReason(cfg, ad.response, parsedAds[index].adScore);
      JudgeCases(cfg, ad, reason);
      newIndex, newEnd := index, end;
      if reason.Some? && reason.value != NotAvailable {
        RejectAt(cfg, input, all, index, end, seen, reasons);
        data.sellerRejectedBidCount := data.sellerRejectedBidCount + 1;
        data.adRejectionReasons := data.adRejectionReasons + [AdRejectionReason(ad.adScore.owner, ad.adScore.name, reason.value)];
        newEnd := end - 1;
        Swap(parsedAds, newEnd, index, all[index := Updated(cfg, ad)]);
      } else if cfg.scope.DeviceComponentMultiSeller? && !parsedAds[index].adScore.allowComponentAuction {
        RejectAt(cfg, input, all, index, end, seen, reasons);
        assert reasons + [] == reasons;
        newEnd := end - 1;
        Swap(parsedAds, newEnd, index, all[index := Updated(cfg, ad)]);
      } else {
        KeepAt(cfg, input, all, index, end, seen, reasons);
        newIndex := index + 1;
      }
    }

    /**
     Looks at every ad once.  Rejected and disallowed ads are swapped to the tail, so the first
     `end` ads are the ones kept.
     */
    method DropRejectedAds(parsedAds: array<ScoredAdData>, data: ScoringData) returns (end: nat)
      requires data.adRejectionReasons == [] && data.sellerRejectedBidCount == 0
      modifies parsedAds, `adScores, data`adRejectionReasons, data`sellerRejectedBidCount
      ensures end <= parsedAds.Length
      ensures multiset(parsedAds[..end]) == multiset(KeptAds(cfg, old(parsedAds[..])))
      ensures multiset(data.adRejectionReasons) == multiset(Reasons(cfg, old(parsedAds[..])))
      ensures data.sellerRejectedBidCount == |data.adRejectionReasons|
      ensures Recorded(old(adScores), adScores, multiset(old(parsedAds[..])))
    {
      hide KeptAds, Reasons, PassAt, Recorded;
      ghost var input, seen := parsedAds[..], multiset{};
      var index := 0;
      end := parsedAds.Length;
      StartAt(cfg, input);
      RecordedStart(adScores);
      while index < end
        invariant 0 <= index <= end <= parsedAds.Length
        invariant PassAt(cfg, input, parsedAds[..], index, end, seen, data.adRejectionReasons)
        invariant data.sellerRejectedBidCount == |data.adRejectionReasons|
        invariant Recorded(old(adScores), adScores, seen)
        decreases end - index
      {
        ghost var ad := parsedAds[index];
        RecordedStep(old(adScores), adScores, seen, ad);
        RecordAd(parsedAds[index]);
        index, end := ConsiderAd(parsedAds, index, end, data, input, seen);
        seen := seen + multiset{ad};
      }
      EndAt(cfg, input, parsedAds[..], end, seen, data.adRejectionReasons);
      assert parsedAds[..][..end] == parsedAds[..end];
    }

    /** Swaps two ads, with all their data. */
    method Swap(parsedAds: array<ScoredAdData>, i: nat, j: nat, ghost all: seq<ScoredAdData>)
      requires i < parsedAds.Length && j < parsedAds.Length && parsedAds[..] == all
      modifies parsedAds
      ensures parsedAds[..] == SwapAt(all, i, j)
    {
      parsedAds[i], parsedAds[j] := parsedAds[j], parsedAds[i];
    }

    /** Any of the greatest ads from position `i` on. */
    method SelectGreatest(parsedAds: array<ScoredAdData>, i: nat, end: nat) returns (k: nat)
      requires i < end <= parsedAds.Length
      ensures i <= k < end
      ensures GreatestFrom(parsedAds[..end], i, k)
    {
      ghost var g := GreatestExists(parsedAds[..end][i..]);
      GreatestInRange(parsedAds[..end], i, g);
      hide GreatestFrom;
      k :| i <= k < end && GreatestFrom(parsedAds[..end], i, k);
    }

    /** Leaves the first `end` ads in some order the comparison allows. */
    method SortAds(parsedAds: array<ScoredAdData>, end: nat)
      requires end <= parsedAds.Length
      modifies parsedAds
      ensures multiset(parsedAds[..end]) == multiset(old(parsedAds[..end]))
      ensures Ranked(parsedAds[..end])
      ensures parsedAds[end..] == old(parsedAds[end..])
    {
      hide Greater;
      ghost var tail := parsedAds[end..];
      for i := 0 to end
        invariant multiset(parsedAds[..end]) == multiset(old(parsedAds[..end]))
        invariant parsedAds[end..] == tail
        invariant RankedFrom(parsedAds[..end], i)
      {
        ghost var before := parsedAds[..end];
        var k := SelectGreatest(parsedAds, i, end);
        assert parsedAds[..end] == before;
        RankedStep(before, i, k);
        parsedAds[i], parsedAds[k] := parsedAds[k], parsedAds[i];
        assert parsedAds[..end] == Swapped(before, i, k);
        SwapMultiset(before, i, k);
      }
    }

    /** Adds an index unless the list already holds an ad of another score; the score arrives as an int. */
    method AddIfCandsEmptyOrHasEqLastDesirability(ind: nat, desirability: int, parsedAds: array<ScoredAdData>, cands: seq<nat>)
      returns (r: seq<nat>)
      requires forall i :: i in cands ==> i < parsedAds.Length
      ensures r == if EmptyOrSameScore(parsedAds[..], cands, desirability) then cands + [ind] else cands
    {
      assert cands != [] ==> cands[|cands| - 1] in cands;
      r := cands;
      if cands == [] || parsedAds[cands[|cands| - 1]].adScore.desirability == desirability as real {
        r := cands + [ind];
      }
    }

    /** Collects the candidates and clears the debug URLs of the ads above the winners. */
    method CollectCandidates(parsedAds: array<ScoredAdData>, end: nat, data: ScoringData)
      requires end <= parsedAds.Length && Ranked(parsedAds[..end])
      requires data.winnerCandIndices == [] && data.ghostWinnerCandIndices == []
      modifies parsedAds, data`winnerCandIndices, data`ghostWinnerCandIndices
      ensures CandidatesUpTo(old(parsedAds[..end]), end, data.winnerCandIndices, data.ghostWinnerCandIndices)
      ensures forall i :: 0 <= i < end ==> parsedAds[i] == Scanned(old(parsedAds[..end]), i)
    {
      hide WinnerCandidate, GhostCandidate, AboveWinners, Ranked;
      ghost var ranked := parsedAds[..end];
      for ind := 0 to end
        invariant CandidatesUpTo(ranked, ind, data.winnerCandIndices, data.ghostWinnerCandIndices)
        invariant forall i :: 0 <= i < ind ==> parsedAds[i] == Scanned(ranked, i)
        invariant forall i :: ind <= i < end ==> parsedAds[i] == ranked[i]
      {
        ghost var winners, ghosts := data.winnerCandIndices, data.ghostWinnerCandIndices;
        ScanStep(ranked, ind, winners, ghosts);
        var adScore := parsedAds[ind].adScore;
        if adScore.desirability <= 0.0 {
          continue;
        }
        if parsedAds[ind].kAnonStatus {
          SameScores(parsedAds[..], ranked, winners, Trunc(adScore.desirability));
          data.winnerCandIndices := AddIfCandsEmptyOrHasEqLastDesirability(
            ind, Trunc(adScore.desirability), parsedAds, data.winnerCandIndices);
        } else if data.winnerCandIndices == [] {
          parsedAds[ind] := parsedAds[ind].(adScore := adScore.(debugUrls := None));
          SameScores(parsedAds[..], ranked, ghosts, Trunc(adScore.desirability));
          data.ghostWinnerCandIndices := AddIfCandsEmptyOrHasEqLastDesirability(
            ind, Trunc(adScore.desirability), parsedAds, data.ghostWinnerCandIndices);
        }
      }
    }

    /** Groups the kept ads by score. */
    method GroupByScore(parsedAds: array<ScoredAdData>, end: nat, data: ScoringData)
      requires end <= parsedAds.Length && data.scoreAdMap == map[]
      modifies data`scoreAdMap
      ensures GroupedByScore(parsedAds[..], end, data.ghostWinnerCandIndices, data.scoreAdMap)
    {
      hide GroupedByScore;
      GroupStart(parsedAds[..], data.ghostWinnerCandIndices);
      var ghosts := set i | i in data.ghostWinnerCandIndices;
      for ind := 0 to end
        invariant GroupedByScore(parsedAds[..], ind, data.ghostWinnerCandIndices, data.scoreAdMap)
      {
        GroupStep(parsedAds[..], ind, data.ghostWinnerCandIndices, data.scoreAdMap);
        if ind !in ghosts {
          var d := parsedAds[ind].adScore.desirability;
          data.scoreAdMap := data.scoreAdMap[d := (if d in data.scoreAdMap then data.scoreAdMap[d] else []) + [ind]];
        }
      }
    }

    /**
     Finds the winner.  `ranked` names the order the sort happened to leave; everything the
     outcome depends on is said about it or, where possible, about the ads that came in.
     */
    method FindWinningAd(parsedAds: array<ScoredAdData>) returns (data: ScoringData, end: nat, ghost ranked: seq<ScoredAdData>)
      modifies parsedAds, `adScores
      ensures fresh(data) && end <= parsedAds.Length && |ranked| == end
      ensures Ranked(ranked) && multiset(ranked) == multiset(KeptAds(cfg, old(parsedAds[..])))
      ensures forall i :: 0 <= i < end ==> parsedAds[i] == Scanned(ranked, i)
      ensures forall ad :: ad in old(parsedAds[..]) && Judge(cfg, ad).Rejected? ==>
                AdRejectionReason(ad.adScore.owner, ad.adScore.name, Judge(cfg, ad).reason) in data.adRejectionReasons
      ensures forall ad: ScoredAdData ::
                && cfg.sellerCurrency != "" && ad.adScore.buyerBidCurrency == cfg.sellerCurrency
                && ad.adScore.incomingBidInSellerCurrency > 0.00001
                && (ad.adScore.incomingBidInSellerCurrency > ad.adScore.buyerBid + 0.00001
                    || ad.adScore.incomingBidInSellerCurrency < ad.adScore.buyerBid - 0.00001) ==>
                && ad !in ranked
                && (ad in old(parsedAds[..]) ==>
                    AdRejectionReason(
                      ad.adScore.owner, ad.adScore.name,
                      if (cfg.scope.DeviceComponentMultiSeller? || cfg.scope.ServerComponentMultiSeller?)
                         && ad.adScore.bid > 0.0 && ad.adScore.bidCurrency != "" && ad.adScore.bidCurrency != cfg.sellerCurrency
                      then BidFromScoreAdFailedCurrencyCheck else InvalidBid)
                    in data.adRejectionReasons)
      ensures multiset(data.adRejectionReasons) == multiset(Reasons(cfg, old(parsedAds[..])))
      ensures data.sellerRejectedBidCount == |data.adRejectionReasons|
      ensures |old(parsedAds[..])| == end + data.sellerRejectedBidCount + NotAllowedCount(cfg, old(parsedAds[..]))
      ensures Recorded(old(adScores), adScores, multiset(old(parsedAds[..])))
      ensures CandidatesUpTo(ranked, end, data.winnerCandIndices, data.ghostWinnerCandIndices)
      ensures if data.winnerCandIndices == [] then data.winnerIndex == -1 else data.winnerIndex in data.winnerCandIndices
      ensures GhostChoice(data.ghostWinnerCandIndices, numAllowedGhostWinners, data.ghostWinnerIndices)
      ensures GroupedByScore(parsedAds[..], end, data.ghostWinnerCandIndices, data.scoreAdMap)
      ensures WinnerIsTop(KeptAds(cfg, old(parsedAds[..])), ranked, data.winnerIndex)
      ensures GhostsBeatWinner(KeptAds(cfg, old(parsedAds[..])), ranked, data.winnerIndex, data.ghostWinnerIndices)
    {
      hide Ranked, Recorded, CandidatesUpTo, GroupedByScore, WinnerIsTop, GhostsBeatWinner, KeptAds, Reasons, NotAllowedCount, Judge, GhostChoice;
      ghost var input := parsedAds[..];
      data := new ScoringData();
      end := DropRejectedAds(parsedAds, data);
      SortAds(parsedAds, end);
      ranked := parsedAds[..end];
      Counted(cfg, input, ranked, data.adRejectionReasons);
      CollectCandidates(parsedAds, end, data);
      assert Increasing(data.ghostWinnerCandIndices) by { CandidatesIncreasing(ranked, end, data.winnerCandIndices, data.ghostWinnerCandIndices); }
      data.ChooseWinnerAndGhostWinners(numAllowedGhostWinners);
      WinnerOutcome(KeptAds(cfg, input), ranked, data.winnerCandIndices, data.ghostWinnerCandIndices, data.winnerIndex);
      GhostOutcome(KeptAds(cfg, input), ranked, data.winnerCandIndices, data.ghostWinnerCandIndices,
                   data.winnerIndex, data.ghostWinnerIndices);
      GroupByScore(parsedAds, end, data);
      RejectionsRecorded(cfg, input, ranked, data.adRejectionReasons);
    }
  }

  /** Every rejection is recorded, and a changed incoming bid rejects an ad. */
  lemma RejectionsRecorded(cfg: AuctionConfig, input: seq<ScoredAdData>, ranked: seq<ScoredAdData>, reasons: seq<AdRejectionReason>)
    requires multiset(ranked) == multiset(KeptAds(cfg, input)) && multiset(reasons) == multiset(Reasons(cfg, input))
    ensures forall ad :: ad in input && Judge(cfg, ad).Rejected? ==>
              AdRejectionReason(ad.adScore.owner, ad.adScore.name, Judge(cfg, ad).reason) in reasons
    ensures forall ad: ScoredAdData ::
              && cfg.sellerCurrency != "" && ad.adScore.buyerBidCurrency == cfg.sellerCurrency
              && ad.adScore.incomingBidInSellerCurrency > 0.00001
              && (ad.adScore.incomingBidInSellerCurrency > ad.adScore.buyerBid + 0.00001
                  || ad.adScore.incomingBidInSellerCurrency < ad.adScore.buyerBid - 0.00001) ==>
              && ad !in ranked
              && (ad in input ==>
                  AdRejectionReason(
                    ad.adScore.owner, ad.adScore.name,
                    if (cfg.scope.DeviceComponentMultiSeller? || cfg.scope.ServerComponentMultiSeller?)
                       && ad.adScore.bid > 0.0 && ad.adScore.bidCurrency != "" && ad.adScore.bidCurrency != cfg.sellerCurrency
                    then BidFromScoreAdFailedCurrencyCheck else InvalidBid)
                  in reasons)
  {
    SameMembers(KeptAds(cfg, input), ranked);
    SameReasons(reasons, Reasons(cfg, input));
    hide KeptAds, Reasons, Judge;
    forall ad: ScoredAdData |
      && cfg.sellerCurrency != "" && ad.adScore.buyerBidCurrency == cfg.sellerCurrency
      && ad.adScore.incomingBidInSellerCurrency > 0.00001
      && (ad.adScore.incomingBidInSellerCurrency > ad.adScore.buyerBid + 0.00001
          || ad.adScore.incomingBidInSellerCurrency < ad.adScore.buyerBid - 0.00001)
    {
      ChangedBids(cfg, input, ad);
    }
    forall ad | ad in input && Judge(cfg, ad).Rejected? {
      ReasonsMember(cfg, input, ad);
    }
  }

  lemma SameReasons(a: seq<AdRejectionReason>, b: seq<AdRejectionReason>)
    requires multiset(a) == multiset(b)
    ensures forall r :: r in a <==> r in b
  {
    assert forall r :: r in a <==> r in multiset(a);
    assert forall r :: r in b <==> r in multiset(b);
  }

  lemma JudgeCases(cfg: AuctionConfig, ad: ScoredAdData, reason: Option<RejectionReason>)
    requires reason == GetAdRejectionReason(cfg, ad.response, WithModifiedBid(cfg.scope, ad.adScore))
    ensures reason.Some? && reason.value != NotAvailable ==>
              !Judge(cfg, ad).Kept? && ReasonOf(cfg, ad) == [AdRejectionReason(ad.adScore.owner, ad.adScore.name, reason.value)]
    ensures !(reason.Some? && reason.value != NotAvailable) ==>
              && ReasonOf(cfg, ad) == []
              && (Judge(cfg, ad).Kept? <==>
                   !(cfg.scope.DeviceComponentMultiSeller? && !WithModifiedBid(cfg.scope, ad.adScore).allowComponentAuction))
  {
  }

  lemma CandidatesIncreasing(ranked: seq<ScoredAdData>, n: nat, winners: seq<nat>, ghosts: seq<nat>)
    requires CandidatesUpTo(ranked, n, winners, ghosts)
    ensures Increasing(winners) && Increasing(ghosts)
  {
  }

  lemma Counted(cfg: AuctionConfig, input: seq<ScoredAdData>, ranked: seq<ScoredAdData>, reasons: seq<AdRejectionReason>)
    requires multiset(ranked) == multiset(KeptAds(cfg, input)) && multiset(reasons) == multiset(Reasons(cfg, input))
    ensures |input| == |ranked| + |reasons| + NotAllowedCount(cfg, input)
  {
    Conservation(cfg, input);
    assert |multiset(ranked)| == |ranked| && |multiset(reasons)| == |reasons|;
    assert |multiset(KeptAds(cfg, input))| == |KeptAds(cfg, input)| && |multiset(Reasons(cfg, input))| == |Reasons(cfg, input)|;
  }

  lemma RecordedStart(before: map<string, AdScore>)
    ensures Recorded(before, before, multiset{})
  {
  }

  lemma GroupStart(ads: seq<ScoredAdData>, ghosts: seq<nat>)
    ensures GroupedByScore(ads, 0, ghosts, map[])
  {
  }

  /** The scan changes no score, so it sees the same scores in the ads it has already passed. */
  lemma SameScores(ads: seq<ScoredAdData>, ranked: seq<ScoredAdData>, cands: seq<nat>, desirability: int)
    requires |ranked| <= |ads| && forall i :: i in cands ==> i < |ranked| && ads[i].adScore.desirability == ranked[i].adScore.desirability
    ensures EmptyOrSameScore(ads, cands, desirability) == EmptyOrSameScore(ranked, cands, desirability)
  {
    assert cands != [] ==> cands[|cands| - 1] in cands;
  }

  // ----- selection -----

  /** The first `n` positions hold what a sorted list would hold there. */
  ghost predicate RankedFrom(s: seq<ScoredAdData>, n: nat) {
    forall p, q :: 0 <= p < q < |s| && p < n ==> !Greater(s[q], s[p])
  }

  ghost function Swapped(s: seq<ScoredAdData>, i: nat, k: nat): seq<ScoredAdData>
    requires i < |s| && k < |s|
  {
    s[i := s[k]][k := s[i]]
  }

  lemma SwapMultiset(s: seq<ScoredAdData>, i: nat, k: nat)
    requires i <= k < |s|
    ensures multiset(Swapped(s, i, k)) == multiset(s)
  {
    assert multiset(s[i := s[k]]) == multiset(s)[s[i] := multiset(s)[s[i]] - 1] + multiset{s[k]};
  }

  predicate GreatestFrom(s: seq<ScoredAdData>, i: nat, k: nat) {
    k < |s| && forall j :: i <= j < |s| ==> !Greater(s[j], s[k])
  }

  lemma GreatestInRange(s: seq<ScoredAdData>, i: nat, g: nat)
    requires i < |s| && IsGreatest(s[i..], g)
    ensures i + g < |s| && GreatestFrom(s, i, i + g)
  {
    forall j | i <= j < |s|
      ensures !Greater(s[j], s[i + g])
    {
      assert s[j] == s[i..][j - i];
    }
  }

  lemma RankedStep(s: seq<ScoredAdData>, i: nat, k: nat)
    requires RankedFrom(s, i) && i <= k < |s| && GreatestFrom(s, i, k)
    ensures RankedFrom(Swapped(s, i, k), i + 1)
  {
    hide Greater;
    var t := Swapped(s, i, k);
    forall p, q | 0 <= p < q < |t| && p < i + 1
      ensures !Greater(t[q], t[p])
    {
      var q0 := if q == i then k else if q == k then i else q;
      assert t[q] == s[q0];
      if p < i {
        assert !Greater(s[q0], s[p]);
      } else {
        assert !Greater(s[q0], s[k]);
      }
    }
  }
}
