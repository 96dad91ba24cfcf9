/**
 What the outcome of an auction means for the ads that were kept in it, whatever order the sort
 left equal ads in (services/auction_service/score_ads_reactor.cc, `FindWinningAd`).
 */
module AuctionOutcome {
  import opened Auctions
  import opened IndexLists
  import opened CandidateScan

  /** There is no winner exactly when no ad is eligible; a winner has the greatest score of the eligible ads. */
  ghost predicate WinnerIsTop(kept: seq<ScoredAdData>, ranked: seq<ScoredAdData>, winnerIndex: int) {
    && (winnerIndex == -1 <==> forall ad :: ad in kept ==> !(ad.kAnonStatus && ad.adScore.desirability > 0.0))
    && (winnerIndex != -1 ==>
          && 0 <= winnerIndex < |ranked| && ranked[winnerIndex] in kept
          && ranked[winnerIndex].kAnonStatus && ranked[winnerIndex].adScore.desirability > 0.0
          && forall ad :: ad in kept && ad.kAnonStatus && ad.adScore.desirability > 0.0 ==>
               ad.adScore.desirability <= ranked[winnerIndex].adScore.desirability)
  }

  /** An ad that could not win only for want of k-anonymity: it scores strictly higher than every eligible ad. */
  ghost predicate BeatsAllEligible(kept: seq<ScoredAdData>, ad: ScoredAdData) {
    && ad in kept && !ad.kAnonStatus && ad.adScore.desirability > 0.0
    && forall other :: other in kept && other.kAnonStatus && other.adScore.desirability > 0.0 ==>
         || ad.adScore.desirability > other.adScore.desirability
         || (ad.adScore.desirability == other.adScore.desirability && ad.adScore.buyerBid > other.adScore.buyerBid)
  }

  /** The ghost winners beat every eligible ad, share the greatest such score, and do not include the winner. */
  ghost predicate GhostsBeatWinner(kept: seq<ScoredAdData>, ranked: seq<ScoredAdData>, winnerIndex: int, ghosts: seq<nat>) {
    && (forall g :: g in ghosts ==> g < |ranked| && BeatsAllEligible(kept, ranked[g]) && g != winnerIndex)
    && (forall g, ad :: g in ghosts && BeatsAllEligible(kept, ad) ==>
          ad.adScore.desirability <= ranked[g].adScore.desirability)
  }

  lemma SameMembers(kept: seq<ScoredAdData>, ranked: seq<ScoredAdData>)
    requires multiset(ranked) == multiset(kept)
    ensures |ranked| == |kept|
    ensures forall ad :: ad in kept <==> ad in ranked
  {
    assert |multiset(ranked)| == |ranked| && |multiset(kept)| == |kept|;
    forall ad
      ensures ad in kept <==> ad in ranked
    {
      assert ad in kept <==> ad in multiset(kept);
      assert ad in ranked <==> ad in multiset(ranked);
    }
  }

  lemma NoCandidate(ranked: seq<ScoredAdData>, winners: seq<nat>, ghosts: seq<nat>)
    requires Ranked(ranked) && CandidatesUpTo(ranked, |ranked|, winners, ghosts)
    ensures winners == [] <==> forall i :: 0 <= i < |ranked| ==> !Eligible(ranked, i)
    ensures ghosts == [] <==> forall i :: 0 <= i < |ranked| ==> !AboveWinners(ranked, i)
  {
    assert winners != [] ==> winners[0] in winners;
    assert ghosts != [] ==> ghosts[0] in ghosts;
    if exists i :: 0 <= i < |ranked| && Eligible(ranked, i) {
      var first := LeastEligible(ranked, |ranked|);
      FirstIsWinnerCandidate(ranked, first);
    }
    if exists i :: 0 <= i < |ranked| && AboveWinners(ranked, i) {
      var first := LeastAbove(ranked, |ranked|);
      FirstIsGhostCandidate(ranked, first);
    }
  }

  lemma WinnerOutcome(
    kept: seq<ScoredAdData>, ranked: seq<ScoredAdData>, winners: seq<nat>, ghosts: seq<nat>, winnerIndex: int)
    requires Ranked(ranked) && multiset(ranked) == multiset(kept)
    requires CandidatesUpTo(ranked, |ranked|, winners, ghosts)
    requires if winners == [] then winnerIndex == -1 else winnerIndex in winners
    ensures WinnerIsTop(kept, ranked, winnerIndex)
  {
    hide Ranked;
    SameMembers(kept, ranked);
    NoCandidate(ranked, winners, ghosts);
    if winners == [] {
      forall ad | ad in kept
        ensures !EligibleAd(ad)
      {
        var i :| 0 <= i < |ranked| && ranked[i] == ad;
        assert !Eligible(ranked, i);
      }
    } else {
      assert WinnerCandidate(ranked, winnerIndex);
      forall ad | ad in kept && EligibleAd(ad)
        ensures ad.adScore.desirability <= ranked[winnerIndex].adScore.desirability
      {
        var i :| 0 <= i < |ranked| && ranked[i] == ad;
        assert Eligible(ranked, i);
      }
    }
  }

  /** Being above the winners in rank order is the same as beating every eligible ad. */
  lemma AboveIsBeating(kept: seq<ScoredAdData>, ranked: seq<ScoredAdData>, i: nat)
    requires Ranked(ranked) && multiset(ranked) == multiset(kept) && i < |ranked|
    ensures AboveWinners(ranked, i) <==> BeatsAllEligible(kept, ranked[i])
  {
    SameMembers(kept, ranked);
    AboveWinnersIff(ranked, i);
    hide AboveWinners, ScoresHigher, Ranked;
    if AboveWinners(ranked, i) {
      forall other | other in kept && EligibleAd(other)
        ensures ScoresHigher(ranked[i], other)
      {
        var j :| 0 <= j < |ranked| && ranked[j] == other;
        assert Eligible(ranked, j);
      }
    }
    if BeatsAllEligible(kept, ranked[i]) {
      forall j | Eligible(ranked, j)
        ensures ScoresHigher(ranked[i], ranked[j])
      {
        assert ranked[j] in kept;
      }
    }
  }

  lemma GhostOutcome(
    kept: seq<ScoredAdData>, ranked: seq<ScoredAdData>, winners: seq<nat>, ghosts: seq<nat>, winnerIndex: int, chosen: seq<nat>)
    requires Ranked(ranked) && multiset(ranked) == multiset(kept)
    requires CandidatesUpTo(ranked, |ranked|, winners, ghosts)
    requires if winners == [] then winnerIndex == -1 else winnerIndex in winners
    requires forall g :: g in chosen ==> g in ghosts
    ensures GhostsBeatWinner(kept, ranked, winnerIndex, chosen)
  {
    hide Ranked;
    SameMembers(kept, ranked);
    forall g | g in chosen
      ensures g < |ranked| && BeatsAllEligible(kept, ranked[g]) && g != winnerIndex
      ensures forall ad :: BeatsAllEligible(kept, ad) ==> ad.adScore.desirability <= ranked[g].adScore.desirability
    {
      assert g in ghosts && GhostCandidate(ranked, g);
      AboveIsBeating(kept, ranked, g);
      forall ad | BeatsAllEligible(kept, ad)
        ensures ad.adScore.desirability <= ranked[g].adScore.desirability
      {
        var i :| 0 <= i < |ranked| && ranked[i] == ad;
        AboveIsBeating(kept, ranked, i);
      }
    }
  }

  /** There are ghost candidates exactly when some ad beats all eligible ones. */
  lemma GhostsExistIff(kept: seq<ScoredAdData>, ranked: seq<ScoredAdData>, winners: seq<nat>, ghosts: seq<nat>)
    requires Ranked(ranked) && multiset(ranked) == multiset(kept)
    requires CandidatesUpTo(ranked, |ranked|, winners, ghosts)
    ensures ghosts != [] <==> exists ad :: BeatsAllEligible(kept, ad)
  {
    SameMembers(kept, ranked);
    NoCandidate(ranked, winners, ghosts);
    hide Ranked, AboveWinners;
    if ghosts != [] {
      var i :| 0 <= i < |ranked| && AboveWinners(ranked, i);
      AboveIsBeating(kept, ranked, i);
    }
    if ad :| BeatsAllEligible(kept, ad) {
      var i :| 0 <= i < |ranked| && ranked[i] == ad;
      AboveIsBeating(kept, ranked, i);
    }
  }
}
