/**
 K-anonymity from the hashes of a bid to the winner of the auction: the statuses forwarded by the
 seller frontend (services/seller_frontend_service/select_ad_reactor.cc) and what the auction
 service does with them (services/auction_service/score_ads_reactor.cc).
 */
module KAnonWinners {
  import opened Auctions
  import opened AuctionOutcome
  import opened KAnon
  import opened ScoringJoin

  /** The scored ads come from bids, and carry the status that was forwarded, or none is needed. */
  ghost predicate ScoredFrom(
    ads: seq<ScoredAdData>, bidOf: map<string, BidKey>, auctionEnforces: bool, enforce: bool, statuses: map<BidKey, bool>)
  {
    forall i :: 0 <= i < |ads| ==>
      && ads[i].id in bidOf
      && ads[i].kAnonStatus == (!auctionEnforces || Forwarded(enforce, statuses, bidOf[ads[i].id]))
  }

  /** An ad kept in the auction has the status and the bid of a scored one. */
  lemma KeptStatus(
    cfg: AuctionConfig, ads: seq<ScoredAdData>, bidOf: map<string, BidKey>, auctionEnforces: bool, enforce: bool,
    statuses: map<BidKey, bool>, ad: ScoredAdData)
    requires ScoredFrom(ads, bidOf, auctionEnforces, enforce, statuses) && ad in KeptAds(cfg, ads)
    ensures ad.id in bidOf
    ensures ad.kAnonStatus == (!auctionEnforces || Forwarded(enforce, statuses, bidOf[ad.id]))
  {
    KeptAdsMember(cfg, ads, ad);
    var original :| original in ads && Judge(cfg, original).Kept? && ad == Updated(cfg, original);
    var i :| 0 <= i < |ads| && ads[i] == original;
  }

  /**
   With enforcement at both services, over every interleaving at the frontend and every order of the
   sort: what the winning bid renders, reports and each of its components was answered to be k-anonymous,
   and of every ghost winner something was not.
   */
  lemma WinnersAreKAnonymous(
    r: Request, bids: map<string, seq<Bid>>, reportWinUrls: map<string, string>, events: seq<Event>,
    cfg: AuctionConfig, ads: seq<ScoredAdData>, bidOf: map<string, BidKey>, ranked: seq<ScoredAdData>, winnerIndex: int,
    ghosts: seq<nat>)
    requires HashedBids(bids, reportWinUrls, bids.Keys, r.hashes) && r.enforce
    requires Legal(r, Start(r), events) && After(r, Start(r), events).scored != []
    requires ScoredFrom(ads, bidOf, true, true, After(r, Start(r), events).scored[0])
    requires forall id :: id in bidOf ==> IsBid(bids, bidOf[id])
    requires WinnerIsTop(KeptAds(cfg, ads), ranked, winnerIndex)
    requires GhostsBeatWinner(KeptAds(cfg, ads), ranked, winnerIndex, ghosts)
    ensures winnerIndex != -1 ==>
              && 0 <= winnerIndex < |ranked| && ranked[winnerIndex].id in bidOf
              && var k, found := bidOf[ranked[winnerIndex].id], Found({}, events);
              && k.owner in reportWinUrls
              && var bid, url := bids[k.owner][k.index], reportWinUrls[k.owner];
              && RenderHash(k.owner, url, bid.render) in found
              && ReportingHash(k.owner, bid.interestGroupName, url, bid.render, bid.reportingIds) in found
              && forall c :: c in bid.adComponents ==> ComponentHash(c) in found
    ensures forall g :: g in ghosts ==>
              && g < |ranked| && ranked[g].id in bidOf
              && var k, found := bidOf[ranked[g].id], Found({}, events);
              && (k.owner in reportWinUrls ==>
                  var bid, url := bids[k.owner][k.index], reportWinUrls[k.owner];
                  || RenderHash(k.owner, url, bid.render) !in found
                  || ReportingHash(k.owner, bid.interestGroupName, url, bid.render, bid.reportingIds) !in found
                  || exists c :: c in bid.adComponents && ComponentHash(c) !in found)
  {
    hide After, Legal, Start, Found, HashesOfBid, HashedBids, Forwarded;
    var statuses := After(r, Start(r), events).scored[0];
    if winnerIndex != -1 {
      var ad := ranked[winnerIndex];
      KeptStatus(cfg, ads, bidOf, true, true, statuses, ad);
      FailClosed(r, bids, reportWinUrls, events, bidOf[ad.id]);
    }
    forall g | g in ghosts
      ensures g < |ranked| && ranked[g].id in bidOf
      ensures
        var k, found := bidOf[ranked[g].id], Found({}, events);
        k.owner in reportWinUrls ==>
          var bid, url := bids[k.owner][k.index], reportWinUrls[k.owner];
          || RenderHash(k.owner, url, bid.render) !in found
          || ReportingHash(k.owner, bid.interestGroupName, url, bid.render, bid.reportingIds) !in found
          || exists c :: c in bid.adComponents && ComponentHash(c) !in found
    {
      var ad := ranked[g];
      KeptStatus(cfg, ads, bidOf, true, true, statuses, ad);
      FailClosed(r, bids, reportWinUrls, events, bidOf[ad.id]);
    }
  }
}
