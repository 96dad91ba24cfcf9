/**
 The data of an ad auction and the judgement passed on a single scored ad
 (services/auction_service/score_ads_reactor.cc).  Floats are modelled as reals.
 */
module Auctions {
  import opened Results

  datatype AuctionScope = SingleSeller | DeviceComponentMultiSeller | ServerComponentMultiSeller | ServerTopLevelSeller

  predicate IsComponentAuction(scope: AuctionScope) {
    scope.DeviceComponentMultiSeller? || scope.ServerComponentMultiSeller?
  }

  datatype RejectionReason =
    | NotAvailable
    | InvalidBid
    | BidBelowAuctionFloor
    | PendingApprovalByExchange
    | DisapprovedByExchange
    | BlockedByPublisher
    | LanguageExclusions
    | CategoryExclusions
    | DidNotMeetTheKAnonymityThreshold
    | BidFromGenerateBidFailedCurrencyCheck
    | BidFromScoreAdFailedCurrencyCheck

  datatype DebugUrls = DebugUrls(winUrl: string, lossUrl: string)

  datatype AdScore = AdScore(
    desirability: real,
    owner: string,
    name: string,
    buyerBid: real,
    buyerBidCurrency: string,
    bid: real,
    bidCurrency: string,
    incomingBidInSellerCurrency: real,
    allowComponentAuction: bool,
    debugUrls: Option<DebugUrls>)

  /** The response of the scoring code: a bare number, or an object that may name a reject reason. */
  datatype ScoreAdResponse = Number | Object(rejectReason: Option<RejectionReason>)

  datatype ScoredAdData = ScoredAdData(adScore: AdScore, response: ScoreAdResponse, id: string, kAnonStatus: bool)

  datatype AdRejectionReason = AdRejectionReason(owner: string, name: string, reason: RejectionReason)

  datatype AuctionConfig = AuctionConfig(scope: AuctionScope, sellerCurrency: string)

  const CURRENCY_EPSILON := 0.00001

  function Abs(r: real): real {
    if r < 0.0 then -r else r
  }

  /** Conversion of a float to an int, which drops the fraction. */
  function Trunc(r: real): int {
    if r >= 0.0 then r.Floor else -((-r).Floor)
  }

  lemma TruncMeaning(r: real, n: int)
    ensures Trunc(r) == n <==> if r >= 0.0 then n as real <= r < n as real + 1.0 else n as real - 1.0 < r <= n as real
  {
  }

  predicate Integral(r: real) {
    Trunc(r) as real == r
  }

  /** For a positive score, equality with the truncation of a lower score means both are one integer. */
  lemma TruncTie(high: real, low: real)
    requires 0.0 < low <= high
    ensures high == Trunc(low) as real <==> high == low && Integral(low)
  {
  }

  // ----- one ad -----

  /** In a component auction an unset modified bid defaults to the buyer's bid and its currency. */
  function WithModifiedBid(scope: AuctionScope, s: AdScore): AdScore {
    if IsComponentAuction(scope) && s.bid <= 0.0 && s.buyerBid > 0.0
    then s.(bid := s.buyerBid, bidCurrency := s.buyerBidCurrency)
    else s
  }

  predicate IsBidCurrencyMismatched(cfg: AuctionConfig, s: AdScore) {
    && IsComponentAuction(cfg.scope) && cfg.sellerCurrency != ""
    && s.bid > 0.0 && s.bidCurrency != "" && s.bidCurrency != cfg.sellerCurrency
  }

  predicate IsIncomingBidIllegallyModified(cfg: AuctionConfig, s: AdScore) {
    && cfg.sellerCurrency != "" && s.buyerBidCurrency != "" && cfg.sellerCurrency == s.buyerBidCurrency
    && s.incomingBidInSellerCurrency > CURRENCY_EPSILON
    && Abs(s.incomingBidInSellerCurrency - s.buyerBid) > CURRENCY_EPSILON
  }

  /** The reason recorded for an ad, if any; `s` already carries the modified bid. */
  function GetAdRejectionReason(cfg: AuctionConfig, response: ScoreAdResponse, s: AdScore): Option<RejectionReason> {
    if IsBidCurrencyMismatched(cfg, s) then Some(BidFromScoreAdFailedCurrencyCheck)
    else if IsIncomingBidIllegallyModified(cfg, s) then Some(InvalidBid)
    else if s.desirability <= 0.0 then Some(NotAvailable)
    else match response
         case Number => None
         case Object(reason) => reason
  }

  datatype Verdict = Rejected(reason: RejectionReason) | NotAllowed | Kept

  function Judge(cfg: AuctionConfig, ad: ScoredAdData): Verdict {
    var s := WithModifiedBid(cfg.scope, ad.adScore);
    var reason := GetAdRejectionReason(cfg, ad.response, s);
    if reason.Some? && reason.value != NotAvailable then Rejected(reason.value)
    else if cfg.scope.DeviceComponentMultiSeller? && !s.allowComponentAuction then NotAllowed
    else Kept
  }

  /**
   What becomes of an ad, and why: a foreign currency of its bid comes first, then an incoming bid that differs from a
   buyer bid made in the seller's currency, then the seller's own word, which counts only with a positive score.
   The bid looked at is the buyer's if the ad is in a component auction and no modified bid is set.
   */
  lemma RejectedIff(cfg: AuctionConfig, ad: ScoredAdData)
    ensures
      var s := ad.adScore;
      var component := cfg.scope.DeviceComponentMultiSeller? || cfg.scope.ServerComponentMultiSeller?;
      var unset := component && s.bid <= 0.0 && s.buyerBid > 0.0;
      var bid := if unset then s.buyerBid else s.bid;
      var currency := if unset then s.buyerBidCurrency else s.bidCurrency;
      var mismatched := component && cfg.sellerCurrency != "" && bid > 0.0 && currency != "" && currency != cfg.sellerCurrency;
      var changed :=
        && cfg.sellerCurrency != "" && s.buyerBidCurrency == cfg.sellerCurrency && s.incomingBidInSellerCurrency > 0.00001
        && (s.incomingBidInSellerCurrency > s.buyerBid + 0.00001 || s.incomingBidInSellerCurrency < s.buyerBid - 0.00001);
      var reasoned :=
        && s.desirability > 0.0 && ad.response.Object? && ad.response.rejectReason.Some?
        && ad.response.rejectReason.value != NotAvailable;
      && (mismatched ==> Judge(cfg, ad) == Rejected(BidFromScoreAdFailedCurrencyCheck))
      && (!mismatched && changed ==> Judge(cfg, ad) == Rejected(InvalidBid))
      && (!mismatched && !changed && reasoned ==> Judge(cfg, ad) == Rejected(ad.response.rejectReason.value))
      && (!mismatched && !changed && !reasoned ==>
          Judge(cfg, ad) == if cfg.scope.DeviceComponentMultiSeller? && !s.allowComponentAuction then NotAllowed else Kept)
  {
  }

  /** After the default is applied, a positive bid of a kept component ad is in the seller's currency or in none. */
  lemma KeptBidCurrency(cfg: AuctionConfig, ad: ScoredAdData)
    requires Judge(cfg, ad).Kept? && IsComponentAuction(cfg.scope) && cfg.sellerCurrency != ""
    ensures var s := WithModifiedBid(cfg.scope, ad.adScore);
            && (s.bid > 0.0 ==> s.bidCurrency == "" || s.bidCurrency == cfg.sellerCurrency)
            && (ad.adScore.buyerBid > 0.0 ==> s.bid > 0.0)
  {
  }

  // ----- all ads -----

  function Updated(cfg: AuctionConfig, ad: ScoredAdData): ScoredAdData {
    ad.(adScore := WithModifiedBid(cfg.scope, ad.adScore))
  }

  /** The ads that stay in the auction, with their modified bids. */
  function KeptAds(cfg: AuctionConfig, ads: seq<ScoredAdData>): seq<ScoredAdData> {
    if ads == [] then []
    else (if Judge(cfg, ads[0]).Kept? then [Updated(cfg, ads[0])] else []) + KeptAds(cfg, ads[1..])
  }

  function ReasonOf(cfg: AuctionConfig, ad: ScoredAdData): seq<AdRejectionReason> {
    match Judge(cfg, ad)
    case Rejected(reason) => [AdRejectionReason(ad.adScore.owner, ad.adScore.name, reason)]
    case _ => []
  }

  function Reasons(cfg: AuctionConfig, ads: seq<ScoredAdData>): seq<AdRejectionReason> {
    if ads == [] then [] else ReasonOf(cfg, ads[0]) + Reasons(cfg, ads[1..])
  }

  function NotAllowedCount(cfg: AuctionConfig, ads: seq<ScoredAdData>): nat {
    if ads == [] then 0 else (if Judge(cfg, ads[0]).NotAllowed? then 1 else 0) + NotAllowedCount(cfg, ads[1..])
  }

  /** No ad is lost or counted twice. */
  lemma {:induction false} Conservation(cfg: AuctionConfig, ads: seq<ScoredAdData>)
    ensures |ads| == |KeptAds(cfg, ads)| + |Reasons(cfg, ads)| + NotAllowedCount(cfg, ads)
  {
    if ads != [] {
      Conservation(cfg, ads[1..]);
    }
  }

  lemma {:induction false} KeptAdsConcat(cfg: AuctionConfig, a: seq<ScoredAdData>, b: seq<ScoredAdData>)
    ensures KeptAds(cfg, a + b) == KeptAds(cfg, a) + KeptAds(cfg, b)
    ensures Reasons(cfg, a + b) == Reasons(cfg, a) + Reasons(cfg, b)
  {
    if a == [] {
      assert a + b == b;
    } else {
      assert (a + b)[1..] == a[1..] + b;
      KeptAdsConcat(cfg, a[1..], b);
    }
  }

  /** The bid of a component ad is the buyer's if none was set, and nothing else changes. */
  lemma UpdatedBid(cfg: AuctionConfig, ad: ScoredAdData)
    ensures
      var s := ad.adScore;
      Updated(cfg, ad) ==
        if (cfg.scope.DeviceComponentMultiSeller? || cfg.scope.ServerComponentMultiSeller?) && s.bid <= 0.0 && s.buyerBid > 0.0
        then ScoredAdData(
               AdScore(s.desirability, s.owner, s.name, s.buyerBid, s.buyerBidCurrency, s.buyerBid, s.buyerBidCurrency,
                       s.incomingBidInSellerCurrency, s.allowComponentAuction, s.debugUrls),
               ad.response, ad.id, ad.kAnonStatus)
        else ad
  {
  }

  /** No kept ad has a changed incoming bid, and every ad that has one is recorded, as invalid unless its currency fails. */
  lemma ChangedBids(cfg: AuctionConfig, ads: seq<ScoredAdData>, ad: ScoredAdData)
    requires ad.adScore.incomingBidInSellerCurrency > 0.00001
    requires cfg.sellerCurrency != "" && ad.adScore.buyerBidCurrency == cfg.sellerCurrency
    requires ad.adScore.incomingBidInSellerCurrency > ad.adScore.buyerBid + 0.00001
             || ad.adScore.incomingBidInSellerCurrency < ad.adScore.buyerBid - 0.00001
    ensures ad !in KeptAds(cfg, ads)
    ensures ad in ads ==>
              AdRejectionReason(
                ad.adScore.owner, ad.adScore.name,
                if (cfg.scope.DeviceComponentMultiSeller? || cfg.scope.ServerComponentMultiSeller?) && ad.adScore.bid > 0.0
                   && ad.adScore.bidCurrency != "" && ad.adScore.bidCurrency != cfg.sellerCurrency
                then BidFromScoreAdFailedCurrencyCheck else InvalidBid)
              in Reasons(cfg, ads)
  {
    KeptAdsMember(cfg, ads, ad);
    if ad in KeptAds(cfg, ads) {
      var original :| original in ads && Judge(cfg, original).Kept? && ad == Updated(cfg, original);
      RejectedIff(cfg, original);
      UpdatedBid(cfg, original);
    }
    if ad in ads {
      RejectedIff(cfg, ad);
      ReasonsMember(cfg, ads, ad);
    }
  }

  lemma {:induction false} ReasonsMember(cfg: AuctionConfig, ads: seq<ScoredAdData>, ad: ScoredAdData)
    requires ad in ads && Judge(cfg, ad).Rejected?
    ensures AdRejectionReason(ad.adScore.owner, ad.adScore.name, Judge(cfg, ad).reason) in Reasons(cfg, ads)
  {
    if ads[0] != ad {
      ReasonsMember(cfg, ads[1..], ad);
    }
  }

  /** Membership form of `KeptAds`. */
  lemma {:induction false} KeptAdsMember(cfg: AuctionConfig, ads: seq<ScoredAdData>, kept: ScoredAdData)
    ensures kept in KeptAds(cfg, ads) <==> exists ad :: ad in ads && Judge(cfg, ad).Kept? && kept == Updated(cfg, ad)
  {
    if ads != [] {
      KeptAdsMember(cfg, ads[1..], kept);
      assert ads == [ads[0]] + ads[1..];
    }
  }

  // ----- ranking -----

  /** Higher desirability first, then the higher buyer bid, then k-anonymous before not. */
  predicate Greater(a: ScoredAdData, b: ScoredAdData) {
    var (sa, sb) := (a.adScore, b.adScore);
    if sa.desirability > sb.desirability then true
    else if sa.desirability == sb.desirability then
      if sa.buyerBid > sb.buyerBid then true
      else if sa.buyerBid == sb.buyerBid then a.kAnonStatus && !b.kAnonStatus
      else false
    else false
  }

  /** Higher desirability, or the same desirability and a higher buyer bid. */
  predicate ScoresHigher(a: ScoredAdData, b: ScoredAdData) {
    || a.adScore.desirability > b.adScore.desirability
    || (a.adScore.desirability == b.adScore.desirability && a.adScore.buyerBid > b.adScore.buyerBid)
  }

  /** The comparison is a strict weak order, as sorting demands. */
  lemma StrictWeakOrder(a: ScoredAdData, b: ScoredAdData, c: ScoredAdData)
    ensures Greater(a, b) <==>
              var sa, sb := a.adScore, b.adScore;
              || sa.desirability > sb.desirability
              || (sa.desirability == sb.desirability
                  && (sa.buyerBid > sb.buyerBid || (sa.buyerBid == sb.buyerBid && a.kAnonStatus && !b.kAnonStatus)))
    ensures !Greater(a, a)
    ensures Greater(a, b) ==> !Greater(b, a)
    ensures Greater(a, b) && Greater(b, c) ==> Greater(a, c)
    ensures Greater(a, c) ==> Greater(a, b) || Greater(b, c)
  {
  }

  ghost predicate Ranked(s: seq<ScoredAdData>) {
    forall i, j :: 0 <= i < j < |s| ==> !Greater(s[j], s[i])
  }

  ghost predicate IsGreatest(s: seq<ScoredAdData>, k: int) {
    0 <= k < |s| && forall j :: 0 <= j < |s| ==> !Greater(s[j], s[k])
  }

  lemma {:induction false} GreatestExists(s: seq<ScoredAdData>) returns (k: nat)
    requires s != []
    ensures IsGreatest(s, k)
  {
    var last := |s| - 1;
    if last == 0 {
      return 0;
    }
    k := GreatestExists(s[..last]);
    assert forall j :: 0 <= j < last ==> !Greater(s[..last][j], s[k]) && s[..last][j] == s[j];
    if Greater(s[last], s[k]) {
      k := last;
    }
  }

  // ----- candidates -----

  predicate EligibleAd(ad: ScoredAdData) {
    ad.kAnonStatus && ad.adScore.desirability > 0.0
  }

  predicate Eligible(s: seq<ScoredAdData>, i: int) {
    0 <= i < |s| && EligibleAd(s[i])
  }

  /** A k-anonymous ad of greatest desirability; when that is not an integer, only the first one. */
  ghost predicate WinnerCandidate(s: seq<ScoredAdData>, i: int) {
    && Eligible(s, i)
    && (forall j :: Eligible(s, j) ==> s[j].adScore.desirability <= s[i].adScore.desirability)
    && (Integral(s[i].adScore.desirability) || forall j :: 0 <= j < i ==> !Eligible(s, j))
  }

  /** An ad with a positive score that is not k-anonymous and is ranked above every winner candidate. */
  ghost predicate AboveWinners(s: seq<ScoredAdData>, i: int) {
    && 0 <= i < |s| && !s[i].kAnonStatus && s[i].adScore.desirability > 0.0
    && forall j :: 0 <= j < i ==> !Eligible(s, j)
  }

  ghost predicate GhostCandidate(s: seq<ScoredAdData>, i: int) {
    && AboveWinners(s, i)
    && (forall j :: AboveWinners(s, j) ==> s[j].adScore.desirability <= s[i].adScore.desirability)
    && (Integral(s[i].adScore.desirability) || forall j :: 0 <= j < i ==> !AboveWinners(s, j))
  }

  /** In a ranked list, standing above the winners means scoring strictly higher than every eligible ad. */
  lemma AboveWinnersIff(s: seq<ScoredAdData>, i: nat)
    requires Ranked(s) && i < |s|
    ensures AboveWinners(s, i) <==>
            && !s[i].kAnonStatus && s[i].adScore.desirability > 0.0
            && forall j :: Eligible(s, j) ==> ScoresHigher(s[i], s[j])
  {
    if !s[i].kAnonStatus && s[i].adScore.desirability > 0.0 {
      forall j | Eligible(s, j)
        ensures j < i <==> !ScoresHigher(s[i], s[j])
      {
        if j < i {
          assert !Greater(s[i], s[j]);
        } else {
          assert j != i && !Greater(s[j], s[i]);
        }
      }
    }
  }

  /**
   Every top-scoring eligible ad is a candidate exactly when the top score is an integer or is not
   shared: truncation drops all but the first of several ads tied at a fractional score.
   */
  lemma CandidatesCompleteIff(s: seq<ScoredAdData>, top: nat)
    requires Eligible(s, top) && forall j :: Eligible(s, j) ==> s[j].adScore.desirability <= s[top].adScore.desirability
    requires Ranked(s)
    ensures (forall i :: Eligible(s, i) && s[i].adScore.desirability == s[top].adScore.desirability ==> WinnerCandidate(s, i))
       <==> (Integral(s[top].adScore.desirability)
             || forall i :: Eligible(s, i) && s[i].adScore.desirability == s[top].adScore.desirability ==> i == top)
  {
    var d := s[top].adScore.desirability;
    if !Integral(d) {
      if i :| Eligible(s, i) && s[i].adScore.desirability == d && i != top {
        assert WinnerCandidate(s, i) && WinnerCandidate(s, top) ==> false;
      } else {
        forall j | 0 <= j < top
          ensures !Eligible(s, j)
        {
          assert !Greater(s[top], s[j]);
        }
      }
    }
  }

  /** Two k-anonymous ads that tie at 2.5: the second one can never win. */
  lemma FractionalTieLosesCandidate(score: AdScore, id1: string, id2: string)
    requires score.desirability == 2.5
    ensures var ad1 := ScoredAdData(score, Number, id1, true);
            var ad2 := ScoredAdData(score, Number, id2, true);
            Ranked([ad1, ad2]) && Eligible([ad1, ad2], 1) && !WinnerCandidate([ad1, ad2], 1)
  {
    var ad1 := ScoredAdData(score, Number, id1, true);
    assert Eligible([ad1, ScoredAdData(score, Number, id2, true)], 0);
    assert Trunc(2.5) == 2;
  }
}
