/**
 Dropping the bids whose currency is not the one a buyer is configured with
 (services/seller_frontend_service/select_ad_reactor.cc).
 */
module CurrencyFilter {

  /** A bid of either kind of ad. */
  datatype AdWithBid = AdWithBid(ad: string, bidCurrency: string)

  predicate Conforms(bid: AdWithBid, currency: string) {
    bid.bidCurrency == "" || bid.bidCurrency == currency
  }

  /** The bids that may stay. */
  function Conforming(bids: seq<AdWithBid>, currency: string): seq<AdWithBid> {
    if bids == [] then []
    else
      var last := bids[|bids| - 1];
      Conforming(bids[..|bids| - 1], currency) + if Conforms(last, currency) then [last] else []
  }

  lemma {:induction false} ConformingCount(bids: seq<AdWithBid>, currency: string, bid: AdWithBid)
    ensures multiset(Conforming(bids, currency))[bid] ==
              if bid.bidCurrency == "" || bid.bidCurrency == currency then multiset(bids)[bid] else 0
  {
    if bids != [] {
      ConformingCount(bids[..|bids| - 1], currency, bid);
      assert bids == bids[..|bids| - 1] + [bids[|bids| - 1]];
    }
  }

  /** A split into bids that conform and bids that do not leaves the conforming ones in front. */
  lemma SplitConforming(before: seq<AdWithBid>, after: seq<AdWithBid>, n: nat, currency: string)
    requires multiset(after) == multiset(before) && n <= |after|
    requires forall k :: 0 <= k < n ==> Conforms(after[k], currency)
    requires forall k :: n <= k < |after| ==> !Conforms(after[k], currency)
    ensures multiset(after[..n]) == multiset(Conforming(before, currency))
  {
    hide Conforming;
    forall bid: AdWithBid
      ensures multiset(after[..n])[bid] == multiset(Conforming(before, currency))[bid]
    {
      ConformingCount(before, currency, bid);
      SplitCount(after, n, currency, bid);
    }
  }

  lemma SplitCount(s: seq<AdWithBid>, n: nat, currency: string, bid: AdWithBid)
    requires n <= |s|
    requires forall k :: 0 <= k < n ==> Conforms(s[k], currency)
    requires forall k :: n <= k < |s| ==> !Conforms(s[k], currency)
    ensures multiset(s[..n])[bid] == if Conforms(bid, currency) then multiset(s)[bid] else 0
  {
    assert s == s[..n] + s[n..];
    if Conforms(bid, currency) {
      assert bid !in s[n..];
    } else {
      assert bid !in s[..n];
    }
  }

  lemma SwapKeepsBids(s: seq<AdWithBid>, i: nat, j: nat)
    requires i < |s| && j < |s|
    ensures multiset(s[i := s[j]][j := s[i]]) == multiset(s)
  {
    assert multiset(s[i := s[j]]) == multiset(s)[s[i] := multiset(s)[s[i]] - 1] + multiset{s[j]};
  }

  class BidList {
    var elements: seq<AdWithBid>

    constructor (elements: seq<AdWithBid>)
      ensures this.elements == elements
    {
      this.elements := elements;
    }

    method SwapElements(i: nat, j: nat)
      requires i < |elements| && j < |elements|
      modifies this
      ensures elements == old(elements)[i := old(elements)[j]][j := old(elements)[i]]
    {
      elements := elements[i := elements[j]][j := elements[i]];
    }

    method DeleteSubrange(start: nat, count: nat)
      requires start + count <= |elements|
      modifies this
      ensures elements == old(elements)[..start] + old(elements)[start + count..]
    {
      elements := elements[..start] + elements[start + count..];
    }
  }

  class GetBidsRawResponse {
    const bids: BidList
    const protectedAppSignalsBids: BidList

    constructor (bids: BidList, protectedAppSignalsBids: BidList)
      ensures this.bids == bids && this.protectedAppSignalsBids == protectedAppSignalsBids
    {
      this.bids, this.protectedAppSignalsBids := bids, protectedAppSignalsBids;
    }
  }

  /** Swaps the bids that do not conform to the tail and cuts it off. */
  method FilterBidsWithMismatchingCurrencyHelper(adsWithBids: BidList, buyerCurrency: string)
    modifies adsWithBids
    ensures multiset(adsWithBids.elements) == multiset(Conforming(old(adsWithBids.elements), buyerCurrency))
    ensures forall bid: AdWithBid ::
              multiset(adsWithBids.elements)[bid] ==
                if bid.bidCurrency == "" || bid.bidCurrency == buyerCurrency then multiset(old(adsWithBids.elements))[bid] else 0
  {
    var i, removeStartingAt := 0, |adsWithBids.elements|;
    while i < removeStartingAt
      invariant 0 <= i <= removeStartingAt <= |adsWithBids.elements|
      invariant multiset(adsWithBids.elements) == multiset(old(adsWithBids.elements))
      invariant forall k :: 0 <= k < i ==> Conforms(adsWithBids.elements[k], buyerCurrency)
      invariant forall k :: removeStartingAt <= k < |adsWithBids.elements| ==> !Conforms(adsWithBids.elements[k], buyerCurrency)
      decreases removeStartingAt - i
    {
      var bid := adsWithBids.elements[i];
      if bid.bidCurrency != "" && buyerCurrency != bid.bidCurrency {
        removeStartingAt := removeStartingAt - 1;
        SwapKeepsBids(adsWithBids.elements, i, removeStartingAt);
        adsWithBids.SwapElements(i, removeStartingAt);
      } else {
        i := i + 1;
      }
    }
    SplitConforming(old(adsWithBids.elements), adsWithBids.elements, i, buyerCurrency);
    ghost var all := adsWithBids.elements;
    if removeStartingAt < |adsWithBids.elements| {
      adsWithBids.DeleteSubrange(removeStartingAt, |adsWithBids.elements| - removeStartingAt);
    }
    assert adsWithBids.elements == all[..i];
    forall bid: AdWithBid
      ensures multiset(adsWithBids.elements)[bid] ==
                if bid.bidCurrency == "" || bid.bidCurrency == buyerCurrency then multiset(old(adsWithBids.elements))[bid] else 0
    {
      ConformingCount(old(adsWithBids.elements), buyerCurrency, bid);
    }
  }

  type Buyers = map<string, GetBidsRawResponse>

  /** The lists that hold the bids of the buyers. */
  function Lists(m: Buyers): set<BidList> {
    (set b | b in m :: m[b].bids) + (set b | b in m :: m[b].protectedAppSignalsBids)
  }

  /** Two buyers have different lists. */
  predicate Disjoint(a: GetBidsRawResponse, b: GetBidsRawResponse) {
    && a.bids != b.bids && a.bids != b.protectedAppSignalsBids
    && a.protectedAppSignalsBids != b.bids && a.protectedAppSignalsBids != b.protectedAppSignalsBids
  }

  /** No two lists are the same object. */
  ghost predicate Separate(m: Buyers) {
    && (forall b :: b in m ==> m[b].bids != m[b].protectedAppSignalsBids)
    && forall a, b :: a in m && b in m && a != b ==> Disjoint(m[a], m[b])
  }

  class SelectAdReactor {
    const isProtectedAudienceEnabled: bool
    const isPasEnabled: bool
    /** The currency of each buyer that has a configuration; it may be empty. */
    const buyerCurrency: map<string, string>
    var sharedBuyerBidsMap: Buyers

    constructor (isProtectedAudienceEnabled: bool, isPasEnabled: bool, buyerCurrency: map<string, string>, bids: Buyers)
      ensures this.isProtectedAudienceEnabled == isProtectedAudienceEnabled && this.isPasEnabled == isPasEnabled
      ensures this.buyerCurrency == buyerCurrency && sharedBuyerBidsMap == bids
    {
      this.isProtectedAudienceEnabled, this.isPasEnabled := isProtectedAudienceEnabled, isPasEnabled;
      this.buyerCurrency, sharedBuyerBidsMap := buyerCurrency, bids;
    }

    /** The buyer has bids of a kind that is enabled. */
    predicate HasBids(r: GetBidsRawResponse)
      reads r.bids, r.protectedAppSignalsBids
    {
      AnyBids(r.bids.elements, r.protectedAppSignalsBids.elements)
    }

    predicate AnyBids(bids: seq<AdWithBid>, pasBids: seq<AdWithBid>) {
      (isProtectedAudienceEnabled && bids != []) || (isPasEnabled && pasBids != [])
    }

    /** A buyer without a configured currency may bid in any. */
    predicate Unrestricted(buyer: string) {
      buyer !in buyerCurrency || buyerCurrency[buyer] == ""
    }

    /** What is left of a list of bids of a buyer, in any order. */
    predicate Left(buyer: string, before: seq<AdWithBid>, after: seq<AdWithBid>) {
      if Unrestricted(buyer) then after == before
      else multiset(after) == multiset(Conforming(before, buyerCurrency[buyer]))
    }

    /** What the filter makes of the bids a buyer had. */
    predicate Filtered(buyer: string, bids: seq<AdWithBid>, pasBids: seq<AdWithBid>, r: GetBidsRawResponse)
      reads r.bids, r.protectedAppSignalsBids
    {
      BothLeft(buyer, bids, pasBids, r.bids.elements, r.protectedAppSignalsBids.elements)
    }

    predicate BothLeft(
      buyer: string, bids: seq<AdWithBid>, pasBids: seq<AdWithBid>, bidsAfter: seq<AdWithBid>, pasBidsAfter: seq<AdWithBid>)
    {
      Left(buyer, bids, bidsAfter) && Left(buyer, pasBids, pasBidsAfter)
    }

    method FilterBuyer(buyer: string, r: GetBidsRawResponse) returns (anyLeft: bool)
      requires HasBids(r) && r.bids != r.protectedAppSignalsBids
      modifies r.bids, r.protectedAppSignalsBids
      ensures Filtered(buyer, old(r.bids.elements), old(r.protectedAppSignalsBids.elements), r)
      ensures anyLeft == HasBids(r)
      ensures anyLeft ==
                ((isProtectedAudienceEnabled && r.bids.elements != []) || (isPasEnabled && r.protectedAppSignalsBids.elements != []))
    {
      if buyer !in buyerCurrency {
        return true;
      }
      if buyerCurrency[buyer] == "" {
        return true;
      }
      FilterBidsWithMismatchingCurrencyHelper(r.bids, buyerCurrency[buyer]);
      FilterBidsWithMismatchingCurrencyHelper(r.protectedAppSignalsBids, buyerCurrency[buyer]);
      anyLeft :=
        (isProtectedAudienceEnabled && r.bids.elements != []) || (isPasEnabled && r.protectedAppSignalsBids.elements != []);
    }

    /** Filters the lists of every buyer and tells whether any bid is left. */
    method FilterBuyers(buyers: Buyers) returns (anyValidBids: bool)
      requires Separate(buyers) && forall b :: b in buyers ==> HasBids(buyers[b])
      modifies Lists(buyers)
      ensures forall b :: b in buyers ==>
                Filtered(b, old(buyers[b].bids.elements), old(buyers[b].protectedAppSignalsBids.elements), buyers[b])
      ensures anyValidBids <==> exists b :: b in buyers && HasBids(buyers[b])
    {
      hide AnyBids, BothLeft, Lists, Separate;
      anyValidBids := false;
      var left := buyers.Keys;
      while left != {}
        invariant left <= buyers.Keys
        invariant forall b :: b in left ==>
                    && buyers[b].bids.elements == old(buyers[b].bids.elements)
                    && buyers[b].protectedAppSignalsBids.elements == old(buyers[b].protectedAppSignalsBids.elements)
        invariant forall b :: b in buyers && b !in left ==>
                    BothLeft(b, old(buyers[b].bids.elements), old(buyers[b].protectedAppSignalsBids.elements),
                             buyers[b].bids.elements, buyers[b].protectedAppSignalsBids.elements)
        invariant anyValidBids <==> exists b :: b in buyers && b !in left && HasBids(buyers[b])
        decreases |left|
      {
        var b :| b in left;
        ListsOf(buyers, b);
        Apart(buyers, b);
        var anyLeft := FilterBuyer(b, buyers[b]);
        if anyLeft {
          anyValidBids := true;
        }
        left := left - {b};
      }
    }

    /**
     Every list keeps exactly the bids that conform, the buyers that keep any bid stay, and the result tells
     whether there are any.
     */
    method FilterBidsWithMismatchingCurrency() returns (anyValidBids: bool)
      requires sharedBuyerBidsMap != map[] && Separate(sharedBuyerBidsMap)
      requires forall b :: b in sharedBuyerBidsMap ==> HasBids(sharedBuyerBidsMap[b])
      modifies `sharedBuyerBidsMap, Lists(sharedBuyerBidsMap)
      ensures forall b :: b in old(sharedBuyerBidsMap) ==>
                var r := old(sharedBuyerBidsMap)[b];
                Filtered(b, old(sharedBuyerBidsMap[b].bids.elements), old(sharedBuyerBidsMap[b].protectedAppSignalsBids.elements), r)
      ensures forall b :: b in sharedBuyerBidsMap <==> b in old(sharedBuyerBidsMap) && HasBids(old(sharedBuyerBidsMap)[b])
      ensures forall b :: b in old(sharedBuyerBidsMap) ==>
                var r := old(sharedBuyerBidsMap)[b];
                (b in sharedBuyerBidsMap <==>
                  || (isProtectedAudienceEnabled && r.bids.elements != [])
                  || (isPasEnabled && r.protectedAppSignalsBids.elements != []))
      ensures forall b :: b in sharedBuyerBidsMap ==> sharedBuyerBidsMap[b] == old(sharedBuyerBidsMap)[b]
      ensures anyValidBids <==> sharedBuyerBidsMap != map[]
    {
      hide HasBids, Filtered, Left, Lists;
      var buyers := sharedBuyerBidsMap;
      anyValidBids := FilterBuyers(buyers);
      var kept := map b | b in buyers && HasBids(buyers[b]) :: buyers[b];
      assert forall b :: b in kept <==> b in buyers && HasBids(buyers[b]);
      assert (forall b :: b !in kept) ==> kept == map[];
      sharedBuyerBidsMap := kept;
      forall b | b in buyers {
        HasBidsMeans(buyers[b]);
      }
    }

    lemma HasBidsMeans(r: GetBidsRawResponse)
      ensures HasBids(r) <==>
                || (isProtectedAudienceEnabled && r.bids.elements != [])
                || (isPasEnabled && r.protectedAppSignalsBids.elements != [])
    {
    }
  }

  lemma Apart(m: Buyers, b: string)
    requires Separate(m) && b in m
    ensures m[b].bids != m[b].protectedAppSignalsBids
    ensures forall other :: other in m && other != b ==> Disjoint(m[other], m[b])
  {
  }

  lemma ListsOf(m: Buyers, b: string)
    requires b in m
    ensures m[b].bids in Lists(m) && m[b].protectedAppSignalsBids in Lists(m)
  {
  }

  /**
   A bid is left, as often as it was there, if the buyer has no currency or the bid has none or the same one; it is
   dropped otherwise.
   */
  lemma LeftConforms(reactor: SelectAdReactor, buyer: string, before: seq<AdWithBid>, after: seq<AdWithBid>, bid: AdWithBid)
    requires reactor.Left(buyer, before, after)
    ensures multiset(after)[bid] ==
              if buyer !in reactor.buyerCurrency || reactor.buyerCurrency[buyer] == ""
                 || bid.bidCurrency == "" || bid.bidCurrency == reactor.buyerCurrency[buyer]
              then multiset(before)[bid] else 0
  {
    if !reactor.Unrestricted(buyer) {
      ConformingCount(before, reactor.buyerCurrency[buyer], bid);
    }
  }

  /** What the filter does to a buyer, list by list. */
  lemma FilteredConforms(
    reactor: SelectAdReactor, buyer: string, bids: seq<AdWithBid>, pasBids: seq<AdWithBid>, r: GetBidsRawResponse, bid: AdWithBid)
    requires reactor.Filtered(buyer, bids, pasBids, r)
    ensures
      var stays :=
        || buyer !in reactor.buyerCurrency || reactor.buyerCurrency[buyer] == ""
        || bid.bidCurrency == "" || bid.bidCurrency == reactor.buyerCurrency[buyer];
      && multiset(r.bids.elements)[bid] == (if stays then multiset(bids)[bid] else 0)
      && multiset(r.protectedAppSignalsBids.elements)[bid] == (if stays then multiset(pasBids)[bid] else 0)
  {
    LeftConforms(reactor, buyer, bids, r.bids.elements, bid);
    LeftConforms(reactor, buyer, pasBids, r.protectedAppSignalsBids.elements, bid);
  }
}
