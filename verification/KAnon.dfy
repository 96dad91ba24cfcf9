/**
 Which bids are forwarded to scoring as k-anonymous
 (services/seller_frontend_service/select_ad_reactor.cc).

 Hash functions are modelled as injective: a hash is the data that goes into it.
 */
module KAnon {
  import opened Results
  import opened TaskTracker

  datatype ReportingIds = ReportingIds(
    buyer: Option<string>, buyerAndSeller: Option<string>, selectedBuyerAndSeller: Option<string>)

  datatype Bid = Bid(render: string, interestGroupName: string, reportingIds: ReportingIds, adComponents: seq<string>)

  datatype Hash =
    | RenderHash(owner: string, reportWinUrl: string, render: string)
    | ReportingHash(owner: string, interestGroupName: string, reportWinUrl: string, render: string, ids: ReportingIds)
    | ComponentHash(render: string)

  /** A bid as an object: the position it has in the list of its buyer. */
  datatype BidKey = BidKey(owner: string, index: nat)

  type HashSets = map<BidKey, set<Hash>>

  function HashesOfBid(owner: string, reportWinUrl: string, bid: Bid): set<Hash> {
    {RenderHash(owner, reportWinUrl, bid.render),
     ReportingHash(owner, bid.interestGroupName, reportWinUrl, bid.render, bid.reportingIds)}
    + set c | c in bid.adComponents :: ComponentHash(c)
  }

  predicate IsBid(bids: map<string, seq<Bid>>, k: BidKey) {
    k.owner in bids && k.index < |bids[k.owner]|
  }

  /** The bids hashes are computed for, with their hashes. */
  ghost predicate HashedBids(bids: map<string, seq<Bid>>, reportWinUrls: map<string, string>, done: set<string>, m: HashSets) {
    && (forall k :: k in m <==> IsBid(bids, k) && k.owner in done && k.owner in reportWinUrls)
    && forall k :: k in m ==> m[k] == HashesOfBid(k.owner, reportWinUrls[k.owner], bids[k.owner][k.index])
  }

  /** The status of every hashed bid: with enforcement, that all its hashes are in the queried set. */
  function Statuses(enforce: bool, hashSets: HashSets, queried: set<Hash>): map<BidKey, bool> {
    map k | k in hashSets :: !enforce || hashSets[k] <= queried
  }

  /** The status sent along with a bid; a bid without a status counts as not k-anonymous. */
  function Forwarded(enforce: bool, statuses: map<BidKey, bool>, k: BidKey): bool {
    !enforce || (k in statuses && statuses[k])
  }

  /** The hashes of a bid: what it renders, what it reports, and each of its components. */
  lemma HashesOfBidAre(owner: string, url: string, bid: Bid, h: Hash)
    ensures h in HashesOfBid(owner, url, bid) <==>
              || h == RenderHash(owner, url, bid.render)
              || h == ReportingHash(owner, bid.interestGroupName, url, bid.render, bid.reportingIds)
              || (h.ComponentHash? && h.render in bid.adComponents)
  {
    if h.ComponentHash? && h.render in bid.adComponents {
      assert ComponentHash(h.render) in set c | c in bid.adComponents :: ComponentHash(c);
    }
  }

  lemma HashesFoundIff(owner: string, url: string, bid: Bid, found: set<Hash>)
    ensures HashesOfBid(owner, url, bid) <= found <==>
              && RenderHash(owner, url, bid.render) in found
              && ReportingHash(owner, bid.interestGroupName, url, bid.render, bid.reportingIds) in found
              && forall c :: c in bid.adComponents ==> ComponentHash(c) in found
  {
    hide HashesOfBid;
    forall h: Hash { HashesOfBidAre(owner, url, bid, h); }
    forall c | c in bid.adComponents
      ensures ComponentHash(c) in HashesOfBid(owner, url, bid)
    {
    }
  }

  /** Every bid has at least a hash of what it renders, so nothing is k-anonymous when nothing was found to be. */
  lemma NothingQueriedNothingAnonymous(
    bids: map<string, seq<Bid>>, reportWinUrls: map<string, string>, m: HashSets, k: BidKey)
    requires HashedBids(bids, reportWinUrls, bids.Keys, m)
    ensures !Forwarded(true, Statuses(true, m, {}), k)
  {
    if k in m {
      assert RenderHash(k.owner, reportWinUrls[k.owner], bids[k.owner][k.index].render) in m[k];
    }
  }

  // ----- the k-anonymity state of a request, as a value -----

  function Union(m: HashSets): set<Hash> {
    set k, h | k in m && h in m[k] :: h
  }

  /** The hash sets of the bids, the hashes known to be k-anonymous, and the statuses found. */
  datatype Tables = Tables(hashSets: HashSets, queried: set<Hash>, statuses: map<BidKey, bool>)

  datatype QueryStep = Completed(status: TaskStatus) | Asked(hashes: set<Hash>)

  function Populated(enforce: bool, t: Tables): Tables {
    t.(statuses := t.statuses + Statuses(enforce, t.hashSets, t.queried))
  }

  /** Asking for the hashes; `refused` is an error of the call itself. */
  function Queried(enforce: bool, t: Tables, hashes: HashSets, refused: bool): (Tables, QueryStep) {
    var t' := t.(hashSets := hashes);
    if hashes == map[] then (t', Completed(Skipped))
    else if refused then (Populated(enforce, t'), Completed(Error))
    else (t', Asked(Union(hashes)))
  }

  function Replied(enforce: bool, t: Tables, response: Result<set<Hash>>): (Tables, TaskStatus) {
    match response
    case Failure(_) => (t, Error)
    case Success(found) => (Populated(enforce, t.(queried := found)), TaskStatus.Success)
  }

  class SelectAdReactor {
    const enableEnforceKAnon: bool
    const sharedBuyerBidsMap: map<string, seq<Bid>>
    const reportWinUrls: map<string, string>
    var bidKAnonHashSets: HashSets
    var queriedKAnonHashes: set<Hash>
    var bidKAnonStatus: map<BidKey, bool>

    function CurrentTables(): Tables
      reads this
    {
      Tables(bidKAnonHashSets, queriedKAnonHashes, bidKAnonStatus)
    }

    constructor (enforce: bool, bids: map<string, seq<Bid>>, reportWinUrls: map<string, string>)
      ensures enableEnforceKAnon == enforce && sharedBuyerBidsMap == bids && this.reportWinUrls == reportWinUrls
      ensures CurrentTables() == Tables(map[], {}, map[])
    {
      enableEnforceKAnon, sharedBuyerBidsMap, this.reportWinUrls := enforce, bids, reportWinUrls;
      bidKAnonHashSets, queriedKAnonHashes, bidKAnonStatus := map[], {}, map[];
    }

    method GetKAnonHashesForBids() returns (m: HashSets)
      ensures HashedBids(sharedBuyerBidsMap, reportWinUrls, sharedBuyerBidsMap.Keys, m)
      ensures forall k :: k in m <==>
                k.owner in sharedBuyerBidsMap && k.index < |sharedBuyerBidsMap[k.owner]| && k.owner in reportWinUrls
      ensures forall k, h :: k in m ==>
                var bid, url := sharedBuyerBidsMap[k.owner][k.index], reportWinUrls[k.owner];
                (h in m[k] <==>
                  || h == RenderHash(k.owner, url, bid.render)
                  || h == ReportingHash(k.owner, bid.interestGroupName, url, bid.render, bid.reportingIds)
                  || (h.ComponentHash? && h.render in bid.adComponents))
    {
      m := map[];
      var left, done := sharedBuyerBidsMap.Keys, {};
      while left != {}
        invariant done == sharedBuyerBidsMap.Keys - left && left <= sharedBuyerBidsMap.Keys
        invariant HashedBids(sharedBuyerBidsMap, reportWinUrls, done, m)
        decreases |left|
      {
        var owner :| owner in left;
        left, done := left - {owner}, done + {owner};
        if sharedBuyerBidsMap[owner] == [] {
          continue;
        }
        if owner !in reportWinUrls {
          continue;
        }
        m := AddHashesOfBuyer(owner, m);
      }
      forall k, h: Hash | k in m
        ensures
          var bid, url := sharedBuyerBidsMap[k.owner][k.index], reportWinUrls[k.owner];
          (h in m[k] <==>
            || h == RenderHash(k.owner, url, bid.render)
            || h == ReportingHash(k.owner, bid.interestGroupName, url, bid.render, bid.reportingIds)
            || (h.ComponentHash? && h.render in bid.adComponents))
      {
        HashesOfBidAre(k.owner, reportWinUrls[k.owner], sharedBuyerBidsMap[k.owner][k.index], h);
      }
    }

    method AddHashesOfBuyer(owner: string, m0: HashSets) returns (m: HashSets)
      requires owner in sharedBuyerBidsMap && owner in reportWinUrls
      ensures forall k :: k in m <==> k in m0 || (k.owner == owner && k.index < |sharedBuyerBidsMap[owner]|)
      ensures forall k :: k in m ==>
                m[k] == if k.owner == owner && k.index < |sharedBuyerBidsMap[owner]|
                        then HashesOfBid(owner, reportWinUrls[owner], sharedBuyerBidsMap[owner][k.index]) else m0[k]
    {
      hide HashesOfBid;
      m := m0;
      var bids := sharedBuyerBidsMap[owner];
      for i := 0 to |bids|
        invariant forall k :: k in m <==> k in m0 || (k.owner == owner && k.index < i)
        invariant forall k :: k in m ==>
                    m[k] == if k.owner == owner && k.index < i then HashesOfBid(owner, reportWinUrls[owner], bids[k.index]) else m0[k]
      {
        var hashes := HashBid(owner, bids[i]);
        m := m[BidKey(owner, i) := hashes];
      }
    }

    method HashBid(owner: string, bid: Bid) returns (hashes: set<Hash>)
      requires owner in reportWinUrls
      ensures hashes == HashesOfBid(owner, reportWinUrls[owner], bid)
      ensures forall h :: h in hashes <==>
                || h == RenderHash(owner, reportWinUrls[owner], bid.render)
                || h == ReportingHash(owner, bid.interestGroupName, reportWinUrls[owner], bid.render, bid.reportingIds)
                || (h.ComponentHash? && h.render in bid.adComponents)
    {
      var url := reportWinUrls[owner];
      hashes := {RenderHash(owner, url, bid.render)};
      hashes := hashes + {ReportingHash(owner, bid.interestGroupName, url, bid.render, bid.reportingIds)};
      ghost var own := hashes;
      for i := 0 to |bid.adComponents|
        invariant hashes == own + set c | c in bid.adComponents[..i] :: ComponentHash(c)
      {
        assert bid.adComponents[..i + 1] == bid.adComponents[..i] + [bid.adComponents[i]];
        hashes := hashes + {ComponentHash(bid.adComponents[i])};
      }
      assert bid.adComponents[..|bid.adComponents|] == bid.adComponents;
      forall h: Hash { HashesOfBidAre(owner, url, bid, h); }
    }

    method PopulateKAnonStatusForBids()
      modifies `bidKAnonStatus
      ensures CurrentTables() == Populated(enableEnforceKAnon, old(CurrentTables()))
      ensures forall k :: k in bidKAnonHashSets ==>
                k in bidKAnonStatus && bidKAnonStatus[k] == (!enableEnforceKAnon || bidKAnonHashSets[k] <= queriedKAnonHashes)
      ensures forall k :: k !in bidKAnonHashSets ==>
                (k in bidKAnonStatus <==> k in old(bidKAnonStatus))
                && (k in bidKAnonStatus ==> bidKAnonStatus[k] == old(bidKAnonStatus)[k])
    {
      var left := bidKAnonHashSets.Keys;
      while left != {}
        invariant left <= bidKAnonHashSets.Keys
        invariant bidKAnonStatus ==
                  old(bidKAnonStatus) + Statuses(enableEnforceKAnon, bidKAnonHashSets - left, queriedKAnonHashes)
        decreases |left|
      {
        var key :| key in left;
        PopulateKAnonStatus(key);
        StatusesNext(old(bidKAnonStatus), enableEnforceKAnon, bidKAnonHashSets, queriedKAnonHashes, left, key);
        left := left - {key};
      }
      assert bidKAnonHashSets - {} == bidKAnonHashSets;
    }

    /** One bid, giving up at the first hash that is not in the queried set. */
    method PopulateKAnonStatus(key: BidKey)
      requires key in bidKAnonHashSets
      modifies `bidKAnonStatus
      ensures bidKAnonStatus ==
              old(bidKAnonStatus)[key := !enableEnforceKAnon || bidKAnonHashSets[key] <= queriedKAnonHashes]
    {
      bidKAnonStatus := bidKAnonStatus[key := true];
      if !enableEnforceKAnon {
        return;
      }
      var hashes := bidKAnonHashSets[key];
      while hashes != {}
        invariant hashes <= bidKAnonHashSets[key]
        invariant forall h :: h in bidKAnonHashSets[key] && h !in hashes ==> h in queriedKAnonHashes
        invariant bidKAnonStatus == old(bidKAnonStatus)[key := true]
        decreases |hashes|
      {
        var hash :| hash in hashes;
        if hash !in queriedKAnonHashes {
          bidKAnonStatus := bidKAnonStatus[key := false];
          return;
        }
        hashes := hashes - {hash};
      }
    }

    /** Computes the hashes and asks for those there are. */
    method QueryKAnonHashes(refused: bool) returns (step: QueryStep)
      modifies `bidKAnonHashSets, `bidKAnonStatus
      ensures HashedBids(sharedBuyerBidsMap, reportWinUrls, sharedBuyerBidsMap.Keys, bidKAnonHashSets)
      ensures (CurrentTables(), step) == Queried(enableEnforceKAnon, old(CurrentTables()), bidKAnonHashSets, refused)
      ensures step == Completed(Skipped) <==> forall k :: k !in bidKAnonHashSets
      ensures step == Completed(Error) <==> refused && exists k :: k in bidKAnonHashSets
      ensures step.Asked? <==> !refused && exists k :: k in bidKAnonHashSets
      ensures step.Asked? ==> forall h :: h in step.hashes <==> exists k :: k in bidKAnonHashSets && h in bidKAnonHashSets[k]
    {
      bidKAnonHashSets := GetKAnonHashesForBids();
      if bidKAnonHashSets == map[] {
        return Completed(Skipped);
      }
      var query := CollectHashes(bidKAnonHashSets);
      SomeHash(sharedBuyerBidsMap, reportWinUrls, bidKAnonHashSets);
      if query == {} {
        return Completed(Skipped);
      }
      if refused {
        PopulateKAnonStatusForBids();
        return Completed(Error);
      }
      return Asked(query);
    }

    method OnKAnonReply(response: Result<set<Hash>>) returns (status: TaskStatus)
      modifies `queriedKAnonHashes, `bidKAnonStatus
      ensures (CurrentTables(), status) == Replied(enableEnforceKAnon, old(CurrentTables()), response)
      ensures response.Failure? ==> status == Error && CurrentTables() == old(CurrentTables())
      ensures response.Success? ==> status == TaskStatus.Success && queriedKAnonHashes == response.value
      ensures response.Success? ==> forall k :: k in bidKAnonHashSets ==>
                k in bidKAnonStatus && bidKAnonStatus[k] == (!enableEnforceKAnon || bidKAnonHashSets[k] <= response.value)
    {
      if response.Failure? {
        return Error;
      }
      queriedKAnonHashes := response.value;
      PopulateKAnonStatusForBids();
      return TaskStatus.Success;
    }

    /** The status set on the metadata of a bid; looking a status up inserts the default. */
    method BuildMetadataStatus(k: BidKey) returns (status: bool)
      modifies `bidKAnonStatus
      ensures status == (!enableEnforceKAnon || (k in old(bidKAnonStatus) && old(bidKAnonStatus)[k]))
      ensures status == Forwarded(enableEnforceKAnon, old(bidKAnonStatus), k)
      ensures forall j :: Forwarded(enableEnforceKAnon, bidKAnonStatus, j) == Forwarded(enableEnforceKAnon, old(bidKAnonStatus), j)
    {
      if k !in bidKAnonStatus {
        bidKAnonStatus := bidKAnonStatus[k := false];
      }
      if enableEnforceKAnon {
        status := bidKAnonStatus[k];
      } else {
        status := true;
      }
    }
  }

  lemma StatusesNext(
    before: map<BidKey, bool>, enforce: bool, m: HashSets, queried: set<Hash>, left: set<BidKey>, key: BidKey)
    requires key in left && left <= m.Keys
    ensures (before + Statuses(enforce, m - left, queried))[key := !enforce || m[key] <= queried]
         == before + Statuses(enforce, m - (left - {key}), queried)
  {
  }

  method CollectHashes(m: HashSets) returns (query: set<Hash>)
    ensures query == Union(m)
  {
    query := {};
    var left := m.Keys;
    while left != {}
      invariant left <= m.Keys
      invariant query == Union(m - left)
      decreases |left|
    {
      var key :| key in left;
      assert Union(m - (left - {key})) == Union(m - left) + m[key] by {
        assert forall k :: k in m - (left - {key}) <==> k in m - left || k == key;
      }
      query := query + m[key];
      left := left - {key};
    }
    assert m - {} == m;
  }

  lemma SomeHash(bids: map<string, seq<Bid>>, reportWinUrls: map<string, string>, m: HashSets)
    requires HashedBids(bids, reportWinUrls, bids.Keys, m) && m != map[]
    ensures Union(m) != {}
  {
    var k :| k in m;
    assert RenderHash(k.owner, reportWinUrls[k.owner], bids[k.owner][k.index].render) in Union(m);
  }
}
