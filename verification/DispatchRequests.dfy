/**
 Building the scoring requests of an auction and the index that later tells what a scored response
 was about (services/auction_service/score_ads_reactor.cc).

 Creating a request is abstracted to its outcome: a dispatch id, or none when it fails.  Ids are
 not assumed to be distinct.
 */
module DispatchRequests {
  import opened Results

  datatype AdType = ProtectedAudience | ProtectedAppSignals | UnknownType

  datatype Ad = Ad(render: string, owner: string, bid: real, requestId: Option<string>)

  datatype GhostWinner = GhostWinner(forTopLevelAuction: bool, adType: AdType, ad: Ad)

  datatype AuctionResult = AuctionResult(
    isChaff: bool,
    componentSeller: string,
    generationId: string,
    adRenderUrl: string,
    adType: AdType,
    ad: Ad,
    ghostWinners: seq<GhostWinner>)

  /** The dispatch ids in order, and the ads they stand for. */
  datatype Index = Index(adData: map<string, Ad>, protectedAppSignalsAdData: map<string, Ad>, requests: seq<string>)

  /** Every dispatched request has its own entry, and every entry was dispatched. */
  ghost predicate Agrees(idx: Index) {
    multiset(idx.requests) == multiset(idx.adData.Keys) + multiset(idx.protectedAppSignalsAdData.Keys)
  }

  /** Registers an ad under its dispatch id; a taken id or an unknown type drops the ad. */
  function Register(idx: Index, adType: AdType, id: string, ad: Ad): Index {
    match adType
    case ProtectedAudience =>
      if id in idx.adData then idx else idx.(adData := idx.adData[id := ad], requests := idx.requests + [id])
    case ProtectedAppSignals =>
      if id in idx.protectedAppSignalsAdData then idx
      else idx.(protectedAppSignalsAdData := idx.protectedAppSignalsAdData[id := ad], requests := idx.requests + [id])
    case UnknownType => idx
  }

  lemma RegisterAgrees(idx: Index, adType: AdType, id: string, ad: Ad)
    requires Agrees(idx)
    ensures Agrees(Register(idx, adType, id, ad))
  {
    NewKey(idx.adData, id, ad);
    NewKey(idx.protectedAppSignalsAdData, id, ad);
    assert multiset(idx.requests + [id]) == multiset(idx.requests) + multiset{id};
  }

  lemma NewKey(ads: map<string, Ad>, id: string, ad: Ad)
    ensures id !in ads ==> multiset(ads[id := ad].Keys) == multiset(ads.Keys) + multiset{id}
  {
    assert ads[id := ad].Keys == ads.Keys + {id};
  }

  /** Was an ad registered by going from `before` to `after`? */
  predicate Grown(before: Index, after: Index) {
    |after.requests| > |before.requests|
  }

  /** The ad a response id is about, Protected Audience first. */
  function FindScoredAdType(idx: Index, id: string): Option<(AdType, Ad)> {
    if id in idx.adData then Some((ProtectedAudience, idx.adData[id]))
    else if id in idx.protectedAppSignalsAdData then Some((ProtectedAppSignals, idx.protectedAppSignalsAdData[id]))
    else None
  }

  /** Exactly the dispatched ids resolve, and there is one request per registered ad. */
  lemma DispatchedIffFound(idx: Index, id: string)
    requires Agrees(idx)
    ensures id in idx.requests <==> FindScoredAdType(idx, id).Some?
    ensures |idx.requests| == |idx.adData| + |idx.protectedAppSignalsAdData|
  {
    assert id in idx.requests <==> id in multiset(idx.requests);
    assert |multiset(idx.requests)| == |idx.requests|;
    assert |multiset(idx.adData.Keys)| == |idx.adData.Keys| == |idx.adData|;
    assert |multiset(idx.protectedAppSignalsAdData.Keys)| == |idx.protectedAppSignalsAdData.Keys| == |idx.protectedAppSignalsAdData|;
  }

  function AdsOf(idx: Index, adType: AdType): map<string, Ad> {
    match adType
    case ProtectedAudience => idx.adData
    case ProtectedAppSignals => idx.protectedAppSignalsAdData
    case UnknownType => map[]
  }

  /** What was registered stays registered. */
  ghost predicate Extends(before: Index, after: Index) {
    forall adType: AdType, id :: id in AdsOf(before, adType) ==>
      id in AdsOf(after, adType) && AdsOf(after, adType)[id] == AdsOf(before, adType)[id]
  }

  lemma RegisterExtends(idx: Index, adType: AdType, id: string, ad: Ad)
    ensures Extends(idx, Register(idx, adType, id, ad))
  {
  }

  /**
   A response to a dispatched request is about the ad the request was built for, no matter what is registered
   later, exactly when the ad is a Protected Audience one or no such ad has the same id.
   */
  lemma ResolvesIff(before: Index, adType: AdType, id: string, ad: Ad, after: Index)
    requires Grown(before, Register(before, adType, id, ad)) && Extends(Register(before, adType, id, ad), after)
    ensures FindScoredAdType(after, id) == Some((adType, ad)) <==> adType.ProtectedAudience? || id !in after.adData
  {
    var idx := Register(before, adType, id, ad);
    assert id in AdsOf(idx, adType) && AdsOf(idx, adType)[id] == ad;
    assert id in AdsOf(after, adType) && AdsOf(after, adType)[id] == ad;
  }

  /** One id in both maps: the response about the second ad is taken for the first one. */
  lemma SharedIdFindsOtherAd(id: string, ad1: Ad, ad2: Ad)
    ensures var first := Register(Index(map[], map[], []), ProtectedAudience, id, ad1);
            var both := Register(first, ProtectedAppSignals, id, ad2);
            both.requests == [id, id] && FindScoredAdType(both, id) == Some((ProtectedAudience, ad1))
  {
  }

  // ----- single-seller and component auctions -----

  /** May an ad be scored?  When scoring signals are required there must be some for its render URL. */
  predicate HasSignals(required: bool, signals: Option<set<string>>, ad: Ad) {
    required && signals.Some? ==> ad.render in signals.value
  }

  /** The ads taken from the back of the list. */
  function RegisterAll(idx: Index, adType: AdType, required: bool, signals: Option<set<string>>, ads: seq<Ad>): Index
    decreases |ads|
  {
    if ads == [] then idx
    else
      var ad := ads[|ads| - 1];
      var idx' := if HasSignals(required, signals, ad) && ad.requestId.Some?
                  then Register(idx, adType, ad.requestId.value, ad) else idx;
      RegisterAll(idx', adType, required, signals, ads[..|ads| - 1])
  }

  lemma {:induction false} RegisterAllAgrees(
    idx: Index, adType: AdType, required: bool, signals: Option<set<string>>, ads: seq<Ad>)
    requires Agrees(idx)
    ensures Agrees(RegisterAll(idx, adType, required, signals, ads))
    decreases |ads|
  {
    if ads != [] {
      var ad := ads[|ads| - 1];
      var idx' := idx;
      if HasSignals(required, signals, ad) && ad.requestId.Some? {
        RegisterAgrees(idx, adType, ad.requestId.value, ad);
        idx' := Register(idx, adType, ad.requestId.value, ad);
      }
      RegisterAllAgrees(idx', adType, required, signals, ads[..|ads| - 1]);
    }
  }

  lemma {:induction false} RegisterAllExtends(
    idx: Index, adType: AdType, required: bool, signals: Option<set<string>>, ads: seq<Ad>)
    ensures Extends(idx, RegisterAll(idx, adType, required, signals, ads))
    decreases |ads|
  {
    if ads != [] {
      hide Register;
      var ad := ads[|ads| - 1];
      var idx' := idx;
      if HasSignals(required, signals, ad) && ad.requestId.Some? {
        RegisterExtends(idx, adType, ad.requestId.value, ad);
        idx' := Register(idx, adType, ad.requestId.value, ad);
      }
      RegisterAllExtends(idx', adType, required, signals, ads[..|ads| - 1]);
    }
  }

  /** The ad may be scored under this id: it was given the id, and has signals if they are required. */
  ghost predicate Scorable(ad: Ad, id: string, required: bool, signals: Option<set<string>>) {
    ad.requestId == Some(id) && (required && signals.Some? ==> ad.render in signals.value)
  }

  /** Ad `i` is the last one that may be scored under this id. */
  ghost predicate LastScorable(ads: seq<Ad>, i: int, id: string, required: bool, signals: Option<set<string>>) {
    && 0 <= i < |ads| && Scorable(ads[i], id, required, signals)
    && forall j :: i < j < |ads| ==> !Scorable(ads[j], id, required, signals)
  }

  /**
   An id is registered exactly if it was before or some ad may be scored under it, and a new one stands for the last
   such ad; ads of the other type are left alone.
   */
  lemma {:induction false} RegisteredAds(
    idx: Index, adType: AdType, required: bool, signals: Option<set<string>>, ads: seq<Ad>, id: string)
    requires !adType.UnknownType?
    ensures var before, after := AdsOf(idx, adType), AdsOf(RegisterAll(idx, adType, required, signals, ads), adType);
            && (id in after <==> id in before || exists i :: 0 <= i < |ads| && Scorable(ads[i], id, required, signals))
            && (id in before ==> after[id] == before[id])
            && (id in after && id !in before ==>
                  exists i :: LastScorable(ads, i, id, required, signals) && after[id] == ads[i])
    decreases |ads|
  {
    if ads != [] {
      var last := |ads| - 1;
      var front, ad := ads[..last], ads[last];
      var fits := HasSignals(required, signals, ad) && ad.requestId.Some?;
      var idx' := if fits then Register(idx, adType, ad.requestId.value, ad) else idx;
      RegisteredAds(idx', adType, required, signals, front, id);
      assert fits && ad.requestId.value == id <==> Scorable(ad, id, required, signals);
      RegisteredAd(idx, adType, if fits then ad.requestId.value else "", ad, id);
      hide Register, RegisterAll, AdsOf, Scorable, HasSignals;
      LastOfFront(ads, id, required, signals);
    }
  }

  lemma RegisteredAd(idx: Index, adType: AdType, newId: string, ad: Ad, id: string)
    requires !adType.UnknownType?
    ensures var before, after := AdsOf(idx, adType), AdsOf(Register(idx, adType, newId, ad), adType);
            && (id in after <==> id in before || id == newId)
            && (id in after ==> after[id] == if id in before then before[id] else ad)
  {
  }

  lemma LastOfFront(ads: seq<Ad>, id: string, required: bool, signals: Option<set<string>>)
    requires ads != []
    ensures var last := |ads| - 1;
            && (Scorable(ads[last], id, required, signals) ==> LastScorable(ads, last, id, required, signals))
            && (!Scorable(ads[last], id, required, signals) ==>
                  forall i :: LastScorable(ads[..last], i, id, required, signals) ==>
                    LastScorable(ads, i, id, required, signals) && ads[..last][i] == ads[i])
            && ((exists i :: 0 <= i < |ads| && Scorable(ads[i], id, required, signals)) <==>
                Scorable(ads[last], id, required, signals)
                || exists i :: 0 <= i < last && Scorable(ads[..last][i], id, required, signals))
  {
    hide Scorable;
    var last := |ads| - 1;
    assert forall i :: 0 <= i < last ==> ads[..last][i] == ads[i];
    if i :| 0 <= i < last && Scorable(ads[..last][i], id, required, signals) {
      assert Scorable(ads[i], id, required, signals);
    }
  }

  lemma SameAds(a: Index, b: Index, adType: AdType)
    requires a.adData == b.adData && a.protectedAppSignalsAdData == b.protectedAppSignalsAdData
    ensures AdsOf(a, adType) == AdsOf(b, adType)
  {
  }

  /** The same for all ids, on the fields of the ads. */
  lemma AddedByAll(idx: Index, adType: AdType, required: bool, signals: Option<set<string>>, ads: seq<Ad>)
    requires !adType.UnknownType? && (required ==> signals.Some?)
    ensures var t := RegisterAll(idx, adType, required, signals, ads);
            var before, after := AdsOf(idx, adType), AdsOf(t, adType);
            && (forall id :: id in after <==>
                  || id in before
                  || exists i :: 0 <= i < |ads| && ads[i].requestId == Some(id) && (required ==> ads[i].render in signals.value))
            && (forall id :: id in after && id !in before ==>
                  exists i :: LastScorable(ads, i, id, required, signals) && after[id] == ads[i])
            && idx.requests <= t.requests
            && (forall id :: id in t.requests[|idx.requests|..] <==> id in after && id !in before)
  {
    RequestsAdded(idx, adType, required, signals, ads);
    hide RegisterAll, AdsOf, LastScorable;
    var t := RegisterAll(idx, adType, required, signals, ads);
    var before, after := AdsOf(idx, adType), AdsOf(t, adType);
    forall id
      ensures id in after <==>
                || id in before
                || exists i :: 0 <= i < |ads| && ads[i].requestId == Some(id) && (required ==> ads[i].render in signals.value)
      ensures id in after && id !in before ==>
                exists i :: LastScorable(ads, i, id, required, signals) && after[id] == ads[i]
    {
      RegisteredAds(idx, adType, required, signals, ads, id);
    }
  }

  /** The requests that are added are for exactly the ids that were not registered before. */
  lemma {:induction false} RequestsAdded(
    idx: Index, adType: AdType, required: bool, signals: Option<set<string>>, ads: seq<Ad>)
    requires !adType.UnknownType?
    ensures var t := RegisterAll(idx, adType, required, signals, ads);
            && idx.requests <= t.requests
            && forall id :: id in t.requests[|idx.requests|..] <==> id in AdsOf(t, adType) && id !in AdsOf(idx, adType)
    decreases |ads|
  {
    var t := RegisterAll(idx, adType, required, signals, ads);
    if ads == [] {
      assert t.requests[|idx.requests|..] == [];
    } else {
      var last := |ads| - 1;
      var front, ad := ads[..last], ads[last];
      var fits := HasSignals(required, signals, ad) && ad.requestId.Some?;
      var idx' := if fits then Register(idx, adType, ad.requestId.value, ad) else idx;
      RequestsAdded(idx', adType, required, signals, front);
      RegisterAllExtends(idx', adType, required, signals, front);
      hide RegisterAll;
      RegisteredRequests(idx, adType, if fits then ad.requestId.value else "", ad);
      if fits && Grown(idx, idx') {
        AddedFirst(idx.requests, ad.requestId.value, t.requests);
        forall id
          ensures id in t.requests[|idx.requests|..] <==> id in AdsOf(t, adType) && id !in AdsOf(idx, adType)
        {
          RegisteredAd(idx, adType, ad.requestId.value, ad, id);
          assert id in AdsOf(idx', adType) ==> id in AdsOf(t, adType);
          NewIdRegistered(idx, adType, ad.requestId.value, ad);
        }
      }
    }
  }

  lemma AddedFirst(before: seq<string>, id: string, after: seq<string>)
    requires before + [id] <= after
    ensures before <= after && forall x :: x in after[|before|..] <==> x == id || x in after[|before| + 1..]
  {
    assert after[|before|..] == [id] + after[|before| + 1..];
  }

  lemma NewIdRegistered(idx: Index, adType: AdType, id: string, ad: Ad)
    requires Grown(idx, Register(idx, adType, id, ad))
    ensures id !in AdsOf(idx, adType)
  {
  }

  // ----- top-level auctions -----

  predicate Considered(result: AuctionResult) {
    !result.isChaff && result.componentSeller != ""
  }

  function GenerationIds(results: seq<AuctionResult>): seq<string> {
    if results == [] then []
    else
      var last := results[|results| - 1];
      GenerationIds(results[..|results| - 1]) + if Considered(last) then [last.generationId] else []
  }

  /** Some empty ids followed by copies of one id. */
  ghost predicate OneGeneration(ids: seq<string>, k: int, id: string) {
    && 0 <= k <= |ids|
    && (forall i :: 0 <= i < k ==> ids[i] == "")
    && (forall i :: k <= i < |ids| ==> ids[i] == id)
  }

  ghost predicate Uniform(ids: seq<string>) {
    exists k, id :: OneGeneration(ids, k, id)
  }

  /** What the scan of the ids remembers: the first nonempty id, if there was one. */
  ghost predicate GenerationSoFar(ids: seq<string>, current: string) {
    exists k :: OneGeneration(ids, k, current) && (current == "" ==> k == |ids|) && (current != "" ==> k < |ids|)
  }

  lemma GenerationStep(ids: seq<string>, current: string, next: string)
    requires GenerationSoFar(ids, current)
    ensures current == "" ==> GenerationSoFar(ids + [next], next)
    ensures current != "" && next == current ==> GenerationSoFar(ids + [next], current)
  {
    var k :| OneGeneration(ids, k, current) && (current == "" ==> k == |ids|) && (current != "" ==> k < |ids|);
    if current == "" {
      assert OneGeneration(ids + [next], if next == "" then k + 1 else k, next);
    } else if next == current {
      assert OneGeneration(ids + [next], k, current);
    }
  }

  /** Once a second id shows up, no later result can make the list uniform again. */
  lemma GenerationMismatch(ids: seq<string>, current: string, next: string, more: seq<string>)
    requires GenerationSoFar(ids, current) && current != "" && next != current
    ensures !Uniform(ids + [next] + more)
  {
    var all := ids + [next] + more;
    var k0 :| OneGeneration(ids, k0, current) && k0 < |ids|;
    forall k, id
      ensures !OneGeneration(all, k, id)
    {
      assert all[k0] == ids[k0] && all[|ids|] == next;
    }
  }

  lemma {:induction false} GenerationIdsConcat(a: seq<AuctionResult>, b: seq<AuctionResult>)
    ensures GenerationIds(a + b) == GenerationIds(a) + GenerationIds(b)
  {
    if b == [] {
      assert a + b == a;
    } else {
      var last := |b| - 1;
      GenerationIdsConcat(a, b[..last]);
      GenerationIdsNext(b, last);
      GenerationIdsNext(a + b, |a| + last);
      assert (a + b)[..|a| + last] == a + b[..last];
    }
  }

  lemma GenerationIdsNext(results: seq<AuctionResult>, i: nat)
    requires i < |results|
    ensures GenerationIds(results[..i + 1])
         == GenerationIds(results[..i]) + if Considered(results[i]) then [results[i].generationId] else []
    ensures i + 1 == |results| ==> results[..i + 1] == results
  {
    assert results[..i + 1][..i] == results[..i];
  }

  /** Ids are uniform unless some id that is not empty is followed by another one. */
  lemma UniformIff(ids: seq<string>)
    ensures Uniform(ids) <==> forall i, j :: 0 <= i < j < |ids| ==> ids[i] == "" || ids[j] == ids[i]
  {
    if Uniform(ids) {
      var k, id :| OneGeneration(ids, k, id);
    }
    if forall i, j :: 0 <= i < j < |ids| ==> ids[i] == "" || ids[j] == ids[i] {
      AgreeingUniform(ids);
    }
  }

  lemma AgreeingUniform(ids: seq<string>)
    requires forall i, j :: 0 <= i < j < |ids| ==> ids[i] == "" || ids[j] == ids[i]
    ensures Uniform(ids)
  {
    if i :| 0 <= i < |ids| && ids[i] != "" && forall h :: 0 <= h < i ==> ids[h] == "" {
      assert OneGeneration(ids, i, ids[i]);
    } else {
      AllEmpty(ids, |ids|);
      assert OneGeneration(ids, |ids|, "");
    }
  }

  lemma {:induction false} AllEmpty(ids: seq<string>, n: nat)
    requires n <= |ids|
    requires forall i :: 0 <= i < |ids| && ids[i] != "" ==> exists h :: 0 <= h < i && ids[h] != ""
    ensures forall i :: 0 <= i < n ==> ids[i] == ""
  {
    if n > 0 {
      AllEmpty(ids, n - 1);
    }
  }

  /** Two results that count are of different generations, and the earlier one names its generation. */
  ghost predicate Clash(results: seq<AuctionResult>, i: int, j: int) {
    && 0 <= i < j < |results|
    && !results[i].isChaff && results[i].componentSeller != "" && !results[j].isChaff && results[j].componentSeller != ""
    && results[i].generationId != "" && results[j].generationId != results[i].generationId
  }

  lemma {:induction false} GenerationIdsMember(results: seq<AuctionResult>, id: string)
    ensures id in GenerationIds(results) <==>
              exists i :: 0 <= i < |results| && !results[i].isChaff && results[i].componentSeller != "" && results[i].generationId == id
  {
    if results != [] {
      var last := |results| - 1;
      GenerationIdsMember(results[..last], id);
      assert forall i :: 0 <= i < last ==> results[..last][i] == results[i];
    }
  }

  /** Two ids of which the first is not empty and the second is another one. */
  ghost predicate IdsClash(ids: seq<string>, i: int, j: int) {
    0 <= i < j < |ids| && ids[i] != "" && ids[j] != ids[i]
  }

  ghost predicate SomeIdsClash(ids: seq<string>) {
    exists i, j :: IdsClash(ids, i, j)
  }

  ghost predicate SomeClash(results: seq<AuctionResult>) {
    exists i, j :: Clash(results, i, j)
  }

  /** One of the ids is not empty and another one than `next`. */
  ghost predicate ClashesWith(ids: seq<string>, next: string) {
    exists id :: id in ids && id != "" && next != id
  }

  lemma IdsClashAppend(ids: seq<string>, next: string)
    ensures SomeIdsClash(ids + [next]) <==> SomeIdsClash(ids) || ClashesWith(ids, next)
  {
    var more := ids + [next];
    assert more[|ids|] == next && forall i :: 0 <= i < |ids| ==> more[i] == ids[i];
    if i, j :| IdsClash(ids, i, j) {
      assert IdsClash(more, i, j);
    }
    if id :| id in ids && id != "" && next != id {
      var i :| 0 <= i < |ids| && ids[i] == id;
      assert IdsClash(more, i, |ids|);
    }
    if i, j :| IdsClash(more, i, j) {
      assert j < |ids| ==> IdsClash(ids, i, j);
      assert ids[i] in ids;
    }
  }

  lemma ClashAppend(front: seq<AuctionResult>, last: AuctionResult)
    ensures SomeClash(front + [last]) <==>
              || SomeClash(front)
              || (!last.isChaff && last.componentSeller != "" && ClashesWith(GenerationIds(front), last.generationId))
  {
    var more := front + [last];
    assert more[|front|] == last && forall i :: 0 <= i < |front| ==> more[i] == front[i];
    if i, j :| Clash(front, i, j) {
      assert Clash(more, i, j);
    }
    if id :| id in GenerationIds(front) && id != "" && last.generationId != id && !last.isChaff && last.componentSeller != "" {
      GenerationIdsMember(front, id);
      var i :| 0 <= i < |front| && !front[i].isChaff && front[i].componentSeller != "" && front[i].generationId == id;
      assert Clash(more, i, |front|);
    }
    if i, j :| Clash(more, i, j) {
      assert j < |front| ==> Clash(front, i, j);
      GenerationIdsMember(front, front[i].generationId);
    }
  }

  /** The ids of the results that count clash exactly when two such results do. */
  lemma {:induction false} ClashIff(results: seq<AuctionResult>)
    ensures SomeIdsClash(GenerationIds(results)) <==> SomeClash(results)
  {
    if results != [] {
      hide SomeClash, SomeIdsClash, ClashesWith;
      var front, last := results[..|results| - 1], results[|results| - 1];
      assert results == front + [last];
      ClashIff(front);
      ClashAppend(front, last);
      IdsClashAppend(GenerationIds(front), last.generationId);
      assert GenerationIds(front) + [] == GenerationIds(front);
    }
  }

  /** The generations agree unless a result that counts names one and a later one that counts is of another. */
  lemma GenerationsAgreeIff(results: seq<AuctionResult>)
    ensures Uniform(GenerationIds(results)) <==> !exists i, j :: Clash(results, i, j)
  {
    ClashIff(results);
    UniformIff(GenerationIds(results));
    var ids := GenerationIds(results);
    hide Clash, GenerationIds;
    if i, j :| IdsClash(ids, i, j) {
      assert ids[i] != "" && ids[j] != ids[i];
    }
    if !(forall i, j :: 0 <= i < j < |ids| ==> ids[i] == "" || ids[j] == ids[i]) {
      var i, j :| 0 <= i < j < |ids| && ids[i] != "" && ids[j] != ids[i];
      assert IdsClash(ids, i, j);
    }
  }

  /**
   Everything a top-level auction keeps per dispatch id: the index, the reporting data and the seller of
   component winners, and the ids that may join a k-anonymous set.
   */
  datatype TopLevelIndex = TopLevelIndex(
    idx: Index, reported: map<string, string>, sellers: map<string, string>, joinCandidates: set<string>)

  /** The winner of a component auction; an id that already stood for a winner is not used again. */
  function RegisterWinner(top: TopLevelIndex, result: AuctionResult): TopLevelIndex {
    if result.ad.requestId.None? || result.ad.requestId.value in top.reported then top
    else WithNewWinner(top, result.ad.requestId.value, result)
  }

  function WithNewWinner(top: TopLevelIndex, id: string, result: AuctionResult): TopLevelIndex {
    var idx, reported := Register(top.idx, result.adType, id, result.ad), top.reported[id := result.componentSeller];
    if !Grown(top.idx, idx) then top.(idx := idx, reported := reported)
    else
      TopLevelIndex(idx, reported, if id in top.sellers then top.sellers else top.sellers[id := result.componentSeller],
                    top.joinCandidates + {id})
  }

  function RegisterGhost(top: TopLevelIndex, ghostWinner: GhostWinner): TopLevelIndex {
    if !ghostWinner.forTopLevelAuction || ghostWinner.ad.requestId.None? then top
    else
      var id := ghostWinner.ad.requestId.value;
      var idx := Register(top.idx, ghostWinner.adType, id, ghostWinner.ad);
      if Grown(top.idx, idx) then top.(idx := idx, joinCandidates := top.joinCandidates + {id}) else top.(idx := idx)
  }

  function RegisterGhosts(top: TopLevelIndex, ghostWinners: seq<GhostWinner>): TopLevelIndex {
    if ghostWinners == [] then top
    else RegisterGhost(RegisterGhosts(top, ghostWinners[..|ghostWinners| - 1]), ghostWinners[|ghostWinners| - 1])
  }

  function RegisterResult(top: TopLevelIndex, enforceKAnon: bool, result: AuctionResult): TopLevelIndex {
    var top' := if Considered(result) && result.adRenderUrl != "" then RegisterWinner(top, result) else top;
    if Considered(result) && enforceKAnon then RegisterGhosts(top', result.ghostWinners) else top'
  }

  function RegisterResults(top: TopLevelIndex, enforceKAnon: bool, results: seq<AuctionResult>): TopLevelIndex {
    if results == [] then top
    else RegisterResult(RegisterResults(top, enforceKAnon, results[..|results| - 1]), enforceKAnon, results[|results| - 1])
  }

  /** Exactly the dispatched requests may lead to joining a k-anonymous set. */
  ghost predicate AllMayJoin(top: TopLevelIndex) {
    forall id :: id in top.idx.requests <==> id in top.joinCandidates
  }

  lemma RegisteredRequests(idx: Index, adType: AdType, id: string, ad: Ad)
    ensures var idx' := Register(idx, adType, id, ad);
            if Grown(idx, idx') then idx'.requests == idx.requests + [id] else idx' == idx
  {
  }

  lemma JoinOneMore(requests: seq<string>, candidates: set<string>, id: string)
    requires forall i :: i in requests <==> i in candidates
    ensures forall i :: i in requests + [id] <==> i in candidates + {id}
  {
  }

  lemma WinnerMayJoin(top: TopLevelIndex, result: AuctionResult)
    requires AllMayJoin(top)
    ensures AllMayJoin(RegisterWinner(top, result))
  {
    if result.ad.requestId.Some? {
      var id := result.ad.requestId.value;
      RegisteredRequests(top.idx, result.adType, id, result.ad);
      JoinOneMore(top.idx.requests, top.joinCandidates, id);
    }
  }

  lemma {:induction false} GhostsMayJoin(top: TopLevelIndex, ghostWinners: seq<GhostWinner>)
    requires AllMayJoin(top)
    ensures AllMayJoin(RegisterGhosts(top, ghostWinners))
  {
    if ghostWinners != [] {
      var front, last := ghostWinners[..|ghostWinners| - 1], ghostWinners[|ghostWinners| - 1];
      GhostsMayJoin(top, front);
      var before := RegisterGhosts(top, front);
      if last.ad.requestId.Some? {
        RegisteredRequests(before.idx, last.adType, last.ad.requestId.value, last.ad);
        JoinOneMore(before.idx.requests, before.joinCandidates, last.ad.requestId.value);
      }
    }
  }

  /** A top-level auction records a candidate for joining for every request it dispatches, and for no other id. */
  lemma {:induction false} RegisteredMayJoin(top: TopLevelIndex, enforceKAnon: bool, results: seq<AuctionResult>)
    requires AllMayJoin(top)
    ensures AllMayJoin(RegisterResults(top, enforceKAnon, results))
  {
    if results != [] {
      hide AllMayJoin, RegisterWinner, RegisterGhosts;
      var result := results[|results| - 1];
      var before := RegisterResults(top, enforceKAnon, results[..|results| - 1]);
      RegisteredMayJoin(top, enforceKAnon, results[..|results| - 1]);
      WinnerMayJoin(before, result);
      GhostsMayJoin(before, result.ghostWinners);
      GhostsMayJoin(RegisterWinner(before, result), result.ghostWinners);
    }
  }

  /** The ad is the winner of a result that counts and renders something, or a ghost winner for the top-level auction of one. */
  ghost predicate CameFrom(results: seq<AuctionResult>, enforceKAnon: bool, adType: AdType, id: string, ad: Ad) {
    exists j :: 0 <= j < |results| && ResultHas(results[j], enforceKAnon, adType, id, ad)
  }

  ghost predicate ResultHas(result: AuctionResult, enforceKAnon: bool, adType: AdType, id: string, ad: Ad) {
    && !result.isChaff && result.componentSeller != "" && ad.requestId == Some(id)
    && ((result.adRenderUrl != "" && result.adType == adType && result.ad == ad)
        || (enforceKAnon && GhostWinner(true, adType, ad) in result.ghostWinners))
  }

  /** What is registered afterwards was before or is one of these ghost winners. */
  lemma {:induction false} GhostProvenance(top: TopLevelIndex, ghostWinners: seq<GhostWinner>, adType: AdType, id: string)
    ensures var before, after := AdsOf(top.idx, adType), AdsOf(RegisterGhosts(top, ghostWinners).idx, adType);
            id in after ==>
              || (id in before && after[id] == before[id])
              || (after[id].requestId == Some(id) && GhostWinner(true, adType, after[id]) in ghostWinners)
  {
    if ghostWinners != [] {
      var front, last := ghostWinners[..|ghostWinners| - 1], ghostWinners[|ghostWinners| - 1];
      GhostProvenance(top, front, adType, id);
      assert ghostWinners == front + [last];
    }
  }

  lemma WinnerProvenance(top: TopLevelIndex, result: AuctionResult, adType: AdType, id: string)
    ensures var before, after := AdsOf(top.idx, adType), AdsOf(RegisterWinner(top, result).idx, adType);
            id in after ==>
              || (id in before && after[id] == before[id])
              || (after[id].requestId == Some(id) && result.adType == adType && after[id] == result.ad)
  {
  }

  lemma ResultProvenance(top: TopLevelIndex, enforceKAnon: bool, result: AuctionResult, adType: AdType, id: string)
    ensures var before, after := AdsOf(top.idx, adType), AdsOf(RegisterResult(top, enforceKAnon, result).idx, adType);
            id in after ==>
              (id in before && after[id] == before[id]) || ResultHas(result, enforceKAnon, adType, id, after[id])
  {
    WinnerProvenance(top, result, adType, id);
    GhostProvenance(top, result.ghostWinners, adType, id);
    GhostProvenance(RegisterWinner(top, result), result.ghostWinners, adType, id);
    hide RegisterWinner, RegisterGhosts, AdsOf;
  }

  /** Every ad of a top-level auction comes from one of its results. */
  lemma {:induction false} RegisteredCameFrom(results: seq<AuctionResult>, enforceKAnon: bool, adType: AdType, id: string)
    ensures var ads := AdsOf(RegisterResults(NOTHING_REGISTERED, enforceKAnon, results).idx, adType);
            id in ads ==> CameFrom(results, enforceKAnon, adType, id, ads[id])
  {
    if results != [] {
      var front, last := results[..|results| - 1], results[|results| - 1];
      var before := RegisterResults(NOTHING_REGISTERED, enforceKAnon, front);
      var ads := AdsOf(RegisterResults(NOTHING_REGISTERED, enforceKAnon, results).idx, adType);
      RegisteredCameFrom(front, enforceKAnon, adType, id);
      ResultProvenance(before, enforceKAnon, last, adType, id);
      hide RegisterResult, AdsOf, ResultHas;
      assert results == front + [last];
      if id in AdsOf(before.idx, adType) && id in ads && ads[id] == AdsOf(before.idx, adType)[id] {
        var j :| 0 <= j < |front| && ResultHas(front[j], enforceKAnon, adType, id, ads[id]);
        assert ResultHas(results[j], enforceKAnon, adType, id, ads[id]);
      }
    }
  }

  /** Result `j` is the first one that counts with a winner under this id, and names this seller. */
  ghost predicate FirstWinner(results: seq<AuctionResult>, j: int, id: string, seller: string) {
    && 0 <= j < |results| && WinsUnder(results[j], id) && results[j].componentSeller == seller
    && forall i :: 0 <= i < j ==> !WinsUnder(results[i], id)
  }

  ghost predicate WinsUnder(result: AuctionResult, id: string) {
    !result.isChaff && result.componentSeller != "" && result.adRenderUrl != "" && result.ad.requestId == Some(id)
  }

  /** One result and the data kept under an id. */
  lemma ResultReported(top: TopLevelIndex, enforceKAnon: bool, result: AuctionResult, id: string)
    ensures var t := RegisterResult(top, enforceKAnon, result);
            && (id in t.reported <==> id in top.reported || WinsUnder(result, id))
            && (id in t.reported ==> t.reported[id] == if id in top.reported then top.reported[id] else result.componentSeller)
            && (id in t.sellers ==>
                  (id in top.sellers && t.sellers[id] == top.sellers[id])
                  || (id !in top.reported && WinsUnder(result, id) && t.sellers[id] == result.componentSeller))
  {
    GhostsLeaveReported(top, result.ghostWinners);
    GhostsLeaveReported(RegisterWinner(top, result), result.ghostWinners);
    hide RegisterGhosts, Register;
  }

  lemma {:induction false} GhostsLeaveReported(top: TopLevelIndex, ghostWinners: seq<GhostWinner>)
    ensures RegisterGhosts(top, ghostWinners).reported == top.reported && RegisterGhosts(top, ghostWinners).sellers == top.sellers
  {
    if ghostWinners != [] {
      GhostsLeaveReported(top, ghostWinners[..|ghostWinners| - 1]);
    }
  }

  /** The reporting data under an id, and its seller if there is one, are of the first winner with that id. */
  lemma {:induction false} ReportedIsFirstWinner(results: seq<AuctionResult>, enforceKAnon: bool, id: string)
    ensures var t := RegisterResults(NOTHING_REGISTERED, enforceKAnon, results);
            && (id in t.reported <==> exists j :: 0 <= j < |results| && WinsUnder(results[j], id))
            && (id in t.reported ==> exists j :: FirstWinner(results, j, id, t.reported[id]))
            && (id in t.sellers ==> id in t.reported && t.sellers[id] == t.reported[id])
  {
    if results != [] {
      hide RegisterResult, WinsUnder;
      var front, last := results[..|results| - 1], results[|results| - 1];
      var before := RegisterResults(NOTHING_REGISTERED, enforceKAnon, front);
      ReportedIsFirstWinner(front, enforceKAnon, id);
      ResultReported(before, enforceKAnon, last, id);
      assert results == front + [last] && forall j :: 0 <= j < |front| ==> results[j] == front[j];
      if id in before.reported {
        var j :| FirstWinner(front, j, id, before.reported[id]);
        assert FirstWinner(results, j, id, before.reported[id]);
      } else if WinsUnder(last, id) {
        assert FirstWinner(results, |front|, id, last.componentSeller);
      }
    }
  }

  // ----- which ids a top-level auction registers -----

  ghost predicate HasGhost(ghostWinners: seq<GhostWinner>, adType: AdType, id: string) {
    exists ad: Ad :: ad.requestId == Some(id) && GhostWinner(true, adType, ad) in ghostWinners
  }

  /** The winner of result `j` is the first one under this id, and is of this type. */
  ghost predicate FirstWinnerOf(results: seq<AuctionResult>, j: int, adType: AdType, id: string) {
    && 0 <= j < |results| && WinsUnder(results[j], id) && results[j].adType == adType
    && forall i :: 0 <= i < j ==> !WinsUnder(results[i], id)
  }

  /** Result `j` counts and has a ghost winner for the top-level auction with this id and type. */
  ghost predicate GhostOf(results: seq<AuctionResult>, j: int, adType: AdType, id: string) {
    0 <= j < |results| && !results[j].isChaff && results[j].componentSeller != "" && HasGhost(results[j].ghostWinners, adType, id)
  }

  lemma {:induction false} GhostsRegisteredIff(top: TopLevelIndex, ghostWinners: seq<GhostWinner>, adType: AdType, id: string)
    requires !adType.UnknownType?
    ensures id in AdsOf(RegisterGhosts(top, ghostWinners).idx, adType) <==>
              id in AdsOf(top.idx, adType) || HasGhost(ghostWinners, adType, id)
  {
    if ghostWinners != [] {
      var front, last := ghostWinners[..|ghostWinners| - 1], ghostWinners[|ghostWinners| - 1];
      GhostsRegisteredIff(top, front, adType, id);
      assert ghostWinners == front + [last];
      OneMoreGhost(front, last, adType, id);
      hide HasGhost;
    }
  }

  lemma OneMoreGhost(front: seq<GhostWinner>, last: GhostWinner, adType: AdType, id: string)
    ensures HasGhost(front + [last], adType, id) <==>
              HasGhost(front, adType, id) || (last.forTopLevelAuction && last.adType == adType && last.ad.requestId == Some(id))
  {
    if ad: Ad :| ad.requestId == Some(id) && GhostWinner(true, adType, ad) in front {
      assert GhostWinner(true, adType, ad) in front + [last];
    }
    if last.forTopLevelAuction && last.adType == adType && last.ad.requestId == Some(id) {
      assert GhostWinner(true, adType, last.ad) == last && last in front + [last];
    }
  }

  /** One result and whether an id is registered. */
  lemma ResultRegisteredIff(top: TopLevelIndex, enforceKAnon: bool, result: AuctionResult, adType: AdType, id: string)
    requires !adType.UnknownType?
    ensures id in AdsOf(RegisterResult(top, enforceKAnon, result).idx, adType) <==>
              || id in AdsOf(top.idx, adType)
              || (WinsUnder(result, id) && result.adType == adType && id !in top.reported)
              || (enforceKAnon && !result.isChaff && result.componentSeller != "" && HasGhost(result.ghostWinners, adType, id))
  {
    GhostsRegisteredIff(top, result.ghostWinners, adType, id);
    GhostsRegisteredIff(RegisterWinner(top, result), result.ghostWinners, adType, id);
    WinnerRegisteredIff(top, result, adType, id);
    hide RegisterGhosts, HasGhost, RegisterWinner, AdsOf;
  }

  lemma WinnerRegisteredIff(top: TopLevelIndex, result: AuctionResult, adType: AdType, id: string)
    requires !adType.UnknownType?
    ensures id in AdsOf(RegisterWinner(top, result).idx, adType) <==>
              || id in AdsOf(top.idx, adType)
              || (result.ad.requestId == Some(id) && result.adType == adType && id !in top.reported)
  {
  }

  /**
   From nothing, an id is registered under a type exactly if the first winner with the id is of that type or, under
   enforcement, a result that counts has such a ghost winner.
   */
  lemma {:induction false} RegisteredUnderIff(results: seq<AuctionResult>, enforceKAnon: bool, adType: AdType, id: string)
    requires !adType.UnknownType?
    ensures id in AdsOf(RegisterResults(NOTHING_REGISTERED, enforceKAnon, results).idx, adType) <==>
              || (exists j :: FirstWinnerOf(results, j, adType, id))
              || (enforceKAnon && exists j :: GhostOf(results, j, adType, id))
  {
    if results != [] {
      var front, last := results[..|results| - 1], results[|results| - 1];
      var before := RegisterResults(NOTHING_REGISTERED, enforceKAnon, front);
      RegisteredUnderIff(front, enforceKAnon, adType, id);
      ReportedIsFirstWinner(front, enforceKAnon, id);
      hide RegisterResult, AdsOf, HasGhost, WinsUnder;
      ResultRegisteredIff(before, enforceKAnon, last, adType, id);
      assert results == front + [last];
      OneMoreWinner(front, last, adType, id);
      OneMoreGhostResult(front, last, adType, id);
    }
  }

  lemma OneMoreWinner(front: seq<AuctionResult>, last: AuctionResult, adType: AdType, id: string)
    ensures (exists j :: FirstWinnerOf(front + [last], j, adType, id)) <==>
              || (exists j :: FirstWinnerOf(front, j, adType, id))
              || (WinsUnder(last, id) && last.adType == adType && !exists j :: 0 <= j < |front| && WinsUnder(front[j], id))
  {
    hide WinsUnder;
    var more := front + [last];
    assert more[|front|] == last && forall j :: 0 <= j < |front| ==> more[j] == front[j];
    if j :| FirstWinnerOf(front, j, adType, id) {
      assert FirstWinnerOf(more, j, adType, id);
    }
    if WinsUnder(last, id) && last.adType == adType && !exists j :: 0 <= j < |front| && WinsUnder(front[j], id) {
      assert FirstWinnerOf(more, |front|, adType, id);
    }
    if j :| FirstWinnerOf(more, j, adType, id) {
      assert j < |front| ==> FirstWinnerOf(front, j, adType, id);
    }
  }

  lemma OneMoreGhostResult(front: seq<AuctionResult>, last: AuctionResult, adType: AdType, id: string)
    ensures (exists j :: GhostOf(front + [last], j, adType, id)) <==>
              || (exists j :: GhostOf(front, j, adType, id))
              || (!last.isChaff && last.componentSeller != "" && HasGhost(last.ghostWinners, adType, id))
  {
    hide HasGhost;
    var more := front + [last];
    assert more[|front|] == last && forall j :: 0 <= j < |front| ==> more[j] == front[j];
    if j :| GhostOf(front, j, adType, id) {
      assert GhostOf(more, j, adType, id);
    }
    if !last.isChaff && last.componentSeller != "" && HasGhost(last.ghostWinners, adType, id) {
      assert GhostOf(more, |front|, adType, id);
    }
    if j :| GhostOf(more, j, adType, id) {
      assert j < |front| ==> GhostOf(front, j, adType, id);
    }
  }

  /** Without enforcement every registered winner has its seller recorded, and nothing else has. */
  lemma {:induction false} SellersOfWinners(results: seq<AuctionResult>, id: string)
    ensures id in RegisterResults(NOTHING_REGISTERED, false, results).sellers <==>
              exists j :: FirstWinnerOf(results, j, ProtectedAudience, id) || FirstWinnerOf(results, j, ProtectedAppSignals, id)
  {
    if results != [] {
      var front, last := results[..|results| - 1], results[|results| - 1];
      var before := RegisterResults(NOTHING_REGISTERED, false, front);
      SellersOfWinners(front, id);
      ReportedIsFirstWinner(front, false, id);
      RegisteredUnderIff(front, false, ProtectedAudience, id);
      RegisteredUnderIff(front, false, ProtectedAppSignals, id);
      assert results == front + [last];
      OneMoreWinner(front, last, ProtectedAudience, id);
      OneMoreWinner(front, last, ProtectedAppSignals, id);
      SellerStep(before, last, id);
      hide RegisterResult, WinsUnder;
      SplitExists(front, id);
      SplitExists(results, id);
      if j :| FirstWinnerOf(front, j, ProtectedAudience, id) || FirstWinnerOf(front, j, ProtectedAppSignals, id) {
        assert WinsUnder(front[j], id);
      }
    }
  }

  lemma SplitExists(results: seq<AuctionResult>, id: string)
    ensures (exists j :: FirstWinnerOf(results, j, ProtectedAudience, id) || FirstWinnerOf(results, j, ProtectedAppSignals, id)) <==>
              || (exists j :: FirstWinnerOf(results, j, ProtectedAudience, id))
              || (exists j :: FirstWinnerOf(results, j, ProtectedAppSignals, id))
  {
  }

  lemma SellerStep(top: TopLevelIndex, result: AuctionResult, id: string)
    requires id !in top.reported ==> id !in top.idx.adData && id !in top.idx.protectedAppSignalsAdData
    ensures id in RegisterResult(top, false, result).sellers <==>
              id in top.sellers || (WinsUnder(result, id) && !result.adType.UnknownType? && id !in top.reported)
  {
  }

  /** What one more registration keeps, for any number of them. */
  ghost predicate Kept(before: Index, after: Index) {
    Extends(before, after) && (Agrees(before) ==> Agrees(after))
  }

  lemma RegisterKept(first: Index, idx: Index, adType: AdType, id: string, ad: Ad)
    requires Kept(first, idx)
    ensures Kept(first, Register(idx, adType, id, ad))
  {
    hide Agrees, Register;
    RegisterExtends(idx, adType, id, ad);
    if Agrees(idx) {
      RegisterAgrees(idx, adType, id, ad);
    }
  }

  lemma {:induction false} GhostsKept(first: Index, top: TopLevelIndex, ghostWinners: seq<GhostWinner>)
    requires Kept(first, top.idx)
    ensures Kept(first, RegisterGhosts(top, ghostWinners).idx)
  {
    if ghostWinners != [] {
      hide Kept, Register;
      var last := ghostWinners[|ghostWinners| - 1];
      var before := RegisterGhosts(top, ghostWinners[..|ghostWinners| - 1]);
      GhostsKept(first, top, ghostWinners[..|ghostWinners| - 1]);
      if last.ad.requestId.Some? {
        RegisterKept(first, before.idx, last.adType, last.ad.requestId.value, last.ad);
      }
    }
  }

  /** The results of a top-level auction keep what is registered, and keep requests and ads in agreement. */
  lemma {:induction false} RegisterResultsKept(top: TopLevelIndex, enforceKAnon: bool, results: seq<AuctionResult>)
    ensures Kept(top.idx, RegisterResults(top, enforceKAnon, results).idx)
  {
    if results != [] {
      hide Kept, Register, RegisterGhosts;
      var result := results[|results| - 1];
      var before := RegisterResults(top, enforceKAnon, results[..|results| - 1]);
      RegisterResultsKept(top, enforceKAnon, results[..|results| - 1]);
      if result.ad.requestId.Some? {
        RegisterKept(top.idx, before.idx, result.adType, result.ad.requestId.value, result.ad);
      }
      GhostsKept(top.idx, before, result.ghostWinners);
      GhostsKept(top.idx, RegisterWinner(before, result), result.ghostWinners);
    } else {
      assert Extends(top.idx, top.idx);
    }
  }

  /** The first result whose generation id does not match those before it. */
  ghost predicate FirstMismatch(results: seq<AuctionResult>, i: int) {
    && 0 <= i < |results|
    && Uniform(GenerationIds(results[..i])) && !Uniform(GenerationIds(results[..i + 1]))
  }

  const NOTHING_REGISTERED := TopLevelIndex(Index(map[], map[], []), map[], map[], {})

  /** The result has a winner to be scored, under some id. */
  predicate HasWinner(result: AuctionResult) {
    Considered(result) && result.adRenderUrl != "" && result.ad.requestId.Some?
  }

  /** Result `j` has a winner of a known type, under an id no earlier winner had. */
  predicate WinnerRegistered(results: seq<AuctionResult>, j: nat)
    requires j < |results|
  {
    && HasWinner(results[j]) && !results[j].adType.UnknownType?
    && forall i :: 0 <= i < j && HasWinner(results[i]) ==> results[i].ad.requestId != results[j].ad.requestId
  }

  predicate GhostRegistered(ghostWinner: GhostWinner) {
    ghostWinner.forTopLevelAuction && ghostWinner.ad.requestId.Some? && !ghostWinner.adType.UnknownType?
  }

  predicate SomeGhostRegistered(ghostWinners: seq<GhostWinner>) {
    exists g :: 0 <= g < |ghostWinners| && GhostRegistered(ghostWinners[g])
  }

  /** Result `j` has a winner or, under enforcement, a ghost winner that gets registered. */
  predicate LeadsToAd(results: seq<AuctionResult>, enforceKAnon: bool, j: int) {
    && 0 <= j < |results|
    && (WinnerRegistered(results, j)
        || (enforceKAnon && Considered(results[j]) && SomeGhostRegistered(results[j].ghostWinners)))
  }

  /** Some response id resolves to an ad. */
  ghost predicate FindsSome(idx: Index) {
    exists id :: FindScoredAdType(idx, id).Some?
  }

  lemma RegisterFinds(idx: Index, adType: AdType, id: string, ad: Ad)
    ensures FindsSome(Register(idx, adType, id, ad)) <==> FindsSome(idx) || !adType.UnknownType?
  {
    var idx' := Register(idx, adType, id, ad);
    if !adType.UnknownType? {
      assert FindScoredAdType(idx', id).Some?;
    }
    if i :| FindScoredAdType(idx, i).Some? {
      assert FindScoredAdType(idx', i).Some?;
    }
  }

  lemma {:induction false} GhostsFind(top: TopLevelIndex, ghostWinners: seq<GhostWinner>)
    ensures FindsSome(RegisterGhosts(top, ghostWinners).idx) <==> FindsSome(top.idx) || SomeGhostRegistered(ghostWinners)
    ensures RegisterGhosts(top, ghostWinners).reported == top.reported
  {
    if ghostWinners != [] {
      hide FindsSome, Register;
      var front, last := ghostWinners[..|ghostWinners| - 1], ghostWinners[|ghostWinners| - 1];
      GhostsFind(top, front);
      if last.ad.requestId.Some? {
        RegisterFinds(RegisterGhosts(top, front).idx, last.adType, last.ad.requestId.value, last.ad);
      }
      assert SomeGhostRegistered(ghostWinners) <==> SomeGhostRegistered(front) || GhostRegistered(last) by {
        assert ghostWinners == front + [last];
        assert GhostRegistered(last) ==> GhostRegistered(ghostWinners[|front|]);
        assert forall g :: 0 <= g < |front| ==> front[g] == ghostWinners[g];
      }
    }
  }

  lemma WinnerFinds(top: TopLevelIndex, result: AuctionResult)
    ensures FindsSome(RegisterWinner(top, result).idx) <==>
            || FindsSome(top.idx)
            || (result.ad.requestId.Some? && result.ad.requestId.value !in top.reported && !result.adType.UnknownType?)
    ensures RegisterWinner(top, result).reported.Keys ==
            top.reported.Keys + if result.ad.requestId.Some? then {result.ad.requestId.value} else {}
  {
    if result.ad.requestId.Some? {
      RegisterFinds(top.idx, result.adType, result.ad.requestId.value, result.ad);
    }
  }

  /** The ids with reporting data are those of the winners. */
  ghost predicate ReportedAreWinners(results: seq<AuctionResult>, reported: set<string>) {
    forall id :: id in reported <==> exists j :: 0 <= j < |results| && HasWinner(results[j]) && results[j].ad.requestId == Some(id)
  }

  lemma ReportedStep(front: seq<AuctionResult>, last: AuctionResult, reported: set<string>)
    requires ReportedAreWinners(front, reported)
    ensures ReportedAreWinners(front + [last], reported + if HasWinner(last) then {last.ad.requestId.value} else {})
    ensures WinnerRegistered(front + [last], |front|) <==>
            HasWinner(last) && !last.adType.UnknownType? && last.ad.requestId.value !in reported
  {
    var results := front + [last];
    var reported' := reported + if HasWinner(last) then {last.ad.requestId.value} else {};
    assert results[|front|] == last && forall j :: 0 <= j < |front| ==> results[j] == front[j];
    forall id
      ensures id in reported' <==>
              exists j :: 0 <= j < |results| && HasWinner(results[j]) && results[j].ad.requestId == Some(id)
    {
      if j :| 0 <= j < |front| && HasWinner(front[j]) && front[j].ad.requestId == Some(id) {
        assert HasWinner(results[j]);
      }
    }
  }

  lemma LeadsToAdStep(front: seq<AuctionResult>, last: AuctionResult, enforceKAnon: bool)
    ensures (exists j :: LeadsToAd(front + [last], enforceKAnon, j)) <==>
            (exists j :: LeadsToAd(front, enforceKAnon, j)) || LeadsToAd(front + [last], enforceKAnon, |front|)
  {
    var results := front + [last];
    assert results[|front|] == last && forall j :: 0 <= j < |front| ==> results[j] == front[j];
    forall j | 0 <= j < |front|
      ensures LeadsToAd(results, enforceKAnon, j) <==> LeadsToAd(front, enforceKAnon, j)
    {
    }
  }

  /** From nothing, some ad is registered exactly when some result leads to one. */
  lemma {:induction false} RegisteredIff(results: seq<AuctionResult>, enforceKAnon: bool)
    ensures var t := RegisterResults(NOTHING_REGISTERED, enforceKAnon, results);
            && (FindsSome(t.idx) <==> exists j :: LeadsToAd(results, enforceKAnon, j))
            && ReportedAreWinners(results, t.reported.Keys)
  {
    if results != [] {
      hide FindsSome, LeadsToAd, ReportedAreWinners, WinnerRegistered, RegisterWinner, RegisterGhosts, SomeGhostRegistered;
      var front, last := results[..|results| - 1], results[|results| - 1];
      var before := RegisterResults(NOTHING_REGISTERED, enforceKAnon, front);
      assert results == front + [last];
      RegisteredIff(front, enforceKAnon);
      ReportedStep(front, last, before.reported.Keys);
      LeadsToAdStep(front, last, enforceKAnon);
      WinnerFinds(before, last);
      GhostsFind(before, last.ghostWinners);
      GhostsFind(RegisterWinner(before, last), last.ghostWinners);
      LeadsToAdLast(front, last, enforceKAnon);
      assert before.reported.Keys + {} == before.reported.Keys;
    }
  }

  lemma LeadsToAdLast(front: seq<AuctionResult>, last: AuctionResult, enforceKAnon: bool)
    ensures LeadsToAd(front + [last], enforceKAnon, |front|) <==>
            || WinnerRegistered(front + [last], |front|)
            || (enforceKAnon && Considered(last) && SomeGhostRegistered(last.ghostWinners))
  {
  }

  /**
   After a mismatch the requests are dropped and the ads are not: a response id resolves to an ad without a request
   exactly when one of the results before the mismatch has a winner of a known type under an id no earlier winner had
   or, under enforcement, a ghost winner of a known type with an id for the top-level auction.
   */
  lemma LeftoverIff(results: seq<AuctionResult>, enforceKAnon: bool, i: int)
    requires FirstMismatch(results, i)
    ensures FindsSome(RegisterResults(NOTHING_REGISTERED, enforceKAnon, results[..i]).idx.(requests := []))
       <==> exists j :: 0 <= j < i && LeadsToAd(results, enforceKAnon, j)
  {
    var idx := RegisterResults(NOTHING_REGISTERED, enforceKAnon, results[..i]).idx;
    RegisteredIff(results[..i], enforceKAnon);
    assert forall id :: FindScoredAdType(idx, id) == FindScoredAdType(idx.(requests := []), id);
    forall j | 0 <= j < i
      ensures LeadsToAd(results[..i], enforceKAnon, j) <==> LeadsToAd(results, enforceKAnon, j)
    {
      assert forall k :: 0 <= k < i ==> results[..i][k] == results[k];
    }
  }

  /** Two results of different generations: the winner of the first stays registered without a request. */
  lemma MismatchLeavesAd(first: AuctionResult, second: AuctionResult, id: string)
    requires Considered(first) && first.adRenderUrl != "" && first.adType.ProtectedAudience? && first.ad.requestId == Some(id)
    requires Considered(second) && first.generationId == "1" && second.generationId == "2"
    ensures FirstMismatch([first, second], 1)
    ensures var idx := RegisterResults(NOTHING_REGISTERED, false, [first]).idx;
            id in idx.adData && FindScoredAdType(idx.(requests := []), id).Some?
  {
    assert [first, second][..1] == [first] && [first][..0] == [];
    assert [first, second][..2] == [first, second];
    assert GenerationIds([first]) == ["1"];
    assert GenerationIds([first, second]) == ["1", "2"];
    assert OneGeneration(["1"], 0, "1");
    forall k, i
      ensures !OneGeneration(["1", "2"], k, i)
    {
      assert ["1", "2"][0] == "1" && ["1", "2"][1] == "2";
    }
  }

  // ----- the reactor -----

  class DispatchBuilder {
    const requireScoringSignals: bool
    const enforceKAnon: bool
    var adData: map<string, Ad>
    var protectedAppSignalsAdData: map<string, Ad>
    var componentLevelReportingData: map<string, string>
    var componentAdSeller: map<string, string>
    var kAnonJoinCandidates: set<string>

    constructor (requireScoringSignals: bool, enforceKAnon: bool)
      ensures CurrentTopLevelIndex([]) == NOTHING_REGISTERED
      ensures Agrees(CurrentIndex([]))
      ensures this.requireScoringSignals == requireScoringSignals && this.enforceKAnon == enforceKAnon
    {
      this.requireScoringSignals, this.enforceKAnon := requireScoringSignals, enforceKAnon;
      adData, protectedAppSignalsAdData := map[], map[];
      componentLevelReportingData, componentAdSeller, kAnonJoinCandidates := map[], map[], {};
    }

    /** The requests are not part of the reactor: the builders append to a list of their caller. */
    function CurrentIndex(requests: seq<string>): Index
      reads this
    {
      Index(adData, protectedAppSignalsAdData, requests)
    }

    function CurrentTopLevelIndex(requests: seq<string>): TopLevelIndex
      reads this
    {
      TopLevelIndex(CurrentIndex(requests), componentLevelReportingData, componentAdSeller, kAnonJoinCandidates)
    }

    /** The two single-auction builders: each takes its ads from the back. */
    method PopulateDispatchRequests(dispatchRequests: seq<string>, adType: AdType, signals: Option<set<string>>, ads: seq<Ad>)
      returns (requests: seq<string>)
      requires !adType.UnknownType?
      modifies `adData, `protectedAppSignalsAdData
      ensures CurrentIndex(requests) ==
              if requireScoringSignals && signals.None? then old(CurrentIndex(dispatchRequests))
              else RegisterAll(old(CurrentIndex(dispatchRequests)), adType, requireScoringSignals, signals, ads)
      ensures Agrees(old(CurrentIndex(dispatchRequests))) ==> Agrees(CurrentIndex(requests))
      ensures forall id :: id in AdsOf(CurrentIndex([]), adType) <==>
                || id in old(AdsOf(CurrentIndex([]), adType))
                || ((requireScoringSignals ==> signals.Some?)
                    && exists i :: 0 <= i < |ads| && ads[i].requestId == Some(id)
                                   && (requireScoringSignals ==> ads[i].render in signals.value))
      ensures forall id :: id in AdsOf(CurrentIndex([]), adType) && id !in old(AdsOf(CurrentIndex([]), adType)) ==>
                (requireScoringSignals ==> signals.Some?)
                && exists i :: LastScorable(ads, i, id, requireScoringSignals, signals) && AdsOf(CurrentIndex([]), adType)[id] == ads[i]
      ensures dispatchRequests <= requests
      ensures forall id :: id in requests[|dispatchRequests|..] <==>
                id in AdsOf(CurrentIndex([]), adType) && id !in old(AdsOf(CurrentIndex([]), adType))
    {
      hide Scorable, LastScorable;
      requests := dispatchRequests;
      if requireScoringSignals && signals.None? {
        assert requests[|dispatchRequests|..] == [];
        return;
      }
      if Agrees(CurrentIndex(requests)) {
        RegisterAllAgrees(CurrentIndex(requests), adType, requireScoringSignals, signals, ads);
      }
      var rest := ads;
      while rest != []
        invariant RegisterAll(CurrentIndex(requests), adType, requireScoringSignals, signals, rest)
               == RegisterAll(old(CurrentIndex(dispatchRequests)), adType, requireScoringSignals, signals, ads)
        decreases |rest|
      {
        var ad := rest[|rest| - 1];
        rest := rest[..|rest| - 1];
        if signals.Some? && requireScoringSignals && ad.render !in signals.value {
          continue;
        }
        if ad.requestId.None? {
          continue;
        }
        var id := ad.requestId.value;
        if adType.ProtectedAudience? {
          if id in adData {
            continue;
          }
          adData := adData[id := ad];
        } else {
          if id in protectedAppSignalsAdData {
            continue;
          }
          protectedAppSignalsAdData := protectedAppSignalsAdData[id := ad];
        }
        requests := requests + [id];
      }
      hide RegisterAll, AdsOf, Agrees;
      AddedByAll(old(CurrentIndex(dispatchRequests)), adType, requireScoringSignals, signals, ads);
      SameAds(CurrentIndex([]), CurrentIndex(requests), adType);
      SameAds(old(CurrentIndex([])), old(CurrentIndex(dispatchRequests)), adType);
    }

    /** Inserts an ad by type unless its id is taken; the request is dispatched only if this succeeds. */
    method TryInsert(adType: AdType, id: string, ad: Ad, ghost requests: seq<string>) returns (inserted: bool)
      modifies `adData, `protectedAppSignalsAdData
      ensures CurrentIndex(if inserted then requests + [id] else requests) == Register(old(CurrentIndex(requests)), adType, id, ad)
    {
      inserted := false;
      match adType {
        case ProtectedAudience =>
          if id !in adData {
            adData := adData[id := ad];
            inserted := true;
          }
        case ProtectedAppSignals =>
          if id !in protectedAppSignalsAdData {
            protectedAppSignalsAdData := protectedAppSignalsAdData[id := ad];
            inserted := true;
          }
        case UnknownType =>
      }
    }

    /** Registers the winner of a component auction, unless its id was used for a winner before. */
    method BuildScoreAdRequestForComponentWinner(dispatchRequests: seq<string>, result: AuctionResult)
      returns (requests: seq<string>)
      modifies this
      ensures CurrentTopLevelIndex(requests) == RegisterWinner(old(CurrentTopLevelIndex(dispatchRequests)), result)
    {
      requests := dispatchRequests;
      if result.ad.requestId.None? {
        return;
      }
      var id := result.ad.requestId.value;
      if id in componentLevelReportingData {
        return;
      }
      requests := RegisterNewWinner(requests, id, result);
    }

    method RegisterNewWinner(dispatchRequests: seq<string>, id: string, result: AuctionResult) returns (requests: seq<string>)
      requires id !in componentLevelReportingData
      modifies this
      ensures CurrentTopLevelIndex(requests) == WithNewWinner(old(CurrentTopLevelIndex(dispatchRequests)), id, result)
    {
      hide Register;
      requests := dispatchRequests;
      componentLevelReportingData := componentLevelReportingData[id := result.componentSeller];
      var inserted := TryInsert(result.adType, id, result.ad, requests);
      if inserted {
        RecordComponentWinner(id, result.componentSeller);
        requests := requests + [id];
      }
    }

    method RecordComponentWinner(id: string, seller: string)
      modifies `componentAdSeller, `kAnonJoinCandidates
      ensures componentAdSeller == if id in old(componentAdSeller) then old(componentAdSeller) else old(componentAdSeller)[id := seller]
      ensures kAnonJoinCandidates == old(kAnonJoinCandidates) + {id}
    {
      if id !in componentAdSeller {
        componentAdSeller := componentAdSeller[id := seller];
      }
      kAnonJoinCandidates := kAnonJoinCandidates + {id};
    }

    method BuildScoreAdRequestForComponentGhostWinners(dispatchRequests: seq<string>, result: AuctionResult)
      returns (requests: seq<string>)
      modifies `adData, `protectedAppSignalsAdData, `kAnonJoinCandidates
      ensures CurrentTopLevelIndex(requests) == RegisterGhosts(old(CurrentTopLevelIndex(dispatchRequests)), result.ghostWinners)
    {
      hide Register;
      requests := dispatchRequests;
      assert result.ghostWinners[..0] == [];
      for k := 0 to |result.ghostWinners|
        invariant CurrentTopLevelIndex(requests)
               == RegisterGhosts(old(CurrentTopLevelIndex(dispatchRequests)), result.ghostWinners[..k])
      {
        var ghostWinner := result.ghostWinners[k];
        assert result.ghostWinners[..k + 1][..k] == result.ghostWinners[..k];
        if !ghostWinner.forTopLevelAuction || ghostWinner.ad.requestId.None? {
          continue;
        }
        var id := ghostWinner.ad.requestId.value;
        var inserted := TryInsert(ghostWinner.adType, id, ghostWinner.ad, requests);
        if !inserted {
          continue;
        }
        kAnonJoinCandidates := kAnonJoinCandidates + {id};
        requests := requests + [id];
      }
      assert result.ghostWinners[..|result.ghostWinners|] == result.ghostWinners;
    }

    /**
     Builds the requests of a top-level auction.  It succeeds exactly when the generation ids of the
     results considered are some empty ones followed by copies of a single one.  Otherwise there are no
     requests, while the ads of the `done` results before the mismatch stay registered.
     */
    method PopulateTopLevelAuctionDispatchRequests(results: seq<AuctionResult>)
      returns (requests: Option<seq<string>>, ghost done: nat)
      modifies this
      ensures done <= |results|
      ensures requests.Some? <==> !exists i, j :: Clash(results, i, j)
      ensures requests.Some? <==> Uniform(GenerationIds(results))
      ensures if requests.Some? then done == |results| else FirstMismatch(results, done)
      ensures var t := RegisterResults(old(CurrentTopLevelIndex([])), enforceKAnon, results[..done]);
              && CurrentTopLevelIndex(t.idx.requests) == t
              && (requests.Some? ==> requests.value == t.idx.requests)
      ensures requests.Some? && Agrees(old(CurrentIndex([]))) ==> Agrees(CurrentIndex(requests.value))
    {
      hide RegisterWinner, RegisterGhosts, Agrees;
      var generationId, dispatchRequests := "", [];
      assert OneGeneration([], 0, "");
      assert results[..0] == [];
      hide Clash;
      GenerationsAgreeIff(results);
      RegisterResultsKept(CurrentTopLevelIndex([]), enforceKAnon, results);
      for i := 0 to |results|
        invariant GenerationSoFar(GenerationIds(results[..i]), generationId)
        invariant CurrentTopLevelIndex(dispatchRequests)
               == RegisterResults(old(CurrentTopLevelIndex([])), enforceKAnon, results[..i])
      {
        var result := results[i];
        assert results[..i + 1][..i] == results[..i];
        GenerationIdsNext(results, i);
        if result.isChaff || result.componentSeller == "" {
          assert GenerationIds(results[..i]) + [] == GenerationIds(results[..i]);
          continue;
        }
        GenerationStep(GenerationIds(results[..i]), generationId, result.generationId);
        if generationId == "" {
          generationId := result.generationId;
        } else if generationId != result.generationId {
          Mismatched(results, i, generationId);
          return None, i;
        }
        if result.adRenderUrl != "" {
          dispatchRequests := BuildScoreAdRequestForComponentWinner(dispatchRequests, result);
        }
        if enforceKAnon && result.ghostWinners != [] {
          dispatchRequests := BuildScoreAdRequestForComponentGhostWinners(dispatchRequests, result);
        }
        NoGhosts(if result.adRenderUrl != "" then RegisterWinner(RegisterResults(old(CurrentTopLevelIndex([])), enforceKAnon, results[..i]), result)
                 else RegisterResults(old(CurrentTopLevelIndex([])), enforceKAnon, results[..i]));
      }
      assert results[..|results|] == results;
      ghost var k :| OneGeneration(GenerationIds(results), k, generationId);
      return Some(dispatchRequests), |results|;
    }
  }

  lemma NoGhosts(top: TopLevelIndex)
    ensures RegisterGhosts(top, []) == top
  {
  }

  lemma MismatchedIds(results: seq<AuctionResult>, i: nat)
    requires i < |results| && Considered(results[i])
    ensures GenerationIds(results[..i + 1]) == GenerationIds(results[..i]) + [results[i].generationId] + []
    ensures GenerationIds(results)
         == GenerationIds(results[..i]) + [results[i].generationId] + GenerationIds(results[i + 1..])
  {
    hide GenerationIds;
    var front, rest := results[..i + 1], results[i + 1..];
    GenerationIdsNext(results, i);
    assert GenerationIds(front) + [] == GenerationIds(front);
    CutAt(results, i + 1);
    GenerationIdsConcat(front, rest);
  }

  lemma CutAt<T>(s: seq<T>, n: nat)
    requires n <= |s|
    ensures s[..n] + s[n..] == s
  {
  }

  lemma SoFarUniform(ids: seq<string>, current: string)
    requires GenerationSoFar(ids, current)
    ensures Uniform(ids)
  {
  }

  lemma Mismatched(results: seq<AuctionResult>, i: nat, generationId: string)
    requires i < |results| && Considered(results[i])
    requires GenerationSoFar(GenerationIds(results[..i]), generationId)
    requires generationId != "" && generationId != results[i].generationId
    ensures FirstMismatch(results, i)
    ensures !Uniform(GenerationIds(results))
  {
    hide GenerationIds, OneGeneration, GenerationSoFar, Uniform;
    var ids, next := GenerationIds(results[..i]), results[i].generationId;
    MismatchedIds(results, i);
    SoFarUniform(ids, generationId);
    GenerationMismatch(ids, generationId, next, []);
    GenerationMismatch(ids, generationId, next, GenerationIds(results[i + 1..]));
  }
}
