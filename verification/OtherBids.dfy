/**
 The "highest scoring other bids" reported with the winning ad
 (services/auction_service/score_ads_reactor.cc, `PopulateHighestScoringOtherBidsData`).

 The distinct scores of the auction are sorted by a comparison that takes its arguments as ints,
 so scores with the same integer part may come out in any order.
 */
module OtherBids {
  import opened Auctions
  import opened IndexLists
  import opened RejectionPass
  import opened CandidateScan
  import opened AuctionOutcome
  import opened WinnerSelection

  // ----- ordering the scores -----

  /** The scores of the map, each once, in an order the int comparison allows. */
  ghost predicate ScoreOrder(keys: set<real>, scores: seq<real>) {
    && (forall d :: d in keys <==> d in scores)
    && (forall i, j :: 0 <= i < j < |scores| ==> scores[i] != scores[j] && Trunc(scores[i]) >= Trunc(scores[j]))
  }

  predicate TopTrunc(keys: set<real>, d: real) {
    d in keys && forall o :: o in keys ==> Trunc(o) <= Trunc(d)
  }

  lemma {:induction false} TopTruncExists(keys: set<real>) returns (top: real)
    requires keys != {}
    ensures TopTrunc(keys, top)
  {
    assert (forall x :: x !in keys) ==> keys == {};
    var d :| d in keys;
    top := d;
    if keys - {d} != {} {
      var other := TopTruncExists(keys - {d});
      if Trunc(other) > Trunc(d) {
        top := other;
      }
    }
    assert forall o :: o in keys ==> o == d || o in keys - {d};
  }

  lemma TopOfRest(rest: set<real>, d: real)
    requires TopTrunc(rest, d)
    ensures forall o :: o in rest - {d} ==> Trunc(o) <= Trunc(d)
  {
  }

  /** Sorts the scores; of several scores with the greatest integer part any may come first. */
  method SortScores(keys: set<real>) returns (scores: seq<real>)
    ensures ScoreOrder(keys, scores)
  {
    scores := [];
    var rest := keys;
    while rest != {}
      invariant rest <= keys
      invariant forall d :: d in keys <==> d in scores || d in rest
      invariant forall d :: d in scores ==> d !in rest
      invariant forall i, j :: 0 <= i < j < |scores| ==> scores[i] != scores[j] && Trunc(scores[i]) >= Trunc(scores[j])
      invariant forall i, o :: 0 <= i < |scores| && o in rest ==> Trunc(o) <= Trunc(scores[i])
    {
      ghost var top := TopTruncExists(rest);
      var d :| d in rest && TopTrunc(rest, d);
      assert forall i :: 0 <= i < |scores| ==> scores[i] in scores;
      TopOfRest(rest, d);
      scores := scores + [d];
      rest := rest - {d};
    }
  }

  /** The scores that are reported: the first two of the order, cut before a zero. */
  function ChosenScores(scores: seq<real>): (chosen: seq<real>)
    ensures |chosen| <= 2 && 0.0 !in chosen
    ensures forall c :: c in chosen ==> c in scores
  {
    if scores == [] || scores[0] == 0.0 then []
    else if |scores| == 1 || scores[1] == 0.0 then [scores[0]]
    else [scores[0], scores[1]]
  }

  /** No score left out has a greater integer part than a chosen one. */
  lemma ChosenAreTopTrunc(keys: set<real>, scores: seq<real>, c: real, u: real)
    requires ScoreOrder(keys, scores) && c in ChosenScores(scores) && u in keys && u !in ChosenScores(scores)
    ensures c != 0.0 && c in keys && Trunc(u) <= Trunc(c)
  {
    var i :| 0 <= i < |scores| && scores[i] == u;
    assert c == scores[0] || c == scores[1];
  }

  // ----- the scores a reader would expect -----

  /** At least two scores are higher than `c`. */
  ghost predicate TwoAbove(keys: set<real>, c: real) {
    exists a, b :: a in keys && b in keys && a != b && a > c && b > c
  }

  /** `c` is one of the two highest scores, is not zero, and is not below a score of zero. */
  ghost predicate TopTwo(keys: set<real>, c: real) {
    c in keys && c != 0.0 && !TwoAbove(keys, c) && !(0.0 in keys && c < 0.0)
  }

  /** Two scores whose integer parts exceed that of `c`. */
  ghost predicate TwoTruncAbove(keys: set<real>, c: real) {
    exists a, b :: a in keys && b in keys && a != b && Trunc(a) > Trunc(c) && Trunc(b) > Trunc(c)
  }

  /**
   Scores sharing an integer part do no harm: they are both reported, or both out of reach of the
   first two places, or both behind a score of zero.
   */
  ghost predicate TiesHarmless(keys: set<real>) {
    forall a, b :: a in keys && b in keys && a != b && Trunc(a) == Trunc(b) ==>
      || (TopTwo(keys, a) && TopTwo(keys, b))
      || TwoTruncAbove(keys, a)
      || (0.0 in keys && Trunc(a) < 0)
  }

  /** In particular, integer scores never share an integer part. */
  lemma IntegralScoresHarmless(keys: set<real>)
    requires forall d :: d in keys ==> Integral(d)
    ensures TiesHarmless(keys)
  {
  }

  lemma NotBelowHigher(c: real, d: real)
    ensures Trunc(d) > Trunc(c) ==> d > c
    ensures d > c ==> Trunc(d) >= Trunc(c)
  {
  }

  /** If only `first` can have a greater integer part, harmless ties make `c` one of the top two. */
  lemma ChosenIsTopTwo(keys: set<real>, c: real, first: real)
    requires TiesHarmless(keys) && c in keys && c != 0.0 && first != 0.0
    requires forall d :: d in keys && d != first && d != c ==> Trunc(d) <= Trunc(c)
    ensures TopTwo(keys, c)
  {
    assert Trunc(0.0) == 0;
    assert !TwoTruncAbove(keys, c);
    assert 0.0 in keys ==> Trunc(0.0) <= Trunc(c);
    if d :| d in keys && d != first && d > c {
      NotBelowHigher(c, d);
      assert Trunc(c) == Trunc(d);
    } else {
      assert !TwoAbove(keys, c);
    }
  }

  lemma OrderBounds(keys: set<real>, scores: seq<real>)
    requires ScoreOrder(keys, scores)
    ensures scores != [] ==> forall d :: d in keys ==> Trunc(d) <= Trunc(scores[0])
    ensures |scores| >= 2 ==> forall d :: d in keys && d != scores[0] ==> Trunc(d) <= Trunc(scores[1])
    ensures |scores| == 1 ==> forall d :: d in keys ==> d == scores[0]
  {
    forall d | d in keys
      ensures scores != [] && Trunc(d) <= Trunc(scores[0])
      ensures |scores| >= 2 && d != scores[0] ==> Trunc(d) <= Trunc(scores[1])
    {
      var i :| 0 <= i < |scores| && scores[i] == d;
    }
  }

  lemma ChosenThenTopTwo(keys: set<real>, scores: seq<real>, c: real)
    requires ScoreOrder(keys, scores) && TiesHarmless(keys) && c in ChosenScores(scores)
    ensures TopTwo(keys, c)
  {
    OrderBounds(keys, scores);
    assert scores[0] in keys;
    ChosenIsTopTwo(keys, c, scores[0]);
  }

  /** A score tied in its integer part with one of the top two is one of them too. */
  lemma TieWithTopTwo(keys: set<real>, c: real, d: real)
    requires TiesHarmless(keys) && TopTwo(keys, c)
    ensures d in keys && d != c && Trunc(d) == Trunc(c) ==> TopTwo(keys, d)
  {
    assert TwoTruncAbove(keys, c) ==> TwoAbove(keys, c) by {
      if TwoTruncAbove(keys, c) {
        var a, b :| a in keys && b in keys && a != b && Trunc(a) > Trunc(c) && Trunc(b) > Trunc(c);
        NotBelowHigher(c, a);
        NotBelowHigher(c, b);
      }
    }
  }

  /** Nothing but one other nonzero score can come before one of the top two. */
  lemma BeforeTopTwo(keys: set<real>, c: real, d: real, e: real)
    requires TiesHarmless(keys) && TopTwo(keys, c)
    requires d in keys && Trunc(d) >= Trunc(c) && e in keys && Trunc(e) >= Trunc(c) && d != e
    ensures d != 0.0 && e != 0.0
    ensures d == c || e == c
  {
    TieWithTopTwo(keys, c, d);
    TieWithTopTwo(keys, c, e);
    assert Trunc(0.0) == 0;
    assert d > c && e > c ==> TwoAbove(keys, c);
    assert c > d && e > d && c != e ==> TwoAbove(keys, d);
    assert c > e && d > e && c != d ==> TwoAbove(keys, e);
    NotBelowHigher(d, c);
    NotBelowHigher(e, c);
  }

  lemma TopTwoThenChosen(keys: set<real>, scores: seq<real>, c: real)
    requires ScoreOrder(keys, scores) && TiesHarmless(keys) && TopTwo(keys, c)
    ensures c in ChosenScores(scores)
  {
    OrderBounds(keys, scores);
    assert c in scores && scores[0] in scores;
    if c != scores[0] {
      assert scores[1] in scores;
      BeforeTopTwo(keys, c, scores[0], scores[1]);
    }
  }

  // ----- the condition is exact -----

  lemma {:induction false} OrderExists(keys: set<real>) returns (scores: seq<real>)
    ensures ScoreOrder(keys, scores)
    decreases |keys|
  {
    scores := [];
    if keys != {} {
      var top := TopTruncExists(keys);
      var rest := OrderExists(keys - {top});
      scores := OrderFrom(keys, top, rest);
    }
  }

  lemma OrderFrom(keys: set<real>, top: real, rest: seq<real>) returns (scores: seq<real>)
    requires TopTrunc(keys, top) && ScoreOrder(keys - {top}, rest)
    ensures scores == [top] + rest && ScoreOrder(keys, scores)
  {
    scores := [top] + rest;
    forall i, j | 0 <= i < j < |scores|
      ensures scores[i] != scores[j] && Trunc(scores[i]) >= Trunc(scores[j])
    {
      assert rest[j - 1] in rest;
    }
    forall d
      ensures d in keys <==> d in scores
    {
      assert d in keys - {top} <==> d in rest;
    }
  }

  /** Any score with the greatest integer part can come first. */
  lemma OrderWithFirst(keys: set<real>, x: real) returns (scores: seq<real>)
    requires TopTrunc(keys, x)
    ensures ScoreOrder(keys, scores) && scores[0] == x
  {
    var rest := OrderExists(keys - {x});
    scores := OrderFrom(keys, x, rest);
  }

  lemma OrderWithSecond(keys: set<real>, t: real, x: real) returns (scores: seq<real>)
    requires TopTrunc(keys, t) && x != t && TopTrunc(keys - {t}, x)
    ensures ScoreOrder(keys, scores) && |scores| >= 2 && scores[0] == t && scores[1] == x
  {
    var rest := OrderWithFirst(keys - {t}, x);
    scores := OrderFrom(keys, t, rest);
  }

  /** Reporting exactly `x`, unless it is zero, would be wrong about `c`. */
  ghost predicate Misreported(keys: set<real>, x: real, c: real) {
    if x == 0.0 then c != x && TopTwo(keys, c) else c == x && !TopTwo(keys, c)
  }

  /** The score to put first of two tied ones, and the score `c` that is misreported then. */
  lemma PickHarmful(keys: set<real>, a: real, b: real) returns (x: real, c: real)
    requires a in keys && b in keys && a != b && !(TopTwo(keys, a) && TopTwo(keys, b))
    ensures (x == a || x == b) && (c == a || c == b)
    ensures Misreported(keys, x, c)
  {
    hide TopTwo;
    x := if TopTwo(keys, a) || (a == 0.0 && !TopTwo(keys, b)) then b else a;
    c := if x != 0.0 then x else if x == a then b else a;
  }

  /** At most one score can come before those tied with `a`, and it is not zero. */
  lemma OneBefore(keys: set<real>, a: real, t: real)
    requires !TwoTruncAbove(keys, a) && !(0.0 in keys && Trunc(a) < 0) && t in keys && Trunc(t) > Trunc(a)
    ensures forall d :: d in keys && d != t ==> Trunc(d) <= Trunc(a)
    ensures t != 0.0
  {
    assert Trunc(0.0) == 0;
  }

  /** An order that misreports, when some tie is not harmless. */
  lemma HarmfulOrder(keys: set<real>, a: real, b: real) returns (scores: seq<real>, c: real)
    requires a in keys && b in keys && a != b && Trunc(a) == Trunc(b)
    requires !(TopTwo(keys, a) && TopTwo(keys, b)) && !TwoTruncAbove(keys, a) && !(0.0 in keys && Trunc(a) < 0)
    ensures ScoreOrder(keys, scores) && !(c in ChosenScores(scores) <==> TopTwo(keys, c))
  {
    hide TopTwo, ScoreOrder, Trunc;
    var x;
    x, c := PickHarmful(keys, a, b);
    if t :| t in keys && Trunc(t) > Trunc(a) {
      hide TwoTruncAbove;
      OneBefore(keys, a, t);
      scores := OrderWithSecond(keys, t, x);
    } else {
      scores := OrderWithFirst(keys, x);
    }
  }

  /**
   Whatever order the sort picks, the reported scores are the top two ones, exactly when ties of
   integer parts are harmless.
   */
  lemma TopTwoReportedIff(keys: set<real>)
    ensures (forall scores, c :: ScoreOrder(keys, scores) ==> (c in ChosenScores(scores) <==> TopTwo(keys, c)))
       <==> TiesHarmless(keys)
  {
    if TiesHarmless(keys) {
      forall scores, c | ScoreOrder(keys, scores)
        ensures c in ChosenScores(scores) <==> TopTwo(keys, c)
      {
        if c in ChosenScores(scores) {
          ChosenThenTopTwo(keys, scores, c);
        }
        if TopTwo(keys, c) {
          TopTwoThenChosen(keys, scores, c);
        }
      }
    } else {
      var a, b :| a in keys && b in keys && a != b && Trunc(a) == Trunc(b)
        && !(TopTwo(keys, a) && TopTwo(keys, b)) && !TwoTruncAbove(keys, a) && !(0.0 in keys && Trunc(a) < 0);
      var scores, c := HarmfulOrder(keys, a, b);
    }
  }

  /** With scores 0.5 and 0 the positive one can go unreported. */
  lemma FractionHiddenByZero()
    ensures ScoreOrder({0.5, 0.0}, [0.0, 0.5]) && TopTwo({0.5, 0.0}, 0.5) && 0.5 !in ChosenScores([0.0, 0.5])
  {
  }

  // ----- what is reported -----

  datatype OwnerBid = OwnerBid(owner: string, bid: real)

  /** Where the reactor looks up an ad that was scored. */
  datatype BidLookup = BidLookup(
    adData: map<string, OwnerBid>,
    protectedAppSignalsAdData: map<string, OwnerBid>,
    adScores: map<string, AdScore>,
    sellerCurrency: string)
  {
    predicate Knows(id: string) {
      id in adData || id in protectedAppSignalsAdData
    }

    /** The buyer's bid, or what the seller made of it when the seller has a currency. */
    function Find(id: string): OwnerBid
      requires Knows(id)
    {
      var ad := if id in adData then adData[id] else protectedAppSignalsAdData[id];
      if sellerCurrency != "" && id in adScores then ad.(bid := adScores[id].incomingBidInSellerCurrency) else ad
    }
  }

  function WithBid(byOwner: map<string, seq<real>>, ad: OwnerBid): map<string, seq<real>> {
    byOwner[ad.owner := (if ad.owner in byOwner then byOwner[ad.owner] else []) + [ad.bid]]
  }

  function Without(list: seq<nat>, winner: int): (r: seq<nat>)
    ensures forall x :: x in r <==> x in list && x != winner
  {
    if list == [] then []
    else
      var last := list[|list| - 1];
      Without(list[..|list| - 1], winner) + if last == winner then [] else [last]
  }

  lemma {:induction false} WithoutIncreasing(list: seq<nat>, winner: int)
    requires Increasing(list)
    ensures Increasing(Without(list, winner))
  {
    if list != [] {
      var front, last := list[..|list| - 1], list[|list| - 1];
      WithoutIncreasing(front, winner);
      AppendIncreasing(Without(front, winner), last);
    }
  }

  ghost predicate InMap(scoreAdMap: map<real, seq<nat>>, chosen: seq<real>) {
    forall k :: 0 <= k < |chosen| ==> chosen[k] in scoreAdMap
  }

  /** The ads whose bids are reported: the chosen buckets without the winner. */
  ghost function ListedAds(scoreAdMap: map<real, seq<nat>>, chosen: seq<real>, winner: int): seq<nat>
    requires InMap(scoreAdMap, chosen)
  {
    if chosen == [] then []
    else
      var last := |chosen| - 1;
      ListedAds(scoreAdMap, chosen[..last], winner) + Without(scoreAdMap[chosen[last]], winner)
  }

  ghost predicate AllKnown(ads: seq<ScoredAdData>, lookup: BidLookup, listed: seq<nat>) {
    forall k :: 0 <= k < |listed| ==> listed[k] < |ads| && lookup.Knows(ads[listed[k]].id)
  }

  ghost function BidsOf(ads: seq<ScoredAdData>, lookup: BidLookup, listed: seq<nat>, owner: string): seq<real>
    requires AllKnown(ads, lookup, listed)
  {
    if listed == [] then []
    else
      var last := |listed| - 1;
      var ad := lookup.Find(ads[listed[last]].id);
      BidsOf(ads, lookup, listed[..last], owner) + if ad.owner == owner then [ad.bid] else []
  }

  function BidsIn(byOwner: map<string, seq<real>>, owner: string): seq<real> {
    if owner in byOwner then byOwner[owner] else []
  }

  /** The map holds, per owner and in order, the bids of exactly the listed ads of that owner. */
  ghost predicate Reports(
    ads: seq<ScoredAdData>, lookup: BidLookup, listed: seq<nat>, before: map<string, seq<real>>, after: map<string, seq<real>>)
  {
    && AllKnown(ads, lookup, listed)
    && forall owner :: BidsIn(after, owner) == BidsIn(before, owner) + BidsOf(ads, lookup, listed, owner)
  }

  // ----- which bid is reported for which ad -----

  /** The owner is that of the Protected Audience data if there is any, else of the Protected App Signals data. */
  ghost predicate OwnedBy(lookup: BidLookup, id: string, owner: string) {
    if id in lookup.adData then lookup.adData[id].owner == owner
    else id in lookup.protectedAppSignalsAdData && lookup.protectedAppSignalsAdData[id].owner == owner
  }

  /** The positions before `p` that list an ad of this owner. */
  ghost function Earlier(ads: seq<ScoredAdData>, lookup: BidLookup, listed: seq<nat>, p: nat, owner: string): set<nat>
    requires p <= |listed| && AllKnown(ads, lookup, listed)
  {
    set q: nat | q < p && OwnedBy(lookup, ads[listed[q]].id, owner)
  }

  lemma {:induction false} BidsOfCount(ads: seq<ScoredAdData>, lookup: BidLookup, listed: seq<nat>, p: nat, owner: string)
    requires AllKnown(ads, lookup, listed) && p <= |listed|
    ensures |BidsOf(ads, lookup, listed[..p], owner)| == |Earlier(ads, lookup, listed, p, owner)|
  {
    if p == 0 {
      assert Earlier(ads, lookup, listed, 0, owner) == {};
    } else {
      BidsOfCount(ads, lookup, listed, p - 1, owner);
      EarlierStep(ads, lookup, listed, p - 1, owner);
      hide Earlier, OwnedBy;
      assert listed[..p][..p - 1] == listed[..p - 1];
    }
  }

  lemma EarlierStep(ads: seq<ScoredAdData>, lookup: BidLookup, listed: seq<nat>, p: nat, owner: string)
    requires p < |listed| && AllKnown(ads, lookup, listed)
    ensures |Earlier(ads, lookup, listed, p + 1, owner)|
         == |Earlier(ads, lookup, listed, p, owner)| + if lookup.Find(ads[listed[p]].id).owner == owner then 1 else 0
  {
    var before := Earlier(ads, lookup, listed, p, owner);
    assert Earlier(ads, lookup, listed, p + 1, owner)
        == if OwnedBy(lookup, ads[listed[p]].id, owner) then before + {p} else before;
  }

  lemma {:induction false} BidsOfAt(ads: seq<ScoredAdData>, lookup: BidLookup, listed: seq<nat>, p: nat, owner: string)
    requires AllKnown(ads, lookup, listed) && p < |listed| && lookup.Find(ads[listed[p]].id).owner == owner
    ensures var k := |BidsOf(ads, lookup, listed[..p], owner)|;
            k < |BidsOf(ads, lookup, listed, owner)|
            && BidsOf(ads, lookup, listed, owner)[k] == lookup.Find(ads[listed[p]].id).bid
    decreases |listed|
  {
    var last := |listed| - 1;
    if p < last {
      BidsOfAt(ads, lookup, listed[..last], p, owner);
      assert listed[..last][..p] == listed[..p];
    }
  }

  /**
   For every listed ad its owner has one more bid, in the order of the list: the one in the data of the ad if the seller has no
   currency or no score was recorded, and otherwise the recorded incoming bid in the seller's currency.
   */
  lemma ReportedBids(
    ads: seq<ScoredAdData>, lookup: BidLookup, listed: seq<nat>, before: map<string, seq<real>>, after: map<string, seq<real>>, p: nat)
    requires Reports(ads, lookup, listed, before, after) && p < |listed|
    ensures
      var id := ads[listed[p]].id;
      var data := if id in lookup.adData then lookup.adData[id] else lookup.protectedAppSignalsAdData[id];
      var k := (if data.owner in before then |before[data.owner]| else 0) + |Earlier(ads, lookup, listed, p, data.owner)|;
      && data.owner in after && k < |after[data.owner]|
      && after[data.owner][k] ==
           if lookup.sellerCurrency == "" || id !in lookup.adScores then data.bid
           else lookup.adScores[id].incomingBidInSellerCurrency
  {
    var owner := lookup.Find(ads[listed[p]].id).owner;
    assert BidsIn(after, owner) == BidsIn(before, owner) + BidsOf(ads, lookup, listed, owner);
    BidsOfCount(ads, lookup, listed, p, owner);
    BidsOfAt(ads, lookup, listed, p, owner);
  }

  /** An owner keeps the bids it had and has one more for every listed ad that is its own. */
  lemma ReportedCount(
    ads: seq<ScoredAdData>, lookup: BidLookup, listed: seq<nat>, before: map<string, seq<real>>, after: map<string, seq<real>>,
    owner: string)
    requires Reports(ads, lookup, listed, before, after)
    ensures
      var had := if owner in before then before[owner] else [];
      var has := if owner in after then after[owner] else [];
      had <= has && |has| == |had| + |Earlier(ads, lookup, listed, |listed|, owner)|
  {
    assert BidsIn(after, owner) == BidsIn(before, owner) + BidsOf(ads, lookup, listed, owner);
    BidsOfCount(ads, lookup, listed, |listed|, owner);
    assert listed[..|listed|] == listed;
  }

  /** The bid reported for the listed ad at position `p`. */
  ghost predicate BidReported(
    ads: seq<ScoredAdData>, lookup: BidLookup, listed: seq<nat>, before: map<string, seq<real>>, after: map<string, seq<real>>,
    p: nat, bid: real)
    requires AllKnown(ads, lookup, listed) && p < |listed|
  {
    var id := ads[listed[p]].id;
    var owner := if id in lookup.adData then lookup.adData[id].owner else lookup.protectedAppSignalsAdData[id].owner;
    var k := (if owner in before then |before[owner]| else 0) + |Earlier(ads, lookup, listed, p, owner)|;
    owner in after && k < |after[owner]| && after[owner][k] == bid
  }

  /** An ad left in the auction has the incoming bid recorded for its id, when ids are unique. */
  lemma KeptIncomingBid(
    cfg: AuctionConfig, input: seq<ScoredAdData>, ranked: seq<ScoredAdData>, adScores: map<string, AdScore>, i: nat)
    requires multiset(ranked) == multiset(KeptAds(cfg, input)) && i < |ranked|
    requires Recorded(map[], adScores, multiset(input))
    requires forall j, k :: 0 <= j < k < |input| ==> input[j].id != input[k].id
    ensures ranked[i].id in adScores
    ensures adScores[ranked[i].id].incomingBidInSellerCurrency == ranked[i].adScore.incomingBidInSellerCurrency
  {
    assert ranked[i] in multiset(KeptAds(cfg, input));
    KeptAdsMember(cfg, input, ranked[i]);
    var ad :| ad in input && Judge(cfg, ad).Kept? && ranked[i] == Updated(cfg, ad);
    var k :| 0 <= k < |input| && input[k] == ad;
    RecordedUnique(adScores, input, k);
  }

  /** With a currency of the seller and unique ids, the bids reported are the incoming bids of the listed ads. */
  lemma IncomingBidsReported(
    cfg: AuctionConfig, input: seq<ScoredAdData>, ranked: seq<ScoredAdData>, ads: seq<ScoredAdData>, lookup: BidLookup, n: nat,
    listed: seq<nat>, before: map<string, seq<real>>, after: map<string, seq<real>>)
    requires multiset(ranked) == multiset(KeptAds(cfg, input)) && n == |ranked| <= |ads|
    requires Recorded(map[], lookup.adScores, multiset(input))
    requires forall j, k :: 0 <= j < k < |input| ==> input[j].id != input[k].id
    requires forall i :: 0 <= i < n ==> ads[i] == Scanned(ranked, i)
    requires forall i :: i in listed ==> i < n
    requires lookup.sellerCurrency != "" && Reports(ads, lookup, listed, before, after)
    ensures forall p :: 0 <= p < |listed| ==>
              BidReported(ads, lookup, listed, before, after, p, ads[listed[p]].adScore.incomingBidInSellerCurrency)
  {
    hide KeptAds, Recorded, Reports, Earlier;
    ReportsKnown(ads, lookup, listed, before, after);
    forall p | 0 <= p < |listed|
      ensures BidReported(ads, lookup, listed, before, after, p, ads[listed[p]].adScore.incomingBidInSellerCurrency)
    {
      assert listed[p] in listed;
      ReportedBids(ads, lookup, listed, before, after, p);
      KeptIncomingBid(cfg, input, ranked, lookup.adScores, listed[p]);
    }
  }

  /** Without a currency of the seller they are the bids in the data of the ads. */
  lemma BuyerBidsReported(
    ads: seq<ScoredAdData>, lookup: BidLookup, listed: seq<nat>, before: map<string, seq<real>>, after: map<string, seq<real>>)
    requires lookup.sellerCurrency == "" && Reports(ads, lookup, listed, before, after)
    ensures AllKnown(ads, lookup, listed)
    ensures forall p :: 0 <= p < |listed| ==>
              var id := ads[listed[p]].id;
              BidReported(ads, lookup, listed, before, after, p,
                          if id in lookup.adData then lookup.adData[id].bid else lookup.protectedAppSignalsAdData[id].bid)
  {
    hide Reports, Earlier;
    ReportsKnown(ads, lookup, listed, before, after);
    forall p | 0 <= p < |listed|
      ensures var id := ads[listed[p]].id;
              BidReported(ads, lookup, listed, before, after, p,
                          if id in lookup.adData then lookup.adData[id].bid else lookup.protectedAppSignalsAdData[id].bid)
    {
      ReportedBids(ads, lookup, listed, before, after, p);
    }
  }

  lemma ReportsKnown(
    ads: seq<ScoredAdData>, lookup: BidLookup, listed: seq<nat>, before: map<string, seq<real>>, after: map<string, seq<real>>)
    requires Reports(ads, lookup, listed, before, after)
    ensures AllKnown(ads, lookup, listed)
  {
  }

  /**
   Under the grouping of the auction, an ad is listed exactly when its score is chosen and it is
   neither the winner nor a ghost candidate.
   */
  lemma {:induction false} ListedIff(
    ads: seq<ScoredAdData>, n: nat, ghosts: seq<nat>, scoreAdMap: map<real, seq<nat>>, chosen: seq<real>, winner: int, i: nat)
    requires n <= |ads| && GroupedByScore(ads, n, ghosts, scoreAdMap) && InMap(scoreAdMap, chosen)
    ensures i in ListedAds(scoreAdMap, chosen, winner) <==>
            i < n && i !in ghosts && i != winner && ads[i].adScore.desirability in chosen
  {
    if chosen != [] {
      var last := |chosen| - 1;
      ListedIff(ads, n, ghosts, scoreAdMap, chosen[..last], winner, i);
      assert chosen == chosen[..last] + [chosen[last]];
      assert Bucket(ads, n, ghosts, chosen[last], scoreAdMap[chosen[last]]);
    }
  }

  ghost predicate NoDuplicates<T>(s: seq<T>) {
    forall p, q :: 0 <= p < q < |s| ==> s[p] != s[q]
  }

  lemma NoDuplicatesConcat<T>(a: seq<T>, b: seq<T>)
    requires NoDuplicates(a) && NoDuplicates(b) && forall x :: x in a ==> x !in b
    ensures NoDuplicates(a + b)
  {
    forall p, q | 0 <= p < q < |a + b|
      ensures (a + b)[p] != (a + b)[q]
    {
      if p < |a| <= q {
        assert a[p] in a && b[q - |a|] in b;
      }
    }
  }

  /** No ad is listed twice. */
  lemma {:induction false} ListedOnce(
    ads: seq<ScoredAdData>, n: nat, ghosts: seq<nat>, scoreAdMap: map<real, seq<nat>>, chosen: seq<real>, winner: int)
    requires n <= |ads| && GroupedByScore(ads, n, ghosts, scoreAdMap)
    requires InMap(scoreAdMap, chosen) && NoDuplicates(chosen)
    ensures NoDuplicates(ListedAds(scoreAdMap, chosen, winner))
  {
    if chosen != [] {
      var last := |chosen| - 1;
      ListedOnce(ads, n, ghosts, scoreAdMap, chosen[..last], winner);
      var bucket, front := scoreAdMap[chosen[last]], ListedAds(scoreAdMap, chosen[..last], winner);
      assert Bucket(ads, n, ghosts, chosen[last], bucket);
      WithoutIncreasing(bucket, winner);
      forall x | x in front
        ensures x !in Without(bucket, winner)
      {
        ListedIff(ads, n, ghosts, scoreAdMap, chosen[..last], winner, x);
      }
      NoDuplicatesConcat(front, Without(bucket, winner));
    }
  }

  class HighestScoringOtherBids {
    var byOwner: map<string, seq<real>>

    constructor ()
      ensures byOwner == map[]
    {
      byOwner := map[];
    }

    method UpdateHighestScoringOtherBidMap(bid: real, owner: string)
      modifies this
      ensures byOwner == WithBid(old(byOwner), OwnerBid(owner, bid))
    {
      if owner !in byOwner {
        byOwner := byOwner[owner := []];
      }
      byOwner := byOwner[owner := byOwner[owner] + [bid]];
    }

    /** Adds the bids of one score's ads, the winner excepted. */
    method AddBucket(bucket: seq<nat>, winner: int, ads: seq<ScoredAdData>, lookup: BidLookup,
                     ghost before: map<string, seq<real>>, ghost listed: seq<nat>)
      requires AllKnown(ads, lookup, bucket) && Reports(ads, lookup, listed, before, byOwner)
      modifies this
      ensures Reports(ads, lookup, listed + Without(bucket, winner), before, byOwner)
    {
      hide Reports;
      assert listed + Without(bucket[..0], winner) == listed;
      for k := 0 to |bucket|
        invariant Reports(ads, lookup, listed + Without(bucket[..k], winner), before, byOwner)
      {
        var current := bucket[k];
        WithoutNext(bucket, k, winner);
        if winner == current {
          assert Without(bucket[..k], winner) + [] == Without(bucket[..k], winner);
          continue;
        }
        var ad := lookup.Find(ads[current].id);
        ReportsStep(ads, lookup, listed + Without(bucket[..k], winner), current, before, byOwner);
        UpdateHighestScoringOtherBidMap(ad.bid, ad.owner);
        assert listed + (Without(bucket[..k], winner) + [current]) == listed + Without(bucket[..k], winner) + [current];
      }
      assert bucket[..|bucket|] == bucket;
    }

    /** Reports the other bids; `scores` is the order the sort happened to leave. */
    method PopulateHighestScoringOtherBidsData(
      scope: AuctionScope, winner: int, scoreAdMap: map<real, seq<nat>>, ads: seq<ScoredAdData>, lookup: BidLookup)
      returns (ghost scores: seq<real>)
      requires forall d :: d in scoreAdMap ==> AllKnown(ads, lookup, scoreAdMap[d])
      modifies this
      ensures ScoreOrder(scoreAdMap.Keys, scores) && InMap(scoreAdMap, ChosenScores(scores))
      ensures scope.ServerTopLevelSeller? ==> byOwner == old(byOwner)
      ensures !scope.ServerTopLevelSeller? ==>
                Reports(ads, lookup, ListedAds(scoreAdMap, ChosenScores(scores), winner), old(byOwner), byOwner)
    {
      hide Reports;
      var list := SortScores(scoreAdMap.Keys);
      scores := list;
      assert forall k :: 0 <= k < |list| ==> list[k] in list;
      if scope.ServerTopLevelSeller? {
        return;
      }
      ghost var chosen: seq<real> := [];
      ReportsStart(ads, lookup, byOwner);
      var i := 0;
      while i < 2 && i < |list|
        invariant 0 <= i <= 2 && i <= |list|
        invariant chosen == list[..i] && InMap(scoreAdMap, chosen) && forall k :: 0 <= k < i ==> list[k] != 0.0
        invariant Reports(ads, lookup, ListedAds(scoreAdMap, chosen, winner), old(byOwner), byOwner)
      {
        if list[i] == 0.0 {
          break;
        }
        AddBucket(scoreAdMap[list[i]], winner, ads, lookup, old(byOwner), ListedAds(scoreAdMap, chosen, winner));
        assert list[..i + 1][..i] == chosen;
        chosen := list[..i + 1];
        i := i + 1;
      }
      assert chosen == ChosenScores(scores);
    }
  }

  // ----- after an auction -----

  lemma ChosenOnce(keys: set<real>, scores: seq<real>)
    requires ScoreOrder(keys, scores)
    ensures NoDuplicates(ChosenScores(scores))
    ensures forall k :: 0 <= k < |ChosenScores(scores)| ==> ChosenScores(scores)[k] in keys
  {
  }

  /** Every ad left in the auction is one that came in, with its id. */
  lemma KeptIds(cfg: AuctionConfig, input: seq<ScoredAdData>, ranked: seq<ScoredAdData>, i: nat) returns (k: nat)
    requires multiset(ranked) == multiset(KeptAds(cfg, input)) && i < |ranked|
    ensures k < |input| && input[k].id == ranked[i].id
  {
    assert ranked[i] in multiset(KeptAds(cfg, input));
    KeptAdsMember(cfg, input, ranked[i]);
    var ad :| ad in input && Judge(cfg, ad).Kept? && ranked[i] == Updated(cfg, ad);
    k :| 0 <= k < |input| && input[k] == ad;
  }

  /** Ids of every bucket are known when the ids of all ads that came in are. */
  lemma BucketsKnown(
    cfg: AuctionConfig, input: seq<ScoredAdData>, ranked: seq<ScoredAdData>, ads: seq<ScoredAdData>, ghosts: seq<nat>,
    scoreAdMap: map<real, seq<nat>>, lookup: BidLookup)
    requires forall k :: 0 <= k < |input| ==> lookup.Knows(input[k].id)
    requires multiset(ranked) == multiset(KeptAds(cfg, input)) && |ranked| <= |ads|
    requires forall i :: 0 <= i < |ranked| ==> ads[i] == Scanned(ranked, i)
    requires GroupedByScore(ads, |ranked|, ghosts, scoreAdMap)
    ensures forall d :: d in scoreAdMap ==> AllKnown(ads, lookup, scoreAdMap[d])
  {
    hide KeptAds;
    forall d, j | d in scoreAdMap && 0 <= j < |scoreAdMap[d]|
      ensures scoreAdMap[d][j] < |ads| && lookup.Knows(ads[scoreAdMap[d][j]].id)
    {
      assert Bucket(ads, |ranked|, ghosts, d, scoreAdMap[d]);
      assert scoreAdMap[d][j] in scoreAdMap[d];
      var k := KeptIds(cfg, input, ranked, scoreAdMap[d][j]);
    }
  }

  /** What is reported with a winner, in terms of the auction. */
  ghost predicate ReportedWith(
    data: ScoringData, n: nat, ads: seq<ScoredAdData>, scores: seq<real>, listed: seq<nat>)
    reads data
  {
    && ScoreOrder(data.scoreAdMap.Keys, scores)
    && n <= |ads|
    && NoDuplicates(listed)
    && (forall i: nat :: i in listed <==>
          i < n && i !in data.ghostWinnerCandIndices && i != data.winnerIndex
          && ads[i].adScore.desirability in ChosenScores(scores))
  }

  /**
   An auction and the report of the other bids with its winner.  The bids are those of the ads that stayed in the
   auction with one of the chosen scores, each once, without the winner and the ghost candidates.  Ids of
   all scored ads can be looked up, as `DispatchRequests` shows of the ids that were dispatched.
   */
  method ScoreAdsCallback(
    reactor: ScoreAdsReactor, parsedAds: array<ScoredAdData>, adData: map<string, OwnerBid>,
    protectedAppSignalsAdData: map<string, OwnerBid>, otherBids: HighestScoringOtherBids)
    returns (data: ScoringData, end: nat, ghost scores: seq<real>, ghost listed: seq<nat>)
    requires forall k :: 0 <= k < parsedAds.Length ==> parsedAds[k].id in adData || parsedAds[k].id in protectedAppSignalsAdData
    modifies parsedAds, reactor`adScores, otherBids
    ensures data.winnerIndex == -1 || reactor.cfg.scope.ServerTopLevelSeller? ==> otherBids.byOwner == old(otherBids.byOwner)
    ensures data.winnerIndex != -1 && !reactor.cfg.scope.ServerTopLevelSeller? ==>
              && ReportedWith(data, end, parsedAds[..], scores, listed)
              && Reports(parsedAds[..], BidLookup(adData, protectedAppSignalsAdData, reactor.adScores, reactor.cfg.sellerCurrency),
                         listed, old(otherBids.byOwner), otherBids.byOwner)
    ensures
      var lookup := BidLookup(adData, protectedAppSignalsAdData, reactor.adScores, reactor.cfg.sellerCurrency);
      data.winnerIndex != -1 && !reactor.cfg.scope.ServerTopLevelSeller? && reactor.cfg.sellerCurrency == "" ==>
        AllKnown(parsedAds[..], lookup, listed) &&
        forall p :: 0 <= p < |listed| ==>
          var id := parsedAds[listed[p]].id;
          BidReported(parsedAds[..], lookup, listed, old(otherBids.byOwner), otherBids.byOwner, p,
                      if id in adData then adData[id].bid else protectedAppSignalsAdData[id].bid)
    ensures
      var lookup := BidLookup(adData, protectedAppSignalsAdData, reactor.adScores, reactor.cfg.sellerCurrency);
      data.winnerIndex != -1 && !reactor.cfg.scope.ServerTopLevelSeller? && reactor.cfg.sellerCurrency != ""
      && old(reactor.adScores) == map[]
      && (forall j, k :: 0 <= j < k < parsedAds.Length ==> old(parsedAds[j].id) != old(parsedAds[k].id)) ==>
        AllKnown(parsedAds[..], lookup, listed) &&
        forall p :: 0 <= p < |listed| ==>
          BidReported(parsedAds[..], lookup, listed, old(otherBids.byOwner), otherBids.byOwner, p,
                      parsedAds[listed[p]].adScore.incomingBidInSellerCurrency)
  {
    hide KeptAds, Reasons, GroupedByScore, GhostChoice, ListedAds, NoDuplicates, NotAllowedCount, Reports, Earlier;
    hide BidReported, Judge, Recorded, CandidatesUpTo, WinnerIsTop, GhostsBeatWinner, Ranked, ScoreOrder;
    ghost var input, ranked := parsedAds[..], [];
    data, end, ranked := reactor.FindWinningAd(parsedAds);
    scores, listed := [], [];
    if data.winnerIndex != -1 {
      var lookup := BidLookup(adData, protectedAppSignalsAdData, reactor.adScores, reactor.cfg.sellerCurrency);
      BucketsKnown(reactor.cfg, input, ranked, parsedAds[..], data.ghostWinnerCandIndices, data.scoreAdMap, lookup);
      scores := otherBids.PopulateHighestScoringOtherBidsData(
        reactor.cfg.scope, data.winnerIndex, data.scoreAdMap, parsedAds[..], lookup);
      ChosenOnce(data.scoreAdMap.Keys, scores);
      listed := ListedAds(data.scoreAdMap, ChosenScores(scores), data.winnerIndex);
      ListedOnce(parsedAds[..], end, data.ghostWinnerCandIndices, data.scoreAdMap, ChosenScores(scores), data.winnerIndex);
      forall i: nat
        ensures i in listed <==>
                i < end && i !in data.ghostWinnerCandIndices && i != data.winnerIndex
                && parsedAds[i].adScore.desirability in ChosenScores(scores)
      {
        ListedIff(parsedAds[..], end, data.ghostWinnerCandIndices, data.scoreAdMap, ChosenScores(scores), data.winnerIndex, i);
      }
      if !reactor.cfg.scope.ServerTopLevelSeller? {
        ReportsKnown(parsedAds[..], lookup, listed, old(otherBids.byOwner), otherBids.byOwner);
        if lookup.sellerCurrency == "" {
          BuyerBidsReported(parsedAds[..], lookup, listed, old(otherBids.byOwner), otherBids.byOwner);
        } else if old(reactor.adScores) == map[] && forall j, k :: 0 <= j < k < |input| ==> input[j].id != input[k].id {
          IncomingBidsReported(reactor.cfg, input, ranked, parsedAds[..], lookup, end, listed,
                               old(otherBids.byOwner), otherBids.byOwner);
        }
      }
    }
  }

  lemma WithoutNext(list: seq<nat>, i: nat, winner: int)
    requires i < |list|
    ensures Without(list[..i + 1], winner) == Without(list[..i], winner) + if list[i] == winner then [] else [list[i]]
  {
    assert list[..i + 1][..i] == list[..i];
  }

  lemma ReportsStart(ads: seq<ScoredAdData>, lookup: BidLookup, before: map<string, seq<real>>)
    ensures Reports(ads, lookup, [], before, before)
  {
  }

  lemma BidsInWithBid(byOwner: map<string, seq<real>>, ad: OwnerBid, owner: string)
    ensures BidsIn(WithBid(byOwner, ad), owner) == BidsIn(byOwner, owner) + if ad.owner == owner then [ad.bid] else []
  {
  }

  lemma ReportsStep(
    ads: seq<ScoredAdData>, lookup: BidLookup, listed: seq<nat>, current: nat,
    before: map<string, seq<real>>, after: map<string, seq<real>>)
    requires current < |ads| && lookup.Knows(ads[current].id)
    requires Reports(ads, lookup, listed, before, after)
    ensures Reports(ads, lookup, listed + [current], before, WithBid(after, lookup.Find(ads[current].id)))
  {
    hide BidsIn, WithBid;
    var ad := lookup.Find(ads[current].id);
    assert (listed + [current])[..|listed|] == listed;
    forall owner
      ensures BidsIn(WithBid(after, ad), owner) == BidsIn(before, owner) + BidsOf(ads, lookup, listed + [current], owner)
    {
      BidsInWithBid(after, ad, owner);
      var more := if ad.owner == owner then [ad.bid] else [];
      assert BidsOf(ads, lookup, listed + [current], owner) == BidsOf(ads, lookup, listed, owner) + more;
    }
  }
}
