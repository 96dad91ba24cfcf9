/**
 Which buyers a request is sent to, and how the replies are awaited
 (services/seller_frontend_service/select_ad_reactor.cc).

 Random choices (whether to chaff, how much, every shuffle) are arbitrary.
 */
module BuyerFanOut {
  import opened Results
  import opened TaskTracker
  import opened FanOutRuns

  const MIN_CHAFF_REQUESTS: nat := 1
  const MIN_CHAFF_REQUESTS_WITH_NO_REAL_REQUESTS: nat := 2
  const MAX_BUYERS_SOLICITED_CHAFFING_ENABLED: nat := 15

  datatype ChaffingConfig = ChaffingConfig(chaffRequestCandidates: seq<string>, numChaffRequests: nat, numRealRequests: nat)

  datatype InvokedBuyers = InvokedBuyers(chaffBuyerNames: seq<string>, nonChaffBuyerNames: seq<string>)

  datatype Request = Request(buyer: string, isChaff: bool)

  // ----- lists of buyers -----

  function Select(buyers: seq<string>, among: set<string>, except: set<string>): (selected: seq<string>)
    ensures forall b :: b in selected <==> b in buyers && b in among && b !in except
    ensures |selected| <= |buyers|
  {
    if buyers == [] then []
    else
      var last := |buyers| - 1;
      Select(buyers[..last], among, except) + if buyers[last] in among && buyers[last] !in except then [buyers[last]] else []
  }

  lemma SelectNext(buyers: seq<string>, among: set<string>, except: set<string>, k: nat)
    requires k < |buyers|
    ensures Select(buyers[..k + 1], among, except)
         == Select(buyers[..k], among, except) + if buyers[k] in among && buyers[k] !in except then [buyers[k]] else []
  {
    assert buyers[..k + 1][..k] == buyers[..k];
  }

  ghost predicate AllAmong(buyers: seq<string>, among: set<string>) {
    forall b :: b in buyers ==> b in among
  }

  lemma AllAmongNext(buyers: seq<string>, buyer: string, among: set<string>)
    ensures AllAmong(buyers + [buyer], among) <==> AllAmong(buyers, among) && buyer in among
  {
    assert buyer in buyers + [buyer];
  }

  lemma {:induction false} SelectAll(buyers: seq<string>, among: set<string>)
    ensures |Select(buyers, among, {})| == |buyers| <==> AllAmong(buyers, among)
    ensures AllAmong(buyers, among) ==> Select(buyers, among, {}) == buyers
  {
    if buyers != [] {
      hide AllAmong;
      var last := |buyers| - 1;
      SelectAll(buyers[..last], among);
      AllAmongNext(buyers[..last], buyers[last], among);
      assert buyers == buyers[..last] + [buyers[last]];
    } else {
      assert AllAmong([], among);
    }
  }

  function RequestsFor(buyers: seq<string>, isChaff: bool): (requests: seq<Request>)
    ensures |requests| == |buyers|
  {
    seq(|buyers|, i requires 0 <= i < |buyers| => Request(buyers[i], isChaff))
  }

  lemma RequestsForAppend(buyers: seq<string>, buyer: string, isChaff: bool)
    ensures RequestsFor(buyers + [buyer], isChaff) == RequestsFor(buyers, isChaff) + [Request(buyer, isChaff)]
  {
  }

  lemma RequestsForNext(buyers: seq<string>, k: nat, isChaff: bool)
    requires k < |buyers|
    ensures RequestsFor(buyers[..k + 1], isChaff) == RequestsFor(buyers[..k], isChaff) + [Request(buyers[k], isChaff)]
  {
    assert buyers[..k + 1] == buyers[..k] + [buyers[k]];
  }

  function NamesOf(requests: seq<Request>, isChaff: bool): seq<string> {
    if requests == [] then []
    else
      var last := requests[|requests| - 1];
      NamesOf(requests[..|requests| - 1], isChaff) + if last.isChaff == isChaff then [last.buyer] else []
  }

  lemma {:induction false} NamesOfConcat(a: seq<Request>, b: seq<Request>, isChaff: bool)
    ensures NamesOf(a + b, isChaff) == NamesOf(a, isChaff) + NamesOf(b, isChaff)
  {
    if b == [] {
      assert a + b == a;
    } else {
      var last := |b| - 1;
      assert (a + b)[..|a + b| - 1] == a + b[..last];
      NamesOfConcat(a, b[..last], isChaff);
    }
  }

  lemma {:induction false} NamesOfRequests(buyers: seq<string>, made: bool, isChaff: bool)
    ensures NamesOf(RequestsFor(buyers, made), isChaff) == if made == isChaff then buyers else []
  {
    if buyers != [] {
      var last := |buyers| - 1;
      assert RequestsFor(buyers, made)[..last] == RequestsFor(buyers[..last], made);
      NamesOfRequests(buyers[..last], made, isChaff);
      assert buyers == buyers[..last] + [buyers[last]];
    }
  }

  /** Shuffling requests does not change which buyers are chaff. */
  lemma {:induction false} NamesOfPermutation(a: seq<Request>, b: seq<Request>, isChaff: bool)
    requires multiset(a) == multiset(b)
    ensures multiset(NamesOf(a, isChaff)) == multiset(NamesOf(b, isChaff))
    decreases |a|
  {
    SameLength(a, b);
    if a != [] {
      hide NamesOf;
      var last := |a| - 1;
      var k := Position(a, b, last);
      RemovedSame(a, b, last, k);
      assert a[..last] + a[last + 1..] == a[..last];
      NamesOfPermutation(a[..last], b[..k] + b[k + 1..], isChaff);
      NamesOfSplit(a, last, isChaff);
      NamesOfSplit(b, k, isChaff);
      NamesOfConcat(b[..k], b[k + 1..], isChaff);
      NamesOfConcat(a[..last], a[last + 1..], isChaff);
    }
  }

  lemma Position<T>(a: seq<T>, b: seq<T>, i: nat) returns (k: nat)
    requires multiset(a) == multiset(b) && i < |a|
    ensures k < |b| && b[k] == a[i]
  {
    assert a[i] in multiset(b);
    k :| 0 <= k < |b| && b[k] == a[i];
  }

  lemma RemovedSame<T>(a: seq<T>, b: seq<T>, i: nat, k: nat)
    requires multiset(a) == multiset(b) && i < |a| && k < |b| && a[i] == b[k]
    ensures multiset(a[..i] + a[i + 1..]) == multiset(b[..k] + b[k + 1..])
  {
    RemoveAt(a, i);
    RemoveAt(b, k);
    Cancel(multiset(a[..i] + a[i + 1..]), multiset(b[..k] + b[k + 1..]), multiset{a[i]});
  }

  lemma Cancel<T>(a: multiset<T>, b: multiset<T>, x: multiset<T>)
    requires a + x == b + x
    ensures a == b
  {
    assert a == (a + x) - x && b == (b + x) - x;
  }

  lemma NamesOfSplit(s: seq<Request>, k: nat, isChaff: bool)
    requires k < |s|
    ensures NamesOf(s, isChaff)
         == NamesOf(s[..k], isChaff) + ((if s[k].isChaff == isChaff then [s[k].buyer] else []) + NamesOf(s[k + 1..], isChaff))
  {
    NamesOfOne(s[k], isChaff);
    hide NamesOf;
    assert s == s[..k] + ([s[k]] + s[k + 1..]);
    NamesOfConcat(s[..k], [s[k]] + s[k + 1..], isChaff);
    NamesOfConcat([s[k]], s[k + 1..], isChaff);
  }

  /** The names are those of the requests of the kind. */
  lemma {:induction false} NamesOfMember(requests: seq<Request>, isChaff: bool, b: string)
    ensures b in NamesOf(requests, isChaff) <==> Request(b, isChaff) in requests
  {
    if requests != [] {
      var last := |requests| - 1;
      NamesOfMember(requests[..last], isChaff, b);
      assert requests == requests[..last] + [requests[last]];
      assert requests[last] == Request(b, isChaff) <==> requests[last].isChaff == isChaff && requests[last].buyer == b;
    }
  }

  lemma {:induction false} ChaffCount(requests: seq<Request>)
    ensures |NamesOf(requests, true)| == |set p: nat | p < |requests| && requests[p].isChaff|
  {
    var chaff := set p: nat | p < |requests| && requests[p].isChaff;
    if requests == [] {
      assert chaff == {};
    } else {
      var last := |requests| - 1;
      ChaffCount(requests[..last]);
      var before := set p: nat | p < |requests[..last]| && requests[..last][p].isChaff;
      assert chaff == before + if requests[last].isChaff then {last} else {};
    }
  }

  lemma SelectedStep(buyers: seq<string>, among: set<string>, except: set<string>, last: nat)
    requires |buyers| == last + 1
    ensures |set p: nat | p < |buyers| && buyers[p] in among && buyers[p] !in except|
         == |set p: nat | p < |buyers[..last]| && buyers[..last][p] in among && buyers[..last][p] !in except|
            + (if buyers[last] in among && buyers[last] !in except then 1 else 0)
  {
    hide Select;
    var before := set p: nat | p < |buyers[..last]| && buyers[..last][p] in among && buyers[..last][p] !in except;
    assert (set p: nat | p < |buyers| && buyers[p] in among && buyers[p] !in except)
        == before + (if buyers[last] in among && buyers[last] !in except then {last} else {});
  }

  lemma {:induction false} SelectCount(buyers: seq<string>, among: set<string>, except: set<string>)
    ensures |Select(buyers, among, except)| == |set p: nat | p < |buyers| && buyers[p] in among && buyers[p] !in except|
  {
    var selected := set p: nat | p < |buyers| && buyers[p] in among && buyers[p] !in except;
    if buyers == [] {
      assert selected == {};
    } else {
      var last := |buyers| - 1;
      SelectCount(buyers[..last], among, except);
      hide Select;
      SelectedStep(buyers, among, except, last);
      SelectNext(buyers, among, except, last);
      assert buyers[..last + 1] == buyers;
    }
  }

  lemma NamesOfOne(request: Request, isChaff: bool)
    ensures NamesOf([request], isChaff) == if request.isChaff == isChaff then [request.buyer] else []
  {
    assert [request][..0] == [];
  }

  lemma RemoveAt<T>(s: seq<T>, k: nat)
    requires k < |s|
    ensures s == s[..k] + ([s[k]] + s[k + 1..])
    ensures multiset(s) == multiset(s[..k] + s[k + 1..]) + multiset{s[k]}
  {
    assert s == s[..k] + ([s[k]] + s[k + 1..]);
  }

  lemma SameLength<T>(a: seq<T>, b: seq<T>)
    requires multiset(a) == multiset(b)
    ensures |a| == |b|
  {
    assert |multiset(a)| == |a| && |multiset(b)| == |b|;
  }

  // ----- random choices -----

  /** Any permutation. */
  method Shuffle<T>(s: seq<T>) returns (t: seq<T>)
    ensures multiset(t) == multiset(s)
  {
    t := s;
    var i := 0;
    while i < |s|
      invariant 0 <= i <= |s| == |t|
      invariant multiset(t) == multiset(s)
    {
      var j: nat :| i <= j < |s|;
      ghost var before := t;
      t := t[i := t[j]][j := t[i]];
      SwapKeepsElements(before, i, j);
      i := i + 1;
    }
  }

  lemma SwapKeepsElements<T>(s: seq<T>, i: nat, j: nat)
    requires i <= j < |s|
    ensures multiset(s[i := s[j]][j := s[i]]) == multiset(s)
  {
    assert multiset(s[i := s[j]]) == multiset(s)[s[i] := multiset(s)[s[i]] - 1] + multiset{s[j]};
  }

  function Clamp(x: real): real {
    if x < 0.0 then 0.0 else if x > 1.0 then 1.0 else x
  }

  function Ceil(x: real): int {
    -((-x).Floor)
  }

  /** Scaling a count by a factor between zero and one and rounding up never exceeds the count. */
  lemma ScaledCount(n: nat, factor: real)
    ensures 0 <= Ceil(n as real * Clamp(factor)) <= n
    ensures factor > 0.0 && n > 0 ==> Ceil(n as real * Clamp(factor)) >= 1
    ensures 0.0 <= factor <= 1.0 ==>
              n as real * factor <= Ceil(n as real * Clamp(factor)) as real < n as real * factor + 1.0
    ensures factor > 1.0 ==> Ceil(n as real * Clamp(factor)) == n
  {
    var c := Clamp(factor);
    assert 0.0 <= n as real * c <= n as real;
    assert c > 0.0 && n > 0 ==> n as real * c > 0.0;
  }

  // ----- the reactor -----

  class SelectAdReactor {
    const entries: seq<string>
    const auctionConfigBuyers: set<string>
    const buyerInputs: set<string>
    const generationId: string
    const chaffingEnabled: bool
    const chaffingV2Enabled: bool
    const buyerCachingEnabled: bool
    const maxBuyersSolicited: nat
    const asyncTaskTracker: AsyncTaskTracker
    var previouslyInvokedBuyers: Option<InvokedBuyers>
    var invokedBuyersCache: map<string, InvokedBuyers>
    /** The buyers a bid was fetched from, in order. */
    var invoked: seq<Request>
    /** The calls of buyers that have not been answered. */
    var outstanding: nat
    /** Calls of `OnAllBidsDone` that did not go through the tracker. */
    var directDoneCalls: seq<bool>

    constructor (entries: seq<string>, auctionConfigBuyers: set<string>, buyerInputs: set<string>, generationId: string,
                 chaffingEnabled: bool, chaffingV2Enabled: bool, buyerCachingEnabled: bool, configuredMax: nat,
                 cache: map<string, InvokedBuyers>)
      ensures this.entries == entries && this.auctionConfigBuyers == auctionConfigBuyers && this.buyerInputs == buyerInputs
      ensures this.generationId == generationId && this.chaffingEnabled == chaffingEnabled
      ensures this.chaffingV2Enabled == chaffingV2Enabled && this.buyerCachingEnabled == buyerCachingEnabled
      ensures maxBuyersSolicited == if chaffingEnabled then 15 else configuredMax
      ensures invokedBuyersCache == cache && invoked == [] && outstanding == 0 && directDoneCalls == []
      ensures previouslyInvokedBuyers ==
              if buyerCachingEnabled && generationId in cache then Some(cache[generationId]) else None
      ensures fresh(asyncTaskTracker) && asyncTaskTracker.doneCalls == []
    {
      this.entries, this.auctionConfigBuyers, this.buyerInputs := entries, auctionConfigBuyers, buyerInputs;
      this.generationId, this.chaffingEnabled, this.chaffingV2Enabled := generationId, chaffingEnabled, chaffingV2Enabled;
      this.buyerCachingEnabled := buyerCachingEnabled;
      maxBuyersSolicited := if chaffingEnabled then MAX_BUYERS_SOLICITED_CHAFFING_ENABLED else configuredMax;
      asyncTaskTracker := new AsyncTaskTracker(0);
      previouslyInvokedBuyers := if buyerCachingEnabled && generationId in cache then Some(cache[generationId]) else None;
      invokedBuyersCache, invoked, outstanding, directDoneCalls := cache, [], 0, [];
    }

    predicate IsReplay()
      reads `previouslyInvokedBuyers
    {
      buyerCachingEnabled && previouslyInvokedBuyers.Some?
    }

    /** The configured buyers that are in the auction and in the request. */
    function RealBuyers(): seq<string> {
      Select(entries, auctionConfigBuyers * buyerInputs, {})
    }

    /** The configured buyers that are in the auction but not in the request. */
    function ChaffCandidates(): seq<string> {
      Select(entries, auctionConfigBuyers, buyerInputs)
    }

    /** At least one chaff request, and two when nobody real is asked, as far as there are candidates. */
    function FewestChaffRequests(candidates: nat, numReal: nat): nat {
      var wanted := if numReal == 0 then MIN_CHAFF_REQUESTS_WITH_NO_REAL_REQUESTS else MIN_CHAFF_REQUESTS;
      if candidates < wanted then candidates else wanted
    }

    /** The number of chaff requests of a request that is chaffed. */
    method ChooseNumChaffRequests(candidates: nat, numReal: nat) returns (n: nat)
      ensures n <= candidates
      ensures !chaffingV2Enabled ==> n >= FewestChaffRequests(candidates, numReal)
    {
      n := 0;
      if candidates > 0 {
        var lowerBound := if numReal == 0 then MIN_CHAFF_REQUESTS_WITH_NO_REAL_REQUESTS else MIN_CHAFF_REQUESTS;
        if candidates < lowerBound {
          lowerBound := candidates;
        }
        var uniform: nat :| lowerBound <= uniform <= candidates;
        n := uniform;
        if chaffingV2Enabled {
          var normal: real := *;
          ScaledCount(n, normal);
          n := Ceil(n as real * Clamp(normal));
        }
      }
    }

    /** What a chaffing configuration may be: the remembered buyers, or the real buyers and some chaff. */
    ghost predicate ConfigOf(c: ChaffingConfig)
      reads `previouslyInvokedBuyers
    {
      if IsReplay() then
        c == ChaffingConfig(previouslyInvokedBuyers.value.chaffBuyerNames, |previouslyInvokedBuyers.value.chaffBuyerNames|,
                            |previouslyInvokedBuyers.value.nonChaffBuyerNames|)
      else
        && c.numRealRequests == |RealBuyers()|
        && c.numChaffRequests <= |c.chaffRequestCandidates|
        && (c.chaffRequestCandidates == [] || multiset(c.chaffRequestCandidates) == multiset(ChaffCandidates()))
        && (c.chaffRequestCandidates != [] ==>
              && chaffingEnabled
              && (!chaffingV2Enabled ==> c.numChaffRequests >= FewestChaffRequests(|c.chaffRequestCandidates|, c.numRealRequests)))
    }

    method GetChaffingConfig() returns (c: ChaffingConfig)
      ensures ConfigOf(c)
    {
      if buyerCachingEnabled && previouslyInvokedBuyers.Some? {
        var p := previouslyInvokedBuyers.value;
        return ChaffingConfig(p.chaffBuyerNames, |p.chaffBuyerNames|, |p.nonChaffBuyerNames|);
      }
      var numReal := 0;
      var candidates: seq<string> := [];
      assert entries[..0] == [];
      for k := 0 to |entries|
        invariant numReal == |Select(entries[..k], auctionConfigBuyers * buyerInputs, {})|
        invariant candidates == Select(entries[..k], auctionConfigBuyers, buyerInputs)
      {
        SelectNext(entries, auctionConfigBuyers * buyerInputs, {}, k);
        SelectNext(entries, auctionConfigBuyers, buyerInputs, k);
        if entries[k] !in auctionConfigBuyers {
          assert candidates + [] == candidates;
          continue;
        }
        if entries[k] !in buyerInputs {
          candidates := candidates + [entries[k]];
        } else {
          assert candidates + [] == candidates;
          numReal := numReal + 1;
        }
      }
      assert entries[..|entries|] == entries;
      var shouldSkipChaffing: bool := *;
      if !chaffingEnabled || shouldSkipChaffing {
        return ChaffingConfig([], 0, numReal);
      }
      var numChaff := ChooseNumChaffRequests(|candidates|, numReal);
      var shuffled := Shuffle(candidates);
      SameLength(shuffled, candidates);
      return ChaffingConfig(shuffled, numChaff, numReal);
    }

    function GetEffectiveNumberOfBuyers(c: ChaffingConfig): nat {
      if chaffingEnabled then c.numRealRequests + c.numChaffRequests else c.numRealRequests
    }

    /** The buyers to be asked for bids; no chaff candidate can be one of them. */
    method GetNonChaffBuyerNames(c: ChaffingConfig) returns (names: seq<string>)
      requires forall b :: b in c.chaffRequestCandidates ==> b !in buyerInputs
      ensures names == RealBuyers()
    {
      names := [];
      assert entries[..0] == [];
      for k := 0 to |entries|
        invariant names == Select(entries[..k], auctionConfigBuyers * buyerInputs, {})
      {
        SelectNext(entries, auctionConfigBuyers * buyerInputs, {}, k);
        assert names + [] == names;
        if chaffingEnabled && entries[k] in c.chaffRequestCandidates {
          continue;
        }
        if entries[k] !in auctionConfigBuyers {
          continue;
        }
        if entries[k] !in buyerInputs {
          continue;
        }
        names := names + [entries[k]];
      }
      assert entries[..|entries|] == entries;
    }

    /** One request per non-chaff buyer with an input, and one for each of the first chaff buyers. */
    method BuildRequests(nonChaff: seq<string>, chaff: seq<string>, numChaff: nat) returns (requests: seq<Request>)
      requires numChaff <= |chaff|
      ensures requests == RequestsFor(Select(nonChaff, buyerInputs, {}), false) + RequestsFor(chaff[..numChaff], true)
    {
      hide RequestsFor;
      requests := BuildNonChaff(nonChaff);
      ghost var first := requests;
      assert first + RequestsFor(chaff[..0], true) == first by { assert |RequestsFor(chaff[..0], true)| == 0; }
      for k := 0 to |chaff|
        invariant requests == first + RequestsFor(chaff[..if k < numChaff then k else numChaff], true)
      {
        if k >= numChaff {
          break;
        }
        RequestsForNext(chaff, k, true);
        requests := requests + [Request(chaff[k], true)];
      }
    }

    method BuildNonChaff(nonChaff: seq<string>) returns (requests: seq<Request>)
      ensures requests == RequestsFor(Select(nonChaff, buyerInputs, {}), false)
    {
      hide RequestsFor;
      requests := [];
      assert nonChaff[..0] == [];
      for k := 0 to |nonChaff|
        invariant requests == RequestsFor(Select(nonChaff[..k], buyerInputs, {}), false)
      {
        SelectNext(nonChaff, buyerInputs, {}, k);
        ghost var selected := Select(nonChaff[..k], buyerInputs, {});
        assert selected + [] == selected;
        if nonChaff[k] !in buyerInputs {
          continue;
        }
        RequestsForAppend(selected, nonChaff[k], false);
        requests := requests + [Request(nonChaff[k], false)];
      }
      assert nonChaff[..|nonChaff|] == nonChaff;
    }

    /** The tracker and the unanswered calls are as after these events. */
    ghost predicate Follows(start: FanOut, events: seq<Event>)
      reads `outstanding, asyncTaskTracker
    {
      && Legal(start, events)
      && After(start, events).counts == asyncTaskTracker.State()
      && After(start, events).done == asyncTaskTracker.doneCalls
      && After(start, events).outstanding == outstanding
    }

    /**
     Any number of answers, with any status.  A call may be answered at once (no client, cancelled, the call
     failed) or by another thread at any time.
     */
    method ReceiveReplies(ghost start: FanOut, ghost requests: nat, ghost sofar: seq<Event>) returns (ghost events: seq<Event>)
      requires Inv(start, requests) && Follows(start, sofar)
      modifies `outstanding, asyncTaskTracker
      ensures Follows(start, events)
      ensures After(start, events).queue == After(start, sofar).queue && After(start, events).sent == After(start, sofar).sent
    {
      hide Inv, Legal, After;
      events := sofar;
      while outstanding > 0
        invariant Follows(start, events)
        invariant After(start, events).queue == After(start, sofar).queue && After(start, events).sent == After(start, sofar).sent
        decreases outstanding
      {
        var more: bool := *;
        if !more {
          break;
        }
        var status: TaskStatus :| !status.Unknown?;
        RunKeeps(start, requests, events);
        PendingOf(After(start, events), requests);
        RunAppend(start, events, Reply(status));
        outstanding := outstanding - 1;
        asyncTaskTracker.TaskCompleted(status);
        events := events + [Reply(status)];
      }
    }

    /** Sends the requests up to the cap and marks the others as skipped, while answers come in. */
    method SendRequests(requests: seq<Request>, ghost unaskable: nat) returns (ghost events: seq<Event>)
      requires invoked == [] && outstanding == 0
      requires asyncTaskTracker.State() == Fresh(|requests| + unaskable) && asyncTaskTracker.doneCalls == []
      modifies `invoked, `outstanding, asyncTaskTracker
      ensures invoked == Capped(requests)
      ensures Follows(Start(|requests|, unaskable, maxBuyersSolicited), events)
      ensures var t := After(Start(|requests|, unaskable, maxBuyersSolicited), events);
              t.queue == 0 && t.sent == |invoked|
    {
      hide Inv, Legal, After;
      ghost var start := Start(|requests|, unaskable, maxBuyersSolicited);
      StartInv(|requests|, unaskable, maxBuyersSolicited);
      events := [];
      var numSolicited: nat := 0;
      for k := 0 to |requests|
        invariant numSolicited == |invoked| && invoked == requests[..if k < maxBuyersSolicited then k else maxBuyersSolicited]
        invariant Follows(start, events)
        invariant After(start, events).queue == |requests| - k && After(start, events).sent == numSolicited
      {
        RunKeeps(start, |requests|, events);
        PendingOf(After(start, events), |requests|);
        RunAppend(start, events, Process);
        events := events + [Process];
        if numSolicited >= maxBuyersSolicited {
          asyncTaskTracker.TaskCompleted(Skipped);
          continue;
        }
        invoked := invoked + [requests[k]];
        outstanding := outstanding + 1;
        events := ReceiveReplies(start, |requests|, events);
        numSolicited := numSolicited + 1;
      }
    }

    function Capped(requests: seq<Request>): seq<Request> {
      requests[..if |requests| < maxBuyersSolicited then |requests| else maxBuyersSolicited]
    }

    /** The non-chaff buyers a bid is wanted from. */
    function Wanted(): seq<string>
      reads `previouslyInvokedBuyers
    {
      if IsReplay() then previouslyInvokedBuyers.value.nonChaffBuyerNames else RealBuyers()
    }

    /** The wanted buyers that cannot be asked because the request has no input for them. */
    function Unaskable(): nat
      reads `previouslyInvokedBuyers
    {
      |Wanted()| - |Select(Wanted(), buyerInputs, {})|
    }

    /** Whom the requests are for: in a fresh run the real buyers and some chaff, in a replay the remembered ones. */
    ghost predicate Planned(requests: seq<Request>)
      reads `previouslyInvokedBuyers
    {
      && multiset(NamesOf(requests, false)) == multiset(Select(Wanted(), buyerInputs, {}))
      && if IsReplay() then
           multiset(NamesOf(requests, true)) == multiset(previouslyInvokedBuyers.value.chaffBuyerNames)
         else
           && multiset(NamesOf(requests, true)) <= multiset(ChaffCandidates())
           && (!chaffingEnabled ==> NamesOf(requests, true) == [])
           && (!chaffingV2Enabled && NamesOf(requests, true) != [] ==>
                 |NamesOf(requests, true)| >= FewestChaffRequests(|ChaffCandidates()|, |RealBuyers()|))
    }

    /** The remembered chaff that is asked again although the tracker is not told of it: chaffing is off now. */
    function Surplus(): nat
      reads `previouslyInvokedBuyers
    {
      if IsReplay() && !chaffingEnabled then |previouslyInvokedBuyers.value.chaffBuyerNames| else 0
    }

    /** The tracker is told of enough tasks, or of none, in which case nobody is asked. */
    predicate TracksEnough()
      reads `previouslyInvokedBuyers
    {
      IsReplay() && previouslyInvokedBuyers.value.nonChaffBuyerNames != [] ==> Surplus() <= Unaskable()
    }

    /** Builds and shuffles the requests. */
    method PlanRequests(c: ChaffingConfig) returns (requests: seq<Request>)
      requires ConfigOf(c)
      ensures Planned(requests) && |requests| + Unaskable() == GetEffectiveNumberOfBuyers(c) + Surplus()
    {
      hide NamesOf, Select;
      var nonChaff, chaff: seq<string>;
      CandidatesHaveNoInput(c);
      if buyerCachingEnabled && previouslyInvokedBuyers.Some? {
        nonChaff := previouslyInvokedBuyers.value.nonChaffBuyerNames;
        chaff := previouslyInvokedBuyers.value.chaffBuyerNames;
      } else {
        nonChaff := GetNonChaffBuyerNames(c);
        chaff := c.chaffRequestCandidates;
      }
      requests := BuildRequests(nonChaff, chaff, c.numChaffRequests);
      BuiltNames(c, nonChaff, chaff, requests);
      if chaffingEnabled {
        ghost var built := requests;
        requests := Shuffle(requests);
        ShuffledNames(built, requests);
      }
    }

    /**
     Decides whom to ask and asks them.  The tracker waits for every request built and for every
     wanted buyer that could not be asked, except for surplus chaff; what it holds afterwards is what some run
     of sending and answering leaves when all requests have been processed; a fresh run remembers whom it asked.
     */
    method FetchBids() returns (ghost requests: seq<Request>, ghost tracked: nat, ghost events: seq<Event>)
      requires invoked == [] && outstanding == 0 && directDoneCalls == [] && asyncTaskTracker.doneCalls == []
      requires TracksEnough()
      modifies `invoked, `outstanding, `invokedBuyersCache, `directDoneCalls, asyncTaskTracker
      ensures invoked == Capped(requests)
      ensures invoked <= requests && |invoked| == if |requests| < maxBuyersSolicited then |requests| else maxBuyersSolicited
      ensures if tracked == 0 then requests == []
              else Planned(requests) && tracked + Surplus() == |requests| + Unaskable()
      ensures tracked == 0 && Surplus() == 0 ==> Planned(requests) && Unaskable() == 0
      ensures tracked == 0 && Surplus() > 0 ==> Wanted() == []
      ensures |requests| <= tracked
      ensures Follows(Start(|requests|, tracked - |requests|, maxBuyersSolicited), events)
      ensures After(Start(|requests|, tracked - |requests|, maxBuyersSolicited), events).queue == 0
      ensures directDoneCalls == if tracked == 0 then [true] else []
      ensures invokedBuyersCache ==
              if buyerCachingEnabled && !IsReplay() && requests != []
              then old(invokedBuyersCache)[generationId := Remembered(invoked)]
              else old(invokedBuyersCache)
    {
      hide Planned, NamesOf, Select;
      var c := GetChaffingConfig();
      var effective := GetEffectiveNumberOfBuyers(c);
      asyncTaskTracker.SetNumTasksToTrack(effective);
      tracked, events := effective, [];
      if effective == 0 {
        requests := [];
        NothingToSend(c);
        directDoneCalls := directDoneCalls + [true];
      } else {
        var built := PlanRequests(c);
        requests := built;
        EveryoneAskable();
        WantedCount(c);
        events := SendRequests(built, effective - |built|);
        if buyerCachingEnabled && previouslyInvokedBuyers.None? {
          invokedBuyersCache := invokedBuyersCache[generationId := Remembered(invoked)];
        }
      }
    }

    /**
     Who is asked.  In a fresh run a real request goes to exactly the configured buyers that are in the auction and have an
     input, and chaff only to configured buyers in the auction without one.  In a replay a real request goes to exactly the
     remembered real buyers that have an input, and chaff to exactly the remembered chaff buyers.
     */
    lemma WhoIsAsked(requests: seq<Request>, b: string)
      requires Planned(requests)
      ensures !(buyerCachingEnabled && previouslyInvokedBuyers.Some?) ==>
                && (Request(b, false) in requests <==> b in entries && b in auctionConfigBuyers && b in buyerInputs)
                && (Request(b, true) in requests ==>
                    chaffingEnabled && b in entries && b in auctionConfigBuyers && b !in buyerInputs)
      ensures buyerCachingEnabled && previouslyInvokedBuyers.Some? ==>
                && (Request(b, false) in requests <==> b in previouslyInvokedBuyers.value.nonChaffBuyerNames && b in buyerInputs)
                && (Request(b, true) in requests <==> b in previouslyInvokedBuyers.value.chaffBuyerNames)
    {
      NamesOfMember(requests, false, b);
      NamesOfMember(requests, true, b);
      hide NamesOf, Select;
      SameMember(NamesOf(requests, false), Select(Wanted(), buyerInputs, {}), b);
      if IsReplay() {
        SameMember(NamesOf(requests, true), previouslyInvokedBuyers.value.chaffBuyerNames, b);
      } else {
        assert b in NamesOf(requests, true) ==> b in multiset(NamesOf(requests, true)) && b in multiset(ChaffCandidates());
      }
    }

    /**
     How much chaff: without the second version of chaffing, a fresh run that sends chaff sends at least two requests of it if
     no buyer is real and at least one otherwise, or one to every candidate if there are fewer.
     */
    lemma EnoughChaff(requests: seq<Request>)
      requires Planned(requests) && !(buyerCachingEnabled && previouslyInvokedBuyers.Some?) && !chaffingV2Enabled
      ensures
        var chaff := set p: nat | p < |requests| && requests[p].isChaff;
        var candidates := set p: nat | p < |entries| && entries[p] in auctionConfigBuyers && entries[p] !in buyerInputs;
        var fewest := if exists b :: b in entries && b in auctionConfigBuyers && b in buyerInputs then 1 else 2;
        chaff != {} ==> |chaff| >= fewest || |chaff| >= |candidates|
    {
      ChaffCount(requests);
      SelectCount(entries, auctionConfigBuyers, buyerInputs);
      hide NamesOf, Select;
      var names := NamesOf(requests, true);
      assert |names| > 0 ==> names != [];
      if RealBuyers() != [] {
        assert RealBuyers()[0] in RealBuyers();
      }
    }

    lemma NothingToSend(c: ChaffingConfig)
      requires ConfigOf(c) && GetEffectiveNumberOfBuyers(c) == 0
      ensures Wanted() == [] && Unaskable() == 0
      ensures Surplus() == 0 ==> Planned([])
    {
    }

    lemma WantedCount(c: ChaffingConfig)
      requires ConfigOf(c) && GetEffectiveNumberOfBuyers(c) > 0
      ensures Surplus() > 0 ==> Wanted() != []
    {
    }

    /**
     In a replay that asks anybody, some run of sending and answering completes a task when none is pending exactly
     when the surplus chaff outnumbers the wanted buyers that cannot be asked.
     */
    lemma TrackerUnderflowsIff(requests: seq<Request>, c: ChaffingConfig)
      requires IsReplay() && previouslyInvokedBuyers.value.nonChaffBuyerNames != [] && ConfigOf(c) && Planned(requests)
      ensures var start := StartTracking(|requests|, GetEffectiveNumberOfBuyers(c), maxBuyersSolicited);
              (exists events :: Legal(start, events) && After(start, events).underflow) <==> !TracksEnough()
    {
      hide NamesOf, Select;
      var chaff, left := previouslyInvokedBuyers.value.chaffBuyerNames, Select(Wanted(), buyerInputs, {});
      NamesCount(requests);
      SameLength(NamesOf(requests, true), chaff);
      SameLength(NamesOf(requests, false), left);
      UnderflowReachableIff(|requests|, GetEffectiveNumberOfBuyers(c), maxBuyersSolicited);
    }

    /** Only a replay can miss an input, and it misses none iff every remembered buyer still has one. */
    lemma EveryoneAskable()
      ensures !IsReplay() ==> Unaskable() == 0
      ensures Unaskable() == 0 <==> forall b :: b in Wanted() ==> b in buyerInputs
    {
      SelectAll(Wanted(), buyerInputs);
    }

    lemma CandidatesHaveNoInput(c: ChaffingConfig)
      requires ConfigOf(c)
      ensures !IsReplay() ==> forall b :: b in c.chaffRequestCandidates ==> b in ChaffCandidates() && b !in buyerInputs
    {
      forall b | !IsReplay() && b in c.chaffRequestCandidates
        ensures b in ChaffCandidates()
      {
        assert b in multiset(c.chaffRequestCandidates);
      }
    }

    /** The buyers of the requests built, and how many there are. */
    lemma BuiltNames(c: ChaffingConfig, nonChaff: seq<string>, chaff: seq<string>, built: seq<Request>)
      requires ConfigOf(c) && c.numChaffRequests <= |chaff|
      requires nonChaff == Wanted()
      requires chaff == if IsReplay() then previouslyInvokedBuyers.value.chaffBuyerNames else c.chaffRequestCandidates
      requires built == RequestsFor(Select(nonChaff, buyerInputs, {}), false) + RequestsFor(chaff[..c.numChaffRequests], true)
      ensures Planned(built) && |built| + Unaskable() == GetEffectiveNumberOfBuyers(c) + Surplus()
    {
      hide Select, NamesOf, RequestsFor;
      EveryoneAskable();
      var asked, fake := Select(nonChaff, buyerInputs, {}), chaff[..c.numChaffRequests];
      NamesOfBuilt(asked, fake);
      if chaff != [] && !IsReplay() {
        SameLength(chaff, ChaffCandidates());
      }
      assert chaff[..|chaff|] == chaff;
      assert chaff == fake + chaff[c.numChaffRequests..];
    }
  }

  lemma SameMember<T>(a: seq<T>, b: seq<T>, x: T)
    requires multiset(a) == multiset(b)
    ensures x in a <==> x in b
  {
    assert x in a <==> x in multiset(a);
    assert x in b <==> x in multiset(b);
  }

  /** Exactly the buyers that were asked are remembered, chaff as chaff and real as real. */
  lemma RememberedBuyers(invoked: seq<Request>, b: string)
    ensures b in Remembered(invoked).chaffBuyerNames <==> Request(b, true) in invoked
    ensures b in Remembered(invoked).nonChaffBuyerNames <==> Request(b, false) in invoked
  {
    NamesOfMember(invoked, true, b);
    NamesOfMember(invoked, false, b);
  }

  function Remembered(invoked: seq<Request>): InvokedBuyers {
    InvokedBuyers(NamesOf(invoked, true), NamesOf(invoked, false))
  }

  lemma NamesOfBuilt(asked: seq<string>, fake: seq<string>)
    ensures NamesOf(RequestsFor(asked, false) + RequestsFor(fake, true), false) == asked
    ensures NamesOf(RequestsFor(asked, false) + RequestsFor(fake, true), true) == fake
    ensures |RequestsFor(asked, false) + RequestsFor(fake, true)| == |asked| + |fake|
  {
    hide NamesOf;
    NamesOfConcat(RequestsFor(asked, false), RequestsFor(fake, true), false);
    NamesOfConcat(RequestsFor(asked, false), RequestsFor(fake, true), true);
    NamesOfRequests(asked, false, false);
    NamesOfRequests(asked, false, true);
    NamesOfRequests(fake, true, false);
    NamesOfRequests(fake, true, true);
  }

  function CountIn<T(==)>(s: seq<T>, x: T): nat {
    if s == [] then 0 else CountIn(s[..|s| - 1], x) + if s[|s| - 1] == x then 1 else 0
  }

  lemma {:induction false} CountIsMultiplicity<T>(s: seq<T>, x: T)
    ensures multiset(s)[x] == CountIn(s, x)
  {
    if s != [] {
      CountIsMultiplicity(s[..|s| - 1], x);
      assert s == s[..|s| - 1] + [s[|s| - 1]];
    }
  }

  lemma CountInAppend<T>(s: seq<T>, x: T, y: T)
    ensures CountIn(s + [x], y) == CountIn(s, y) + if x == y then 1 else 0
  {
    assert (s + [x])[..|s|] == s;
  }

  lemma NamesOfAppend(s: seq<Request>, r: Request, isChaff: bool)
    ensures NamesOf(s + [r], isChaff) == if r.isChaff == isChaff then NamesOf(s, isChaff) + [r.buyer] else NamesOf(s, isChaff)
  {
    assert (s + [r])[..|s|] == s && NamesOf(s, isChaff) + [] == NamesOf(s, isChaff);
  }

  lemma {:induction false} NamesCountRequests(s: seq<Request>, r: Request)
    ensures CountIn(s, r) == CountIn(NamesOf(s, r.isChaff), r.buyer)
  {
    if s != [] {
      hide CountIn, NamesOf;
      var front, last := s[..|s| - 1], s[|s| - 1];
      assert s == front + [last];
      NamesCountRequests(front, r);
      NamesOfAppend(front, last, r.isChaff);
      CountInAppend(front, last, r);
      CountInAppend(NamesOf(front, r.isChaff), last.buyer, r.buyer);
      assert last == r <==> last.isChaff == r.isChaff && last.buyer == r.buyer;
    }
  }

  lemma {:induction false} SameNamesSameRequests(a: seq<Request>, b: seq<Request>)
    requires multiset(NamesOf(a, true)) == multiset(NamesOf(b, true))
    requires multiset(NamesOf(a, false)) == multiset(NamesOf(b, false))
    ensures multiset(a) == multiset(b) && |a| == |b|
  {
    forall r: Request
      ensures multiset(a)[r] == multiset(b)[r]
    {
      NamesCountRequests(a, r);
      NamesCountRequests(b, r);
      CountIsMultiplicity(a, r);
      CountIsMultiplicity(b, r);
      CountIsMultiplicity(NamesOf(a, r.isChaff), r.buyer);
      CountIsMultiplicity(NamesOf(b, r.isChaff), r.buyer);
    }
    SameLength(a, b);
  }

  /**
   A request served again contacts exactly the buyers the first run contacted, chaff as chaff and real as
   real, exactly when the buyers asked still have an input; then it skips none of them and is awaited in full.
   While the setting for chaffing stays the same there is no surplus.
   */
  lemma {:induction false} ReplayStable(
    initial: SelectAdReactor, again: SelectAdReactor, planned: seq<Request>, replayed: seq<Request>)
    requires !initial.IsReplay() && initial.Planned(planned)
    requires again.IsReplay() && again.previouslyInvokedBuyers.value == Remembered(initial.Capped(planned))
    requires again.maxBuyersSolicited == initial.maxBuyersSolicited
    requires again.Planned(replayed)
    ensures (forall b :: b in NamesOf(initial.Capped(planned), false) ==> b in again.buyerInputs) <==>
            again.Unaskable() == 0
    ensures multiset(replayed) == multiset(initial.Capped(planned)) <==> again.Unaskable() == 0
    ensures again.Capped(replayed) == replayed
    ensures again.chaffingEnabled == initial.chaffingEnabled ==> again.Surplus() == 0 && again.TracksEnough()
  {
    hide NamesOf, Select;
    var asked := initial.Capped(planned);
    again.EveryoneAskable();
    SelectAll(again.Wanted(), again.buyerInputs);
    SameRequestsIff(replayed, asked, Select(again.Wanted(), again.buyerInputs, {}));
    assert planned == asked + planned[|asked|..];
    NamesOfConcat(asked, planned[|asked|..], true);
  }

  /** With the same chaff, the requests are the same exactly when there are as many real ones. */
  lemma {:induction false} SameRequestsIff(replayed: seq<Request>, asked: seq<Request>, left: seq<string>)
    requires multiset(NamesOf(replayed, true)) == multiset(NamesOf(asked, true))
    requires multiset(NamesOf(replayed, false)) == multiset(left) && |left| <= |NamesOf(asked, false)|
    requires |left| == |NamesOf(asked, false)| ==> left == NamesOf(asked, false)
    ensures multiset(replayed) == multiset(asked) <==> |left| == |NamesOf(asked, false)|
    ensures |replayed| <= |asked|
  {
    hide NamesOf;
    NamesCount(asked);
    NamesCount(replayed);
    SameLength(NamesOf(replayed, false), left);
    SameLength(NamesOf(replayed, true), NamesOf(asked, true));
    if |left| == |NamesOf(asked, false)| {
      SameNamesSameRequests(replayed, asked);
    }
    if multiset(replayed) == multiset(asked) {
      NamesOfPermutation(replayed, asked, false);
      SameLength(NamesOf(replayed, false), NamesOf(asked, false));
    }
  }

  /** Each request is to a chaff or to a non-chaff buyer. */
  lemma {:induction false} NamesCount(requests: seq<Request>)
    ensures |NamesOf(requests, true)| + |NamesOf(requests, false)| == |requests|
  {
    if requests != [] {
      NamesCount(requests[..|requests| - 1]);
    }
  }

  /** A replay whose only remembered buyer has lost its input: nobody is asked, and the final callback never runs. */
  lemma ReplayWithoutInputWaits(again: SelectAdReactor, requests: seq<Request>, events: seq<Event>)
    requires again.IsReplay() && again.previouslyInvokedBuyers.value == InvokedBuyers([], ["buyer"])
    requires "buyer" !in again.buyerInputs && again.Planned(requests)
    ensures requests == [] && again.Unaskable() == 1
    ensures Legal(Start(|requests|, 1, again.maxBuyersSolicited), events) ==>
              After(Start(|requests|, 1, again.maxBuyersSolicited), events).done == []
  {
    assert ["buyer"][..0] == [];
    assert Select(["buyer"], again.buyerInputs, {}) == [];
    NamesCount(requests);
    SameLength(NamesOf(requests, false), []);
    SameLength(NamesOf(requests, true), []);
    if Legal(Start(|requests|, 1, again.maxBuyersSolicited), events) {
      CallbackOnce(|requests|, 1, again.maxBuyersSolicited, events);
    }
  }

  lemma {:induction false} ShuffledNames(built: seq<Request>, shuffled: seq<Request>)
    requires multiset(shuffled) == multiset(built)
    ensures |shuffled| == |built|
    ensures multiset(NamesOf(shuffled, false)) == multiset(NamesOf(built, false))
    ensures multiset(NamesOf(shuffled, true)) == multiset(NamesOf(built, true))
    ensures |NamesOf(shuffled, true)| == |NamesOf(built, true)|
  {
    SameLength(shuffled, built);
    NamesOfPermutation(shuffled, built, false);
    NamesOfPermutation(shuffled, built, true);
    SameLength(NamesOf(shuffled, true), NamesOf(built, true));
  }
}
