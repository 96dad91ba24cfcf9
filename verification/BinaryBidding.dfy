/**
 Bookkeeping of the executions of the bidding code, one per interest group
 (services/bidding_service/generate_bids_binary_reactor.cc).

 Executions are arbitrary inputs; times are in milliseconds.
 */
module BinaryBidding {
  import opened Results
  import opened RunningMean
  import opened TaskTracker

  datatype AdWithBid = AdWithBid(render: string, bid: real, allowComponentAuction: bool)

  /** `initialized` tells whether the execution returned a response at all. */
  datatype Response =
    | Ok(executionMs: int, waitMs: int, initialized: bool, bids: seq<AdWithBid>)
    | Unavailable
    | DeadlineExceeded
    | CancelledExecution
    | Failed

  datatype Settings = Settings(batchStartTimeoutMs: Option<int>, multiBidLimit: nat, deviceComponentAuction: bool)

  datatype Stats = Stats(
    total: nat, timeoutExecuted: nat, timeoutWaiting: nat, success: nat, error: nat, maxQueueMs: int, avgExecutionMs: int)

  datatype FinishStatus = OK | RequestCancelled | Internal | ResourceExhausted

  function Max(a: int, b: int): int {
    if a > b then a else b
  }

  // ----- one response -----

  function StatusOf(cfg: Settings, r: Response): TaskStatus {
    match r
    case Ok(_, _, initialized, bids) =>
      if !initialized || bids == [] then EmptyResponse
      else if |bids| > cfg.multiBidLimit then Error
      else TaskStatus.Success
    case DeadlineExceeded => Skipped
    case Unavailable => Cancelled
    case CancelledExecution => Cancelled
    case Failed => Error
  }

  /** Bids are a success if there are any, within the limit; more than that are an error, and nothing is kept of them. */
  lemma StatusMeaning(cfg: Settings, r: Response)
    ensures StatusOf(cfg, r).Success? <==> r.Ok? && r.initialized && 0 < |r.bids| <= cfg.multiBidLimit
    ensures StatusOf(cfg, r).EmptyResponse? <==> r.Ok? && (!r.initialized || |r.bids| == 0)
    ensures StatusOf(cfg, r).Error? <==> r.Failed? || (r.Ok? && r.initialized && |r.bids| > cfg.multiBidLimit && |r.bids| > 0)
    ensures StatusOf(cfg, r).Skipped? <==> r.DeadlineExceeded?
    ensures StatusOf(cfg, r).Cancelled? <==> r.Unavailable? || r.CancelledExecution?
    ensures BidsOf(cfg, r) == if r.Ok? && r.initialized && |r.bids| <= cfg.multiBidLimit then r.bids else []
  {
  }

  function Account(cfg: Settings, s: Stats, r: Response): Stats {
    match r
    case Ok(executionMs, waitMs, _, _) =>
      s.(success := s.success + 1,
         avgExecutionMs := Moved(s.avgExecutionMs, executionMs, s.success + 1),
         maxQueueMs := Max(s.maxQueueMs, waitMs))
    case DeadlineExceeded =>
      s.(timeoutWaiting := s.timeoutWaiting + 1,
         maxQueueMs := if cfg.batchStartTimeoutMs.Some? then Max(s.maxQueueMs, cfg.batchStartTimeoutMs.value) else s.maxQueueMs)
    case Unavailable => s.(timeoutExecuted := s.timeoutExecuted + 1)
    case CancelledExecution => s.(timeoutExecuted := s.timeoutExecuted + 1)
    case Failed => s.(error := s.error + 1)
  }

  /** The bids stored for an interest group. */
  function BidsOf(cfg: Settings, r: Response): seq<AdWithBid> {
    if StatusOf(cfg, r).Success? then r.bids else []
  }

  // ----- all responses -----

  function AccountAll(cfg: Settings, s: Stats, rs: seq<Response>): Stats {
    if rs == [] then s else Account(cfg, AccountAll(cfg, s, rs[..|rs| - 1]), rs[|rs| - 1])
  }

  function ExecutionTimes(rs: seq<Response>): seq<int> {
    if rs == [] then []
    else
      var last := rs[|rs| - 1];
      ExecutionTimes(rs[..|rs| - 1]) + if last.Ok? then [last.executionMs] else []
  }

  function Processed(s: Stats): nat {
    s.timeoutExecuted + s.timeoutWaiting + s.success + s.error
  }

  function DeadlineCount(rs: seq<Response>): nat {
    if rs == [] then 0 else DeadlineCount(rs[..|rs| - 1]) + if rs[|rs| - 1].DeadlineExceeded? then 1 else 0
  }

  /** Nothing processed yet; two of the fields start out with any value. */
  function Initial(total: nat, maxQueueMs: int, avgExecutionMs: int): Stats {
    Stats(total, 0, 0, 0, 0, maxQueueMs, avgExecutionMs)
  }

  /** Every response is counted once, and the average is the running mean of the successful ones. */
  lemma {:induction false} StatsOfRun(cfg: Settings, s: Stats, rs: seq<Response>)
    requires s == Initial(s.total, s.maxQueueMs, s.avgExecutionMs)
    ensures var t := AccountAll(cfg, s, rs);
            && t.total == s.total
            && Processed(t) == |rs|
            && t.timeoutWaiting == DeadlineCount(rs)
            && t.success == |ExecutionTimes(rs)|
            && t.avgExecutionMs == Average(s.avgExecutionMs, ExecutionTimes(rs))
  {
    if rs != [] {
      hide Moved, Average;
      var last := |rs| - 1;
      StatsOfRun(cfg, s, rs[..last]);
      if rs[last].Ok? {
        Step(s.avgExecutionMs, ExecutionTimes(rs[..last]), rs[last].executionMs);
      } else {
        assert ExecutionTimes(rs) == ExecutionTimes(rs[..last]);
      }
    }
  }

  /** Each counter counts the responses of its kind. */
  lemma {:induction false} CountersOfRun(cfg: Settings, s: Stats, rs: seq<Response>)
    requires s == Initial(s.total, s.maxQueueMs, s.avgExecutionMs)
    ensures var t := AccountAll(cfg, s, rs);
            && t.success == |set i: nat | i < |rs| && rs[i].Ok?|
            && t.timeoutWaiting == |set i: nat | i < |rs| && rs[i].DeadlineExceeded?|
            && t.timeoutExecuted == |set i: nat | i < |rs| && (rs[i].Unavailable? || rs[i].CancelledExecution?)|
            && t.error == |set i: nat | i < |rs| && rs[i].Failed?|
  {
    var oks, deadlines := set i: nat | i < |rs| && rs[i].Ok?, set i: nat | i < |rs| && rs[i].DeadlineExceeded?;
    var timeouts := set i: nat | i < |rs| && (rs[i].Unavailable? || rs[i].CancelledExecution?);
    var failures := set i: nat | i < |rs| && rs[i].Failed?;
    if rs == [] {
      assert oks == {} && deadlines == {} && timeouts == {} && failures == {};
    } else {
      var last := |rs| - 1;
      CountersOfRun(cfg, s, rs[..last]);
      OkStep(rs, last);
      DeadlineStep(rs, last);
      TimeoutStep(rs, last);
      FailedStep(rs, last);
    }
  }

  lemma OkStep(rs: seq<Response>, last: nat)
    requires |rs| == last + 1
    ensures |set i: nat | i < |rs| && rs[i].Ok?|
         == |set i: nat | i < |rs[..last]| && rs[..last][i].Ok?| + (if rs[last].Ok? then 1 else 0)
  {
    var before := set i: nat | i < |rs[..last]| && rs[..last][i].Ok?;
    assert (set i: nat | i < |rs| && rs[i].Ok?) == before + (if rs[last].Ok? then {last} else {});
  }

  lemma DeadlineStep(rs: seq<Response>, last: nat)
    requires |rs| == last + 1
    ensures |set i: nat | i < |rs| && rs[i].DeadlineExceeded?|
         == |set i: nat | i < |rs[..last]| && rs[..last][i].DeadlineExceeded?| + (if rs[last].DeadlineExceeded? then 1 else 0)
  {
    var before := set i: nat | i < |rs[..last]| && rs[..last][i].DeadlineExceeded?;
    assert (set i: nat | i < |rs| && rs[i].DeadlineExceeded?) == before + (if rs[last].DeadlineExceeded? then {last} else {});
  }

  lemma TimeoutStep(rs: seq<Response>, last: nat)
    requires |rs| == last + 1
    ensures |set i: nat | i < |rs| && (rs[i].Unavailable? || rs[i].CancelledExecution?)|
         == |set i: nat | i < |rs[..last]| && (rs[..last][i].Unavailable? || rs[..last][i].CancelledExecution?)| + (if rs[last].Unavailable? || rs[last].CancelledExecution? then 1 else 0)
  {
    var before := set i: nat | i < |rs[..last]| && (rs[..last][i].Unavailable? || rs[..last][i].CancelledExecution?);
    assert (set i: nat | i < |rs| && (rs[i].Unavailable? || rs[i].CancelledExecution?)) == before + (if rs[last].Unavailable? || rs[last].CancelledExecution? then {last} else {});
  }

  lemma FailedStep(rs: seq<Response>, last: nat)
    requires |rs| == last + 1
    ensures |set i: nat | i < |rs| && rs[i].Failed?|
         == |set i: nat | i < |rs[..last]| && rs[..last][i].Failed?| + (if rs[last].Failed? then 1 else 0)
  {
    var before := set i: nat | i < |rs[..last]| && rs[..last][i].Failed?;
    assert (set i: nat | i < |rs| && rs[i].Failed?) == before + (if rs[last].Failed? then {last} else {});
  }

  /** An execution waited this long at least: until it started, or until it had missed its start deadline. */
  ghost predicate Waited(cfg: Settings, r: Response, ms: int) {
    || (r.Ok? && r.waitMs == ms)
    || (r.DeadlineExceeded? && cfg.batchStartTimeoutMs.Some? && cfg.batchStartTimeoutMs.value == ms)
  }

  /** The reported queue time is the greatest wait, or the value it started out with if that is greater. */
  lemma {:induction false} QueueTimeOfRun(cfg: Settings, s: Stats, rs: seq<Response>)
    ensures var t := AccountAll(cfg, s, rs);
            && t.maxQueueMs >= s.maxQueueMs
            && (forall i :: 0 <= i < |rs| && rs[i].Ok? ==> t.maxQueueMs >= rs[i].waitMs)
            && (forall i :: 0 <= i < |rs| && rs[i].DeadlineExceeded? && cfg.batchStartTimeoutMs.Some? ==>
                  t.maxQueueMs >= cfg.batchStartTimeoutMs.value)
            && (t.maxQueueMs == s.maxQueueMs || exists i :: 0 <= i < |rs| && Waited(cfg, rs[i], t.maxQueueMs))
  {
    if rs != [] {
      hide Moved;
      var last := |rs| - 1;
      QueueTimeOfRun(cfg, s, rs[..last]);
      assert forall i :: 0 <= i < last ==> rs[..last][i] == rs[i];
      var u := AccountAll(cfg, s, rs[..last]);
      if u.maxQueueMs != s.maxQueueMs {
        var i :| 0 <= i < last && Waited(cfg, rs[..last][i], u.maxQueueMs);
        assert Waited(cfg, rs[i], u.maxQueueMs);
      }
      assert AccountAll(cfg, s, rs).maxQueueMs == u.maxQueueMs || Waited(cfg, rs[last], AccountAll(cfg, s, rs).maxQueueMs);
    }
  }

  /** The reported average lies between the extreme execution times, and is near their mean. */
  lemma {:induction false} AverageOfRun(cfg: Settings, s: Stats, rs: seq<Response>, lo: int, hi: int)
    requires s == Initial(s.total, s.maxQueueMs, s.avgExecutionMs)
    requires forall i :: 0 <= i < |rs| && rs[i].Ok? ==> lo <= rs[i].executionMs <= hi
    requires exists i :: 0 <= i < |rs| && rs[i].Ok?
    ensures var t := AccountAll(cfg, s, rs);
            && lo <= t.avgExecutionMs <= hi
            && -(t.success * (t.success - 1)) <= 2 * (t.success * t.avgExecutionMs - Sum(ExecutionTimes(rs)))
            && 2 * (t.success * t.avgExecutionMs - Sum(ExecutionTimes(rs))) <= t.success * (t.success - 1)
  {
    StatsOfRun(cfg, s, rs);
    TimesBetween(rs, lo, hi);
    AverageBetween(s.avgExecutionMs, ExecutionTimes(rs), lo, hi);
    AverageError(s.avgExecutionMs, ExecutionTimes(rs));
  }

  lemma {:induction false} TimesBetween(rs: seq<Response>, lo: int, hi: int)
    requires forall i :: 0 <= i < |rs| && rs[i].Ok? ==> lo <= rs[i].executionMs <= hi
    ensures forall i :: 0 <= i < |ExecutionTimes(rs)| ==> lo <= ExecutionTimes(rs)[i] <= hi
    ensures (exists i :: 0 <= i < |rs| && rs[i].Ok?) ==> ExecutionTimes(rs) != []
  {
    if rs != [] {
      var last := |rs| - 1;
      assert forall i :: 0 <= i < last ==> rs[..last][i] == rs[i];
      TimesBetween(rs[..last], lo, hi);
    }
  }

  // ----- the final response -----

  datatype Validity = Valid | ZeroBid | NotAllowedInComponent

  function Validate(cfg: Settings, bid: AdWithBid): Validity {
    if bid.bid == 0.0 then ZeroBid
    else if cfg.deviceComponentAuction && !bid.allowComponentAuction then NotAllowedInComponent
    else Valid
  }

  /** The number of bids with a verdict. */
  function CountOf(cfg: Settings, bids: seq<AdWithBid>, v: Validity): nat {
    if bids == [] then 0
    else CountOf(cfg, bids[..|bids| - 1], v) + if Validate(cfg, bids[|bids| - 1]) == v then 1 else 0
  }

  function ValidBids(cfg: Settings, bids: seq<AdWithBid>): seq<AdWithBid> {
    if bids == [] then []
    else ValidBids(cfg, bids[..|bids| - 1]) + if Validate(cfg, bids[|bids| - 1]).Valid? then [bids[|bids| - 1]] else []
  }

  function Flatten(groups: seq<seq<AdWithBid>>): seq<AdWithBid> {
    if groups == [] then [] else Flatten(groups[..|groups| - 1]) + groups[|groups| - 1]
  }

  lemma ValidBidsNext(cfg: Settings, bids: seq<AdWithBid>, bid: AdWithBid)
    ensures ValidBids(cfg, bids + [bid]) == ValidBids(cfg, bids) + if Validate(cfg, bid).Valid? then [bid] else []
    ensures forall v :: CountOf(cfg, bids + [bid], v) == CountOf(cfg, bids, v) + if Validate(cfg, bid) == v then 1 else 0
  {
    assert (bids + [bid])[..|bids|] == bids;
  }

  lemma NoBids(cfg: Settings)
    ensures ValidBids(cfg, []) == [] && forall v :: CountOf(cfg, [], v) == 0
  {
  }

  /** Every bid is sent or counted as dropped for one reason. */
  lemma {:induction false} EveryBidCounted(cfg: Settings, bids: seq<AdWithBid>)
    ensures |bids| == CountOf(cfg, bids, ZeroBid) + CountOf(cfg, bids, NotAllowedInComponent) + |ValidBids(cfg, bids)|
  {
    if bids != [] {
      EveryBidCounted(cfg, bids[..|bids| - 1]);
    }
  }

  /** What is sent is exactly the bids that are not zero and are allowed, in order. */
  lemma {:induction false} SentIff(cfg: Settings, bids: seq<AdWithBid>, bid: AdWithBid)
    ensures multiset(ValidBids(cfg, bids))[bid] ==
            if bid.bid != 0.0 && (cfg.deviceComponentAuction ==> bid.allowComponentAuction) then multiset(bids)[bid] else 0
  {
    if bids != [] {
      SentIff(cfg, bids[..|bids| - 1], bid);
      assert bids == bids[..|bids| - 1] + [bids[|bids| - 1]];
    }
  }

  /** Bids are sent in the order in which they were stored: whatever is sent of two lists, one after the other. */
  lemma {:induction false} SentInOrder(cfg: Settings, a: seq<AdWithBid>, b: seq<AdWithBid>)
    ensures ValidBids(cfg, a + b) == ValidBids(cfg, a) + ValidBids(cfg, b)
  {
    if b == [] {
      assert a + b == a && ValidBids(cfg, a) + [] == ValidBids(cfg, a);
    } else {
      hide Validate, ValidBids;
      var last := |b| - 1;
      var more := if Validate(cfg, b[last]).Valid? then [b[last]] else [];
      SentInOrder(cfg, a, b[..last]);
      ValidBidsNext(cfg, a + b[..last], b[last]);
      ValidBidsNext(cfg, b[..last], b[last]);
      assert a + b == (a + b[..last]) + [b[last]] && b == b[..last] + [b[last]];
      assert (ValidBids(cfg, a) + ValidBids(cfg, b[..last])) + more == ValidBids(cfg, a) + (ValidBids(cfg, b[..last]) + more);
    }
  }

  /** Of one bid: that bid, unless it is zero or not allowed. */
  lemma SentOfOne(cfg: Settings, bid: AdWithBid)
    ensures ValidBids(cfg, [bid]) ==
              if bid.bid != 0.0 && (cfg.deviceComponentAuction ==> bid.allowComponentAuction) then [bid] else []
  {
    ValidBidsNext(cfg, [], bid);
    NoBids(cfg);
    assert [] + [bid] == [bid];
  }

  /** The groups are sent one after the other. */
  lemma {:induction false} FlattenInOrder(a: seq<seq<AdWithBid>>, b: seq<seq<AdWithBid>>)
    ensures Flatten(a + b) == Flatten(a) + Flatten(b)
    ensures |a| == 1 ==> Flatten(a) == a[0]
  {
    if b == [] {
      assert a + b == a && Flatten(a) + [] == Flatten(a);
    } else {
      var last := |b| - 1;
      assert (a + b)[..|a| + last] == a + b[..last];
      FlattenInOrder(a, b[..last]);
    }
    if |a| == 1 {
      assert a[..0] == [] && Flatten([]) + a[0] == a[0];
    }
  }

  /** Every group contributes its bids. */
  lemma {:induction false} FlattenMember(groups: seq<seq<AdWithBid>>, bid: AdWithBid)
    ensures bid in Flatten(groups) <==> exists g :: 0 <= g < |groups| && bid in groups[g]
  {
    if groups != [] {
      var last := |groups| - 1;
      FlattenMember(groups[..last], bid);
      if g :| 0 <= g < last && bid in groups[..last][g] {
        assert bid in groups[g];
      }
      if g :| 0 <= g < |groups| && bid in groups[g] {
        assert g < last ==> bid in groups[..last][g];
      }
    }
  }

  lemma ValidMember(cfg: Settings, bids: seq<AdWithBid>, bid: AdWithBid)
    ensures bid in ValidBids(cfg, bids) <==>
              bid in bids && bid.bid != 0.0 && (cfg.deviceComponentAuction ==> bid.allowComponentAuction)
  {
    SentIff(cfg, bids, bid);
    assert bid in ValidBids(cfg, bids) <==> multiset(ValidBids(cfg, bids))[bid] > 0;
    assert bid in bids <==> multiset(bids)[bid] > 0;
  }

  /** A bid is sent iff it was stored, is not zero and is allowed. */
  lemma SentMembers(cfg: Settings, groups: seq<seq<AdWithBid>>)
    ensures forall bid :: bid in ValidBids(cfg, Flatten(groups)) <==>
              && bid.bid != 0.0 && (cfg.deviceComponentAuction ==> bid.allowComponentAuction)
              && exists g :: 0 <= g < |groups| && bid in groups[g]
  {
    forall bid
      ensures bid in ValidBids(cfg, Flatten(groups)) <==>
                && bid.bid != 0.0 && (cfg.deviceComponentAuction ==> bid.allowComponentAuction)
                && exists g :: 0 <= g < |groups| && bid in groups[g]
    {
      FlattenMember(groups, bid);
      ValidMember(cfg, Flatten(groups), bid);
    }
  }

  lemma SentAfter(cfg: Settings, before: seq<AdWithBid>, groups: seq<seq<AdWithBid>>)
    ensures forall bid :: bid in before + ValidBids(cfg, Flatten(groups)) <==>
              || bid in before
              || (bid.bid != 0.0 && (cfg.deviceComponentAuction ==> bid.allowComponentAuction)
                  && exists g :: 0 <= g < |groups| && bid in groups[g])
  {
    SentMembers(cfg, groups);
    hide ValidBids, Flatten;
  }

  /** Zero bids are counted as such, whether or not they are allowed. */
  lemma {:induction false} DroppedIff(cfg: Settings, bids: seq<AdWithBid>)
    ensures CountOf(cfg, bids, ZeroBid) == |set i: nat | i < |bids| && bids[i].bid == 0.0|
    ensures !cfg.deviceComponentAuction ==> CountOf(cfg, bids, NotAllowedInComponent) == 0
  {
    var zeros := set i: nat | i < |bids| && bids[i].bid == 0.0;
    if bids == [] {
      assert zeros == {};
    } else {
      var last := |bids| - 1;
      DroppedIff(cfg, bids[..last]);
      var before := set i: nat | i < last && bids[..last][i].bid == 0.0;
      assert zeros == before + if bids[last].bid == 0.0 then {last} else {};
    }
  }

  /** How the request ends. */
  function Outcome(s: Stats, anySuccessful: bool, cancelled: bool): FinishStatus {
    if s.timeoutWaiting == s.total && !anySuccessful then ResourceExhausted
    else if !anySuccessful then Internal
    else if cancelled then RequestCancelled
    else OK
  }

  class GenerateBidsBinaryReactor {
    const cfg: Settings
    var total: nat
    var timeoutExecuted: nat
    var timeoutWaiting: nat
    var successExecuted: nat
    var errorExecuted: nat
    var maxQueueTimeMs: int
    var avgExecutionTimeMs: int
    var adsWithBidsByIg: seq<seq<AdWithBid>>
    var rawResponse: seq<AdWithBid>
    var finished: seq<FinishStatus>

    function UdfStats(): Stats
      reads this
    {
      Stats(total, timeoutExecuted, timeoutWaiting, successExecuted, errorExecuted, maxQueueTimeMs, avgExecutionTimeMs)
    }

    /** The source leaves the two times uninitialised. */
    constructor (cfg: Settings, igCount: nat, maxQueueTimeMs: int, avgExecutionTimeMs: int)
      ensures this.cfg == cfg && UdfStats() == Initial(igCount, maxQueueTimeMs, avgExecutionTimeMs)
      ensures adsWithBidsByIg == seq(igCount, _ => []) && rawResponse == [] && finished == []
    {
      this.cfg, total := cfg, igCount;
      timeoutExecuted, timeoutWaiting, successExecuted, errorExecuted := 0, 0, 0, 0;
      this.maxQueueTimeMs, this.avgExecutionTimeMs := maxQueueTimeMs, avgExecutionTimeMs;
      adsWithBidsByIg, rawResponse, finished := seq(igCount, _ => []), [], [];
    }

    method ProcessResponse(response: Response, igIndex: nat) returns (status: TaskStatus)
      requires igIndex < |adsWithBidsByIg|
      modifies this
      ensures status.Success? <==> response.Ok? && response.initialized && 0 < |response.bids| <= cfg.multiBidLimit
      ensures response.Ok? && response.initialized && |response.bids| > cfg.multiBidLimit ==> status.Error? || |response.bids| == 0
      ensures status == StatusOf(cfg, response)
      ensures UdfStats() == Account(cfg, old(UdfStats()), response)
      ensures adsWithBidsByIg ==
              if status.Success? then old(adsWithBidsByIg)[igIndex := response.bids] else old(adsWithBidsByIg)
      ensures rawResponse == old(rawResponse) && finished == old(finished)
    {
      var r := if response.Unavailable? then CancelledExecution else response;
      if !r.Ok? {
        status := ProcessError(r);
        return;
      }
      successExecuted := successExecuted + 1;
      avgExecutionTimeMs := avgExecutionTimeMs + TruncDiv(r.executionMs - avgExecutionTimeMs, successExecuted);
      maxQueueTimeMs := Max(maxQueueTimeMs, r.waitMs);
      if !r.initialized {
        return EmptyResponse;
      }
      if |r.bids| == 0 {
        return EmptyResponse;
      }
      if |r.bids| > cfg.multiBidLimit {
        return Error;
      }
      adsWithBidsByIg := adsWithBidsByIg[igIndex := r.bids];
      return TaskStatus.Success;
    }

    method ProcessError(r: Response) returns (status: TaskStatus)
      requires !r.Ok? && !r.Unavailable?
      modifies this
      ensures status == StatusOf(cfg, r)
      ensures UdfStats() == Account(cfg, old(UdfStats()), r)
      ensures adsWithBidsByIg == old(adsWithBidsByIg) && rawResponse == old(rawResponse) && finished == old(finished)
    {
      if r.DeadlineExceeded? {
        timeoutWaiting := timeoutWaiting + 1;
        if cfg.batchStartTimeoutMs.Some? {
          maxQueueTimeMs := Max(maxQueueTimeMs, cfg.batchStartTimeoutMs.value);
        }
        status := Skipped;
      } else if r.CancelledExecution? {
        timeoutExecuted := timeoutExecuted + 1;
        status := Cancelled;
      } else {
        errorExecuted := errorExecuted + 1;
        status := Error;
      }
    }

    /** Collects the valid bids; the counters are what is reported as metrics. */
    method CollectBids() returns (received: nat, zero: nat, rejected: nat)
      modifies `rawResponse
      ensures rawResponse == old(rawResponse) + ValidBids(cfg, Flatten(adsWithBidsByIg))
      ensures received == |Flatten(adsWithBidsByIg)|
      ensures received == zero + rejected + |rawResponse| - |old(rawResponse)|
      ensures zero == CountOf(cfg, Flatten(adsWithBidsByIg), ZeroBid)
      ensures rejected == CountOf(cfg, Flatten(adsWithBidsByIg), NotAllowedInComponent)
    {
      hide ValidBids, CountOf;
      received, zero, rejected := 0, 0, 0;
      NoBids(cfg);
      ghost var seen: seq<AdWithBid> := [];
      assert adsWithBidsByIg[..0] == [];
      for g := 0 to |adsWithBidsByIg|
        invariant seen == Flatten(adsWithBidsByIg[..g]) && received == |seen|
        invariant rawResponse == old(rawResponse) + ValidBids(cfg, seen)
        invariant zero == CountOf(cfg, seen, ZeroBid) && rejected == CountOf(cfg, seen, NotAllowedInComponent)
      {
        var group := adsWithBidsByIg[g];
        ghost var before := seen;
        assert adsWithBidsByIg[..g + 1][..g] == adsWithBidsByIg[..g];
        assert before + group[..0] == before;
        for i := 0 to |group|
          invariant seen == before + group[..i] && received == |seen|
          invariant rawResponse == old(rawResponse) + ValidBids(cfg, seen)
          invariant zero == CountOf(cfg, seen, ZeroBid) && rejected == CountOf(cfg, seen, NotAllowedInComponent)
        {
          received := received + 1;
          ValidBidsNext(cfg, seen, group[i]);
          assert before + group[..i + 1] == seen + [group[i]];
          seen := seen + [group[i]];
          match Validate(cfg, group[i]) {
            case ZeroBid => zero := zero + 1;
            case NotAllowedInComponent => rejected := rejected + 1;
            case Valid => rawResponse := rawResponse + [group[i]];
          }
        }
        assert group[..|group|] == group;
      }
      assert adsWithBidsByIg[..|adsWithBidsByIg|] == adsWithBidsByIg;
      EveryBidCounted(cfg, seen);
    }

    method OnAllBidsDone(anySuccessfulBids: bool, cancelled: bool)
      modifies `rawResponse, `finished
      ensures finished == old(finished) + [
                if !anySuccessfulBids then (if timeoutWaiting == total then ResourceExhausted else Internal)
                else if cancelled then RequestCancelled else OK]
      ensures anySuccessfulBids && !cancelled ==>
                forall bid :: bid in rawResponse <==>
                  || bid in old(rawResponse)
                  || (bid.bid != 0.0 && (cfg.deviceComponentAuction ==> bid.allowComponentAuction)
                      && exists g :: 0 <= g < |adsWithBidsByIg| && bid in adsWithBidsByIg[g])
      ensures finished == old(finished) + [Outcome(UdfStats(), anySuccessfulBids, cancelled)]
      ensures rawResponse ==
              if Outcome(UdfStats(), anySuccessfulBids, cancelled).OK?
              then old(rawResponse) + ValidBids(cfg, Flatten(adsWithBidsByIg)) else old(rawResponse)
    {
      hide ValidBids, Flatten;
      if timeoutWaiting == total && !anySuccessfulBids {
        finished := finished + [ResourceExhausted];
      } else if !anySuccessfulBids {
        finished := finished + [Internal];
      } else if cancelled {
        finished := finished + [RequestCancelled];
      } else {
        var received, zero, rejected := CollectBids();
        SentAfter(cfg, old(rawResponse), adsWithBidsByIg);
        finished := finished + [OK];
      }
    }

    /** The batch mode: all responses come in one call, one per interest group. */
    method OnBatchDone(responses: seq<Response>, cancelled: bool)
      requires |responses| == |adsWithBidsByIg| && adsWithBidsByIg == seq(|responses|, _ => [])
      requires rawResponse == [] && finished == []
      modifies this
      ensures UdfStats() == AccountAll(cfg, old(UdfStats()), responses)
      ensures old(UdfStats()) == Initial(|responses|, old(maxQueueTimeMs), old(avgExecutionTimeMs)) ==>
                finished == [
                  if forall i :: 0 <= i < |responses| ==> responses[i].DeadlineExceeded? then ResourceExhausted
                  else if forall i :: 0 <= i < |responses| ==> !responses[i].Ok? then Internal
                  else if cancelled then RequestCancelled else OK]
      ensures |adsWithBidsByIg| == |responses|
      ensures forall i :: 0 <= i < |responses| ==>
                adsWithBidsByIg[i] ==
                  if responses[i].Ok? && responses[i].initialized && |responses[i].bids| <= cfg.multiBidLimit then responses[i].bids
                  else []
      ensures finished == [Outcome(UdfStats(), UdfStats().success > 0, cancelled)]
      ensures |adsWithBidsByIg| == |responses| && forall i :: 0 <= i < |responses| ==> adsWithBidsByIg[i] == BidsOf(cfg, responses[i])
      ensures rawResponse == if finished == [OK] then ValidBids(cfg, Flatten(adsWithBidsByIg)) else []
    {
      hide Outcome, Account, AccountAll, StatusOf, BidsOf, Moved, ValidBids, Flatten;
      StoredBids(cfg, responses);
      ProcessResponses(responses);
      OnAllBidsDone(successExecuted > 0, cancelled);
      if old(UdfStats()) == Initial(|responses|, old(maxQueueTimeMs), old(avgExecutionTimeMs)) {
        BatchOutcomeIff(cfg, old(UdfStats()), responses, cancelled);
      }
    }

    /** Takes the responses one after the other. */
    method ProcessResponses(responses: seq<Response>)
      requires |responses| == |adsWithBidsByIg| && adsWithBidsByIg == seq(|responses|, _ => [])
      modifies this
      ensures UdfStats() == AccountAll(cfg, old(UdfStats()), responses)
      ensures |adsWithBidsByIg| == |responses| && forall i :: 0 <= i < |responses| ==> adsWithBidsByIg[i] == BidsOf(cfg, responses[i])
      ensures rawResponse == old(rawResponse) && finished == old(finished)
    {
      hide Account, AccountAll, StatusOf, Moved;
      NothingAccounted(cfg, UdfStats());
      assert responses[..0] == [];
      for k := 0 to |responses|
        invariant UdfStats() == AccountAll(cfg, old(UdfStats()), responses[..k])
        invariant |adsWithBidsByIg| == |responses| && rawResponse == old(rawResponse) && finished == old(finished)
        invariant forall i :: 0 <= i < |responses| ==> adsWithBidsByIg[i] == if i < k then BidsOf(cfg, responses[i]) else []
      {
        AccountNext(cfg, old(UdfStats()), responses, k);
        StatusMeaning(cfg, responses[k]);
        var _ := ProcessResponse(responses[k], k);
      }
      assert responses[..|responses|] == responses;
    }
  }

  lemma NothingAccounted(cfg: Settings, s: Stats)
    ensures AccountAll(cfg, s, []) == s
  {
  }

  lemma AccountNext(cfg: Settings, s: Stats, rs: seq<Response>, k: nat)
    requires k < |rs|
    ensures AccountAll(cfg, s, rs[..k + 1]) == Account(cfg, AccountAll(cfg, s, rs[..k]), rs[k])
  {
    assert rs[..k + 1][..k] == rs[..k];
  }

  lemma StoredBids(cfg: Settings, rs: seq<Response>)
    ensures forall i :: 0 <= i < |rs| ==>
              BidsOf(cfg, rs[i]) == if rs[i].Ok? && rs[i].initialized && |rs[i].bids| <= cfg.multiBidLimit then rs[i].bids else []
  {
    forall i | 0 <= i < |rs|
      ensures BidsOf(cfg, rs[i]) == if rs[i].Ok? && rs[i].initialized && |rs[i].bids| <= cfg.multiBidLimit then rs[i].bids else []
    {
      StatusMeaning(cfg, rs[i]);
    }
  }

  // ----- when the request is answered with "all dispatches timed out" -----

  lemma {:induction false} DeadlineCountIff(rs: seq<Response>)
    ensures DeadlineCount(rs) <= |rs|
    ensures DeadlineCount(rs) == |rs| <==> forall i :: 0 <= i < |rs| ==> rs[i].DeadlineExceeded?
  {
    if rs != [] {
      var last := |rs| - 1;
      DeadlineCountIff(rs[..last]);
      assert forall i :: 0 <= i < last ==> rs[..last][i] == rs[i];
    }
  }

  /** In the batch mode, exactly when every execution missed its start deadline. */
  lemma BatchExhaustedIff(cfg: Settings, s: Stats, rs: seq<Response>, cancelled: bool)
    requires s == Initial(|rs|, s.maxQueueMs, s.avgExecutionMs)
    ensures var t := AccountAll(cfg, s, rs);
            Outcome(t, t.success > 0, cancelled).ResourceExhausted? <==> forall i :: 0 <= i < |rs| ==> rs[i].DeadlineExceeded?
  {
    StatsOfRun(cfg, s, rs);
    DeadlineCountIff(rs);
  }

  /** How a batch ends, told by its responses alone. */
  lemma BatchOutcomeIff(cfg: Settings, s: Stats, rs: seq<Response>, cancelled: bool)
    requires s == Initial(|rs|, s.maxQueueMs, s.avgExecutionMs)
    ensures var t := AccountAll(cfg, s, rs);
            Outcome(t, t.success > 0, cancelled) ==
              if forall i :: 0 <= i < |rs| ==> rs[i].DeadlineExceeded? then ResourceExhausted
              else if forall i :: 0 <= i < |rs| ==> !rs[i].Ok? then Internal
              else if cancelled then RequestCancelled else OK
  {
    BatchExhaustedIff(cfg, s, rs, cancelled);
    StatsOfRun(cfg, s, rs);
    NoTimesIff(rs);
  }

  lemma {:induction false} NoTimesIff(rs: seq<Response>)
    ensures ExecutionTimes(rs) == [] <==> forall i :: 0 <= i < |rs| ==> !rs[i].Ok?
  {
    if rs != [] {
      var last := |rs| - 1;
      NoTimesIff(rs[..last]);
      assert forall i :: 0 <= i < last ==> rs[..last][i] == rs[i];
    }
  }

  /** The tracker once the responses have been processed; a response is missing if the execution was not dispatched. */
  function Track(cfg: Settings, total: nat, rs: seq<Option<Response>>): Counts
    requires |rs| <= total
    ensures var c := Track(cfg, total, rs); c.Accounted() && c.tracked == total && c.pending == total - |rs|
  {
    if rs == [] then Fresh(total)
    else
      var last := rs[|rs| - 1];
      Track(cfg, total, rs[..|rs| - 1]).Complete(if last.Some? then StatusOf(cfg, last.value) else Error)
  }

  function Dispatched(rs: seq<Option<Response>>): seq<Response> {
    if rs == [] then []
    else
      var last := rs[|rs| - 1];
      Dispatched(rs[..|rs| - 1]) + if last.Some? then [last.value] else []
  }

  lemma {:induction false} SkippedAreDeadlines(cfg: Settings, total: nat, rs: seq<Option<Response>>)
    requires |rs| <= total
    ensures Track(cfg, total, rs).skipped == DeadlineCount(Dispatched(rs))
  {
    if rs != [] {
      var last := |rs| - 1;
      SkippedAreDeadlines(cfg, total, rs[..last]);
      if rs[last].Some? {
        assert Dispatched(rs)[..|Dispatched(rs)| - 1] == Dispatched(rs[..last]);
      } else {
        assert Dispatched(rs) == Dispatched(rs[..last]);
      }
    }
  }

  /**
   In the mode that tracks every execution by itself, never: an execution that missed its start deadline is
   counted as skipped, which the tracker takes for a success, so the request is answered
   with no bids and no error instead.
   */
  lemma TrackedNeverExhausted(cfg: Settings, s: Stats, rs: seq<Option<Response>>, cancelled: bool)
    requires rs != [] && s == Initial(|rs|, s.maxQueueMs, s.avgExecutionMs)
    ensures var t := AccountAll(cfg, s, Dispatched(rs));
            var any := Track(cfg, |rs|, rs).AnySuccessful();
            && !Outcome(t, any, cancelled).ResourceExhausted?
            && (t.timeoutWaiting == t.total ==> Outcome(t, any, false) == OK)
  {
    StatsOfRun(cfg, s, Dispatched(rs));
    SkippedAreDeadlines(cfg, |rs|, rs);
  }
}
