/**
 Bookkeeping of the pass that looks at every scored ad once and swaps the rejected ones to the
 tail of the vector (services/auction_service/score_ads_reactor.cc, `FindWinningAd`).
 */
module RejectionPass {
  import opened Auctions

  /**
   What holds between two steps of the pass: `done` are the ads kept so far, `pending` the ads not
   yet looked at, `seen` the ones that were.
   */
  ghost predicate PassState(
    cfg: AuctionConfig, input: seq<ScoredAdData>, done: seq<ScoredAdData>, pending: seq<ScoredAdData>,
    seen: multiset<ScoredAdData>, reasons: seq<AdRejectionReason>)
  {
    && multiset(done) + multiset(KeptAds(cfg, pending)) == multiset(KeptAds(cfg, input))
    && multiset(reasons) + multiset(Reasons(cfg, pending)) == multiset(Reasons(cfg, input))
    && seen + multiset(pending) == multiset(input)
  }

  /** The pending ads after the first one left: the last one has taken its place. */
  function SwappedOut(pending: seq<ScoredAdData>): (rest: seq<ScoredAdData>)
    requires pending != []
    ensures |rest| == |pending| - 1
  {
    if |pending| == 1 then [] else [pending[|pending| - 1]] + pending[1..|pending| - 1]
  }

  lemma {:induction false} FirstTally(cfg: AuctionConfig, pending: seq<ScoredAdData>)
    requires pending != []
    ensures KeptAds(cfg, pending) == (if Judge(cfg, pending[0]).Kept? then [Updated(cfg, pending[0])] else []) + KeptAds(cfg, pending[1..])
    ensures Reasons(cfg, pending) == ReasonOf(cfg, pending[0]) + Reasons(cfg, pending[1..])
    ensures multiset(pending) == multiset{pending[0]} + multiset(pending[1..])
  {
    assert pending == [pending[0]] + pending[1..];
  }

  /** Moving the last of the remaining ads to the front changes no tally. */
  lemma {:induction false} SwapTally(cfg: AuctionConfig, pending: seq<ScoredAdData>)
    requires pending != []
    ensures multiset(KeptAds(cfg, SwappedOut(pending))) == multiset(KeptAds(cfg, pending[1..]))
    ensures multiset(Reasons(cfg, SwappedOut(pending))) == multiset(Reasons(cfg, pending[1..]))
    ensures multiset(SwappedOut(pending)) == multiset(pending[1..])
  {
    hide KeptAds, Reasons;
    if |pending| == 1 {
      assert SwappedOut(pending) == pending[1..];
    } else {
      var mid, last := pending[1..|pending| - 1], [pending[|pending| - 1]];
      assert pending[1..] == mid + last;
      KeptAdsConcat(cfg, mid, last);
      KeptAdsConcat(cfg, last, mid);
    }
  }

  lemma PassStart(cfg: AuctionConfig, input: seq<ScoredAdData>)
    ensures PassState(cfg, input, [], input, multiset{}, [])
  {
  }

  lemma {:induction false} PassKeep(
    cfg: AuctionConfig, input: seq<ScoredAdData>, done: seq<ScoredAdData>, pending: seq<ScoredAdData>,
    seen: multiset<ScoredAdData>, reasons: seq<AdRejectionReason>)
    requires PassState(cfg, input, done, pending, seen, reasons)
    requires pending != [] && Judge(cfg, pending[0]).Kept?
    ensures PassState(cfg, input, done + [Updated(cfg, pending[0])], pending[1..], seen + multiset{pending[0]}, reasons)
  {
    hide KeptAds, Reasons, Judge, Updated;
    FirstTally(cfg, pending);
    NoReason(cfg, pending[0]);
  }

  lemma NoReason(cfg: AuctionConfig, ad: ScoredAdData)
    requires Judge(cfg, ad).Kept?
    ensures ReasonOf(cfg, ad) == []
  {
  }

  lemma PassReject(
    cfg: AuctionConfig, input: seq<ScoredAdData>, done: seq<ScoredAdData>, pending: seq<ScoredAdData>,
    seen: multiset<ScoredAdData>, reasons: seq<AdRejectionReason>)
    requires PassState(cfg, input, done, pending, seen, reasons)
    requires pending != [] && !Judge(cfg, pending[0]).Kept?
    ensures PassState(cfg, input, done, SwappedOut(pending), seen + multiset{pending[0]},
                      reasons + ReasonOf(cfg, pending[0]))
  {
    hide KeptAds, Reasons, Judge, Updated, SwappedOut;
    FirstTally(cfg, pending);
    SwapTally(cfg, pending);
  }

  lemma PassEnd(
    cfg: AuctionConfig, input: seq<ScoredAdData>, done: seq<ScoredAdData>, seen: multiset<ScoredAdData>,
    reasons: seq<AdRejectionReason>)
    requires PassState(cfg, input, done, [], seen, reasons)
    ensures multiset(done) == multiset(KeptAds(cfg, input))
    ensures multiset(reasons) == multiset(Reasons(cfg, input))
    ensures seen == multiset(input)
  {
  }

  // ----- the same steps on the whole vector -----

  /** The state with the kept ads in `all[..index]` and the pending ones in `all[index..end]`. */
  ghost predicate PassAt(
    cfg: AuctionConfig, input: seq<ScoredAdData>, all: seq<ScoredAdData>, index: nat, end: nat,
    seen: multiset<ScoredAdData>, reasons: seq<AdRejectionReason>)
  {
    && index <= end <= |all|
    && PassState(cfg, input, all[..index], all[index..end], seen, reasons)
  }

  ghost function SwapAt(all: seq<ScoredAdData>, i: nat, j: nat): (r: seq<ScoredAdData>)
    requires i < |all| && j < |all|
    ensures |r| == |all|
  {
    all[i := all[j]][j := all[i]]
  }

  lemma StartAt(cfg: AuctionConfig, input: seq<ScoredAdData>)
    ensures PassAt(cfg, input, input, 0, |input|, multiset{}, [])
  {
    PassStart(cfg, input);
    assert input[..0] == [] && input[0..|input|] == input;
  }

  /** A kept ad is updated where it stands. */
  lemma {:induction false} KeepAt(
    cfg: AuctionConfig, input: seq<ScoredAdData>, all: seq<ScoredAdData>, index: nat, end: nat,
    seen: multiset<ScoredAdData>, reasons: seq<AdRejectionReason>)
    requires PassAt(cfg, input, all, index, end, seen, reasons) && index < end
    requires Judge(cfg, all[index]).Kept?
    ensures PassAt(cfg, input, all[index := Updated(cfg, all[index])], index + 1, end, seen + multiset{all[index]}, reasons)
  {
    hide PassState;
    var all' := all[index := Updated(cfg, all[index])];
    PassKeep(cfg, input, all[..index], all[index..end], seen, reasons);
    assert all'[..index + 1] == all[..index] + [all'[index]];
    assert all'[index + 1..end] == all[index..end][1..];
  }

  /** A rejected ad, updated like any other, changes places with the last pending one. */
  lemma RejectAt(
    cfg: AuctionConfig, input: seq<ScoredAdData>, all: seq<ScoredAdData>, index: nat, end: nat,
    seen: multiset<ScoredAdData>, reasons: seq<AdRejectionReason>)
    requires PassAt(cfg, input, all, index, end, seen, reasons) && index < end
    requires !Judge(cfg, all[index]).Kept?
    ensures PassAt(cfg, input, SwapAt(all[index := Updated(cfg, all[index])], end - 1, index), index, end - 1,
                   seen + multiset{all[index]}, reasons + ReasonOf(cfg, all[index]))
  {
    hide PassState, KeptAds, Reasons, Judge, Updated, ReasonOf;
    var all' := SwapAt(all[index := Updated(cfg, all[index])], end - 1, index);
    PassReject(cfg, input, all[..index], all[index..end], seen, reasons);
    assert all'[..index] == all[..index];
    SwapSlice(all[index := Updated(cfg, all[index])], all, index, end);
  }

  lemma SwapSlice(updated: seq<ScoredAdData>, all: seq<ScoredAdData>, index: nat, end: nat)
    requires index < end <= |all| == |updated| && updated == all[index := updated[index]]
    ensures SwapAt(updated, end - 1, index)[index..end - 1] == SwappedOut(all[index..end])
  {
    var swapped, pending := SwapAt(updated, end - 1, index), all[index..end];
    if end - index > 1 {
      assert swapped[index] == pending[|pending| - 1];
      forall k | 0 <= k < end - 1 - index
        ensures swapped[index..end - 1][k] == SwappedOut(pending)[k]
      {
        assert k > 0 ==> swapped[index + k] == all[index + k] == pending[k];
      }
    }
  }

  lemma EndAt(
    cfg: AuctionConfig, input: seq<ScoredAdData>, all: seq<ScoredAdData>, end: nat,
    seen: multiset<ScoredAdData>, reasons: seq<AdRejectionReason>)
    requires PassAt(cfg, input, all, end, end, seen, reasons)
    ensures multiset(all[..end]) == multiset(KeptAds(cfg, input))
    ensures multiset(reasons) == multiset(Reasons(cfg, input))
    ensures seen == multiset(input)
  {
    assert all[end..end] == [];
    PassEnd(cfg, input, all[..end], seen, reasons);
  }

  /** Every ad seen has an entry under its id, and the new entries are scores of ads seen. */
  ghost predicate Recorded(before: map<string, AdScore>, after: map<string, AdScore>, seen: multiset<ScoredAdData>) {
    && (forall id :: id in before ==> id in after && after[id] == before[id])
    && (forall ad :: ad in seen ==> ad.id in after)
    && (forall id :: id in after && id !in before ==> exists ad :: ad in seen && ad.id == id && ad.adScore == after[id])
  }

  /** Recording an ad whose id may be taken already, in which case the earlier entry stays. */
  lemma RecordedStep(before: map<string, AdScore>, after: map<string, AdScore>, seen: multiset<ScoredAdData>, ad: ScoredAdData)
    requires Recorded(before, after, seen)
    ensures Recorded(before, if ad.id in after then after else after[ad.id := ad.adScore], seen + multiset{ad})
  {
    var after' := if ad.id in after then after else after[ad.id := ad.adScore];
    forall id | id in after' && id !in before
      ensures exists x :: x in seen + multiset{ad} && x.id == id && x.adScore == after'[id]
    {
      if id in after {
        var x :| x in seen && x.id == id && x.adScore == after[id];
        assert x in seen + multiset{ad};
      } else {
        assert ad in seen + multiset{ad};
      }
    }
  }

  /** When ids are unique, the map records exactly the score each ad had before the auction changed it. */
  lemma RecordedUnique(after: map<string, AdScore>, ads: seq<ScoredAdData>, i: nat)
    requires Recorded(map[], after, multiset(ads)) && i < |ads|
    requires forall j, k :: 0 <= j < k < |ads| ==> ads[j].id != ads[k].id
    ensures ads[i].id in after && after[ads[i].id] == ads[i].adScore
  {
    assert ads[i] in multiset(ads);
    var x :| x in multiset(ads) && x.id == ads[i].id && x.adScore == after[ads[i].id];
    assert x in ads;
  }
}
