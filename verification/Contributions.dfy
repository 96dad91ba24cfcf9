/**
 Limiting the private aggregation contributions of a bid
 (services/bidding_service/generate_bids_reactor.cc, `ProcessPAggContributions`).
 */
module Contributions {

  datatype EventType = Unspecified | Win | Loss | Always | Custom

  datatype Contribution = Contribution(eventType: EventType, payload: string)

  /** How many of the contributions are for an event type. */
  function Count(s: seq<Contribution>, e: EventType): nat {
    if s == [] then 0
    else Count(s[..|s| - 1], e) + if s[|s| - 1].eventType == e then 1 else 0
  }

  /** The contributions for an event type, by position. */
  lemma {:induction false} CountPositions(s: seq<Contribution>, e: EventType)
    ensures Count(s, e) == |set j: nat | j < |s| && s[j].eventType == e|
  {
    var positions := set j: nat | j < |s| && s[j].eventType == e;
    if s == [] {
      assert positions == {};
    } else {
      var last := |s| - 1;
      CountPositions(s[..last], e);
      hide Count;
      PositionsStep(s, e, last);
      CountNext(s, e, last);
    }
  }

  lemma CountNext(s: seq<Contribution>, e: EventType, last: nat)
    requires |s| == last + 1
    ensures Count(s, e) == Count(s[..last], e) + if s[last].eventType == e then 1 else 0
  {
  }

  lemma PositionsStep(s: seq<Contribution>, e: EventType, last: nat)
    requires |s| == last + 1
    ensures |set j: nat | j < |s| && s[j].eventType == e|
         == |set j: nat | j < |s[..last]| && s[..last][j].eventType == e| + (if s[last].eventType == e then 1 else 0)
  {
    var before := set j: nat | j < |s[..last]| && s[..last][j].eventType == e;
    assert (set j: nat | j < |s| && s[j].eventType == e) == before + (if s[last].eventType == e then {last} else {});
  }

  /** A contribution stays if it names an event type and fewer than `limit` earlier ones are for the same. */
  predicate Stays(s: seq<Contribution>, i: nat, limit: int)
    requires i < |s|
  {
    !s[i].eventType.Unspecified? && Count(s[..i], s[i].eventType) < limit
  }

  /** The first `limit` contributions of every event type, in their order. */
  function Limited(s: seq<Contribution>, limit: int): seq<Contribution> {
    if s == [] then []
    else Limited(s[..|s| - 1], limit) + if Stays(s, |s| - 1, limit) then [s[|s| - 1]] else []
  }

  lemma LimitedNext(s: seq<Contribution>, limit: int, k: nat)
    requires k < |s|
    ensures Limited(s[..k + 1], limit) == Limited(s[..k], limit) + if Stays(s, k, limit) then [s[k]] else []
    ensures forall e :: Count(s[..k + 1], e) == Count(s[..k], e) + if s[k].eventType == e then 1 else 0
  {
    assert s[..k + 1][..k] == s[..k];
  }

  function AtMost(n: nat, limit: int): nat {
    if limit < 0 then 0 else if n < limit then n else limit
  }

  /** Of every event type exactly the first contributions are left, at most `limit` of them, and none is unspecified. */
  lemma {:induction false} LimitedCount(s: seq<Contribution>, limit: int, e: EventType)
    ensures Count(Limited(s, limit), e) ==
            if e.Unspecified? then 0 else AtMost(Count(s, e), limit)
  {
    if s != [] {
      var last := |s| - 1;
      LimitedCount(s[..last], limit, e);
      var front := Limited(s[..last], limit);
      assert (front + [s[last]])[..|front|] == front && front + [] == front;
    }
  }

  /** Limiting twice is limiting once. */
  lemma {:induction false} LimitedTwice(s: seq<Contribution>, limit: int)
    ensures Limited(Limited(s, limit), limit) == Limited(s, limit)
  {
    if s != [] {
      var last := |s| - 1;
      LimitedTwice(s[..last], limit);
      var front := Limited(s[..last], limit);
      if Stays(s, last, limit) {
        LimitedCount(s[..last], limit, s[last].eventType);
        assert (front + [s[last]])[..|front|] == front;
        assert Stays(front + [s[last]], |front|, limit);
      } else {
        assert front + [] == front;
      }
    }
  }

  /** The positions of the contributions that stay. */
  function Kept(s: seq<Contribution>, limit: int): (r: seq<nat>)
    ensures Increasing(r, |s|)
  {
    if s == [] then []
    else
      var last := |s| - 1;
      Kept(s[..last], limit) + if Stays(s, last, limit) then [last] else []
  }

  lemma StaysPrefix(s: seq<Contribution>, i: nat, n: nat, limit: int)
    requires i < n <= |s|
    ensures Stays(s[..n], i, limit) <==> Stays(s, i, limit)
  {
    assert s[..n][..i] == s[..i];
  }

  /** What is left is the contributions that stay, in their order. */
  lemma {:induction false} LimitedIsKept(s: seq<Contribution>, limit: int)
    ensures |Limited(s, limit)| == |Kept(s, limit)|
    ensures forall k :: 0 <= k < |Kept(s, limit)| ==> Kept(s, limit)[k] < |s| && Limited(s, limit)[k] == s[Kept(s, limit)[k]]
  {
    if s != [] {
      var last := |s| - 1;
      LimitedIsKept(s[..last], limit);
      hide Stays;
      assert forall i :: 0 <= i < last ==> s[..last][i] == s[i];
    }
  }

  lemma {:induction false} KeptMember(s: seq<Contribution>, limit: int, i: nat)
    ensures i in Kept(s, limit) <==> i < |s| && Stays(s, i, limit)
  {
    hide Stays;
    if s != [] {
      var last := |s| - 1;
      KeptMember(s[..last], limit, i);
      if i < last {
        StaysPrefix(s, i, last, limit);
      }
      hide Kept;
      KeptLast(s, limit);
    }
  }

  lemma KeptLast(s: seq<Contribution>, limit: int)
    requires s != []
    ensures var last := |s| - 1;
            Kept(s, limit) == if Stays(s, last, limit) then Kept(s[..last], limit) + [last] else Kept(s[..last], limit)
  {
  }

  /** A contribution stays iff it names an event type and fewer than `limit` earlier positions are for the same. */
  lemma StaysIff(s: seq<Contribution>, i: nat, limit: int)
    requires i < |s|
    ensures Stays(s, i, limit) <==>
              s[i].eventType != Unspecified && |set j: nat | j < i && s[j].eventType == s[i].eventType| < limit
  {
    CountPositions(s[..i], s[i].eventType);
    assert (set j: nat | j < |s[..i]| && s[..i][j].eventType == s[i].eventType)
        == set j: nat | j < i && s[j].eventType == s[i].eventType;
  }

  /**
   `left` are the elements of `s` at the positions `kept`, in order: those that name an event type and have fewer than
   `limit` earlier ones for the same.
   */
  ghost predicate KeptAt(s: seq<Contribution>, limit: int, kept: seq<nat>, left: seq<Contribution>) {
    && Increasing(kept, |s|) && |left| == |kept|
    && (forall k :: 0 <= k < |kept| ==> left[k] == s[kept[k]])
    && (forall i: nat :: i in kept <==>
          i < |s| && s[i].eventType != Unspecified && |set j: nat | j < i && s[j].eventType == s[i].eventType| < limit)
  }

  lemma LimitedMeaning(s: seq<Contribution>, limit: int)
    ensures KeptAt(s, limit, Kept(s, limit), Limited(s, limit))
  {
    LimitedIsKept(s, limit);
    forall i: nat
      ensures i in Kept(s, limit) <==>
                i < |s| && s[i].eventType != Unspecified && |set j: nat | j < i && s[j].eventType == s[i].eventType| < limit
    {
      KeptMember(s, limit, i);
      if i < |s| {
        StaysIff(s, i, limit);
      }
    }
  }

  // ----- erasing by index -----

  ghost predicate Increasing(indices: seq<nat>, bound: nat) {
    && (forall i :: 0 <= i < |indices| ==> indices[i] < bound)
    && forall i, j :: 0 <= i < j < |indices| ==> indices[i] < indices[j]
  }

  /** The list without the elements at the indices, erased from the last one on. */
  function Erased<T>(s: seq<T>, indices: seq<nat>): (r: seq<T>)
    requires Increasing(indices, |s|)
    ensures |r| == |s| - |indices|
    decreases |indices|
  {
    if indices == [] then s
    else
      var last := indices[|indices| - 1];
      BelowLast(indices, |s|);
      Erased(s[..last] + s[last + 1..], indices[..|indices| - 1])
  }

  lemma BelowLast(indices: seq<nat>, bound: nat)
    requires Increasing(indices, bound) && indices != []
    ensures Increasing(indices[..|indices| - 1], indices[|indices| - 1])
    ensures bound >= 1 && Increasing(indices[..|indices| - 1], bound - 1)
  {
  }

  lemma ErasedUnfolded<T>(s: seq<T>, indices: seq<nat>)
    requires indices != [] && Increasing(indices, |s|)
    ensures var last := indices[|indices| - 1];
            && last < |s| && Increasing(indices[..|indices| - 1], |s| - 1)
            && Erased(s, indices) == Erased(s[..last] + s[last + 1..], indices[..|indices| - 1])
  {
    BelowLast(indices, |s|);
  }

  lemma EraseLast<T>(s: seq<T>, indices: seq<nat>, i: nat)
    requires i < |indices| && Increasing(indices[..i + 1], |s|)
    ensures indices[i] < |s|
    ensures Increasing(indices[..i], |s| - 1)
    ensures Erased(s[..indices[i]] + s[indices[i] + 1..], indices[..i]) == Erased(s, indices[..i + 1])
  {
    hide Erased, Increasing;
    assert indices[..i + 1][..i] == indices[..i];
    ErasedUnfolded(s, indices[..i + 1]);
  }

  lemma NothingErased<T>(s: seq<T>, indices: seq<nat>)
    requires indices == []
    ensures Increasing(indices, |s|) && Erased(s, indices) == s
  {
  }

  /** Elements behind all the indices are carried along. */
  lemma {:induction false} ErasedAppend<T>(s: seq<T>, tail: seq<T>, indices: seq<nat>)
    requires Increasing(indices, |s|)
    ensures Increasing(indices, |s + tail|) && Erased(s + tail, indices) == Erased(s, indices) + tail
    decreases |indices|
  {
    if indices != [] {
      var last := indices[|indices| - 1];
      BelowLast(indices, |s|);
      BelowLast(indices, |s + tail|);
      assert (s + tail)[..last] + (s + tail)[last + 1..] == (s[..last] + s[last + 1..]) + tail;
      ErasedAppend(s[..last] + s[last + 1..], tail, indices[..|indices| - 1]);
    }
  }

  /** The indices of the contributions that do not stay. */
  function Removed(s: seq<Contribution>, limit: int): (r: seq<nat>)
    ensures Increasing(r, |s|)
  {
    if s == [] then []
    else
      var last := |s| - 1;
      var front := Removed(s[..last], limit);
      if Stays(s, last, limit) then front else front + [last]
  }

  lemma {:induction false} RemovedMember(s: seq<Contribution>, limit: int, i: nat)
    ensures i in Removed(s, limit) <==> i < |s| && !Stays(s, i, limit)
  {
    hide Stays;
    if s != [] {
      var last := |s| - 1;
      RemovedMember(s[..last], limit, i);
      if i < last {
        StaysPrefix(s, i, last, limit);
      }
      hide Removed;
      RemovedLast(s, limit);
    }
  }

  lemma RemovedLast(s: seq<Contribution>, limit: int)
    requires s != []
    ensures var last := |s| - 1;
            Removed(s, limit) == if Stays(s, last, limit) then Removed(s[..last], limit) else Removed(s[..last], limit) + [last]
  {
  }

  lemma RemovedIff(s: seq<Contribution>, limit: int)
    ensures forall i: nat :: i in Removed(s, limit) <==>
              i < |s| && (s[i].eventType == Unspecified || |set j: nat | j < i && s[j].eventType == s[i].eventType| >= limit)
  {
    forall i: nat
      ensures i in Removed(s, limit) <==>
                i < |s| && (s[i].eventType == Unspecified || |set j: nat | j < i && s[j].eventType == s[i].eventType| >= limit)
    {
      RemovedMember(s, limit, i);
      if i < |s| {
        StaysIff(s, i, limit);
      }
    }
  }

  lemma RemovedNext(s: seq<Contribution>, limit: int, k: nat)
    requires k < |s|
    ensures Removed(s[..k + 1], limit) == Removed(s[..k], limit) + if Stays(s, k, limit) then [] else [k]
  {
    assert s[..k + 1][..k] == s[..k];
    assert Removed(s[..k], limit) + [] == Removed(s[..k], limit);
  }

  /** Erasing the collected indices from the back keeps exactly the contributions that stay. */
  lemma {:induction false} ErasingKeepsLimited(s: seq<Contribution>, limit: int)
    ensures Erased(s, Removed(s, limit)) == Limited(s, limit)
  {
    hide Stays;
    if s != [] {
      var last := |s| - 1;
      var front := Removed(s[..last], limit);
      ErasingKeepsLimited(s[..last], limit);
      assert s == s[..last] + [s[last]];
      if Stays(s, last, limit) {
        ErasedAppend(s[..last], [s[last]], front);
      } else {
        var indices := front + [last];
        assert indices[..|indices| - 1] == front;
        assert s[..last] + s[last + 1..] == s[..last];
      }
    }
  }

  // ----- the code -----

  class AdWithBid {
    var privateAggregationContributions: seq<Contribution>

    constructor (contributions: seq<Contribution>)
      ensures privateAggregationContributions == contributions
    {
      privateAggregationContributions := contributions;
    }

    method Erase(i: nat)
      requires i < |privateAggregationContributions|
      modifies this
      ensures privateAggregationContributions ==
              old(privateAggregationContributions)[..i] + old(privateAggregationContributions)[i + 1..]
    {
      privateAggregationContributions := privateAggregationContributions[..i] + privateAggregationContributions[i + 1..];
    }
  }

  function CountOf(counts: map<EventType, int>, e: EventType): int {
    if e in counts then counts[e] else 0
  }

  /** Counts per event type and collects the indices of what exceeds the limit. */
  method IndicesToRemove(s: seq<Contribution>, limit: int) returns (indices: seq<nat>)
    ensures indices == Removed(s, limit)
    ensures forall i: nat :: i in indices <==>
              i < |s| && (s[i].eventType == Unspecified || |set j: nat | j < i && s[j].eventType == s[i].eventType| >= limit)
  {
    var counts: map<EventType, int> := map[];
    indices := [];
    assert s[..0] == [];
    for i := 0 to |s|
      invariant indices == Removed(s[..i], limit)
      invariant forall e: EventType :: !e.Unspecified? ==>
                  CountOf(counts, e) == AtMost(Count(s[..i], e), limit)
    {
      LimitedNext(s, limit, i);
      RemovedNext(s, limit, i);
      var e := s[i].eventType;
      if e.Unspecified? || CountOf(counts, e) >= limit {
        indices := indices + [i];
      } else {
        assert indices + [] == indices;
        counts := counts[e := CountOf(counts, e) + 1];
      }
    }
    assert s[..|s|] == s;
    RemovedIff(s, limit);
  }

  method ProcessPAggContributions(bid: AdWithBid, limit: int)
    modifies bid
    ensures bid.privateAggregationContributions == Limited(old(bid.privateAggregationContributions), limit)
    ensures KeptAt(old(bid.privateAggregationContributions), limit, Kept(old(bid.privateAggregationContributions), limit),
                   bid.privateAggregationContributions)
  {
    hide Stays, Count, Limited, Removed, Kept, KeptAt;
    var indices := IndicesToRemove(bid.privateAggregationContributions, limit);
    ErasingKeepsLimited(bid.privateAggregationContributions, limit);
    ghost var target := Erased(bid.privateAggregationContributions, indices);
    hide Erased, Increasing;
    var i := |indices|;
    assert indices[..i] == indices;
    while i > 0
      invariant 0 <= i <= |indices|
      invariant Increasing(indices[..i], |bid.privateAggregationContributions|)
      invariant Erased(bid.privateAggregationContributions, indices[..i]) == target
    {
      i := i - 1;
      EraseLast(bid.privateAggregationContributions, indices, i);
      bid.Erase(indices[i]);
    }
    NothingErased(bid.privateAggregationContributions, indices[..0]);
    LimitedMeaning(old(bid.privateAggregationContributions), limit);
  }
}
