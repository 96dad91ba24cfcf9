/**
 The scan over the ranked ads that collects winner and ghost winner candidates
 (services/auction_service/score_ads_reactor.cc, `FindWinningAd`).

 The scan decides about an ad by looking at the last candidate only, after its score went through
 an int; what it collects is characterized here without reference to the scan.
 */
module CandidateScan {
  import opened Auctions
  import opened IndexLists

  /** The candidates among the first `n` ads. */
  ghost predicate CandidatesUpTo(ranked: seq<ScoredAdData>, n: nat, winners: seq<nat>, ghosts: seq<nat>) {
    && Increasing(winners) && Increasing(ghosts)
    && (forall i :: i in winners <==> 0 <= i < n && WinnerCandidate(ranked, i))
    && (forall i :: i in ghosts <==> 0 <= i < n && GhostCandidate(ranked, i))
  }

  /** Is the list empty, or is its last ad's score equal to the truncated score? */
  predicate EmptyOrSameScore(ranked: seq<ScoredAdData>, cands: seq<nat>, desirability: int) {
    cands == [] ||
    (cands[|cands| - 1] < |ranked| && ranked[cands[|cands| - 1]].adScore.desirability == desirability as real)
  }

  function AddCandidate(ranked: seq<ScoredAdData>, cands: seq<nat>, i: nat): seq<nat>
    requires i < |ranked|
  {
    if EmptyOrSameScore(ranked, cands, Trunc(ranked[i].adScore.desirability)) then cands + [i] else cands
  }

  function NextWinners(ranked: seq<ScoredAdData>, winners: seq<nat>, i: nat): seq<nat>
    requires i < |ranked|
  {
    if Eligible(ranked, i) then AddCandidate(ranked, winners, i) else winners
  }

  function NextGhosts(ranked: seq<ScoredAdData>, winners: seq<nat>, ghosts: seq<nat>, i: nat): seq<nat>
    requires i < |ranked|
  {
    if ranked[i].adScore.desirability > 0.0 && !ranked[i].kAnonStatus && winners == []
    then AddCandidate(ranked, ghosts, i) else ghosts
  }

  lemma {:induction false} LeastEligible(s: seq<ScoredAdData>, n: nat) returns (first: nat)
    requires exists j :: 0 <= j < n && Eligible(s, j)
    ensures first < n && Eligible(s, first) && forall j :: 0 <= j < first ==> !Eligible(s, j)
  {
    if exists j :: 0 <= j < n - 1 && Eligible(s, j) {
      first := LeastEligible(s, n - 1);
    } else {
      first := n - 1;
    }
  }

  lemma {:induction false} LeastAbove(s: seq<ScoredAdData>, n: nat) returns (first: nat)
    requires exists j :: 0 <= j < n && AboveWinners(s, j)
    ensures first < n && AboveWinners(s, first) && forall j :: 0 <= j < first ==> !AboveWinners(s, j)
  {
    if exists j :: 0 <= j < n - 1 && AboveWinners(s, j) {
      first := LeastAbove(s, n - 1);
    } else {
      first := n - 1;
    }
  }

  lemma RankedScores(s: seq<ScoredAdData>, i: nat, j: nat)
    requires Ranked(s) && i <= j < |s|
    ensures s[j].adScore.desirability <= s[i].adScore.desirability
  {
    assert i < j ==> !Greater(s[j], s[i]);
  }

  /** The first eligible ad has the greatest score of all eligible ones, so it is a candidate. */
  lemma FirstIsWinnerCandidate(s: seq<ScoredAdData>, first: nat)
    requires Ranked(s) && Eligible(s, first) && forall j :: 0 <= j < first ==> !Eligible(s, j)
    ensures WinnerCandidate(s, first)
  {
    forall j | Eligible(s, j)
      ensures s[j].adScore.desirability <= s[first].adScore.desirability
    {
      RankedScores(s, first, j);
    }
  }

  lemma FirstIsGhostCandidate(s: seq<ScoredAdData>, first: nat)
    requires Ranked(s) && AboveWinners(s, first) && forall j :: 0 <= j < first ==> !AboveWinners(s, j)
    ensures GhostCandidate(s, first)
  {
    forall j | AboveWinners(s, j)
      ensures s[j].adScore.desirability <= s[first].adScore.desirability
    {
      RankedScores(s, first, j);
    }
  }

  /** An ad is a winner candidate iff it is eligible and ties, as an integer, with the first eligible ad. */
  lemma WinnerCandidateIff(s: seq<ScoredAdData>, first: nat, i: nat)
    requires Ranked(s) && first < i < |s| && Eligible(s, first) && forall j :: 0 <= j < first ==> !Eligible(s, j)
    ensures WinnerCandidate(s, i) <==>
            Eligible(s, i) && s[first].adScore.desirability == Trunc(s[i].adScore.desirability) as real
  {
    RankedScores(s, first, i);
    FirstIsWinnerCandidate(s, first);
    if Eligible(s, i) {
      TruncTie(s[first].adScore.desirability, s[i].adScore.desirability);
    }
  }

  lemma GhostCandidateIff(s: seq<ScoredAdData>, first: nat, i: nat)
    requires Ranked(s) && first < i < |s| && AboveWinners(s, first) && forall j :: 0 <= j < first ==> !AboveWinners(s, j)
    ensures GhostCandidate(s, i) <==>
            AboveWinners(s, i) && s[first].adScore.desirability == Trunc(s[i].adScore.desirability) as real
  {
    RankedScores(s, first, i);
    FirstIsGhostCandidate(s, first);
    if AboveWinners(s, i) {
      TruncTie(s[first].adScore.desirability, s[i].adScore.desirability);
    }
  }

  /**
   Every ad above the winners is a ghost candidate exactly when they all have the score of the first one and that is an
   integer, or the first one is alone.
   */
  lemma GhostsCompleteIff(s: seq<ScoredAdData>, first: nat)
    requires Ranked(s) && AboveWinners(s, first) && forall j :: 0 <= j < first ==> !AboveWinners(s, j)
    ensures (forall i :: AboveWinners(s, i) ==> GhostCandidate(s, i))
       <==> forall i :: AboveWinners(s, i) && i != first ==>
              s[i].adScore.desirability == s[first].adScore.desirability && Integral(s[first].adScore.desirability)
  {
    FirstIsGhostCandidate(s, first);
    forall i | AboveWinners(s, i) && i != first
      ensures GhostCandidate(s, i) <==>
              s[i].adScore.desirability == s[first].adScore.desirability && Integral(s[first].adScore.desirability)
    {
      GhostCandidateIff(s, first, i);
      RankedScores(s, first, i);
      TruncTie(s[first].adScore.desirability, s[i].adScore.desirability);
    }
  }

  /** Two ads that are not k-anonymous score 3 and 2, above a k-anonymous one at 1: only the first is a ghost candidate. */
  lemma LowerGhostDropped(score: AdScore, id1: string, id2: string, id3: string)
    ensures var s := [ScoredAdData(score.(desirability := 3.0), Number, id1, false),
                      ScoredAdData(score.(desirability := 2.0), Number, id2, false),
                      ScoredAdData(score.(desirability := 1.0), Number, id3, true)];
            Ranked(s) && AboveWinners(s, 1) && !GhostCandidate(s, 1) && CandidatesUpTo(s, 3, [2], [0])
  {
    var s := [ScoredAdData(score.(desirability := 3.0), Number, id1, false),
              ScoredAdData(score.(desirability := 2.0), Number, id2, false),
              ScoredAdData(score.(desirability := 1.0), Number, id3, true)];
    assert AboveWinners(s, 0) && AboveWinners(s, 1) && Eligible(s, 2);
    FirstIsGhostCandidate(s, 0);
    FirstIsWinnerCandidate(s, 2);
    assert forall i :: 0 <= i < 3 ==> (WinnerCandidate(s, i) <==> i in [2]) && (GhostCandidate(s, i) <==> i in [0]);
  }

  /** Candidates of one list share one score. */
  lemma CandidatesShareScore(s: seq<ScoredAdData>, i: nat, j: nat)
    ensures WinnerCandidate(s, i) && WinnerCandidate(s, j) ==> s[i].adScore.desirability == s[j].adScore.desirability
    ensures GhostCandidate(s, i) && GhostCandidate(s, j) ==> s[i].adScore.desirability == s[j].adScore.desirability
  {
  }

  lemma WinnersStep(ranked: seq<ScoredAdData>, n: nat, winners: seq<nat>, ghosts: seq<nat>)
    requires Ranked(ranked) && n < |ranked| && CandidatesUpTo(ranked, n, winners, ghosts)
    ensures winners == [] <==> forall j :: 0 <= j < n ==> !Eligible(ranked, j)
    ensures WinnerCandidate(ranked, n) <==>
            Eligible(ranked, n) && EmptyOrSameScore(ranked, winners, Trunc(ranked[n].adScore.desirability))
  {
    assert winners != [] ==> winners[|winners| - 1] in winners;
    if exists j :: 0 <= j < n && Eligible(ranked, j) {
      var first := LeastEligible(ranked, n);
      FirstIsWinnerCandidate(ranked, first);
      assert first in winners;
      CandidatesShareScore(ranked, first, winners[|winners| - 1]);
      WinnerCandidateIff(ranked, first, n);
    } else {
      if Eligible(ranked, n) {
        FirstIsWinnerCandidate(ranked, n);
      }
    }
  }

  lemma GhostsStep(ranked: seq<ScoredAdData>, n: nat, winners: seq<nat>, ghosts: seq<nat>)
    requires Ranked(ranked) && n < |ranked| && CandidatesUpTo(ranked, n, winners, ghosts)
    requires AboveWinners(ranked, n)
    ensures GhostCandidate(ranked, n) <==> EmptyOrSameScore(ranked, ghosts, Trunc(ranked[n].adScore.desirability))
  {
    assert ghosts != [] ==> ghosts[|ghosts| - 1] in ghosts;
    if exists j :: 0 <= j < n && AboveWinners(ranked, j) {
      var first := LeastAbove(ranked, n);
      FirstIsGhostCandidate(ranked, first);
      assert first in ghosts;
      CandidatesShareScore(ranked, first, ghosts[|ghosts| - 1]);
      GhostCandidateIff(ranked, first, n);
    } else {
      FirstIsGhostCandidate(ranked, n);
    }
  }

  lemma Members(cands: seq<nat>, n: nat)
    requires Increasing(cands) && forall i :: i in cands ==> i < n
    ensures Increasing(cands + [n])
    ensures forall i :: i in cands + [n] <==> i in cands || i == n
  {
    AppendIncreasing(cands, n);
  }

  /** One step of the scan. */
  lemma ScanStep(ranked: seq<ScoredAdData>, n: nat, winners: seq<nat>, ghosts: seq<nat>)
    requires Ranked(ranked) && n < |ranked| && CandidatesUpTo(ranked, n, winners, ghosts)
    ensures AboveWinners(ranked, n) <==>
            ranked[n].adScore.desirability > 0.0 && !ranked[n].kAnonStatus && winners == []
    ensures CandidatesUpTo(ranked, n + 1, NextWinners(ranked, winners, n), NextGhosts(ranked, winners, ghosts, n))
  {
    WinnersStep(ranked, n, winners, ghosts);
    Members(winners, n);
    Members(ghosts, n);
    if AboveWinners(ranked, n) {
      GhostsStep(ranked, n, winners, ghosts);
    }
  }
}
