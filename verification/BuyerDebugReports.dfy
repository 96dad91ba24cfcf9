/**
 Sampled debug reports of the buyers, assembled by the seller front end
 (services/seller_frontend_service/select_ad_reactor.cc).

 The buyers' URLs were sampled when the bids were made; a bid remembers that its win or loss URL
 failed sampling.  Each buyer is handled on its own, with an early exit of the same shape as the
 seller's.
 */
module BuyerDebugReports {

  datatype Bid = Bid(name: string, winUrl: string, lossUrl: string, winFailedSampling: bool, lossFailedSampling: bool)

  datatype DebugReport = DebugReport(url: string, hasPlaceholders: bool, isWinReport: bool, isComponentWin: bool)

  /** The interest group that won the auction. */
  datatype Winner = Winner(owner: string, name: string)

  /** The state of the scan over one buyer's bids. */
  datatype Scan = Scan(reports: seq<DebugReport>, winChecked: bool, lossSelected: bool, confirmedLoss: bool)

  const START := Scan([], false, false, false)

  predicate IsWinningIg(winner: Winner, owner: string, bid: Bid) {
    owner == winner.owner && bid.name == winner.name
  }

  // ----- the scan without the early exit -----

  function HandleWin(bid: Bid): seq<DebugReport> {
    if bid.winUrl != "" then [DebugReport(bid.winUrl, true, true, true)]
    else if bid.winFailedSampling then [DebugReport("", false, true, true)]
    else []
  }

  function HandleLoss(s: Scan, bid: Bid, winning: bool): Scan {
    if !bid.lossFailedSampling && bid.lossUrl == "" then s
    else if !s.lossSelected && bid.lossUrl != "" then
      s.(reports := s.reports + [DebugReport(bid.lossUrl, true, false, winning)], lossSelected := true)
    else if winning then s.(reports := s.reports + [DebugReport("", false, false, true)])
    else s.(confirmedLoss := true)
  }

  function Visit(winner: Winner, owner: string, s: Scan, bid: Bid): Scan {
    var winning := IsWinningIg(winner, owner, bid);
    HandleLoss(if winning then s.(reports := s.reports + HandleWin(bid), winChecked := true) else s, bid, winning)
  }

  function FullScan(winner: Winner, owner: string, bids: seq<Bid>): Scan {
    if bids == [] then START
    else Visit(winner, owner, FullScan(winner, owner, bids[..|bids| - 1]), bids[|bids| - 1])
  }

  function AddCooldown(s: Scan): seq<DebugReport> {
    s.reports + if s.confirmedLoss then [DebugReport("", false, false, false)] else []
  }

  function AllReports(winner: Winner, owner: string, bids: seq<Bid>): seq<DebugReport> {
    AddCooldown(FullScan(winner, owner, bids))
  }

  lemma FullScanNext(winner: Winner, owner: string, bids: seq<Bid>, k: nat)
    requires k < |bids|
    ensures FullScan(winner, owner, bids[..k + 1]) == Visit(winner, owner, FullScan(winner, owner, bids[..k]), bids[k])
  {
    assert bids[..k + 1][..k] == bids[..k];
  }

  // ----- what the reports carry -----

  /**
   What one more bid adds, told by the bids alone: for the winning group its win URL, or an empty win report if that failed
   sampling; then its loss URL if it is the first loss URL of the buyer, and otherwise, for the winning group only,
   an empty loss report if it has a loss URL or one that failed sampling.
   */
  lemma NextReports(winner: Winner, owner: string, bids: seq<Bid>, k: nat)
    requires k < |bids|
    ensures
      var bid := bids[k];
      var winning := owner == winner.owner && bid.name == winner.name;
      var win :=
        if !winning then []
        else if bid.winUrl != "" then [DebugReport(bid.winUrl, true, true, true)]
        else if bid.winFailedSampling then [DebugReport("", false, true, true)] else [];
      var loss :=
        if bid.lossUrl != "" && forall j :: 0 <= j < k ==> bids[j].lossUrl == "" then [DebugReport(bid.lossUrl, true, false, winning)]
        else if winning && (bid.lossUrl != "" || bid.lossFailedSampling) then [DebugReport("", false, false, true)] else [];
      FullScan(winner, owner, bids[..k + 1]).reports == FullScan(winner, owner, bids[..k]).reports + win + loss
  {
    FullScanNext(winner, owner, bids, k);
    FlagsMeaning(winner, owner, bids[..k]);
    var s := FullScan(winner, owner, bids[..k]);
    assert s.lossSelected <==> !forall j :: 0 <= j < k ==> bids[j].lossUrl == "" by {
      assert forall j :: 0 <= j < k ==> bids[..k][j] == bids[j];
    }
    hide FullScan;
    assert s.reports + [] == s.reports;
  }

  /** After the last bid an empty report tells of a losing bid whose loss was not reported, if there is one. */
  lemma CooldownIff(winner: Winner, owner: string, bids: seq<Bid>)
    ensures AddCooldown(FullScan(winner, owner, bids)) ==
              FullScan(winner, owner, bids).reports
              + if exists q :: && 0 <= q < |bids| && !(owner == winner.owner && bids[q].name == winner.name)
                               && (bids[q].lossUrl != "" || bids[q].lossFailedSampling) && !FirstLossUrl(bids, q)
                then [DebugReport("", false, false, false)] else []
  {
    FlagsMeaning(winner, owner, bids);
    hide FullScan, FirstLossUrl;
  }

  /**
   A win report is for a bid of the winning group and carries its win URL or nothing; a loss report with a URL
   carries the loss URL of a bid, and one without is for a bid with a loss URL or one that failed sampling, and
   both tell whether that bid is of the winning group.
   */
  ghost predicate Explained(winner: Winner, owner: string, bids: seq<Bid>, r: DebugReport) {
    && (r.hasPlaceholders <==> r.url != "")
    && (r.isWinReport ==>
          r.isComponentWin &&
          exists i :: 0 <= i < |bids| && owner == winner.owner && bids[i].name == winner.name
                      && (if r.url == "" then bids[i].winUrl == "" && bids[i].winFailedSampling else r.url == bids[i].winUrl))
    && (!r.isWinReport ==>
          exists i :: 0 <= i < |bids|
                      && (if r.url == "" then bids[i].lossUrl != "" || bids[i].lossFailedSampling else r.url == bids[i].lossUrl)
                      && (r.isComponentWin <==> owner == winner.owner && bids[i].name == winner.name))
  }

  lemma ExplainedGrows(winner: Winner, owner: string, bids: seq<Bid>, last: Bid, r: DebugReport)
    requires Explained(winner, owner, bids, r)
    ensures Explained(winner, owner, bids + [last], r)
  {
    var more := bids + [last];
    assert forall i :: 0 <= i < |bids| ==> more[i] == bids[i];
    if r.isWinReport {
      var i :| 0 <= i < |bids| && owner == winner.owner && bids[i].name == winner.name
        && (if r.url == "" then bids[i].winUrl == "" && bids[i].winFailedSampling else r.url == bids[i].winUrl);
      assert more[i].name == winner.name;
    } else {
      var i :| 0 <= i < |bids|
        && (if r.url == "" then bids[i].lossUrl != "" || bids[i].lossFailedSampling else r.url == bids[i].lossUrl)
        && (r.isComponentWin <==> owner == winner.owner && bids[i].name == winner.name);
      assert more[i].lossUrl == bids[i].lossUrl;
    }
  }

  lemma {:induction false} ScanExplained(winner: Winner, owner: string, bids: seq<Bid>, r: DebugReport)
    requires r in FullScan(winner, owner, bids).reports
    ensures Explained(winner, owner, bids, r)
  {
    if bids != [] {
      var n := |bids| - 1;
      NextReports(winner, owner, bids, n);
      assert bids[..n + 1] == bids == bids[..n] + [bids[n]];
      hide FullScan;
      if r in FullScan(winner, owner, bids[..n]).reports {
        ScanExplained(winner, owner, bids[..n], r);
        ExplainedGrows(winner, owner, bids[..n], bids[n], r);
      }
    }
  }

  /** Every report of a buyer in a component auction is explained by the bids that were visited. */
  lemma ReportContents(winner: Winner, owner: string, bids: seq<Bid>, r: DebugReport)
    requires r in AddCooldown(FullScan(winner, owner, bids))
    ensures Explained(winner, owner, bids, r)
  {
    hide FullScan;
    if r in FullScan(winner, owner, bids).reports {
      ScanExplained(winner, owner, bids, r);
    } else {
      CooldownIff(winner, owner, bids);
    }
  }

  lemma AddedExplained(winner: Winner, owner: string, bids: seq<Bid>, before: seq<DebugReport>)
    ensures forall r :: r in before + AddCooldown(FullScan(winner, owner, bids)) ==>
              r in before || Explained(winner, owner, bids, r)
  {
    hide AddCooldown, FullScan;
    forall r | r in AddCooldown(FullScan(winner, owner, bids))
      ensures Explained(winner, owner, bids, r)
    {
      ReportContents(winner, owner, bids, r);
    }
  }

  // ----- the early exit -----

  predicate MayExit(s: Scan) {
    s.winChecked && s.lossSelected && s.confirmedLoss
  }

  /** The scan stops after `e` bids. */
  ghost predicate ExitsAt(winner: Winner, owner: string, bids: seq<Bid>, e: int) {
    && 0 <= e <= |bids|
    && (forall k :: 0 <= k < e ==> !MayExit(FullScan(winner, owner, bids[..k])))
    && (e < |bids| ==> MayExit(FullScan(winner, owner, bids[..e])))
  }

  /** The win or loss URL of the winning group, or its failed sampling, that a full scan would report. */
  predicate Loud(winner: Winner, owner: string, bid: Bid) {
    && IsWinningIg(winner, owner, bid)
    && (bid.winUrl != "" || bid.winFailedSampling || bid.lossUrl != "" || bid.lossFailedSampling)
  }

  predicate HasLoss(bid: Bid) {
    bid.lossUrl != "" || bid.lossFailedSampling
  }

  /** The bid whose loss URL is selected. */
  ghost predicate FirstLossUrl(bids: seq<Bid>, k: int) {
    0 <= k < |bids| && bids[k].lossUrl != "" && forall j :: 0 <= j < k ==> bids[j].lossUrl == ""
  }

  /**
   The scan may exit within these bids: there is a bid of the winning group, some loss URL, and a
   losing bid with a loss report other than the selected one.
   */
  ghost predicate CanExit(winner: Winner, owner: string, bids: seq<Bid>) {
    && (exists w :: 0 <= w < |bids| && IsWinningIg(winner, owner, bids[w]))
    && (exists p :: 0 <= p < |bids| && bids[p].lossUrl != "")
    && ConfirmedLoss(winner, owner, bids)
  }

  ghost predicate ConfirmedLoss(winner: Winner, owner: string, bids: seq<Bid>) {
    exists q :: 0 <= q < |bids| && HasLoss(bids[q]) && !IsWinningIg(winner, owner, bids[q]) && !FirstLossUrl(bids, q)
  }

  lemma VisitFlags(winner: Winner, owner: string, s: Scan, bid: Bid)
    ensures var s' := Visit(winner, owner, s, bid);
            && s'.winChecked == (s.winChecked || IsWinningIg(winner, owner, bid))
            && s'.lossSelected == (s.lossSelected || bid.lossUrl != "")
            && s'.confirmedLoss == (s.confirmedLoss ||
                 (HasLoss(bid) && !IsWinningIg(winner, owner, bid) && (s.lossSelected || bid.lossUrl == "")))
            && s.reports <= s'.reports
  {
  }

  /** The flags in terms of the bids. */
  lemma {:induction false} FlagsMeaning(winner: Winner, owner: string, bids: seq<Bid>)
    ensures var s := FullScan(winner, owner, bids);
            && (s.winChecked <==> exists w :: 0 <= w < |bids| && IsWinningIg(winner, owner, bids[w]))
            && (s.lossSelected <==> exists p :: 0 <= p < |bids| && bids[p].lossUrl != "")
            && (s.confirmedLoss <==> ConfirmedLoss(winner, owner, bids))
  {
    if bids != [] {
      var n := |bids| - 1;
      var front, last := bids[..n], bids[n];
      FlagsMeaning(winner, owner, front);
      VisitFlags(winner, owner, FullScan(winner, owner, front), last);
      hide Visit, IsWinningIg, HasLoss;
      assert forall k :: 0 <= k < n ==> front[k] == bids[k];
      assert (exists w :: 0 <= w < |bids| && IsWinningIg(winner, owner, bids[w]))
        <==> (exists w :: 0 <= w < n && IsWinningIg(winner, owner, front[w])) || IsWinningIg(winner, owner, last);
      assert (exists p :: 0 <= p < |bids| && bids[p].lossUrl != "")
        <==> (exists p :: 0 <= p < n && front[p].lossUrl != "") || last.lossUrl != "";
      ConfirmedLossStep(winner, owner, bids);
    }
  }

  lemma ConfirmedLossStep(winner: Winner, owner: string, bids: seq<Bid>)
    requires bids != []
    ensures var n := |bids| - 1;
            ConfirmedLoss(winner, owner, bids) <==>
              || ConfirmedLoss(winner, owner, bids[..n])
              || (HasLoss(bids[n]) && !IsWinningIg(winner, owner, bids[n])
                  && ((exists p :: 0 <= p < n && bids[..n][p].lossUrl != "") || bids[n].lossUrl == ""))
  {
    hide IsWinningIg, HasLoss;
    var n := |bids| - 1;
    var front := bids[..n];
    assert forall k :: 0 <= k < n ==> front[k] == bids[k];
    forall q | 0 <= q < n
      ensures FirstLossUrl(front, q) <==> FirstLossUrl(bids, q)
    {
    }
    assert FirstLossUrl(bids, n) <==> bids[n].lossUrl != "" && forall p :: 0 <= p < n ==> front[p].lossUrl == "";
    if q :| 0 <= q < |bids| && HasLoss(bids[q]) && !IsWinningIg(winner, owner, bids[q]) && !FirstLossUrl(bids, q) {
      assert q < n ==> HasLoss(front[q]) && !IsWinningIg(winner, owner, front[q]) && !FirstLossUrl(front, q);
    }
    if q :| 0 <= q < n && HasLoss(front[q]) && !IsWinningIg(winner, owner, front[q]) && !FirstLossUrl(front, q) {
      assert HasLoss(bids[q]) && !IsWinningIg(winner, owner, bids[q]) && !FirstLossUrl(bids, q);
    }
  }

  lemma MayExitIff(winner: Winner, owner: string, bids: seq<Bid>)
    ensures MayExit(FullScan(winner, owner, bids)) <==> CanExit(winner, owner, bids)
  {
    FlagsMeaning(winner, owner, bids);
  }

  /** With all flags set, a bid changes the reports iff it is loud. */
  lemma VisitAfterExit(winner: Winner, owner: string, s: Scan, bid: Bid)
    requires MayExit(s)
    ensures !Loud(winner, owner, bid) ==> Visit(winner, owner, s, bid) == s
    ensures Loud(winner, owner, bid) ==> |Visit(winner, owner, s, bid).reports| > |s.reports|
    ensures MayExit(Visit(winner, owner, s, bid))
  {
  }

  lemma {:induction false} AfterExit(winner: Winner, owner: string, bids: seq<Bid>, e: nat)
    requires e <= |bids| && MayExit(FullScan(winner, owner, bids[..e]))
    ensures var (s, t) := (FullScan(winner, owner, bids[..e]), FullScan(winner, owner, bids));
            && MayExit(t)
            && |s.reports| <= |t.reports|
            && ((forall k :: e <= k < |bids| ==> !Loud(winner, owner, bids[k])) ==> t == s)
            && ((exists k :: e <= k < |bids| && Loud(winner, owner, bids[k])) ==> |t.reports| > |s.reports|)
  {
    if e == |bids| {
      assert bids[..e] == bids;
    } else {
      var n := |bids| - 1;
      var front := bids[..n];
      assert front[..e] == bids[..e] && forall k :: 0 <= k < n ==> front[k] == bids[k];
      AfterExit(winner, owner, front, e);
      VisitAfterExit(winner, owner, FullScan(winner, owner, front), bids[n]);
    }
  }

  /** No loud bid comes after a point where the scan exits. */
  ghost predicate NoLateWinner(winner: Winner, owner: string, bids: seq<Bid>) {
    forall i :: 0 <= i < |bids| && CanExit(winner, owner, bids[..i]) ==> !Loud(winner, owner, bids[i])
  }

  lemma CanExitGrows(winner: Winner, owner: string, bids: seq<Bid>, e: nat, k: nat)
    requires e <= k <= |bids| && CanExit(winner, owner, bids[..e])
    ensures CanExit(winner, owner, bids[..k])
  {
    MayExitIff(winner, owner, bids[..e]);
    assert bids[..k][..e] == bids[..e];
    AfterExit(winner, owner, bids[..k], e);
    MayExitIff(winner, owner, bids[..k]);
  }

  /** The early exit reports the same as the full scan exactly when no loud bid is late. */
  lemma {:induction false} EarlyExitSoundIff(winner: Winner, owner: string, bids: seq<Bid>, e: nat)
    requires ExitsAt(winner, owner, bids, e)
    ensures AddCooldown(FullScan(winner, owner, bids[..e])) == AllReports(winner, owner, bids)
       <==> NoLateWinner(winner, owner, bids)
  {
    hide CanExit, Loud, MayExit, Visit;
    forall i | 0 <= i < |bids|
      ensures CanExit(winner, owner, bids[..i]) <==> e <= i
    {
      MayExitIff(winner, owner, bids[..i]);
      if e <= i {
        MayExitIff(winner, owner, bids[..e]);
        CanExitGrows(winner, owner, bids, e, i);
      }
    }
    if e == |bids| {
      assert bids[..e] == bids;
    } else {
      AfterExit(winner, owner, bids, e);
      BothConfirmed(FullScan(winner, owner, bids[..e]), FullScan(winner, owner, bids));
    }
  }

  lemma BothConfirmed(s: Scan, t: Scan)
    requires MayExit(s) && MayExit(t)
    ensures |AddCooldown(s)| == |s.reports| + 1 && |AddCooldown(t)| == |t.reports| + 1
  {
  }

  /** In particular when at most one of the buyer's bids is from the winning group. */
  lemma UniqueWinnerIsNotLate(winner: Winner, owner: string, bids: seq<Bid>)
    requires forall i, j :: 0 <= i < j < |bids| ==>
               !(IsWinningIg(winner, owner, bids[i]) && IsWinningIg(winner, owner, bids[j]))
    ensures NoLateWinner(winner, owner, bids)
  {
    forall i | 0 <= i < |bids| && CanExit(winner, owner, bids[..i])
      ensures !Loud(winner, owner, bids[i])
    {
      var w :| 0 <= w < i && IsWinningIg(winner, owner, bids[..i][w]);
      assert bids[..i][w] == bids[w];
    }
  }

  /** Two bids share the winning group: the report of the second one is lost by the early exit. */
  lemma SharedGroupLosesReport()
    ensures var winner := Winner("buyer", "group");
            var a, b := Bid("group", "", "u", false, false), Bid("other", "", "v", false, false);
            && ExitsAt(winner, "buyer", [a, b, a], 2) && !NoLateWinner(winner, "buyer", [a, b, a])
            && AddCooldown(FullScan(winner, "buyer", [a, b, a][..2])) != AllReports(winner, "buyer", [a, b, a])
  {
    var winner := Winner("buyer", "group");
    var a, b := Bid("group", "", "u", false, false), Bid("other", "", "v", false, false);
    var bids := [a, b, a];
    assert bids[..0] == [] && bids[..1] == [a] && bids[..2] == [a, b];
    assert FullScan(winner, "buyer", [a]) == Visit(winner, "buyer", START, a) by { assert [a][..0] == []; }
    assert FullScan(winner, "buyer", [a, b]) == Visit(winner, "buyer", FullScan(winner, "buyer", [a]), b) by {
      assert [a, b][..1] == [a];
    }
    MayExitIff(winner, "buyer", bids[..2]);
    assert Loud(winner, "buyer", bids[2]);
    EarlyExitSoundIff(winner, "buyer", bids, 2);
  }

  // ----- single-seller auctions -----

  predicate FailedSampling(winner: Winner, owner: string, bid: Bid) {
    if IsWinningIg(winner, owner, bid) then bid.winFailedSampling else bid.lossFailedSampling
  }

  function ConsideredUrl(winner: Winner, owner: string, bid: Bid): string {
    if FailedSampling(winner, owner, bid) then ""
    else if IsWinningIg(winner, owner, bid) then bid.winUrl
    else bid.lossUrl
  }

  ghost predicate FirstUrl(winner: Winner, owner: string, bids: seq<Bid>, k: int) {
    && 0 <= k < |bids| && ConsideredUrl(winner, owner, bids[k]) != ""
    && forall j :: 0 <= j < k ==> ConsideredUrl(winner, owner, bids[j]) == ""
  }

  predicate WinFailed(winner: Winner, owner: string, bids: seq<Bid>) {
    exists k :: 0 <= k < |bids| && IsWinningIg(winner, owner, bids[k]) && bids[k].winFailedSampling
  }

  predicate LossFailed(winner: Winner, owner: string, bids: seq<Bid>) {
    exists k :: 0 <= k < |bids| && !IsWinningIg(winner, owner, bids[k]) && bids[k].lossFailedSampling
  }

  /**
   One report per buyer at most: the first URL that passed sampling, or else a cooldown report, for
   the win if the win URL failed sampling and for a loss otherwise.
   */
  ghost predicate SingleSellerReport(winner: Winner, owner: string, bids: seq<Bid>, reports: seq<DebugReport>) {
    || (exists k :: FirstUrl(winner, owner, bids, k)
          && reports == [DebugReport(ConsideredUrl(winner, owner, bids[k]), true, IsWinningIg(winner, owner, bids[k]), false)])
    || ((forall k :: 0 <= k < |bids| ==> ConsideredUrl(winner, owner, bids[k]) == "")
          && reports == if WinFailed(winner, owner, bids) then [DebugReport("", false, true, false)]
                        else if LossFailed(winner, owner, bids) then [DebugReport("", false, false, false)]
                        else [])
  }

  /**
   The one report carries a URL exactly when some bid has one that counts: the win URL of the winning group unless it
   failed sampling, or the loss URL of any other bid unless that failed.  It is the URL of the first such bid, a win exactly
   for the winning group, and never marked as a component win.
   */
  lemma SingleSellerContents(winner: Winner, owner: string, bids: seq<Bid>, reports: seq<DebugReport>)
    requires SingleSellerReport(winner, owner, bids, reports)
    ensures |reports| <= 1
    ensures forall r :: r in reports ==> !r.isComponentWin && (r.hasPlaceholders <==> r.url != "")
    ensures forall r :: r in reports && r.url != "" ==>
              exists k :: 0 <= k < |bids| && FirstUrl(winner, owner, bids, k)
                          && (r.isWinReport <==> owner == winner.owner && bids[k].name == winner.name)
                          && (if r.isWinReport then r.url == bids[k].winUrl && !bids[k].winFailedSampling
                              else r.url == bids[k].lossUrl && !bids[k].lossFailedSampling)
    ensures (exists r :: r in reports && r.url != "") <==>
              exists k :: 0 <= k < |bids|
                          && (if owner == winner.owner && bids[k].name == winner.name
                              then bids[k].winUrl != "" && !bids[k].winFailedSampling
                              else bids[k].lossUrl != "" && !bids[k].lossFailedSampling)
    ensures
      var url := exists k :: 0 <= k < |bids| && if owner == winner.owner && bids[k].name == winner.name
                                                then bids[k].winUrl != "" && !bids[k].winFailedSampling
                                                else bids[k].lossUrl != "" && !bids[k].lossFailedSampling;
      var winFailed := exists k :: 0 <= k < |bids| && owner == winner.owner && bids[k].name == winner.name && bids[k].winFailedSampling;
      var lossFailed :=
        exists k :: 0 <= k < |bids| && !(owner == winner.owner && bids[k].name == winner.name) && bids[k].lossFailedSampling;
      !url ==> reports == if winFailed then [DebugReport("", false, true, false)]
                          else if lossFailed then [DebugReport("", false, false, false)] else []
  {
    assert forall k :: 0 <= k < |bids| ==>
      (ConsideredUrl(winner, owner, bids[k]) != "" <==>
        if owner == winner.owner && bids[k].name == winner.name
        then bids[k].winUrl != "" && !bids[k].winFailedSampling
        else bids[k].lossUrl != "" && !bids[k].lossFailedSampling);
    if exists k :: 0 <= k < |bids| && ConsideredUrl(winner, owner, bids[k]) != "" {
      var k :| FirstUrl(winner, owner, bids, k)
        && reports == [DebugReport(ConsideredUrl(winner, owner, bids[k]), true, IsWinningIg(winner, owner, bids[k]), false)];
      assert reports[0] in reports && ConsideredUrl(winner, owner, bids[k]) != "";
    }
  }

  // ----- the reactor -----

  datatype BuyerBids = BuyerBids(owner: string, bids: seq<Bid>)

  function ReportsFor(adtechOriginDebugUrls: map<string, seq<DebugReport>>, origin: string): seq<DebugReport> {
    if origin in adtechOriginDebugUrls then adtechOriginDebugUrls[origin] else []
  }

  /** The reports of the first `e` bids of a buyer. */
  function ReportsUpTo(winner: Winner, buyer: BuyerBids, e: nat): seq<DebugReport> {
    AddCooldown(FullScan(winner, buyer.owner, if e <= |buyer.bids| then buyer.bids[..e] else buyer.bids))
  }

  lemma ReportsUpToExit(winner: Winner, buyer: BuyerBids, e: nat)
    requires ExitsAt(winner, buyer.owner, buyer.bids, e)
    ensures NoLateWinner(winner, buyer.owner, buyer.bids) ==>
              ReportsUpTo(winner, buyer, e) == AllReports(winner, buyer.owner, buyer.bids)
  {
    EarlyExitSoundIff(winner, buyer.owner, buyer.bids, e);
  }

  lemma ReportsUpToExits(winner: Winner, buyers: seq<BuyerBids>, exits: seq<nat>)
    requires |exits| == |buyers|
    requires forall i :: 0 <= i < |buyers| ==> ExitsAt(winner, buyers[i].owner, buyers[i].bids, exits[i])
    ensures forall i :: 0 <= i < |buyers| ==>
              NoLateWinner(winner, buyers[i].owner, buyers[i].bids) ==>
                ReportsUpTo(winner, buyers[i], exits[i]) == AllReports(winner, buyers[i].owner, buyers[i].bids)
  {
    hide ExitsAt, NoLateWinner, ReportsUpTo, AllReports;
    forall i | 0 <= i < |buyers|
      ensures NoLateWinner(winner, buyers[i].owner, buyers[i].bids) ==>
                ReportsUpTo(winner, buyers[i], exits[i]) == AllReports(winner, buyers[i].owner, buyers[i].bids)
    {
      ReportsUpToExit(winner, buyers[i], exits[i]);
    }
  }

  /** The first buyers have got the reports up to the exits of their scans, and nobody else any. */
  ghost predicate Reported(
    before: map<string, seq<DebugReport>>, after: map<string, seq<DebugReport>>, winner: Winner, buyers: seq<BuyerBids>,
    exits: seq<nat>)
  {
    && |exits| <= |buyers|
    && (forall i :: 0 <= i < |exits| ==>
          && ExitsAt(winner, buyers[i].owner, buyers[i].bids, exits[i])
          && ReportsFor(after, buyers[i].owner) == ReportsFor(before, buyers[i].owner) + ReportsUpTo(winner, buyers[i], exits[i]))
    && forall other :: (forall i :: 0 <= i < |exits| ==> buyers[i].owner != other) ==>
         ReportsFor(after, other) == ReportsFor(before, other)
  }

  lemma NoneReported(before: map<string, seq<DebugReport>>, winner: Winner, buyers: seq<BuyerBids>)
    ensures Reported(before, before, winner, buyers, [])
  {
  }

  lemma ReportedMeans(
    before: map<string, seq<DebugReport>>, after: map<string, seq<DebugReport>>, winner: Winner, buyers: seq<BuyerBids>,
    exits: seq<nat>)
    requires Reported(before, after, winner, buyers, exits) && |exits| == |buyers|
    ensures forall i :: 0 <= i < |buyers| ==>
              && ExitsAt(winner, buyers[i].owner, buyers[i].bids, exits[i])
              && ReportsFor(after, buyers[i].owner) == ReportsFor(before, buyers[i].owner) + ReportsUpTo(winner, buyers[i], exits[i])
    ensures forall other :: (forall i :: 0 <= i < |buyers| ==> buyers[i].owner != other) ==>
              ReportsFor(after, other) == ReportsFor(before, other)
  {
  }

  lemma ReportedStep(
    before: map<string, seq<DebugReport>>, mid: map<string, seq<DebugReport>>, after: map<string, seq<DebugReport>>,
    winner: Winner, buyers: seq<BuyerBids>, exits: seq<nat>, e: nat)
    requires Reported(before, mid, winner, buyers, exits) && |exits| < |buyers|
    requires forall i, j :: 0 <= i < j < |buyers| ==> buyers[i].owner != buyers[j].owner
    requires var buyer := buyers[|exits|];
             && e <= |buyer.bids| && ExitsAt(winner, buyer.owner, buyer.bids, e)
             && ReportsFor(after, buyer.owner)
                == ReportsFor(mid, buyer.owner) + AddCooldown(FullScan(winner, buyer.owner, buyer.bids[..e]))
             && forall other :: other != buyer.owner ==> ReportsFor(after, other) == ReportsFor(mid, other)
    ensures Reported(before, after, winner, buyers, exits + [e])
  {
    hide ExitsAt, FullScan, AddCooldown, ReportsFor;
    assert ReportsUpTo(winner, buyers[|exits|], e) == AddCooldown(FullScan(winner, buyers[|exits|].owner, buyers[|exits|].bids[..e]));
    hide ReportsUpTo;
    forall other | forall i :: 0 <= i < |exits + [e]| ==> buyers[i].owner != other
      ensures ReportsFor(after, other) == ReportsFor(before, other)
    {
      assert buyers[|exits|].owner != other;
    }
  }

  class BuyerDebugReporter {
    const winner: Winner
    var adtechOriginDebugUrls: map<string, seq<DebugReport>>

    constructor (winner: Winner)
      ensures this.winner == winner && adtechOriginDebugUrls == map[]
    {
      this.winner, adtechOriginDebugUrls := winner, map[];
    }

    /** Appends a report to the reports of one ad tech; no other ad tech is affected. */
    method AddBuyerDebugReportToResponse(url: string, origin: string, isWin: bool, isComponentWin: bool, hasPlaceholders: bool)
      modifies this
      ensures ReportsFor(adtechOriginDebugUrls, origin)
           == ReportsFor(old(adtechOriginDebugUrls), origin) + [DebugReport(url, hasPlaceholders, isWin, isComponentWin)]
      ensures forall other :: other != origin ==>
                ReportsFor(adtechOriginDebugUrls, other) == ReportsFor(old(adtechOriginDebugUrls), other)
    {
      var reports := if origin in adtechOriginDebugUrls then adtechOriginDebugUrls[origin] else [];
      adtechOriginDebugUrls := adtechOriginDebugUrls[origin := reports + [DebugReport(url, hasPlaceholders, isWin, isComponentWin)]];
    }

    ghost predicate OnlyOrigin(before: map<string, seq<DebugReport>>, owner: string, added: seq<DebugReport>)
      reads this
    {
      && ReportsFor(adtechOriginDebugUrls, owner) == ReportsFor(before, owner) + added
      && forall other :: other != owner ==> ReportsFor(adtechOriginDebugUrls, other) == ReportsFor(before, other)
    }

    method HandleSampledDebugWinReportForComponentAuctionWinner(
      owner: string, bid: Bid, ghost before: map<string, seq<DebugReport>>, ghost reports: seq<DebugReport>)
      requires OnlyOrigin(before, owner, reports)
      modifies this
      ensures OnlyOrigin(before, owner, reports + HandleWin(bid))
      ensures ReportsFor(adtechOriginDebugUrls, owner) ==
                ReportsFor(old(adtechOriginDebugUrls), owner)
                + if bid.winUrl != "" then [DebugReport(bid.winUrl, true, true, true)]
                  else if bid.winFailedSampling then [DebugReport("", false, true, true)] else []
    {
      if bid.winUrl != "" {
        AddBuyerDebugReportToResponse(bid.winUrl, owner, true, true, true);
      } else if bid.winFailedSampling {
        AddBuyerDebugReportToResponse("", owner, true, true, false);
      }
    }

    method HandleSampledDebugLossReportForComponentAuctionAd(
      owner: string, bid: Bid, isWinningIg: bool, lossUrlSelected: bool, confirmedLoss: bool,
      ghost before: map<string, seq<DebugReport>>, ghost s: Scan)
      returns (selected: bool, confirmed: bool)
      requires lossUrlSelected == s.lossSelected && confirmedLoss == s.confirmedLoss
      requires OnlyOrigin(before, owner, s.reports)
      modifies this
      ensures var s' := HandleLoss(s, bid, isWinningIg);
              OnlyOrigin(before, owner, s'.reports) && selected == s'.lossSelected && confirmed == s'.confirmedLoss
      ensures
        var picked, failed := bid.lossUrl != "" && !lossUrlSelected, bid.lossFailedSampling || bid.lossUrl != "";
        && selected == (lossUrlSelected || picked)
        && confirmed == (confirmedLoss || (failed && !picked && !isWinningIg))
        && ReportsFor(adtechOriginDebugUrls, owner) ==
             ReportsFor(old(adtechOriginDebugUrls), owner)
             + if picked then [DebugReport(bid.lossUrl, true, false, isWinningIg)]
               else if failed && isWinningIg then [DebugReport("", false, false, true)] else []
    {
      selected, confirmed := lossUrlSelected, confirmedLoss;
      if !bid.lossFailedSampling && bid.lossUrl == "" {
        return;
      }
      if !lossUrlSelected && bid.lossUrl != "" {
        AddBuyerDebugReportToResponse(bid.lossUrl, owner, false, isWinningIg, true);
        selected := true;
        return;
      }
      if isWinningIg {
        AddBuyerDebugReportToResponse("", owner, false, true, false);
        return;
      }
      confirmed := true;
    }

    /** One buyer of a component auction; `e` is the number of bids visited. */
    method ReportComponentBuyer(owner: string, bids: seq<Bid>) returns (ghost e: nat)
      modifies this
      ensures e <= |bids| && ExitsAt(winner, owner, bids, e)
      ensures OnlyOrigin(old(adtechOriginDebugUrls), owner, AddCooldown(FullScan(winner, owner, bids[..e])))
      ensures NoLateWinner(winner, owner, bids) ==>
                OnlyOrigin(old(adtechOriginDebugUrls), owner, AllReports(winner, owner, bids))
      ensures forall r :: r in ReportsFor(adtechOriginDebugUrls, owner) ==>
                r in ReportsFor(old(adtechOriginDebugUrls), owner) || Explained(winner, owner, bids[..e], r)
    {
      hide Explained;
      hide Visit, HandleLoss, HandleWin, NoLateWinner, FullScan;
      ghost var before := adtechOriginDebugUrls;
      var winChecked, lossSelected, confirmedLoss := false, false, false;
      var k := 0;
      ScanStart(winner, owner, bids);
      while k < |bids|
        invariant 0 <= k <= |bids|
        invariant OnlyOrigin(before, owner, FullScan(winner, owner, bids[..k]).reports)
        invariant var s := FullScan(winner, owner, bids[..k]);
                  winChecked == s.winChecked && lossSelected == s.lossSelected && confirmedLoss == s.confirmedLoss
        invariant forall j :: 0 <= j < k ==> !MayExit(FullScan(winner, owner, bids[..j]))
      {
        ghost var s := FullScan(winner, owner, bids[..k]);
        if winChecked && lossSelected && confirmedLoss {
          break;
        }
        var bid := bids[k];
        var isWinningIg := owner == winner.owner && bid.name == winner.name;
        FullScanNext(winner, owner, bids, k);
        VisitParts(winner, owner, s, bid);
        ghost var afterWin := if isWinningIg then s.(reports := s.reports + HandleWin(bid), winChecked := true) else s;
        if isWinningIg {
          HandleSampledDebugWinReportForComponentAuctionWinner(owner, bid, before, s.reports);
          winChecked := true;
        }
        lossSelected, confirmedLoss :=
          HandleSampledDebugLossReportForComponentAuctionAd(owner, bid, isWinningIg, lossSelected, confirmedLoss, before, afterWin);
        k := k + 1;
      }
      e := k;
      if confirmedLoss {
        AddBuyerDebugReportToResponse("", owner, false, false, false);
      }
      EarlyExitSoundIff(winner, owner, bids, e);
      hide AddCooldown, ReportsFor, AllReports;
      AddedExplained(winner, owner, bids[..e], ReportsFor(before, owner));
    }

    /** One buyer of a single-seller auction. */
    method ReportSingleSellerBuyer(owner: string, bids: seq<Bid>) returns (ghost added: seq<DebugReport>)
      modifies this
      ensures SingleSellerReport(winner, owner, bids, added) && |added| <= 1
      ensures OnlyOrigin(old(adtechOriginDebugUrls), owner, added)
    {
      var cooldownForWin, cooldownForLoss := false, false;
      for k := 0 to |bids|
        invariant adtechOriginDebugUrls == old(adtechOriginDebugUrls)
        invariant forall j :: 0 <= j < k ==> ConsideredUrl(winner, owner, bids[j]) == ""
        invariant cooldownForWin <==> exists j :: 0 <= j < k && IsWinningIg(winner, owner, bids[j]) && bids[j].winFailedSampling
        invariant cooldownForLoss <==> exists j :: 0 <= j < k && !IsWinningIg(winner, owner, bids[j]) && bids[j].lossFailedSampling
      {
        var bid := bids[k];
        var isWinningIg := owner == winner.owner && bid.name == winner.name;
        if isWinningIg && bid.winFailedSampling {
          cooldownForWin := true;
          continue;
        }
        if !isWinningIg && bid.lossFailedSampling {
          cooldownForLoss := true;
          continue;
        }
        var url := if isWinningIg then bid.winUrl else bid.lossUrl;
        if url == "" {
          continue;
        }
        AddBuyerDebugReportToResponse(url, owner, isWinningIg, false, true);
        added := [DebugReport(url, true, isWinningIg, false)];
        assert FirstUrl(winner, owner, bids, k);
        return;
      }
      added := [];
      if cooldownForWin {
        AddBuyerDebugReportToResponse("", owner, true, false, false);
        added := [DebugReport("", false, true, false)];
      } else if cooldownForLoss {
        AddBuyerDebugReportToResponse("", owner, false, false, false);
        added := [DebugReport("", false, false, false)];
      }
    }

    /**
     All buyers of a component auction.  Buyer i gets the reports of its bids up to the exit of its scan, which are
     those of all its bids if it has no late winner; nobody else gets any.
     */
    method PerformSampledDebugReportingForComponentAuction(buyers: seq<BuyerBids>) returns (ghost exits: seq<nat>)
      requires forall i, j :: 0 <= i < j < |buyers| ==> buyers[i].owner != buyers[j].owner
      modifies this
      ensures |exits| == |buyers|
      ensures forall i :: 0 <= i < |buyers| ==>
                && ExitsAt(winner, buyers[i].owner, buyers[i].bids, exits[i])
                && ReportsFor(adtechOriginDebugUrls, buyers[i].owner)
                   == ReportsFor(old(adtechOriginDebugUrls), buyers[i].owner) + ReportsUpTo(winner, buyers[i], exits[i])
                && (NoLateWinner(winner, buyers[i].owner, buyers[i].bids) ==>
                      ReportsUpTo(winner, buyers[i], exits[i]) == AllReports(winner, buyers[i].owner, buyers[i].bids))
      ensures forall other :: (forall i :: 0 <= i < |buyers| ==> buyers[i].owner != other) ==>
                ReportsFor(adtechOriginDebugUrls, other) == ReportsFor(old(adtechOriginDebugUrls), other)
    {
      hide NoLateWinner, AllReports, ExitsAt, FullScan, ReportsFor, Reported;
      exits := [];
      NoneReported(adtechOriginDebugUrls, winner, buyers);
      for k := 0 to |buyers|
        invariant |exits| == k && Reported(old(adtechOriginDebugUrls), adtechOriginDebugUrls, winner, buyers, exits)
      {
        ghost var mid := adtechOriginDebugUrls;
        ghost var e := ReportComponentBuyer(buyers[k].owner, buyers[k].bids);
        ReportedStep(old(adtechOriginDebugUrls), mid, adtechOriginDebugUrls, winner, buyers, exits, e);
        exits := exits + [e];
      }
      ReportedMeans(old(adtechOriginDebugUrls), adtechOriginDebugUrls, winner, buyers, exits);
      ReportsUpToExits(winner, buyers, exits);
    }

    /** All buyers of a single-seller auction: each gets its one report or none, and nobody else gets any. */
    method PerformSampledDebugReportingForSingleSeller(buyers: seq<BuyerBids>) returns (ghost added: seq<seq<DebugReport>>)
      requires forall i, j :: 0 <= i < j < |buyers| ==> buyers[i].owner != buyers[j].owner
      modifies this
      ensures |added| == |buyers|
      ensures forall i :: 0 <= i < |buyers| ==>
                && SingleSellerReport(winner, buyers[i].owner, buyers[i].bids, added[i]) && |added[i]| <= 1
                && ReportsFor(adtechOriginDebugUrls, buyers[i].owner)
                   == ReportsFor(old(adtechOriginDebugUrls), buyers[i].owner) + added[i]
      ensures forall other :: (forall i :: 0 <= i < |buyers| ==> buyers[i].owner != other) ==>
                ReportsFor(adtechOriginDebugUrls, other) == ReportsFor(old(adtechOriginDebugUrls), other)
    {
      hide SingleSellerReport;
      added := [];
      for k := 0 to |buyers|
        invariant |added| == k
        invariant forall i :: 0 <= i < k ==>
                    && SingleSellerReport(winner, buyers[i].owner, buyers[i].bids, added[i]) && |added[i]| <= 1
                    && ReportsFor(adtechOriginDebugUrls, buyers[i].owner)
                       == ReportsFor(old(adtechOriginDebugUrls), buyers[i].owner) + added[i]
        invariant forall other :: (forall i :: 0 <= i < k ==> buyers[i].owner != other) ==>
                    ReportsFor(adtechOriginDebugUrls, other) == ReportsFor(old(adtechOriginDebugUrls), other)
      {
        ghost var reports := ReportSingleSellerBuyer(buyers[k].owner, buyers[k].bids);
        added := added + [reports];
      }
    }
  }

  lemma ScanStart(winner: Winner, owner: string, bids: seq<Bid>)
    ensures FullScan(winner, owner, bids[..0]) == START
  {
  }

  lemma VisitParts(winner: Winner, owner: string, s: Scan, bid: Bid)
    ensures var winning := IsWinningIg(winner, owner, bid);
            var afterWin := if winning then s.(reports := s.reports + HandleWin(bid), winChecked := true) else s;
            && Visit(winner, owner, s, bid) == HandleLoss(afterWin, bid, winning)
            && Visit(winner, owner, s, bid).winChecked == afterWin.winChecked
  {
  }
}
