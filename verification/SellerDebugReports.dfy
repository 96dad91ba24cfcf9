/**
 Sampled debug reports of the seller (services/auction_service/score_ads_reactor.cc).

 Every debug URL that is considered draws a random bit; `draws` is the stream of these bits.  The
 ads come in the unspecified order of a hash map, so nothing is assumed about the list.
 */
module SellerDebugReports {

  /** The recorded score of an ad: its interest group and its two debug URLs ("" when absent). */
  datatype AdUrls = AdUrls(owner: string, name: string, winUrl: string, lossUrl: string)

  /** A report; `url` is the URL before placeholders are filled in, which happens iff `hasPlaceholders`. */
  datatype DebugReport = DebugReport(url: string, hasPlaceholders: bool, isWinReport: bool, isComponentWin: bool)

  /** What a run depends on: the budget, the winning interest group and the win URL in the response. */
  datatype Env = Env(draws: nat -> bool, maxSize: nat, winningOwner: string, winningName: string, responseWinUrl: string)

  /** The state of the scan for a component auction. */
  datatype Scan = Scan(
    reports: seq<DebugReport>, size: nat, drawn: nat, winChecked: bool, lossSelected: bool, confirmedLoss: bool)

  const START := Scan([], 0, 0, false, false, false)

  predicate IsWinningIg(env: Env, ad: AdUrls) {
    ad.owner == env.winningOwner && ad.name == env.winningName
  }

  // ----- the scan without the early exit -----

  /** Adds a report unless the budget would be exceeded. */
  function AddReport(env: Env, s: Scan, url: string, hasPlaceholders: bool, isWin: bool, isComponentWin: bool): Scan {
    if |url| + s.size > env.maxSize then s
    else s.(reports := s.reports + [DebugReport(url, hasPlaceholders, isWin, isComponentWin)], size := s.size + |url|)
  }

  function SampleWin(env: Env, s: Scan): Scan {
    if env.responseWinUrl == "" then s
    else
      var s' := s.(drawn := s.drawn + 1);
      if env.draws(s.drawn) then AddReport(env, s', env.responseWinUrl, true, true, true)
      else AddReport(env, s', "", false, true, true)
  }

  function SampleLoss(env: Env, s: Scan, ad: AdUrls): Scan {
    if ad.lossUrl == "" then s
    else if !s.lossSelected && env.draws(s.drawn) then
      AddReport(env, s.(drawn := s.drawn + 1), ad.lossUrl, true, false, IsWinningIg(env, ad)).(lossSelected := true)
    else
      var s' := if s.lossSelected then s else s.(drawn := s.drawn + 1);
      if IsWinningIg(env, ad) then AddReport(env, s', "", false, false, true) else s'.(confirmedLoss := true)
  }

  function Visit(env: Env, s: Scan, ad: AdUrls): Scan {
    SampleLoss(env, if IsWinningIg(env, ad) then SampleWin(env, s).(winChecked := true) else s, ad)
  }

  /**
   What visiting an ad adds: for the winning group the win URL of the response or an empty win report, as drawn, and then
   the loss URL of the ad if none was selected before and its draw succeeds; if it is not selected, an empty report for the
   winning group and nothing but a confirmed loss for any other.  URLs beyond the budget are left out.
   */
  lemma VisitMeaning(env: Env, s: Scan, ad: AdUrls)
    requires s.size <= env.maxSize
    ensures
      var t := Visit(env, s, ad);
      var winning := ad.owner == env.winningOwner && ad.name == env.winningName;
      var winDrawn := winning && env.responseWinUrl != "";
      var winPicked := winDrawn && env.draws(s.drawn);
      var win :=
        if winPicked then (if s.size + |env.responseWinUrl| <= env.maxSize then [DebugReport(env.responseWinUrl, true, true, true)] else [])
        else if winDrawn then [DebugReport("", false, true, true)] else [];
      var size := s.size + if winPicked && s.size + |env.responseWinUrl| <= env.maxSize then |env.responseWinUrl| else 0;
      var drawn := s.drawn + if winDrawn then 1 else 0;
      var lossPicked := ad.lossUrl != "" && !s.lossSelected && env.draws(drawn);
      var loss :=
        if lossPicked then (if size + |ad.lossUrl| <= env.maxSize then [DebugReport(ad.lossUrl, true, false, winning)] else [])
        else if ad.lossUrl != "" && winning then [DebugReport("", false, false, true)] else [];
      && t.reports == s.reports + win + loss
      && t.size == size + (if lossPicked && size + |ad.lossUrl| <= env.maxSize then |ad.lossUrl| else 0)
      && t.drawn == drawn + (if ad.lossUrl != "" && !s.lossSelected then 1 else 0)
      && t.winChecked == (s.winChecked || winning)
      && t.lossSelected == (s.lossSelected || lossPicked)
      && t.confirmedLoss == (s.confirmedLoss || (ad.lossUrl != "" && !lossPicked && !winning))
  {
    WinMeaning(env, s);
    LossMeaning(env, if IsWinningIg(env, ad) then SampleWin(env, s).(winChecked := true) else s, ad);
    hide SampleWin, SampleLoss;
    assert s.reports + [] == s.reports;
  }

  lemma WinMeaning(env: Env, s: Scan)
    requires s.size <= env.maxSize
    ensures
      var t := SampleWin(env, s);
      var picked := env.responseWinUrl != "" && env.draws(s.drawn);
      var fits := s.size + |env.responseWinUrl| <= env.maxSize;
      && t.reports ==
           s.reports
           + (if picked then (if fits then [DebugReport(env.responseWinUrl, true, true, true)] else [])
              else if env.responseWinUrl != "" then [DebugReport("", false, true, true)] else [])
      && t.size == s.size + (if picked && fits then |env.responseWinUrl| else 0)
      && t.drawn == s.drawn + (if env.responseWinUrl != "" then 1 else 0)
      && t.winChecked == s.winChecked && t.lossSelected == s.lossSelected && t.confirmedLoss == s.confirmedLoss
      && t.size <= env.maxSize
  {
    assert s.reports + [] == s.reports;
  }

  lemma LossMeaning(env: Env, s: Scan, ad: AdUrls)
    requires s.size <= env.maxSize
    ensures
      var t := SampleLoss(env, s, ad);
      var winning := ad.owner == env.winningOwner && ad.name == env.winningName;
      var picked := ad.lossUrl != "" && !s.lossSelected && env.draws(s.drawn);
      var fits := s.size + |ad.lossUrl| <= env.maxSize;
      && t.reports ==
           s.reports
           + (if picked then (if fits then [DebugReport(ad.lossUrl, true, false, winning)] else [])
              else if ad.lossUrl != "" && winning then [DebugReport("", false, false, true)] else [])
      && t.size == s.size + (if picked && fits then |ad.lossUrl| else 0)
      && t.drawn == s.drawn + (if ad.lossUrl != "" && !s.lossSelected then 1 else 0)
      && t.winChecked == s.winChecked && t.lossSelected == (s.lossSelected || picked)
      && t.confirmedLoss == (s.confirmedLoss || (ad.lossUrl != "" && !picked && !winning))
  {
    assert s.reports + [] == s.reports;
  }

  function FullScan(env: Env, s: Scan, ads: seq<AdUrls>): Scan {
    if ads == [] then s else Visit(env, FullScan(env, s, ads[..|ads| - 1]), ads[|ads| - 1])
  }

  function AddCooldown(env: Env, s: Scan): seq<DebugReport> {
    if s.confirmedLoss then AddReport(env, s, "", false, false, false).reports else s.reports
  }

  /** The reports a scan over all ads produces. */
  function AllReports(env: Env, ads: seq<AdUrls>): seq<DebugReport> {
    AddCooldown(env, FullScan(env, START, ads))
  }

  // ----- the early exit -----

  predicate MayExit(s: Scan) {
    s.winChecked && s.lossSelected && s.confirmedLoss
  }

  /** The number of ads visited before the scan exits. */
  function ExitPoint(env: Env, ads: seq<AdUrls>): (e: nat)
    ensures e <= |ads|
    ensures e < |ads| ==> MayExit(FullScan(env, START, ads[..e]))
  {
    if ads == [] then 0
    else
      var front := ads[..|ads| - 1];
      var e := ExitPoint(env, front);
      assert e < |front| ==> front[..e] == ads[..e];
      if e < |front| then e else if MayExit(FullScan(env, START, front)) then |front| else |ads|
  }

  /** The reports of the scan that exits early. */
  function EarlyReports(env: Env, ads: seq<AdUrls>): seq<DebugReport> {
    AddCooldown(env, FullScan(env, START, ads[..ExitPoint(env, ads)]))
  }

  /** The scan exits no later than the first point where it may. */
  lemma {:induction false} ExitPointIsFirst(env: Env, ads: seq<AdUrls>, k: nat)
    requires k <= |ads| && MayExit(FullScan(env, START, ads[..k]))
    ensures ExitPoint(env, ads) <= k
  {
    if k < |ads| {
      assert ads[..|ads| - 1][..k] == ads[..k];
      ExitPointIsFirst(env, ads[..|ads| - 1], k);
    }
  }

  // ----- invariants of the scan -----

  function TotalUrlSize(reports: seq<DebugReport>): nat {
    if reports == [] then 0 else TotalUrlSize(reports[..|reports| - 1]) + |reports[|reports| - 1].url|
  }

  function LossUrls(reports: seq<DebugReport>): nat {
    if reports == [] then 0
    else
      var last := reports[|reports| - 1];
      LossUrls(reports[..|reports| - 1]) + if last.url != "" && !last.isWinReport then 1 else 0
  }

  function WinningAds(env: Env, ads: seq<AdUrls>): nat {
    if ads == [] then 0 else WinningAds(env, ads[..|ads| - 1]) + if IsWinningIg(env, ads[|ads| - 1]) then 1 else 0
  }

  /** The budget is kept, at most one loss URL was added, and each winning ad accounts for at most two reports. */
  ghost predicate Sound(env: Env, s: Scan, winners: nat) {
    && TotalUrlSize(s.reports) == s.size <= env.maxSize
    && LossUrls(s.reports) <= (if s.lossSelected then 1 else 0)
    && |s.reports| <= 2 * winners + (if s.lossSelected then 1 else 0)
  }

  lemma AddReportSound(env: Env, s: Scan, url: string, hasPlaceholders: bool, isWin: bool, isComponentWin: bool)
    requires TotalUrlSize(s.reports) == s.size <= env.maxSize
    ensures var s' := AddReport(env, s, url, hasPlaceholders, isWin, isComponentWin);
            && TotalUrlSize(s'.reports) == s'.size <= env.maxSize
            && LossUrls(s'.reports) <= LossUrls(s.reports) + (if url != "" && !isWin then 1 else 0)
            && |s.reports| <= |s'.reports| <= |s.reports| + 1
            && (url == "" ==> |s'.reports| == |s.reports| + 1)
  {
    var report := DebugReport(url, hasPlaceholders, isWin, isComponentWin);
    assert (s.reports + [report])[..|s.reports|] == s.reports;
  }

  lemma VisitSound(env: Env, s: Scan, winners: nat, ad: AdUrls)
    requires Sound(env, s, winners)
    ensures Sound(env, Visit(env, s, ad), winners + if IsWinningIg(env, ad) then 1 else 0)
    ensures |s.reports| <= |Visit(env, s, ad).reports|
  {
    hide TotalUrlSize, LossUrls, AddReport;
    var s1 := s;
    if IsWinningIg(env, ad) {
      var s0 := s.(drawn := s.drawn + 1);
      AddReportSound(env, s0, env.responseWinUrl, true, true, true);
      AddReportSound(env, s0, "", false, true, true);
      AddReportKeeps(env, s0, env.responseWinUrl, true, true, true);
      AddReportKeeps(env, s0, "", false, true, true);
      s1 := SampleWin(env, s).(winChecked := true);
    }
    var s2 := s1.(drawn := s1.drawn + 1);
    AddReportSound(env, s2, ad.lossUrl, true, false, IsWinningIg(env, ad));
    AddReportKeeps(env, s2, ad.lossUrl, true, false, IsWinningIg(env, ad));
    AddReportSound(env, s2, "", false, false, true);
    AddReportKeeps(env, s2, "", false, false, true);
    AddReportSound(env, s1, "", false, false, true);
    AddReportKeeps(env, s1, "", false, false, true);
  }

  lemma AddReportKeeps(env: Env, s: Scan, url: string, hasPlaceholders: bool, isWin: bool, isComponentWin: bool)
    ensures var s' := AddReport(env, s, url, hasPlaceholders, isWin, isComponentWin);
            && s'.drawn == s.drawn && s'.winChecked == s.winChecked
            && s'.lossSelected == s.lossSelected && s'.confirmedLoss == s.confirmedLoss
  {
  }

  lemma {:induction false} FullScanSound(env: Env, ads: seq<AdUrls>)
    ensures Sound(env, FullScan(env, START, ads), WinningAds(env, ads))
  {
    if ads != [] {
      var front := ads[..|ads| - 1];
      FullScanSound(env, front);
      VisitSound(env, FullScan(env, START, front), WinningAds(env, front), ads[|ads| - 1]);
    }
  }

  lemma {:induction false} WinningAdsPrefix(env: Env, ads: seq<AdUrls>, e: nat)
    requires e <= |ads|
    ensures WinningAds(env, ads[..e]) <= WinningAds(env, ads)
  {
    if e < |ads| {
      WinningAdsPrefix(env, ads[..|ads| - 1], e);
      assert ads[..|ads| - 1][..e] == ads[..e];
    } else {
      assert ads[..e] == ads;
    }
  }

  /**
   What a response of a component auction can contain, exit or not: URLs within the budget, at most
   one loss URL, and at most two reports more than twice the number of ads of the winning group.
   */
  lemma ReportsBounded(env: Env, ads: seq<AdUrls>, e: nat)
    requires e <= |ads|
    ensures var reports := AddCooldown(env, FullScan(env, START, ads[..e]));
            && TotalUrlSize(reports) <= env.maxSize
            && LossUrls(reports) <= 1
            && |reports| <= 2 * WinningAds(env, ads) + 2
  {
    hide TotalUrlSize, LossUrls, AddReport, FullScan;
    FullScanSound(env, ads[..e]);
    WinningAdsPrefix(env, ads, e);
    AddReportSound(env, FullScan(env, START, ads[..e]), "", false, false, false);
  }

  // ----- what the reports carry -----

  /**
   A win report is for an ad of the winning group and carries the win URL of the response or nothing; a loss report
   with a URL carries the loss URL of an ad, and one without is for an ad that has a loss URL, and both tell
   whether that ad is of the winning group.
   */
  ghost predicate Explained(env: Env, ads: seq<AdUrls>, r: DebugReport) {
    && (r.hasPlaceholders <==> r.url != "")
    && (r.isWinReport ==>
          && r.isComponentWin && env.responseWinUrl != "" && (r.url == env.responseWinUrl || r.url == "")
          && exists i :: 0 <= i < |ads| && ads[i].owner == env.winningOwner && ads[i].name == env.winningName)
    && (!r.isWinReport ==>
          exists i :: 0 <= i < |ads| && ads[i].lossUrl != "" && (r.url == ads[i].lossUrl || r.url == "")
                      && (r.isComponentWin <==> ads[i].owner == env.winningOwner && ads[i].name == env.winningName))
  }

  lemma ExplainedGrows(env: Env, ads: seq<AdUrls>, last: AdUrls, r: DebugReport)
    requires Explained(env, ads, r)
    ensures Explained(env, ads + [last], r)
  {
    var more := ads + [last];
    assert forall i :: 0 <= i < |ads| ==> more[i] == ads[i];
    if r.isWinReport {
      var i :| 0 <= i < |ads| && ads[i].owner == env.winningOwner && ads[i].name == env.winningName;
      assert more[i].owner == env.winningOwner;
    } else {
      var i :| 0 <= i < |ads| && ads[i].lossUrl != "" && (r.url == ads[i].lossUrl || r.url == "")
        && (r.isComponentWin <==> ads[i].owner == env.winningOwner && ads[i].name == env.winningName);
      assert more[i].lossUrl != "";
    }
  }

  lemma VisitExplained(env: Env, s: Scan, front: seq<AdUrls>, last: AdUrls, r: DebugReport)
    requires s.size <= env.maxSize && r in Visit(env, s, last).reports && (r in s.reports ==> Explained(env, front, r))
    ensures Explained(env, front + [last], r)
  {
    VisitMeaning(env, s, last);
    hide Visit;
    var ads := front + [last];
    assert ads[|front|] == last;
    if r in s.reports {
      ExplainedGrows(env, front, last, r);
    }
  }

  lemma {:induction false} ScanExplained(env: Env, ads: seq<AdUrls>, r: DebugReport)
    requires r in FullScan(env, START, ads).reports
    ensures Explained(env, ads, r)
  {
    if ads != [] {
      hide Visit, Explained, TotalUrlSize;
      var front, last := ads[..|ads| - 1], ads[|ads| - 1];
      FullScanSound(env, front);
      if r in FullScan(env, START, front).reports {
        ScanExplained(env, front, r);
      }
      VisitExplained(env, FullScan(env, START, front), front, last, r);
      assert ads == front + [last];
    }
  }

  lemma {:induction false} ConfirmedByLosingAd(env: Env, ads: seq<AdUrls>)
    requires FullScan(env, START, ads).confirmedLoss
    ensures exists i :: 0 <= i < |ads| && ads[i].lossUrl != "" && !(ads[i].owner == env.winningOwner && ads[i].name == env.winningName)
  {
    FullScanFlags(env, ads);
    var q :| 0 <= q < |ads| && ads[q].lossUrl != "" && !IsWinningIg(env, ads[q]);
  }

  /** Every report of a component auction, exit or not, is explained by the ads that were visited. */
  lemma ReportContents(env: Env, ads: seq<AdUrls>, e: nat, r: DebugReport)
    requires e <= |ads| && r in AddCooldown(env, FullScan(env, START, ads[..e]))
    ensures Explained(env, ads[..e], r)
  {
    hide FullScan;
    if r in FullScan(env, START, ads[..e]).reports {
      ScanExplained(env, ads[..e], r);
    } else {
      ConfirmedByLosingAd(env, ads[..e]);
    }
  }

  // ----- when the early exit is harmless -----

  /** Visiting this ad of the winning group would add to the reports even after the exit condition holds. */
  predicate Loud(env: Env, ad: AdUrls) {
    IsWinningIg(env, ad) && (env.responseWinUrl != "" || ad.lossUrl != "")
  }

  /** With all three flags set, only a loud ad can still change anything. */
  lemma QuietVisit(env: Env, s: Scan, ad: AdUrls)
    requires MayExit(s) && !Loud(env, ad)
    ensures Visit(env, s, ad) == s
  {
  }

  lemma {:induction false} QuietSuffix(env: Env, ads: seq<AdUrls>, e: nat)
    requires e <= |ads| && MayExit(FullScan(env, START, ads[..e]))
    requires forall k :: e <= k < |ads| ==> !Loud(env, ads[k])
    ensures FullScan(env, START, ads) == FullScan(env, START, ads[..e])
  {
    if e == |ads| {
      assert ads[..e] == ads;
    } else {
      var front := ads[..|ads| - 1];
      assert front[..e] == ads[..e];
      QuietSuffix(env, front, e);
      QuietVisit(env, FullScan(env, START, front), ads[|ads| - 1]);
    }
  }

  ghost predicate HasWinner(env: Env, ads: seq<AdUrls>) {
    exists w :: 0 <= w < |ads| && IsWinningIg(env, ads[w])
  }

  ghost predicate HasLoss(ads: seq<AdUrls>) {
    exists p :: 0 <= p < |ads| && ads[p].lossUrl != ""
  }

  ghost predicate HasConfirmedLoss(env: Env, ads: seq<AdUrls>) {
    exists q :: 0 <= q < |ads| && ads[q].lossUrl != "" && !IsWinningIg(env, ads[q])
  }

  /** Two loss URLs, one of them of a losing ad. */
  ghost predicate HasLossPair(env: Env, ads: seq<AdUrls>) {
    exists p, q :: 0 <= p < q < |ads| && ads[p].lossUrl != "" && ads[q].lossUrl != ""
      && (!IsWinningIg(env, ads[p]) || !IsWinningIg(env, ads[q]))
  }

  /** Can some outcome of the draws set all three flags within these ads? */
  ghost predicate CanExit(env: Env, ads: seq<AdUrls>) {
    HasWinner(env, ads) && HasLossPair(env, ads)
  }

  /** No loud ad comes after a point where the scan may have exited. */
  ghost predicate NoLateWinner(env: Env, ads: seq<AdUrls>) {
    forall i :: 0 <= i < |ads| && CanExit(env, ads[..i]) ==> !Loud(env, ads[i])
  }

  /** With a single ad of the winning group no ad is late. */
  lemma UniqueWinnerIsNotLate(env: Env, ads: seq<AdUrls>)
    requires forall i, j :: 0 <= i < j < |ads| ==> !(IsWinningIg(env, ads[i]) && IsWinningIg(env, ads[j]))
    ensures NoLateWinner(env, ads)
  {
    forall i | 0 <= i < |ads| && CanExit(env, ads[..i])
      ensures !Loud(env, ads[i])
    {
      var w :| 0 <= w < i && IsWinningIg(env, ads[..i][w]);
      assert ads[..i][w] == ads[w];
    }
  }

  /** What the flags say about the ads visited. */
  ghost predicate FlagsExplained(env: Env, ads: seq<AdUrls>, s: Scan) {
    && (s.winChecked ==> HasWinner(env, ads))
    && (s.lossSelected ==> HasLoss(ads))
    && (s.confirmedLoss ==> HasConfirmedLoss(env, ads))
    && (s.lossSelected && s.confirmedLoss ==> HasLossPair(env, ads))
  }

  lemma OneMoreWinner(env: Env, front: seq<AdUrls>, last: AdUrls)
    ensures HasWinner(env, front) || IsWinningIg(env, last) ==> HasWinner(env, front + [last])
  {
    var ads := front + [last];
    if w :| 0 <= w < |front| && IsWinningIg(env, front[w]) {
      assert IsWinningIg(env, ads[w]);
    }
    assert ads[|front|] == last;
  }

  lemma OneMoreLoss(env: Env, front: seq<AdUrls>, last: AdUrls)
    ensures HasLoss(front) || last.lossUrl != "" ==> HasLoss(front + [last])
    ensures HasConfirmedLoss(env, front) || (last.lossUrl != "" && !IsWinningIg(env, last)) ==>
              HasConfirmedLoss(env, front + [last])
  {
    var ads := front + [last];
    if p :| 0 <= p < |front| && front[p].lossUrl != "" {
      assert ads[p].lossUrl != "";
    }
    if q :| 0 <= q < |front| && front[q].lossUrl != "" && !IsWinningIg(env, front[q]) {
      assert ads[q].lossUrl != "" && !IsWinningIg(env, ads[q]);
    }
    assert ads[|front|] == last;
  }

  lemma OneMoreLossPair(env: Env, front: seq<AdUrls>, last: AdUrls)
    ensures HasLossPair(env, front) ==> HasLossPair(env, front + [last])
    ensures HasConfirmedLoss(env, front) && last.lossUrl != "" ==> HasLossPair(env, front + [last])
    ensures HasLoss(front) && last.lossUrl != "" && !IsWinningIg(env, last) ==> HasLossPair(env, front + [last])
  {
    var ads := front + [last];
    assert ads[|front|] == last && forall i :: 0 <= i < |front| ==> ads[i] == front[i];
    if HasLossPair(env, front) {
      var p, q :| 0 <= p < q < |front| && front[p].lossUrl != "" && front[q].lossUrl != ""
        && (!IsWinningIg(env, front[p]) || !IsWinningIg(env, front[q]));
      assert ads[p] == front[p] && ads[q] == front[q];
    }
    if q :| 0 <= q < |front| && front[q].lossUrl != "" && !IsWinningIg(env, front[q]) {
      assert ads[q] == front[q];
    }
    if p :| 0 <= p < |front| && front[p].lossUrl != "" {
      assert ads[p] == front[p];
    }
  }

  lemma VisitFlags(env: Env, s: Scan, ad: AdUrls)
    ensures var s' := Visit(env, s, ad);
            && s'.winChecked == (s.winChecked || IsWinningIg(env, ad))
            && (s'.lossSelected ==> s.lossSelected || ad.lossUrl != "")
            && (s'.confirmedLoss ==> s.confirmedLoss || (ad.lossUrl != "" && !IsWinningIg(env, ad)))
            && (s'.lossSelected != s.lossSelected ==> s'.confirmedLoss == s.confirmedLoss)
            && (s.lossSelected ==> s'.lossSelected) && (s.confirmedLoss ==> s'.confirmedLoss)
  {
  }

  lemma {:induction false} FullScanFlags(env: Env, ads: seq<AdUrls>)
    ensures FlagsExplained(env, ads, FullScan(env, START, ads))
  {
    if ads != [] {
      hide Visit, HasWinner, HasLoss, HasConfirmedLoss, HasLossPair;
      var front, last := ads[..|ads| - 1], ads[|ads| - 1];
      FullScanFlags(env, front);
      VisitFlags(env, FullScan(env, START, front), last);
      assert ads == front + [last];
      OneMoreWinner(env, front, last);
      OneMoreLoss(env, front, last);
      OneMoreLossPair(env, front, last);
    }
  }

  /** Exiting early loses nothing when no loud ad is late. */
  lemma EarlyExitSound(env: Env, ads: seq<AdUrls>)
    requires NoLateWinner(env, ads)
    ensures EarlyReports(env, ads) == AllReports(env, ads)
  {
    hide AddCooldown, FullScan, Loud;
    var e := ExitPoint(env, ads);
    if e == |ads| {
      assert ads[..e] == ads;
    } else {
      FullScanFlags(env, ads[..e]);
      forall k | e <= k < |ads|
        ensures !Loud(env, ads[k])
      {
        CanExitGrows(env, ads, e, k);
      }
      QuietSuffix(env, ads, e);
    }
  }

  lemma CanExitGrows(env: Env, ads: seq<AdUrls>, e: nat, k: nat)
    requires e <= k <= |ads| && CanExit(env, ads[..e])
    ensures CanExit(env, ads[..k])
  {
    var w :| 0 <= w < e && IsWinningIg(env, ads[..e][w]);
    var p, q :| 0 <= p < q < e && ads[..e][p].lossUrl != "" && ads[..e][q].lossUrl != ""
      && (!IsWinningIg(env, ads[..e][p]) || !IsWinningIg(env, ads[..e][q]));
    assert ads[..k][w] == ads[..e][w] && ads[..k][p] == ads[..e][p] && ads[..k][q] == ads[..e][q];
  }

  // ----- and only then -----

  /** The state of a scan depends only on the draws it made. */
  lemma {:induction false} SameDraws(env: Env, env': Env, ads: seq<AdUrls>)
    requires env' == env.(draws := env'.draws)
    requires forall n :: 0 <= n < FullScan(env, START, ads).drawn ==> env'.draws(n) == env.draws(n)
    ensures FullScan(env', START, ads) == FullScan(env, START, ads)
  {
    if ads != [] {
      var front := ads[..|ads| - 1];
      DrawnGrows(env, FullScan(env, START, front), ads[|ads| - 1]);
      SameDraws(env, env', front);
      SameVisit(env, env', FullScan(env, START, front), ads[|ads| - 1]);
    }
  }

  lemma DrawnGrows(env: Env, s: Scan, ad: AdUrls)
    ensures s.drawn <= Visit(env, s, ad).drawn
  {
  }

  lemma SameVisit(env: Env, env': Env, s: Scan, ad: AdUrls)
    requires env' == env.(draws := env'.draws)
    requires forall n :: s.drawn <= n < Visit(env, s, ad).drawn ==> env'.draws(n) == env.draws(n)
    ensures Visit(env', s, ad) == Visit(env, s, ad)
  {
    var s1 := if IsWinningIg(env, ad) then SampleWin(env, s).(winChecked := true) else s;
    assert s1 == if IsWinningIg(env', ad) then SampleWin(env', s).(winChecked := true) else s;
  }

  function NoDraw(env: Env): Env {
    env.(draws := n => false)
  }

  /** The run in which exactly the draw for the loss URL of ad `x` succeeds. */
  ghost function OnlyLossOf(env: Env, ads: seq<AdUrls>, x: nat): Env
    requires x < |ads|
  {
    var s := FullScan(NoDraw(env), START, ads[..x]);
    var before := if IsWinningIg(env, ads[x]) && env.responseWinUrl != "" then s.drawn + 1 else s.drawn;
    env.(draws := n => n == before)
  }

  /** Without a successful draw no loss URL is selected, and every losing ad with a loss URL is confirmed. */
  lemma {:induction false} NoDrawFlags(env: Env, ads: seq<AdUrls>, q: nat)
    requires q < |ads| && ads[q].lossUrl != "" && !IsWinningIg(env, ads[q])
    ensures FullScan(NoDraw(env), START, ads).confirmedLoss
  {
    var n := |ads| - 1;
    NoDrawSelectsNothing(env, ads[..n]);
    if q < n {
      NoDrawFlags(env, ads[..n], q);
    }
  }

  lemma {:induction false} NoDrawSelectsNothing(env: Env, ads: seq<AdUrls>)
    ensures !FullScan(NoDraw(env), START, ads).lossSelected
  {
    if ads != [] {
      NoDrawSelectsNothing(env, ads[..|ads| - 1]);
    }
  }

  lemma OnlyLossSelected(env: Env, ads: seq<AdUrls>, x: nat)
    requires x < |ads| && ads[x].lossUrl != ""
    ensures var env' := OnlyLossOf(env, ads, x);
            && FullScan(env', START, ads[..x]) == FullScan(NoDraw(env), START, ads[..x])
            && FullScan(env', START, ads[..x + 1]).lossSelected
            && forall n :: FullScan(env', START, ads[..x + 1]).drawn <= n ==> !env'.draws(n)
  {
    var env' := OnlyLossOf(env, ads, x);
    var s := FullScan(NoDraw(env), START, ads[..x]);
    SameDraws(NoDraw(env), env', ads[..x]);
    NoDrawSelectsNothing(env, ads[..x]);
    assert ads[..x + 1][..x] == ads[..x];
    VisitWithLoss(env', s, ads[x]);
  }

  lemma VisitWithLoss(env: Env, s: Scan, ad: AdUrls)
    requires ad.lossUrl != "" && !s.lossSelected
    requires env.draws(if IsWinningIg(env, ad) && env.responseWinUrl != "" then s.drawn + 1 else s.drawn)
    ensures Visit(env, s, ad).lossSelected
    ensures Visit(env, s, ad).drawn == 1 + if IsWinningIg(env, ad) && env.responseWinUrl != "" then s.drawn + 1 else s.drawn
  {
  }

  lemma VisitLosingAd(env: Env, s: Scan, ad: AdUrls)
    requires ad.lossUrl != "" && !IsWinningIg(env, ad) && s.lossSelected
    ensures Visit(env, s, ad).confirmedLoss
  {
  }

  lemma {:induction false} FlagsPersist(env: Env, ads: seq<AdUrls>, i: nat, j: nat)
    requires i <= j <= |ads|
    ensures var (s, t) := (FullScan(env, START, ads[..i]), FullScan(env, START, ads[..j]));
            && (s.lossSelected ==> t.lossSelected) && (s.confirmedLoss ==> t.confirmedLoss) && (s.winChecked ==> t.winChecked)
            && |s.reports| <= |t.reports| && s.drawn <= t.drawn
    decreases j - i
  {
    if i < j {
      FlagsPersist(env, ads, i, j - 1);
      assert ads[..j][..j - 1] == ads[..j - 1];
      VisitFlags(env, FullScan(env, START, ads[..j - 1]), ads[j - 1]);
      DrawnGrows(env, FullScan(env, START, ads[..j - 1]), ads[j - 1]);
      FullScanSound(env, ads[..j - 1]);
      VisitSound(env, FullScan(env, START, ads[..j - 1]), WinningAds(env, ads[..j - 1]), ads[j - 1]);
    }
  }

  lemma WinnerIsChecked(env: Env, ads: seq<AdUrls>, w: nat)
    requires w < |ads| && IsWinningIg(env, ads[w])
    ensures FullScan(env, START, ads).winChecked
  {
    assert ads[..w + 1][..w] == ads[..w];
    VisitFlags(env, FullScan(env, START, ads[..w]), ads[w]);
    FlagsPersist(env, ads, w + 1, |ads|);
    assert ads[..|ads|] == ads;
  }

  /** Some outcome of the draws sets all three flags and fails every draw after that. */
  lemma ExitingDraws(env: Env, ads: seq<AdUrls>) returns (env': Env)
    requires CanExit(env, ads)
    ensures env' == env.(draws := env'.draws) && MayExit(FullScan(env', START, ads))
    ensures forall n :: FullScan(env', START, ads).drawn <= n ==> !env'.draws(n)
  {
    hide FullScan;
    var w :| 0 <= w < |ads| && IsWinningIg(env, ads[w]);
    var p, q :| 0 <= p < q < |ads| && ads[p].lossUrl != "" && ads[q].lossUrl != ""
      && (!IsWinningIg(env, ads[p]) || !IsWinningIg(env, ads[q]));
    var x := if !IsWinningIg(env, ads[p]) then q else p;
    env' := OnlyLossOf(env, ads, x);
    OnlyLossSelected(env, ads, x);
    WinnerIsChecked(env', ads, w);
    if x == q {
      assert ads[..x][p] == ads[p];
      NoDrawFlags(env, ads[..x], p);
      FlagsPersist(env', ads, x, |ads|);
    } else {
      LosingAfterSelection(env', ads, x, q);
    }
    FlagsPersist(env', ads, x + 1, |ads|);
    assert ads[..|ads|] == ads;
  }

  lemma LosingAfterSelection(env: Env, ads: seq<AdUrls>, x: nat, q: nat)
    requires x < q < |ads| && FullScan(env, START, ads[..x + 1]).lossSelected
    requires ads[q].lossUrl != "" && !IsWinningIg(env, ads[q])
    ensures FullScan(env, START, ads).confirmedLoss
  {
    hide FullScan, Visit;
    FlagsPersist(env, ads, x + 1, q);
    FullScanNext(env, ads, q);
    VisitLosingAd(env, FullScan(env, START, ads[..q]), ads[q]);
    FlagsPersist(env, ads, q + 1, |ads|);
    assert ads[..|ads|] == ads;
  }

  /** After the exit condition holds, a loud ad whose draws fail adds a report. */
  lemma LoudVisit(env: Env, s: Scan, ad: AdUrls)
    requires MayExit(s) && Loud(env, ad) && s.size <= env.maxSize && !env.draws(s.drawn)
    ensures |Visit(env, s, ad).reports| > |s.reports|
  {
  }

  lemma CooldownAdds(env: Env, s: Scan)
    requires s.confirmedLoss && s.size <= env.maxSize
    ensures AddCooldown(env, s) == s.reports + [DebugReport("", false, false, false)]
  {
  }

  /** A late winner makes some outcome of the draws lose a report. */
  lemma EarlyExitLoses(env: Env, ads: seq<AdUrls>, i: nat) returns (env': Env)
    requires i < |ads| && CanExit(env, ads[..i]) && Loud(env, ads[i])
    ensures env' == env.(draws := env'.draws) && |EarlyReports(env', ads)| < |AllReports(env', ads)|
  {
    hide FullScan, AddCooldown;
    env' := ExitingDraws(env, ads[..i]);
    var atI := FullScan(env', START, ads[..i]);
    FullScanSound(env', ads[..i]);
    LoudVisit(env', atI, ads[i]);
    FullScanNext(env', ads, i);
    FlagsPersist(env', ads, i + 1, |ads|);
    ExitPointIsFirst(env', ads, i);
    var e := ExitPoint(env', ads);
    FlagsPersist(env', ads, e, i);
    FlagsPersist(env', ads, i, |ads|);
    assert ads[..|ads|] == ads;
    FullScanSound(env', ads);
    FullScanSound(env', ads[..e]);
    CooldownAdds(env', FullScan(env', START, ads));
    CooldownAdds(env', FullScan(env', START, ads[..e]));
  }

  lemma FullScanNext(env: Env, ads: seq<AdUrls>, i: nat)
    requires i < |ads|
    ensures FullScan(env, START, ads[..i + 1]) == Visit(env, FullScan(env, START, ads[..i]), ads[i])
  {
    assert ads[..i + 1][..i] == ads[..i];
  }

  /**
   The early exit never loses a report, whatever the draws, exactly when no ad of the winning group
   that has something to report can come after the exit.
   */
  lemma EarlyExitSoundIff(env: Env, ads: seq<AdUrls>)
    ensures (forall draws :: EarlyReports(env.(draws := draws), ads) == AllReports(env.(draws := draws), ads))
       <==> NoLateWinner(env, ads)
  {
    if NoLateWinner(env, ads) {
      forall draws
        ensures EarlyReports(env.(draws := draws), ads) == AllReports(env.(draws := draws), ads)
      {
        NotLateForAnyDraws(env, env.(draws := draws), ads);
        EarlyExitSound(env.(draws := draws), ads);
      }
    } else {
      var i :| 0 <= i < |ads| && CanExit(env, ads[..i]) && Loud(env, ads[i]);
      var env' := EarlyExitLoses(env, ads, i);
      assert EarlyReports(env.(draws := env'.draws), ads) != AllReports(env.(draws := env'.draws), ads);
    }
  }

  lemma NotLateForAnyDraws(env: Env, env': Env, ads: seq<AdUrls>)
    requires NoLateWinner(env, ads) && env' == env.(draws := env'.draws)
    ensures NoLateWinner(env', ads)
  {
    forall i | 0 <= i < |ads| && CanExit(env', ads[..i])
      ensures !Loud(env', ads[i])
    {
      assert CanExit(env, ads[..i]);
    }
  }

  // ----- single-seller auctions -----

  /** The URL considered for an ad: its win URL for the winning group, its loss URL otherwise. */
  function ConsideredUrl(env: Env, ad: AdUrls): string {
    if IsWinningIg(env, ad) then ad.winUrl else ad.lossUrl
  }

  /** The ads that have a URL to consider; ad number k of them uses draw k. */
  function Considered(env: Env, ads: seq<AdUrls>): seq<AdUrls> {
    if ads == [] then []
    else Considered(env, ads[..|ads| - 1]) + if ConsideredUrl(env, ads[|ads| - 1]) == "" then [] else [ads[|ads| - 1]]
  }

  lemma ConsideredNext(env: Env, ads: seq<AdUrls>, i: nat)
    requires i < |ads|
    ensures Considered(env, ads[..i + 1]) == Considered(env, ads[..i]) + if ConsideredUrl(env, ads[i]) == "" then [] else [ads[i]]
  {
    assert ads[..i + 1][..i] == ads[..i];
  }

  lemma {:induction false} ConsideredPrefix(env: Env, ads: seq<AdUrls>, i: nat)
    requires i <= |ads|
    ensures Considered(env, ads[..i]) <= Considered(env, ads)
  {
    if i < |ads| {
      ConsideredPrefix(env, ads[..|ads| - 1], i);
      assert ads[..|ads| - 1][..i] == ads[..i];
    } else {
      assert ads[..i] == ads;
    }
  }

  /**
   The single report: the first considered URL whose draw succeeds (nothing if it exceeds the
   budget), or else an empty URL of the kind that was considered last.
   */
  ghost predicate SingleSellerReport(env: Env, considered: seq<AdUrls>, reports: seq<DebugReport>) {
    (exists k :: FirstSelected(env, considered, k) && reports == ReportOf(env, considered[k]))
    || ((forall k :: 0 <= k < |considered| ==> !env.draws(k)) && reports == CooldownOf(env, considered))
  }

  ghost predicate FirstSelected(env: Env, considered: seq<AdUrls>, k: int) {
    0 <= k < |considered| && env.draws(k) && forall j :: 0 <= j < k ==> !env.draws(j)
  }

  function ReportOf(env: Env, ad: AdUrls): seq<DebugReport> {
    if |ConsideredUrl(env, ad)| > env.maxSize then []
    else [DebugReport(ConsideredUrl(env, ad), true, IsWinningIg(env, ad), false)]
  }

  function CooldownOf(env: Env, considered: seq<AdUrls>): seq<DebugReport> {
    if considered == [] then []
    else [DebugReport("", false, IsWinningIg(env, considered[|considered| - 1]), false)]
  }

  lemma {:induction false} ConsideredAds(env: Env, ads: seq<AdUrls>, ad: AdUrls)
    ensures ad in Considered(env, ads) <==>
              ad in ads && (if ad.owner == env.winningOwner && ad.name == env.winningName then ad.winUrl else ad.lossUrl) != ""
  {
    if ads != [] {
      var last := |ads| - 1;
      ConsideredAds(env, ads[..last], ad);
      assert ads == ads[..last] + [ads[last]];
    }
  }

  /** The considered ad number `k` is the one with `k` considered ads before it. */
  lemma {:induction false} ConsideredAt(env: Env, ads: seq<AdUrls>, k: nat) returns (p: nat)
    requires k < |Considered(env, ads)|
    ensures p < |ads| && ads[p] == Considered(env, ads)[k] && Counts(env, ads[p])
    ensures k == |Considered(env, ads[..p])|
  {
    var last := |ads| - 1;
    if k < |Considered(env, ads[..last])| {
      p := ConsideredAt(env, ads[..last], k);
      assert ads[..last][..p] == ads[..p];
    } else {
      p := last;
    }
  }

  /** The ad is of the winning group and has a win URL, or of another and has a loss URL. */
  ghost predicate Counts(env: Env, ad: AdUrls) {
    (if ad.owner == env.winningOwner && ad.name == env.winningName then ad.winUrl else ad.lossUrl) != ""
  }

  /** The ads that count before position `p`. */
  ghost function CountingBefore(env: Env, ads: seq<AdUrls>, p: nat): set<nat>
    requires p <= |ads|
  {
    set q: nat | q < p && Counts(env, ads[q])
  }

  lemma {:induction false} ConsideredCount(env: Env, ads: seq<AdUrls>, p: nat)
    requires p <= |ads|
    ensures |Considered(env, ads[..p])| == |CountingBefore(env, ads, p)|
  {
    if p == 0 {
      assert CountingBefore(env, ads, 0) == {};
    } else {
      hide Considered, CountingBefore, Counts, ConsideredUrl;
      var q := p - 1;
      ConsideredCount(env, ads, q);
      ConsideredNext(env, ads, q);
      CountsIff(env, ads[q]);
      CountingNext(env, ads, q);
    }
  }

  lemma CountsIff(env: Env, ad: AdUrls)
    ensures Counts(env, ad) <==> ConsideredUrl(env, ad) != ""
  {
  }

  lemma CountingNext(env: Env, ads: seq<AdUrls>, p: nat)
    requires p < |ads|
    ensures |CountingBefore(env, ads, p + 1)| == |CountingBefore(env, ads, p)| + if Counts(env, ads[p]) then 1 else 0
  {
    hide Counts;
    var before := CountingBefore(env, ads, p);
    assert CountingBefore(env, ads, p + 1) == if Counts(env, ads[p]) then before + {p} else before;
  }

  /**
   Which ad the one report is about: the first that counts and whose draw succeeds, the draws being numbered by the ads
   that count; its URL is left out if it exceeds the budget.  If no draw succeeds, an empty report tells whether the last ad
   that counts is of the winning group.
   */
  lemma SingleSellerMeaning(env: Env, ads: seq<AdUrls>, reports: seq<DebugReport>)
    requires SingleSellerReport(env, Considered(env, ads), reports)
    ensures
      || (reports == [] && forall q :: 0 <= q < |ads| ==> !Counts(env, ads[q]))
      || exists p :: 0 <= p < |ads| && Counts(env, ads[p])
           && var k, winning := |CountingBefore(env, ads, p)|, ads[p].owner == env.winningOwner && ads[p].name == env.winningName;
           && (forall j :: 0 <= j < k ==> !env.draws(j))
           && if env.draws(k) then
                var url := if winning then ads[p].winUrl else ads[p].lossUrl;
                reports == if |url| <= env.maxSize then [DebugReport(url, true, winning, false)] else []
              else
                reports == [DebugReport("", false, winning, false)] && forall q :: p < q < |ads| ==> !Counts(env, ads[q])
  {
    var considered := Considered(env, ads);
    if considered == [] {
      forall q | 0 <= q < |ads|
        ensures !Counts(env, ads[q])
      {
        ConsideredAds(env, ads, ads[q]);
      }
    } else {
      var k: nat;
      if i :| FirstSelected(env, considered, i) && reports == ReportOf(env, considered[i]) {
        k := i;
      } else {
        k := |considered| - 1;
      }
      var p := ConsideredAt(env, ads, k);
      ConsideredCount(env, ads, p);
      if !env.draws(k) {
        NoneConsideredAfter(env, ads, p);
      }
    }
  }

  /** Behind the last considered ad no ad counts. */
  lemma NoneConsideredAfter(env: Env, ads: seq<AdUrls>, p: nat)
    requires p < |ads| && Counts(env, ads[p]) && |Considered(env, ads)| == |Considered(env, ads[..p])| + 1
    ensures forall q :: p < q < |ads| ==> !Counts(env, ads[q])
  {
    forall q | p < q < |ads|
      ensures !Counts(env, ads[q])
    {
      if Counts(env, ads[q]) {
        ConsideredCount(env, ads, p);
        ConsideredCount(env, ads, |ads|);
        assert ads[..|ads|] == ads;
        hide Considered, Counts;
        var before := CountingBefore(env, ads, p);
        Subset(before + {p, q}, CountingBefore(env, ads, |ads|));
        assert false;
      }
    }
  }

  lemma Subset<T>(a: set<T>, b: set<T>)
    requires a <= b
    ensures |a| <= |b|
  {
    assert b == a + (b - a);
  }

  /** At most one report, within the budget. */
  lemma SingleSellerBounded(env: Env, considered: seq<AdUrls>, reports: seq<DebugReport>)
    requires SingleSellerReport(env, considered, reports)
    ensures |reports| <= 1 && TotalUrlSize(reports) <= env.maxSize
  {
    if reports != [] {
      assert reports[..0] == [];
    }
  }

  // ----- the reactor -----

  class DebugReporter {
    const env: Env
    var reports: seq<DebugReport>
    var drawn: nat

    constructor (env: Env)
      ensures this.env == env && reports == [] && drawn == 0
    {
      this.env, this.reports, this.drawn := env, [], 0;
    }

    method DebugUrlPassesSampling() returns (passes: bool)
      modifies `drawn
      ensures passes == env.draws(old(drawn)) && drawn == old(drawn) + 1
    {
      passes := env.draws(drawn);
      drawn := drawn + 1;
    }

    /** Appends a report unless the total URL size would exceed the budget; returns the new total. */
    method AddSellerDebugReportToResponse(url: string, isWin: bool, isComponentWin: bool, currentSize: nat, hasPlaceholders: bool)
      returns (size: nat)
      modifies `reports
      ensures |url| + currentSize <= env.maxSize ==>
                size == currentSize + |url|
                && reports == old(reports) + [DebugReport(url, hasPlaceholders, isWin, isComponentWin)]
      ensures |url| + currentSize > env.maxSize ==> size == currentSize && reports == old(reports)
      ensures forall s: Scan :: s.reports == old(reports) && s.size == currentSize ==>
                s.(reports := reports, size := size) == AddReport(env, s, url, hasPlaceholders, isWin, isComponentWin)
    {
      if |url| + currentSize > env.maxSize {
        return currentSize;
      }
      reports := reports + [DebugReport(url, hasPlaceholders, isWin, isComponentWin)];
      return currentSize + |url|;
    }

    method SampleDebugWinReportForComponentAuctionWinner(currentSize: nat, ghost s: Scan) returns (size: nat)
      requires reports == s.reports && drawn == s.drawn && currentSize == s.size
      modifies this
      ensures s.(reports := reports, size := size, drawn := drawn) == SampleWin(env, s)
      ensures env.responseWinUrl == "" ==> reports == old(reports) && drawn == old(drawn) && size == currentSize
      ensures env.responseWinUrl != "" && env.draws(old(drawn)) && |env.responseWinUrl| + currentSize <= env.maxSize ==>
                reports == old(reports) + [DebugReport(env.responseWinUrl, true, true, true)]
                && size == currentSize + |env.responseWinUrl|
      ensures env.responseWinUrl != "" && !env.draws(old(drawn)) && currentSize <= env.maxSize ==>
                reports == old(reports) + [DebugReport("", false, true, true)] && size == currentSize
    {
      size := currentSize;
      if env.responseWinUrl == "" {
        return;
      }
      var passes := DebugUrlPassesSampling();
      if passes {
        size := AddSellerDebugReportToResponse(env.responseWinUrl, true, true, currentSize, true);
        return;
      }
      size := AddSellerDebugReportToResponse("", true, true, currentSize, false);
    }

    method SampleDebugLossReportForComponentAuctionAd(
      ad: AdUrls, isWinningIg: bool, lossUrlSelected: bool, confirmedLoss: bool, currentSize: nat, ghost s: Scan)
      returns (selected: bool, confirmed: bool, size: nat)
      requires reports == s.reports && drawn == s.drawn && currentSize == s.size
      requires lossUrlSelected == s.lossSelected && confirmedLoss == s.confirmedLoss && isWinningIg == IsWinningIg(env, ad)
      modifies this
      ensures Scan(reports, size, drawn, s.winChecked, selected, confirmed) == SampleLoss(env, s, ad)
      ensures ad.lossUrl == "" ==>
                reports == old(reports) && drawn == old(drawn) && selected == lossUrlSelected && confirmed == confirmedLoss
      ensures ad.lossUrl != "" ==>
                var picked := !lossUrlSelected && env.draws(old(drawn));
                && selected == (lossUrlSelected || picked)
                && confirmed == (confirmedLoss || (!picked && !isWinningIg))
                && (picked && |ad.lossUrl| + currentSize <= env.maxSize ==>
                    reports == old(reports) + [DebugReport(ad.lossUrl, true, false, isWinningIg)])
                && (!picked && isWinningIg && currentSize <= env.maxSize ==>
                    reports == old(reports) + [DebugReport("", false, false, true)])
                && (!picked && !isWinningIg ==> reports == old(reports))
    {
      selected, confirmed, size := lossUrlSelected, confirmedLoss, currentSize;
      if ad.lossUrl == "" {
        return;
      }
      if !lossUrlSelected {
        var passes := DebugUrlPassesSampling();
        if passes {
          size := AddSellerDebugReportToResponse(ad.lossUrl, false, isWinningIg, currentSize, true);
          selected := true;
          return;
        }
      }
      if isWinningIg {
        size := AddSellerDebugReportToResponse("", false, true, currentSize, false);
        return;
      }
      confirmed := true;
    }

    method PerformSampledDebugReportingForComponentAuction(ads: seq<AdUrls>)
      requires reports == [] && drawn == 0
      modifies this
      ensures reports == EarlyReports(env, ads)
      ensures NoLateWinner(env, ads) ==> reports == AllReports(env, ads)
      ensures TotalUrlSize(reports) <= env.maxSize && LossUrls(reports) <= 1
      ensures |reports| <= 2 * WinningAds(env, ads) + 2
      ensures forall r :: r in reports ==> Explained(env, ads[..ExitPoint(env, ads)], r)
    {
      hide Explained;
      hide Visit, SampleWin, SampleLoss, NoLateWinner, TotalUrlSize, LossUrls, WinningAds, AddReport, ExitPoint, FullScan;
      var size, winChecked, lossSelected, confirmedLoss := 0, false, false, false;
      var k := 0;
      ScanStart(env, ads);
      while k < |ads|
        invariant 0 <= k <= |ads|
        invariant Scan(reports, size, drawn, winChecked, lossSelected, confirmedLoss) == FullScan(env, START, ads[..k])
        invariant ExitPoint(env, ads[..k]) == k
      {
        ghost var s := FullScan(env, START, ads[..k]);
        if winChecked && lossSelected && confirmedLoss {
          break;
        }
        ExitPointNext(env, ads, k);
        var ad := ads[k];
        var isWinningIg := ad.owner == env.winningOwner && ad.name == env.winningName;
        ghost var afterWin := if isWinningIg then SampleWin(env, s).(winChecked := true) else s;
        if isWinningIg {
          size := SampleDebugWinReportForComponentAuctionWinner(size, s);
          SampleWinKeeps(env, s);
          winChecked := true;
        }
        lossSelected, confirmedLoss, size :=
          SampleDebugLossReportForComponentAuctionAd(ad, isWinningIg, lossSelected, confirmedLoss, size, afterWin);
        VisitParts(env, s, ad);
        FullScanNext(env, ads, k);
        SampleLossKeeps(env, afterWin, ad);
        k := k + 1;
      }
      ExitReached(env, ads, k);
      ghost var s := FullScan(env, START, ads[..k]);
      if confirmedLoss {
        size := AddSellerDebugReportToResponse("", false, false, size, false);
        assert s.(reports := reports, size := size) == AddReport(env, s, "", false, false, false);
      }
      ReportsBounded(env, ads, k);
      forall r | r in reports
        ensures Explained(env, ads[..k], r)
      {
        ReportContents(env, ads, k, r);
      }
      if NoLateWinner(env, ads) {
        EarlyExitSound(env, ads);
      }
    }

    method PerformSampledDebugReportingForSingleSeller(ads: seq<AdUrls>)
      requires reports == [] && drawn == 0
      modifies this
      ensures SingleSellerReport(env, Considered(env, ads), reports)
    {
      hide Considered, AddReport, SingleSellerReport, ReportOf, CooldownOf;
      var putInCooldown, cooldownIsWin := false, false;
      ConsideredNone(env, ads);
      for k := 0 to |ads|
        invariant reports == []
        invariant drawn == |Considered(env, ads[..k])| && forall j :: 0 <= j < drawn ==> !env.draws(j)
        invariant putInCooldown <==> Considered(env, ads[..k]) != []
        invariant putInCooldown ==> cooldownIsWin == IsWinningIg(env, Considered(env, ads[..k])[drawn - 1])
      {
        var ad := ads[k];
        var isWinningIg := ad.owner == env.winningOwner && ad.name == env.winningName;
        var url := if isWinningIg then ad.winUrl else ad.lossUrl;
        ConsideredNext(env, ads, k);
        if url == "" {
          continue;
        }
        ConsideredPrefix(env, ads, k + 1);
        ghost var index := drawn;
        assert Considered(env, ads)[index] == ad;
        var passes := DebugUrlPassesSampling();
        if passes {
          var unused := AddSellerDebugReportToResponse(url, isWinningIg, false, 0, true);
          assert START.(reports := reports, size := unused) == AddReport(env, START, url, true, isWinningIg, false);
          SelectedReport(env, Considered(env, ads), index, reports, unused);
          return;
        }
        putInCooldown := true;
        cooldownIsWin := isWinningIg;
      }
      assert ads[..|ads|] == ads;
      if putInCooldown {
        var unused := AddSellerDebugReportToResponse("", cooldownIsWin, false, 0, false);
        assert START.(reports := reports, size := unused) == AddReport(env, START, "", false, cooldownIsWin, false);
        CooldownReport(env, Considered(env, ads), reports, unused);
      } else {
        NothingReport(env);
      }
    }
  }

  lemma ConsideredNone(env: Env, ads: seq<AdUrls>)
    ensures Considered(env, ads[..0]) == []
  {
  }

  lemma SelectedReport(env: Env, considered: seq<AdUrls>, k: nat, reports: seq<DebugReport>, size: nat)
    requires FirstSelected(env, considered, k)
    requires START.(reports := reports, size := size)
          == AddReport(env, START, ConsideredUrl(env, considered[k]), true, IsWinningIg(env, considered[k]), false)
    ensures SingleSellerReport(env, considered, reports)
  {
    var url := ConsideredUrl(env, considered[k]);
    assert reports == AddReport(env, START, url, true, IsWinningIg(env, considered[k]), false).reports;
    assert reports == ReportOf(env, considered[k]);
  }

  lemma CooldownReport(env: Env, considered: seq<AdUrls>, reports: seq<DebugReport>, size: nat)
    requires considered != [] && forall k :: 0 <= k < |considered| ==> !env.draws(k)
    requires START.(reports := reports, size := size)
          == AddReport(env, START, "", false, IsWinningIg(env, considered[|considered| - 1]), false)
    ensures SingleSellerReport(env, considered, reports)
  {
    assert reports == AddReport(env, START, "", false, IsWinningIg(env, considered[|considered| - 1]), false).reports;
  }

  lemma NothingReport(env: Env)
    ensures SingleSellerReport(env, [], [])
  {
  }

  lemma ScanStart(env: Env, ads: seq<AdUrls>)
    ensures FullScan(env, START, ads[..0]) == START && ExitPoint(env, ads[..0]) == 0
  {
  }

  lemma ExitPointNext(env: Env, ads: seq<AdUrls>, k: nat)
    requires k < |ads| && ExitPoint(env, ads[..k]) == k && !MayExit(FullScan(env, START, ads[..k]))
    ensures ExitPoint(env, ads[..k + 1]) == k + 1
  {
    assert ads[..k + 1][..k] == ads[..k];
  }

  lemma {:induction false} ExitReached(env: Env, ads: seq<AdUrls>, k: nat)
    requires k <= |ads| && ExitPoint(env, ads[..k]) == k
    requires k == |ads| || MayExit(FullScan(env, START, ads[..k]))
    ensures ExitPoint(env, ads) == k
  {
    if k == |ads| {
      assert ads[..k] == ads;
    } else {
      var front := ads[..|ads| - 1];
      assert front[..k] == ads[..k];
      if k < |front| {
        ExitReached(env, front, k);
      }
    }
  }

  lemma SampleWinKeeps(env: Env, s: Scan)
    ensures SampleWin(env, s).winChecked == s.winChecked
    ensures SampleWin(env, s).lossSelected == s.lossSelected && SampleWin(env, s).confirmedLoss == s.confirmedLoss
  {
  }

  lemma SampleLossKeeps(env: Env, s: Scan, ad: AdUrls)
    ensures SampleLoss(env, s, ad).winChecked == s.winChecked
  {
  }

  lemma VisitParts(env: Env, s: Scan, ad: AdUrls)
    ensures Visit(env, s, ad)
         == SampleLoss(env, if IsWinningIg(env, ad) then SampleWin(env, s).(winChecked := true) else s, ad)
  {
  }

  /** Two ads share the winning group: the second one's empty loss report is lost by the early exit. */
  lemma SharedGroupLosesReport()
    ensures var a := AdUrls("buyer", "group", "", "u");
            var b := AdUrls("buyer", "other", "", "v");
            var env := Env(n => n == 0, 10, "buyer", "group", "");
            |EarlyReports(env, [a, b, a])| < |AllReports(env, [a, b, a])|
  {
    var a := AdUrls("buyer", "group", "", "u");
    var b := AdUrls("buyer", "other", "", "v");
    var env := Env(n => n == 0, 10, "buyer", "group", "");
    var s1 := Visit(env, START, a);
    assert [a][..0] == [] && FullScan(env, START, [a]) == s1;
    var s2 := Visit(env, s1, b);
    assert [a, b][..1] == [a] && FullScan(env, START, [a, b]) == s2;
    assert MayExit(s2);
    var s3 := Visit(env, s2, a);
    assert [a, b, a][..2] == [a, b] && FullScan(env, START, [a, b, a]) == s3;
    ExitPointIsFirst(env, [a, b, a], 2);
    FlagsPersist(env, [a, b, a], ExitPoint(env, [a, b, a]), 2);
    LoudVisit(env, s2, a);
    FullScanSound(env, [a, b, a]);
    FullScanSound(env, [a, b, a][..ExitPoint(env, [a, b, a])]);
    CooldownAdds(env, s3);
    CooldownAdds(env, FullScan(env, START, [a, b, a][..ExitPoint(env, [a, b, a])]));
  }
}
