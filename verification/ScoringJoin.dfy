/**
 From the last bid to the call of the auction service: the k-anonymity query and the fetch of the
 scoring signals run side by side and meet in a task tracker
 (services/seller_frontend_service/select_ad_reactor.cc).

 A run is any sequence of enabled events, so it covers every interleaving of the two branches, every
 reply and cancellation, and all four combinations of what is fetched and enforced.
 */
module ScoringJoin {
  import opened Results
  import opened TaskTracker
  import opened KAnon

  /** `OnAllBidsDone` has not run, has ended the request, or has gone on to scoring. */
  datatype Phase = Waiting | Stopped | Started

  datatype KAnonBranch = KIdle | KScheduled | KAsked | KDone

  /** An abandoned fetch never completes its task; `ended` tells whether it ended the request itself. */
  datatype SignalsBranch = SIdle | SScheduled | SAskedV1 | SAskedV2 | SDone | SAbandoned(ended: bool)

  datatype Signals = Missing | Empty | Usable

  /** What is fixed when bids come in: whether signals are fetched, k-anonymity is enforced, and the hashes of the bids. */
  datatype Request = Request(fetch: bool, enforce: bool, hashes: HashSets)

  /**
   `scored` are the calls of `ScoreAds` with the k-anonymity statuses they see, `chaffed` counts the
   responses sent without scoring and `finished` the requests ended with a status.
   */
  datatype Join = Join(
    phase: Phase,
    kanon: KAnonBranch,
    signals: SignalsBranch,
    counts: Counts,
    underflow: bool,
    callbacks: nat,
    tables: Tables,
    maybeSignals: Signals,
    scored: seq<map<BidKey, bool>>,
    chaffed: nat,
    finished: nat)

  datatype BidsOutcome = RequestCancelled | NoBids(anySuccessful: bool) | AllMismatched | Bids

  datatype FetchOutcome = CannotFetch | RequestNotBuilt | SentV1 | SentV2

  datatype Event =
    | AllBidsDone(outcome: BidsOutcome)
    | QueryKAnon(refused: bool)
    | KAnonReply(response: Result<set<Hash>>)
    | FetchSignals(how: FetchOutcome)
    | SignalsReplyV1(signals: Signals)
    | SignalsCancelledV1
    | SignalsReplyV2(signals: Signals)
    | SignalsCancelledV2

  /** The tracker starts at one task and is reset while the request is decoded if k-anonymity is enforced. */
  function Start(r: Request): Join {
    Join(Waiting, KIdle, SIdle,
         if r.enforce then Fresh((if r.fetch then 1 else 0) + 1) else Fresh(1),
         false, 0, Tables(map[], {}, map[]), Missing, [], 0, 0)
  }

  predicate Enabled(s: Join, e: Event) {
    match e
    case AllBidsDone(_) => s.phase.Waiting?
    case QueryKAnon(_) => s.kanon.KScheduled?
    case KAnonReply(_) => s.kanon.KAsked?
    case FetchSignals(_) => s.signals.SScheduled?
    case SignalsReplyV1(_) => s.signals.SAskedV1?
    case SignalsCancelledV1 => s.signals.SAskedV1?
    case SignalsReplyV2(_) => s.signals.SAskedV2?
    case SignalsCancelledV2 => s.signals.SAskedV2?
  }

  function ScoreAds(s: Join): Join {
    s.(scored := s.scored + [s.tables.statuses])
  }

  function SendChaff(s: Join): Join {
    s.(chaffed := s.chaffed + 1)
  }

  function Finish(s: Join): Join {
    s.(finished := s.finished + 1)
  }

  function OnFetchScoringSignalsDone(r: Request, s: Join): Join {
    if !r.fetch then ScoreAds(s)
    else match s.maybeSignals
         case Missing => SendChaff(s)
         case Empty => SendChaff(s)
         case Usable => ScoreAds(s)
  }

  function TaskCompleted(r: Request, s: Join, status: TaskStatus): (t: Join)
    ensures t.tables == s.tables
  {
    if s.counts.pending == 0 then s.(underflow := true)
    else
      var t := s.(counts := s.counts.Complete(status));
      if t.counts.pending == 0 then OnFetchScoringSignalsDone(r, t.(callbacks := t.callbacks + 1)) else t
  }

  function PopulateKAnonStatusForBids(r: Request, s: Join): (t: Join)
    ensures t == s.(tables := t.tables)
  {
    s.(tables := Populated(r.enforce, s.tables))
  }

  function OnAllBidsDone(r: Request, s: Join, outcome: BidsOutcome): Join {
    match outcome
    case RequestCancelled => Finish(s.(phase := Stopped))
    case NoBids(anySuccessful) =>
      if anySuccessful then SendChaff(s.(phase := Stopped)) else Finish(s.(phase := Stopped))
    case AllMismatched => Finish(s.(phase := Stopped))
    case Bids =>
      var t := s.(phase := Started);
      if r.fetch then
        (if r.enforce then t.(kanon := KScheduled) else PopulateKAnonStatusForBids(r, t)).(signals := SScheduled)
      else if r.enforce then t.(kanon := KScheduled)
      else ScoreAds(PopulateKAnonStatusForBids(r, t))
  }

  function QueryKAnonHashes(r: Request, s: Join, refused: bool): Join {
    var (tables, step) := Queried(r.enforce, s.tables, r.hashes, refused);
    match step
    case Completed(status) => TaskCompleted(r, s.(tables := tables, kanon := KDone), status)
    case Asked(_) => s.(tables := tables, kanon := KAsked)
  }

  function OnKAnonReply(r: Request, s: Join, response: Result<set<Hash>>): Join {
    var (tables, status) := Replied(r.enforce, s.tables, response);
    TaskCompleted(r, s.(tables := tables, kanon := KDone), status)
  }

  function FetchScoringSignals(s: Join, how: FetchOutcome): Join {
    match how
    case CannotFetch => Finish(s.(signals := SAbandoned(true)))
    case RequestNotBuilt => s.(signals := SAbandoned(false))
    case SentV1 => s.(signals := SAskedV1)
    case SentV2 => s.(signals := SAskedV2)
  }

  function Apply(r: Request, s: Join, e: Event): Join
    requires Enabled(s, e)
  {
    match e
    case AllBidsDone(outcome) => OnAllBidsDone(r, s, outcome)
    case QueryKAnon(refused) => QueryKAnonHashes(r, s, refused)
    case KAnonReply(response) => OnKAnonReply(r, s, response)
    case FetchSignals(how) => FetchScoringSignals(s, how)
    case SignalsReplyV1(signals) => TaskCompleted(r, s.(maybeSignals := signals, signals := SDone), TaskStatus.Success)
    case SignalsCancelledV1 => TaskCompleted(r, s.(signals := SDone), Cancelled)
    case SignalsReplyV2(signals) =>
      if signals.Missing? then SendChaff(s.(signals := SAbandoned(true)))
      else TaskCompleted(r, s.(maybeSignals := signals, signals := SDone), TaskStatus.Success)
    case SignalsCancelledV2 => Finish(s.(signals := SAbandoned(true)))
  }

  predicate Legal(r: Request, s: Join, events: seq<Event>)
    decreases |events|
  {
    events == [] || (Enabled(s, events[0]) && Legal(r, Apply(r, s, events[0]), events[1..]))
  }

  function After(r: Request, s: Join, events: seq<Event>): Join
    requires Legal(r, s, events)
    decreases |events|
  {
    if events == [] then s else After(r, Apply(r, s, events[0]), events[1..])
  }

  // ----- what every event keeps -----

  function Int(b: bool): nat {
    if b then 1 else 0
  }

  /** The branches that were started. */
  function StartedBranches(s: Join): nat {
    Int(!s.kanon.KIdle?) + Int(!s.signals.SIdle?)
  }

  ghost predicate BranchesFollowPhase(r: Request, s: Join) {
    && (!s.kanon.KIdle? <==> s.phase.Started? && r.enforce)
    && (!s.signals.SIdle? <==> s.phase.Started? && r.fetch)
  }

  /** The tracker was told of the branches that exist, and knows which are done. */
  ghost predicate TrackerAgrees(r: Request, s: Join) {
    && !s.underflow
    && s.counts.tracked == (if r.enforce then Int(r.fetch) + 1 else 1)
    && s.counts.pending + Int(s.kanon.KDone?) + Int(s.signals.SDone?) == s.counts.tracked
    && s.callbacks == Int(s.counts.pending == 0)
  }

  function Endings(s: Join): nat {
    |s.scored| + s.chaffed + s.finished
  }

  /** The request was answered as often as one of the points that answer it was reached. */
  ghost predicate EndingsAgree(r: Request, s: Join) {
    var direct := Int(s.phase.Started? && !r.fetch && !r.enforce);
    && Endings(s) == s.callbacks + Int(s.phase.Stopped?) + Int(s.signals == SAbandoned(true)) + direct
    && |s.scored| == Int(s.callbacks == 1 && (r.fetch ==> s.maybeSignals.Usable?)) + direct
  }

  /** With enforcement the statuses tell exactly which bids have all their hashes in the queried set. */
  ghost predicate StatusesSound(r: Request, t: Tables) {
    forall k :: Forwarded(r.enforce, t.statuses, k) <==> !r.enforce || (k in r.hashes && r.hashes[k] <= t.queried)
  }

  /** Nothing is known before the service has answered. */
  ghost predicate TablesAgree(r: Request, kanon: KAnonBranch, t: Tables) {
    && StatusesSound(r, t)
    && (!kanon.KDone? ==> t.queried == {} && t.statuses == map[])
    && t.hashSets == (if kanon.KAsked? || kanon.KDone? then r.hashes else map[])
  }

  ghost predicate StatusesAgree(r: Request, s: Join) {
    && TablesAgree(r, s.kanon, s.tables)
    && (s.scored == [] || s.scored == [s.tables.statuses])
    && (s.scored != [] && r.fetch ==> s.maybeSignals.Usable?)
  }

  ghost predicate HashesNonEmpty(hashes: HashSets) {
    forall k :: k in hashes ==> hashes[k] != {}
  }

  ghost predicate Inv(r: Request, s: Join) {
    HashesNonEmpty(r.hashes) && CountsAgree(r, s) && StatusesAgree(r, s)
  }

  ghost predicate CountsAgree(r: Request, s: Join) {
    BranchesFollowPhase(r, s) && TrackerAgrees(r, s) && EndingsAgree(r, s)
  }

  /** A branch has just been marked as done and its task is about to be completed. */
  ghost predicate AboutToComplete(r: Request, s: Join) {
    && BranchesFollowPhase(r, s) && EndingsAgree(r, s)
    && !s.underflow
    && s.counts.tracked == (if r.enforce then Int(r.fetch) + 1 else 1)
    && s.counts.pending + Int(s.kanon.KDone?) + Int(s.signals.SDone?) == s.counts.tracked + 1
    && s.callbacks == 0
  }

  lemma CompletionKeepsCounts(r: Request, s: Join, status: TaskStatus)
    requires AboutToComplete(r, s)
    ensures CountsAgree(r, TaskCompleted(r, s, status))
  {
  }

  lemma KAnonStepKeepsCounts(r: Request, s: Join, e: Event)
    requires CountsAgree(r, s) && Enabled(s, e) && (e.QueryKAnon? || e.KAnonReply?)
    ensures CountsAgree(r, Apply(r, s, e))
  {
    hide TaskCompleted, Statuses;
    forall t: Join, status | AboutToComplete(r, t)
      ensures CountsAgree(r, TaskCompleted(r, t, status))
    {
      CompletionKeepsCounts(r, t, status);
    }
  }

  lemma SignalsStepKeepsCounts(r: Request, s: Join, e: Event)
    requires CountsAgree(r, s) && Enabled(s, e) && !e.QueryKAnon? && !e.KAnonReply? && !e.AllBidsDone?
    ensures CountsAgree(r, Apply(r, s, e))
  {
    hide TaskCompleted;
    forall t: Join, status | AboutToComplete(r, t)
      ensures CountsAgree(r, TaskCompleted(r, t, status))
    {
      CompletionKeepsCounts(r, t, status);
    }
  }

  lemma BidsStepKeepsCounts(r: Request, s: Join, e: Event)
    requires CountsAgree(r, s) && Enabled(s, e) && e.AllBidsDone?
    ensures CountsAgree(r, Apply(r, s, e))
  {
    hide Statuses;
    if e.outcome.Bids? {
      GoOnKeepsCounts(r, s);
    }
  }

  lemma GoOnKeepsCounts(r: Request, s: Join)
    requires CountsAgree(r, s) && s.phase.Waiting?
    ensures CountsAgree(r, OnAllBidsDone(r, s, Bids))
  {
    hide PopulateKAnonStatusForBids;
  }

  lemma StepKeepsCounts(r: Request, s: Join, e: Event)
    requires CountsAgree(r, s) && Enabled(s, e)
    ensures CountsAgree(r, Apply(r, s, e))
  {
    hide TaskCompleted, Statuses, TrackerAgrees, EndingsAgree;
    if e.QueryKAnon? || e.KAnonReply? {
      KAnonStepKeepsCounts(r, s, e);
    } else if e.AllBidsDone? {
      BidsStepKeepsCounts(r, s, e);
    } else {
      SignalsStepKeepsCounts(r, s, e);
    }
  }

  /** What completing a task leaves alone, and what it scores. */
  lemma CompletionKeepsStatuses(r: Request, s: Join, status: TaskStatus)
    requires AboutToComplete(r, s) && s.scored == [] && StatusesAgree(r, s)
    ensures StatusesAgree(r, TaskCompleted(r, s, status))
  {
    hide TablesAgree;
  }

  /** Filling in the statuses from nothing makes them tell what is in the queried set. */
  lemma PopulatedSound(r: Request, t: Tables)
    requires t.statuses == map[] && t.hashSets == if r.enforce then r.hashes else map[]
    ensures StatusesSound(r, Populated(r.enforce, t))
    ensures !r.enforce ==> Populated(r.enforce, t) == t
  {
    assert Statuses(r.enforce, map[], t.queried) == map[];
    assert t.statuses + map[] == t.statuses;
  }

  lemma NothingFoundSound(r: Request, t: Tables)
    requires HashesNonEmpty(r.hashes) && t.statuses == map[] && t.queried == {}
    ensures StatusesSound(r, t)
  {
    forall k
      ensures !(k in r.hashes && r.hashes[k] <= {})
    {
      assert k in r.hashes ==> r.hashes[k] != {};
    }
  }

  lemma QueriedKeepsTables(r: Request, t: Tables, refused: bool)
    requires HashesNonEmpty(r.hashes) && r.enforce && TablesAgree(r, KScheduled, t)
    ensures var (t', step) := Queried(r.enforce, t, r.hashes, refused);
            TablesAgree(r, if step.Completed? then KDone else KAsked, t')
  {
    PopulatedSound(r, t.(hashSets := r.hashes));
    NothingFoundSound(r, t.(hashSets := r.hashes));
  }

  lemma RepliedKeepsTables(r: Request, t: Tables, response: Result<set<Hash>>)
    requires r.enforce && TablesAgree(r, KAsked, t)
    ensures TablesAgree(r, KDone, Replied(r.enforce, t, response).0)
  {
    if response.Success? {
      PopulatedSound(r, t.(queried := response.value));
    }
  }

  lemma KAnonStepKeepsStatuses(r: Request, s: Join, e: Event)
    requires Inv(r, s) && Enabled(s, e) && (e.QueryKAnon? || e.KAnonReply?)
    ensures StatusesAgree(r, Apply(r, s, e))
  {
    hide TaskCompleted, TablesAgree, Queried, Replied;
    match e
    case QueryKAnon(refused) =>
      QueriedKeepsTables(r, s.tables, refused);
      var (tables, step) := Queried(r.enforce, s.tables, r.hashes, refused);
      if step.Completed? {
        CompletionKeepsStatuses(r, s.(tables := tables, kanon := KDone), step.status);
      }
    case KAnonReply(response) =>
      RepliedKeepsTables(r, s.tables, response);
      var (tables, status) := Replied(r.enforce, s.tables, response);
      CompletionKeepsStatuses(r, s.(tables := tables, kanon := KDone), status);
  }

  lemma BidsStepKeepsTables(r: Request, s: Join)
    requires TablesAgree(r, s.kanon, s.tables) && s.kanon.KIdle?
    ensures TablesAgree(r, KScheduled, s.tables)
    ensures !r.enforce ==> TablesAgree(r, KIdle, Populated(r.enforce, s.tables))
  {
    if !r.enforce {
      PopulatedSound(r, s.tables);
    }
  }

  lemma OtherStepKeepsStatuses(r: Request, s: Join, e: Event)
    requires Inv(r, s) && Enabled(s, e) && !e.QueryKAnon? && !e.KAnonReply?
    ensures StatusesAgree(r, Apply(r, s, e))
  {
    hide TaskCompleted, TablesAgree, Populated;
    forall t: Join, status | AboutToComplete(r, t) && t.scored == [] && StatusesAgree(r, t)
      ensures StatusesAgree(r, TaskCompleted(r, t, status))
    {
      CompletionKeepsStatuses(r, t, status);
    }
    if e.AllBidsDone? {
      BidsStepKeepsTables(r, s);
    }
  }

  lemma StepKeeps(r: Request, s: Join, e: Event)
    requires Inv(r, s) && Enabled(s, e)
    ensures Inv(r, Apply(r, s, e))
  {
    StepKeepsCounts(r, s, e);
    hide CountsAgree, StatusesAgree, HashesNonEmpty, Apply;
    if e.QueryKAnon? || e.KAnonReply? {
      KAnonStepKeepsStatuses(r, s, e);
    } else {
      OtherStepKeepsStatuses(r, s, e);
    }
  }

  lemma {:induction false} RunKeeps(r: Request, s: Join, events: seq<Event>)
    requires Inv(r, s) && Legal(r, s, events)
    ensures Inv(r, After(r, s, events))
    decreases |events|
  {
    if events != [] {
      hide Inv, Apply;
      StepKeeps(r, s, events[0]);
      RunKeeps(r, Apply(r, s, events[0]), events[1..]);
    }
  }

  lemma StartKeeps(r: Request)
    requires HashesNonEmpty(r.hashes)
    ensures Inv(r, Start(r))
  {
    NothingFoundSound(r, Start(r).tables);
  }

  // ----- over whole runs -----

  /** Every branch that had to be started is done. */
  ghost predicate BranchesDone(r: Request, s: Join) {
    s.phase.Started? && (r.enforce ==> s.kanon.KDone?) && (r.fetch ==> s.signals.SDone?)
  }

  /**
   Over every interleaving the request is answered at most once and the tracker is never completed
   more often than it was told; it was told of exactly the branches that are started; the callback runs
   exactly when all of them are done; and the ads are scored exactly when they are and
   the signals, if fetched, are usable.
   */
  lemma JoinSafe(r: Request, events: seq<Event>)
    requires HashesNonEmpty(r.hashes) && Legal(r, Start(r), events)
    ensures var t := After(r, Start(r), events);
            && !t.underflow
            && t.callbacks <= 1 && Endings(t) <= 1
            && (t.phase.Started? && (r.fetch || r.enforce) ==> t.counts.tracked == StartedBranches(t))
            && (t.callbacks == 1 <==> (r.fetch || r.enforce) && BranchesDone(r, t))
            && (t.scored != [] <==> BranchesDone(r, t) && (r.fetch ==> t.maybeSignals.Usable?))
  {
    StartKeeps(r);
    RunKeeps(r, Start(r), events);
  }

  // ----- which answer is sent -----

  ghost predicate KAnonDoneBy(r: Request, events: seq<Event>) {
    || QueryKAnon(true) in events
    || (r.hashes == map[] && QueryKAnon(false) in events)
    || exists response :: KAnonReply(response) in events
  }

  ghost predicate SignalsUsableBy(events: seq<Event>) {
    SignalsReplyV1(Usable) in events || SignalsReplyV2(Usable) in events
  }

  ghost predicate SignalsUnusableBy(events: seq<Event>) {
    || SignalsReplyV1(Missing) in events || SignalsReplyV1(Empty) in events || SignalsCancelledV1 in events
    || SignalsReplyV2(Empty) in events
  }

  ghost predicate EndedByBids(events: seq<Event>) {
    AllBidsDone(RequestCancelled) in events || AllBidsDone(NoBids(false)) in events || AllBidsDone(AllMismatched) in events
  }

  ghost predicate EndedByFetch(events: seq<Event>) {
    FetchSignals(CannotFetch) in events || SignalsCancelledV2 in events
  }

  ghost predicate PhaseHistory(phase: Phase, events: seq<Event>) {
    && (phase.Started? <==> AllBidsDone(Bids) in events)
    && (phase.Stopped? <==> EndedByBids(events) || AllBidsDone(NoBids(true)) in events)
    && !(EndedByBids(events) && AllBidsDone(NoBids(true)) in events)
  }

  ghost predicate KAnonHistory(r: Request, kanon: KAnonBranch, events: seq<Event>) {
    kanon.KDone? <==> KAnonDoneBy(r, events)
  }

  ghost predicate SignalsHistory(signals: SignalsBranch, maybeSignals: Signals, events: seq<Event>) {
    && (signals.SDone? <==> SignalsUsableBy(events) || SignalsUnusableBy(events))
    && !(SignalsUsableBy(events) && SignalsUnusableBy(events))
    && (signals == SAbandoned(true) <==> EndedByFetch(events) || SignalsReplyV2(Missing) in events)
    && !(EndedByFetch(events) && SignalsReplyV2(Missing) in events)
    && (maybeSignals.Usable? <==> SignalsUsableBy(events))
  }

  /** The phase and the branches are where the events so far have brought them. */
  ghost predicate BranchHistory(r: Request, s: Join, events: seq<Event>) {
    PhaseHistory(s.phase, events) && KAnonHistory(r, s.kanon, events) && SignalsHistory(s.signals, s.maybeSignals, events)
  }

  lemma AppendedEvent(past: seq<Event>, e: Event)
    ensures forall x :: x in past + [e] <==> x in past || x == e
  {
  }

  lemma PhaseFrame(phase: Phase, past: seq<Event>, e: Event)
    requires !e.AllBidsDone?
    ensures PhaseHistory(phase, past + [e]) <==> PhaseHistory(phase, past)
  {
    AppendedEvent(past, e);
  }

  lemma KAnonFrame(r: Request, kanon: KAnonBranch, past: seq<Event>, e: Event)
    requires !e.QueryKAnon? && !e.KAnonReply?
    ensures KAnonHistory(r, kanon, past + [e]) <==> KAnonHistory(r, kanon, past)
  {
    AppendedEvent(past, e);
  }

  lemma SignalsFrame(signals: SignalsBranch, maybeSignals: Signals, past: seq<Event>, e: Event)
    requires e.AllBidsDone? || e.QueryKAnon? || e.KAnonReply?
    ensures SignalsHistory(signals, maybeSignals, past + [e]) <==> SignalsHistory(signals, maybeSignals, past)
  {
    AppendedEvent(past, e);
  }

  lemma PhaseStep(r: Request, s: Join, past: seq<Event>, e: Event)
    requires PhaseHistory(s.phase, past) && Enabled(s, e) && e.AllBidsDone?
    ensures PhaseHistory(Apply(r, s, e).phase, past + [e])
  {
    AppendedEvent(past, e);
  }

  lemma KAnonStep(r: Request, s: Join, past: seq<Event>, e: Event)
    requires KAnonHistory(r, s.kanon, past) && Enabled(s, e) && (e.QueryKAnon? || e.KAnonReply?)
    ensures KAnonHistory(r, Apply(r, s, e).kanon, past + [e])
  {
    AppendedEvent(past, e);
    hide Populated, Union;
  }

  lemma SignalsStep(r: Request, s: Join, past: seq<Event>, e: Event)
    requires SignalsHistory(s.signals, s.maybeSignals, past) && Enabled(s, e)
    requires !s.signals.SDone? && !s.signals.SAbandoned? && !e.AllBidsDone? && !e.QueryKAnon? && !e.KAnonReply?
    ensures SignalsHistory(Apply(r, s, e).signals, Apply(r, s, e).maybeSignals, past + [e])
  {
    AppendedEvent(past, e);
    hide TaskCompleted;
    forall t: Join, status { CompletedTask(r, t, status); }
  }

  lemma CompletedTask(r: Request, s: Join, status: TaskStatus)
    ensures var t := TaskCompleted(r, s, status);
            t.kanon == s.kanon && t.signals == s.signals && t.maybeSignals == s.maybeSignals && t.finished == s.finished
  {
  }

  /** What an event leaves alone. */
  lemma OtherBranches(r: Request, s: Join, e: Event)
    requires BranchesFollowPhase(r, s) && Enabled(s, e)
    ensures var t := Apply(r, s, e);
            && (!e.AllBidsDone? ==> t.phase == s.phase)
            && (!e.QueryKAnon? && !e.KAnonReply? ==> t.kanon.KDone? == s.kanon.KDone?)
            && (e.AllBidsDone? || e.QueryKAnon? || e.KAnonReply? ==>
                t.maybeSignals == s.maybeSignals && (t.signals == s.signals || (s.signals.SIdle? && t.signals.SScheduled?)))
  {
    hide Populated, Union;
  }

  lemma SignalsScheduled(maybeSignals: Signals, events: seq<Event>)
    requires SignalsHistory(SIdle, maybeSignals, events)
    ensures SignalsHistory(SScheduled, maybeSignals, events)
  {
  }

  lemma StepBranches(r: Request, s: Join, past: seq<Event>, e: Event)
    requires BranchesFollowPhase(r, s) && BranchHistory(r, s, past) && Enabled(s, e)
    ensures BranchHistory(r, Apply(r, s, e), past + [e])
  {
    hide PhaseHistory, SignalsHistory, KAnonDoneBy, Apply, BranchesFollowPhase;
    OtherBranches(r, s, e);
    if e.AllBidsDone? {
      PhaseStep(r, s, past, e);
    } else {
      PhaseFrame(s.phase, past, e);
    }
    if e.QueryKAnon? || e.KAnonReply? {
      KAnonStep(r, s, past, e);
    } else {
      KAnonFrame(r, s.kanon, past, e);
    }
    if e.AllBidsDone? || e.QueryKAnon? || e.KAnonReply? {
      SignalsFrame(s.signals, s.maybeSignals, past, e);
      if s.signals.SIdle? {
        SignalsScheduled(s.maybeSignals, past + [e]);
      }
    } else {
      SignalsStep(r, s, past, e);
    }
  }

  /** The request ended with a status as often as an event said so. */
  ghost predicate EndHistory(finished: nat, events: seq<Event>) {
    finished == Int(EndedByBids(events)) + Int(EndedByFetch(events))
  }

  lemma StepEnds(r: Request, s: Join, past: seq<Event>, e: Event)
    requires PhaseHistory(s.phase, past) && SignalsHistory(s.signals, s.maybeSignals, past)
    requires EndHistory(s.finished, past) && Enabled(s, e)
    ensures EndHistory(Apply(r, s, e).finished, past + [e])
  {
    hide TaskCompleted, Populated, Union, SignalsUsableBy, SignalsUnusableBy;
    AppendedEvent(past, e);
    FetchNotEndedBefore(s, past, e);
    forall t: Join, status { CompletedTask(r, t, status); }
  }

  /** Bids are done once, and a fetch ends once. */
  lemma FetchNotEndedBefore(s: Join, past: seq<Event>, e: Event)
    requires PhaseHistory(s.phase, past) && SignalsHistory(s.signals, s.maybeSignals, past) && Enabled(s, e)
    ensures e.AllBidsDone? ==> !EndedByBids(past)
    ensures e.FetchSignals? || e.SignalsCancelledV2? ==> !EndedByFetch(past)
  {
  }

  ghost predicate History(r: Request, s: Join, events: seq<Event>) {
    CountsAgree(r, s) && BranchHistory(r, s, events) && EndHistory(s.finished, events)
  }

  lemma StepHistory(r: Request, s: Join, past: seq<Event>, e: Event)
    requires History(r, s, past) && Enabled(s, e)
    ensures History(r, Apply(r, s, e), past + [e])
  {
    hide Apply, TrackerAgrees, EndingsAgree, PhaseHistory, KAnonHistory, SignalsHistory, EndHistory, BranchesFollowPhase;
    StepKeepsCounts(r, s, e);
    StepBranches(r, s, past, e);
    StepEnds(r, s, past, e);
  }

  lemma {:induction false} RunHistory(r: Request, s: Join, past: seq<Event>, events: seq<Event>)
    requires History(r, s, past) && Legal(r, s, events)
    ensures History(r, After(r, s, events), past + events)
    decreases |events|
  {
    if events == [] {
      assert past + events == past;
    } else {
      hide History, Apply, Enabled;
      var e := events[0];
      PastNext(past, events);
      StepHistory(r, s, past, e);
      RunHistory(r, Apply(r, s, e), past + [e], events[1..]);
    }
  }

  lemma PastNext(past: seq<Event>, events: seq<Event>)
    requires events != []
    ensures past + [events[0]] + events[1..] == past + events
  {
  }

  lemma StartHistory(r: Request)
    ensures History(r, Start(r), [])
  {
  }

  /** How often each answer was sent, from the history alone. */
  lemma AnswersOfHistory(r: Request, s: Join, events: seq<Event>)
    requires History(r, s, events)
    ensures s.finished <= 1 && s.chaffed <= 1
    ensures s.finished == 1 <==> EndedByBids(events) || EndedByFetch(events)
    ensures s.chaffed == 1 <==>
              || AllBidsDone(NoBids(true)) in events || SignalsReplyV2(Missing) in events
              || (SignalsUnusableBy(events) && (r.enforce ==> KAnonDoneBy(r, events)))
    ensures s.scored != [] <==>
              AllBidsDone(Bids) in events && (r.enforce ==> KAnonDoneBy(r, events)) && (r.fetch ==> SignalsUsableBy(events))
  {
    hide EndedByBids, EndedByFetch, KAnonDoneBy, SignalsUsableBy, SignalsUnusableBy;
  }

  /**
   Over every interleaving, which answer is sent is told by what happened.  The request fails exactly when it was cancelled
   with the last bid, no buyer succeeded, all bids had the wrong currency, the signals could not be asked for, or their
   second version was cancelled.  Chaff is sent exactly when buyers succeeded without bids, a reply of the second
   version had no signals, or everything awaited has come and the signals were missing or empty.  Ads are scored
   exactly when there are bids, everything awaited has come, and the signals, if fetched, are usable.
   */
  lemma AnswerIff(r: Request, events: seq<Event>)
    requires Legal(r, Start(r), events)
    ensures
      var t := After(r, Start(r), events);
      var kAnonDone :=
        || !r.enforce || QueryKAnon(true) in events || (r.hashes == map[] && QueryKAnon(false) in events)
        || exists response :: KAnonReply(response) in events;
      && t.finished <= 1 && t.chaffed <= 1
      && (t.finished == 1 <==>
          || AllBidsDone(RequestCancelled) in events || AllBidsDone(NoBids(false)) in events
          || AllBidsDone(AllMismatched) in events
          || FetchSignals(CannotFetch) in events || SignalsCancelledV2 in events)
      && (t.chaffed == 1 <==>
          || AllBidsDone(NoBids(true)) in events || SignalsReplyV2(Missing) in events
          || (kAnonDone
              && (SignalsReplyV1(Missing) in events || SignalsReplyV1(Empty) in events || SignalsCancelledV1 in events
                  || SignalsReplyV2(Empty) in events)))
      && (t.scored != [] <==>
          && AllBidsDone(Bids) in events && kAnonDone
          && (r.fetch ==> SignalsReplyV1(Usable) in events || SignalsReplyV2(Usable) in events))
  {
    StartHistory(r);
    RunHistory(r, Start(r), [], events);
    assert [] + events == events;
    AnswersOfHistory(r, After(r, Start(r), events), events);
    AnswersSpelledOut(r, events);
    hide After, Legal, Start, History, KAnonDoneBy, SignalsUsableBy, SignalsUnusableBy, EndedByBids, EndedByFetch;
  }

  lemma AnswersSpelledOut(r: Request, events: seq<Event>)
    ensures EndedByBids(events) <==>
              AllBidsDone(RequestCancelled) in events || AllBidsDone(NoBids(false)) in events || AllBidsDone(AllMismatched) in events
    ensures EndedByFetch(events) <==> FetchSignals(CannotFetch) in events || SignalsCancelledV2 in events
    ensures SignalsUnusableBy(events) <==>
              || SignalsReplyV1(Missing) in events || SignalsReplyV1(Empty) in events || SignalsCancelledV1 in events
              || SignalsReplyV2(Empty) in events
    ensures SignalsUsableBy(events) <==> SignalsReplyV1(Usable) in events || SignalsReplyV2(Usable) in events
    ensures KAnonDoneBy(r, events) <==>
              || QueryKAnon(true) in events || (r.hashes == map[] && QueryKAnon(false) in events)
              || exists response :: KAnonReply(response) in events
  {
  }

  /** What the k-anonymity service last answered. */
  function Found(before: set<Hash>, events: seq<Event>): set<Hash>
    decreases |events|
  {
    if events == [] then before
    else Found(if events[0].KAnonReply? && events[0].response.Success? then events[0].response.value else before, events[1..])
  }

  lemma QueriedStep(r: Request, s: Join, e: Event)
    requires Inv(r, s) && Enabled(s, e)
    ensures Apply(r, s, e).tables.queried == Found(s.tables.queried, [e])
  {
    hide Inv, TaskCompleted, Statuses;
  }

  lemma {:induction false} QueriedIsFound(r: Request, s: Join, events: seq<Event>)
    requires Inv(r, s) && Legal(r, s, events)
    ensures After(r, s, events).tables.queried == Found(s.tables.queried, events)
    decreases |events|
  {
    if events != [] {
      hide Inv, Apply;
      StepKeeps(r, s, events[0]);
      QueriedStep(r, s, events[0]);
      QueriedIsFound(r, Apply(r, s, events[0]), events[1..]);
    }
  }

  lemma {:induction false} RunAppend(r: Request, s: Join, events: seq<Event>, e: Event)
    requires Legal(r, s, events) && Enabled(After(r, s, events), e)
    ensures Legal(r, s, events + [e]) && After(r, s, events + [e]) == Apply(r, After(r, s, events), e)
    decreases |events|
  {
    hide Apply, Enabled;
    if events == [] {
      assert [] + [e] == [e] && [e][1..] == [];
    } else {
      RunAppend(r, Apply(r, s, events[0]), events[1..], e);
      assert (events + [e])[1..] == events[1..] + [e];
    }
  }

  lemma StepsTowardScoring(r: Request, s: Join)
    ensures s.phase.Waiting? && s.kanon.KIdle? && s.signals.SIdle? ==>
              var t := Apply(r, s, AllBidsDone(Bids));
              t.kanon == (if r.enforce then KScheduled else KIdle) && t.signals == if r.fetch then SScheduled else SIdle
    ensures s.kanon.KScheduled? ==>
              var t := Apply(r, s, QueryKAnon(false));
              t.signals == s.signals && t.kanon == if r.hashes == map[] then KDone else KAsked
    ensures s.signals.SScheduled? ==> Apply(r, s, FetchSignals(SentV2)).signals.SAskedV2?
  {
    hide Populated, Union, TaskCompleted;
    forall t: Join, status { CompletedTask(r, t, status); }
  }

  /** Whatever is fetched and enforced, and whatever the service finds, some run scores the ads. */
  lemma ScoringReachable(r: Request, found: set<Hash>) returns (events: seq<Event>)
    ensures Legal(r, Start(r), events) && After(r, Start(r), events).scored != []
    ensures r.enforce && r.hashes != map[] ==> KAnonReply(Result.Success(found)) in events
  {
    hide Apply, Legal, After, TaskCompleted, Found;
    var s := Start(r);
    EmptyRun(r, s);
    events := [];
    StepsTowardScoring(r, s);
    RunAppend(r, s, events, AllBidsDone(Bids));
    events := events + [AllBidsDone(Bids)];
    if r.enforce {
      StepsTowardScoring(r, After(r, s, events));
      RunAppend(r, s, events, QueryKAnon(false));
      events := events + [QueryKAnon(false)];
      if r.hashes != map[] {
        KAnonReplyKeepsSignals(r, After(r, s, events), found);
        RunAppend(r, s, events, KAnonReply(Result.Success(found)));
        events := events + [KAnonReply(Result.Success(found))];
      }
    }
    if r.fetch {
      StepsTowardScoring(r, After(r, s, events));
      RunAppend(r, s, events, FetchSignals(SentV2));
      events := events + [FetchSignals(SentV2)];
      RunAppend(r, s, events, SignalsReplyV2(Usable));
      events := events + [SignalsReplyV2(Usable)];
    }
    AnswerIff(r, events);
  }

  lemma EmptyRun(r: Request, s: Join)
    ensures Legal(r, s, []) && After(r, s, []) == s
  {
  }

  lemma KAnonReplyKeepsSignals(r: Request, s: Join, found: set<Hash>)
    requires s.kanon.KAsked?
    ensures Apply(r, s, KAnonReply(Result.Success(found))).signals == s.signals
  {
    hide Populated, TaskCompleted;
    forall t: Join, status { CompletedTask(r, t, status); }
  }

  /**
   K-anonymity fails closed: over every interleaving, when ads are scored under enforcement, a bid is forwarded
   as k-anonymous iff its buyer has a report-win URL and the service answered that what the bid renders, what it
   reports and each of its components is.
   */
  lemma FailClosed(
    r: Request, bids: map<string, seq<Bid>>, reportWinUrls: map<string, string>, events: seq<Event>, k: BidKey)
    requires HashedBids(bids, reportWinUrls, bids.Keys, r.hashes) && IsBid(bids, k)
    requires Legal(r, Start(r), events)
    ensures var t := After(r, Start(r), events);
            t.scored != [] ==>
              (Forwarded(r.enforce, t.scored[0], k) <==>
               || !r.enforce
               || (k.owner in reportWinUrls
                   && var bid, url, found := bids[k.owner][k.index], reportWinUrls[k.owner], Found({}, events);
                   && RenderHash(k.owner, url, bid.render) in found
                   && ReportingHash(k.owner, bid.interestGroupName, url, bid.render, bid.reportingIds) in found
                   && forall c :: c in bid.adComponents ==> ComponentHash(c) in found))
  {
    if k.owner in reportWinUrls {
      HashesFoundIff(k.owner, reportWinUrls[k.owner], bids[k.owner][k.index], Found({}, events));
    }
    HashesOfBidsNonEmpty(bids, reportWinUrls, r.hashes);
    StartKeeps(r);
    RunKeeps(r, Start(r), events);
    QueriedIsFound(r, Start(r), events);
    hide HashesOfBid, After, Legal, Found, Start, CountsAgree;
  }

  lemma HashesOfBidsNonEmpty(bids: map<string, seq<Bid>>, reportWinUrls: map<string, string>, hashes: HashSets)
    requires HashedBids(bids, reportWinUrls, bids.Keys, hashes)
    ensures HashesNonEmpty(hashes)
  {
    forall k | k in hashes
      ensures hashes[k] != {}
    {
      assert RenderHash(k.owner, reportWinUrls[k.owner], bids[k.owner][k.index].render) in hashes[k];
    }
  }
}
