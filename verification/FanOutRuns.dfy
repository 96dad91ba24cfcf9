/**
 Every interleaving of sending the bid requests and of receiving their replies
 (services/seller_frontend_service/select_ad_reactor.cc, services/common/util/async_task_tracker.cc).

 Replies may arrive while later requests are still being sent, in any order and with any status.
 */
module FanOutRuns {
  import opened TaskTracker

  /**
   `queue` requests are not yet processed and `outstanding` ones await a reply; `unaskable` tasks are
   tracked but nothing will complete them; `capped` requests were skipped because `max` had been sent;
   `done` are the calls of the final callback; `underflow` tells that a task was completed when none was pending.
   */
  datatype FanOut = FanOut(
    queue: nat, outstanding: nat, unaskable: nat, max: nat, sent: nat, capped: nat, counts: Counts, done: seq<bool>,
    underflow: bool)

  datatype Event = Process | Reply(status: TaskStatus)

  function Start(requests: nat, unaskable: nat, max: nat): FanOut {
    FanOut(requests, 0, unaskable, max, 0, 0, Fresh(requests + unaskable), [], false)
  }

  predicate Enabled(s: FanOut, e: Event) {
    match e
    case Process => s.queue > 0
    case Reply(status) => s.outstanding > 0 && !status.Unknown?
  }

  /** As `AsyncTaskTracker.TaskCompleted` does it. */
  function TaskCompleted(s: FanOut, status: TaskStatus): FanOut {
    if s.counts.pending == 0 then s.(underflow := true)
    else
      var c := s.counts.Complete(status);
      s.(counts := c, done := s.done + if c.pending == 0 then [c.AnySuccessful()] else [])
  }

  function Apply(s: FanOut, e: Event): FanOut
    requires Enabled(s, e)
  {
    match e
    case Process =>
      if s.sent >= s.max then TaskCompleted(s.(queue := s.queue - 1, capped := s.capped + 1), Skipped)
      else s.(queue := s.queue - 1, outstanding := s.outstanding + 1, sent := s.sent + 1)
    case Reply(status) =>
      TaskCompleted(s.(outstanding := s.outstanding - 1), status)
  }

  predicate Legal(s: FanOut, events: seq<Event>)
    decreases |events|
  {
    events == [] || (Enabled(s, events[0]) && Legal(Apply(s, events[0]), events[1..]))
  }

  function After(s: FanOut, events: seq<Event>): FanOut
    requires Legal(s, events)
    decreases |events|
  {
    if events == [] then s else After(Apply(s, events[0]), events[1..])
  }

  function One(e: Event, status: TaskStatus): nat {
    if e == Reply(status) then 1 else 0
  }

  /** How many replies came in with a status. */
  function Replies(events: seq<Event>, status: TaskStatus): nat {
    if events == [] then 0
    else One(events[0], status) + Replies(events[1..], status)
  }

  /** Nothing is left to do. */
  ghost predicate Finished(s: FanOut) {
    forall e :: !Enabled(s, e)
  }

  // ----- what every step keeps -----

  ghost predicate Inv(s: FanOut, requests: nat) {
    && !s.underflow
    && s.counts.Accounted()
    && s.counts.tracked == requests + s.unaskable
    && s.counts.pending == s.queue + s.outstanding + s.unaskable
    && s.sent <= s.max
    && (s.sent < s.max ==> s.capped == 0)
    && s.sent + s.capped + s.queue == requests
    && s.done == if s.counts.tracked > 0 && s.counts.pending == 0 then [s.counts.AnySuccessful()] else []
  }

  lemma StartInv(requests: nat, unaskable: nat, max: nat)
    ensures Inv(Start(requests, unaskable, max), requests)
    ensures Legal(Start(requests, unaskable, max), [])
    ensures After(Start(requests, unaskable, max), []) == Start(requests, unaskable, max)
  {
  }

  lemma PendingOf(s: FanOut, requests: nat)
    requires Inv(s, requests)
    ensures s.counts.pending == s.queue + s.outstanding + s.unaskable
    ensures s.sent + s.capped + s.queue == requests
  {
  }

  lemma StepKeeps(s: FanOut, requests: nat, e: Event)
    requires Inv(s, requests) && Enabled(s, e)
    ensures Inv(Apply(s, e), requests)
  {
  }

  lemma {:induction false} RunKeeps(s: FanOut, requests: nat, events: seq<Event>)
    requires Inv(s, requests) && Legal(s, events)
    ensures Inv(After(s, events), requests)
    ensures var t := After(s, events);
            && t.unaskable == s.unaskable && t.max == s.max
            && 2 * t.queue + t.outstanding + |events| <= 2 * s.queue + s.outstanding
    decreases |events|
  {
    if events != [] {
      StepKeeps(s, requests, events[0]);
      RunKeeps(Apply(s, events[0]), requests, events[1..]);
    }
  }

  lemma StepCounts(s: FanOut, requests: nat, e: Event)
    requires Inv(s, requests) && Enabled(s, e)
    ensures var c := Apply(s, e).counts;
            && c.successful == s.counts.successful + One(e, Success)
            && c.empty == s.counts.empty + One(e, EmptyResponse)
            && c.skipped == s.counts.skipped + One(e, Skipped) + Apply(s, e).capped - s.capped
            && c.error == s.counts.error + One(e, Error)
            && c.cancelled == s.counts.cancelled + One(e, Cancelled)
  {
  }

  lemma {:induction false} CountsAreReplies(s: FanOut, requests: nat, events: seq<Event>)
    requires Inv(s, requests) && Legal(s, events)
    ensures var c := After(s, events).counts;
            && c.successful == s.counts.successful + Replies(events, Success)
            && c.empty == s.counts.empty + Replies(events, EmptyResponse)
            && c.skipped == s.counts.skipped + Replies(events, Skipped) + After(s, events).capped - s.capped
            && c.error == s.counts.error + Replies(events, Error)
            && c.cancelled == s.counts.cancelled + Replies(events, Cancelled)
    decreases |events|
  {
    if events != [] {
      hide Apply, Inv;
      StepKeeps(s, requests, events[0]);
      StepCounts(s, requests, events[0]);
      CountsAreReplies(Apply(s, events[0]), requests, events[1..]);
    }
  }

  // ----- over whole runs -----

  /**
   Over every interleaving no task is completed that is not pending, at most `max` requests are sent, the run
   is bounded, and the callback runs at most once: exactly when nothing is left to send or to await and
   no tracked task is unaskable.
   */
  lemma CallbackOnce(requests: nat, unaskable: nat, max: nat, events: seq<Event>)
    requires Legal(Start(requests, unaskable, max), events)
    ensures var t := After(Start(requests, unaskable, max), events);
            && !t.underflow
            && t.sent <= max && t.sent + t.capped + t.queue == requests
            && |t.done| <= 1
            && (|t.done| == 1 <==> requests > 0 && unaskable == 0 && t.queue == 0 && t.outstanding == 0)
            && |events| <= 2 * requests
  {
    RunKeeps(Start(requests, unaskable, max), requests, events);
  }

  /** The callback is told `false` exactly when something failed and nothing but failures and cancellations happened. */
  lemma {:induction false} CallbackVerdict(requests: nat, unaskable: nat, max: nat, events: seq<Event>)
    requires Legal(Start(requests, unaskable, max), events)
    ensures var t, errors := After(Start(requests, unaskable, max), events), Replies(events, Error);
            t.done != [] ==>
              (t.done == [false] <==> errors > 0 && errors + Replies(events, Cancelled) == requests)
  {
    var s := Start(requests, unaskable, max);
    RunKeeps(s, requests, events);
    CountsAreReplies(s, requests, events);
  }

  /**
   A run with nothing left to do has sent as many requests as the cap allows, capped the others, and
   has run the callback iff every tracked task could be asked.
   */
  lemma FinishedRun(requests: nat, unaskable: nat, max: nat, events: seq<Event>)
    requires Legal(Start(requests, unaskable, max), events)
    requires Finished(After(Start(requests, unaskable, max), events))
    ensures var t := After(Start(requests, unaskable, max), events);
            && t.sent == (if requests < max then requests else max)
            && t.capped == requests - t.sent
            && (|t.done| == 1 <==> requests > 0 && unaskable == 0)
  {
    var t := After(Start(requests, unaskable, max), events);
    RunKeeps(Start(requests, unaskable, max), requests, events);
    assert !Enabled(t, Process) && !Enabled(t, Reply(Error));
  }

  /** Two finished runs with the same replies end the same way, whatever the order of the events. */
  lemma OrderDoesNotMatter(requests: nat, unaskable: nat, max: nat, a: seq<Event>, b: seq<Event>)
    requires Legal(Start(requests, unaskable, max), a) && Legal(Start(requests, unaskable, max), b)
    requires Finished(After(Start(requests, unaskable, max), a)) && Finished(After(Start(requests, unaskable, max), b))
    requires forall status :: Replies(a, status) == Replies(b, status)
    ensures After(Start(requests, unaskable, max), a) == After(Start(requests, unaskable, max), b)
  {
    var s := Start(requests, unaskable, max);
    RunKeeps(s, requests, a);
    RunKeeps(s, requests, b);
    CountsAreReplies(s, requests, a);
    CountsAreReplies(s, requests, b);
    FinishedRun(requests, unaskable, max, a);
    FinishedRun(requests, unaskable, max, b);
    assert forall t | t == After(s, a) || t == After(s, b) :: !Enabled(t, Process) && !Enabled(t, Reply(Error));
  }

  // ----- extending and finishing a run -----

  lemma {:induction false} RunAppend(s: FanOut, events: seq<Event>, e: Event)
    requires Legal(s, events) && Enabled(After(s, events), e)
    ensures Legal(s, events + [e]) && After(s, events + [e]) == Apply(After(s, events), e)
    decreases |events|
  {
    if events == [] {
      assert events + [e] == [e] && [e][1..] == [];
    } else {
      hide Apply, Enabled;
      assert (events + [e])[1..] == events[1..] + [e];
      RunAppend(Apply(s, events[0]), events[1..], e);
    }
  }

  /** Every state can still go on to one in which nothing is left to do. */
  lemma {:induction false} CanFinish(s: FanOut) returns (events: seq<Event>)
    ensures Legal(s, events) && After(s, events).queue == 0 && After(s, events).outstanding == 0
    decreases 2 * s.queue + s.outstanding
  {
    if s.queue == 0 && s.outstanding == 0 {
      return [];
    }
    var e := if s.queue > 0 then Process else Reply(Success);
    var rest := CanFinish(Apply(s, e));
    events := [e] + rest;
    assert events[1..] == rest;
  }

  /** Some run gets to the callback exactly when there is a request and every tracked task could be asked. */
  lemma CallbackReachableIff(requests: nat, unaskable: nat, max: nat)
    ensures (exists events :: Legal(Start(requests, unaskable, max), events)
                              && After(Start(requests, unaskable, max), events).done != [])
       <==> requests > 0 && unaskable == 0
  {
    forall events | Legal(Start(requests, unaskable, max), events)
      ensures After(Start(requests, unaskable, max), events).done != [] ==> requests > 0 && unaskable == 0
    {
      CallbackOnce(requests, unaskable, max, events);
    }
    if requests > 0 && unaskable == 0 {
      var events := CanFinish(Start(requests, unaskable, max));
      CallbackOnce(requests, unaskable, max, events);
    }
  }

  // ----- a tracker that was told of another number of tasks -----

  /** The tracker waits for `tracked` tasks; those beyond the requests are unaskable. */
  function StartTracking(requests: nat, tracked: nat, max: nat): FanOut {
    Start(requests, if tracked >= requests then tracked - requests else 0, max).(counts := Fresh(tracked))
  }

  /** As long as every completion found a pending task, the pending ones have gone down with the requests. */
  ghost predicate Balanced(s: FanOut, requests: nat) {
    s.underflow || s.counts.pending + requests == s.counts.tracked + s.queue + s.outstanding
  }

  lemma {:induction false} RunBalanced(s: FanOut, requests: nat, events: seq<Event>)
    requires Balanced(s, requests) && Legal(s, events)
    ensures Balanced(After(s, events), requests) && After(s, events).counts.tracked == s.counts.tracked
    decreases |events|
  {
    if events != [] {
      hide Balanced, Apply;
      StepBalanced(s, requests, events[0]);
      RunBalanced(Apply(s, events[0]), requests, events[1..]);
    }
  }

  lemma StepBalanced(s: FanOut, requests: nat, e: Event)
    requires Balanced(s, requests) && Enabled(s, e)
    ensures Balanced(Apply(s, e), requests) && Apply(s, e).counts.tracked == s.counts.tracked
  {
  }

  /** Some run completes a task when none is pending exactly when fewer tasks are tracked than requests were built. */
  lemma UnderflowReachableIff(requests: nat, tracked: nat, max: nat)
    ensures (exists events :: Legal(StartTracking(requests, tracked, max), events)
                              && After(StartTracking(requests, tracked, max), events).underflow)
       <==> tracked < requests
  {
    var start := StartTracking(requests, tracked, max);
    if tracked < requests {
      var events := CanFinish(start);
      RunBalanced(start, requests, events);
    } else {
      assert start == Start(requests, tracked - requests, max);
      forall events | Legal(start, events)
        ensures !After(start, events).underflow
      {
        CallbackOnce(requests, tracked - requests, max, events);
      }
    }
  }
}
