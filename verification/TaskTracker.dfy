/**
 Counting outstanding tasks (services/common/util/async_task_tracker.cc).

 `Counts` is the state of a tracker as a value, used to reason about interleavings;
 `AsyncTaskTracker` is the object.
 */
module TaskTracker {

  datatype TaskStatus = Unknown | Skipped | EmptyResponse | Cancelled | Error | Success

  datatype Counts = Counts(
    tracked: nat, pending: nat, successful: nat, empty: nat, skipped: nat, error: nat, cancelled: nat)
  {
    /** Every tracked task is pending or has been counted under its status. */
    predicate Accounted() {
      tracked == pending + successful + empty + skipped + error + cancelled
    }

    /** Reported as a success unless something failed and nothing but failures and cancellations happened. */
    predicate AnySuccessful() {
      successful > 0 || empty > 0 || skipped > 0 || error == 0
    }

    /** One more task is done. */
    function Complete(status: TaskStatus): Counts
      requires pending > 0
    {
      var c := this.(pending := pending - 1);
      match status
      case Error => c.(error := error + 1)
      case EmptyResponse => c.(empty := empty + 1)
      case Skipped => c.(skipped := skipped + 1)
      case Cancelled => c.(cancelled := cancelled + 1)
      case Success => c.(successful := successful + 1)
      case Unknown => c
    }
  }

  function Fresh(tracked: nat): Counts {
    Counts(tracked, tracked, 0, 0, 0, 0, 0)
  }

  /** What the final callback is told once every task is accounted for. */
  lemma AnySuccessfulMeaning(c: Counts)
    requires c.Accounted() && c.pending == 0
    ensures !c.AnySuccessful() <==> c.error > 0 && c.error + c.cancelled == c.tracked
  {
  }

  class AsyncTaskTracker {
    var numTasksToTrack: nat
    var pendingTasksCount: nat
    var successfulTasksCount: nat
    var emptyTasksCount: nat
    var skippedTasksCount: nat
    var errorTasksCount: nat
    var cancelledTasksCount: nat
    /** The calls of the registered callback and what they were told. */
    var doneCalls: seq<bool>

    function State(): Counts
      reads this
    {
      Counts(numTasksToTrack, pendingTasksCount, successfulTasksCount, emptyTasksCount, skippedTasksCount,
             errorTasksCount, cancelledTasksCount)
    }

    constructor (numTasks: nat)
      ensures State() == Fresh(numTasks) && doneCalls == []
    {
      numTasksToTrack, pendingTasksCount, doneCalls := numTasks, numTasks, [];
      successfulTasksCount, emptyTasksCount, skippedTasksCount, errorTasksCount, cancelledTasksCount := 0, 0, 0, 0, 0;
    }

    method SetNumTasksToTrack(numTasks: nat)
      modifies this
      ensures State() == Fresh(numTasks) && doneCalls == old(doneCalls)
      ensures numTasksToTrack == pendingTasksCount == numTasks && successfulTasksCount == emptyTasksCount == 0
      ensures skippedTasksCount == errorTasksCount == cancelledTasksCount == 0
    {
      numTasksToTrack, pendingTasksCount := numTasks, numTasks;
      successfulTasksCount, emptyTasksCount, skippedTasksCount, errorTasksCount, cancelledTasksCount := 0, 0, 0, 0, 0;
    }

    /** Counts one task; the callback runs when it was the last pending one. */
    method TaskCompleted(status: TaskStatus)
      requires pendingTasksCount > 0
      modifies this
      ensures State() == old(State()).Complete(status)
      ensures numTasksToTrack == old(numTasksToTrack) && pendingTasksCount == old(pendingTasksCount) - 1
      ensures successfulTasksCount == old(successfulTasksCount) + if status == Success then 1 else 0
      ensures emptyTasksCount == old(emptyTasksCount) + if status == EmptyResponse then 1 else 0
      ensures skippedTasksCount == old(skippedTasksCount) + if status == Skipped then 1 else 0
      ensures errorTasksCount == old(errorTasksCount) + if status == Error then 1 else 0
      ensures cancelledTasksCount == old(cancelledTasksCount) + if status == Cancelled then 1 else 0
      ensures pendingTasksCount > 0 ==> doneCalls == old(doneCalls)
      ensures pendingTasksCount == 0 ==>
                doneCalls == old(doneCalls) + [
                  successfulTasksCount > 0 || emptyTasksCount > 0 || skippedTasksCount > 0 || errorTasksCount == 0]
      ensures doneCalls == old(doneCalls) + if pendingTasksCount == 0 then [State().AnySuccessful()] else []
    {
      pendingTasksCount := pendingTasksCount - 1;
      match status {
        case Error => errorTasksCount := errorTasksCount + 1;
        case EmptyResponse => emptyTasksCount := emptyTasksCount + 1;
        case Skipped => skippedTasksCount := skippedTasksCount + 1;
        case Cancelled => cancelledTasksCount := cancelledTasksCount + 1;
        case Success => successfulTasksCount := successfulTasksCount + 1;
        case Unknown =>
      }
      if pendingTasksCount == 0 {
        var anySuccessful :=
          successfulTasksCount > 0 || emptyTasksCount > 0 || skippedTasksCount > 0 || errorTasksCount == 0;
        doneCalls := doneCalls + [anySuccessful];
      }
    }
  }
}
