/** A query or mutation: one job on the shared thread pool, stopped by itself or by the main thread. */
module RegularOperation {
  datatype Reply = Data | Complete

  /** Where the job is; `full` tells whether its copy of `onReply` is a non-empty function. */
  datatype Worker =
    | Queued
    | Copied(full: bool)    // m_stopped not tested yet
    | Resolving(full: bool)
    | Resolved(full: bool)  // about to test m_stopped again
    | Passed(full: bool)    // about to send the data
    | DataSent(full: bool)
    | CompleteSent
    | Finished

  datatype Regular = Regular(stopped: bool, worker: Worker, replies: seq<Reply>)

  /** `Take` copies the handler, whatever is there at that moment. */
  datatype Event = Take(full: bool) | TestStopped | ResolutionDone | ReplyData | ReplyComplete | AutoStop | Stop

  const STARTED := Regular(false, Queued, [])

  /** The test that decides whether the operation replies. */
  predicate Passing(r: Regular, e: Event) {
    e.TestStopped? && r.worker.Resolved? && !r.stopped
  }

  predicate Enabled(r: Regular, e: Event) {
    match e
    case Take(_) => r.worker.Queued?
    case TestStopped => r.worker.Copied? || r.worker.Resolved?
    case ResolutionDone => r.worker.Resolving?
    case ReplyData => r.worker.Passed?
    case ReplyComplete => r.worker.DataSent?
    case AutoStop => r.worker.CompleteSent?
    case Stop => true
  }

  function Next(r: Regular, e: Event): Regular
    requires Enabled(r, e)
  {
    match e
    case Take(full) => r.(worker := Copied(full))
    case TestStopped =>
      if r.stopped then r.(worker := Finished)
      else if r.worker.Copied? then r.(worker := Resolving(r.worker.full))
      else r.(worker := Passed(r.worker.full))
    case ResolutionDone => r.(worker := Resolved(r.worker.full))
    case ReplyData => r.(replies := r.replies + [Data], worker := DataSent(r.worker.full))
    case ReplyComplete => r.(replies := r.replies + [Complete], worker := CompleteSent)
    case AutoStop => r.(stopped := true, worker := Finished)
    case Stop => r.(stopped := true)
  }

  predicate HoldsCopy(w: Worker) {
    w.Copied? || w.Resolving? || w.Resolved? || w.Passed? || w.DataSent?
  }

  /** The trace is a prefix of data, complete; a worker past its second test holds a handler that is there. */
  predicate Inv(r: Regular) {
    && (r.worker.DataSent? ==> r.replies == [Data])
    && (r.worker.CompleteSent? ==> r.replies == [Data, Complete])
    && (r.worker.Finished? ==> r.replies == [] || r.replies == [Data, Complete])
    && (r.worker.Finished? ==> r.stopped)
    && (!r.worker.DataSent? && !r.worker.CompleteSent? && !r.worker.Finished? ==> r.replies == [])
    && (HoldsCopy(r.worker) && !r.worker.full ==> r.stopped && !r.worker.Passed? && !r.worker.DataSent?)
  }

  /** The handler may be gone only once the operation is stopped. */
  lemma StepInv(r: Regular, e: Event)
    requires Inv(r) && Enabled(r, e)
    requires e.Take? && !e.full ==> r.stopped
    ensures Inv(Next(r, e))
    ensures Passing(r, e) <==> Next(r, e).worker.Passed? && !r.worker.Passed?
  {
  }

  lemma Trace(r: Regular)
    requires Inv(r)
    ensures r.replies <= [Data, Complete]
    ensures r.worker.Passed? || r.worker.DataSent? ==> r.worker.full
  {
    assert [] <= [Data, Complete] && [Data] <= [Data, Complete];
  }

  class GraphQLConnectionOperationRegular {
    var stopped: bool
    var worker: Worker
    ghost var replies: seq<Reply>

    ghost function State(): Regular
      reads this
    {
      Regular(stopped, worker, replies)
    }

    ghost predicate Valid()
      reads this
    {
      Inv(State())
    }

    constructor ()
      ensures Valid() && State() == STARTED
    {
      stopped, worker, replies := false, Queued, [];
    }

    method Stop()
      requires Valid()
      modifies this
      ensures Valid() && State() == Next(old(State()), Event.Stop)
      ensures stopped && worker == old(worker) && replies == old(replies)
    {
      if stopped {
        return;
      }
      stopped := true;
    }

    /** `onReply` is copied before m_stopped is tested. */
    method CopyHandler(full: bool)
      requires Valid() && Enabled(State(), Take(full)) && (!full ==> stopped)
      modifies this
      ensures Valid() && State() == Next(old(State()), Take(full))
      ensures worker == Copied(full) && stopped == old(stopped) && replies == old(replies)
    {
      worker := Copied(full);
    }

    method TestsStopped()
      requires Valid() && Enabled(State(), TestStopped)
      modifies this
      ensures Valid() && State() == Next(old(State()), TestStopped)
      ensures worker.Finished? <==> stopped
      ensures !stopped ==>
        && (old(worker).Copied? ==> worker == Resolving(old(worker).full))
        && (old(worker).Resolved? ==> worker == Passed(old(worker).full))
      ensures stopped == old(stopped) && replies == old(replies)
    {
      if stopped {
        worker := Finished;
      } else if worker.Copied? {
        worker := Resolving(worker.full);
      } else {
        worker := Passed(worker.full);
      }
    }

    method ResolutionReturns()
      requires Valid() && Enabled(State(), ResolutionDone)
      modifies this
      ensures Valid() && State() == Next(old(State()), ResolutionDone)
      ensures old(worker).Resolving? && worker == Resolved(old(worker).full) && stopped == old(stopped) && replies == old(replies)
    {
      worker := Resolved(worker.full);
    }

    method SendsData()
      requires Valid() && Enabled(State(), ReplyData)
      modifies this
      ensures Valid() && State() == Next(old(State()), ReplyData) && old(worker.full) && replies == [Data]
      ensures worker == DataSent(true) && stopped == old(stopped)
    {
      replies := replies + [Data];
      worker := DataSent(worker.full);
    }

    method SendsComplete()
      requires Valid() && Enabled(State(), ReplyComplete)
      modifies this
      ensures Valid() && State() == Next(old(State()), ReplyComplete) && old(worker.full) && replies == [Data, Complete]
      ensures worker == CompleteSent && stopped == old(stopped)
    {
      replies := replies + [Complete];
      worker := CompleteSent;
    }

    method StopsItself()
      requires Valid() && Enabled(State(), AutoStop)
      modifies this
      ensures Valid() && State() == Next(old(State()), AutoStop)
      ensures stopped && worker == Finished && replies == old(replies)
    {
      stopped := true;
      worker := Finished;
    }
  }
}
