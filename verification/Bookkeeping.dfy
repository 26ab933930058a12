/** Which runs the server and the agent may differ on, and since when: the two sets that the agreement between them
    speaks of, as the history has them. */
module Bookkeeping {
  import opened Wrappers
  import opened Runs
  import opened Dispatch
  import opened History
  import opened AgentProtocol

  /** Runs claimed for the worker of which the agent has no record, or runs whose report was answered by something else
      than the server's completion. */
  datatype Book = Unheard | Unsettled

  ghost predicate Listed(sys: System, book: Book, i: RunId) {
    if book == Unheard then i in sys.unheard else i in sys.unsettled
  }

  /** In this event a claim of the worker is given run i. */
  ghost predicate Claims(s: Settings, w: WorkerId, db: Db, e: Event, i: RunId) {
    e.Server? && e.step.ClaimNext? && e.step.w == w && ClaimOne(db, s, w, e.step.at).1 == Some(i)
  }

  /** The run's task is lost in this event. */
  ghost predicate LosesTask(a: Agent, e: Event, i: RunId) {
    e.Crash? || e == TaskDied(i)
  }

  /** A run goes unheard when it is claimed, or when its task is lost before it is journaled. It becomes unsettled
      when its report is answered by an error from elsewhere. */
  ghost predicate Adds(s: Settings, w: WorkerId, sys: System, e: Event, book: Book, i: RunId) {
    match book
    case Unheard =>
      Claims(s, w, sys.db, e, i) || (LosesTask(sys.agent, e, i) && i in sys.agent.tasks && i !in sys.agent.journal)
    case Unsettled => e == Unhandled(i) && InReport(sys.agent, i)
  }

  /** Either is over when the agent takes an offer of the run, or greets the server while it is not just forgetting the
      run. What is unsettled is also over when the run is claimed anew, or the agent goes back to its journal entry. */
  ghost predicate Removes(s: Settings, w: WorkerId, sys: System, e: Event, book: Book, i: RunId) {
    || (e == Offer(i) && i !in sys.agent.tasks && i < |sys.db.runs|)
    || (e.Greet? && !In(sys.agent, i, Acked) && !In(sys.agent, i, Cleaned))
    || (book == Unsettled && (Claims(s, w, sys.db, e, i) || (LosesTask(sys.agent, e, i) && i in sys.agent.journal)))
  }

  lemma ListedStep(s: Settings, w: WorkerId, sys: System, e: Event, book: Book, i: RunId)
    ensures Listed(NextSystem(s, w, sys, e), book, i) <==>
      Adds(s, w, sys, e, book, i) || (Listed(sys, book, i) && !Removes(s, w, sys, e, book, i))
  {
  }

  /** The system before event k. */
  ghost function Before(s: Settings, w: WorkerId, sys: System, events: seq<Event>, k: nat): System
    requires k <= |events|
  {
    ExecSystem(s, w, sys, events[..k])
  }

  /** Event n added the run, and none after it removed it. */
  ghost predicate ListedSince(s: Settings, w: WorkerId, sys: System, events: seq<Event>, n: nat, book: Book, i: RunId) {
    && n < |events| && Adds(s, w, Before(s, w, sys, events, n), events[n], book, i)
    && forall k: nat :: n < k < |events| ==> !Removes(s, w, Before(s, w, sys, events, k), events[k], book, i)
  }

  lemma SinceSnoc(s: Settings, w: WorkerId, sys: System, front: seq<Event>, last: Event, book: Book, i: RunId)
    ensures (exists n: nat :: ListedSince(s, w, sys, front + [last], n, book, i)) <==>
      || Adds(s, w, ExecSystem(s, w, sys, front), last, book, i)
      || ((exists n: nat :: ListedSince(s, w, sys, front, n, book, i))
          && !Removes(s, w, ExecSystem(s, w, sys, front), last, book, i))
  {
    var events := front + [last];
    assert events[..|front|] == front && events[|front|] == last;
    forall k: nat | k < |front| ensures Before(s, w, sys, events, k) == Before(s, w, sys, front, k) {
      assert events[..k] == front[..k];
    }
    forall n: nat | n < |front|
      ensures ListedSince(s, w, sys, events, n, book, i) <==>
        ListedSince(s, w, sys, front, n, book, i) && !Removes(s, w, ExecSystem(s, w, sys, front), last, book, i)
    {
      if ListedSince(s, w, sys, events, n, book, i) {
        assert !Removes(s, w, Before(s, w, sys, events, |front|), events[|front|], book, i);
      }
    }
    if Adds(s, w, ExecSystem(s, w, sys, front), last, book, i) {
      assert ListedSince(s, w, sys, events, |front|, book, i);
    }
  }

  /** Over whole histories a run is on one of these lists if and only if some event put it there and none since has
      taken it off. */
  lemma {:induction false} ListedIs(s: Settings, w: WorkerId, workers: map<WorkerId, Worker>, events: seq<Event>,
                                    book: Book, i: RunId)
    ensures Listed(ExecSystem(s, w, Boot(workers), events), book, i) <==>
      exists n: nat :: ListedSince(s, w, Boot(workers), events, n, book, i)
  {
    if events != [] {
      var front, last := events[..|events|-1], events[|events|-1];
      assert events == front + [last];
      ListedIs(s, w, workers, front, book, i);
      SinceSnoc(s, w, Boot(workers), front, last, book, i);
      ListedStep(s, w, ExecSystem(s, w, Boot(workers), front), last, book, i);
    }
  }
}
