/** What a reader of the tables sees, in their columns alone: the words in which leases, replies, workers and
    outcomes are spoken of. */
module Views {
  import opened Wrappers
  import opened Runs
  import opened Dispatch

  /** The run is out: claimed or running. */
  ghost predicate Out(r: Run) {
    r.state == CLAIMED || r.state == RUNNING
  }

  /** The run is over, if only for this attempt. */
  ghost predicate Over(r: Run) {
    r.state in {SUCCESS, FAILURE, TERMINATED, CANCELLED, FAILED_DISPATCH, ABANDONED}
  }

  /** The run's worker, in whatever state the run is. */
  ghost predicate Names(db: Db, i: RunId, w: WorkerId) {
    i < |db.runs| && db.runs[i].worker == Some(w)
  }

  /** The run is with the worker. */
  ghost predicate IsWith(db: Db, i: RunId, w: WorkerId) {
    Names(db, i, w) && Out(db.runs[i])
  }

  ghost predicate IsParent(db: Db, i: RunId) {
    exists c :: 0 <= c < |db.runs| && db.runs[c].parent == Some(i)
  }

  /** The run is taken from its worker: for good when its attempts are used up, otherwise it waits for its next one. */
  ghost predicate Dropped(r: Run, r': Run, now: Time) {
    && r'.token.None? && r'.queuedAt == r.queuedAt
    && if r.attempt <= r.definition.retryMax
       then && r'.state == PENDING && r'.attempt == r.attempt + 1
            && r'.worker.None? && r'.lease.None? && r'.finishedAt.None?
       else r'.state == ABANDONED && r'.attempt == r.attempt && r'.worker == r.worker && r'.finishedAt == Some(now)
  }

  ghost predicate ChildrenOver(db: Db, p: RunId) {
    forall c :: 0 <= c < |db.runs| && db.runs[c].parent == Some(p) ==> Over(db.runs[c])
  }

  ghost predicate ChildrenSucceeded(db: Db, p: RunId) {
    forall c :: 0 <= c < |db.runs| && db.runs[c].parent == Some(p) ==> db.runs[c].state == SUCCESS
  }

  /** The worker was heard from within its time to live and is enabled. */
  ghost predicate Alive(db: Db, s: Settings, w: WorkerId, now: Time) {
    && w in db.workers && db.workers[w].enabled
    && db.workers[w].lastSeen.Some? && now - db.workers[w].lastSeen.value <= s.workerTtl
  }
}
