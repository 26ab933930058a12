/** Facts about one row, for every move it can make. */
module RunFacts {
  import opened Wrappers
  import opened Runs

  lemma Append(h: seq<RunState>, x: RunState, isParent: bool)
    requires LegalHistory(h, isParent) && Legal(h[|h|-1], x)
    ensures LegalHistory(h + [x], isParent)
    ensures Count(h + [x], ABANDONED) == Count(h, ABANDONED) + (if x == ABANDONED then 1 else 0)
    ensures Count(h + [x], CLAIMED) == Count(h, CLAIMED) + (if x == CLAIMED then 1 else 0)
    ensures LastRevocation(h + [x]) ==
            if x == TERMINATED then Some(RevokedTerminated)
            else if x == ABANDONED then Some(RevokedAbandoned) else LastRevocation(h)
  {
  }

  /** One lawful write: what is left to check is the attempt counter and the mirror. */
  lemma Write(r: Run, r': Run, x: RunState)
    requires Past(r) && Legal(r.state, x)
    requires OFFERED !in {r.state, x} && (x == PENDING ==> r.state == ABANDONED)
    requires r'.history == r.history + [x] && r'.state == x
    requires r'.definition == r.definition && r'.zone == r.zone
    requires r'.attempt == r.attempt + (if r.state == ABANDONED then 1 else 0) <= r.definition.retryMax + 1
    requires r'.result.revocation == if x == TERMINATED then Some(RevokedTerminated)
                                     else if x == ABANDONED then Some(RevokedAbandoned) else r.result.revocation
    ensures Past(r')
  {
  }

  lemma ClaimedRowOk(r: Run, w: WorkerId, lease: Time, tok: TokenId, now: Time)
    requires RowOk(r) && r.zone.Some? && r.state == PENDING
    ensures RowOk(Claimed(r, w, lease, tok, now))
  {
  }

  lemma StartedRowOk(r: Run, now: Time)
    requires RowOk(r) && r.zone.Some? && r.state == CLAIMED
    ensures RowOk(Transitioned(r, RUNNING, now))
  {
  }

  lemma FinishedRowOk(r: Run, s: RunState, now: Time)
    requires RowOk(r) && r.zone.Some? && Held(r.state) && s in {SUCCESS, FAILURE, TERMINATED}
    ensures RowOk(Completed(r, s, now))
  {
    if r.state == CLAIMED && s != TERMINATED {
      StartedRowOk(r, now);
      Write(Transitioned(r, RUNNING, now), Completed(r, s, now), s);
    } else {
      Write(r, Completed(r, s, now), s);
    }
  }

  lemma AbandonedRowOk(r: Run, now: Time)
    requires RowOk(r) && r.zone.Some? && Held(r.state)
    ensures RowOk(Abandoned(r, now))
  {
    var a := Transitioned(r, ABANDONED, now).(token := None);
    Write(r, a, ABANDONED);
    if RetriesLeft(r) { Write(a, Abandoned(r, now), PENDING); }
  }

  lemma ClosedRowOk(r: Run, s: RunState, now: Time)
    requires RowOk(r) && r.zone.None? && r.state == RUNNING && s in {SUCCESS, FAILURE, TERMINATED}
    ensures RowOk(Closed(r, s, now))
  {
  }

  /** Whatever move a row makes, its columns stay consistent and its past stays lawful. */
  lemma MoveKeepsRow(r: Run, m: Move)
    requires RowOk(r) && CanMove(r, m)
    ensures RowOk(Moved(r, m))
  {
    match m
    case Stay =>
    case Flag =>
    case Claim(w, until, tok, at) => ClaimedRowOk(r, w, until, tok, at);
    case Renew(toRunning, until, at) => if toRunning && r.state == CLAIMED { StartedRowOk(r, at); }
    case Finish(s, at) => FinishedRowOk(r, s, at);
    case Abandon(at) => AbandonedRowOk(r, at);
    case Fail(at) => Write(r, DispatchFailed(r, at), FAILED_DISPATCH);
    case Withdraw(at) => Write(r, Cancelled(r, at), CANCELLED);
    case Close(s, at) => ClosedRowOk(r, s, at);
  }

  /** What a move leaves alone, and how it moves the hold on a run. */
  predicate Follows(r: Run, r': Run, m: Move) {
    && r'.definition == r.definition && r'.parent == r.parent && r'.zone == r.zone
    && r'.devices == r.devices && r'.queuedAt == r.queuedAt
    && (m.Claim? ==> r'.token == Some(m.tok) && r'.worker == Some(m.w) && r.state == PENDING && r.zone.Some?)
    && (!m.Claim? ==> r'.token == r.token || r'.token.None?)
    && (!m.Claim? ==> r'.worker == r.worker || r'.worker.None?)
    && (!m.Claim? && Held(r'.state) ==> Held(r.state) && r'.worker == r.worker && r'.token == r.token)
    && (Settled(r.state) ==> r' == r)
    && (m != Stay && Settled(r'.state) ==> m.Finish? || m.Abandon? || m.Fail? || m.Withdraw? || m.Close?)
  }

  lemma MoveFollows(r: Run, m: Move)
    requires CanMove(r, m)
    ensures Guarded(r, m) && Follows(r, Moved(r, m), m)
  {
  }
}
