/** The worker's calls over its gateway connection: each ends once, and none survives a disconnect. */
module Connection {

  /** Open until a response with its own id, or the loss of the connection, ends it. */
  datatype Ending = Open | Replied(response: string) | Closed

  datatype Call = Call(id: string, ending: Ending)

  datatype State = State(pending: map<string, nat>, calls: seq<Call>)

  datatype Event =
    | Start(id: string, delivered: bool)      // a call; `delivered` is false when its frame could not be sent
    | Respond(id: string, response: string)
    | GiveUp(k: nat)                          // the call's own timeout
    | Disconnect

  /** Request ids are UUIDs: an id that was used before is not used again. */
  predicate Fresh(s: State, id: string) {
    forall k :: 0 <= k < |s.calls| ==> s.calls[k].id != id
  }

  function Ended(s: State, k: nat, ending: Ending): State
    requires k < |s.calls|
  {
    State(s.pending - {s.calls[k].id}, s.calls[k := s.calls[k].(ending := ending)])
  }

  function FailAll(s: State): State {
    State(map[], seq(|s.calls|, k requires 0 <= k < |s.calls| =>
      if s.calls[k].id in s.pending && s.pending[s.calls[k].id] == k && s.calls[k].ending == Open
      then s.calls[k].(ending := Closed) else s.calls[k]))
  }

  function Next(s: State, e: Event): State {
    match e
    case Start(id, delivered) =>
      if !Fresh(s, id) then s
      else if delivered then State(s.pending[id := |s.calls|], s.calls + [Call(id, Open)])
      else State(s.pending, s.calls + [Call(id, Closed)])
    case Respond(id, response) =>
      if id in s.pending && s.pending[id] < |s.calls| && s.calls[s.pending[id]] == Call(id, Open)
      then Ended(s, s.pending[id], Replied(response)) else s.(pending := s.pending - {id})
    case GiveUp(k) => if k < |s.calls| && s.calls[k].ending == Open then Ended(s, k, Closed) else s
    case Disconnect => FailAll(s)
  }

  function Exec(events: seq<Event>): State {
    if events == [] then State(map[], []) else Next(Exec(events[..|events|-1]), events[|events|-1])
  }

  /** The registered calls are the open ones. */
  ghost predicate Registered(s: State) {
    && (forall id :: id in s.pending ==> s.pending[id] < |s.calls| && s.calls[s.pending[id]] == Call(id, Open))
    && (forall k :: 0 <= k < |s.calls| && s.calls[k].ending == Open ==>
          s.calls[k].id in s.pending && s.pending[s.calls[k].id] == k)
  }

  lemma {:induction false} AlwaysRegistered(events: seq<Event>)
    ensures Registered(Exec(events))
  {
    if events != [] {
      AlwaysRegistered(events[..|events|-1]);
      NextRegistered(Exec(events[..|events|-1]), events[|events|-1]);
    }
  }

  lemma NextRegistered(s: State, e: Event)
    requires Registered(s)
    ensures Registered(Next(s, e))
  {
  }

  /** A call ends once, with the first response to its own id or with the loss of the connection, and no
      registration is left behind by a disconnect. */
  lemma CallEndsOnce(events: seq<Event>, e: Event, k: nat)
    requires k < |Exec(events).calls|
    ensures var s := Exec(events); var t := Next(s, e);
      && k < |t.calls| && t.calls[k].id == s.calls[k].id
      && (s.calls[k].ending != Open ==> t.calls[k].ending == s.calls[k].ending)
      && (s.calls[k].ending == Open ==> t.calls[k].ending == match e
            case Respond(id, response) => if id == s.calls[k].id then Replied(response) else Open
            case GiveUp(j) => if j == k then Closed else Open
            case Disconnect => Closed
            case _ => Open)
      && (e.Disconnect? ==> t.pending == map[] && t.calls[k].ending != Open)
  {
    AlwaysRegistered(events);
  }

  // ---------------------------------------------------------------- whole histories

  /** How event e ends call k; Open when it does not. */
  function EndingBy(s: State, e: Event, k: nat): Ending {
    if k < |s.calls| && s.calls[k].ending == Open then
      match e
      case Respond(id, response) => if id == s.calls[k].id then Replied(response) else Open
      case GiveUp(j) => if j == k then Closed else Open
      case Disconnect => Closed
      case _ => Open
    else if k == |s.calls| && e.Start? && !e.delivered && Fresh(s, e.id) then Closed
    else Open
  }

  /** Call k was ended by event n. */
  ghost predicate EndsAt(events: seq<Event>, n: nat, k: nat, ending: Ending) {
    n < |events| && ending != Open && EndingBy(Exec(events[..n]), events[n], k) == ending
  }

  lemma EndsSnoc(front: seq<Event>, e: Event, k: nat, ending: Ending)
    requires ending != Open
    ensures (exists n: nat :: EndsAt(front + [e], n, k, ending)) <==>
      (exists n: nat :: EndsAt(front, n, k, ending)) || EndingBy(Exec(front), e, k) == ending
  {
    var events := front + [e];
    assert events[..|front|] == front;
    forall n: nat | n < |front| ensures EndsAt(events, n, k, ending) == EndsAt(front, n, k, ending) {
      assert events[..n] == front[..n];
    }
    if EndingBy(Exec(front), e, k) == ending { assert EndsAt(events, |front|, k, ending); }
  }

  lemma {:induction false} CallsStay(events: seq<Event>, n: nat, k: nat)
    requires n <= |events| && k < |Exec(events[..n]).calls|
    ensures k < |Exec(events).calls|
    ensures Exec(events[..n]).calls[k].ending != Open ==> Exec(events).calls[k] == Exec(events[..n]).calls[k]
  {
    if n < |events| {
      var front := events[..|events|-1];
      assert front[..n] == events[..n];
      CallsStay(front, n, k);
      CallEndsOnce(front, events[|events|-1], k);
    } else {
      assert events[..n] == events;
    }
  }

  /** The event that ends a call leaves it ended so. */
  lemma EndedThen(events: seq<Event>, n: nat, k: nat, ending: Ending)
    requires EndsAt(events, n, k, ending)
    ensures k < |Exec(events[..n+1]).calls| && Exec(events[..n+1]).calls[k].ending == ending
    ensures k < |Exec(events).calls| && Exec(events).calls[k].ending == ending
  {
    assert events[..n+1][..n] == events[..n];
    if k < |Exec(events[..n]).calls| { CallEndsOnce(events[..n], events[n], k); }
    CallsStay(events, n + 1, k);
  }

  /** A call has an ending if and only if one event ended it so: with a reply only if that response came in under the
      call's own id while it was open. */
  lemma {:induction false} EndingsAreTrue(events: seq<Event>, k: nat, ending: Ending)
    requires k < |Exec(events).calls| && ending != Open
    ensures Exec(events).calls[k].ending == ending <==> exists n: nat :: EndsAt(events, n, k, ending)
  {
    forall n: nat | EndsAt(events, n, k, ending) ensures Exec(events).calls[k].ending == ending {
      EndedThen(events, n, k, ending);
    }
    if events != [] && Exec(events).calls[k].ending == ending {
      var front, e := events[..|events|-1], events[|events|-1];
      assert events == front + [e];
      EndsSnoc(front, e, k, ending);
      if k < |Exec(front).calls| {
        CallEndsOnce(front, e, k);
        EndingsAreTrue(front, k, ending);
      }
    }
  }

  /** And no two events end the same call. */
  lemma EndsOnce(events: seq<Event>, m: nat, n: nat, k: nat, ending: Ending, ending': Ending)
    requires EndsAt(events, m, k, ending) && EndsAt(events, n, k, ending')
    ensures m == n && ending == ending'
  {
    if m < n {
      assert events[..n][..m] == events[..m];
      EndedThen(events[..n], m, k, ending);
    } else if n < m {
      assert events[..m][..n] == events[..n];
      EndedThen(events[..m], n, k, ending');
    }
  }

  /** Once it has ended a call stays as it is, whatever happens afterwards. */
  lemma EndingStays(events: seq<Event>, more: seq<Event>, k: nat)
    requires k < |Exec(events).calls| && Exec(events).calls[k].ending != Open
    ensures k < |Exec(events + more).calls| && Exec(events + more).calls[k] == Exec(events).calls[k]
  {
    assert (events + more)[..|events|] == events;
    CallsStay(events + more, |events|, k);
  }

  class GatewayConnection {
    var pending: map<string, nat>
    var calls: seq<Call>

    constructor ()
      ensures Snapshot() == State(map[], [])
    {
      pending, calls := map[], [];
    }

    ghost function Snapshot(): State
      reads this
    {
      State(pending, calls)
    }

    method StartCall(id: string, delivered: bool) returns (k: nat)
      requires Fresh(Snapshot(), id) && id !in pending
      modifies this
      ensures Snapshot() == Next(old(Snapshot()), Start(id, delivered)) && k == old(|calls|)
    {
      k := |calls|;
      pending := pending[id := k];
      calls := calls + [Call(id, Open)];
      if !delivered {
        calls := calls[k := Call(id, Closed)];
        pending := pending - {id};
      }
    }

    method Resolve(id: string, response: string)
      modifies this
      ensures Snapshot() == Next(old(Snapshot()), Respond(id, response))
    {
      if id !in pending {
        return;
      }
      var k := pending[id];
      pending := pending - {id};
      if k < |calls| && calls[k] == Call(id, Open) {
        calls := calls[k := Call(id, Replied(response))];
      }
    }

    method TimeOut(k: nat)
      requires k < |calls| && calls[k].ending == Open
      modifies this
      ensures Snapshot() == Next(old(Snapshot()), GiveUp(k))
    {
      pending := pending - {calls[k].id};
      calls := calls[k := calls[k].(ending := Closed)];
    }

    /** Takes all registrations away at once, then fails them one by one. */
    method FailPending()
      requires Registered(Snapshot())
      modifies this
      ensures Snapshot() == Next(old(Snapshot()), Disconnect)
    {
      var taken := pending;
      pending := map[];
      var left := taken.Keys;
      while left != {}
        invariant left <= taken.Keys && pending == map[] && |calls| == |old(calls)|
        invariant forall k :: 0 <= k < |calls| ==>
                    var c := old(calls)[k];
                    calls[k] == if c.id in taken && c.id !in left && taken[c.id] == k then c.(ending := Closed) else c
        decreases |left|
      {
        var id :| id in left;
        left := left - {id};
        if calls[taken[id]].ending == Open {
          calls := calls[taken[id] := calls[taken[id]].(ending := Closed)];
        }
      }
    }
  }
}
