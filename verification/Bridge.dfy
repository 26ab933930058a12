/** The gateway's request matching: which response reaches which waiting request. */
module Bridge {

  datatype Progress = Waiting | Answered(payload: string) | Done

  /** The task that waits for the response to one forwarded request. */
  datatype Waiter = Waiter(id: string, progress: Progress)

  datatype Reply = Response(payload: string) | TimeoutError

  datatype Frame = Frame(request: nat, reply: Reply)

  /** `shadowed` lists the requests that another request with the same id has interfered with. */
  datatype State = State(pending: map<string, nat>, waiters: seq<Waiter>, sent: seq<Frame>, shadowed: set<nat>)

  datatype Event =
    | Publish(id: string)                    // a worker request is forwarded
    | Arrive(id: string, payload: string)    // the app's response comes in on the response channel
    | Expire(k: nat)                         // waiter k has waited long enough
    | Relay(k: nat)                          // waiter k wakes up with its response

  predicate InFlight(s: State, k: nat) {
    k < |s.waiters| && s.waiters[k].progress != Done
  }

  predicate WaitsFor(s: State, k: nat, id: string) {
    k < |s.waiters| && s.waiters[k] == Waiter(id, Waiting)
  }

  /** The requests that wait under this id, but for one. */
  function Others(s: State, id: string, k: nat): set<nat> {
    set j | 0 <= j < |s.waiters| && j != k && WaitsFor(s, j, id)
  }

  function Next(s: State, e: Event): State {
    match e
    case Publish(id) =>
      State(s.pending[id := |s.waiters|], s.waiters + [Waiter(id, Waiting)], s.sent,
            s.shadowed + Others(s, id, |s.waiters|))
    case Arrive(id, payload) =>
      if id !in s.pending then s else
      var k := s.pending[id];
      var rest := s.(pending := s.pending - {id});
      if WaitsFor(s, k, id) then rest.(waiters := s.waiters[k := Waiter(id, Answered(payload))]) else rest
    case Expire(k) =>
      if k < |s.waiters| && s.waiters[k].progress.Waiting? then
        var id := s.waiters[k].id;
        State(s.pending - {id}, s.waiters[k := Waiter(id, Done)], s.sent + [Frame(k, TimeoutError)],
              s.shadowed + Others(s, id, k))
      else s
    case Relay(k) =>
      if k < |s.waiters| && s.waiters[k].progress.Answered? then
        s.(waiters := s.waiters[k := Waiter(s.waiters[k].id, Done)],
           sent := s.sent + [Frame(k, Response(s.waiters[k].progress.payload))])
      else s
  }

  const OPEN := State(map[], [], [], {})

  function Exec(events: seq<Event>): State {
    if events == [] then OPEN else Next(Exec(events[..|events|-1]), events[|events|-1])
  }

  // ---------------------------------------------------------------- one frame per request

  function FramesFor(sent: seq<Frame>, k: nat): nat {
    if sent == [] then 0 else FramesFor(sent[..|sent|-1], k) + (if sent[|sent|-1].request == k then 1 else 0)
  }

  lemma FramesSnoc(sent: seq<Frame>, f: Frame, k: nat)
    ensures FramesFor(sent + [f], k) == FramesFor(sent, k) + (if f.request == k then 1 else 0)
  {
  }

  ghost predicate OneFrame(s: State, k: nat) {
    FramesFor(s.sent, k) == if k < |s.waiters| && s.waiters[k].progress == Done then 1 else 0
  }

  lemma NextOneFrame(s: State, e: Event, k: nat)
    requires OneFrame(s, k)
    ensures OneFrame(Next(s, e), k)
  {
    if e.Expire? && e.k < |s.waiters| && s.waiters[e.k].progress.Waiting? {
      FramesSnoc(s.sent, Frame(e.k, TimeoutError), k);
    } else if e.Relay? && e.k < |s.waiters| && s.waiters[e.k].progress.Answered? {
      FramesSnoc(s.sent, Frame(e.k, Response(s.waiters[e.k].progress.payload)), k);
    }
  }

  /** For every order of responses, late and repeated responses, timeouts and repeated ids: a request has been
      sent one frame when its waiter is done, and none before. */
  lemma {:induction false} OneFramePerRequest(events: seq<Event>, k: nat)
    ensures OneFrame(Exec(events), k)
  {
    if events != [] {
      OneFramePerRequest(events[..|events|-1], k);
      NextOneFrame(Exec(events[..|events|-1]), events[|events|-1], k);
    }
  }

  // ---------------------------------------------------------------- matching

  /** A waiting request is registered under its id exactly when nothing interfered with it. */
  ghost predicate Matched(s: State) {
    && (forall k :: 0 <= k < |s.waiters| && s.waiters[k].progress.Waiting? ==>
          ((s.waiters[k].id in s.pending && s.pending[s.waiters[k].id] == k) <==> k !in s.shadowed))
    && (forall id :: id in s.pending ==> WaitsFor(s, s.pending[id], id))
    && (forall k :: k in s.shadowed ==> k < |s.waiters|)
  }

  lemma {:induction false} AlwaysMatched(events: seq<Event>)
    ensures Matched(Exec(events))
  {
    if events != [] {
      AlwaysMatched(events[..|events|-1]);
      NextMatched(Exec(events[..|events|-1]), events[|events|-1]);
    }
  }

  lemma NextMatched(s: State, e: Event)
    requires Matched(s)
    ensures Matched(Next(s, e))
  {
  }

  /** The event forwards another request with the id of request k, or lets one that waits with it time out. */
  predicate Interferes(s: State, e: Event, k: nat)
    requires k < |s.waiters|
  {
    (e.Publish? && e.id == s.waiters[k].id) || (e.Expire? && e.k != k && WaitsFor(s, e.k, s.waiters[k].id))
  }

  /** Event n came after request k was forwarded, and interferes with it. */
  ghost predicate Interfered(events: seq<Event>, n: nat, k: nat) {
    n < |events| && k < |Exec(events[..n]).waiters| && Interferes(Exec(events[..n]), events[n], k)
  }

  lemma {:induction false} WaitersOnlyGrow(events: seq<Event>, n: nat)
    requires n <= |events|
    ensures |Exec(events[..n]).waiters| <= |Exec(events).waiters|
  {
    if n < |events| {
      assert events[..|events|-1][..n] == events[..n];
      WaitersOnlyGrow(events[..|events|-1], n);
    } else {
      assert events[..n] == events;
    }
  }

  lemma InterferedSnoc(front: seq<Event>, e: Event, k: nat)
    ensures (exists n :: Interfered(front + [e], n, k)) <==>
      (exists n :: Interfered(front, n, k)) || (k < |Exec(front).waiters| && Interferes(Exec(front), e, k))
  {
    var events := front + [e];
    assert events[..|front|] == front;
    forall n: nat | n < |front| ensures Interfered(events, n, k) == Interfered(front, n, k) {
      assert events[..n] == front[..n];
    }
    if k < |Exec(front).waiters| && Interferes(Exec(front), e, k) { assert Interfered(events, |front|, k); }
  }

  /** The bookkeeping of the state says what happened. */
  lemma {:induction false} ShadowedIsInterfered(events: seq<Event>, k: nat)
    requires k < |Exec(events).waiters| && Exec(events).waiters[k].progress == Waiting
    ensures k in Exec(events).shadowed <==> exists n :: Interfered(events, n, k)
  {
    if events != [] {
      var front, e := events[..|events|-1], events[|events|-1];
      assert events == front + [e];
      InterferedSnoc(front, e, k);
      AlwaysMatched(front);
      if k < |Exec(front).waiters| {
        ShadowedIsInterfered(front, k);
      } else {
        forall n: nat | n < |front| ensures !Interfered(front, n, k) { WaitersOnlyGrow(front, n); }
      }
    }
  }

  /** A response reaches the waiting request it is for if and only if, since it was forwarded, no request with the same
      id was forwarded and none that waited with it timed out. */
  lemma ResponseReaches(events: seq<Event>, k: nat, payload: string)
    requires k < |Exec(events).waiters| && Exec(events).waiters[k].progress == Waiting
    ensures var s := Exec(events);
      Next(s, Arrive(s.waiters[k].id, payload)).waiters[k].progress == Answered(payload)
      <==> forall n :: !Interfered(events, n, k)
  {
    AlwaysMatched(events);
    ShadowedIsInterfered(events, k);
  }

  /** Ids of requests in flight are never reused. */
  ghost predicate FreshIds(events: seq<Event>) {
    forall n :: 0 <= n < |events| && events[n].Publish? ==>
      forall k :: 0 <= k < |Exec(events[..n]).waiters| && Exec(events[..n]).waiters[k].progress.Waiting? ==>
        Exec(events[..n]).waiters[k].id != events[n].id
  }

  lemma {:induction false} FreshIdsUnshadowed(events: seq<Event>)
    requires FreshIds(events)
    ensures Exec(events).shadowed == {}
  {
    if events != [] {
      var front, e := events[..|events|-1], events[|events|-1];
      assert forall n :: 0 <= n < |front| ==> front[..n] == events[..n];
      FreshIdsUnshadowed(front);
      AlwaysMatched(front);
      var s := Exec(front);
      if e.Publish? { assert Others(s, e.id, |s.waiters|) == {}; }
      if e.Expire? && e.k < |s.waiters| && s.waiters[e.k].progress.Waiting? {
        forall j | j in Others(s, s.waiters[e.k].id, e.k) ensures false { OnlyOneWaits(s, j, e.k); }
        assert Others(s, s.waiters[e.k].id, e.k) == {};
      }
    }
  }

  lemma OnlyOneWaits(s: State, j: nat, k: nat)
    requires Matched(s) && s.shadowed == {} && j < |s.waiters| && k < |s.waiters|
    requires s.waiters[j].progress.Waiting? && s.waiters[k].progress.Waiting? && s.waiters[j].id == s.waiters[k].id
    ensures j == k
  {
  }

  /** So with fresh ids every response that comes in time reaches its request, and only that one: no response and
      no timeout of another request touches it. */
  lemma FreshIdsMatch(events: seq<Event>, k: nat, e: Event)
    requires FreshIds(events) && k < |Exec(events).waiters| && Exec(events).waiters[k].progress == Waiting
    ensures var s := Exec(events); var t := Next(s, e);
      && |t.waiters| >= |s.waiters|
      && t.waiters[k].progress == match e
           case Arrive(id, payload) => if id == s.waiters[k].id then Answered(payload) else Waiting
           case Expire(j) => if j == k then Done else Waiting
           case _ => Waiting
  {
    FreshIdsUnshadowed(events);
    AlwaysMatched(events);
  }

  // ---------------------------------------------------------------- which reply a request gets

  /** While request k waited, a response with its id and this payload came in. */
  ghost predicate Came(events: seq<Event>, k: nat, payload: string) {
    exists n: nat :: CameAt(events, n, k, payload)
  }

  ghost predicate CameAt(events: seq<Event>, n: nat, k: nat, payload: string) {
    n < |events| && events[n].Arrive? && events[n].payload == payload && WaitsFor(Exec(events[..n]), k, events[n].id)
  }

  lemma CameSnoc(front: seq<Event>, e: Event, k: nat, payload: string)
    ensures Came(front + [e], k, payload) <==>
      Came(front, k, payload) || (e.Arrive? && e.payload == payload && WaitsFor(Exec(front), k, e.id))
  {
    var events := front + [e];
    assert events[..|front|] == front;
    forall n: nat | n < |front| ensures CameAt(events, n, k, payload) == CameAt(front, n, k, payload) {
      assert events[..n] == front[..n];
    }
    if e.Arrive? && e.payload == payload && WaitsFor(Exec(front), k, e.id) {
      assert CameAt(events, |front|, k, payload);
    }
  }

  /** A response that a request was sent, or is about to be sent, came in for it while it waited. */
  lemma {:induction false} RepliesAreTrue(events: seq<Event>, k: nat, payload: string)
    requires
      || Frame(k, Response(payload)) in Exec(events).sent
      || (k < |Exec(events).waiters| && Exec(events).waiters[k].progress == Answered(payload))
    ensures k < |Exec(events).waiters| && Came(events, k, payload)
  {
    if events != [] {
      var front, e := events[..|events|-1], events[|events|-1];
      assert events == front + [e];
      CameSnoc(front, e, k, payload);
      var s := Exec(front);
      if Frame(k, Response(payload)) in s.sent || (k < |s.waiters| && s.waiters[k].progress == Answered(payload)) {
        RepliesAreTrue(front, k, payload);
      }
    }
  }

  lemma {:induction false} TwoFramesCount(sent: seq<Frame>, f: Frame, g: Frame)
    requires f in sent && g in sent && f.request == g.request && f != g
    ensures FramesFor(sent, f.request) >= 2
  {
    var front, last := sent[..|sent|-1], sent[|sent|-1];
    if f in front && g in front {
      TwoFramesCount(front, f, g);
    } else {
      FrameCounts(front, if last == f then g else f);
    }
  }

  lemma {:induction false} FrameCounts(sent: seq<Frame>, f: Frame)
    requires f in sent
    ensures FramesFor(sent, f.request) >= 1
  {
    if sent[|sent|-1] != f { FrameCounts(sent[..|sent|-1], f); }
  }

  /** Request k has what it should have by now: nothing came while it waits still, the one response that came when it is
      answered, and one true frame when it is done. */
  ghost predicate Served(events: seq<Event>, k: nat) {
    var s := Exec(events);
    k < |s.waiters| ==> match s.waiters[k].progress
      case Waiting => forall p :: !Came(events, k, p)
      case Answered(payload) => forall p :: Came(events, k, p) <==> p == payload
      case Done =>
        || (Frame(k, TimeoutError) in s.sent && forall p :: !Came(events, k, p))
        || exists payload :: Frame(k, Response(payload)) in s.sent && forall p :: Came(events, k, p) <==> p == payload
  }

  lemma NotYetCame(events: seq<Event>, k: nat, payload: string)
    requires k >= |Exec(events).waiters|
    ensures !Came(events, k, payload)
  {
    forall n: nat | n < |events| ensures !CameAt(events, n, k, payload) { WaitersOnlyGrow(events, n); }
  }

  lemma {:induction false} AlwaysServed(events: seq<Event>, k: nat)
    requires FreshIds(events)
    ensures Served(events, k)
  {
    if events != [] {
      var front, e := events[..|events|-1], events[|events|-1];
      assert events == front + [e];
      assert forall n :: 0 <= n < |front| ==> front[..n] == events[..n];
      AlwaysServed(front, k);
      ServedNext(front, e, k);
    }
  }

  lemma ServedNext(front: seq<Event>, e: Event, k: nat)
    requires FreshIds(front) && Served(front, k)
    ensures Served(front + [e], k)
  {
    var events, s := front + [e], Exec(front);
    assert events[..|front|] == front;
    forall p ensures Came(events, k, p) <==>
      Came(front, k, p) || (e.Arrive? && e.payload == p && WaitsFor(s, k, e.id)) { CameSnoc(front, e, k, p); }
    if k >= |s.waiters| {
      forall p ensures !Came(front, k, p) { NotYetCame(front, k, p); }
    } else if s.waiters[k].progress.Waiting? {
      FreshIdsMatch(front, k, e);
    }
  }

  /** The frame tells request k what happened: the response that came while it waited, or that none did. */
  ghost predicate Right(events: seq<Event>, k: nat, f: Frame) {
    f.request == k && match f.reply
      case TimeoutError => forall p :: !Came(events, k, p)
      case Response(payload) => Came(events, k, payload)
  }

  lemma TheFrame(events: seq<Event>, k: nat) returns (f: Frame)
    requires FreshIds(events) && k < |Exec(events).waiters| && Exec(events).waiters[k].progress == Done
    ensures f in Exec(events).sent && Right(events, k, f) && forall g :: Right(events, k, g) ==> g == f
  {
    AlwaysServed(events, k);
    if Frame(k, TimeoutError) in Exec(events).sent && forall p :: !Came(events, k, p) {
      f := Frame(k, TimeoutError);
    } else {
      var payload :|
        Frame(k, Response(payload)) in Exec(events).sent && forall p :: Came(events, k, p) <==> p == payload;
      f := Frame(k, Response(payload));
    }
  }

  lemma OnlyFrame(events: seq<Event>, f: Frame, g: Frame)
    requires f in Exec(events).sent && g in Exec(events).sent && f.request == g.request
    ensures f == g
  {
    OneFramePerRequest(events, f.request);
    if f != g { TwoFramesCount(Exec(events).sent, f, g); }
  }

  /** With ids in flight distinct, a request that is done has been sent one frame and no other: the response that came
      while it waited, or the timeout if none did. */
  lemma TheRightReply(events: seq<Event>, k: nat, f: Frame)
    requires FreshIds(events) && k < |Exec(events).waiters| && Exec(events).waiters[k].progress == Done
    ensures (f in Exec(events).sent && f.request == k) <==> Right(events, k, f)
  {
    var g := TheFrame(events, k);
    if f in Exec(events).sent && f.request == k { OnlyFrame(events, f, g); }
  }

  /** With a repeated id the first request's timeout makes the second request's response go astray. */
  lemma RepeatedIdLosesResponse(payload: string)
    ensures var s := Exec([Publish("a"), Publish("a"), Expire(0), Arrive("a", payload), Expire(1)]);
      s.sent == [Frame(0, TimeoutError), Frame(1, TimeoutError)]
  {
    var events := [Publish("a"), Publish("a"), Expire(0), Arrive("a", payload), Expire(1)];
    assert events[..4][..3][..2][..1][..0] == [];
    assert events[..4][..3][..2][..1] == [Publish("a")] && events[..4][..3][..2] == [Publish("a"), Publish("a")];
    assert events[..4][..3] == [Publish("a"), Publish("a"), Expire(0)];
    assert events[..4] == [Publish("a"), Publish("a"), Expire(0), Arrive("a", payload)];
    var s1 := Exec([Publish("a")]);
    assert s1 == Next(OPEN, Publish("a"));
    var s2 := Exec([Publish("a"), Publish("a")]);
    assert s2 == Next(s1, Publish("a")) && s2.waiters == [Waiter("a", Waiting), Waiter("a", Waiting)];
    var s3 := Exec([Publish("a"), Publish("a"), Expire(0)]);
    assert s3 == Next(s2, Expire(0)) && "a" !in s3.pending && s3.sent == [Frame(0, TimeoutError)];
    var s4 := Exec([Publish("a"), Publish("a"), Expire(0), Arrive("a", payload)]);
    assert s4 == s3;
    assert Exec(events) == Next(s4, Expire(1));
  }

  // ---------------------------------------------------------------- the bridge itself

  class WorkerBridge {
    var pending: map<string, nat>
    var waiters: seq<Waiter>
    var sent: seq<Frame>
    ghost var shadowed: set<nat>

    constructor ()
      ensures Snapshot() == OPEN
    {
      pending, waiters, sent, shadowed := map[], [], [], {};
    }

    ghost function Snapshot(): State
      reads this
    {
      State(pending, waiters, sent, shadowed)
    }

    method PublishRequest(id: string)
      modifies this
      ensures Snapshot() == Next(old(Snapshot()), Publish(id))
    {
      shadowed := shadowed + Others(Snapshot(), id, |waiters|);
      pending := pending[id := |waiters|];
      waiters := waiters + [Waiter(id, Waiting)];
    }

    /** A response that nobody waits for is dropped. */
    method ResponseArrived(id: string, payload: string)
      modifies this
      ensures Snapshot() == Next(old(Snapshot()), Arrive(id, payload))
    {
      if id !in pending {
        return;
      }
      var k := pending[id];
      pending := pending - {id};
      if k < |waiters| && waiters[k] == Waiter(id, Waiting) {
        waiters := waiters[k := Waiter(id, Answered(payload))];
      }
    }

    method WaitExpired(k: nat)
      requires k < |waiters| && waiters[k].progress.Waiting?
      modifies this
      ensures Snapshot() == Next(old(Snapshot()), Expire(k))
    {
      var id := waiters[k].id;
      shadowed := shadowed + Others(Snapshot(), id, k);
      pending := pending - {id};
      waiters := waiters[k := Waiter(id, Done)];
      sent := sent + [Frame(k, TimeoutError)];
    }

    method RelayResponse(k: nat)
      requires k < |waiters| && waiters[k].progress.Answered?
      modifies this
      ensures Snapshot() == Next(old(Snapshot()), Relay(k))
    {
      var waiter := waiters[k];
      waiters := waiters[k := Waiter(waiter.id, Done)];
      sent := sent + [Frame(k, Response(waiter.progress.payload))];
    }
  }
}
