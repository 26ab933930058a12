/** How a submission is turned into rows: the zone a run is queued in, and the shares of a fan-out. */
module Submission {
  import opened Wrappers
  import opened Runs
  import opened RunFacts
  import opened Dispatch
  import opened Invariant
  import opened History
  import opened RowMoves
  import opened Guarantees
  import opened ReapPass
  import opened Zones

  // ---------------------------------------------------------------- capacity

  predicate CanServe(db: Db, s: Settings, w: WorkerId, z: Zone, required: set<string>, now: Time)
    requires w in db.workers
  {
    var worker := db.workers[w];
    && worker.zone == z && worker.enabled && !worker.draining && WorkerStatusOf(worker, s, now) == Online
    && required <= worker.capabilities && FreeCapacity(db, w) > 0
  }

  predicate HasCapacity(db: Db, s: Settings, z: Zone, required: set<string>, now: Time) {
    exists w :: w in db.workers && CanServe(db, s, w, z, required, now)
  }

  method ZoneHasOnlineCapacity(db: Db, s: Settings, z: Zone, required: set<string>, now: Time) returns (found: bool)
    ensures found == HasCapacity(db, s, z, required, now)
  {
    var left := set w | w in db.workers && db.workers[w].zone == z && db.workers[w].enabled && !db.workers[w].draining;
    while left != {}
      invariant forall w :: w in left ==>
                  w in db.workers && db.workers[w].zone == z && db.workers[w].enabled && !db.workers[w].draining
      invariant forall w :: w in db.workers && w !in left ==> !CanServe(db, s, w, z, required, now)
      decreases |left|
    {
      var w :| w in left;
      left := left - {w};
      if WorkerStatusOf(db.workers[w], s, now) == Online && required <= db.workers[w].capabilities {
        if FreeCapacity(db, w) > 0 {
          assert CanServe(db, s, w, z, required, now);
          return true;
        }
      }
    }
    return false;
  }

  /** The enabled zones that have capacity. */
  function Open(db: Db, s: Settings, zones: seq<Zone>, required: set<string>, now: Time): (open: seq<Zone>)
    ensures forall z :: z in open <==> z in zones && z.enabled && HasCapacity(db, s, z, required, now)
  {
    if zones == [] then [] else
    var rest := Open(db, s, zones[1..], required, now);
    if zones[0].enabled && HasCapacity(db, s, zones[0], required, now) then [zones[0]] + rest else rest
  }

  function Cheapest(db: Db, s: Settings, zones: seq<Zone>, required: set<string>, now: Time): Option<Zone> {
    Least(Open(db, s, zones, required, now))
  }

  ghost predicate Ordered(zones: seq<Zone>) {
    forall j, k :: 0 <= j < k < |zones| ==> Before(zones[j], zones[k])
  }

  /** The query lists the zones in order, so the first with capacity is the least of all that have it. */
  method CheapestZoneWithCapacity(db: Db, s: Settings, zones: seq<Zone>, required: set<string>, now: Time)
    returns (zone: Option<Zone>)
    requires NamesUnique(zones) && Ordered(zones)
    ensures zone == Cheapest(db, s, zones, required, now)
  {
    LeastIsFirst(Open(db, s, zones, required, now));
    for k := 0 to |zones|
      invariant forall j :: 0 <= j < k ==> zones[j] !in Open(db, s, zones, required, now)
    {
      if zones[k].enabled {
        var found := ZoneHasOnlineCapacity(db, s, zones[k], required, now);
        if found {
          LeastIsBest(Open(db, s, zones, required, now), zones[k]);
          return Some(zones[k]);
        }
      }
    }
    return None;
  }

  // ---------------------------------------------------------------- the zone of a run

  /** The failover targets of a zone are rows of the zone table. */
  function Named(zones: seq<Zone>, name: string): Option<Zone> {
    if zones == [] then None else if zones[0].name == name then Some(zones[0]) else Named(zones[1..], name)
  }

  predicate Takes(db: Db, s: Settings, zones: seq<Zone>, target: string, required: set<string>, now: Time) {
    var z := Named(zones, target);
    z.Some? && z.value.enabled && HasCapacity(db, s, z.value, required, now)
  }

  function FirstTaker(db: Db, s: Settings, zones: seq<Zone>, targets: seq<string>, required: set<string>,
                      now: Time): Option<Zone> {
    if targets == [] then None
    else if Takes(db, s, zones, targets[0], required, now) then Named(zones, targets[0])
    else FirstTaker(db, s, zones, targets[1..], required, now)
  }

  /** `_apply_failover`. */
  function WithFailover(db: Db, s: Settings, d: Definition, z: Zone, zones: seq<Zone>, now: Time): Option<Zone> {
    if HasCapacity(db, s, z, d.capabilities, now) then Some(z) else
    match z.failoverPolicy
    case FailFast => None
    case WaitForCapacity => Some(z)
    case FailOver =>
      if d.requiresZoneLocal then None else
      var target := FirstTaker(db, s, zones, z.failoverTargets, d.capabilities, now);
      if target.Some? then target else Some(z)
  }

  function SubmissionZone(db: Db, s: Settings, d: Definition, zones: seq<Zone>, now: Time): Option<Zone> {
    if d.zonePolicy == Pinned then d.defaultZone else
    var cheapest := Cheapest(db, s, zones, d.capabilities, now);
    if cheapest.Some? then cheapest
    else if d.defaultZone.Some? && d.defaultZone.value.failoverPolicy == WaitForCapacity then d.defaultZone
    else None
  }

  /** The zone a pinned or any-zone run is queued in; None when the submission fails. */
  function Placed(db: Db, s: Settings, d: Definition, zones: seq<Zone>, now: Time): Option<Zone> {
    var z := SubmissionZone(db, s, d, zones, now);
    if z.None? then None else WithFailover(db, s, d, z.value, zones, now)
  }

  method ApplyFailover(db: Db, s: Settings, d: Definition, z: Zone, zones: seq<Zone>, now: Time)
    returns (zone: Option<Zone>)
    ensures zone == WithFailover(db, s, d, z, zones, now)
  {
    var found := ZoneHasOnlineCapacity(db, s, z, d.capabilities, now);
    if found || z.failoverPolicy == WaitForCapacity {
      return Some(z);
    }
    if z.failoverPolicy == FailFast || d.requiresZoneLocal {
      return None;
    }
    for k := 0 to |z.failoverTargets|
      invariant FirstTaker(db, s, zones, z.failoverTargets, d.capabilities, now)
             == FirstTaker(db, s, zones, z.failoverTargets[k..], d.capabilities, now)
    {
      assert z.failoverTargets[k..][1..] == z.failoverTargets[k+1..];
      var target := Named(zones, z.failoverTargets[k]);
      if target.Some? && target.value.enabled {
        var takes := ZoneHasOnlineCapacity(db, s, target.value, d.capabilities, now);
        if takes {
          return target;
        }
      }
    }
    return Some(z);
  }

  method ResolveSubmissionZone(db: Db, s: Settings, d: Definition, zones: seq<Zone>, now: Time)
    returns (zone: Option<Zone>)
    requires NamesUnique(zones) && Ordered(zones)
    ensures zone == Placed(db, s, d, zones, now)
  {
    if d.zonePolicy == Pinned {
      zone := d.defaultZone;
    } else {
      zone := CheapestZoneWithCapacity(db, s, zones, d.capabilities, now);
      if zone.None? && d.defaultZone.Some? && d.defaultZone.value.failoverPolicy == WaitForCapacity {
        zone := d.defaultZone;
      }
    }
    if zone.Some? {
      zone := ApplyFailover(db, s, d, zone.value, zones, now);
    }
  }

  ghost predicate FirstToTake(db: Db, s: Settings, zones: seq<Zone>, targets: seq<string>, k: int,
                              required: set<string>, now: Time) {
    && 0 <= k < |targets| && Takes(db, s, zones, targets[k], required, now)
    && forall j :: 0 <= j < k ==> !Takes(db, s, zones, targets[j], required, now)
  }

  lemma {:induction false} FirstTakerTakes(db: Db, s: Settings, zones: seq<Zone>, targets: seq<string>,
                                           required: set<string>, now: Time)
    ensures var t := FirstTaker(db, s, zones, targets, required, now);
      && (t.None? <==> forall k :: 0 <= k < |targets| ==> !Takes(db, s, zones, targets[k], required, now))
      && (t.Some? ==> HasCapacity(db, s, t.value, required, now))
      && (t.Some? ==> exists k {:trigger targets[k]} ::
            FirstToTake(db, s, zones, targets, k, required, now) && t == Named(zones, targets[k]))
  {
    if targets != [] {
      var rest := targets[1..];
      FirstTakerTakes(db, s, zones, rest, required, now);
      assert forall k :: 0 < k < |targets| ==> targets[k] == rest[k-1];
      var t := FirstTaker(db, s, zones, rest, required, now);
      if !Takes(db, s, zones, targets[0], required, now) && t.Some? {
        var k: int :| FirstToTake(db, s, zones, rest, k, required, now) && t == Named(zones, rest[k]);
        assert FirstToTake(db, s, zones, targets, k + 1, required, now) && t == Named(zones, targets[k+1]);
      }
    }
  }

  /** The zone lets its runs wait for a worker. */
  ghost predicate LetsWait(z: Zone) {
    z.failoverPolicy != FailFast
  }

  /** When a submission fails for want of a zone. */
  lemma PlacementFails(db: Db, s: Settings, d: Definition, zones: seq<Zone>, now: Time)
    ensures Placed(db, s, d, zones, now).None? <==>
      if d.zonePolicy == Pinned then
        d.defaultZone.None? || (!HasCapacity(db, s, d.defaultZone.value, d.capabilities, now)
          && (d.defaultZone.value.failoverPolicy == FailFast
              || (d.defaultZone.value.failoverPolicy == FailOver && d.requiresZoneLocal)))
      else
        && (forall z :: z in zones && z.enabled ==> !HasCapacity(db, s, z, d.capabilities, now))
        && (d.defaultZone.None? || d.defaultZone.value.failoverPolicy != WaitForCapacity)
  {
    LeastIsFirst(Open(db, s, zones, d.capabilities, now));
  }

  /** Where a run may be queued: it goes to a zone that can take it now, or it waits in its definition's own
      zone, which then lets runs wait; a run that must stay local is not moved. */
  lemma PlacementIsSound(db: Db, s: Settings, d: Definition, zones: seq<Zone>, now: Time)
    requires Placed(db, s, d, zones, now).Some?
    ensures var z := Placed(db, s, d, zones, now).value;
      && (!HasCapacity(db, s, z, d.capabilities, now) ==>
            && d.defaultZone == Some(z) && LetsWait(z)
            && (d.zonePolicy == Pinned && z.failoverPolicy == FailOver ==>
                  forall k :: 0 <= k < |z.failoverTargets| ==>
                    !Takes(db, s, zones, z.failoverTargets[k], d.capabilities, now))
            && (d.zonePolicy != Pinned ==>
                  forall y :: y in zones && y.enabled ==> !HasCapacity(db, s, y, d.capabilities, now)))
      && (d.zonePolicy == Pinned && d.requiresZoneLocal ==> d.defaultZone == Some(z))
      && (d.zonePolicy == Pinned && d.defaultZone != Some(z) ==>
            && d.defaultZone.value.failoverPolicy == FailOver
            && !HasCapacity(db, s, d.defaultZone.value, d.capabilities, now))
  {
    LeastIsFirst(Open(db, s, zones, d.capabilities, now));
    if SubmissionZone(db, s, d, zones, now).Some? {
      FirstTakerTakes(db, s, zones, SubmissionZone(db, s, d, zones, now).value.failoverTargets, d.capabilities, now);
    }
  }

  /** What a run is never changes. */
  lemma {:induction false} IdentityKept(s: Settings, db: Db, steps: seq<Step>, i: RunId)
    requires Inv(db) && i < |db.runs|
    ensures i < |Exec(s, db, steps).runs|
    ensures var r, r' := db.runs[i], Exec(s, db, steps).runs[i];
      && r'.definition == r.definition && r'.parent == r.parent && r'.zone == r.zone
      && r'.devices == r.devices && r'.queuedAt == r.queuedAt
  {
    RowsStay(s, db, steps);
    if steps != [] {
      var prefix := steps[..|steps|-1];
      IdentityKept(s, db, prefix, i);
      ExecKeeps(s, db, prefix);
      var m := RowMove(s, Exec(s, db, prefix), steps[|steps|-1], i);
      MoveFollows(Exec(s, db, prefix).runs[i], m);
    }
  }

  /** Steps whose clock readings do not go back. */
  ghost predicate Ticking(steps: seq<Step>) {
    forall j, k :: 0 <= j < k < |steps| ==> steps[j].at <= steps[k].at
  }

  ghost predicate InQueueOrder(runs: seq<Run>, latest: Time) {
    && (forall i :: 0 <= i < |runs| ==> runs[i].queuedAt <= latest)
    && (forall i, j :: 0 <= i < j < |runs| ==> runs[i].queuedAt <= runs[j].queuedAt)
  }

  lemma NewRowQueuedNow(s: Settings, db: Db, step: Step, i: RunId)
    requires Inv(db) && |db.runs| <= i < |Next(s, db, step).runs|
    ensures Next(s, db, step).runs[i].queuedAt == step.at
  {
    if !step.SubmitShares? && !step.SubmitRun? { SameLength(s, db, step); }
  }

  lemma StepKeepsQueueOrder(s: Settings, db: Db, step: Step, latest: Time)
    requires Inv(db) && InQueueOrder(db.runs, latest) && latest <= step.at
    ensures InQueueOrder(Next(s, db, step).runs, step.at)
  {
    var runs' := Next(s, db, step).runs;
    forall i: RunId | i < |runs'|
      ensures runs'[i].queuedAt == if i < |db.runs| then db.runs[i].queuedAt else step.at
    {
      if i < |db.runs| {
        var m := RowMove(s, db, step, i);
        MoveFollows(db.runs[i], m);
      } else {
        NewRowQueuedNow(s, db, step, i);
      }
    }
  }

  /** While the clock does not go back, creation order is queue order: listing the rows as they were
      created lists them by queued_at, retried runs included. */
  lemma {:induction false} CreationIsQueueOrder(s: Settings, workers: map<WorkerId, Worker>, steps: seq<Step>)
    requires Ticking(steps)
    ensures InQueueOrder(Exec(s, Start(workers), steps).runs, if steps == [] then 0 else steps[|steps|-1].at)
  {
    if steps != [] {
      var prefix, last := steps[..|steps|-1], steps[|steps|-1];
      CreationIsQueueOrder(s, workers, prefix);
      AlwaysInv(s, workers, prefix);
      StepKeepsQueueOrder(s, Exec(s, Start(workers), prefix), last,
                          if prefix == [] then last.at else prefix[|prefix|-1].at);
    }
  }

  /** A run that was queued without capacity does not wait for ever: whatever happens in between, no
      reaper pass after its zone's wait budget leaves it in the queue. */
  lemma WaitIsBounded(s: Settings, db: Db, d: Definition, zones: seq<Zone>, at: Time, steps: seq<Step>, now: Time)
    requires Inv(db) && Placed(db, s, d, zones, at).Some?
    requires !HasCapacity(db, s, Placed(db, s, d, zones, at).value, d.capabilities, at)
    requires now > at + Placed(db, s, d, zones, at).value.maxWaitSeconds
    ensures var later := Exec(s, Submit(db, d, Placed(db, s, d, zones, at), at), steps);
      |db.runs| < |ReapExpired(later, now).runs| && ReapExpired(later, now).runs[|db.runs|].state != PENDING
  {
    var z, i := Placed(db, s, d, zones, at), |db.runs|;
    var queued := Submit(db, d, z, at);
    PlacementIsSound(db, s, d, zones, at);
    SubmitKeeps(db, d, z, at);
    IdentityKept(s, queued, steps, i);
    NotLeftWaiting(s, queued, steps, i, now);
  }

  lemma NotLeftWaiting(s: Settings, db: Db, steps: seq<Step>, i: RunId, now: Time)
    requires Inv(db) && i < |Exec(s, db, steps).runs|
    requires var r := Exec(s, db, steps).runs[i]; r.zone.Some? && WaitedOut(r, now)
    ensures i < |ReapExpired(Exec(s, db, steps), now).runs|
    ensures ReapExpired(Exec(s, db, steps), now).runs[i].state != PENDING
  {
    var later := Exec(s, db, steps);
    ExecKeeps(s, db, steps);
    ReapIsExact(later, now);
    assert RowOk(later.runs[i]);
    ReapOutcome(later.runs[i], now);
  }

  // ---------------------------------------------------------------- the shares of a fan-out

  datatype Target = Target(device: DeviceId, zone: Zone)

  predicate AllResolved(rows: seq<ZoneRow>, devices: seq<Device>) {
    forall k :: 0 <= k < |devices| ==> Resolve(rows, devices[k]).Some?
  }

  function Targeted(rows: seq<ZoneRow>, devices: seq<Device>): (targets: seq<Target>)
    requires AllResolved(rows, devices)
    ensures |targets| == |devices|
    ensures forall k :: 0 <= k < |devices| ==> targets[k] == Target(devices[k].id, Resolve(rows, devices[k]).value)
  {
    seq(|devices|, k requires 0 <= k < |devices| => Target(devices[k].id, Resolve(rows, devices[k]).value))
  }

  /** The zones of the targets, in the order in which they first occur. */
  function ZonesOf(targets: seq<Target>): seq<Zone> {
    if targets == [] then [] else
    var zones, z := ZonesOf(targets[..|targets|-1]), targets[|targets|-1].zone;
    if z in zones then zones else zones + [z]
  }

  /** The devices that fall to one zone, in their order. */
  function DevicesIn(targets: seq<Target>, z: Zone): seq<DeviceId> {
    if targets == [] then [] else
    var before, t := DevicesIn(targets[..|targets|-1], z), targets[|targets|-1];
    if t.zone == z then before + [t.device] else before
  }

  function Grouped(targets: seq<Target>): (shares: seq<Share>)
    ensures |shares| == |ZonesOf(targets)|
  {
    var zones := ZonesOf(targets);
    seq(|zones|, k requires 0 <= k < |zones| => Share(zones[k], DevicesIn(targets, zones[k])))
  }

  /** The fan_out branch: group the devices by zone in a dictionary that keeps insertion order. */
  method GroupByZone(targets: seq<Target>) returns (shares: seq<Share>)
    ensures shares == Grouped(targets)
  {
    var zones: seq<Zone> := [];
    var byZone: map<Zone, seq<DeviceId>> := map[];
    for i := 0 to |targets|
      invariant zones == ZonesOf(targets[..i])
      invariant forall z :: z in zones <==> z in byZone
      invariant forall z :: DevicesIn(targets[..i], z) == if z in byZone then byZone[z] else []
    {
      assert targets[..i+1][..i] == targets[..i];
      var t := targets[i];
      if t.zone !in byZone {
        zones := zones + [t.zone];
        byZone := byZone[t.zone := []];
      }
      byZone := byZone[t.zone := byZone[t.zone] + [t.device]];
    }
    assert targets[..|targets|] == targets;
    shares := seq(|zones|, k requires 0 <= k < |zones| => Share(zones[k], byZone[zones[k]]));
  }

  method SharesFor(d: Definition, rows: seq<ZoneRow>, devices: seq<Device>) returns (shares: seq<Share>)
    ensures shares == SharesOf(d, rows, devices)
  {
    var targets: seq<Target> := [];
    for k := 0 to |devices|
      invariant AllResolved(rows, devices[..k]) && targets == Targeted(rows, devices[..k])
    {
      var zone := ResolveZone(rows, devices[k]);
      if zone.None? {
        return [];
      }
      targets := targets + [Target(devices[k].id, zone.value)];
    }
    assert devices[..|devices|] == devices;
    if d.zonePolicy == PerDevice {
      shares := seq(|targets|, k requires 0 <= k < |targets| => Share(targets[k].zone, [targets[k].device]));
    } else {
      shares := GroupByZone(targets);
    }
  }

  /** The children of a fan-out; none when a device has no zone. */
  function SharesOf(d: Definition, rows: seq<ZoneRow>, devices: seq<Device>): seq<Share> {
    if !AllResolved(rows, devices) then [] else
    var targets := Targeted(rows, devices);
    if d.zonePolicy == PerDevice
    then seq(|targets|, k requires 0 <= k < |targets| => Share(targets[k].zone, [targets[k].device]))
    else Grouped(targets)
  }

  /** The devices the shares hold between them. */
  function Dealt(shares: seq<Share>): multiset<DeviceId> {
    if shares == [] then multiset{} else Dealt(shares[..|shares|-1]) + multiset(shares[|shares|-1].devices)
  }

  lemma {:induction false} ZonesOfTargets(targets: seq<Target>)
    ensures forall z :: z in ZonesOf(targets) <==> exists k :: 0 <= k < |targets| && targets[k].zone == z
    ensures forall j, k :: 0 <= j < k < |ZonesOf(targets)| ==> ZonesOf(targets)[j] != ZonesOf(targets)[k]
  {
    if targets != [] { ZonesOfTargets(targets[..|targets|-1]); }
  }

  /** The zones come in the order in which the targets first mention them. */
  ghost predicate MentionedFirst(targets: seq<Target>, p: nat, y: Zone, z: Zone) {
    p < |targets| && targets[p].zone == y && forall q :: 0 <= q <= p ==> targets[q].zone != z
  }

  lemma {:induction false} ZonesInOrder(targets: seq<Target>, j: nat, k: nat)
    requires j < k < |ZonesOf(targets)|
    ensures exists p: nat :: MentionedFirst(targets, p, ZonesOf(targets)[j], ZonesOf(targets)[k])
  {
    var front := targets[..|targets|-1];
    var y, z := ZonesOf(targets)[j], ZonesOf(targets)[k];
    if k < |ZonesOf(front)| {
      ZonesInOrder(front, j, k);
      var p: nat :| MentionedFirst(front, p, y, z);
      assert MentionedFirst(targets, p, y, z);
    } else {
      ZonesOfTargets(front);
      assert y in ZonesOf(front) && z !in ZonesOf(front);
      var p: nat :| p < |front| && front[p].zone == y;
      assert MentionedFirst(targets, p, y, z);
    }
  }

  /** One zone's share lists exactly the devices of that zone, in the order in which they were given. */
  lemma {:induction false} DevicesInOrder(targets: seq<Target>, z: Zone) returns (at: seq<nat>)
    ensures |at| == |DevicesIn(targets, z)|
    ensures forall m :: 0 <= m < |at| ==> at[m] < |targets| && targets[at[m]] == Target(DevicesIn(targets, z)[m], z)
    ensures forall m, n :: 0 <= m < n < |at| ==> at[m] < at[n]
    ensures forall k :: 0 <= k < |targets| && targets[k].zone == z ==> k in at
  {
    at := [];
    if targets != [] {
      at := DevicesInOrder(targets[..|targets|-1], z);
      if targets[|targets|-1].zone == z { at := at + [|targets| - 1]; }
    }
  }

  function Joined(share: Share, x: DeviceId): Share {
    share.(devices := share.devices + [x])
  }

  lemma DealtSnoc(shares: seq<Share>, last: Share)
    ensures Dealt(shares + [last]) == Dealt(shares) + multiset(last.devices)
  {
  }

  lemma OneMore(a: multiset<DeviceId>, b: multiset<DeviceId>, x: DeviceId)
    ensures (a + multiset{x}) + b == (a + b) + multiset{x} == a + (b + multiset{x})
  {
  }

  lemma JoinLast(front: seq<Share>, last: Share, x: DeviceId)
    ensures Dealt(front + [Joined(last, x)]) == Dealt(front + [last]) + multiset{x}
  {
    OneMore(Dealt(front), multiset(last.devices), x);
    DealtSnoc(front, last);
    DealtSnoc(front, Joined(last, x));
  }

  lemma JoinBefore(front: seq<Share>, front': seq<Share>, last: Share, x: DeviceId)
    requires Dealt(front') == Dealt(front) + multiset{x}
    ensures Dealt(front' + [last]) == Dealt(front + [last]) + multiset{x}
  {
    OneMore(Dealt(front), multiset(last.devices), x);
    DealtSnoc(front, last);
    DealtSnoc(front', last);
  }

  /** A device joins share k. */
  lemma {:induction false} JoinShare(shares: seq<Share>, shares': seq<Share>, k: nat, x: DeviceId)
    requires k < |shares| == |shares'| && shares'[k] == Joined(shares[k], x)
    requires forall j :: 0 <= j < |shares| && j != k ==> shares'[j] == shares[j]
    ensures Dealt(shares') == Dealt(shares) + multiset{x}
  {
    var n := |shares| - 1;
    assert shares == shares[..n] + [shares[n]] && shares' == shares'[..n] + [shares'[n]];
    if k < n {
      JoinShare(shares[..n], shares'[..n], k, x);
      JoinBefore(shares[..n], shares'[..n], shares[n], x);
    } else {
      assert shares'[..n] == shares[..n];
      JoinLast(shares[..n], shares[n], x);
    }
  }

  function DevicesOf(targets: seq<Target>): (ids: seq<DeviceId>)
    ensures |ids| == |targets|
  {
    seq(|targets|, k requires 0 <= k < |targets| => targets[k].device)
  }

  /** One more target: its device joins the share of its zone, or makes a share of its own. */
  lemma GroupOneMore(before: seq<Target>, t: Target)
    ensures Dealt(Grouped(before + [t])) == Dealt(Grouped(before)) + multiset{t.device}
  {
    var targets, zones, shares := before + [t], ZonesOf(before), Grouped(before);
    assert targets[..|targets|-1] == before;
    ZonesOfTargets(before);
    if t.zone in zones {
      var k :| 0 <= k < |zones| && zones[k] == t.zone;
      JoinShare(shares, Grouped(targets), k, t.device);
    } else {
      NoneYet(before, t.zone);
      assert DevicesIn(targets, t.zone) == [t.device];
      assert forall k :: 0 <= k < |zones| ==> DevicesIn(targets, zones[k]) == DevicesIn(before, zones[k]);
      assert Grouped(targets) == shares + [Share(t.zone, [t.device])];
      DealtSnoc(shares, Share(t.zone, [t.device]));
    }
  }

  lemma OneMoreDevice(before: seq<Target>, t: Target)
    ensures multiset(DevicesOf(before + [t])) == multiset(DevicesOf(before)) + multiset{t.device}
  {
    assert DevicesOf(before + [t]) == DevicesOf(before) + [t.device];
  }

  /** Grouping loses no device and duplicates none. */
  lemma {:induction false} GroupingConserves(targets: seq<Target>)
    ensures Dealt(Grouped(targets)) == multiset(DevicesOf(targets))
  {
    if targets != [] {
      var before, t := targets[..|targets|-1], targets[|targets|-1];
      GroupingConserves(before);
      GroupOneMore(before, t);
      OneMoreDevice(before, t);
      assert targets == before + [t];
    }
  }

  lemma {:induction false} NoneYet(targets: seq<Target>, z: Zone)
    requires z !in ZonesOf(targets)
    ensures DevicesIn(targets, z) == []
  {
    if targets != [] { NoneYet(targets[..|targets|-1], z); }
  }

  lemma {:induction false} OnePerDevice(shares: seq<Share>, ids: seq<DeviceId>)
    requires |shares| == |ids| && forall k :: 0 <= k < |ids| ==> shares[k].devices == [ids[k]]
    ensures Dealt(shares) == multiset(ids)
  {
    if ids != [] {
      OnePerDevice(shares[..|shares|-1], ids[..|ids|-1]);
      assert ids == ids[..|ids|-1] + [ids[|ids|-1]];
    }
  }

  /** Each device in a zone's share was given, and resolved to that zone. */
  lemma SharesAreResolved(rows: seq<ZoneRow>, devices: seq<Device>, z: Zone, x: DeviceId)
    requires AllResolved(rows, devices) && x in DevicesIn(Targeted(rows, devices), z)
    ensures exists k :: 0 <= k < |devices| && devices[k].id == x && Resolve(rows, devices[k]) == Some(z)
  {
    var targets := Targeted(rows, devices);
    var at := DevicesInOrder(targets, z);
    var m :| 0 <= m < |DevicesIn(targets, z)| && DevicesIn(targets, z)[m] == x;
    assert targets[at[m]] == Target(x, z);
  }

  lemma GroupedShares(rows: seq<ZoneRow>, devices: seq<Device>)
    requires AllResolved(rows, devices)
    ensures var shares := Grouped(Targeted(rows, devices));
      && (shares == [] <==> devices == [])
      && Dealt(shares) == multiset(DevicesOf(Targeted(rows, devices)))
      && forall j, k :: 0 <= j < k < |shares| ==> shares[j].zone != shares[k].zone
  {
    var targets := Targeted(rows, devices);
    ZonesOfTargets(targets);
    GroupingConserves(targets);
    if targets != [] { assert targets[0].zone in ZonesOf(targets); }
  }

  /** A fan-out is all or nothing: no child at all when there is no device or one of them has no zone;
      otherwise every device is in the share of one child, that child is in the device's own zone, and
      under fan_out no two children share a zone. */
  lemma FanOutPartitions(d: Definition, rows: seq<ZoneRow>, devices: seq<Device>)
    ensures SharesOf(d, rows, devices) == [] <==>
      devices == [] || exists k :: 0 <= k < |devices| && Resolve(rows, devices[k]).None?
    ensures SharesOf(d, rows, devices) != [] ==>
      Dealt(SharesOf(d, rows, devices)) == multiset(seq(|devices|, k requires 0 <= k < |devices| => devices[k].id))
    ensures forall share, x :: share in SharesOf(d, rows, devices) && x in share.devices ==>
      exists k :: 0 <= k < |devices| && devices[k].id == x && Resolve(rows, devices[k]) == Some(share.zone)
    ensures d.zonePolicy == PerDevice && AllResolved(rows, devices) ==>
      && |SharesOf(d, rows, devices)| == |devices|
      && forall k :: 0 <= k < |devices| ==> SharesOf(d, rows, devices)[k].devices == [devices[k].id]
    ensures d.zonePolicy != PerDevice ==>
      forall j, k :: 0 <= j < k < |SharesOf(d, rows, devices)| ==>
        SharesOf(d, rows, devices)[j].zone != SharesOf(d, rows, devices)[k].zone
  {
    if AllResolved(rows, devices) {
      var targets, shares := Targeted(rows, devices), SharesOf(d, rows, devices);
      assert DevicesOf(targets) == seq(|devices|, k requires 0 <= k < |devices| => devices[k].id);
      if d.zonePolicy == PerDevice {
        OnePerDevice(shares, DevicesOf(targets));
      } else {
        GroupedShares(rows, devices);
        forall share, x | share in shares && x in share.devices
          ensures exists k :: 0 <= k < |devices| && devices[k].id == x && Resolve(rows, devices[k]) == Some(share.zone)
        {
          SharesAreResolved(rows, devices, share.zone, x);
        }
      }
    }
  }
}
