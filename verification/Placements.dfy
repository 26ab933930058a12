/** Where submissions put their runs, in the columns of the tables: the zone of a single run, and the rows of a fan-
    out. */
module Placements {
  import opened Wrappers
  import opened Runs
  import opened Dispatch
  import opened Views
  import opened Zones
  import opened Submission
  import Offers

  // ---------------------------------------------------------------- the order of names

  /** Names in dictionary order: after a common beginning, the first is at its end or has the smaller character. */
  ghost predicate Precedes(a: string, b: string, n: nat) {
    && n <= |a| && n < |b| && (forall k :: 0 <= k < n ==> a[k] == b[k])
    && (n == |a| || a[n] < b[n])
  }

  lemma PrecedesTail(a: string, b: string, n: nat)
    requires a != [] && b != [] && a[0] == b[0]
    ensures Precedes(a, b, n + 1) <==> Precedes(a[1..], b[1..], n)
  {
    if Precedes(a[1..], b[1..], n) {
      assert forall k :: 0 < k <= n ==> a[k] == a[1..][k-1] && b[k] == b[1..][k-1];
    }
  }

  lemma {:induction false} NameBeforeIs(a: string, b: string)
    ensures NameBefore(a, b) <==> exists n: nat :: Precedes(a, b, n)
  {
    if a == [] || b == [] || a[0] != b[0] {
      assert NameBefore(a, b) ==> Precedes(a, b, 0);
    } else {
      NameBeforeIs(a[1..], b[1..]);
      if n: nat :| Precedes(a[1..], b[1..], n) {
        PrecedesTail(a, b, n);
      }
      if n: nat :| Precedes(a, b, n) {
        PrecedesTail(a, b, n - 1);
      }
    }
  }

  // ---------------------------------------------------------------- the zone of a device

  /** A lower priority value, or the same and a name that comes first in the dictionary. */
  ghost predicate Preferred(a: Zone, b: Zone) {
    a.priority < b.priority || (a.priority == b.priority && exists n: nat :: Precedes(a.name, b.name, n))
  }

  /** Why a rule does not let a device in. */
  ghost predicate Refuses(rule: Rule, d: Device) {
    || (rule.group.None? && rule.locations == {} && rule.roles == {} && rule.prefixes == {})
    || (rule.group.Some? && d.id !in rule.group.value)
    || (rule.locations != {} && !Located(rule, d))
    || (rule.roles != {} && d.role !in rule.roles)
    || (rule.prefixes != {} && !Addressed(rule, d))
  }

  /** The device is in one of the rule's locations, or below one of them when the rule includes descendants. */
  ghost predicate Located(rule: Rule, d: Device) {
    d.location.Some? && exists l :: l in rule.locations && l in (if rule.includeDescendants then d.ancestors
                                                                 else {d.location.value})
  }

  /** Its primary address is of the family of one of the rule's prefixes and lies in its range. */
  ghost predicate Addressed(rule: Rule, d: Device) {
    d.primaryIp.Some? && exists p :: p in rule.prefixes && p.version == d.primaryIp.value.version
                                     && p.first <= d.primaryIp.value.value && d.primaryIp.value.value <= p.last
  }

  lemma MatchesUnlessRefused(rule: Rule, d: Device)
    ensures Matches(rule, d) <==> !Refuses(rule, d)
  {
    if l :| l in rule.locations && l in d.ancestors {
      assert l in d.ancestors * rule.locations;
    }
  }

  /** The row's zone serves the device: it is enabled and one of its rules lets the device in. */
  ghost predicate LetsIn(row: ZoneRow, d: Device) {
    row.zone.enabled && exists k :: 0 <= k < |row.rules| && !Refuses(row.rules[k], d)
  }

  /** A device is in zone z if and only if z serves it and is preferred to every other zone that does. */
  lemma DeviceIsIn(rows: seq<ZoneRow>, d: Device, z: Zone)
    requires RowNamesUnique(rows)
    ensures Resolve(rows, d) == Some(z) <==>
      && (exists k :: 0 <= k < |rows| && rows[k].zone == z && LetsIn(rows[k], d))
      && (forall k :: 0 <= k < |rows| && LetsIn(rows[k], d) ==> rows[k].zone == z || Preferred(z, rows[k].zone))
  {
    ResolveIsBest(rows, d, z);
    forall k: nat | k < |rows| ensures Serves(rows[k], d) <==> LetsIn(rows[k], d) { ServesIs(rows[k], d); }
    forall y: Zone ensures Before(z, y) <==> Preferred(z, y) { NameBeforeIs(z.name, y.name); }
  }

  lemma ServesIs(row: ZoneRow, d: Device)
    ensures Serves(row, d) <==> LetsIn(row, d)
  {
    forall k: nat | k < |row.rules| ensures Matches(row.rules[k], d) <==> !Refuses(row.rules[k], d) {
      MatchesUnlessRefused(row.rules[k], d);
    }
  }

  // ---------------------------------------------------------------- the zone of a single run

  /** A worker of the zone could start such a run now: it is alive and not draining, has the capabilities, and has fewer
      runs than its capacity. */
  ghost predicate HasRoom(db: Db, s: Settings, z: Zone, required: set<string>, now: Time) {
    exists w :: w in db.workers && IsFree(db, s, w, z, required, now)
  }

  ghost predicate IsFree(db: Db, s: Settings, w: WorkerId, z: Zone, required: set<string>, now: Time)
    requires w in db.workers
  {
    && db.workers[w].zone == z && Alive(db, s, w, now) && !db.workers[w].draining
    && required <= db.workers[w].capabilities && |Offers.With(db.runs, w)| < db.workers[w].capacity
  }

  lemma CapacityIsRoom(db: Db, s: Settings, z: Zone, required: set<string>, now: Time)
    ensures HasCapacity(db, s, z, required, now) <==> HasRoom(db, s, z, required, now)
  {
    forall w | w in db.workers ensures CanServe(db, s, w, z, required, now) <==> IsFree(db, s, w, z, required, now) {
      Offers.InFlightIsCount(db.runs, w);
    }
  }

  ghost predicate Ready(db: Db, s: Settings, zones: seq<Zone>, z: Zone, required: set<string>, now: Time) {
    z in zones && z.enabled && HasRoom(db, s, z, required, now)
  }

  lemma ReadyIsOpen(db: Db, s: Settings, zones: seq<Zone>, required: set<string>, now: Time, z: Zone)
    ensures z in Open(db, s, zones, required, now) <==> Ready(db, s, zones, z, required, now)
  {
    CapacityIsRoom(db, s, z, required, now);
  }

  /** A run that may go to any zone goes to the most preferred of the enabled zones with room, if there is one; else it
      waits in its definition's zone when that lets runs wait for capacity; else the submission fails. */
  lemma AnyZoneGoesTo(db: Db, s: Settings, d: Definition, zones: seq<Zone>, now: Time, z: Zone)
    requires NamesUnique(zones) && d.zonePolicy != Pinned
    ensures (exists y :: Ready(db, s, zones, y, d.capabilities, now)) ==>
      (Placed(db, s, d, zones, now) == Some(z) <==>
         && Ready(db, s, zones, z, d.capabilities, now)
         && forall y :: Ready(db, s, zones, y, d.capabilities, now) ==> y == z || Preferred(z, y))
    ensures (forall y :: !Ready(db, s, zones, y, d.capabilities, now)) ==>
      Placed(db, s, d, zones, now) ==
        if d.defaultZone.Some? && d.defaultZone.value.failoverPolicy == WaitForCapacity then d.defaultZone else None
  {
    var open := Open(db, s, zones, d.capabilities, now);
    forall y ensures y in open <==> Ready(db, s, zones, y, d.capabilities, now) {
      ReadyIsOpen(db, s, zones, d.capabilities, now, y);
    }
    forall y ensures Before(z, y) <==> Preferred(z, y) { NameBeforeIs(z.name, y.name); }
    LeastIsFirst(open);
    LeastIsBest(open, z);
  }

  /** The zone of that name could start such a run now. */
  ghost predicate Takeable(db: Db, s: Settings, zones: seq<Zone>, name: string, y: Zone, required: set<string>,
                           now: Time)
  {
    y.name == name && Ready(db, s, zones, y, required, now)
  }

  lemma {:induction false} NamedIs(zones: seq<Zone>, name: string)
    ensures Named(zones, name).Some? ==> Named(zones, name).value in zones && Named(zones, name).value.name == name
    ensures Named(zones, name).None? ==> forall z :: z in zones ==> z.name != name
  {
    if zones != [] { NamedIs(zones[1..], name); }
  }

  lemma TakesIs(db: Db, s: Settings, zones: seq<Zone>, name: string, required: set<string>, now: Time)
    requires NamesUnique(zones)
    ensures Takes(db, s, zones, name, required, now) <==>
      exists y :: Takeable(db, s, zones, name, y, required, now)
    ensures forall y :: Takeable(db, s, zones, name, y, required, now) ==> Named(zones, name) == Some(y)
  {
    NamedIs(zones, name);
    if Named(zones, name).Some? {
      CapacityIsRoom(db, s, Named(zones, name).value, required, now);
      assert Takes(db, s, zones, name, required, now) ==>
        Takeable(db, s, zones, name, Named(zones, name).value, required, now);
    }
  }

  ghost predicate PinnedTo(db: Db, s: Settings, d: Definition, zones: seq<Zone>, z: Zone, placed: Option<Zone>,
                           now: Time)
  {
    if HasRoom(db, s, z, d.capabilities, now) || z.failoverPolicy == WaitForCapacity then placed == Some(z)
    else if z.failoverPolicy == FailFast || d.requiresZoneLocal then placed.None?
    else placed.Some? && FailedOver(db, s, zones, z, placed.value, d.capabilities, now)
  }

  /** The run went to the first target of z that could take it, or stayed where it was. */
  ghost predicate FailedOver(db: Db, s: Settings, zones: seq<Zone>, z: Zone, placed: Zone, required: set<string>,
                             now: Time)
  {
    || (exists k: nat :: FirstTakeable(db, s, zones, z.failoverTargets, k, placed, required, now))
    || (placed == z && forall k, y :: 0 <= k < |z.failoverTargets| ==>
          !Takeable(db, s, zones, z.failoverTargets[k], y, required, now))
  }

  ghost predicate FirstTakeable(db: Db, s: Settings, zones: seq<Zone>, targets: seq<string>, k: nat, placed: Zone,
                                required: set<string>, now: Time)
  {
    && k < |targets| && Takeable(db, s, zones, targets[k], placed, required, now)
    && forall j, y :: 0 <= j < k ==> !Takeable(db, s, zones, targets[j], y, required, now)
  }

  lemma FailoverGoesTo(db: Db, s: Settings, zones: seq<Zone>, z: Zone, required: set<string>, now: Time)
    requires NamesUnique(zones)
    ensures var taker := FirstTaker(db, s, zones, z.failoverTargets, required, now);
      FailedOver(db, s, zones, z, if taker.Some? then taker.value else z, required, now)
  {
    var targets, taker := z.failoverTargets, FirstTaker(db, s, zones, z.failoverTargets, required, now);
    FirstTakerTakes(db, s, zones, targets, required, now);
    forall j: nat, y | j < |targets| && Takeable(db, s, zones, targets[j], y, required, now)
      ensures Takes(db, s, zones, targets[j], required, now)
    {
      TakesIs(db, s, zones, targets[j], required, now);
    }
    if taker.Some? {
      var k: int :| FirstToTake(db, s, zones, targets, k, required, now) && taker == Named(zones, targets[k]);
      TakesIs(db, s, zones, targets[k], required, now);
      assert FirstTakeable(db, s, zones, targets, k, taker.value, required, now);
    }
  }

  /** A pinned run goes to its definition's zone when that has room or lets runs wait for capacity. A zone without room
      that fails fast fails the submission; one that fails over fails it when the run must stay local, and otherwise
      gives the run to the first of its targets with room, and keeps it when there is none. */
  lemma PinnedGoesTo(db: Db, s: Settings, d: Definition, zones: seq<Zone>, now: Time)
    requires NamesUnique(zones) && d.zonePolicy == Pinned
    ensures d.defaultZone.None? ==> Placed(db, s, d, zones, now).None?
    ensures d.defaultZone.Some? ==>
      PinnedTo(db, s, d, zones, d.defaultZone.value, Placed(db, s, d, zones, now), now)
  {
    if d.defaultZone.Some? {
      CapacityIsRoom(db, s, d.defaultZone.value, d.capabilities, now);
      FailoverGoesTo(db, s, zones, d.defaultZone.value, d.capabilities, now);
    }
  }

  // ---------------------------------------------------------------- the rows of a fan-out

  /** A row as it is created. */
  ghost predicate IsNew(r: Run, d: Definition, now: Time) {
    && r.definition == d && r.queuedAt == now && r.attempt == 1 && r.worker.None? && r.lease.None? && r.token.None?
    && r.claimedAt.None? && !r.result.cancelRequested && r.result.worker.None? && r.result.revocation.None?
  }

  ghost predicate Waits(r: Run) {
    && r.state == PENDING && r.startedAt.None? && r.finishedAt.None?
    && r.result.status == StatusPending && r.result.dateStarted.None? && r.result.dateDone.None?
  }

  ghost predicate NeverDispatched(r: Run, now: Time) {
    && r.state == FAILED_DISPATCH && r.startedAt.None? && r.finishedAt == Some(now)
    && r.result.status == StatusFailure && r.result.dateDone == Some(now)
  }

  /** The old rows and the other tables as before, and this many new rows. */
  ghost predicate Extends(db: Db, d': Db, n: nat) {
    |d'.runs| == |db.runs| + n && d'.runs[..|db.runs|] == db.runs && d'.(runs := db.runs) == db
  }

  /** A single run is one row that waits in its zone, or has failed when it has none. */
  lemma SubmittedRow(db: Db, d: Definition, zone: Option<Zone>, now: Time)
    ensures var d' := Submit(db, d, zone, now);
      && Extends(db, d', 1) && IsNew(d'.runs[|db.runs|], d, now)
      && d'.runs[|db.runs|].parent.None? && d'.runs[|db.runs|].zone == zone && d'.runs[|db.runs|].devices == []
      && if zone.Some? then Waits(d'.runs[|db.runs|]) else NeverDispatched(d'.runs[|db.runs|], now)
  {
  }

  /** A fan-out is a parent that runs from its submission on, without a zone, a worker or a token, followed by one child
      per share: each waits in its own share's zone and has its own share's devices. */
  lemma FanOutRows(db: Db, d: Definition, shares: seq<Share>, now: Time)
    requires shares != []
    ensures var d' := SubmitFanOut(db, d, shares, now); var n := |db.runs|;
      && Extends(db, d', 1 + |shares|)
      && IsNew(d'.runs[n], d, now) && d'.runs[n].state == RUNNING && d'.runs[n].startedAt == Some(now)
      && d'.runs[n].parent.None? && d'.runs[n].zone.None? && d'.runs[n].devices == [] && d'.runs[n].finishedAt.None?
      && d'.runs[n].result.status == StatusStarted && d'.runs[n].result.dateStarted == Some(now)
      && forall k {:trigger shares[k]} :: 0 <= k < |shares| ==>
           ChildRow(d'.runs[n + 1 + k], d, n, shares[k].zone, shares[k].devices, now)
  {
  }

  ghost predicate ChildRow(r: Run, d: Definition, parent: RunId, zone: Zone, devices: seq<DeviceId>, now: Time) {
    IsNew(r, d, now) && Waits(r) && r.parent == Some(parent) && r.zone == Some(zone) && r.devices == devices
  }

  /** Child c has the device, and waits in the device's own zone. */
  ghost predicate Reaches(d': Db, n: nat, c: nat, x: DeviceId, z: Zone) {
    n < c < |d'.runs| && d'.runs[c].parent == Some(n) && d'.runs[c].zone == Some(z) && x in d'.runs[c].devices
  }

  lemma ShareOf(d: Definition, rows: seq<ZoneRow>, devices: seq<Device>, k: nat) returns (j: nat)
    requires k < |devices| && AllResolved(rows, devices)
    ensures var shares := SharesOf(d, rows, devices);
      j < |shares| && shares[j].zone == Resolve(rows, devices[k]).value && devices[k].id in shares[j].devices
  {
    var targets := Targeted(rows, devices);
    if d.zonePolicy == PerDevice {
      j := k;
    } else {
      ZonesOfTargets(targets);
      assert targets[k].zone in ZonesOf(targets);
      j :| 0 <= j < |ZonesOf(targets)| && ZonesOf(targets)[j] == targets[k].zone;
      var at := DevicesInOrder(targets, targets[k].zone);
      var m :| 0 <= m < |at| && at[m] == k;
      assert DevicesIn(targets, targets[k].zone)[m] == devices[k].id;
    }
  }

  /** When every device has a zone, each of them has a child of the new parent that waits in that zone. */
  lemma EveryDeviceIsReached(db: Db, d: Definition, rows: seq<ZoneRow>, devices: seq<Device>, k: nat, now: Time)
    requires k < |devices| && AllResolved(rows, devices)
    ensures exists c: nat :: Reaches(SubmitFanOut(db, d, SharesOf(d, rows, devices), now), |db.runs|, c,
                                     devices[k].id, Resolve(rows, devices[k]).value)
  {
    var j := ShareOf(d, rows, devices, k);
    var shares := SharesOf(d, rows, devices);
    FanOutRows(db, d, shares, now);
    assert ChildRow(SubmitFanOut(db, d, shares, now).runs[|db.runs| + 1 + j], d, |db.runs|,
                    shares[j].zone, shares[j].devices, now);
    assert Reaches(SubmitFanOut(db, d, shares, now), |db.runs|, |db.runs| + 1 + j, devices[k].id,
                   Resolve(rows, devices[k]).value);
  }

  /** And when one has none, no child is created: the submission fails as a whole. */
  lemma UnresolvedFanOutFails(db: Db, d: Definition, rows: seq<ZoneRow>, devices: seq<Device>, k: nat, now: Time)
    requires k < |devices| && Resolve(rows, devices[k]).None?
    ensures var d' := SubmitFanOut(db, d, SharesOf(d, rows, devices), now);
      Extends(db, d', 1) && NeverDispatched(d'.runs[|db.runs|], now) && d'.runs[|db.runs|].parent.None?
  {
    SubmittedRow(db, d, None, now);
  }
}
