/** Which zone a device belongs to, which zone a new run is queued in, and how a fan-out is divided. */
module Zones {
  import opened Wrappers
  import opened Runs

  // ---------------------------------------------------------------- the order of zones

  predicate NameBefore(a: string, b: string) {
    b != [] && (a == [] || a[0] < b[0] || (a[0] == b[0] && NameBefore(a[1..], b[1..])))
  }

  /** Lower priority value first, then by name. */
  predicate Before(a: Zone, b: Zone) {
    a.priority < b.priority || (a.priority == b.priority && NameBefore(a.name, b.name))
  }

  lemma {:induction false} NameOrder(a: string, b: string)
    ensures !(NameBefore(a, b) && NameBefore(b, a))
    ensures NameBefore(a, b) || NameBefore(b, a) || a == b
  {
    if a != [] && b != [] {
      NameOrder(a[1..], b[1..]);
      assert a == [a[0]] + a[1..] && b == [b[0]] + b[1..];
    }
  }

  lemma {:induction false} NameChain(a: string, b: string, c: string)
    requires NameBefore(a, b) && NameBefore(b, c)
    ensures NameBefore(a, c)
  {
    if a != [] && a[0] == b[0] == c[0] { NameChain(a[1..], b[1..], c[1..]); }
  }

  lemma BeforeOrder(a: Zone, b: Zone, c: Zone)
    ensures !(Before(a, b) && Before(b, a))
    ensures Before(a, b) || Before(b, a) || (a.priority == b.priority && a.name == b.name)
    ensures Before(a, b) && Before(b, c) ==> Before(a, c)
  {
    NameOrder(a.name, b.name);
    if NameBefore(a.name, b.name) && NameBefore(b.name, c.name) { NameChain(a.name, b.name, c.name); }
  }

  /** The head of the list once it is sorted by priority and name. */
  function Least(zones: seq<Zone>): Option<Zone> {
    if zones == [] then None else
    var rest := Least(zones[1..]);
    if rest.Some? && Before(rest.value, zones[0]) then rest else Some(zones[0])
  }

  ghost predicate NamesUnique(zones: seq<Zone>) {
    forall a, b :: a in zones && b in zones && a.name == b.name ==> a == b
  }

  ghost predicate Best(z: Zone, zones: seq<Zone>) {
    z in zones && forall y :: y in zones ==> y == z || Before(z, y)
  }

  lemma {:induction false} LeastIsFirst(zones: seq<Zone>)
    ensures Least(zones).None? <==> zones == []
    ensures Least(zones).Some? ==>
      Least(zones).value in zones && forall y :: y in zones ==> !Before(y, Least(zones).value)
  {
    if zones != [] {
      LeastIsFirst(zones[1..]);
      var least := Least(zones).value;
      forall y | y in zones ensures !Before(y, least) {
        assert y == zones[0] || y in zones[1..];
        BeforeOrder(least, y, y);
        if zones[1..] != [] {
          var m := Least(zones[1..]).value;
          BeforeOrder(m, zones[0], y);
          BeforeOrder(y, zones[0], m);
          if m.priority == zones[0].priority && m.name == zones[0].name { BeforeOrder(y, m, m); }
        }
      }
    }
  }

  /** With unique names the choice depends on the set of zones only, not on the order of the list. */
  lemma LeastIsBest(zones: seq<Zone>, z: Zone)
    requires NamesUnique(zones)
    ensures Least(zones) == Some(z) <==> Best(z, zones)
  {
    LeastIsFirst(zones);
    forall y | y in zones && Least(zones).Some? ensures y == Least(zones).value || Before(Least(zones).value, y) {
      BeforeOrder(Least(zones).value, y, y);
    }
    if Best(z, zones) { BeforeOrder(z, Least(zones).value, z); }
  }

  // ---------------------------------------------------------------- the zone of a device

  datatype Address = Address(version: nat, value: nat)

  datatype Prefix = Prefix(version: nat, first: nat, last: nat)

  /** `ancestors` are the device's location and all locations above it. */
  datatype Device = Device(id: DeviceId, location: Option<string>, ancestors: set<string>, role: string,
                           primaryIp: Option<Address>)

  datatype Rule = Rule(group: Option<set<DeviceId>>, locations: set<string>, includeDescendants: bool,
                       roles: set<string>, prefixes: set<Prefix>)

  datatype ZoneRow = ZoneRow(zone: Zone, rules: seq<Rule>)

  predicate Contains(p: Prefix, a: Address) {
    p.version == a.version && p.first <= a.value <= p.last
  }

  /** `matches_device`: every criterion that is set must hold, and a rule without criteria matches nothing. */
  predicate Matches(rule: Rule, d: Device) {
    && (rule.group.Some? ==> d.id in rule.group.value)
    && (rule.locations != {} ==>
          && d.location.Some?
          && if rule.includeDescendants then d.ancestors * rule.locations != {} else d.location.value in rule.locations)
    && (rule.roles != {} ==> d.role in rule.roles)
    && (rule.prefixes != {} ==> d.primaryIp.Some? && exists p :: p in rule.prefixes && Contains(p, d.primaryIp.value))
    && !(rule.group.None? && rule.locations == {} && rule.roles == {} && rule.prefixes == {})
  }

  predicate HasCriteria(rule: Rule) {
    rule.group.Some? || rule.locations != {} || rule.roles != {} || rule.prefixes != {}
  }

  const NO_CRITERIA := Rule(None, {}, true, {}, {})

  /** A rule matches iff it has criteria and each of them, taken as a rule of its own, matches; so a further criterion
      never lets a device in, and a rule without any is no wildcard. */
  lemma RuleIsConjunction(rule: Rule, d: Device)
    ensures Matches(rule, d) <==>
      && HasCriteria(rule)
      && (rule.group.Some? ==> Matches(NO_CRITERIA.(group := rule.group), d))
      && (rule.locations != {} ==>
            Matches(NO_CRITERIA.(locations := rule.locations, includeDescendants := rule.includeDescendants), d))
      && (rule.roles != {} ==> Matches(NO_CRITERIA.(roles := rule.roles), d))
      && (rule.prefixes != {} ==> Matches(NO_CRITERIA.(prefixes := rule.prefixes), d))
  {
  }

  predicate Serves(row: ZoneRow, d: Device) {
    row.zone.enabled && exists k :: 0 <= k < |row.rules| && Matches(row.rules[k], d)
  }

  /** The zones that serve the device, in the order of the rows. */
  function Matching(rows: seq<ZoneRow>, d: Device): (zones: seq<Zone>)
    ensures forall z :: z in zones <==> exists k :: 0 <= k < |rows| && Serves(rows[k], d) && rows[k].zone == z
  {
    if rows == [] then [] else
    var zones := Matching(rows[..|rows|-1], d);
    if Serves(rows[|rows|-1], d) then zones + [rows[|rows|-1].zone] else zones
  }

  method MatchingZones(rows: seq<ZoneRow>, d: Device) returns (zones: seq<Zone>)
    ensures zones == Matching(rows, d)
  {
    zones := [];
    for i := 0 to |rows|
      invariant zones == Matching(rows[..i], d)
    {
      assert rows[..i+1][..i] == rows[..i];
      if rows[i].zone.enabled {
        var k := 0;
        while k < |rows[i].rules| && !Matches(rows[i].rules[k], d)
          invariant 0 <= k <= |rows[i].rules| && forall j :: 0 <= j < k ==> !Matches(rows[i].rules[j], d)
        {
          k := k + 1;
        }
        if k < |rows[i].rules| {
          zones := zones + [rows[i].zone];
        }
      }
    }
    assert rows[..|rows|] == rows;
  }

  function Resolve(rows: seq<ZoneRow>, d: Device): Option<Zone> {
    Least(Matching(rows, d))
  }

  method ResolveZone(rows: seq<ZoneRow>, d: Device) returns (zone: Option<Zone>)
    ensures zone == Resolve(rows, d)
  {
    var matches := MatchingZones(rows, d);
    zone := Least(matches);
  }

  ghost predicate RowNamesUnique(rows: seq<ZoneRow>) {
    forall j, k :: 0 <= j < |rows| && 0 <= k < |rows| && rows[j].zone.name == rows[k].zone.name ==>
      rows[j].zone == rows[k].zone
  }

  /** A device is in zone z exactly when z serves it and comes before every other zone that does; no
      order of the zone rows or of the rules plays a part. */
  lemma ResolveIsBest(rows: seq<ZoneRow>, d: Device, z: Zone)
    requires RowNamesUnique(rows)
    ensures Resolve(rows, d) == Some(z) <==>
      && (exists k :: 0 <= k < |rows| && Serves(rows[k], d) && rows[k].zone == z)
      && (forall k :: 0 <= k < |rows| && Serves(rows[k], d) ==> rows[k].zone == z || Before(z, rows[k].zone))
  {
    LeastIsBest(Matching(rows, d), z);
  }

  lemma ResolveFails(rows: seq<ZoneRow>, d: Device)
    ensures Resolve(rows, d).None? <==> forall k :: 0 <= k < |rows| ==> !Serves(rows[k], d)
  {
    LeastIsFirst(Matching(rows, d));
    if exists k :: 0 <= k < |rows| && Serves(rows[k], d) {
      var k :| 0 <= k < |rows| && Serves(rows[k], d);
      assert rows[k].zone in Matching(rows, d);
    }
  }
}
