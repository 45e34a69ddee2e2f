/** Installation on AWS and its rollback (internal/install/aws/applier.go, internal/tfprovider/install.go): the route
    targets found at installation are written down, and rolling back points the routes at them again. */
module Rollback {
  import opened Common

  // The fields of an EC2 route that say where it leads; at most one matters.
  datatype Route = Route(
    instance: Option<string>, interface: Option<string>, natGateway: Option<string>, gateway: Option<string>,
    transit: Option<string>, peering: Option<string>, egress: Option<string>)

  // A route is found by its table and its destination.
  type Key = (string, string)

  datatype ManagedRoute = ManagedRoute(table: string, zone: string, destination: string)
  datatype RollbackRoute = RollbackRoute(table: string, destination: string, target: string)
  datatype Entry = Entry(destination: string, target: string)

  const NOWHERE := Route(None, None, None, None, None, None, None)
  const UNKNOWN := "unknown"

  function KeyOf(m: ManagedRoute): Key {
    (m.table, m.destination)
  }

  predicate HasPrefix(s: string, prefix: string) {
    |prefix| <= |s| && s[..|prefix|] == prefix
  }

  // ----- Describing and requesting a target -----

  function RouteTarget(r: Route): string {
    if r.instance.Some? then r.instance.value
    else if r.interface.Some? then r.interface.value
    else if r.natGateway.Some? then r.natGateway.value
    else if r.gateway.Some? then r.gateway.value
    else if r.transit.Some? then r.transit.value
    else if r.peering.Some? then r.peering.value
    else if r.egress.Some? then r.egress.value
    else ""
  }

  // The route that a request for this target makes.
  function RouteTo(target: string): Option<Route> {
    if target == "" || target == UNKNOWN then None
    else if HasPrefix(target, "i-") then Some(NOWHERE.(instance := Some(target)))
    else if HasPrefix(target, "eni-") then Some(NOWHERE.(interface := Some(target)))
    else if HasPrefix(target, "nat-") then Some(NOWHERE.(natGateway := Some(target)))
    else if HasPrefix(target, "tgw-") then Some(NOWHERE.(transit := Some(target)))
    else if HasPrefix(target, "pcx-") then Some(NOWHERE.(peering := Some(target)))
    else if HasPrefix(target, "eigw-") then Some(NOWHERE.(egress := Some(target)))
    else if HasPrefix(target, "igw-") || HasPrefix(target, "vgw-") then Some(NOWHERE.(gateway := Some(target)))
    else None
  }

  function ReplaceRouteInput(table: string, destination: string, target: string): Option<Route> {
    if table == "" || destination == "" then None else RouteTo(target)
  }

  /** Whatever target can be requested is described as itself afterwards. */
  lemma RequestedTargetIsDescribed(target: string)
    requires RouteTo(target).Some?
    ensures RouteTarget(RouteTo(target).value) == target
  {
  }

  lemma InstanceIsDescribed(target: string)
    requires HasPrefix(target, "i-")
    ensures RouteTo(target).Some? && RouteTarget(RouteTo(target).value) == target
  {
    assert UNKNOWN[0] == 'u' && target[..2][0] == 'i';
  }

  const PREFIXES := ["i-", "eni-", "nat-", "igw-", "vgw-", "tgw-", "pcx-", "eigw-"]

  // The prefixes exclude each other.
  lemma OnePrefix(target: string, a: string, b: string)
    requires a in PREFIXES && b in PREFIXES && HasPrefix(target, a) && HasPrefix(target, b)
    ensures a == b && target != UNKNOWN && target != ""
  {
    assert target[0] == a[0] == b[0] && target[1] == a[1] == b[1];
    assert UNKNOWN[0] == 'u';
  }

  // The field that stands for a kind of target.
  function FieldOf(prefix: string, r: Route): Option<string> {
    match prefix
    case "i-" => r.instance
    case "eni-" => r.interface
    case "nat-" => r.natGateway
    case "igw-" => r.gateway
    case "vgw-" => r.gateway
    case "tgw-" => r.transit
    case "pcx-" => r.peering
    case "eigw-" => r.egress
    case _ => None
  }

  // A request names the target in the field of its kind, and in no other.
  lemma RequestedField(target: string, prefix: string)
    requires prefix in PREFIXES && HasPrefix(target, prefix)
    ensures RouteTo(target).Some? && FieldOf(prefix, RouteTo(target).value) == Some(target)
    ensures forall other :: other in PREFIXES && FieldOf(other, RouteTo(target).value).Some? ==>
              other == prefix || {other, prefix} == {"igw-", "vgw-"}
  {
    forall other | other in PREFIXES && HasPrefix(target, other)
      ensures other == prefix && target != UNKNOWN && target != ""
    {
      OnePrefix(target, prefix, other);
    }
  }

  // A route is described by the first of its fields that is set, an instance before an interface and so on.
  lemma DescribedField(r: Route)
    ensures var fields := [r.instance, r.interface, r.natGateway, r.gateway, r.transit, r.peering, r.egress];
            && ((forall field :: field in fields ==> field.None?) ==> RouteTarget(r) == "")
            && forall i ::
                 0 <= i < |fields| && fields[i].Some? && (forall j :: 0 <= j < i ==> fields[j].None?) ==>
                   RouteTarget(r) == fields[i].value
  {
    var fields := [r.instance, r.interface, r.natGateway, r.gateway, r.transit, r.peering, r.egress];
    assert fields[0] in fields && fields[1] in fields && fields[2] in fields && fields[3] in fields;
    assert fields[4] in fields && fields[5] in fields && fields[6] in fields;
  }

  // What can be requested are targets of the eight kinds.
  lemma RequestableIff(target: string)
    ensures RouteTo(target).Some? <==> exists prefix :: prefix in PREFIXES && prefix <= target
  {
    assert forall prefix :: prefix in PREFIXES ==> (prefix <= target <==> HasPrefix(target, prefix));
    if prefix :| prefix in PREFIXES && HasPrefix(target, prefix) {
      RequestedField(target, prefix);
    }
    assert PREFIXES[0] in PREFIXES && PREFIXES[1] in PREFIXES && PREFIXES[2] in PREFIXES && PREFIXES[3] in PREFIXES;
    assert PREFIXES[4] in PREFIXES && PREFIXES[5] in PREFIXES && PREFIXES[6] in PREFIXES && PREFIXES[7] in PREFIXES;
  }

  // ----- Installing -----

  // The instance that starts as the active one of a zone.
  function Owner(name: string, instances: map<string, string>, zone: string): string {
    var active, plain := name + "-" + zone + "-active", name + "-" + zone;
    if active in instances && instances[active] != "" then instances[active]
    else if plain in instances then instances[plain]
    else ""
  }

  // Where each managed route shall lead at first.
  function Owners(name: string, instances: map<string, string>, managed: seq<ManagedRoute>): (owners: seq<string>)
    ensures |owners| == |managed|
  {
    seq(|managed|, i requires 0 <= i < |managed| => Owner(name, instances, managed[i].zone))
  }

  // The routes after the first n managed routes are pointed at their owners.
  function Installed(routes: map<Key, Route>, managed: seq<ManagedRoute>, owners: seq<string>, n: nat): map<Key, Route>
    requires n <= |managed| == |owners|
  {
    if n == 0 then routes
    else
      var input := RouteTo(owners[n - 1]);
      var earlier := Installed(routes, managed, owners, n - 1);
      if input.Some? then earlier[KeyOf(managed[n - 1]) := input.value] else earlier
  }

  // Of the first n managed routes no later one is the same.
  predicate LastOfKey(managed: seq<ManagedRoute>, j: nat, n: nat)
    requires j < n <= |managed|
  {
    forall k :: j < k < n ==> KeyOf(managed[k]) != KeyOf(managed[j])
  }

  // The route is there and leads to the target.
  predicate LeadsTo(routes: map<Key, Route>, key: Key, target: string) {
    key in routes && RouteTarget(routes[key]) == target
  }

  // The first n routes are at their owners, but for those listed again among them, and something is written down for
  // their tables.
  predicate AtOwners(routes: map<Key, Route>, previous: map<string, string>, managed: seq<ManagedRoute>,
                     owners: seq<string>, n: nat)
    requires n <= |managed| == |owners|
  {
    forall j :: 0 <= j < n ==>
      && managed[j].table in previous && owners[j] != ""
      && (LastOfKey(managed, j, n) ==> LeadsTo(routes, KeyOf(managed[j]), owners[j]))
  }

  lemma OneMoreAtOwner(now: map<Key, Route>, routes: map<Key, Route>, previous: map<string, string>, target: string,
                       managed: seq<ManagedRoute>, owners: seq<string>, i: nat)
    requires i < |managed| == |owners| && AtOwners(now, previous, managed, owners, i) && owners[i] != ""
    requires LeadsTo(routes, KeyOf(managed[i]), owners[i])
    requires routes == now[KeyOf(managed[i]) := routes[KeyOf(managed[i])]]
    ensures AtOwners(routes, previous[managed[i].table := target], managed, owners, i + 1)
  {
    forall j | 0 <= j < i && LastOfKey(managed, j, i + 1)
      ensures LeadsTo(routes, KeyOf(managed[j]), owners[j])
    {
      assert LastOfKey(managed, j, i);
    }
  }

  lemma {:induction false} OthersUntouched(routes: map<Key, Route>, managed: seq<ManagedRoute>, owners: seq<string>,
                                           n: nat, key: Key)
    requires n <= |managed| == |owners| && forall j :: 0 <= j < n ==> KeyOf(managed[j]) != key
    ensures var after := Installed(routes, managed, owners, n);
            (key in after <==> key in routes) && (key in after ==> after[key] == routes[key])
  {
    if n > 0 {
      OthersUntouched(routes, managed, owners, n - 1, key);
    }
  }

  // Routes that are not managed are the same.
  ghost predicate OthersSame(before: map<Key, Route>, after: map<Key, Route>, managed: seq<ManagedRoute>) {
    forall key :: (forall j :: 0 <= j < |managed| ==> KeyOf(managed[j]) != key) ==>
      (key in after <==> key in before) && (key in after ==> after[key] == before[key])
  }

  lemma AllOthersUntouched(routes: map<Key, Route>, managed: seq<ManagedRoute>, owners: seq<string>)
    requires |managed| == |owners|
    ensures OthersSame(routes, Installed(routes, managed, owners, |managed|), managed)
  {
    forall key | forall j :: 0 <= j < |managed| ==> KeyOf(managed[j]) != key
      ensures var after := Installed(routes, managed, owners, |managed|);
              (key in after <==> key in routes) && (key in after ==> after[key] == routes[key])
    {
      OthersUntouched(routes, managed, owners, |managed|, key);
    }
  }

  // What is written down for the first n routes is what they led to before.
  predicate Previous(before: map<Key, Route>, previous: map<string, string>, managed: seq<ManagedRoute>, n: nat)
    requires n <= |managed|
  {
    forall j :: 0 <= j < n ==>
      managed[j].table in previous && LeadsTo(before, KeyOf(managed[j]), previous[managed[j].table])
  }

  // The targets written down on the way: each is read just before its route is replaced.
  function Snapshot(routes: map<Key, Route>, managed: seq<ManagedRoute>, owners: seq<string>,
                    n: nat): map<string, string>
    requires n <= |managed| == |owners|
  {
    if n == 0 then map[]
    else
      var key, now := KeyOf(managed[n - 1]), Installed(routes, managed, owners, n - 1);
      var earlier := Snapshot(routes, managed, owners, n - 1);
      if key in now then earlier[key.0 := RouteTarget(now[key])] else earlier
  }

  // Where the loop stands after n routes.
  ghost predicate InstalledTo(before: map<Key, Route>, routes: map<Key, Route>, previous: map<string, string>,
                              managed: seq<ManagedRoute>, owners: seq<string>, n: nat)
    requires n <= |managed| == |owners|
  {
    && routes == Installed(before, managed, owners, n) && previous == Snapshot(before, managed, owners, n)
    && AtOwners(routes, previous, managed, owners, n)
    && (TablesDistinct(managed) ==> Previous(before, previous, managed, n))
  }

  lemma OneMoreWritten(before: map<Key, Route>, now: map<Key, Route>, routes: map<Key, Route>,
                       previous: map<string, string>, managed: seq<ManagedRoute>, owners: seq<string>, i: nat,
                       target: string)
    requires i < |managed| == |owners| && now == Installed(before, managed, owners, i)
    requires previous == Snapshot(before, managed, owners, i) && LeadsTo(now, KeyOf(managed[i]), target)
    requires RouteTo(owners[i]).Some? && routes == now[KeyOf(managed[i]) := RouteTo(owners[i]).value]
    ensures routes == Installed(before, managed, owners, i + 1)
    ensures previous[managed[i].table := target] == Snapshot(before, managed, owners, i + 1)
  {
  }

  lemma OneMorePrevious(before: map<Key, Route>, now: map<Key, Route>, previous: map<string, string>,
                        managed: seq<ManagedRoute>, owners: seq<string>, i: nat, target: string)
    requires i < |managed| == |owners| && TablesDistinct(managed) && now == Installed(before, managed, owners, i)
    requires Previous(before, previous, managed, i) && LeadsTo(now, KeyOf(managed[i]), target)
    ensures Previous(before, previous[managed[i].table := target], managed, i + 1)
  {
    OthersUntouched(before, managed, owners, i, KeyOf(managed[i]));
  }

  // The rollback targets as stored: one entry per route table.
  function Entries(managed: seq<ManagedRoute>, targets: map<string, string>, n: nat): map<string, Entry>
    requires n <= |managed|
  {
    if n == 0 then map[]
    else
      Entries(managed, targets, n - 1)[managed[n - 1].table := EntryFor(managed[n - 1], targets)]
  }

  method RollbackTargets(managed: seq<ManagedRoute>, targets: map<string, string>) returns (entries: map<string, Entry>)
    ensures entries == Entries(managed, targets, |managed|)
    // Each table has one entry, its last: the destination, and the target written down or "unknown".
    ensures forall table :: table in entries <==> exists j :: 0 <= j < |managed| && managed[j].table == table
    ensures forall j ::
              (0 <= j < |managed| && forall k :: j < k < |managed| ==> managed[k].table != managed[j].table) ==>
              && entries[managed[j].table].destination == managed[j].destination
              && entries[managed[j].table].target ==
                 if managed[j].table in targets && targets[managed[j].table] != "" then targets[managed[j].table]
                 else "unknown"
  {
    entries := map[];
    for i := 0 to |managed|
      invariant entries == Entries(managed, targets, i)
    {
      var m := managed[i];
      var target := if m.table in targets then targets[m.table] else "";
      if target == "" {
        target := UNKNOWN;
      }
      entries := entries[m.table := Entry(m.destination, target)];
    }
    forall table
      ensures table in entries <==> exists j :: 0 <= j < |managed| && managed[j].table == table
    {
      EntryOfTable(managed, targets, |managed|, table);
    }
    forall j | 0 <= j < |managed| && (forall k :: j < k < |managed| ==> managed[k].table != managed[j].table)
      ensures managed[j].table in entries && entries[managed[j].table] == EntryFor(managed[j], targets)
    {
      LastEntry(managed, targets, |managed|, j);
    }
  }

  lemma {:induction false} EntryOfTable(managed: seq<ManagedRoute>, targets: map<string, string>, n: nat, table: string)
    requires n <= |managed|
    ensures table in Entries(managed, targets, n) <==> exists j :: 0 <= j < n && managed[j].table == table
  {
    if n > 0 {
      EntryOfTable(managed, targets, n - 1, table);
    }
  }

  // The entry of a table that is not named again.
  function EntryFor(m: ManagedRoute, targets: map<string, string>): Entry {
    Entry(m.destination,
          if m.table in targets && targets[m.table] != "" then targets[m.table] else UNKNOWN)
  }

  lemma {:induction false} LastEntry(managed: seq<ManagedRoute>, targets: map<string, string>, n: nat, j: nat)
    requires j < n <= |managed| && forall k :: j < k < n ==> managed[k].table != managed[j].table
    ensures managed[j].table in Entries(managed, targets, n)
    ensures Entries(managed, targets, n)[managed[j].table] == EntryFor(managed[j], targets)
  {
    if j < n - 1 {
      LastEntry(managed, targets, n - 1, j);
    }
  }

  // ----- Rolling back -----

  predicate Complete(table: string, entry: Entry) {
    table != "" && entry.destination != "" && entry.target != "" && entry.target != UNKNOWN
  }

  predicate OneRoutePerTable(list: seq<RollbackRoute>) {
    forall i, j :: 0 <= i < j < |list| ==> list[i].table != list[j].table
  }

  // list holds one route for each entry, in some order.
  predicate Lists(list: seq<RollbackRoute>, entries: map<string, Entry>) {
    && OneRoutePerTable(list)
    && (forall r :: r in list ==> r.table in entries && entries[r.table] == Entry(r.destination, r.target))
    && (forall t :: t in entries ==> RollbackRoute(t, entries[t].destination, entries[t].target) in list)
  }

  // The order in which the entries come is arbitrary.
  method ParseRollbackRoutes(entries: map<string, Entry>) returns (r: Option<seq<RollbackRoute>>)
    ensures r.Some? <==> forall t :: t in entries ==>
                           && t != "" && entries[t].destination != "" && entries[t].target != ""
                           && entries[t].target != "unknown"
    ensures r.Some? <==> forall t :: t in entries ==> Complete(t, entries[t])
    ensures r.Some? ==> Lists(r.value, entries)
  {
    var routes, rest := [], entries.Keys;
    while rest != {}
      invariant rest <= entries.Keys && OneRoutePerTable(routes)
      invariant forall t :: t in entries.Keys - rest ==> Complete(t, entries[t])
      invariant forall x :: x in routes ==>
                x.table in entries.Keys - rest && entries[x.table] == Entry(x.destination, x.target)
      invariant forall t :: t in entries.Keys - rest ==>
                RollbackRoute(t, entries[t].destination, entries[t].target) in routes
    {
      var t :| t in rest;
      var route := RollbackRoute(t, entries[t].destination, entries[t].target);
      if route.table == "" || route.destination == "" || route.target == "" || route.target == UNKNOWN {
        assert !Complete(t, entries[t]);
        return None;
      }
      routes := routes + [route];
      rest := rest - {t};
    }
    return Some(routes);
  }

  // A route pointed back at its written target; a target that is gone is passed over.
  function PointedBack(routes: map<Key, Route>, r: RollbackRoute, gone: set<string>): map<Key, Route> {
    var input := RouteTo(r.target);
    if input.None? || r.target in gone then routes else routes[(r.table, r.destination) := input.value]
  }

  // The routes after the first n of the list are restored.
  function Restored(routes: map<Key, Route>, list: seq<RollbackRoute>, gone: set<string>, n: nat): map<Key, Route>
    requires n <= |list|
  {
    if n == 0 then routes else PointedBack(Restored(routes, list, gone, n - 1), list[n - 1], gone)
  }

  // The first n routes are restored; the next may have been.
  ghost predicate StoppedAt(
    now: map<Key, Route>, routes: map<Key, Route>, list: seq<RollbackRoute>, gone: set<string>, n: nat)
    requires n < |list|
  {
    && now in {Restored(routes, list, gone, n), Restored(routes, list, gone, n + 1)}
    && forall r :: r in list[..n] ==> Restorable(r, gone)
  }

  // The route exists, is named in full, and leads somewhere.
  predicate Installable(routes: map<Key, Route>, m: ManagedRoute) {
    m.table != "" && m.destination != "" && KeyOf(m) in routes && RouteTarget(routes[KeyOf(m)]) != ""
  }

  predicate AllInstallable(routes: map<Key, Route>, managed: seq<ManagedRoute>) {
    forall m :: m in managed ==> Installable(routes, m)
  }

  // The owners are instances that exist.
  predicate AllThere(owners: seq<string>, gone: set<string>) {
    forall o :: o in owners ==> HasPrefix(o, "i-") && o !in gone
  }

  lemma InstalledStaysInstallable(routes: map<Key, Route>, managed: seq<ManagedRoute>, m: ManagedRoute, owner: string)
    requires AllInstallable(routes, managed) && HasPrefix(owner, "i-")
    ensures RouteTo(owner).Some? && AllInstallable(routes[KeyOf(m) := RouteTo(owner).value], managed)
  {
    InstanceIsDescribed(owner);
  }

  // The missing targets that rolling back passes over: instances, network interfaces and NAT gateways. A missing
  // gateway of another kind is an error.
  predicate PassedOver(target: string) {
    HasPrefix(target, "i-") || HasPrefix(target, "eni-") || HasPrefix(target, "nat-")
  }

  // The route is named in full, and its written target can be requested or passed over.
  predicate Restorable(r: RollbackRoute, gone: set<string>) {
    r.table != "" && r.destination != "" && RouteTo(r.target).Some? && (r.target in gone ==> PassedOver(r.target))
  }

  predicate AllPresent(routes: map<Key, Route>, list: seq<RollbackRoute>) {
    forall r :: r in list ==> (r.table, r.destination) in routes
  }

  datatype Reply = Replaced | Gone | Failed

  class RouteTables {
    var routes: map<Key, Route>
    // Targets that no longer exist.
    const gone: set<string>
    // No request fails but for its target or its route.
    const smooth: bool

    constructor (routes: map<Key, Route>, gone: set<string>, smooth: bool)
      ensures this.routes == routes && this.gone == gone && this.smooth == smooth
    {
      this.routes, this.gone, this.smooth := routes, gone, smooth;
    }

    // A failed request may or may not have been carried out.
    method Replace(key: Key, route: Route) returns (reply: Reply)
      modifies this
      ensures reply == Replaced ==> key in old(routes) && routes == old(routes)[key := route]
      ensures reply == Gone ==> routes == old(routes) && RouteTarget(route) in gone && PassedOver(RouteTarget(route))
      ensures reply == Failed ==> routes in {old(routes), old(routes)[key := route]}
      ensures RouteTarget(route) in gone ==> routes == old(routes) && reply != Replaced
      ensures smooth && key in old(routes) ==>
                reply == (if RouteTarget(route) !in gone then Replaced
                          else if PassedOver(RouteTarget(route)) then Gone
                          else Failed)
    {
      var fails: bool := *;
      fails := fails && !smooth;
      if RouteTarget(route) in gone {
        var routeFirst: bool := *;
        return if fails || (key !in routes && routeFirst) || !PassedOver(RouteTarget(route)) then Failed else Gone;
      }
      var carriedOut: bool := *;
      if key !in routes || (fails && !carriedOut) {
        return Failed;
      }
      routes := routes[key := route];
      return if fails then Failed else Replaced;
    }

    method DescribeTarget(key: Key) returns (target: Option<string>)
      ensures target.Some? ==> key in routes && target.value == RouteTarget(routes[key]) && target.value != ""
      ensures smooth && key in routes && RouteTarget(routes[key]) != "" ==> target.Some?
    {
      var fails: bool := *;
      if (fails && !smooth) || key !in routes || RouteTarget(routes[key]) == "" {
        return None;
      }
      return Some(RouteTarget(routes[key]));
    }

    // Reads where a route leads, then points it at its owner.
    method InstallRoute(m: ManagedRoute, owner: string) returns (target: Option<string>)
      modifies this
      ensures target.Some? ==>
                && KeyOf(m) in old(routes) && target.value == RouteTarget(old(routes)[KeyOf(m)])
                && RouteTo(owner).Some? && routes == old(routes)[KeyOf(m) := RouteTo(owner).value]
                && LeadsTo(routes, KeyOf(m), owner) && owner != ""
      ensures target.None? ==>
                routes == old(routes)
                || (RouteTo(owner).Some? && routes == old(routes)[KeyOf(m) := RouteTo(owner).value])
      ensures smooth && Installable(old(routes), m) && HasPrefix(owner, "i-") && owner !in gone ==> target.Some?
    {
      if HasPrefix(owner, "i-") {
        InstanceIsDescribed(owner);
      }
      target := DescribeTarget(KeyOf(m));
      if target.None? || owner == "" {
        return None;
      }
      var input := ReplaceRouteInput(m.table, m.destination, owner);
      if input.None? {
        return None;
      }
      RequestedTargetIsDescribed(owner);
      var reply := Replace(KeyOf(m), input.value);
      if reply != Replaced {
        return None;
      }
    }

    // With the owners looked up: the zone's instance under its active name, or else under its plain one.
    method Install(name: string, instances: map<string, string>, managed: seq<ManagedRoute>)
      returns (ok: bool, previous: map<string, string>)
      modifies this
      ensures ok ==> routes == Installed(old(routes), managed, Owners(name, instances, managed), |managed|)
      ensures ok ==> previous == Snapshot(old(routes), managed, Owners(name, instances, managed), |managed|)
      ensures ok ==> forall j :: 0 <= j < |managed| ==> managed[j].table in previous
      ensures ok ==> forall j :: 0 <= j < |managed| && LastOfKey(managed, j, |managed|) ==>
                var active, plain := name + "-" + managed[j].zone + "-active", name + "-" + managed[j].zone;
                if active in instances && instances[active] != ""
                then LeadsTo(routes, KeyOf(managed[j]), instances[active])
                else plain in instances && instances[plain] != ""
                     && LeadsTo(routes, KeyOf(managed[j]), instances[plain])
      ensures smooth && AllInstallable(old(routes), managed) && AllThere(Owners(name, instances, managed), gone) ==> ok
    {
      var owners := Owners(name, instances, managed);
      ok, previous := InstallRoutes(managed, owners);
    }

    // The routing part of Apply.
    method InstallRoutes(managed: seq<ManagedRoute>, owners: seq<string>)
      returns (ok: bool, previous: map<string, string>)
      requires |owners| == |managed|
      modifies this
      ensures ok ==> routes == Installed(old(routes), managed, owners, |managed|)
      ensures ok ==> previous == Snapshot(old(routes), managed, owners, |managed|)
      ensures ok ==> forall j :: 0 <= j < |managed| ==> managed[j].table in previous
      // Every managed route leads to its own owner afterwards (the last one, if a route is listed again), and no other
      // route has changed; each table's target is the one the route had, unless a table is named twice.
      ensures ok ==> AtOwners(routes, previous, managed, owners, |managed|)
      ensures (ok && forall i, j ::
                 0 <= i < j < |managed| ==>
                   (managed[i].table, managed[i].destination) != (managed[j].table, managed[j].destination)) ==>
                forall j :: 0 <= j < |managed| ==>
                              && (managed[j].table, managed[j].destination) in routes
                              && RouteTarget(routes[(managed[j].table, managed[j].destination)]) == owners[j]
      ensures ok ==> OthersSame(old(routes), routes, managed)
      ensures ok && TablesDistinct(managed) ==> Previous(old(routes), previous, managed, |managed|)
      ensures smooth && AllInstallable(old(routes), managed) && AllThere(owners, gone) ==> ok
    {
      ok, previous := InstallOneByOne(managed, owners);
      AllOthersUntouched(old(routes), managed, owners);
      if ok && forall i, j :: 0 <= i < j < |managed| ==> KeyOf(managed[i]) != KeyOf(managed[j]) {
        assert forall j :: 0 <= j < |managed| ==> LastOfKey(managed, j, |managed|);
      }
    }

    // The loop over the managed routes.
    method InstallOneByOne(managed: seq<ManagedRoute>, owners: seq<string>)
      returns (ok: bool, previous: map<string, string>)
      requires |owners| == |managed|
      modifies this
      ensures ok ==> InstalledTo(old(routes), routes, previous, managed, owners, |managed|)
      ensures smooth && AllInstallable(old(routes), managed) && AllThere(owners, gone) ==> ok
    {
      previous := map[];
      ghost var before := routes;
      ghost var fine := smooth && AllInstallable(routes, managed) && AllThere(owners, gone);
      for i := 0 to |managed|
        invariant InstalledTo(before, routes, previous, managed, owners, i)
        invariant fine ==> AllInstallable(routes, managed)
      {
        ok, previous := InstallNext(before, previous, managed, owners, i, fine);
        if !ok {
          return;
        }
      }
      return true, previous;
    }

    // One more route of the loop.
    method InstallNext(ghost before: map<Key, Route>, previous: map<string, string>, managed: seq<ManagedRoute>,
                       owners: seq<string>, i: nat, ghost fine: bool)
      returns (ok: bool, previous': map<string, string>)
      requires i < |managed| == |owners| && InstalledTo(before, routes, previous, managed, owners, i)
      requires fine ==> smooth && AllInstallable(routes, managed) && AllThere(owners, gone)
      modifies this
      ensures ok ==> InstalledTo(before, routes, previous', managed, owners, i + 1)
      ensures fine ==> ok && AllInstallable(routes, managed)
    {
      assert managed[i] in managed && owners[i] in owners;
      ghost var now := routes;
      var target := InstallRoute(managed[i], owners[i]);
      if target.None? {
        return false, previous;
      }
      if fine {
        InstalledStaysInstallable(now, managed, managed[i], owners[i]);
      }
      OneMoreWritten(before, now, routes, previous, managed, owners, i, target.value);
      OneMoreAtOwner(now, routes, previous, target.value, managed, owners, i);
      if TablesDistinct(managed) {
        OneMorePrevious(before, now, previous, managed, owners, i, target.value);
      }
      return true, previous[managed[i].table := target.value];
    }

    method RestoreRoute(r: RollbackRoute) returns (reply: Reply)
      modifies this
      ensures reply != Failed ==> RouteTo(r.target).Some? && routes == PointedBack(old(routes), r, gone)
      ensures reply == Failed ==> routes in {old(routes), PointedBack(old(routes), r, gone)}
      ensures reply != Failed ==> Restorable(r, gone)
      ensures smooth && (r.table, r.destination) in old(routes) ==> (reply != Failed <==> Restorable(r, gone))
      ensures r.target in gone ==> routes == old(routes)
    {
      var input := ReplaceRouteInput(r.table, r.destination, r.target);
      if input.None? {
        return Failed;
      }
      RequestedTargetIsDescribed(r.target);
      reply := Replace((r.table, r.destination), input.value);
    }

    /** Rolling back stops at the first failure; until then, and at it, no route is pointed anywhere but at its
        written target. Without faults it succeeds on routes that exist if and only if every target can be requested
        and none that is gone is of a kind that is not passed over. */
    method RestoreRoutes(list: seq<RollbackRoute>) returns (ok: bool)
      modifies this
      ensures ok ==> routes == Restored(old(routes), list, gone, |list|)
      ensures ok ==> forall r :: r in list ==> Restorable(r, gone)
      ensures !ok ==> exists n :: 0 <= n < |list| && StoppedAt(routes, old(routes), list, gone, n)
      ensures smooth && AllPresent(old(routes), list) ==> (ok <==> forall r :: r in list ==> Restorable(r, gone))
    {
      for i := 0 to |list|
        invariant routes == Restored(old(routes), list, gone, i) && routes.Keys >= old(routes).Keys
        invariant forall r :: r in list[..i] ==> Restorable(r, gone)
      {
        assert list[i] in list;
        var reply := RestoreRoute(list[i]);
        if reply == Gone {
          continue;
        }
        if reply == Failed {
          assert StoppedAt(routes, old(routes), list, gone, i);
          return false;
        }
      }
      return true;
    }
  }

  // ----- What a rollback brings back -----

  predicate TablesDistinct(managed: seq<ManagedRoute>) {
    forall i, j :: 0 <= i < j < |managed| ==> managed[i].table != managed[j].table
  }

  // The routes exist and lead to targets that can be requested.
  predicate Described(routes: map<Key, Route>, managed: seq<ManagedRoute>) {
    forall m :: m in managed ==> KeyOf(m) in routes && RouteTo(RouteTarget(routes[KeyOf(m)])).Some?
  }

  predicate Requestable(owners: seq<string>) {
    forall o :: o in owners ==> HasPrefix(o, "i-")
  }

  function Stored(routes: map<Key, Route>, managed: seq<ManagedRoute>, owners: seq<string>): map<string, Entry>
    requires |managed| == |owners|
  {
    Entries(managed, Snapshot(routes, managed, owners, |managed|), |managed|)
  }

  lemma {:induction false} UntouchedUntilItsTurn(
    routes: map<Key, Route>, managed: seq<ManagedRoute>, owners: seq<string>, n: nat, i: nat)
    requires |managed| == |owners| && n <= i < |managed| && TablesDistinct(managed)
    ensures KeyOf(managed[i]) in Installed(routes, managed, owners, n) <==> KeyOf(managed[i]) in routes
    ensures KeyOf(managed[i]) in routes ==>
              Installed(routes, managed, owners, n)[KeyOf(managed[i])] == routes[KeyOf(managed[i])]
  {
    if n > 0 {
      UntouchedUntilItsTurn(routes, managed, owners, n - 1, i);
    }
  }

  lemma {:induction false} SnapshotIsBefore(
    routes: map<Key, Route>, managed: seq<ManagedRoute>, owners: seq<string>, n: nat, i: nat)
    requires |managed| == |owners| && i < n <= |managed| && TablesDistinct(managed) && Described(routes, managed)
    ensures var targets := Snapshot(routes, managed, owners, n);
              managed[i].table in targets && targets[managed[i].table] == RouteTarget(routes[KeyOf(managed[i])])
  {
    UntouchedUntilItsTurn(routes, managed, owners, n - 1, n - 1);
    if i < n - 1 {
      SnapshotIsBefore(routes, managed, owners, n - 1, i);
    }
  }

  lemma {:induction false} EntryOfLast(managed: seq<ManagedRoute>, targets: map<string, string>, n: nat, i: nat)
    requires i < n <= |managed|
    requires forall j :: i < j < n ==> managed[j].table != managed[i].table
    requires managed[i].table in targets && targets[managed[i].table] != ""
    ensures var entries := Entries(managed, targets, n);
              managed[i].table in entries
              && entries[managed[i].table] == Entry(managed[i].destination, targets[managed[i].table])
  {
    if i < n - 1 {
      EntryOfLast(managed, targets, n - 1, i);
    }
  }

  predicate IsFor(r: RollbackRoute, key: Key) {
    (r.table, r.destination) == key
  }

  predicate Writable(r: RollbackRoute, gone: set<string>) {
    RouteTo(r.target).Some? && r.target !in gone
  }

  predicate Leads(routes: map<Key, Route>, key: Key, route: Route) {
    key in routes && routes[key] == route
  }

  lemma {:induction false} RestoredAt(routes: map<Key, Route>, list: seq<RollbackRoute>, gone: set<string>, n: nat,
                                      key: Key)
    requires n <= |list| && OneRoutePerTable(list)
    ensures forall i :: 0 <= i < n && IsFor(list[i], key) && Writable(list[i], gone) ==>
              Leads(Restored(routes, list, gone, n), key, RouteTo(list[i].target).value)
    ensures (forall i :: 0 <= i < n && IsFor(list[i], key) ==> list[i].target in gone) && key in routes ==>
              Leads(Restored(routes, list, gone, n), key, routes[key])
  {
    if n > 0 {
      RestoredAt(routes, list, gone, n - 1, key);
    }
  }

  lemma {:induction false} EntryStored(managed: seq<ManagedRoute>, targets: map<string, string>, n: nat, i: nat)
    requires i < n <= |managed| && TablesDistinct(managed) && managed[i].table in targets
    ensures var entries := Entries(managed, targets, n);
              && managed[i].table in entries && entries[managed[i].table].destination == managed[i].destination
              && entries[managed[i].table].target ==
                 if targets[managed[i].table] == "" then UNKNOWN else targets[managed[i].table]
  {
    if i < n - 1 {
      EntryStored(managed, targets, n - 1, i);
    }
  }

  lemma {:induction false} EntriesAreManaged(managed: seq<ManagedRoute>, targets: map<string, string>, n: nat,
                                             table: string)
    requires n <= |managed| && table in Entries(managed, targets, n)
    ensures exists i :: 0 <= i < n && KeyOf(managed[i]) == (table, Entries(managed, targets, n)[table].destination)
  {
    if managed[n - 1].table != table {
      EntriesAreManaged(managed, targets, n - 1, table);
    } else {
      assert KeyOf(managed[n - 1]) == (table, Entries(managed, targets, n)[table].destination);
    }
  }

  // Every managed route leads where it led before, unless that target is gone.
  ghost predicate Undone(before: map<Key, Route>, after: map<Key, Route>, managed: seq<ManagedRoute>, gone: set<string>)
    requires Described(before, managed)
  {
    forall m :: m in managed && RouteTarget(before[KeyOf(m)]) !in gone ==>
      KeyOf(m) in after && RouteTarget(after[KeyOf(m)]) == RouteTarget(before[KeyOf(m)])
  }

  /** With every route table named once, rolling back undoes the installation whatever was done to the routes in
      between, and touches no other route. */
  lemma RollbackRestores(
    before: map<Key, Route>, between: map<Key, Route>, managed: seq<ManagedRoute>, owners: seq<string>,
    list: seq<RollbackRoute>, gone: set<string>)
    requires |managed| == |owners| && TablesDistinct(managed) && Described(before, managed)
    requires Lists(list, Stored(before, managed, owners))
    ensures Undone(before, Restored(between, list, gone, |list|), managed, gone)
    ensures forall key :: key in between && (forall m :: m in managed ==> KeyOf(m) != key) ==>
              key in Restored(between, list, gone, |list|) && Restored(between, list, gone, |list|)[key] == between[key]
  {
    var targets := Snapshot(before, managed, owners, |managed|);
    var after := Restored(between, list, gone, |list|);
    forall m | m in managed && RouteTarget(before[KeyOf(m)]) !in gone
      ensures KeyOf(m) in after && RouteTarget(after[KeyOf(m)]) == RouteTarget(before[KeyOf(m)])
    {
      var i :| 0 <= i < |managed| && managed[i] == m;
      SnapshotIsBefore(before, managed, owners, |managed|, i);
      EntryOfLast(managed, targets, |managed|, i);
      var target := targets[m.table];
      var j :| 0 <= j < |list| && list[j] == RollbackRoute(m.table, m.destination, target);
      RestoredAt(between, list, gone, |list|, KeyOf(m));
      RequestedTargetIsDescribed(target);
    }
    forall key | key in between && (forall m :: m in managed ==> KeyOf(m) != key)
      ensures key in after && after[key] == between[key]
    {
      forall i | 0 <= i < |list|
        ensures (list[i].table, list[i].destination) != key
      {
        assert list[i] in list;
        EntriesAreManaged(managed, targets, |managed|, list[i].table);
        var k :| 0 <= k < |managed| && KeyOf(managed[k]) == (list[i].table, list[i].destination);
        assert managed[k] in managed;
      }
      RestoredAt(between, list, gone, |list|, key);
    }
  }

  lemma {:induction false} WrittenIsRead(
    routes: map<Key, Route>, managed: seq<ManagedRoute>, owners: seq<string>, n: nat, i: nat)
    requires |managed| == |owners| && i < |managed| && n <= |managed| && TablesDistinct(managed)
    requires managed[i].table in Snapshot(routes, managed, owners, n)
    ensures KeyOf(managed[i]) in Installed(routes, managed, owners, i)
  {
    if i != n - 1 {
      WrittenIsRead(routes, managed, owners, n - 1, i);
    } else if KeyOf(managed[i]) !in Installed(routes, managed, owners, i) {
      WrittenIsRead(routes, managed, owners, n - 1, i);
    }
  }

  lemma ReadAndRequestedIsDescribed(
    before: map<Key, Route>, managed: seq<ManagedRoute>, owners: seq<string>, list: seq<RollbackRoute>)
    requires |managed| == |owners| && TablesDistinct(managed)
    requires forall j :: 0 <= j < |managed| ==> managed[j].table in Snapshot(before, managed, owners, |managed|)
    requires Lists(list, Stored(before, managed, owners))
    requires forall r :: r in list ==> RouteTo(r.target).Some?
    ensures Described(before, managed)
  {
    var targets := Snapshot(before, managed, owners, |managed|);
    forall m | m in managed
      ensures KeyOf(m) in before && RouteTo(RouteTarget(before[KeyOf(m)])).Some?
    {
      var i :| 0 <= i < |managed| && managed[i] == m;
      WrittenIsRead(before, managed, owners, |managed|, i);
      UntouchedUntilItsTurn(before, managed, owners, i, i);
      SnapshotOfLast(before, managed, owners, |managed|, i);
      EntryStored(managed, targets, |managed|, i);
    }
  }

  // ----- A route table named twice -----

  lemma {:induction false} InstalledLeadsToOwner(
    routes: map<Key, Route>, managed: seq<ManagedRoute>, owners: seq<string>, n: nat, i: nat)
    requires |managed| == |owners| && i < n <= |managed| && Requestable(owners)
    ensures var now := Installed(routes, managed, owners, n);
              KeyOf(managed[i]) in now && HasPrefix(RouteTarget(now[KeyOf(managed[i])]), "i-")
  {
    assert owners[n - 1] in owners;
    InstanceIsDescribed(owners[n - 1]);
    if KeyOf(managed[i]) != KeyOf(managed[n - 1]) {
      InstalledLeadsToOwner(routes, managed, owners, n - 1, i);
    }
  }

  lemma {:induction false} SnapshotOfLast(
    routes: map<Key, Route>, managed: seq<ManagedRoute>, owners: seq<string>, n: nat, j: nat)
    requires |managed| == |owners| && j < n <= |managed|
    requires forall k :: j < k < n ==> managed[k].table != managed[j].table
    requires KeyOf(managed[j]) in Installed(routes, managed, owners, j)
    ensures var targets := Snapshot(routes, managed, owners, n);
              && managed[j].table in targets
              && targets[managed[j].table] == RouteTarget(Installed(routes, managed, owners, j)[KeyOf(managed[j])])
  {
    if j < n - 1 {
      SnapshotOfLast(routes, managed, owners, n - 1, j);
    }
  }

  // The last place that names the table of the i-th managed route.
  function LastNamed(managed: seq<ManagedRoute>, i: nat, n: nat): (j: nat)
    requires i < n <= |managed|
    ensures i <= j < n && managed[j].table == managed[i].table
    ensures forall k :: j < k < n ==> managed[k].table != managed[i].table
  {
    if managed[n - 1].table == managed[i].table then n - 1 else LastNamed(managed, i, n - 1)
  }

  /** Naming a route table twice loses a route: even with no interference the rollback leaves one of the two at an
      instance of the gateway, because the second snapshot reads what the first replacement made, and only the last
      destination of a table is written down. */
  lemma NamedTwiceIsLost(
    before: map<Key, Route>, managed: seq<ManagedRoute>, owners: seq<string>, list: seq<RollbackRoute>, i: nat)
    requires |managed| == |owners| && Requestable(owners) && Described(before, managed)
    requires forall m :: m in managed ==> !HasPrefix(RouteTarget(before[KeyOf(m)]), "i-")
    requires Lists(list, Stored(before, managed, owners))
    requires i < |managed| && i < LastNamed(managed, i, |managed|)
    ensures !Undone(before, Restored(Installed(before, managed, owners, |managed|), list, {}, |list|), managed, {})
  {
    var n, j := |managed|, LastNamed(managed, i, |managed|);
    var installed := Installed(before, managed, owners, n);
    assert managed[i] in managed && managed[j] in managed;
    InstalledLeadsToOwner(before, managed, owners, n, i);
    var target := LastIsListed(before, managed, owners, list, j);
    if managed[i].destination == managed[j].destination {
      InstalledLeadsToOwner(before, managed, owners, j, i);
      RestoredToWritten(installed, list, managed[j], target);
    } else {
      UnwrittenIsKept(installed, list, KeyOf(managed[i]),
                      RollbackRoute(managed[j].table, managed[j].destination, target));
    }
  }

  // What is written down for a table is what its last mention found.
  lemma LastIsListed(
    before: map<Key, Route>, managed: seq<ManagedRoute>, owners: seq<string>, list: seq<RollbackRoute>, j: nat)
    returns (target: string)
    requires |managed| == |owners| && Requestable(owners) && Described(before, managed) && j < |managed|
    requires forall k :: j < k < |managed| ==> managed[k].table != managed[j].table
    requires Lists(list, Stored(before, managed, owners))
    ensures KeyOf(managed[j]) in Installed(before, managed, owners, j)
    ensures target == RouteTarget(Installed(before, managed, owners, j)[KeyOf(managed[j])]) && RouteTo(target).Some?
    ensures RollbackRoute(managed[j].table, managed[j].destination, target) in list
  {
    TargetAlong(before, managed, owners, j, managed[j]);
    SnapshotOfLast(before, managed, owners, |managed|, j);
    target := Snapshot(before, managed, owners, |managed|)[managed[j].table];
    EntryOfLast(managed, Snapshot(before, managed, owners, |managed|), |managed|, j);
  }

  lemma RestoredToWritten(routes: map<Key, Route>, list: seq<RollbackRoute>, m: ManagedRoute, target: string)
    requires OneRoutePerTable(list) && RollbackRoute(m.table, m.destination, target) in list && RouteTo(target).Some?
    ensures var after := Restored(routes, list, {}, |list|);
              KeyOf(m) in after && RouteTarget(after[KeyOf(m)]) == target
  {
    var i :| 0 <= i < |list| && list[i] == RollbackRoute(m.table, m.destination, target);
    assert IsFor(list[i], KeyOf(m));
    RestoredAt(routes, list, {}, |list|, KeyOf(m));
    RequestedTargetIsDescribed(target);
  }

  lemma UnwrittenIsKept(routes: map<Key, Route>, list: seq<RollbackRoute>, key: Key, written: RollbackRoute)
    requires OneRoutePerTable(list) && written in list && written.table == key.0 && written.destination != key.1
    requires key in routes
    ensures Leads(Restored(routes, list, {}, |list|), key, routes[key])
  {
    forall i | 0 <= i < |list|
      ensures !IsFor(list[i], key)
    {
      assert list[i].table == written.table ==> list[i] == written;
    }
    RestoredAt(routes, list, {}, |list|, key);
  }

  // Along the way a managed route leads where it led before or to an owner.
  lemma {:induction false} TargetAlong(
    before: map<Key, Route>, managed: seq<ManagedRoute>, owners: seq<string>, n: nat, m: ManagedRoute)
    requires |managed| == |owners| && n <= |managed| && Requestable(owners) && Described(before, managed)
    requires m in managed
    ensures KeyOf(m) in Installed(before, managed, owners, n)
    ensures RouteTo(RouteTarget(Installed(before, managed, owners, n)[KeyOf(m)])).Some?
  {
    if n > 0 {
      assert owners[n - 1] in owners;
      InstanceIsDescribed(owners[n - 1]);
      TargetAlong(before, managed, owners, n - 1, m);
    }
  }

  lemma SomeList(entries: map<string, Entry>) returns (list: seq<RollbackRoute>)
    ensures Lists(list, entries)
    decreases |entries|
  {
    if entries == map[] {
      list := [];
    } else {
      var t :| t in entries;
      var rest := entries - {t};
      assert rest.Keys < entries.Keys;
      var others := SomeList(rest);
      var last := RollbackRoute(t, entries[t].destination, entries[t].target);
      list := others + [last];
      assert list[|others|] == last;
      forall u | u in entries
        ensures RollbackRoute(u, entries[u].destination, entries[u].target) in list
      {
        assert u == t || u in rest;
      }
    }
  }

  // Whatever the routes were, whatever became of them, and in whatever order the entries are restored.
  ghost predicate AlwaysUndone(managed: seq<ManagedRoute>, owners: seq<string>)
    requires |managed| == |owners|
  {
    forall before, between, list ::
      Described(before, managed) && Lists(list, Stored(before, managed, owners)) ==>
      Undone(before, Restored(between, list, {}, |list|), managed, {})
  }

  lemma SometimesNotUndone(managed: seq<ManagedRoute>, owners: seq<string>)
    requires |managed| == |owners| && Requestable(owners) && !TablesDistinct(managed)
    ensures !AlwaysUndone(managed, owners)
  {
    var i, k :| 0 <= i < k < |managed| && managed[i].table == managed[k].table;
    var before: map<Key, Route> := map m | m in managed :: KeyOf(m) := NOWHERE.(natGateway := Some("nat-1"));
    assert "nat-1"[..4] == "nat-" && "nat-1"[..2] == "na";
    var list := SomeList(Stored(before, managed, owners));
    NamedTwiceIsLost(before, managed, owners, list, i);
  }

  /** Rolling back always undoes the installation exactly when no route table is named twice. */
  lemma AlwaysUndoneIffTablesDistinct(managed: seq<ManagedRoute>, owners: seq<string>)
    requires |managed| == |owners| && forall o :: o in owners ==> "i-" <= o
    ensures AlwaysUndone(managed, owners) <==>
            forall i, j :: 0 <= i < j < |managed| ==> managed[i].table != managed[j].table
  {
    assert Requestable(owners);
    if TablesDistinct(managed) {
      forall before, between, list | Described(before, managed) && Lists(list, Stored(before, managed, owners))
        ensures Undone(before, Restored(between, list, {}, |list|), managed, {})
      {
        RollbackRestores(before, between, managed, owners, list, {});
      }
    } else {
      SometimesNotUndone(managed, owners);
    }
  }

  // What is written down for a table is a managed route with the target it had before.
  lemma StoredIsManaged(before: map<Key, Route>, managed: seq<ManagedRoute>, owners: seq<string>, table: string)
    requires |managed| == |owners| && TablesDistinct(managed) && Described(before, managed)
    requires AllInstallable(before, managed) && table in Stored(before, managed, owners)
    ensures var entry := Stored(before, managed, owners)[table];
              Complete(table, entry) && exists m :: m in managed && IsWrittenFor(m, before, table, entry)
  {
    var targets := Snapshot(before, managed, owners, |managed|);
    EntriesAreManaged(managed, targets, |managed|, table);
    var i :| 0 <= i < |managed| && KeyOf(managed[i]) == (table, Stored(before, managed, owners)[table].destination);
    assert managed[i] in managed;
    SnapshotIsBefore(before, managed, owners, |managed|, i);
    EntryStored(managed, targets, |managed|, i);
    assert IsWrittenFor(managed[i], before, table, Stored(before, managed, owners)[table]);
  }

  predicate IsWrittenFor(m: ManagedRoute, before: map<Key, Route>, table: string, entry: Entry) {
    KeyOf(m) == (table, entry.destination) && KeyOf(m) in before && entry.target == RouteTarget(before[KeyOf(m)])
  }

  // No managed route led to a target that is gone and cannot be passed over.
  ghost predicate NoneStuck(before: map<Key, Route>, managed: seq<ManagedRoute>, gone: set<string>)
    requires Described(before, managed)
  {
    forall m :: m in managed && RouteTarget(before[KeyOf(m)]) in gone ==> PassedOver(RouteTarget(before[KeyOf(m)]))
  }

  lemma ListIsRestorableIff(
    before: map<Key, Route>, managed: seq<ManagedRoute>, owners: seq<string>,
    list: seq<RollbackRoute>, gone: set<string>)
    requires |managed| == |owners| && TablesDistinct(managed) && Described(before, managed)
    requires AllInstallable(before, managed) && Lists(list, Stored(before, managed, owners))
    ensures (forall r :: r in list ==> Restorable(r, gone)) <==> NoneStuck(before, managed, gone)
    ensures forall r :: r in list ==> exists m :: m in managed && KeyOf(m) == (r.table, r.destination)
  {
    var targets := Snapshot(before, managed, owners, |managed|);
    forall r | r in list
      ensures exists m :: m in managed && KeyOf(m) == (r.table, r.destination)
      ensures NoneStuck(before, managed, gone) ==> Restorable(r, gone)
    {
      StoredIsManaged(before, managed, owners, r.table);
      var m :| m in managed && IsWrittenFor(m, before, r.table, Stored(before, managed, owners)[r.table]);
    }
    if forall r :: r in list ==> Restorable(r, gone) {
      forall m | m in managed && RouteTarget(before[KeyOf(m)]) in gone
        ensures PassedOver(RouteTarget(before[KeyOf(m)]))
      {
        var i :| 0 <= i < |managed| && managed[i] == m;
        SnapshotIsBefore(before, managed, owners, |managed|, i);
        EntryOfLast(managed, targets, |managed|, i);
        assert RollbackRoute(m.table, m.destination, targets[m.table]) in list;
      }
    }
  }

  // Of the eight kinds those three are passed over.
  lemma PassedOverIff(target: string, prefix: string)
    requires prefix in PREFIXES && HasPrefix(target, prefix)
    ensures PassedOver(target) <==> prefix in {"i-", "eni-", "nat-"}
  {
    forall other | other in PREFIXES && HasPrefix(target, other)
      ensures other == prefix
    {
      OnePrefix(target, prefix, other);
    }
    assert PREFIXES[0] in PREFIXES && PREFIXES[1] in PREFIXES && PREFIXES[2] in PREFIXES;
  }

  /** A target that is gone and is not passed over stops the rollback: a gateway of one of five kinds, here behind the
      first route, so that none of the others is restored. */
  method MissingGatewayStopsRollback(tables: RouteTables, r: RollbackRoute, others: seq<RollbackRoute>)
    returns (ok: bool)
    requires exists prefix :: prefix in ["tgw-", "pcx-", "eigw-", "igw-", "vgw-"] && HasPrefix(r.target, prefix)
    requires r.target in tables.gone
    modifies tables
    ensures !ok && tables.routes == old(tables.routes)
  {
    var list := [r] + others;
    ghost var prefix :| prefix in ["tgw-", "pcx-", "eigw-", "igw-", "vgw-"] && HasPrefix(r.target, prefix);
    PassedOverIff(r.target, prefix);
    assert !Restorable(r, tables.gone);
    assert list[0] in list;
    ok := tables.RestoreRoutes(list);
    ghost var n :| 0 <= n < |list| && StoppedAt(tables.routes, old(tables.routes), list, tables.gone, n);
    if n > 0 {
      assert list[..n][0] == r;
    }
    assert Restored(old(tables.routes), list, tables.gone, 0) == old(tables.routes);
  }

  /** A gateway's life: its routes are installed, the agents and anyone else do as they please with the routes, and its
      removal rolls them back. When installing and rolling back both succeed and no table is named twice, every managed
      route whose old target still exists leads there again, and no other route is touched by the rollback. */
  method InstallThenRollBack(tables: RouteTables, name: string, instances: map<string, string>,
                             managed: seq<ManagedRoute>)
    returns (ok: bool, ghost installed: map<Key, Route>, ghost between: map<Key, Route>)
    modifies tables
    // In between every route led to its zone's instance, the one of the active name or else of the plain one.
    ensures ok ==> forall j :: 0 <= j < |managed| && LastOfKey(managed, j, |managed|) ==>
              var active, plain := name + "-" + managed[j].zone + "-active", name + "-" + managed[j].zone;
              LeadsTo(installed, KeyOf(managed[j]),
                      if active in instances && instances[active] != "" then instances[active]
                      else if plain in instances then instances[plain] else "")
    // Without faults, if the routes can be described and requested and nobody deletes one, both succeed exactly when
    // no old target that cannot be passed over is gone.
    ensures (tables.smooth && TablesDistinct(managed) && AllInstallable(old(tables.routes), managed)
             && Described(old(tables.routes), managed) && AllThere(Owners(name, instances, managed), tables.gone)
             && forall m :: m in managed ==> KeyOf(m) in between) ==>
      (ok <==> NoneStuck(old(tables.routes), managed, tables.gone))
    ensures ok && TablesDistinct(managed) ==>
              Described(old(tables.routes), managed) && Undone(old(tables.routes), tables.routes, managed, tables.gone)
    ensures ok && TablesDistinct(managed) ==> forall key ::
              key in between && (forall m :: m in managed ==> KeyOf(m) != key) ==>
                Leads(tables.routes, key, between[key])
  {
    ghost var before := tables.routes;
    var owners := Owners(name, instances, managed);
    between := tables.routes;
    var previous;
    ok, previous := tables.Install(name, instances, managed);
    installed := tables.routes;
    if !ok {
      return;
    }
    var entries := RollbackTargets(managed, previous);
    var elsewhere: map<Key, Route> := *;
    tables.routes := elsewhere;
    between := elsewhere;
    if TablesDistinct(managed) && AllInstallable(before, managed) && Described(before, managed) {
      forall t | t in entries
        ensures Complete(t, entries[t])
      {
        StoredIsManaged(before, managed, owners, t);
      }
    }
    var list := ParseRollbackRoutes(entries);
    if list.None? {
      return false, installed, between;
    }
    if TablesDistinct(managed) && AllInstallable(before, managed) && Described(before, managed) {
      ListIsRestorableIff(before, managed, owners, list.value, tables.gone);
    }
    ok := tables.RestoreRoutes(list.value);
    if ok && TablesDistinct(managed) {
      ReadAndRequestedIsDescribed(before, managed, owners, list.value);
      RollbackRestores(before, between, managed, owners, list.value, tables.gone);
    }
  }
}
