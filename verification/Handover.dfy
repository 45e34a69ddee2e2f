/** Planned handover of everything to a peer: the forward moves under a lease kept alive by renewals,
    and the way back (internal/ha/controller.go and controller_gcp.go). */
module Handover {
  import opened Common
  import opened Lease
  import opened World
  import opened Fencing
  import opened Controller

  // Handed over means, by the settings, that every listed route table leads to the target, and the shared address
  // is attached to it unless the cloud is GCP.
  lemma HandedOverMeans(cfg: Config, routes: map<RouteKey, string>, addresses: map<string, string>, target: string)
    requires target != "" && HandedOver(cfg, routes, addresses, target)
    ensures cfg.failoverMode == "replace_route" ==>
              forall id :: id in cfg.routeTableIDs ==>
                RouteKey(id, cfg.destinationCIDR) in routes && routes[RouteKey(id, cfg.destinationCIDR)] == target
    ensures cfg.identityMode == "shared_eip" && cfg.cloud != "gcp" ==>
              cfg.allocationID in addresses && addresses[cfg.allocationID] == target
  {
    OwnedIff(cfg.(identityMode := ""), routes, addresses, target);
  }

  // How a handover ended. Everything but Done is an error to the caller; Reverted alone sets the
  // result's reverted flag.
  datatype Ending =
    | Done(newLease: Record)
    | Declined               // nothing was moved
    | Reverted               // failed, and everything was put back
    | RevertFailed           // failed, and putting back failed as well
    | FencedOff              // the address failed to move and the lease was gone: no way back is tried
    | Stranded               // the address had moved when the route configuration proved unusable

  predicate ConnectivityFirst(cfg: Config) {
    cfg.cloud == "gcp" && cfg.SharedAddress()
  }

  // The address moves with a handover unless the routes go first.
  predicate MovesAddress(cfg: Config) {
    cfg.SharedAddress() && !ConnectivityFirst(cfg)
  }

  // Everything the handover moves is at the target.
  predicate HandedOver(cfg: Config, routes: map<RouteKey, string>, addresses: map<string, string>, target: string) {
    && Targets(cfg, target).Some?
    && AllAt(Targets(cfg, target).value, routes)
    && (MovesAddress(cfg) ==> HolderOf(addresses, cfg.allocationID) == target)
  }

  // ----- Keeping the lease while the cloud works -----

  // A renewal with up to four attempts.
  method RenewLeaseWithRetry(c: Controller, record: Record) returns (renewed: Option<Record>)
    requires record.owner != ""
    requires c.w.Valid()
    modifies c.w`now, c.w`lease, c.w`routes, c.w`addresses, c.w`operations
    ensures old(c.w.now) <= c.w.now && (c.w.smooth ==> c.w.now == old(c.w.now))
    ensures c.w.quiet ==> c.w.routes == old(c.w.routes) && c.w.addresses == old(c.w.addresses)
    ensures c.w.quiet ==> TenureOf(c.w.lease) == TenureOf(old(c.w.lease))
    ensures renewed.Some? ==> TenureOf(renewed.value) == TenureOf(record)
    ensures c.w.smooth && Live(old(c.w.lease), c.w.now) ==> Live(c.w.lease, c.w.now)
    ensures c.w.smooth && TenureOf(record) == TenureOf(old(c.w.lease)) && Live(old(c.w.lease), c.w.now) ==>
              renewed.Some?
  {
    for attempt := 0 to 4
      invariant old(c.w.now) <= c.w.now && (c.w.smooth ==> c.w.now == old(c.w.now))
      invariant c.w.quiet ==> c.w.routes == old(c.w.routes) && c.w.addresses == old(c.w.addresses)
      invariant c.w.quiet ==> TenureOf(c.w.lease) == TenureOf(old(c.w.lease))
      invariant c.w.smooth && Live(old(c.w.lease), c.w.now) ==> Live(c.w.lease, c.w.now)
      invariant c.w.smooth && TenureOf(record) == TenureOf(old(c.w.lease)) && Live(old(c.w.lease), c.w.now) ==>
                attempt == 0
    {
      if attempt > 0 {
        var awake := c.w.Sleep();
        if !awake {
          return None;
        }
      }
      var answer := c.w.Operate(Renew(record));
      if answer.Some? && answer.value.Granted? {
        return Some(answer.value.lease);
      }
      var retryable := *;
      if !retryable {
        return None;
      }
    }
    return None;
  }

  // Check, renew, check again.
  method RenewLeaseFence(c: Controller, record: Record, local: string, ghost from: nat)
    returns (renewed: Option<Record>)
    requires c.w.Valid() && record.owner == local != "" && from <= |c.w.history|
    requires Fenced(c.w.history, from, TenureOf(record))
    modifies c.w`now, c.w`lease, c.w`routes, c.w`addresses, c.w`history, c.w`operations
    ensures old(c.w.now) <= c.w.now && (c.w.smooth ==> c.w.now == old(c.w.now))
    ensures old(c.w.history) <= c.w.history && Fenced(c.w.history, from, TenureOf(record))
    ensures c.w.quiet ==> c.w.routes == old(c.w.routes) && c.w.addresses == old(c.w.addresses)
    ensures c.w.quiet ==> TenureOf(c.w.lease) == TenureOf(old(c.w.lease))
    ensures renewed.Some? ==>
              TenureOf(renewed.value) == TenureOf(record) == TenureOf(c.w.lease) && Live(c.w.lease, c.w.now)
    ensures renewed.Some? ==> Armed(c.w.history, from, TenureOf(record))
    ensures c.w.smooth && TenureOf(record) == TenureOf(old(c.w.lease)) && Live(old(c.w.lease), c.w.now) ==>
              renewed.Some?
  {
    var ok := c.VerifyLease(record, local, from);
    if !ok {
      return None;
    }
    renewed := RenewLeaseWithRetry(c, record);
    if renewed.None? {
      return None;
    }
    ok := c.VerifyLease(renewed.value, local, from);
    if !ok {
      return None;
    }
  }

  // The heartbeat's renewals up to some instant: any number of them, until one fails.
  method Heartbeat(c: Controller, record: Record) returns (latest: Record, alive: bool)
    requires record.owner != ""
    requires c.w.Valid()
    modifies c.w`now, c.w`lease, c.w`routes, c.w`addresses, c.w`operations
    ensures old(c.w.now) <= c.w.now && (c.w.smooth ==> c.w.now == old(c.w.now))
    ensures c.w.quiet ==> c.w.routes == old(c.w.routes) && c.w.addresses == old(c.w.addresses)
    ensures c.w.quiet ==> TenureOf(c.w.lease) == TenureOf(old(c.w.lease))
    ensures TenureOf(latest) == TenureOf(record)
    ensures c.w.smooth && Live(old(c.w.lease), c.w.now) ==> Live(c.w.lease, c.w.now)
    ensures c.w.smooth && TenureOf(record) == TenureOf(old(c.w.lease)) && Live(old(c.w.lease), c.w.now) ==> alive
  {
    latest, alive := record, true;
    var beats: int :| 0 <= beats;
    while beats > 0 && alive
      invariant old(c.w.now) <= c.w.now && (c.w.smooth ==> c.w.now == old(c.w.now))
      invariant c.w.quiet ==> c.w.routes == old(c.w.routes) && c.w.addresses == old(c.w.addresses)
      invariant c.w.quiet ==> TenureOf(c.w.lease) == TenureOf(old(c.w.lease))
      invariant TenureOf(latest) == TenureOf(record)
      invariant c.w.smooth && Live(old(c.w.lease), c.w.now) ==> Live(c.w.lease, c.w.now)
      invariant c.w.smooth && TenureOf(record) == TenureOf(old(c.w.lease)) && Live(old(c.w.lease), c.w.now) ==> alive
      decreases beats
    {
      var renewed := RenewLeaseWithRetry(c, latest);
      if renewed.None? {
        alive := false;
      } else {
        latest := renewed.value;
      }
      beats := beats - 1;
    }
  }

  // One cloud change with the heartbeat beside it: renewals before and after the instant of the
  // change. A failed renewal cancels the change and decides the answer.
  method MaintainLeaseDuring(c: Controller, record: Record, m: Mutation, ghost from: nat)
    returns (latest: Record, ok: bool)
    requires record.owner != ""
    requires c.w.Valid() && from <= |c.w.history|
    requires Fenced(c.w.history, from, TenureOf(record)) && Armed(c.w.history, from, TenureOf(record))
    modifies c.w`now, c.w`lease, c.w`routes, c.w`addresses, c.w`history, c.w`operations, c.w`calls
    ensures c.w.Valid() && old(c.w.now) <= c.w.now && (c.w.smooth ==> c.w.now == old(c.w.now))
    ensures old(c.w.history) <= c.w.history && Fenced(c.w.history, from, TenureOf(record))
    ensures c.w.quiet ==> TenureOf(c.w.lease) == TenureOf(old(c.w.lease))
    ensures c.w.quiet ==>
              (c.w.routes == Routed(old(c.w.routes), m) && c.w.addresses == Addressed(old(c.w.addresses), m))
                          || (!ok && c.w.routes == old(c.w.routes) && c.w.addresses == old(c.w.addresses))
    ensures c.w.calls == old(c.w.calls) + [m]
    ensures TenureOf(latest) == TenureOf(record)
    ensures c.w.smooth && TenureOf(record) == TenureOf(old(c.w.lease)) && Live(old(c.w.lease), c.w.now) ==>
              ok && Live(c.w.lease, c.w.now)
  {
    var alive;
    latest, alive := Heartbeat(c, record);
    ghost var before := c.w.history;
    ok := c.w.Change(m);
    Append(before, CloudCall(c.w.lease, Forward, m), from, TenureOf(record));
    if alive {
      latest, alive := Heartbeat(c, latest);
    }
    ok := ok && alive;
  }

  // ----- The forward moves -----

  // The change was attempted again and again, so many times at most.
  predicate Repeated(before: seq<Mutation>, after: seq<Mutation>, m: Mutation, limit: nat) {
    before <= after && |after| - |before| <= limit && forall k :: |before| <= k < |after| ==> after[k] == m
  }

  // One attempt at a forward move: it is there, it may be tried again, or the handover is off.
  datatype Attempt = Moved(lease: Record) | Again(lease: Record) | Off(lease: Record)

  method AssociateOnce(c: Controller, target: string, local: string, record: Record, ghost from: nat)
    returns (attempt: Attempt)
    requires c.w.Valid() && record.owner == local != "" && from <= |c.w.history|
    requires Fenced(c.w.history, from, TenureOf(record))
    modifies c.w`now, c.w`lease, c.w`routes, c.w`addresses, c.w`history, c.w`operations, c.w`calls
    ensures c.w.Valid() && old(c.w.now) <= c.w.now && (c.w.smooth ==> c.w.now == old(c.w.now))
    ensures old(c.w.history) <= c.w.history && Fenced(c.w.history, from, TenureOf(record))
    ensures c.w.quiet ==> TenureOf(c.w.lease) == TenureOf(old(c.w.lease)) && c.w.routes == old(c.w.routes)
    ensures TenureOf(attempt.lease) == TenureOf(record)
    ensures c.w.quiet && attempt.Moved? ==> HolderOf(c.w.addresses, c.cfg.allocationID) == target
    ensures c.w.calls in {old(c.w.calls), old(c.w.calls) + [MoveAddress(c.cfg.allocationID, target)]}
    ensures !attempt.Off? ==> c.w.calls != old(c.w.calls)
    ensures c.w.smooth && TenureOf(record) == TenureOf(old(c.w.lease)) && Live(old(c.w.lease), c.w.now) ==>
              attempt.Moved? && Live(c.w.lease, c.w.now)
  {
    var renewed := RenewLeaseFence(c, record, local, from);
    if renewed.None? {
      return Off(record);
    }
    var latest, ok := MaintainLeaseDuring(c, renewed.value, MoveAddress(c.cfg.allocationID, target), from);
    if ok {
      ok := c.VerifyLeaseFence(latest, local, from);
      return if ok then Moved(latest) else Off(latest);
    }
    var actual := c.w.DescribeAddress(c.cfg.allocationID);
    return if actual.Ok? && actual.value == target then Moved(latest) else Again(latest);
  }

  method AssociatePublicIdentity(c: Controller, target: string, local: string, record: Record, ghost from: nat)
    returns (latest: Record, ok: bool)
    requires c.w.Valid() && record.owner == local != "" && from <= |c.w.history|
    requires Fenced(c.w.history, from, TenureOf(record))
    modifies c.w`now, c.w`lease, c.w`routes, c.w`addresses, c.w`history, c.w`operations, c.w`calls
    ensures c.w.Valid() && old(c.w.now) <= c.w.now && (c.w.smooth ==> c.w.now == old(c.w.now))
    ensures old(c.w.history) <= c.w.history && Fenced(c.w.history, from, TenureOf(record))
    ensures c.w.quiet ==> TenureOf(c.w.lease) == TenureOf(old(c.w.lease)) && c.w.routes == old(c.w.routes)
    ensures TenureOf(latest) == TenureOf(record)
    ensures c.w.quiet && ok ==> HolderOf(c.w.addresses, c.cfg.allocationID) == target
    ensures Repeated(old(c.w.calls), c.w.calls, MoveAddress(c.cfg.allocationID, target), 4)
    ensures ok ==> c.w.calls != old(c.w.calls)
    ensures c.w.smooth && TenureOf(record) == TenureOf(old(c.w.lease)) && Live(old(c.w.lease), c.w.now) ==>
              ok && Live(c.w.lease, c.w.now)
  {
    latest := record;
    for tries := 0 to 4
      invariant old(c.w.now) <= c.w.now && (c.w.smooth ==> c.w.now == old(c.w.now))
      invariant old(c.w.history) <= c.w.history && Fenced(c.w.history, from, TenureOf(record))
      invariant c.w.quiet ==> TenureOf(c.w.lease) == TenureOf(old(c.w.lease)) && c.w.routes == old(c.w.routes)
      invariant Repeated(old(c.w.calls), c.w.calls, MoveAddress(c.cfg.allocationID, target), tries)
      invariant TenureOf(latest) == TenureOf(record)
      invariant c.w.smooth && TenureOf(record) == TenureOf(old(c.w.lease)) && Live(old(c.w.lease), c.w.now) ==>
                tries == 0 && Live(c.w.lease, c.w.now)
    {
      if tries > 0 {
        var awake := c.w.Sleep();
        if !awake {
          return latest, false;
        }
      }
      var attempt := AssociateOnce(c, target, local, latest, from);
      latest := attempt.lease;
      if !attempt.Again? {
        return latest, attempt.Moved?;
      }
    }
    return latest, false;
  }

  method ReplaceRouteOnce(c: Controller, route: RouteTarget, local: string, record: Record, ghost from: nat)
    returns (attempt: Attempt)
    requires c.w.Valid() && record.owner == local != "" && from <= |c.w.history|
    requires Fenced(c.w.history, from, TenureOf(record))
    modifies c.w`now, c.w`lease, c.w`routes, c.w`addresses, c.w`history, c.w`operations, c.w`calls
    ensures c.w.Valid() && old(c.w.now) <= c.w.now && (c.w.smooth ==> c.w.now == old(c.w.now))
    ensures old(c.w.history) <= c.w.history && Fenced(c.w.history, from, TenureOf(record))
    ensures c.w.quiet ==> TenureOf(c.w.lease) == TenureOf(old(c.w.lease)) && c.w.addresses == old(c.w.addresses)
    ensures c.w.quiet ==> c.w.routes == old(c.w.routes) || c.w.routes == Routed(old(c.w.routes), MoveRoute(route))
    ensures c.w.quiet && attempt.Moved? ==> !Drifted(route, c.w.routes)
    ensures c.w.calls in {old(c.w.calls), old(c.w.calls) + [MoveRoute(route)]}
    ensures !attempt.Off? ==> c.w.calls != old(c.w.calls)
    ensures TenureOf(attempt.lease) == TenureOf(record)
    ensures c.w.smooth && TenureOf(record) == TenureOf(old(c.w.lease)) && Live(old(c.w.lease), c.w.now) ==>
              attempt.Moved? && Live(c.w.lease, c.w.now)
  {
    var renewed := RenewLeaseFence(c, record, local, from);
    if renewed.None? {
      return Off(record);
    }
    var latest, ok := MaintainLeaseDuring(c, renewed.value, MoveRoute(route), from);
    var fenced := c.VerifyLeaseFence(latest, local, from);
    if !fenced {
      return Off(latest);
    }
    var actual := c.w.DescribeRoute(route.key);
    return if actual.Ok? && actual.value == route.target then Moved(latest) else Again(latest);
  }

  method ReplaceRoute(c: Controller, route: RouteTarget, local: string, record: Record, ghost from: nat)
    returns (latest: Option<Record>)
    requires c.w.Valid() && record.owner == local != "" && from <= |c.w.history|
    requires Fenced(c.w.history, from, TenureOf(record))
    modifies c.w`now, c.w`lease, c.w`routes, c.w`addresses, c.w`history, c.w`operations, c.w`calls
    ensures c.w.Valid() && old(c.w.now) <= c.w.now && (c.w.smooth ==> c.w.now == old(c.w.now))
    ensures old(c.w.history) <= c.w.history && Fenced(c.w.history, from, TenureOf(record))
    ensures c.w.quiet ==> TenureOf(c.w.lease) == TenureOf(old(c.w.lease)) && c.w.addresses == old(c.w.addresses)
    ensures c.w.quiet ==> c.w.routes == old(c.w.routes) || c.w.routes == Routed(old(c.w.routes), MoveRoute(route))
    ensures c.w.quiet && latest.Some? ==> !Drifted(route, c.w.routes)
    ensures Repeated(old(c.w.calls), c.w.calls, MoveRoute(route), 4)
    ensures latest.Some? ==> c.w.calls != old(c.w.calls)
    ensures latest.Some? ==> TenureOf(latest.value) == TenureOf(record)
    ensures c.w.smooth && TenureOf(record) == TenureOf(old(c.w.lease)) && Live(old(c.w.lease), c.w.now) ==>
              latest.Some? && Live(c.w.lease, c.w.now)
  {
    var current := record;
    for tries := 0 to 4
      invariant old(c.w.now) <= c.w.now && (c.w.smooth ==> c.w.now == old(c.w.now))
      invariant old(c.w.history) <= c.w.history && Fenced(c.w.history, from, TenureOf(record))
      invariant c.w.quiet ==> TenureOf(c.w.lease) == TenureOf(old(c.w.lease)) && c.w.addresses == old(c.w.addresses)
      invariant c.w.quiet ==> c.w.routes == old(c.w.routes) || c.w.routes == Routed(old(c.w.routes), MoveRoute(route))
      invariant Repeated(old(c.w.calls), c.w.calls, MoveRoute(route), tries)
      invariant TenureOf(current) == TenureOf(record)
      invariant c.w.smooth && TenureOf(record) == TenureOf(old(c.w.lease)) && Live(old(c.w.lease), c.w.now) ==>
                tries == 0 && Live(c.w.lease, c.w.now)
    {
      if tries > 0 {
        var awake := c.w.Sleep();
        if !awake {
          return None;
        }
      }
      var attempt := ReplaceRouteOnce(c, route, local, current, from);
      if attempt.Off? {
        return None;
      }
      current := attempt.lease;
      if attempt.Moved? {
        return Some(current);
      }
    }
    return None;
  }

  // Only these routes were moved, and all of them if they are said to be.
  predicate RoutesTried(before: seq<Mutation>, after: seq<Mutation>, routes: seq<RouteTarget>, all: bool) {
    && before <= after
    && (forall k :: |before| <= k < |after| ==> after[k].MoveRoute? && after[k].route in routes)
    && (all ==> forall r :: r in routes ==> MoveRoute(r) in after[|before|..])
  }

  lemma TriedOneMore(before: seq<Mutation>, between: seq<Mutation>, after: seq<Mutation>, routes: seq<RouteTarget>,
                     i: nat)
    requires i < |routes| && RoutesTried(before, between, routes[..i], true)
    requires Repeated(between, after, MoveRoute(routes[i]), 4)
    ensures RoutesTried(before, after, routes, false)
    ensures after != between ==> RoutesTried(before, after, routes[..i + 1], true)
  {
    assert before <= after;
    forall k | |before| <= k < |after|
      ensures after[k].MoveRoute? && after[k].route in routes[..i + 1]
    {
      if k < |between| {
        assert after[k] == between[k];
        assert between[k].route in routes[..i];
      }
    }
    if after != between {
      forall r | r in routes[..i + 1]
        ensures MoveRoute(r) in after[|before|..]
      {
        if r in routes[..i] {
          var k :| 0 <= k < |between| - |before| && between[|before|..][k] == MoveRoute(r);
          assert after[|before|..][k] == MoveRoute(r);
        } else {
          assert after[|before|..][|between| - |before|] == MoveRoute(r);
        }
      }
    }
  }

  // Moves the listed routes one after the other.
  method ReplaceRoutes(c: Controller, routes: seq<RouteTarget>, target: string, local: string, record: Record,
                       ghost from: nat)
    returns (latest: Option<Record>)
    requires c.w.Valid() && record.owner == local != "" && from <= |c.w.history|
    requires Fenced(c.w.history, from, TenureOf(record))
    requires forall t :: t in routes ==> t.target == target
    modifies c.w`now, c.w`lease, c.w`routes, c.w`addresses, c.w`history, c.w`operations, c.w`calls
    ensures c.w.Valid() && old(c.w.now) <= c.w.now && (c.w.smooth ==> c.w.now == old(c.w.now))
    ensures old(c.w.history) <= c.w.history && Fenced(c.w.history, from, TenureOf(record))
    ensures c.w.quiet ==> TenureOf(c.w.lease) == TenureOf(old(c.w.lease)) && c.w.addresses == old(c.w.addresses)
    ensures c.w.quiet && latest.Some? ==> AllAt(routes, c.w.routes)
    ensures RoutesTried(old(c.w.calls), c.w.calls, routes, latest.Some?)
    ensures latest.Some? ==> TenureOf(latest.value) == TenureOf(record)
    ensures c.w.smooth && TenureOf(record) == TenureOf(old(c.w.lease)) && Live(old(c.w.lease), c.w.now) ==>
              latest.Some? && Live(c.w.lease, c.w.now)
  {
    latest := Some(record);
    for i := 0 to |routes|
      invariant old(c.w.now) <= c.w.now && (c.w.smooth ==> c.w.now == old(c.w.now))
      invariant old(c.w.history) <= c.w.history && Fenced(c.w.history, from, TenureOf(record))
      invariant c.w.quiet ==> TenureOf(c.w.lease) == TenureOf(old(c.w.lease)) && c.w.addresses == old(c.w.addresses)
      invariant c.w.quiet ==> AllAt(routes[..i], c.w.routes)
      invariant RoutesTried(old(c.w.calls), c.w.calls, routes, false)
      invariant RoutesTried(old(c.w.calls), c.w.calls, routes[..i], true)
      invariant latest.Some? && TenureOf(latest.value) == TenureOf(record)
      invariant c.w.smooth && TenureOf(record) == TenureOf(old(c.w.lease)) && Live(old(c.w.lease), c.w.now) ==>
                Live(c.w.lease, c.w.now)
    {
      ghost var before := c.w.calls;
      latest := ReplaceRoute(c, routes[i], local, latest.value, from);
      TriedOneMore(old(c.w.calls), before, c.w.calls, routes, i);
      if latest.None? {
        return;
      }
      assert routes[..i + 1] == routes[..i] + [routes[i]];
    }
    assert routes[..|routes|] == routes;
  }

  // Reads back the routes and, if asked to, the address.
  method VerifyTargetOwnership(c: Controller, target: string, routes: seq<RouteTarget>, address: bool)
    returns (ok: bool)
    requires c.w.Valid()
    modifies c.w`now, c.w`lease, c.w`routes, c.w`addresses
    ensures old(c.w.now) <= c.w.now && (c.w.smooth ==> c.w.now == old(c.w.now))
    ensures c.w.quiet ==>
              c.w.lease == old(c.w.lease) && c.w.routes == old(c.w.routes) && c.w.addresses == old(c.w.addresses)
    ensures c.w.quiet && ok ==>
              (forall t :: t in routes ==> t.key in c.w.routes && c.w.routes[t.key] == target)
              && (address ==> HolderOf(c.w.addresses, c.cfg.allocationID) == target)
    ensures (c.w.smooth && AllAt(routes, c.w.routes) && (forall t :: t in routes ==> t.target == target)
             && (address ==> HolderOf(c.w.addresses, c.cfg.allocationID) == target)) ==> ok
  {
    for i := 0 to |routes|
      invariant old(c.w.now) <= c.w.now && (c.w.smooth ==> c.w.now == old(c.w.now))
      invariant c.w.quiet ==>
                c.w.lease == old(c.w.lease) && c.w.routes == old(c.w.routes) && c.w.addresses == old(c.w.addresses)
      invariant c.w.quiet ==>
                forall k :: 0 <= k < i ==> routes[k].key in c.w.routes && c.w.routes[routes[k].key] == target
    {
      var actual := c.w.DescribeRoute(routes[i].key);
      if !(actual.Ok? && actual.value == target) {
        return false;
      }
    }
    if address {
      var holder := c.w.DescribeAddress(c.cfg.allocationID);
      if !(holder.Ok? && holder.value == target) {
        return false;
      }
    }
    return true;
  }

  // ----- The way back -----

  // Puts the address and every route back at local; the first error ends it.
  method RevertHandover(c: Controller, local: string, ghost from: nat, ghost t: Tenure) returns (ending: Ending)
    requires c.w.Valid() && from <= |c.w.history| && Fenced(c.w.history, from, t)
    modifies c.w`now, c.w`lease, c.w`routes, c.w`addresses, c.w`history, c.w`reverts
    ensures c.w.Valid() && old(c.w.now) <= c.w.now && (c.w.smooth ==> c.w.now == old(c.w.now))
    ensures old(c.w.history) <= c.w.history && Fenced(c.w.history, from, t)
    ensures ending == Reverted || ending == RevertFailed
    ensures c.w.quiet ==> c.w.lease == old(c.w.lease)
    // The address first, then each route once and in order; all of them on success.
    ensures Attempted(old(c.w.reverts), c.w.reverts, Moves(c.cfg, local))
    ensures ending.Reverted? ==> c.w.reverts == old(c.w.reverts) + Moves(c.cfg, local)
    ensures c.w.quiet && ending.Reverted? ==> OwnedBy(c.cfg, c.w.routes, c.w.addresses, local)
    ensures c.w.smooth ==> (ending.Reverted? <==> Targets(c.cfg, local).Some?)
  {
    if c.cfg.SharedAddress() {
      ghost var before := c.w.history;
      var ok := c.w.PutBack(MoveAddress(c.cfg.allocationID, local));
      Append(before, CloudCall(c.w.lease, Revert, MoveAddress(c.cfg.allocationID, local)), from, t);
      if !ok {
        return RevertFailed;
      }
    }
    ghost var reverts := c.w.reverts;
    var routes := c.RouteTargets(local);
    if routes.None? {
      return RevertFailed;
    }
    var ok := RevertRoutes(c, routes.value, local, from, t);
    AttemptsJoin(old(c.w.reverts), reverts, c.w.reverts, AddressMoves(c.cfg, local), RouteMoves(routes.value));
    return if ok then Reverted else RevertFailed;
  }

  method RevertRoutes(c: Controller, routes: seq<RouteTarget>, local: string, ghost from: nat, ghost t: Tenure)
    returns (ok: bool)
    requires c.w.Valid() && from <= |c.w.history| && Fenced(c.w.history, from, t)
    requires forall r :: r in routes ==> r.target == local
    modifies c.w`now, c.w`lease, c.w`routes, c.w`addresses, c.w`history, c.w`reverts
    ensures c.w.Valid() && old(c.w.now) <= c.w.now && (c.w.smooth ==> c.w.now == old(c.w.now) && ok)
    ensures old(c.w.history) <= c.w.history && Fenced(c.w.history, from, t)
    ensures Attempted(old(c.w.reverts), c.w.reverts, RouteMoves(routes))
    ensures ok ==> c.w.reverts == old(c.w.reverts) + RouteMoves(routes)
    ensures c.w.quiet ==> c.w.lease == old(c.w.lease) && c.w.addresses == old(c.w.addresses)
    ensures c.w.quiet && ok ==> AllAt(routes, c.w.routes)
  {
    for i := 0 to |routes|
      invariant old(c.w.now) <= c.w.now && (c.w.smooth ==> c.w.now == old(c.w.now))
      invariant old(c.w.history) <= c.w.history && Fenced(c.w.history, from, t)
      invariant c.w.reverts == old(c.w.reverts) + RouteMoves(routes[..i])
      invariant c.w.quiet ==> c.w.lease == old(c.w.lease) && c.w.addresses == old(c.w.addresses)
      invariant c.w.quiet ==> AllAt(routes[..i], c.w.routes)
    {
      NextRouteMove(old(c.w.reverts), routes, i);
      ghost var before := c.w.history;
      ok := c.w.PutBack(MoveRoute(routes[i]));
      Append(before, CloudCall(c.w.lease, Revert, MoveRoute(routes[i])), from, t);
      if !ok {
        return;
      }
      assert routes[..i + 1] == routes[..i] + [routes[i]];
    }
    assert routes[..|routes|] == routes;
    ok := true;
  }

  // ----- The handover -----

  // What a handover leaves behind when nobody else acts: who has the lease and the cloud afterwards.
  ghost predicate Settled(c: Controller, ending: Ending, t: Tenure, target: string, local: string)
    reads c.w
  {
    match ending
    case Done(newLease) =>
      && HandedOver(c.cfg, c.w.routes, c.w.addresses, target)
      && c.w.lease == newLease && TenureOf(c.w.lease) == Tenure(target, NextGeneration(t.generation))
    case Declined => TenureOf(c.w.lease) == t
    case Reverted => TenureOf(c.w.lease) == t && OwnedBy(c.cfg, c.w.routes, c.w.addresses, local)
    case RevertFailed => TenureOf(c.w.lease) == t
    case FencedOff => TenureOf(c.w.lease) == t
    case Stranded =>
      && TenureOf(c.w.lease) == t && Targets(c.cfg, target).None?
      && MovesAddress(c.cfg) && HolderOf(c.w.addresses, c.cfg.allocationID) == target
  }

  // Moves the routes, reads everything back, renews a last time and transfers the lease; None as soon as a step fails.
  method MoveAndTransfer(c: Controller, routes: seq<RouteTarget>, address: bool, target: string, local: string,
                         record: Record, ghost from: nat)
    returns (newLease: Option<Record>)
    requires c.w.Valid() && record.owner == local != "" && target != ""
    requires from <= |c.w.history| && Fenced(c.w.history, from, TenureOf(record))
    requires Targets(c.cfg, target) == Some(routes) && address == MovesAddress(c.cfg)
    requires c.w.quiet ==> TenureOf(c.w.lease) == TenureOf(record)
    requires c.w.quiet && address ==> HolderOf(c.w.addresses, c.cfg.allocationID) == target
    modifies c.w`now, c.w`lease, c.w`routes, c.w`addresses, c.w`history, c.w`operations, c.w`calls
    ensures c.w.Valid() && old(c.w.now) <= c.w.now
    ensures old(c.w.history) <= c.w.history && Fenced(c.w.history, from, TenureOf(record))
    ensures c.w.quiet && newLease.None? ==> TenureOf(c.w.lease) == TenureOf(record)
    ensures c.w.quiet && newLease.Some? ==> Settled(c, Done(newLease.value), TenureOf(record), target, local)
    ensures RoutesTried(old(c.w.calls), c.w.calls, routes, newLease.Some?)
    ensures c.w.quiet ==> c.w.addresses == old(c.w.addresses)
    ensures c.w.smooth && Live(old(c.w.lease), old(c.w.now)) && c.w.terms.Room(old(c.w.lease)) ==> newLease.Some?
  {
    var latest := ReplaceRoutes(c, routes, target, local, record, from);
    if latest.None? {
      return None;
    }
    var seen := VerifyTargetOwnership(c, target, routes, address);
    if !seen {
      return None;
    }
    latest := RenewLeaseFence(c, latest.value, local, from);
    if latest.None? {
      return None;
    }
    var answer := c.w.Operate(Transfer(latest.value, target));
    if answer.None? || !answer.value.Granted? {
      return None;
    }
    return Some(answer.value.lease);
  }

  // Nothing was put back, or everything in order, all of it when the ending says so.
  predicate PutBackAs(c: Controller, ending: Ending, local: string, before: seq<Mutation>, after: seq<Mutation>) {
    match ending
    case Reverted => after == before + Moves(c.cfg, local)
    case RevertFailed => Attempted(before, after, Moves(c.cfg, local))
    case _ => after == before
  }

  // From the moved routes to the transferred lease, shared by both orders of moving; every failure is reverted.
  method CommitHandover(c: Controller, routes: seq<RouteTarget>, address: bool, target: string, local: string,
                        record: Record, ghost from: nat)
    returns (ending: Ending)
    requires c.w.Valid() && record.owner == local != "" && target != ""
    requires from <= |c.w.history| && Fenced(c.w.history, from, TenureOf(record))
    requires Targets(c.cfg, target) == Some(routes) && address == MovesAddress(c.cfg)
    requires c.w.quiet ==> TenureOf(c.w.lease) == TenureOf(record)
    requires c.w.quiet && address ==> HolderOf(c.w.addresses, c.cfg.allocationID) == target
    modifies c.w
    ensures c.w.Valid() && old(c.w.now) <= c.w.now
    ensures old(c.w.history) <= c.w.history && Fenced(c.w.history, from, TenureOf(record))
    ensures ending.Done? || ending.Reverted? || ending.RevertFailed?
    ensures RoutesTried(old(c.w.calls), c.w.calls, routes, ending.Done?)
    ensures PutBackAs(c, ending, local, old(c.w.reverts), c.w.reverts)
    ensures c.w.quiet && ending.Done? ==> c.w.addresses == old(c.w.addresses)
    ensures c.w.quiet ==> Settled(c, ending, TenureOf(record), target, local)
    ensures c.w.smooth && Live(old(c.w.lease), old(c.w.now)) && c.w.terms.Room(old(c.w.lease)) ==> ending.Done?
  {
    var newLease := MoveAndTransfer(c, routes, address, target, local, record, from);
    if newLease.Some? {
      return Done(newLease.value);
    }
    ending := RevertHandover(c, local, from, TenureOf(record));
  }

  // The calls are for the handover: the address first, unless it is not shared or the cloud is GCP, and then routes of
  // listed tables.
  predicate MadeFor(cfg: Config, target: string, before: seq<Mutation>, after: seq<Mutation>) {
    && before <= after
    && (forall k :: |before| <= k < |after| ==>
          match after[k]
          case MoveAddress(allocation, to) =>
            cfg.identityMode == "shared_eip" && cfg.cloud != "gcp" && allocation == cfg.allocationID && to == target
          case MoveRoute(route) =>
            route.key.table in cfg.routeTableIDs && route.key.cidr == cfg.destinationCIDR && route.target == target)
    && (forall i, j :: |before| <= i < j < |after| && after[i].MoveRoute? ==> after[j].MoveRoute?)
    && (cfg.identityMode == "shared_eip" && cfg.cloud != "gcp" && |before| < |after| ==> after[|before|].MoveAddress?)
  }

  // and leave nothing out.
  predicate AllMade(cfg: Config, target: string, before: seq<Mutation>, after: seq<Mutation>)
    requires before <= after
  {
    && (cfg.failoverMode != "" ==>
          forall id :: id in cfg.routeTableIDs ==>
            MoveRoute(RouteTarget(RouteKey(id, cfg.destinationCIDR), target)) in after[|before|..])
    && (cfg.identityMode == "shared_eip" && cfg.cloud != "gcp" ==>
          MoveAddress(cfg.allocationID, target) in after[|before|..])
  }

  // Address calls and then route calls are a handover's calls.
  lemma TriedIsMade(cfg: Config, target: string, routes: seq<RouteTarget>,
                    before: seq<Mutation>, between: seq<Mutation>, after: seq<Mutation>, all: bool)
    requires Targets(cfg, target) == Some(routes) && RoutesTried(between, after, routes, all)
    requires if cfg.identityMode == "shared_eip" && cfg.cloud != "gcp"
             then Repeated(before, between, MoveAddress(cfg.allocationID, target), 4) && between != before
             else between == before
    ensures MadeFor(cfg, target, before, after)
    ensures all ==> AllMade(cfg, target, before, after)
  {
    TargetsListTables(cfg, target);
    assert before <= after;
    forall k | |before| <= k < |between|
      ensures after[k] == MoveAddress(cfg.allocationID, target)
    {
      assert after[k] == between[k];
    }
    if between != before {
      assert after[|before|..][0] == MoveAddress(cfg.allocationID, target);
    }
    if all && cfg.failoverMode != "" {
      forall id | id in cfg.routeTableIDs
        ensures MoveRoute(RouteTarget(RouteKey(id, cfg.destinationCIDR), target)) in after[|before|..]
      {
        var i :| 0 <= i < |cfg.routeTableIDs| && cfg.routeTableIDs[i] == id;
        assert routes[i] in routes;
        var k :| 0 <= k < |after| - |between| && after[|between|..][k] == MoveRoute(routes[i]);
        assert after[|before|..][|between| - |before| + k] == MoveRoute(routes[i]);
      }
    }
  }

  // What a handover demands of its arguments and settings before it touches anything.
  predicate Acceptable(cfg: Config, local: string, target: string) {
    cfg.enabled && NodeResolved(local) && NodeResolved(target) && local != target
  }

  /** Hands everything to target. t is the tenure the handover runs under. */
  method Run(c: Controller, local: string, target: string, given: Record) returns (ending: Ending, ghost t: Tenure)
    requires c.w.Valid()
    modifies c.w
    ensures c.w.Valid() && old(c.w.now) <= c.w.now
    // Fenced: reverting aside, at most one change once the lease is lost.
    ensures old(c.w.history) <= c.w.history && Fenced(c.w.history, |old(c.w.history)|, t)
    ensures OneLateCallAtMost(c.w.history, |old(c.w.history)|, t)
    ensures given.owner != "" ==> t == TenureOf(given)
    ensures !ending.Declined? ==> t.owner == local
    // It is declined outright for settings, nodes or records it cannot act on or under.
    ensures (!c.cfg.enabled || local in {"", "auto"} || target in {"", "auto"} || local == target
             || given.owner !in {"", local}) ==>
              ending.Declined? && c.w.operations == old(c.w.operations) && c.w.history == old(c.w.history)
    ensures (c.cfg.identityMode !in {"", "shared_eip"}
             || (c.cfg.identityMode == "shared_eip" && c.cfg.cloud != "gcp" && c.cfg.allocationID == "")) ==>
              ending.Declined?
    // A handover that is declined leaves the cloud alone.
    ensures ending.Declined? ==> c.w.calls == old(c.w.calls)
    // Alone in the world.
    ensures c.w.quiet && !ending.Declined? ==>
              TenureOf(old(c.w.lease)) == t && t.owner == local && Settled(c, ending, t, target, local)
    ensures c.w.quiet && ending.Declined? ==>
              && TenureOf(c.w.lease) == TenureOf(old(c.w.lease))
              && c.w.routes == old(c.w.routes) && c.w.addresses == old(c.w.addresses)
    // In terms of the settings: done means that every listed route table leads to the target; on any cloud but GCP a
    // shared address is attached to it as well, and on GCP no address has moved.
    ensures c.w.quiet && ending.Done? && c.cfg.failoverMode == "replace_route" ==>
              forall id :: id in c.cfg.routeTableIDs ==>
                RouteKey(id, c.cfg.destinationCIDR) in c.w.routes
                && c.w.routes[RouteKey(id, c.cfg.destinationCIDR)] == target
    ensures c.w.quiet && ending.Done? && c.cfg.identityMode == "shared_eip" && c.cfg.cloud != "gcp" ==>
              c.cfg.allocationID in c.w.addresses && c.w.addresses[c.cfg.allocationID] == target
    ensures c.w.quiet && ending.Done? && (c.cfg.cloud == "gcp" || c.cfg.identityMode != "shared_eip") ==>
              c.w.addresses == old(c.w.addresses)
    // The calls, in every world: none for an address that is not shared or on GCP, elsewhere the address before every
    // route, and all of them when it is done.
    ensures MadeFor(c.cfg, target, old(c.w.calls), c.w.calls)
    ensures c.cfg.cloud == "gcp" || c.cfg.identityMode != "shared_eip" ==>
              forall k :: |old(c.w.calls)| <= k < |c.w.calls| ==> c.w.calls[k].MoveRoute?
    ensures c.cfg.cloud != "gcp" && c.cfg.identityMode == "shared_eip" ==>
              forall k :: |old(c.w.calls)| <= k < |c.w.calls| && c.w.calls[k].MoveRoute? ==>
                c.w.calls[|old(c.w.calls)|] == MoveAddress(c.cfg.allocationID, target)
    ensures ending.Done? ==> AllMade(c.cfg, target, old(c.w.calls), c.w.calls)
    ensures PutBackAs(c, ending, local, old(c.w.reverts), c.w.reverts)
    // Without faults it succeeds; the one configuration it cannot finish strands the address.
    ensures c.w.smooth && c.cfg.enabled && local !in {"", "auto"} && target !in {"", "auto"} && local != target
            && (c.cfg.identityMode == "" || (c.cfg.identityMode == "shared_eip" && c.cfg.allocationID != ""))
            && (given.owner == "" || TenureOf(given) == TenureOf(old(c.w.lease)))
            && old(c.w.lease).owner == local && Live(old(c.w.lease), old(c.w.now)) && c.w.terms.Room(old(c.w.lease)) ==>
              if Targets(c.cfg, target).Some? then ending.Done?
              else if MovesAddress(c.cfg) then ending == Stranded
              else ending == Declined
  {
    ghost var from := |c.w.history|;
    t := TenureOf(given);
    if !Acceptable(c.cfg, local, target) {
      return Declined, t;
    }
    var record := given;
    if record.owner == "" {
      var current := c.w.Current();
      if !current.Ok? {
        return Declined, t;
      }
      record := current.value;
      t := TenureOf(record);
      Append(old(c.w.history), LeaseRead(c.w.lease), from, t);
    }
    ending := Declined;
    if record.owner == local {
      ending := Proceed(c, local, target, record, from);
      TargetsListTables(c.cfg, target);
      if c.w.quiet && ending.Done? {
        HandedOverMeans(c.cfg, c.w.routes, c.w.addresses, target);
      }
    }
    FencedMeansOneLateCall(c.w.history, from, t);
  }

  // The handover once the record it runs under is known to be the local node's.
  method Proceed(c: Controller, local: string, target: string, record: Record, ghost from: nat) returns (ending: Ending)
    requires c.w.Valid() && Acceptable(c.cfg, local, target) && record.owner == local
    requires from <= |c.w.history| && Fenced(c.w.history, from, TenureOf(record))
    modifies c.w
    ensures c.w.Valid() && old(c.w.now) <= c.w.now
    ensures old(c.w.history) <= c.w.history && Fenced(c.w.history, from, TenureOf(record))
    ensures c.w.quiet && !ending.Declined? ==>
              TenureOf(old(c.w.lease)) == TenureOf(record) && Settled(c, ending, TenureOf(record), target, local)
    ensures ending.Declined? ==> c.w.calls == old(c.w.calls)
    ensures (c.cfg.identityMode !in {"", "shared_eip"}
             || (c.cfg.identityMode == "shared_eip" && c.cfg.cloud != "gcp" && c.cfg.allocationID == "")) ==>
              ending.Declined?
    ensures MadeFor(c.cfg, target, old(c.w.calls), c.w.calls)
    ensures ending.Done? ==> AllMade(c.cfg, target, old(c.w.calls), c.w.calls)
    ensures PutBackAs(c, ending, local, old(c.w.reverts), c.w.reverts)
    ensures c.w.quiet && ending.Done? && (c.cfg.cloud == "gcp" || c.cfg.identityMode != "shared_eip") ==>
              c.w.addresses == old(c.w.addresses)
    ensures c.w.quiet && ending.Declined? ==>
              && TenureOf(c.w.lease) == TenureOf(old(c.w.lease)) && c.w.routes == old(c.w.routes)
              && c.w.addresses == old(c.w.addresses)
    ensures (c.w.smooth && c.cfg.IdentityOk() && TenureOf(record) == TenureOf(old(c.w.lease))
             && Live(old(c.w.lease), old(c.w.now)) && c.w.terms.Room(old(c.w.lease))) ==>
              if Targets(c.cfg, target).Some? then ending.Done?
              else if MovesAddress(c.cfg) then ending == Stranded
              else ending == Declined
  {
    var ok := c.VerifyLease(record, local, from);
    if !ok {
      return Declined;
    }
    var latest := RenewLeaseFence(c, record, local, from);
    if latest.None? {
      return Declined;
    }
    if ConnectivityFirst(c.cfg) {
      ending := ConnectivityFirstHandover(c, target, local, latest.value, from);
    } else {
      ending := IdentityFirstHandover(c, target, local, latest.value, from);
    }
  }

  // On GCP with a shared address the routes move first and the address is left to the target.
  method ConnectivityFirstHandover(c: Controller, target: string, local: string, record: Record, ghost from: nat)
    returns (ending: Ending)
    requires c.w.Valid() && record.owner == local != "" && target != "" && from <= |c.w.history|
    requires Fenced(c.w.history, from, TenureOf(record))
    requires ConnectivityFirst(c.cfg)
    requires c.w.quiet ==> TenureOf(c.w.lease) == TenureOf(record)
    modifies c.w
    ensures c.w.Valid() && old(c.w.now) <= c.w.now
    ensures old(c.w.history) <= c.w.history && Fenced(c.w.history, from, TenureOf(record))
    ensures c.w.quiet ==> Settled(c, ending, TenureOf(record), target, local)
    ensures ending.Declined? ==>
              && c.w.calls == old(c.w.calls) && c.w.lease == old(c.w.lease) && c.w.routes == old(c.w.routes)
              && c.w.addresses == old(c.w.addresses)
    ensures ending.Declined? <==> Targets(c.cfg, target).None?
    ensures MadeFor(c.cfg, target, old(c.w.calls), c.w.calls)
    ensures ending.Done? ==> AllMade(c.cfg, target, old(c.w.calls), c.w.calls)
    ensures PutBackAs(c, ending, local, old(c.w.reverts), c.w.reverts)
    ensures c.w.quiet && ending.Done? ==> c.w.addresses == old(c.w.addresses)
    ensures (c.w.smooth && Live(old(c.w.lease), old(c.w.now)) && c.w.terms.Room(old(c.w.lease))
             && Targets(c.cfg, target).Some?) ==> ending.Done?
  {
    var routes := c.RouteTargets(target);
    if routes.None? {
      return Declined;
    }
    ending := CommitHandover(c, routes.value, false, target, local, record, from);
    TriedIsMade(c.cfg, target, routes.value, old(c.w.calls), old(c.w.calls), c.w.calls, ending.Done?);
  }

  method IdentityFirstHandover(c: Controller, target: string, local: string, record: Record, ghost from: nat)
    returns (ending: Ending)
    requires c.w.Valid() && record.owner == local != "" && target != "" && from <= |c.w.history|
    requires Fenced(c.w.history, from, TenureOf(record))
    requires !ConnectivityFirst(c.cfg)
    requires c.w.quiet ==> TenureOf(c.w.lease) == TenureOf(record)
    modifies c.w
    ensures c.w.Valid() && old(c.w.now) <= c.w.now
    ensures old(c.w.history) <= c.w.history && Fenced(c.w.history, from, TenureOf(record))
    ensures c.w.quiet ==> Settled(c, ending, TenureOf(record), target, local)
    ensures ending.Declined? ==>
              && c.w.calls == old(c.w.calls) && c.w.lease == old(c.w.lease) && c.w.routes == old(c.w.routes)
              && c.w.addresses == old(c.w.addresses)
    ensures MadeFor(c.cfg, target, old(c.w.calls), c.w.calls)
    ensures ending.Done? ==> AllMade(c.cfg, target, old(c.w.calls), c.w.calls)
    ensures PutBackAs(c, ending, local, old(c.w.reverts), c.w.reverts)
    ensures c.w.quiet && ending.Done? && !c.cfg.SharedAddress() ==> c.w.addresses == old(c.w.addresses)
    ensures !c.cfg.IdentityOk() ==> ending.Declined?
    ensures c.w.smooth && Live(old(c.w.lease), old(c.w.now)) && c.w.terms.Room(old(c.w.lease)) && c.cfg.IdentityOk() ==>
              if Targets(c.cfg, target).Some? then ending.Done?
              else if MovesAddress(c.cfg) then ending == Stranded
              else ending == Declined
  {
    var latest := record;
    if c.cfg.SharedAddress() {
      if c.cfg.allocationID == "" {
        return Declined;
      }
      var ok;
      latest, ok := AssociatePublicIdentity(c, target, local, record, from);
      if !ok {
        var fenced := c.VerifyLeaseFence(latest, local, from);
        if !fenced {
          return FencedOff;
        }
        ending := RevertHandover(c, local, from, TenureOf(record));
        return;
      }
    } else if c.cfg.identityMode != "" {
      return Declined;
    }
    var routes := c.RouteTargets(target);
    if routes.None? {
      return if c.cfg.SharedAddress() then Stranded else Declined;
    }
    ghost var between := c.w.calls;
    ending := CommitHandover(c, routes.value, c.cfg.SharedAddress(), target, local, latest, from);
    TriedIsMade(c.cfg, target, routes.value, old(c.w.calls), between, c.w.calls, ending.Done?);
  }
}
