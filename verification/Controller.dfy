/** The HA controller of internal/ha/controller.go: lease checks, activation and ownership repair. */
module Controller {
  import opened Common
  import opened Lease
  import opened Stores
  import opened World
  import opened Fencing

  datatype Config = Config(
    enabled: bool,
    cloud: string,
    identityMode: string,
    allocationID: string,
    failoverMode: string,
    targetType: string,
    destinationCIDR: string,
    routeTableIDs: seq<string>,
    probe: bool)
  {
    predicate SharedAddress() {
      identityMode == "shared_eip"
    }

    // The identity settings are ones the controller can act on.
    predicate IdentityOk() {
      identityMode == "" || (SharedAddress() && allocationID != "")
    }
  }

  predicate NodeResolved(instance: string) {
    instance != "" && instance != "auto"
  }

  // The routes to be moved to instance; None when the configuration is unsupported or incomplete.
  function Targets(cfg: Config, instance: string): Option<seq<RouteTarget>> {
    if cfg.failoverMode == "" then Some([])
    else if cfg.failoverMode != "replace_route" || cfg.targetType != "instance" || cfg.destinationCIDR == ""
            || cfg.routeTableIDs == [] || "" in cfg.routeTableIDs then None
    else Some(seq(|cfg.routeTableIDs|, i requires 0 <= i < |cfg.routeTableIDs| =>
                RouteTarget(RouteKey(cfg.routeTableIDs[i], cfg.destinationCIDR), instance)))
  }

  // There is one target for each listed route table, in order; none without a failover mode, and a refusal for what the
  // controller cannot act on.
  lemma TargetsListTables(cfg: Config, instance: string)
    ensures cfg.failoverMode == "" ==> Targets(cfg, instance) == Some([])
    ensures Targets(cfg, instance).None? <==>
            cfg.failoverMode != ""
            && (cfg.failoverMode != "replace_route" || cfg.targetType != "instance" || cfg.destinationCIDR == ""
                || |cfg.routeTableIDs| == 0 || exists i :: 0 <= i < |cfg.routeTableIDs| && cfg.routeTableIDs[i] == "")
    ensures Targets(cfg, instance).Some? && cfg.failoverMode != "" ==>
              var targets := Targets(cfg, instance).value;
              && |targets| == |cfg.routeTableIDs|
              && forall i :: 0 <= i < |targets| ==>
                   && targets[i].key.table == cfg.routeTableIDs[i] && targets[i].key.cidr == cfg.destinationCIDR
                   && targets[i].target == instance
  {
  }

  predicate AllAt(targets: seq<RouteTarget>, routes: map<RouteKey, string>) {
    forall t :: t in targets ==> t.key in routes && routes[t.key] == t.target
  }

  // Every configured route, and the shared address if there is one, is at instance.
  predicate OwnedBy(cfg: Config, routes: map<RouteKey, string>, addresses: map<string, string>, instance: string) {
    && Targets(cfg, instance).Some?
    && AllAt(Targets(cfg, instance).value, routes)
    && (cfg.SharedAddress() ==> HolderOf(addresses, cfg.allocationID) == instance)
  }

  // Owning everything means, in terms of the settings: they can be acted on, every listed route table leads to the
  // instance, and the shared address is attached to it.
  lemma OwnedIff(cfg: Config, routes: map<RouteKey, string>, addresses: map<string, string>, instance: string)
    requires instance != ""
    ensures OwnedBy(cfg, routes, addresses, instance) <==>
            && (cfg.failoverMode == ""
                || (cfg.failoverMode == "replace_route" && cfg.targetType == "instance" && cfg.destinationCIDR != ""
                    && cfg.routeTableIDs != [] && "" !in cfg.routeTableIDs
                    && forall id :: id in cfg.routeTableIDs ==>
                         RouteKey(id, cfg.destinationCIDR) in routes
                         && routes[RouteKey(id, cfg.destinationCIDR)] == instance))
            && (cfg.identityMode == "shared_eip" ==>
                  cfg.allocationID in addresses && addresses[cfg.allocationID] == instance)
  {
    TargetsListTables(cfg, instance);
    if Targets(cfg, instance).Some? {
      var targets := Targets(cfg, instance).value;
      if AllAt(targets, routes) && cfg.failoverMode != "" {
        forall id | id in cfg.routeTableIDs
          ensures RouteKey(id, cfg.destinationCIDR) in routes
          ensures routes[RouteKey(id, cfg.destinationCIDR)] == instance
        {
          var i :| 0 <= i < |cfg.routeTableIDs| && cfg.routeTableIDs[i] == id;
          assert targets[i] in targets;
        }
      }
    }
  }

  // ----- The repairs a drift calls for -----

  predicate Drifted(t: RouteTarget, routes: map<RouteKey, string>) {
    !(t.key in routes && routes[t.key] == t.target)
  }

  function RouteRepairs(targets: seq<RouteTarget>, routes: map<RouteKey, string>): seq<Mutation> {
    if targets == [] then []
    else
      var t := targets[0];
      if !Drifted(t, routes) then RouteRepairs(targets[1..], routes)
      else [MoveRoute(t)] + RouteRepairs(targets[1..], routes[t.key := t.target])
  }

  // The routes and repairs left over once target i has been seen to.
  lemma RepairStep(targets: seq<RouteTarget>, i: nat, routes: map<RouteKey, string>, routes': map<RouteKey, string>,
                   instance: string)
    requires i < |targets| && forall t :: t in targets ==> t.target == instance
    requires AllAt(targets[..i], routes)
    requires routes' == if Drifted(targets[i], routes) then routes[targets[i].key := instance] else routes
    ensures AllAt(targets[..i + 1], routes')
    ensures RouteRepairs(targets[i..], routes) ==
            (if Drifted(targets[i], routes) then [MoveRoute(targets[i])] else [])
            + RouteRepairs(targets[i + 1..], routes')
  {
    assert targets[i..][1..] == targets[i + 1..];
    assert targets[..i + 1] == targets[..i] + [targets[i]];
  }

  lemma PrefixGrows(all: seq<Mutation>, made: seq<Mutation>, rest: seq<Mutation>, step: seq<Mutation>,
                    moved: seq<Mutation>)
    requires all == made + rest && step <= rest && moved <= step
    ensures made + moved <= all
    ensures moved == step ==> all == (made + moved) + rest[|step|..]
  {
  }

  function AddressRepairs(cfg: Config, instance: string, addresses: map<string, string>): seq<Mutation> {
    if cfg.SharedAddress() && HolderOf(addresses, cfg.allocationID) != instance
    then [MoveAddress(cfg.allocationID, instance)] else []
  }

  function Repairs(cfg: Config, instance: string, routes: map<RouteKey, string>,
                   addresses: map<string, string>): seq<Mutation> {
    AddressRepairs(cfg, instance, addresses)
    + (if Targets(cfg, instance).Some? then RouteRepairs(Targets(cfg, instance).value, routes) else [])
  }

  /** Route repairs move exactly the listed routes that are missing or elsewhere, each once however
      often it is listed. */
  lemma {:induction false} RouteRepairsAreTheDrift(targets: seq<RouteTarget>, routes: map<RouteKey, string>,
                                                   instance: string)
    requires forall t :: t in targets ==> t.target == instance
    ensures forall m: Mutation :: m in RouteRepairs(targets, routes) <==>
              m.MoveRoute? && m.route in targets && Drifted(m.route, routes)
    ensures forall i, j :: 0 <= i < j < |RouteRepairs(targets, routes)| ==>
              RouteRepairs(targets, routes)[i] != RouteRepairs(targets, routes)[j]
  {
    if targets != [] {
      var t := targets[0];
      assert targets == [t] + targets[1..];
      if !Drifted(t, routes) {
        RouteRepairsAreTheDrift(targets[1..], routes, instance);
      } else {
        RouteRepairsAreTheDrift(targets[1..], routes[t.key := t.target], instance);
        assert RouteRepairs(targets, routes) == [MoveRoute(t)] + RouteRepairs(targets[1..], routes[t.key := t.target]);
        forall m: Mutation | m.MoveRoute? && m.route in targets && Drifted(m.route, routes)
          ensures m in RouteRepairs(targets, routes)
        {
          if m.route != t {
            assert m.route in targets[1..];
            assert m.route.target == instance == t.target;
          }
        }
      }
    }
  }

  /** The repairs for a whole configuration: the address exactly when it is elsewhere, and exactly the
      configured routes that are missing or elsewhere; so none at all if and only if everything is owned. */
  lemma RepairsAreTheDrift(cfg: Config, instance: string, routes: map<RouteKey, string>, addresses: map<string, string>)
    requires Targets(cfg, instance).Some?
    ensures forall m: Mutation :: m in Repairs(cfg, instance, routes, addresses) <==>
              match m
              case MoveAddress(allocation, to) =>
                cfg.SharedAddress() && allocation == cfg.allocationID && to == instance
                && HolderOf(addresses, allocation) != instance
              case MoveRoute(route) =>
                route in Targets(cfg, instance).value && Drifted(route, routes)
    ensures Repairs(cfg, instance, routes, addresses) == [] <==> OwnedBy(cfg, routes, addresses, instance)
  {
    var targets := Targets(cfg, instance).value;
    RouteRepairsAreTheDrift(targets, routes, instance);
    var repairs := Repairs(cfg, instance, routes, addresses);
    if repairs != [] {
      assert repairs[0] in repairs;
      assert repairs[0] in AddressRepairs(cfg, instance, addresses) || repairs[0] in RouteRepairs(targets, routes);
    } else {
      forall t | t in targets ensures t.key in routes && routes[t.key] == t.target {
        assert MoveRoute(t) !in RouteRepairs(targets, routes);
      }
    }
  }

  // ----- The changes that taking everything calls for -----

  function RouteMoves(targets: seq<RouteTarget>): seq<Mutation> {
    if targets == [] then [] else RouteMoves(targets[..|targets| - 1]) + [MoveRoute(targets[|targets| - 1])]
  }

  function AddressMoves(cfg: Config, instance: string): seq<Mutation> {
    if cfg.SharedAddress() then [MoveAddress(cfg.allocationID, instance)] else []
  }

  // The address first, then every route in order.
  function Moves(cfg: Config, instance: string): seq<Mutation> {
    AddressMoves(cfg, instance)
    + (if Targets(cfg, instance).Some? then RouteMoves(Targets(cfg, instance).value) else [])
  }

  lemma {:induction false} RouteMovesAt(targets: seq<RouteTarget>)
    ensures |RouteMoves(targets)| == |targets|
    ensures forall i :: 0 <= i < |targets| ==> RouteMoves(targets)[i] == MoveRoute(targets[i])
  {
    if targets != [] {
      RouteMovesAt(targets[..|targets| - 1]);
    }
  }

  // In terms of the settings: the shared address, and then the listed route tables in order, each once.
  lemma MovesAreListed(cfg: Config, instance: string)
    requires Targets(cfg, instance).Some?
    ensures var moves, routes := Moves(cfg, instance), if cfg.failoverMode == "" then [] else cfg.routeTableIDs;
            var shift := if cfg.identityMode == "shared_eip" then 1 else 0;
            && |moves| == shift + |routes|
            && (shift == 1 ==> moves[0] == MoveAddress(cfg.allocationID, instance))
            && forall i :: 0 <= i < |routes| ==>
                 moves[shift + i] == MoveRoute(RouteTarget(RouteKey(routes[i], cfg.destinationCIDR), instance))
  {
    TargetsListTables(cfg, instance);
    RouteMovesAt(Targets(cfg, instance).value);
  }

  // Of these moves the first few were attempted, each once and in order.
  predicate Attempted(before: seq<Mutation>, after: seq<Mutation>, moves: seq<Mutation>) {
    before <= after && after[|before|..] <= moves
  }

  // Attempts at first moves and then at second ones.
  lemma AttemptsJoin(a: seq<Mutation>, b: seq<Mutation>, c: seq<Mutation>, first: seq<Mutation>, second: seq<Mutation>)
    requires Attempted(a, b, first)
    ensures Attempted(a, b, first + second)
    ensures b == a + first && Attempted(b, c, second) ==> Attempted(a, c, first + second)
    ensures b == a + first && c == b + second ==> c == a + (first + second)
  {
    assert a <= b;
    if b == a + first && Attempted(b, c, second) {
      assert c[|a|..] == first + c[|b|..];
    }
  }

  lemma {:induction false} RouteMovesPrefix(targets: seq<RouteTarget>, i: nat)
    requires i <= |targets|
    ensures RouteMoves(targets[..i]) <= RouteMoves(targets)
  {
    if i < |targets| {
      var front := targets[..|targets| - 1];
      assert targets[..i] == front[..i];
      RouteMovesPrefix(front, i);
    } else {
      assert targets[..i] == targets;
    }
  }

  lemma PrefixAttempted(calls: seq<Mutation>, made: seq<Mutation>, moves: seq<Mutation>)
    requires made <= moves
    ensures Attempted(calls, calls + made, moves)
  {
    assert (calls + made)[|calls|..] == made;
  }

  lemma NextRouteMove(calls: seq<Mutation>, targets: seq<RouteTarget>, i: nat)
    requires i < |targets|
    ensures calls + RouteMoves(targets[..i]) + [MoveRoute(targets[i])] == calls + RouteMoves(targets[..i + 1])
    ensures Attempted(calls, calls + RouteMoves(targets[..i]), RouteMoves(targets))
    ensures Attempted(calls, calls + RouteMoves(targets[..i + 1]), RouteMoves(targets))
  {
    var made, now := RouteMoves(targets[..i]), RouteMoves(targets[..i + 1]);
    assert now == made + [MoveRoute(targets[i])] by {
      assert targets[..i + 1][..i] == targets[..i];
    }
    RouteMovesPrefix(targets, i);
    RouteMovesPrefix(targets, i + 1);
    PrefixAttempted(calls, made, RouteMoves(targets));
    PrefixAttempted(calls, now, RouteMoves(targets));
  }

  // ----- The controller -----

  datatype Ownership = Owned(routes: seq<RouteTarget>) | NotOwned

  datatype Activation = Activated(lease: Record, routes: seq<RouteTarget>) | NotActivated

  // What activation does on the lease store: an acquire and, if that is granted and the rest fails, a release.
  predicate Attempts(operations: seq<Operation>, local: string, result: Activation, tenure: Tenure) {
    && |operations| > 0 && operations[0].op == Acquire(local)
    && (!operations[0].Granted() ==> |operations| == 1 && result == NotActivated)
    && (operations[0].Granted() ==>
          var record := operations[0].outcome.value.lease;
          && tenure == TenureOf(record)
          && match result
             case Activated(lease, _) => lease == record && |operations| == 1
             case NotActivated => |operations| == 2 && operations[1].op == Release(record))
  }

  class Controller {
    const w: World
    const cfg: Config

    constructor (w: World, cfg: Config)
      ensures this.w == w && this.cfg == cfg
    {
      this.w, this.cfg := w, cfg;
    }

    method RouteTargets(instance: string) returns (targets: Option<seq<RouteTarget>>)
      ensures targets == Targets(cfg, instance)
      ensures targets.None? <==>
              cfg.failoverMode != ""
              && (cfg.failoverMode != "replace_route" || cfg.targetType != "instance" || cfg.destinationCIDR == ""
                  || cfg.routeTableIDs == [] || "" in cfg.routeTableIDs)
      ensures targets.Some? && cfg.failoverMode == "" ==> targets.value == []
      ensures targets.Some? && cfg.failoverMode != "" ==>
                && |targets.value| == |cfg.routeTableIDs|
                && forall i :: 0 <= i < |cfg.routeTableIDs| ==>
                     targets.value[i] == RouteTarget(RouteKey(cfg.routeTableIDs[i], cfg.destinationCIDR), instance)
      ensures targets.Some? ==> forall t :: t in targets.value ==> t.target == instance
    {
      if cfg.failoverMode == "" {
        return Some([]);
      }
      if cfg.failoverMode != "replace_route" || cfg.targetType != "instance" || cfg.destinationCIDR == "" {
        return None;
      }
      if |cfg.routeTableIDs| == 0 {
        return None;
      }
      var out: seq<RouteTarget> := [];
      for i := 0 to |cfg.routeTableIDs|
        invariant "" !in cfg.routeTableIDs[..i]
        invariant |out| == i
        invariant forall k :: 0 <= k < i ==>
                  out[k] == RouteTarget(RouteKey(cfg.routeTableIDs[k], cfg.destinationCIDR), instance)
      {
        if cfg.routeTableIDs[i] == "" {
          return None;
        }
        out := out + [RouteTarget(RouteKey(cfg.routeTableIDs[i], cfg.destinationCIDR), instance)];
      }
      assert cfg.routeTableIDs[..|cfg.routeTableIDs|] == cfg.routeTableIDs;
      assert out == Targets(cfg, instance).value;
      return Some(out);
    }

    // Reads the lease with up to four attempts; a non-retryable failure ends them early.
    method CurrentWithRetry(ghost from: nat, ghost t: Tenure) returns (current: Option<Record>)
      requires w.Valid() && from <= |w.history| && Fenced(w.history, from, t)
      modifies w`now, w`lease, w`routes, w`addresses, w`history
      ensures old(w.now) <= w.now && (w.smooth ==> w.now == old(w.now))
      ensures w.quiet ==> w.lease == old(w.lease) && w.routes == old(w.routes) && w.addresses == old(w.addresses)
      ensures old(w.history) <= w.history && Fenced(w.history, from, t)
      ensures current.Some? ==> current.value == w.lease && w.lease.owner != ""
      ensures current.Some? && TenureOf(current.value) == t ==> Armed(w.history, from, t)
      ensures w.smooth && w.lease.owner != "" ==> current.Some?
    {
      for attempt := 0 to 4
        invariant old(w.now) <= w.now && (w.smooth ==> w.now == old(w.now))
        invariant w.quiet ==> w.lease == old(w.lease) && w.routes == old(w.routes) && w.addresses == old(w.addresses)
        invariant w.history == old(w.history)
        invariant w.smooth && w.lease.owner != "" ==> attempt == 0
      {
        if attempt > 0 {
          var awake := w.Sleep();
          if !awake {
            return None;
          }
        }
        var reply := w.Current();
        if reply.Ok? {
          Append(old(w.history), LeaseRead(w.lease), from, t);
          return Some(reply.value);
        }
        var retryable := *;
        if !retryable {
          return None;
        }
      }
      return None;
    }

    // Whether the stored lease is still local's, of record's generation and unexpired.
    method VerifyLease(record: Record, local: string, ghost from: nat) returns (ok: bool)
      requires w.Valid() && from <= |w.history| && Fenced(w.history, from, Tenure(local, record.generation))
      modifies w`now, w`lease, w`routes, w`addresses, w`history
      ensures old(w.now) <= w.now && (w.smooth ==> w.now == old(w.now))
      ensures w.quiet ==> w.lease == old(w.lease) && w.routes == old(w.routes) && w.addresses == old(w.addresses)
      ensures old(w.history) <= w.history && Fenced(w.history, from, Tenure(local, record.generation))
      ensures ok ==> TenureOf(w.lease) == Tenure(local, record.generation) && local != "" && Live(w.lease, w.now)
      ensures ok ==> Armed(w.history, from, Tenure(local, record.generation))
      ensures (w.smooth && TenureOf(w.lease) == Tenure(local, record.generation) && local != ""
               && Live(w.lease, w.now)) ==>
                ok
    {
      var current := CurrentWithRetry(from, Tenure(local, record.generation));
      if current.None? {
        return false;
      }
      if current.value.owner != local || current.value.generation != record.generation {
        return false;
      }
      var now := w.ReadClock();
      return now < current.value.expiresAt;
    }

    method VerifyLeaseFence(record: Record, local: string, ghost from: nat) returns (ok: bool)
      requires w.Valid() && from <= |w.history|
      requires record.owner != "" ==> Fenced(w.history, from, Tenure(local, record.generation))
      modifies w`now, w`lease, w`routes, w`addresses, w`history
      ensures old(w.now) <= w.now && (w.smooth ==> w.now == old(w.now))
      ensures w.quiet ==> w.lease == old(w.lease) && w.routes == old(w.routes) && w.addresses == old(w.addresses)
      ensures old(w.history) <= w.history
      ensures record.owner != "" ==> Fenced(w.history, from, Tenure(local, record.generation))
      ensures record.owner == "" ==> ok && w.history == old(w.history)
      ensures ok && record.owner != "" ==> Armed(w.history, from, Tenure(local, record.generation))
      ensures (w.smooth && TenureOf(w.lease) == Tenure(local, record.generation) && local != ""
               && Live(w.lease, w.now)) ==>
                ok
    {
      if record.owner == "" {
        return true;
      }
      ok := VerifyLease(record, local, from);
    }

    // Gives back the lease a failed activation had acquired.
    method ReleaseAfterFailure(record: Record) returns (result: Activation)
      requires w.Valid()
      modifies w`now, w`lease, w`routes, w`addresses, w`operations
      ensures old(w.now) <= w.now && (w.smooth ==> w.now == old(w.now)) && result == NotActivated
      ensures |w.operations| == |old(w.operations)| + 1 && old(w.operations) <= w.operations
      ensures w.operations[|old(w.operations)|].op == Release(record)
      ensures w.quiet ==> w.routes == old(w.routes) && w.addresses == old(w.addresses)
      ensures w.quiet && TenureOf(old(w.lease)) != TenureOf(record) ==> w.lease == old(w.lease)
      ensures w.quiet && w.answering && record.owner != "" && TenureOf(old(w.lease)) == TenureOf(record) ==>
                w.lease == NO_RECORD
    {
      var answer := w.Operate(Release(record));
      return NotActivated;
    }

    /** Claims the lease and moves the address and every route to local. tenure is the tenure acquired,
        verifiedAt the instant of the last lease check. */
    method Activate(local: string) returns (result: Activation, ghost tenure: Tenure, ghost verifiedAt: Time)
      requires w.Valid()
      modifies w`now, w`lease, w`routes, w`addresses, w`history, w`operations, w`calls
      ensures w.Valid() && old(w.now) <= w.now
      // The address is attempted first, then each route once and in order; all of them on success.
      ensures Attempted(old(w.calls), w.calls, Moves(cfg, local))
      ensures cfg.enabled && result.Activated? ==>
                w.calls == old(w.calls) + Moves(cfg, local) && Targets(cfg, local) == Some(result.routes)
      // Fenced: at most one change once the acquired lease is lost.
      ensures old(w.history) <= w.history && Fenced(w.history, |old(w.history)|, tenure)
      ensures OneLateCallAtMost(w.history, |old(w.history)|, tenure)
      ensures tenure.owner == local && (cfg.enabled && result.Activated? ==> tenure == TenureOf(result.lease))
      // It runs under the lease it is granted, and without a grant it touches nothing.
      ensures old(w.operations) <= w.operations && |w.operations| <= |old(w.operations)| + 2
      ensures cfg.enabled && NodeResolved(local) ==>
                Attempts(w.operations[|old(w.operations)|..], local, result, tenure)
      ensures w.operations == old(w.operations) ==> w.calls == old(w.calls) && w.history == old(w.history)
      // Alone in the world, success means ownership of everything under a lease found live, and live for as long as
      // the store assured when it was acquired.
      ensures w.quiet && cfg.enabled && result.Activated? ==>
                && w.lease == result.lease && w.lease.owner == local && TenureOf(w.lease) == tenure
                && OwnedBy(cfg, w.routes, w.addresses, local)
                && old(w.now) <= verifiedAt <= w.now && Live(w.lease, verifiedAt)
                && (!cfg.probe ==> verifiedAt == w.now)
                && old(w.now) + w.terms.Assured() <= w.lease.expiresAt
      // In terms of the settings: every listed route table leads to the node, and the shared address is attached to it.
      ensures w.quiet && cfg.enabled && result.Activated? && cfg.failoverMode == "replace_route" ==>
                forall id :: id in cfg.routeTableIDs ==>
                  RouteKey(id, cfg.destinationCIDR) in w.routes
                  && w.routes[RouteKey(id, cfg.destinationCIDR)] == local
      ensures w.quiet && cfg.enabled && result.Activated? && cfg.identityMode == "shared_eip" ==>
                cfg.allocationID in w.addresses && w.addresses[cfg.allocationID] == local
      // A foreign lease that stays live throughout is respected.
      ensures w.quiet && old(w.lease).owner != "" && old(w.lease).owner != local && Live(old(w.lease), w.now) ==>
                && w.lease == old(w.lease) && w.routes == old(w.routes) && w.addresses == old(w.addresses)
                && w.calls == old(w.calls)
                && (cfg.enabled ==> result == NotActivated)
      // A failed activation does not sit on the lease, if the store answers.
      ensures w.quiet && w.answering && cfg.enabled && result == NotActivated ==>
                w.lease == old(w.lease) || w.lease == NO_RECORD
      // Without faults it succeeds exactly when the store grants the lease.
      ensures (w.smooth && cfg.enabled && local !in {"", "auto"} && Targets(cfg, local).Some?
               && (cfg.identityMode == "" || (cfg.identityMode == "shared_eip" && cfg.allocationID != ""))) ==>
                var (lease, answer) := Act(w.terms, old(w.lease), Acquire(local), old(w.now));
                w.lease == lease && (result.Activated? <==> answer.Granted?)
      // It is refused for a node that is not resolved, before anything is asked for, and for settings it cannot act on.
      ensures cfg.enabled && local in {"", "auto"} ==> result == NotActivated && w.operations == old(w.operations)
      ensures (cfg.enabled && (cfg.identityMode !in {"", "shared_eip"} || Targets(cfg, local).None?
                               || (cfg.identityMode == "shared_eip" && cfg.allocationID == ""))) ==>
                result == NotActivated
      ensures !cfg.enabled ==> result == Activated(NO_RECORD, []) && w.operations == old(w.operations)
      ensures w.smooth ==> w.now == old(w.now)
    {
      ghost var from := |w.history|;
      tenure, verifiedAt := Tenure(local, 0), w.now;
      if !cfg.enabled {
        return Activated(NO_RECORD, []), tenure, verifiedAt;
      }
      if !NodeResolved(local) {
        return NotActivated, tenure, verifiedAt;
      }
      var acquired := w.Operate(Acquire(local));
      if acquired.None? || !acquired.value.Granted? {
        return NotActivated, tenure, verifiedAt;
      }
      var record := acquired.value.lease;
      tenure := TenureOf(record);
      assert w.quiet ==> !(old(w.lease).owner != "" && old(w.lease).owner != local && Live(old(w.lease), w.now));
      ghost var won := w.lease;
      assert w.quiet ==> won == record;
      var routes;
      routes, verifiedAt := Claim(record, local, from);
      FencedMeansOneLateCall(w.history, from, tenure);
      if routes.None? {
        result := ReleaseAfterFailure(record);
        return;
      }
      result := Activated(record, routes.value);
      OwnedIff(cfg, w.routes, w.addresses, local);
    }

    // Everything activation does under the acquired lease; None as soon as a step fails.
    method Claim(record: Record, local: string, ghost from: nat)
      returns (routes: Option<seq<RouteTarget>>, ghost verifiedAt: Time)
      requires w.Valid() && record.owner == local != "" && from <= |w.history|
      requires Fenced(w.history, from, TenureOf(record))
      modifies w`now, w`lease, w`routes, w`addresses, w`history, w`calls
      ensures w.Valid() && old(w.now) <= w.now && (w.smooth ==> w.now == old(w.now))
      ensures Attempted(old(w.calls), w.calls, Moves(cfg, local))
      ensures routes.Some? ==> w.calls == old(w.calls) + Moves(cfg, local) && routes == Targets(cfg, local)
      ensures routes.Some? ==> cfg.IdentityOk()
      ensures old(w.history) <= w.history && Fenced(w.history, from, TenureOf(record))
      ensures w.quiet ==> w.lease == old(w.lease)
      ensures w.quiet && routes.Some? ==>
                && OwnedBy(cfg, w.routes, w.addresses, local) && TenureOf(w.lease) == TenureOf(record)
                && old(w.now) <= verifiedAt <= w.now && Live(w.lease, verifiedAt)
                && (!cfg.probe ==> verifiedAt == w.now)
      ensures (w.smooth && cfg.IdentityOk() && Targets(cfg, local).Some?
               && TenureOf(w.lease) == TenureOf(record) && Live(w.lease, w.now)) ==> routes.Some?
    {
      verifiedAt := w.now;
      ghost var address, calls := AddressMoves(cfg, local), w.calls;
      var ready := Prepare(record, local, from);
      ghost var prepared := w.calls;
      if !ready {
        AttemptsJoin(calls, prepared, prepared, address, Moves(cfg, local)[|address|..]);
        return None, verifiedAt;
      }
      var targets := RouteTargets(local);
      if targets.None? {
        return None, verifiedAt;
      }
      ready := ActivateRoutes(targets.value, record, local, from);
      AttemptsJoin(calls, prepared, w.calls, address, RouteMoves(targets.value));
      if !ready {
        return None, verifiedAt;
      }
      ready, verifiedAt := Confirm(targets.value, record, local, from);
      return if ready then targets else None, verifiedAt;
    }

    // Brings up the datapath, checks the lease before and after taking the ownership lock, and moves
    // the address.
    method Prepare(record: Record, local: string, ghost from: nat) returns (ok: bool)
      requires w.Valid() && record.owner == local != "" && from <= |w.history|
      requires Fenced(w.history, from, TenureOf(record))
      modifies w`now, w`lease, w`routes, w`addresses, w`history, w`calls
      ensures w.Valid() && old(w.now) <= w.now && (w.smooth ==> w.now == old(w.now))
      ensures Attempted(old(w.calls), w.calls, AddressMoves(cfg, local))
      ensures ok ==> w.calls == old(w.calls) + AddressMoves(cfg, local) && cfg.IdentityOk()
      ensures old(w.history) <= w.history && Fenced(w.history, from, TenureOf(record))
      ensures w.quiet ==> w.lease == old(w.lease)
      ensures w.quiet && ok && cfg.SharedAddress() ==> HolderOf(w.addresses, cfg.allocationID) == local
      ensures (w.smooth && cfg.IdentityOk() && TenureOf(w.lease) == TenureOf(record) && Live(w.lease, w.now)) ==> ok
    {
      ok := w.LocalWork();
      if ok {
        ok := VerifyLease(record, local, from);
      }
      if ok {
        ok := VerifyLease(record, local, from);
      }
      if ok {
        if cfg.SharedAddress() {
          ok := ActivateAddress(record, local, from);
        } else if cfg.identityMode != "" {
          ok := false;
        }
      }
    }

    // Reads everything back, checks the lease a last time and probes the way out.
    method Confirm(routes: seq<RouteTarget>, record: Record, local: string, ghost from: nat)
      returns (ok: bool, ghost verifiedAt: Time)
      requires w.Valid() && record.owner == local != "" && from <= |w.history|
      requires Fenced(w.history, from, TenureOf(record))
      modifies w`now, w`lease, w`routes, w`addresses, w`history
      ensures old(w.now) <= w.now && (w.smooth ==> w.now == old(w.now))
      ensures old(w.history) <= w.history && Fenced(w.history, from, TenureOf(record))
      ensures w.quiet ==> w.lease == old(w.lease) && w.routes == old(w.routes) && w.addresses == old(w.addresses)
      ensures w.quiet && ok ==>
                && TenureOf(w.lease) == TenureOf(record)
                && old(w.now) <= verifiedAt <= w.now && Live(w.lease, verifiedAt)
                && (!cfg.probe ==> verifiedAt == w.now)
                && AllAt(routes, w.routes) && (cfg.SharedAddress() ==> HolderOf(w.addresses, cfg.allocationID) == local)
      ensures (w.smooth && AllAt(routes, w.routes)
               && (cfg.SharedAddress() ==> HolderOf(w.addresses, cfg.allocationID) == local)
               && TenureOf(w.lease) == TenureOf(record) && Live(w.lease, w.now)) ==> ok
    {
      verifiedAt := w.now;
      ok := VerifyActivated(routes, local);
      if ok {
        ok := VerifyLease(record, local, from);
      }
      if ok {
        verifiedAt := w.now;
        if cfg.probe {
          ok := w.LocalWork();
        }
      }
    }

    // One route, moved between two lease checks.
    method ActivateRoute(target: RouteTarget, record: Record, local: string, ghost from: nat) returns (ok: bool)
      requires w.Valid() && record.owner == local != "" && from <= |w.history|
      requires Fenced(w.history, from, TenureOf(record))
      modifies w`now, w`lease, w`routes, w`addresses, w`history, w`calls
      ensures w.Valid() && old(w.now) <= w.now && (w.smooth ==> w.now == old(w.now))
      ensures old(w.history) <= w.history && Fenced(w.history, from, TenureOf(record))
      ensures w.calls in {old(w.calls), old(w.calls) + [MoveRoute(target)]}
      ensures ok ==> w.calls == old(w.calls) + [MoveRoute(target)]
      ensures w.quiet ==> w.lease == old(w.lease) && w.addresses == old(w.addresses)
      ensures w.quiet ==> w.routes in {old(w.routes), old(w.routes)[target.key := target.target]}
      ensures w.quiet && ok ==> w.routes == old(w.routes)[target.key := target.target]
      ensures w.smooth && TenureOf(w.lease) == TenureOf(record) && Live(w.lease, w.now) ==> ok
    {
      ok := VerifyLeaseFence(record, local, from);
      if ok {
        ghost var before := w.history;
        ok := w.Change(MoveRoute(target));
        Append(before, CloudCall(w.lease, Forward, MoveRoute(target)), from, TenureOf(record));
      }
      if ok {
        ok := VerifyLeaseFence(record, local, from);
      }
    }

    method ActivateRoutes(targets: seq<RouteTarget>, record: Record, local: string, ghost from: nat) returns (ok: bool)
      requires w.Valid() && record.owner == local != "" && from <= |w.history|
      requires Fenced(w.history, from, TenureOf(record))
      requires forall t :: t in targets ==> t.target == local
      modifies w`now, w`lease, w`routes, w`addresses, w`history, w`calls
      ensures w.Valid() && old(w.now) <= w.now && (w.smooth ==> w.now == old(w.now))
      ensures old(w.history) <= w.history && Fenced(w.history, from, TenureOf(record))
      ensures Attempted(old(w.calls), w.calls, RouteMoves(targets))
      ensures ok ==> w.calls == old(w.calls) + RouteMoves(targets)
      ensures w.quiet ==> w.lease == old(w.lease) && w.addresses == old(w.addresses)
      ensures w.quiet && ok ==> AllAt(targets, w.routes)
      ensures w.smooth && TenureOf(w.lease) == TenureOf(record) && Live(w.lease, w.now) ==> ok
    {
      for i := 0 to |targets|
        invariant old(w.now) <= w.now && (w.smooth ==> w.now == old(w.now))
        invariant old(w.history) <= w.history && Fenced(w.history, from, TenureOf(record))
        invariant w.quiet ==> w.lease == old(w.lease) && w.addresses == old(w.addresses)
        invariant w.quiet ==> AllAt(targets[..i], w.routes)
        invariant w.calls == old(w.calls) + RouteMoves(targets[..i])
      {
        NextRouteMove(old(w.calls), targets, i);
        ok := ActivateRoute(targets[i], record, local, from);
        if !ok {
          return;
        }
        assert targets[..i + 1] == targets[..i] + [targets[i]];
      }
      assert targets[..|targets|] == targets;
      ok := true;
    }

    method ActivateAddress(record: Record, local: string, ghost from: nat) returns (ok: bool)
      requires w.Valid() && record.owner == local != "" && from <= |w.history|
      requires Fenced(w.history, from, TenureOf(record))
      modifies w`now, w`lease, w`routes, w`addresses, w`history, w`calls
      ensures w.Valid() && old(w.now) <= w.now && (w.smooth ==> w.now == old(w.now))
      ensures old(w.history) <= w.history && Fenced(w.history, from, TenureOf(record))
      ensures w.calls in {old(w.calls), old(w.calls) + [MoveAddress(cfg.allocationID, local)]}
      ensures ok ==> w.calls != old(w.calls) && cfg.allocationID != ""
      ensures w.quiet ==> w.lease == old(w.lease) && w.routes == old(w.routes)
      ensures w.quiet && ok ==> HolderOf(w.addresses, cfg.allocationID) == local
      ensures (w.smooth && cfg.allocationID != "" && TenureOf(w.lease) == TenureOf(record) && local != ""
               && Live(w.lease, w.now)) ==>
                ok
    {
      if cfg.allocationID == "" {
        return false;
      }
      ok := VerifyLeaseFence(record, local, from);
      if ok {
        ghost var before := w.history;
        ok := w.Change(MoveAddress(cfg.allocationID, local));
        Append(before, CloudCall(w.lease, Forward, MoveAddress(cfg.allocationID, local)), from, TenureOf(record));
      }
      if ok {
        ok := VerifyLeaseFence(record, local, from);
      }
    }

    // Reads back every route and the address after activation.
    method VerifyActivated(routes: seq<RouteTarget>, local: string) returns (ok: bool)
      requires w.Valid()
      modifies w`now, w`lease, w`routes, w`addresses
      ensures old(w.now) <= w.now && (w.smooth ==> w.now == old(w.now))
      ensures w.quiet ==> w.lease == old(w.lease) && w.routes == old(w.routes) && w.addresses == old(w.addresses)
      ensures w.quiet && ok ==>
                AllAt(routes, w.routes) && (cfg.SharedAddress() ==> HolderOf(w.addresses, cfg.allocationID) == local)
      ensures (w.smooth && AllAt(routes, w.routes)
               && (cfg.SharedAddress() ==> HolderOf(w.addresses, cfg.allocationID) == local)) ==>
                ok
    {
      for i := 0 to |routes|
        invariant old(w.now) <= w.now && (w.smooth ==> w.now == old(w.now))
        invariant w.quiet ==> w.lease == old(w.lease) && w.routes == old(w.routes) && w.addresses == old(w.addresses)
        invariant w.quiet ==> AllAt(routes[..i], w.routes)
      {
        var actual := w.DescribeRoute(routes[i].key);
        if !(actual.Ok? && actual.value == routes[i].target) {
          return false;
        }
        assert routes[..i + 1] == routes[..i] + [routes[i]];
      }
      assert routes[..|routes|] == routes;
      if cfg.SharedAddress() {
        var holder := w.DescribeAddress(cfg.allocationID);
        if !(holder.Ok? && holder.value == local) {
          return false;
        }
      }
      return true;
    }

    // ----- Ownership repair -----

    // Repair without a fence, as an operator may ask for it.
    method EnsureOwnershipUnfenced(local: string) returns (result: Ownership, ghost made: seq<Mutation>)
      requires w.Valid()
      modifies w`now, w`lease, w`routes, w`addresses, w`history, w`calls
      ensures w.Valid() && old(w.now) <= w.now
      ensures w.calls == old(w.calls) + made
      ensures w.quiet ==> w.lease == old(w.lease)
      ensures w.quiet && cfg.enabled ==>
                && made <= Repairs(cfg, local, old(w.routes), old(w.addresses))
                && (result.Owned? ==> made == Repairs(cfg, local, old(w.routes), old(w.addresses)))
                && (result.Owned? ==> OwnedBy(cfg, w.routes, w.addresses, local))
    {
      result, made := EnsureOwnership(local, NO_RECORD);
    }

    method EnsureOwnershipFenced(local: string, record: Record) returns (result: Ownership)
      requires w.Valid()
      modifies w`now, w`lease, w`routes, w`addresses, w`history, w`calls
      ensures w.Valid() && old(w.now) <= w.now && (w.smooth ==> w.now == old(w.now))
      ensures old(w.history) <= w.history && Fenced(w.history, |old(w.history)|, Tenure(local, record.generation))
      ensures OneLateCallAtMost(w.history, |old(w.history)|, Tenure(local, record.generation))
      ensures w.quiet ==> w.lease == old(w.lease)
      ensures w.quiet && result.Owned? && cfg.enabled ==> OwnedBy(cfg, w.routes, w.addresses, local)
      ensures (w.smooth && record.owner != "" && NodeResolved(local) && cfg.IdentityOk() && Targets(cfg, local).Some?
               && TenureOf(w.lease) == Tenure(local, record.generation) && Live(w.lease, w.now)) ==> result.Owned?
    {
      if record.owner == "" {
        return NotOwned;
      }
      ghost var made;
      result, made := EnsureOwnership(local, record);
      FencedMeansOneLateCall(w.history, |old(w.history)|, Tenure(local, record.generation));
    }

    // Repairing twice: alone in the world, a repair that succeeds leaves the next one nothing to change.
    method EnsureOwnershipTwice(local: string, record: Record)
      returns (first: Ownership, second: Ownership, ghost again: seq<Mutation>)
      requires w.Valid() && w.quiet
      modifies w`now, w`lease, w`routes, w`addresses, w`history, w`calls
      ensures w.Valid() && (first.Owned? ==> again == [])
      ensures second.Owned? && cfg.enabled ==> OwnedBy(cfg, w.routes, w.addresses, local)
    {
      ghost var made;
      first, made := EnsureOwnership(local, record);
      if first.Owned? && cfg.enabled {
        RepairsAreTheDrift(cfg, local, w.routes, w.addresses);
      }
      second, again := EnsureOwnership(local, record);
    }

    /** Repairs whatever is not at local. Alone in the world it changes exactly the drifted or missing
        resources, in order, and stops early only on an error; fenced when a record is given. */
    method EnsureOwnership(local: string, record: Record) returns (result: Ownership, ghost made: seq<Mutation>)
      requires w.Valid()
      modifies w`now, w`lease, w`routes, w`addresses, w`history, w`calls
      ensures w.Valid() && old(w.now) <= w.now && (w.smooth ==> w.now == old(w.now))
      ensures old(w.history) <= w.history
      ensures record.owner != "" ==> Fenced(w.history, |old(w.history)|, Tenure(local, record.generation))
      ensures w.calls == old(w.calls) + made
      ensures w.quiet ==> w.lease == old(w.lease)
      ensures w.quiet && cfg.enabled ==>
                && made <= Repairs(cfg, local, old(w.routes), old(w.addresses))
                && (result.Owned? ==> made == Repairs(cfg, local, old(w.routes), old(w.addresses)))
                && (result.Owned? ==> OwnedBy(cfg, w.routes, w.addresses, local))
      ensures w.quiet && cfg.enabled && result.Owned? && cfg.failoverMode == "replace_route" ==>
                forall id :: id in cfg.routeTableIDs ==>
                  RouteKey(id, cfg.destinationCIDR) in w.routes
                  && w.routes[RouteKey(id, cfg.destinationCIDR)] == local
      ensures w.quiet && cfg.enabled && result.Owned? && cfg.identityMode == "shared_eip" ==>
                cfg.allocationID in w.addresses && w.addresses[cfg.allocationID] == local
      ensures (w.smooth && cfg.enabled && local !in {"", "auto"} && Targets(cfg, local).Some?
               && (cfg.identityMode == "" || (cfg.identityMode == "shared_eip" && cfg.allocationID != ""))
               && (record.owner == ""
                   || (TenureOf(w.lease) == Tenure(local, record.generation) && Live(w.lease, w.now)))) ==>
                result.Owned?
      ensures (cfg.enabled && (local in {"", "auto"} || cfg.identityMode !in {"", "shared_eip"}
                               || Targets(cfg, local).None?
                               || (cfg.identityMode == "shared_eip" && cfg.allocationID == ""))) ==>
                result == NotOwned
      ensures !cfg.enabled ==> result == Owned([]) && w.calls == old(w.calls)
      ensures cfg.enabled && result.Owned? ==> Targets(cfg, local) == Some(result.routes)
    {
      ghost var from := |w.history|;
      made := [];
      if !cfg.enabled {
        return Owned([]), made;
      }
      if !NodeResolved(local) {
        return NotOwned, made;
      }
      if cfg.SharedAddress() {
        var held;
        held, made := RepairAddress(local, record, from);
        if !held {
          return NotOwned, made;
        }
      } else if cfg.identityMode != "" {
        return NotOwned, made;
      }
      var targets := RouteTargets(local);
      if targets.None? {
        return NotOwned, made;
      }
      ghost var routesMade;
      result, routesMade := RepairRoutes(targets.value, local, record, from);
      made := made + routesMade;
      OwnedIff(cfg, w.routes, w.addresses, local);
    }

    method RepairAddress(local: string, record: Record, ghost from: nat) returns (ok: bool, ghost made: seq<Mutation>)
      requires w.Valid() && local != "" && cfg.SharedAddress() && from <= |w.history|
      requires record.owner != "" ==> Fenced(w.history, from, Tenure(local, record.generation))
      modifies w`now, w`lease, w`routes, w`addresses, w`history, w`calls
      ensures w.Valid() && old(w.now) <= w.now && (w.smooth ==> w.now == old(w.now))
      ensures old(w.history) <= w.history
      ensures record.owner != "" ==> Fenced(w.history, from, Tenure(local, record.generation))
      ensures w.calls == old(w.calls) + made
      ensures w.quiet ==> w.lease == old(w.lease) && w.routes == old(w.routes)
      ensures w.quiet ==> made <= AddressRepairs(cfg, local, old(w.addresses))
      ensures w.quiet && ok ==> made == AddressRepairs(cfg, local, old(w.addresses))
      ensures w.quiet && ok ==> HolderOf(w.addresses, cfg.allocationID) == local
      ensures ok ==> cfg.allocationID != ""
      ensures (w.smooth && cfg.allocationID != ""
               && (record.owner == ""
                   || (TenureOf(w.lease) == Tenure(local, record.generation) && Live(w.lease, w.now)))) ==>
                ok
    {
      made := [];
      if cfg.allocationID == "" {
        return false, made;
      }
      var holder := w.DescribeAddress(cfg.allocationID);
      if !holder.Ok? {
        return false, made;
      }
      if holder.value == local {
        return true, made;
      }
      ok := VerifyLeaseFence(record, local, from);
      if ok {
        ghost var before := w.history;
        made := [MoveAddress(cfg.allocationID, local)];
        ok := w.Change(MoveAddress(cfg.allocationID, local));
        Append(before, CloudCall(w.lease, Forward, MoveAddress(cfg.allocationID, local)),
               from, Tenure(local, record.generation));
      }
      if ok {
        ok := VerifyLeaseFence(record, local, from);
      }
    }

    method RepairRoutes(targets: seq<RouteTarget>, local: string, record: Record, ghost from: nat)
      returns (result: Ownership, ghost made: seq<Mutation>)
      requires w.Valid() && local != "" && from <= |w.history|
      requires forall t :: t in targets ==> t.target == local
      requires record.owner != "" ==> Fenced(w.history, from, Tenure(local, record.generation))
      modifies w`now, w`lease, w`routes, w`addresses, w`history, w`calls
      ensures w.Valid() && old(w.now) <= w.now && (w.smooth ==> w.now == old(w.now))
      ensures old(w.history) <= w.history
      ensures record.owner != "" ==> Fenced(w.history, from, Tenure(local, record.generation))
      ensures w.quiet ==> w.lease == old(w.lease) && w.addresses == old(w.addresses)
      ensures w.calls == old(w.calls) + made
      ensures w.quiet ==> made <= RouteRepairs(targets, old(w.routes))
      ensures w.quiet && result.Owned? ==> made == RouteRepairs(targets, old(w.routes)) && AllAt(targets, w.routes)
      ensures result.Owned? ==> result.routes == targets
      ensures (w.smooth
               && (record.owner == ""
                   || (TenureOf(w.lease) == Tenure(local, record.generation) && Live(w.lease, w.now)))) ==>
                result.Owned?
    {
      made := [];
      var routes := [];
      for i := 0 to |targets|
        invariant routes == targets[..i]
        invariant old(w.now) <= w.now && (w.smooth ==> w.now == old(w.now))
        invariant old(w.history) <= w.history
        invariant record.owner != "" ==> Fenced(w.history, from, Tenure(local, record.generation))
        invariant w.quiet ==> w.lease == old(w.lease) && w.addresses == old(w.addresses)
        invariant w.calls == old(w.calls) + made
        invariant w.quiet ==> RouteRepairs(targets, old(w.routes)) == made + RouteRepairs(targets[i..], w.routes)
        invariant w.quiet ==> AllAt(targets[..i], w.routes)
      {
        ghost var step := if Drifted(targets[i], w.routes) then [MoveRoute(targets[i])] else [];
        ghost var madeBefore, rest := made, RouteRepairs(targets[i..], w.routes);
        if w.quiet {
          RepairStep(targets, i, w.routes,
                     if Drifted(targets[i], w.routes) then w.routes[targets[i].key := local] else w.routes, local);
        }
        var owned, moved := RepairRoute(targets[i], local, record, from);
        made := made + moved;
        if w.quiet {
          PrefixGrows(RouteRepairs(targets, old(w.routes)), madeBefore, rest, step, moved);
        }
        if !owned {
          return NotOwned, made;
        }
        routes := routes + [targets[i]];
      }
      assert targets[..|targets|] == targets;
      result := Owned(routes);
    }

    method RepairRoute(target: RouteTarget, local: string, record: Record, ghost from: nat)
      returns (ok: bool, ghost made: seq<Mutation>)
      requires w.Valid() && local != "" && target.target == local && from <= |w.history|
      requires record.owner != "" ==> Fenced(w.history, from, Tenure(local, record.generation))
      modifies w`now, w`lease, w`routes, w`addresses, w`history, w`calls
      ensures w.Valid() && old(w.now) <= w.now && (w.smooth ==> w.now == old(w.now))
      ensures old(w.history) <= w.history
      ensures record.owner != "" ==> Fenced(w.history, from, Tenure(local, record.generation))
      ensures w.calls == old(w.calls) + made
      ensures w.quiet ==> w.lease == old(w.lease) && w.addresses == old(w.addresses)
      ensures w.quiet ==> made <= (if Drifted(target, old(w.routes)) then [MoveRoute(target)] else [])
      ensures w.quiet && ok ==> made == (if Drifted(target, old(w.routes)) then [MoveRoute(target)] else [])
      ensures w.quiet && ok ==>
                w.routes ==
                  if Drifted(target, old(w.routes)) then old(w.routes)[target.key := target.target] else old(w.routes)
      ensures (w.smooth
               && (record.owner == ""
                   || (TenureOf(w.lease) == Tenure(local, record.generation) && Live(w.lease, w.now)))) ==>
                ok
    {
      made := [];
      var actual := w.DescribeRoute(target.key);
      if actual.Failed? {
        return false, made;
      }
      if actual.Missing? || actual.value != target.target {
        ok := VerifyLeaseFence(record, local, from);
        if !ok {
          return;
        }
        ghost var before := w.history;
        made := [MoveRoute(target)];
        ok := w.Change(MoveRoute(target));
        Append(before, CloudCall(w.lease, Forward, MoveRoute(target)), from, Tenure(local, record.generation));
        if ok {
          ok := VerifyLeaseFence(record, local, from);
        }
        if !ok {
          return;
        }
        actual := w.DescribeRoute(target.key);
        if !actual.Ok? {
          return false, made;
        }
      }
      ok := actual.value == target.target;
    }
  }
}
