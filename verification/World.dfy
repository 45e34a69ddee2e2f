/** Everything a node's controller acts on: the shared lease, the cloud's routes and public
    addresses, and the clock. Calls may fail, a failed call may still have taken effect, and between
    any two calls other actors may change anything. */
module World {
  import opened Common
  import opened Lease
  import opened Stores

  datatype RouteKey = RouteKey(table: string, cidr: string)
  datatype RouteTarget = RouteTarget(key: RouteKey, target: string)

  datatype Mutation = MoveRoute(route: RouteTarget) | MoveAddress(allocation: string, instance: string)

  // Whether a cloud change takes ownership somewhere new or puts it back.
  datatype Purpose = Forward | Revert

  // One owner's hold on the lease: fencing compares exactly these two.
  datatype Tenure = Tenure(owner: string, generation: Generation)

  function TenureOf(record: Record): Tenure {
    Tenure(record.owner, record.generation)
  }

  datatype Reply<+T> = Ok(value: T) | Missing | Failed

  // What happened: lease reads that succeeded and cloud changes attempted, with the lease as it was stored at that
  // instant, and what a caller that looked at the lease was told, whatever that was, and read on its clock then.
  datatype Moment =
    | LeaseRead(lease: Record)
    | Looked(reply: Reply<Record>, at: Time)
    | CloudCall(lease: Record, purpose: Purpose, mutation: Mutation)

  // The moments of a look at the lease.
  function Look(reply: Reply<Record>, at: Time): seq<Moment> {
    if reply.Ok? then [LeaseRead(reply.value), Looked(reply, at)] else [Looked(reply, at)]
  }

  // An operation the caller ran on the lease store, and the answer if there was one.
  datatype Operation = Operation(op: Op, outcome: Option<Outcome>) {
    predicate Granted() {
      outcome.Some? && outcome.value.Granted?
    }
  }

  function HolderOf(addresses: map<string, string>, allocation: string): string {
    if allocation in addresses then addresses[allocation] else ""
  }

  // The cloud after a change.
  function Routed(routes: map<RouteKey, string>, m: Mutation): map<RouteKey, string> {
    if m.MoveRoute? then routes[m.route.key := m.route.target] else routes
  }

  function Addressed(addresses: map<string, string>, m: Mutation): map<string, string> {
    if m.MoveAddress? then addresses[m.allocation := m.instance] else addresses
  }

  class World {
    // What the lease store makes of an operation.
    const terms: Terms
    // Nobody but the caller changes the lease or the cloud.
    const quiet: bool
    // Quiet, and besides no call fails or takes time.
    const smooth: bool
    // The lease store answers every operation.
    const answering: bool

    var now: Time
    var lease: Record
    var routes: map<RouteKey, string>
    var addresses: map<string, string>

    // In order, every successful lease read, every look and every cloud change attempted.
    ghost var history: seq<Moment>
    // The operations on the lease store.
    ghost var operations: seq<Operation>
    // The cloud changes alone: those that take ownership, and those that put it back.
    ghost var calls: seq<Mutation>
    ghost var reverts: seq<Mutation>

    ghost predicate Valid() {
      (smooth ==> quiet && answering) && terms.Sound()
    }

    constructor (terms: Terms, quiet: bool, smooth: bool, answering: bool, now: Time)
      requires (smooth ==> quiet && answering) && terms.Sound()
      ensures Valid() && this.terms == terms && this.quiet == quiet && this.smooth == smooth
      ensures this.answering == answering && this.now == now && lease == NO_RECORD && routes == map[]
      ensures addresses == map[]
      ensures history == [] && operations == [] && calls == [] && reverts == []
    {
      this.terms, this.quiet, this.smooth, this.answering, this.now := terms, quiet, smooth, answering, now;
      lease, routes, addresses := NO_RECORD, map[], map[];
      history, operations, calls, reverts := [], [], [], [];
    }

    // Time passes and, unless the world is quiet, others act.
    method Interfere()
      requires Valid()
      modifies this`now, this`lease, this`routes, this`addresses
      ensures old(now) <= now && (smooth ==> now == old(now))
      ensures quiet ==> lease == old(lease) && routes == old(routes) && addresses == old(addresses)
    {
      if !smooth {
        var pause: int :| 0 <= pause;
        now := now + pause;
      }
      if !quiet {
        lease := *;
        routes := *;
        addresses := *;
      }
    }

    // Time passes until t.
    method AdvanceTo(t: Time)
      requires Valid()
      modifies this`now
      ensures now == if t < old(now) then old(now) else t
    {
      if now < t {
        now := t;
      }
    }

    method ReadClock() returns (t: Time)
      requires Valid()
      modifies this`now
      ensures old(now) <= now == t && (smooth ==> now == old(now))
    {
      if !smooth {
        var pause: int :| 0 <= pause;
        now := now + pause;
      }
      t := now;
    }

    // Waits; false when the caller's context ends first.
    method Sleep() returns (awake: bool)
      requires Valid()
      modifies this`now, this`lease, this`routes, this`addresses
      ensures old(now) <= now && (smooth ==> now == old(now) && awake)
      ensures quiet ==> lease == old(lease) && routes == old(routes) && addresses == old(addresses)
    {
      Interfere();
      awake := Succeeds();
    }

    // Whether a call works; always so in a smooth world.
    method Succeeds() returns (ok: bool)
      ensures smooth ==> ok
    {
      ok := *;
      if smooth {
        ok := true;
      }
    }

    // ----- The lease store -----

    method Current() returns (reply: Reply<Record>)
      requires Valid()
      modifies this`now, this`lease, this`routes, this`addresses, this`history
      ensures old(now) <= now && (smooth ==> now == old(now))
      ensures quiet ==> lease == old(lease) && routes == old(routes) && addresses == old(addresses)
      ensures match reply
              case Ok(record) => record == lease && lease.owner != "" && history == old(history) + [LeaseRead(lease)]
              case Missing => lease.owner == "" && history == old(history)
              case Failed => !smooth && history == old(history)
    {
      Interfere();
      var ok := Succeeds();
      if !ok {
        return Failed;
      }
      if lease.owner == "" {
        return Missing;
      }
      history := history + [LeaseRead(lease)];
      return Ok(lease);
    }

    // Reads the lease, and then the clock.
    method LookAtLease() returns (reply: Reply<Record>, at: Time)
      requires Valid()
      modifies this`now, this`lease, this`routes, this`addresses, this`history
      ensures old(now) <= at == now && (smooth ==> now == old(now))
      ensures quiet ==> lease == old(lease) && routes == old(routes) && addresses == old(addresses)
      ensures history == old(history) + Look(reply, at)
      ensures match reply
              case Ok(record) => record == lease && lease.owner != ""
              case Missing => lease.owner == ""
              case Failed => !smooth
    {
      reply := Current();
      at := ReadClock();
      history := history + [Looked(reply, at)];
    }

    // Runs one lease operation at the store's clock. A lost answer may hide an effect, except that
    // a transfer which reports failure did not happen.
    method Operate(op: Op) returns (outcome: Option<Outcome>)
      requires Valid()
      modifies this`now, this`lease, this`routes, this`addresses, this`operations
      ensures operations == old(operations) + [Operation(op, outcome)]
      ensures old(now) <= now && (smooth ==> now == old(now))
      ensures quiet ==> routes == old(routes) && addresses == old(addresses)
      ensures quiet ==> lease == old(lease) || lease == Act(terms, old(lease), op, now).0
      ensures quiet && outcome.Some? ==> (lease, outcome.value) == Act(terms, old(lease), op, now)
      ensures quiet && op.Transfer? && !(outcome.Some? && outcome.value.Ok()) ==> lease == old(lease)
      ensures outcome.Some? && outcome.value.Granted? ==>
                lease == outcome.value.lease && old(now) + terms.Assured() <= lease.expiresAt
      ensures outcome.Some? && outcome.value.Granted? && op.Acquire? ==> lease.owner == op.owner != ""
      ensures outcome.Some? && outcome.value.Granted? && op.Renew? ==>
                TenureOf(outcome.value.lease) == TenureOf(op.record)
      ensures answering ==> outcome.Some?
    {
      Interfere();
      var (next, answer) := Act(terms, lease, op, now);
      if answer.Granted? {
        GrantIsAssured(terms, lease, op, now);
      }
      var answered := Succeeds();
      if answered || answering {
        lease := next;
        operations := operations + [Operation(op, Some(answer))];
        return Some(answer);
      }
      var took := *;
      if took && !op.Transfer? {
        lease := next;
      }
      operations := operations + [Operation(op, None)];
      return None;
    }

    // ----- The cloud -----

    // A change that takes ownership.
    method Change(m: Mutation) returns (ok: bool)
      requires Valid()
      modifies this`now, this`lease, this`routes, this`addresses, this`history, this`calls
      ensures old(now) <= now && (smooth ==> now == old(now) && ok)
      ensures quiet ==> lease == old(lease)
      ensures quiet ==> (routes == Routed(old(routes), m) && addresses == Addressed(old(addresses), m))
                        || (!ok && routes == old(routes) && addresses == old(addresses))
      ensures history == old(history) + [CloudCall(lease, Forward, m)]
      ensures calls == old(calls) + [m]
    {
      Interfere();
      history, calls := history + [CloudCall(lease, Forward, m)], calls + [m];
      ok := CarryOut(m);
    }

    // A change that puts it back.
    method PutBack(m: Mutation) returns (ok: bool)
      requires Valid()
      modifies this`now, this`lease, this`routes, this`addresses, this`history, this`reverts
      ensures old(now) <= now && (smooth ==> now == old(now) && ok)
      ensures quiet ==> lease == old(lease)
      ensures quiet ==> (routes == Routed(old(routes), m) && addresses == Addressed(old(addresses), m))
                        || (!ok && routes == old(routes) && addresses == old(addresses))
      ensures history == old(history) + [CloudCall(lease, Revert, m)]
      ensures reverts == old(reverts) + [m]
    {
      Interfere();
      history, reverts := history + [CloudCall(lease, Revert, m)], reverts + [m];
      ok := CarryOut(m);
    }

    // What the cloud makes of a change; one that fails may have taken effect.
    method CarryOut(m: Mutation) returns (ok: bool)
      modifies this`routes, this`addresses
      ensures smooth ==> ok
      ensures (routes == Routed(old(routes), m) && addresses == Addressed(old(addresses), m))
              || (!ok && routes == old(routes) && addresses == old(addresses))
    {
      ok := Succeeds();
      var took := *;
      if ok || took {
        routes, addresses := Routed(routes, m), Addressed(addresses, m);
      }
    }

    method DescribeRoute(key: RouteKey) returns (reply: Reply<string>)
      requires Valid()
      modifies this`now, this`lease, this`routes, this`addresses
      ensures old(now) <= now && (smooth ==> now == old(now) && !reply.Failed?)
      ensures quiet ==> lease == old(lease) && routes == old(routes) && addresses == old(addresses)
      ensures match reply
              case Ok(target) => key in routes && target == routes[key]
              case Missing => key !in routes
              case Failed => true
    {
      Interfere();
      var ok := Succeeds();
      if !ok {
        return Failed;
      }
      return if key in routes then Ok(routes[key]) else Missing;
    }

    // The instance holding the address, "" if none.
    method DescribeAddress(allocation: string) returns (reply: Reply<string>)
      requires Valid()
      modifies this`now, this`lease, this`routes, this`addresses
      ensures old(now) <= now && (smooth ==> now == old(now) && reply.Ok?)
      ensures quiet ==> lease == old(lease) && routes == old(routes) && addresses == old(addresses)
      ensures reply.Ok? ==> reply.value == HolderOf(addresses, allocation)
    {
      Interfere();
      var ok := Succeeds();
      if !ok {
        return Failed;
      }
      return Ok(HolderOf(addresses, allocation));
    }

    // The node's own work: reconciling its datapath, or probing the Internet.
    method LocalWork() returns (ok: bool)
      requires Valid()
      modifies this`now, this`lease, this`routes, this`addresses
      ensures old(now) <= now && (smooth ==> now == old(now) && ok)
      ensures quiet ==> lease == old(lease) && routes == old(routes) && addresses == old(addresses)
    {
      Interfere();
      ok := Succeeds();
    }
  }
}
