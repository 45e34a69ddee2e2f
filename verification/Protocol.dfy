/** One supervisor step as its lease operations show it (internal/ha/supervisor.go): what it does about the lease it has
    read, operation by operation, and what it may report in the end. */
module Protocol {
  import opened Common
  import opened Lease
  import opened World
  import opened Controller

  datatype State = INIT | STANDBY | TAKING_OVER | ACTIVE | DEGRADED | ERROR

  datatype StepResult = StepResult(state: State, lease: Record, failed: bool)

  // Somebody else's lease, live at time t.
  predicate ForeignLive(lease: Record, local: string, t: Time) {
    lease.owner != "" && lease.owner != local && Live(lease, t)
  }

  // The last reported lease, if the node was active with it and it is unexpired; only a reporter remembers it.
  function PreviousOwned(reporting: bool, latest: StepResult, local: string, now: Time): Record {
    if !reporting || !NodeResolved(local) then NO_RECORD
    else if latest.state != ACTIVE && latest.state != DEGRADED then NO_RECORD
    else if latest.lease.owner != local then NO_RECORD
    else if !Live(latest.lease, now) then NO_RECORD
    else latest.lease
  }

  // The lease record the loop remembers for the release at shutdown.
  function LatestOwnedLease(current: Record, result: StepResult, local: string, now: Time): Record {
    if result.lease.owner == local && Live(result.lease, now) then result.lease
    else if result.lease.owner != "" && result.lease.owner != local && Live(result.lease, now) then NO_RECORD
    else current
  }

  // Where a step stands between its lease operations.
  datatype Plan =
    | Renewing(current: Record)                  // about to renew the lease it holds
    | Acquiring(seen: Record)                    // about to try to take the lease
    | Holding(renewed: Record)                   // has renewed; checks and repairs
    | Activating(acquired: Record, seen: Record) // has the lease; moves the cloud, or gives it back
    | Reporting(state: State, lease: Record)     // nothing left but the report

  // What a step goes on to do after its look at the lease.
  function Decide(local: string, previous: Record, reply: Reply<Record>, at: Time): Plan {
    if !reply.Ok? then
      if previous.owner != "" then Reporting(DEGRADED, previous) else Acquiring(NO_RECORD)
    else if reply.value.owner == local && Live(reply.value, at) then Renewing(reply.value)
    else if ForeignLive(reply.value, local, at) then Reporting(STANDBY, reply.value)
    else Acquiring(reply.value)
  }

  // The plan after a lease operation; None if the plan does not provide for it.
  function Next(local: string, plan: Plan, o: Operation): Option<Plan> {
    match plan
    case Renewing(current) =>
      if o.op != Renew(current) then None
      else if o.Granted() then Some(Holding(o.outcome.value.lease))
      else Some(Reporting(DEGRADED, current))
    case Acquiring(seen) =>
      if o.op != Acquire(local) then None
      else if o.Granted() then Some(Activating(o.outcome.value.lease, seen))
      else Some(Reporting(STANDBY, seen))
    case Activating(acquired, seen) =>
      if o.op != Release(acquired) then None else Some(Reporting(STANDBY, seen))
    case _ => None
  }

  function Carry(local: string, plan: Plan, operations: seq<Operation>): Option<Plan>
    decreases |operations|
  {
    if operations == [] then Some(plan)
    else
      var next := Next(local, plan, operations[0]);
      if next.None? then None else Carry(local, next.value, operations[1..])
  }

  // The results a step can report from here.
  predicate MayReport(plan: Plan, result: StepResult) {
    match plan
    case Holding(renewed) => result.lease == renewed && result.state in {ACTIVE, INIT, DEGRADED}
    case Activating(acquired, _) => result.lease == acquired && result.state == ACTIVE
    case Reporting(state, lease) => result.lease == lease && result.state == state
    case _ => false
  }

  // A step that decided on plan, ran these operations and reported this result keeps to the protocol.
  predicate Follows(local: string, plan: Plan, operations: seq<Operation>, result: StepResult) {
    Carry(local, plan, operations).Some? && MayReport(Carry(local, plan, operations).value, result)
  }

  // What it comes to, in terms of the record read, the last report and the clock. A lease of the node's own that is
  // live is renewed first, somebody else's is left alone; a node whose last report, as active or degraded, still stands
  // holds still when it cannot read the lease; and everything else begins with an acquire.
  lemma FollowingBegins(local: string, reporting: bool, latest: StepResult, reply: Reply<Record>, at: Time,
                        operations: seq<Operation>, result: StepResult)
    requires local != "" && local != "auto"
    requires Follows(local, Decide(local, PreviousOwned(reporting, latest, local, at), reply, at), operations, result)
    ensures !reply.Ok? ==>
              if reporting && latest.state in {ACTIVE, DEGRADED} && latest.lease.owner == local
                 && at < latest.lease.expiresAt
              then operations == [] && result.state == DEGRADED && result.lease == latest.lease
              else |operations| > 0 && operations[0].op == Acquire(local)
    ensures reply.Ok? && reply.value.owner in {"", local} ==>
              && |operations| > 0
              && operations[0].op == if reply.value.owner == local && at < reply.value.expiresAt
                                     then Renew(reply.value) else Acquire(local)
    ensures reply.Ok? && reply.value.owner !in {"", local} ==>
              if at < reply.value.expiresAt
              then operations == [] && result.state == STANDBY && result.lease == reply.value
              else |operations| > 0 && operations[0].op == Acquire(local)
  {
  }

  // How it goes on: what was granted is reported, as held or as taken, or what was taken is given back.
  lemma FollowingEnds(local: string, plan: Plan, operations: seq<Operation>, result: StepResult)
    requires Follows(local, plan, operations, result) && |operations| > 0 && (plan.Renewing? || plan.Acquiring?)
    ensures |operations| <= 2
    ensures operations[0].op == if plan.Renewing? then Renew(plan.current) else Acquire(local)
    ensures operations[0].Granted() ==>
              var granted := operations[0].outcome.value.lease;
              if plan.Renewing? then
                |operations| == 1 && result.lease == granted && result.state in {ACTIVE, INIT, DEGRADED}
              else if |operations| == 1 then result.state == ACTIVE && result.lease == granted
              else operations[1].op == Release(granted) && result.state == STANDBY && result.lease == plan.seen
    ensures !operations[0].Granted() ==>
              && |operations| == 1
              && result.state == (if plan.Renewing? then DEGRADED else STANDBY)
              && result.lease == (if plan.Renewing? then plan.current else plan.seen)
  {
    var next, rest := Next(local, plan, operations[0]).value, operations[1..];
    assert Carry(local, plan, operations) == Carry(local, next, rest);
    if |rest| > 0 {
      var last := Next(local, next, rest[0]).value;
      assert Carry(local, next, rest) == Carry(local, last, rest[1..]);
      assert last.Reporting? && rest[1..] == [];
      assert operations[1] == rest[0];
    }
  }

  // An activation keeps to it.
  lemma ActivationFollows(local: string, seen: Record, operations: seq<Operation>, activation: Activation,
                          tenure: Tenure, result: StepResult)
    requires Attempts(operations, local, activation, tenure)
    requires match activation
             case Activated(lease, _) => result.state == ACTIVE && result.lease == lease
             case NotActivated => result.state == STANDBY && result.lease == seen
    ensures Follows(local, Acquiring(seen), operations, result)
  {
    var rest := operations[1..];
    assert Next(local, Acquiring(seen), operations[0]).Some?;
    if |operations| == 1 {
      assert rest == [];
    } else {
      var acquired := operations[0].outcome.value.lease;
      assert rest[0] == operations[1] && rest[1..] == [];
      assert Carry(local, Activating(acquired, seen), rest) == Carry(local, Reporting(STANDBY, seen), []);
    }
  }
}
