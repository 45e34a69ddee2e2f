/** Many supervisor loops on one lease store, interleaved call by call: any node may read, run its next operation,
    report, stop or crash between any two calls of another. */
module Interleaving {
  import opened Common
  import opened Lease
  import opened Stores
  import opened World
  import opened Controller
  import opened Protocol

  // How far a node is in its loop.
  datatype Progress =
    | Resting                         // between two steps
    | Seeing(reply: Reply<Record>)    // has read the lease, and not yet the clock
    | Doing(plan: Plan)
    | Stopping(record: Record)        // about to release what it remembers

  datatype Peer = Peer(latest: StepResult, owned: Record, progress: Progress)

  datatype System = System(lease: Record, now: Time, peers: map<string, Peer>)

  datatype Event =
    | Pass(to: Time)
    | ReadLease(node: string, answers: bool)
    | Judge(node: string)
    | Operate(node: string, operation: Operation, took: bool)
    | Report(node: string, result: StepResult)
    | Stop(node: string)
    | Crash(node: string)

  // reporting holds the nodes with a status reporter.
  datatype Setup = Setup(terms: Terms, reporting: set<string>)

  predicate Enabled(u: Setup, s: System, e: Event) {
    match e
    case Pass(to) => s.now <= to
    case ReadLease(n, _) => n in s.peers && s.peers[n].progress.Resting?
    case Judge(n) => n in s.peers && s.peers[n].progress.Seeing?
    case Operate(n, o, _) => n in s.peers && Provides(n, s.peers[n].progress, o) && Answers(u, s, o)
    case Report(n, result) =>
      n in s.peers && s.peers[n].progress.Doing? && MayReport(s.peers[n].progress.plan, result)
    case Stop(n) => n in s.peers && s.peers[n].progress.Resting?
    case Crash(n) => n in s.peers
  }

  // The node's progress provides for the operation.
  predicate Provides(n: string, progress: Progress, o: Operation) {
    match progress
    case Doing(plan) => Next(n, plan, o).Some?
    case Stopping(record) => o.op == Release(record)
    case _ => false
  }

  // The store's answer, if there is one, is its own.
  predicate Answers(u: Setup, s: System, o: Operation) {
    o.outcome.Some? ==> o.outcome.value == Act(u.terms, s.lease, o.op, s.now).1
  }

  function ReplyOf(lease: Record, answers: bool): Reply<Record> {
    if !answers then Failed else if lease.owner == "" then Missing else Ok(lease)
  }

  function Perform(u: Setup, s: System, e: Event): System
    requires Enabled(u, s, e)
  {
    match e
    case Pass(to) => s.(now := to)
    case ReadLease(n, answers) => With(s, n, s.peers[n].(progress := Seeing(ReplyOf(s.lease, answers))))
    case Judge(n) =>
      var p := s.peers[n];
      var previous := PreviousOwned(n in u.reporting, p.latest, n, s.now);
      With(s, n, p.(progress := Doing(Decide(n, previous, p.progress.reply, s.now))))
    case Operate(n, o, took) =>
      var progress := if s.peers[n].progress.Stopping? then Resting
                      else Doing(Next(n, s.peers[n].progress.plan, o).value);
      var lease := if o.outcome.Some? || took then Act(u.terms, s.lease, o.op, s.now).0 else s.lease;
      With(s, n, s.peers[n].(progress := progress)).(lease := lease)
    case Report(n, result) =>
      With(s, n, Peer(result, LatestOwnedLease(s.peers[n].owned, result, n, s.now), Resting))
    case Stop(n) =>
      var owned := s.peers[n].owned;
      With(s, n, Peer(FRESH, NO_RECORD, if owned.owner == n then Stopping(owned) else Resting))
    case Crash(n) => With(s, n, Peer(FRESH, NO_RECORD, Resting))
  }

  const FRESH := StepResult(INIT, NO_RECORD, false)

  function With(s: System, n: string, p: Peer): System {
    s.(peers := s.peers[n := p])
  }

  predicate Runs(u: Setup, s: System, events: seq<Event>)
    decreases |events|
  {
    events == [] || (Enabled(u, s, events[0]) && Runs(u, Perform(u, s, events[0]), events[1..]))
  }

  function After(u: Setup, s: System, events: seq<Event>): System
    requires Runs(u, s, events)
    decreases |events|
  {
    if events == [] then s else After(u, Perform(u, s, events[0]), events[1..])
  }

  function Start(nodes: set<string>, now: Time): System {
    System(NO_RECORD, now, map n | n in nodes :: Peer(FRESH, NO_RECORD, Resting))
  }

  // The node's latest result is ACTIVE under a lease that has not expired.
  predicate Claims(s: System, n: string) {
    n in s.peers && s.peers[n].latest.state == ACTIVE && Live(s.peers[n].latest.lease, s.now)
  }

  ghost predicate Exclusive(s: System) {
    forall a, b :: Claims(s, a) && Claims(s, b) ==> a == b
  }

  // ----- What every event keeps -----

  // The stored lease is the node's, at least up to this time.
  predicate Covers(s: System, n: string, expiresAt: Time) {
    s.lease.owner == n && expiresAt <= s.lease.expiresAt
  }

  predicate Covered(s: System, n: string, record: Record) {
    record.owner == n && (Live(record, s.now) ==> Covers(s, n, record.expiresAt))
  }

  predicate ProgressSound(s: System, n: string)
    requires n in s.peers
  {
    match s.peers[n].progress
    case Resting => true
    case Seeing(reply) =>
      Claims(s, n) && !reply.Failed? ==>
        reply.Ok? && reply.value.owner == n && s.peers[n].latest.lease.expiresAt <= reply.value.expiresAt
    case Stopping(record) => record.owner == n && s.peers[n].latest.state != ACTIVE
    case Doing(plan) =>
      match plan
      case Renewing(current) => current.owner == n
      case Acquiring(_) => !Claims(s, n)
      case Holding(renewed) => Covered(s, n, renewed)
      case Activating(acquired, _) => !Claims(s, n) && Covered(s, n, acquired)
      case Reporting(state, _) => state != ACTIVE
  }

  predicate PeerSound(s: System, n: string)
    requires n in s.peers
  {
    && NodeResolved(n)
    && (s.peers[n].latest.state == ACTIVE ==> Covered(s, n, s.peers[n].latest.lease))
    && ProgressSound(s, n)
  }

  // No lease ends later than one granted now would.
  predicate LeaseSound(u: Setup, s: System) {
    u.terms.Sound() && (s.lease.owner != "" ==> s.lease.expiresAt <= u.terms.Kept(s.now + u.terms.ttl))
  }

  ghost predicate Sound(u: Setup, s: System) {
    LeaseSound(u, s) && forall n :: n in s.peers ==> PeerSound(s, n)
  }

  lemma KeptIsMonotone(k: Terms, a: Time, b: Time)
    requires a <= b
    ensures k.Kept(a) <= k.Kept(b)
  {
  }

  // A node's operation, under its own name, leaves another's live lease alone, and never shortens its own.
  lemma OperationRespects(u: Setup, s: System, op: Op, actor: string, n: string)
    requires LeaseSound(u, s) && actor != "" && (if op.Acquire? then op.owner == actor else op.record.owner == actor)
    requires s.lease.owner == n != "" && Live(s.lease, s.now) && !op.Transfer? && (actor == n ==> !op.Release?)
    ensures var next := Act(u.terms, s.lease, op, s.now).0;
            next.owner == n && s.lease.expiresAt <= next.expiresAt
  {
  }

  lemma LeaseStaysSound(u: Setup, s: System, e: Event)
    requires LeaseSound(u, s) && Enabled(u, s, e) && (e.Operate? ==> !e.operation.op.Transfer?)
    ensures LeaseSound(u, Perform(u, s, e))
  {
    if e.Pass? {
      KeptIsMonotone(u.terms, s.now + u.terms.ttl, e.to + u.terms.ttl);
    }
  }

  // What a node may do keeps to its own name and transfers nothing.
  lemma OwnName(u: Setup, s: System, e: Event)
    requires e.Operate? && Enabled(u, s, e) && PeerSound(s, e.node)
    ensures !e.operation.op.Transfer? && e.node != ""
    ensures if e.operation.op.Acquire? then e.operation.op.owner == e.node else e.operation.op.record.owner == e.node
  {
  }

  // What others do leaves a node's standing as it was.
  lemma OthersKeepPeer(u: Setup, s: System, e: Event, n: string)
    requires Sound(u, s) && Enabled(u, s, e) && n in s.peers
    requires e.Pass? || e.node != n
    ensures n in Perform(u, s, e).peers && PeerSound(Perform(u, s, e), n)
  {
    if e.Operate? {
      OwnName(u, s, e);
      if s.lease.owner == n && Live(s.lease, s.now) {
        OperationRespects(u, s, e.operation.op, e.node, n);
      }
    }
  }

  // A node's own operation keeps its standing.
  lemma OperationKeepsPeer(u: Setup, s: System, e: Event)
    requires Sound(u, s) && Enabled(u, s, e) && e.Operate?
    ensures PeerSound(Perform(u, s, e), e.node)
  {
    OwnName(u, s, e);
    if s.lease.owner == e.node && Live(s.lease, s.now) && !e.operation.op.Release? {
      OperationRespects(u, s, e.operation.op, e.node, e.node);
    }
    if e.operation.Granted() {
      GrantIsAssured(u.terms, s.lease, e.operation.op, s.now);
    }
  }

  // With a reporter a node that cannot read the lease holds still for as long as its last result stands.
  lemma JudgeKeepsPeer(u: Setup, s: System, e: Event)
    requires Sound(u, s) && Enabled(u, s, e) && e.Judge? && e.node in u.reporting
    ensures PeerSound(Perform(u, s, e), e.node)
  {
  }

  lemma OwnKeepsPeer(u: Setup, s: System, e: Event)
    requires Sound(u, s) && Enabled(u, s, e) && !e.Pass? && s.peers.Keys <= u.reporting
    ensures e.node in Perform(u, s, e).peers && PeerSound(Perform(u, s, e), e.node)
  {
    match e
    case Operate(_, _, _) => OperationKeepsPeer(u, s, e);
    case Judge(_) => JudgeKeepsPeer(u, s, e);
    case _ =>
  }

  lemma EventKeepsSound(u: Setup, s: System, e: Event)
    requires Sound(u, s) && Enabled(u, s, e) && s.peers.Keys <= u.reporting
    ensures Sound(u, Perform(u, s, e)) && Perform(u, s, e).peers.Keys == s.peers.Keys
  {
    if e.Operate? {
      OwnName(u, s, e);
    }
    LeaseStaysSound(u, s, e);
    forall n | n in s.peers
      ensures PeerSound(Perform(u, s, e), n)
    {
      if e.Pass? || e.node != n {
        OthersKeepPeer(u, s, e, n);
      } else {
        OwnKeepsPeer(u, s, e);
      }
    }
  }

  lemma {:induction false} RunKeepsSound(u: Setup, s: System, events: seq<Event>)
    requires Sound(u, s) && Runs(u, s, events) && s.peers.Keys <= u.reporting
    ensures Sound(u, After(u, s, events))
    decreases |events|
  {
    if events != [] {
      EventKeepsSound(u, s, events[0]);
      RunKeepsSound(u, Perform(u, s, events[0]), events[1..]);
    }
  }

  /** With a status reporter at every node, in every call-by-call interleaving of their loops, whatever fails, at most
      one node's latest result is ACTIVE under an unexpired lease, and that node is the stored holder. */
  lemma AtMostOneActive(u: Setup, nodes: set<string>, now: Time, events: seq<Event>)
    requires u.terms.Sound() && nodes <= u.reporting && forall n :: n in nodes ==> NodeResolved(n)
    requires Runs(u, Start(nodes, now), events)
    ensures var s := After(u, Start(nodes, now), events);
            Exclusive(s) && forall n :: Claims(s, n) ==> s.lease.owner == n && Live(s.lease, s.now)
  {
    RunKeepsSound(u, Start(nodes, now), events);
    var s := After(u, Start(nodes, now), events);
    assert forall n :: n in s.peers ==> PeerSound(s, n);
  }

  // ----- The machine's steps are the supervisor's -----

  // The operations of one node among these events.
  function Own(events: seq<Event>, n: string): seq<Operation> {
    if events == [] then []
    else
      var rest := Own(events[1..], n);
      if events[0].Operate? && events[0].node == n then [events[0].operation] + rest else rest
  }

  // Nothing but operations of the node, and anything of others.
  predicate Within(events: seq<Event>, n: string) {
    forall e :: e in events && !e.Pass? && e.node == n ==> e.Operate?
  }

  /** Whatever others do in between, from its decision on a node in this machine can report exactly the results that
      follow the protocol with the operations it has run: what the real step ensures of itself. */
  lemma {:induction false} ReportsWhatFollows(u: Setup, s: System, events: seq<Event>, n: string, result: StepResult)
    requires n in s.peers && s.peers[n].progress.Doing? && Runs(u, s, events) && Within(events, n)
    ensures n in After(u, s, events).peers && After(u, s, events).peers[n].progress.Doing?
    ensures Carry(n, s.peers[n].progress.plan, Own(events, n)) == Some(After(u, s, events).peers[n].progress.plan)
    ensures Enabled(u, After(u, s, events), Report(n, result)) <==>
            Follows(n, s.peers[n].progress.plan, Own(events, n), result)
    decreases |events|
  {
    if events != [] {
      var e := events[0];
      assert e in events;
      ReportsWhatFollows(u, Perform(u, s, e), events[1..], n, result);
      if e.Operate? && e.node == n {
        var rest := Own(events[1..], n);
        assert ([e.operation] + rest)[1..] == rest;
      }
    }
  }

  // ----- Without a reporter -----

  lemma {:induction false} RunsJoin(u: Setup, s: System, first: seq<Event>, second: seq<Event>)
    requires Runs(u, s, first) && Runs(u, After(u, s, first), second)
    ensures Runs(u, s, first + second) && After(u, s, first + second) == After(u, After(u, s, first), second)
    decreases |first|
  {
    if first == [] {
      assert first + second == second;
    } else {
      RunsJoin(u, Perform(u, s, first[0]), first[1..], second);
      assert (first + second)[1..] == first[1..] + second;
    }
  }

  // An idle node that finds the lease free, or cannot read it and has no reporter, takes it.
  lemma Takes(u: Setup, s: System, n: string, answers: bool) returns (events: seq<Event>)
    requires u.terms.Sound() && NodeResolved(n) && n in s.peers && s.peers[n].progress == Resting
    requires if answers then s.lease.owner == "" else s.lease.owner == n
    requires n !in u.reporting || (answers && s.peers[n].latest == FRESH)
    requires 0 <= s.lease.generation < 2
    ensures Runs(u, s, events)
    ensures var r := Act(u.terms, s.lease, Acquire(n), s.now).0;
            && r.owner == n && r.generation == s.lease.generation + 1 && Live(r, s.now)
            && After(u, s, events) ==
               With(s, n, s.peers[n].(progress := Doing(Activating(r, NO_RECORD)))).(lease := r)
  {
    var (r, answer) := Act(u.terms, s.lease, Acquire(n), s.now);
    GrantIsAssured(u.terms, s.lease, Acquire(n), s.now);
    var read, judge := ReadLease(n, answers), Judge(n);
    var take := Operate(n, Operation(Acquire(n), Some(answer)), true);
    var s1 := Perform(u, s, read);
    var s2 := Perform(u, s1, judge);
    assert s2 == With(s, n, s.peers[n].(progress := Doing(Acquiring(NO_RECORD))));
    var s3 := Perform(u, s2, take);
    events := [read, judge, take];
    RunOfThree(u, s, read, judge, take);
  }

  lemma RunOfThree(u: Setup, s: System, a: Event, b: Event, c: Event)
    requires Enabled(u, s, a) && Enabled(u, Perform(u, s, a), b)
    requires Enabled(u, Perform(u, Perform(u, s, a), b), c)
    ensures Runs(u, s, [a, b, c])
    ensures After(u, s, [a, b, c]) == Perform(u, Perform(u, Perform(u, s, a), b), c)
  {
    RunOfOne(u, s, a);
    RunOfOne(u, Perform(u, s, a), b);
    RunsJoin(u, s, [a], [b]);
    RunOfOne(u, Perform(u, Perform(u, s, a), b), c);
    RunsJoin(u, s, [a] + [b], [c]);
    assert [a] + [b] + [c] == [a, b, c];
  }

  lemma RunOfOne(u: Setup, s: System, e: Event)
    requires Enabled(u, s, e)
    ensures Runs(u, s, [e]) && After(u, s, [e]) == Perform(u, s, e)
  {
  }

  // It reports that it is active.
  lemma TakesAndReports(u: Setup, s: System, n: string) returns (events: seq<Event>)
    requires u.terms.Sound() && NodeResolved(n) && n in s.peers && s.peers[n].progress == Resting
    requires s.lease == NO_RECORD && s.peers[n].latest == FRESH
    ensures Runs(u, s, events)
    ensures var t := After(u, s, events);
            && Claims(t, n) && t.peers[n].progress == Resting && t.now == s.now
            && t.lease.owner == n && t.lease.generation == 1 && t.peers.Keys == s.peers.Keys
            && forall m :: m in s.peers && m != n ==> t.peers[m] == s.peers[m]
  {
    events := Takes(u, s, n, true);
    var won := After(u, s, events);
    var report := Report(n, StepResult(ACTIVE, won.lease, false));
    RunOfOne(u, won, report);
    RunsJoin(u, s, events, [report]);
    events := events + [report];
  }

  // Without a reporter it takes its own lease again when it cannot read it, fails and gives it back, while its last
  // result is still ACTIVE.
  lemma GivesBackWhileActive(u: Setup, s: System, n: string) returns (events: seq<Event>)
    requires u.terms.Sound() && NodeResolved(n) && n in s.peers && s.peers[n].progress == Resting
    requires n !in u.reporting && s.lease.owner == n && s.lease.generation == 1
    ensures Runs(u, s, events)
    ensures var t := After(u, s, events);
            && t.lease == NO_RECORD && t.now == s.now && t.peers.Keys == s.peers.Keys
            && t.peers[n].latest == s.peers[n].latest && forall m :: m in s.peers && m != n ==> t.peers[m] == s.peers[m]
  {
    events := Takes(u, s, n, false);
    var won := After(u, s, events);
    var release := Operate(n, Operation(Release(won.lease), Some(Released)), true);
    RunOfOne(u, won, release);
    RunsJoin(u, s, events, [release]);
    events := events + [release];
  }

  /** The run that goes wrong: two nodes ACTIVE under unexpired leases. */
  lemma TwoActive(u: Setup, nodes: set<string>, a: string, b: string, now: Time) returns (events: seq<Event>)
    requires u.terms.Sound() && a in nodes && b in nodes && a != b && NodeResolved(a) && NodeResolved(b)
    requires a !in u.reporting
    ensures Runs(u, Start(nodes, now), events)
    ensures Claims(After(u, Start(nodes, now), events), a) && Claims(After(u, Start(nodes, now), events), b)
  {
    var s := Start(nodes, now);
    events := TakesAndReports(u, s, a);
    var s1 := After(u, s, events);
    var back := GivesBackWhileActive(u, s1, a);
    RunsJoin(u, s, events, back);
    events := events + back;
    var s2 := After(u, s, events);
    var taken := TakesAndReports(u, s2, b);
    RunsJoin(u, s, events, taken);
    events := events + taken;
  }

  ghost predicate AlwaysExclusive(u: Setup, nodes: set<string>, now: Time) {
    forall events :: Runs(u, Start(nodes, now), events) ==> Exclusive(After(u, Start(nodes, now), events))
  }

  /** Of several nodes at most one is ACTIVE at any time, in every interleaving, if and only if each has a reporter. */
  lemma ExclusiveIffAllReport(u: Setup, nodes: set<string>, now: Time)
    requires u.terms.Sound() && forall n :: n in nodes ==> NodeResolved(n)
    requires exists a, b :: a in nodes && b in nodes && a != b
    ensures AlwaysExclusive(u, nodes, now) <==> nodes <= u.reporting
  {
    if nodes <= u.reporting {
      forall events | Runs(u, Start(nodes, now), events)
        ensures Exclusive(After(u, Start(nodes, now), events))
      {
        AtMostOneActive(u, nodes, now, events);
      }
    } else {
      var a :| a in nodes && a !in u.reporting;
      var b :| b in nodes && b != a;
      var events := TwoActive(u, nodes, a, b, now);
      assert !Exclusive(After(u, Start(nodes, now), events));
    }
  }
}
