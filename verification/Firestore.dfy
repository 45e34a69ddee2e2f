/** The Firestore lease of internal/coordination/firestore: the pure decisions, the transactions
    around them, their equivalence with the in-process manager, and safety under clock skew. */
module Firestore {
  import opened Common
  import opened Lease

  const SKEW_ALLOWANCE: Duration := 2 * SECOND

  datatype Document =
    Document(gateway: string, group: string, owner: string, generation: Int64, expiresAt: Time, updatedAt: Time)

  const NO_DOCUMENT := Document("", "", "", 0, ZERO_TIME, ZERO_TIME)

  datatype Decision = Accept(next: Document) | Reject(error: Error)

  predicate StillLive(expiresAt: Time, now: Time) {
    now < expiresAt + SKEW_ALLOWANCE
  }

  function GenerationToFirestore(g: Generation): Option<Int64> {
    if g > MAX_INT64 then None else Some(g)
  }

  function GenerationFromFirestore(g: Int64): Generation {
    if g < 0 then 0 else g
  }

  // Generations survive the conversion to int64 and back; a negative one counts as none.
  lemma GenerationsConvert(g: Generation, stored: Int64)
    ensures GenerationToFirestore(g).Some? ==> GenerationFromFirestore(GenerationToFirestore(g).value) == g
    ensures stored >= 0 ==> GenerationToFirestore(GenerationFromFirestore(stored)) == Some(stored)
    ensures stored < 0 ==> GenerationFromFirestore(stored) == 0
  {
  }

  predicate Fenced(current: Document, record: Record) {
    var generation := GenerationToFirestore(record.generation);
    generation.Some? && current.owner == record.owner && current.generation == generation.value
  }

  function RecordFromDocument(doc: Document): Record {
    Record(doc.group, doc.owner, GenerationFromFirestore(doc.generation), doc.expiresAt, doc.updatedAt)
  }

  function AcquireLease(current: Document, exists_: bool, gateway: string, group: string, owner: string, now: Time,
                        ttl: Duration): Decision {
    if owner == "" then Reject(OwnerRequired)
    else if exists_ && current.owner != "" && current.owner != owner && StillLive(current.expiresAt, now) then
      Reject(HeldByOther)
    else if current.generation == MAX_INT64 then Reject(GenerationExhausted)
    else Accept(Document(gateway, group, owner, current.generation + 1, now + ttl, now))
  }

  function RenewLease(current: Document, record: Record, now: Time, ttl: Duration): Decision {
    if record.owner == "" then Reject(OwnerRequired)
    else if !Fenced(current, record) then Reject(FencingFailed)
    else if !StillLive(current.expiresAt, now) then Reject(Expired)
    else Accept(current.(expiresAt := now + ttl, updatedAt := now))
  }

  function TransferLease(current: Document, record: Record, newOwner: string, now: Time, ttl: Duration): Decision {
    if record.owner == "" then Reject(OwnerRequired)
    else if newOwner == "" then Reject(NewOwnerRequired)
    else if !Fenced(current, record) then Reject(FencingFailed)
    else if !StillLive(current.expiresAt, now) then Reject(Expired)
    else if current.generation == MAX_INT64 then Reject(GenerationExhausted)
    else Accept(current.(owner := newOwner, generation := current.generation + 1,
                           expiresAt := now + ttl, updatedAt := now))
  }

  function ReleaseLease(current: Document, record: Record): Option<Error> {
    if record.owner == "" then Some(OwnerRequired)
    else if !Fenced(current, record) then Some(FencingFailed)
    else None
  }

  datatype Config = Config(gateway: string, group: string, ttl: Duration) {
    predicate Usable() {
      gateway != "" && group != "" && ttl > 0
    }
  }

  // The next document and answer when a decision is carried out as one transaction.
  function Settle(doc: Option<Document>, decision: Decision): (Option<Document>, Outcome) {
    match decision
    case Reject(error) => (doc, Refused(error))
    case Accept(next) => (Some(next), Granted(RecordFromDocument(next)))
  }

  // One backend operation as a transaction on the lease document.
  function Commit(c: Config, doc: Option<Document>, op: Op, now: Time): (Option<Document>, Outcome) {
    if !c.Usable() then (doc, Refused(Misconfigured))
    else if op.Acquire? then
      var current := if doc.Some? then doc.value else NO_DOCUMENT;
      Settle(doc, AcquireLease(current, doc.Some?, c.gateway, c.group, op.owner, now, c.ttl))
    else if op.record.owner == "" then (doc, Refused(OwnerRequired))
    else if doc.None? then (doc, Refused(NotHeld))
    else match op
      case Renew(record) => Settle(doc, RenewLease(doc.value, record, now, c.ttl))
      case Transfer(record, newOwner) => Settle(doc, TransferLease(doc.value, record, newOwner, now, c.ttl))
      case Release(record) =>
        var error := ReleaseLease(doc.value, record);
        if error.Some? then (doc, Refused(error.value)) else (None, Released)
  }

  /** The backend: every method is one transaction on the lease document. */
  class Backend {
    const config: Config
    var doc: Option<Document>

    constructor (config: Config)
      ensures this.config == config && doc == None
    {
      this.config := config;
      doc := None;
    }

    method Acquire(owner: string, now: Time) returns (outcome: Outcome)
      modifies this
      ensures (doc, outcome) == Commit(config, old(doc), Op.Acquire(owner), now)
    {
      if !config.Usable() {
        return Refused(Misconfigured);
      }
      var current := if doc.Some? then doc.value else NO_DOCUMENT;
      var decision := AcquireLease(current, doc.Some?, config.gateway, config.group, owner, now, config.ttl);
      if decision.Reject? {
        return Refused(decision.error);
      }
      doc := Some(decision.next);
      return Granted(RecordFromDocument(decision.next));
    }

    method Renew(record: Record, now: Time) returns (outcome: Outcome)
      modifies this
      ensures (doc, outcome) == Commit(config, old(doc), Op.Renew(record), now)
    {
      var refused := Validate(record.owner);
      if refused.Some? {
        return Refused(refused.value);
      }
      if doc.None? {
        return Refused(NotHeld);
      }
      var decision := RenewLease(doc.value, record, now, config.ttl);
      if decision.Reject? {
        return Refused(decision.error);
      }
      doc := Some(decision.next);
      return Granted(RecordFromDocument(decision.next));
    }

    method Transfer(record: Record, newOwner: string, now: Time) returns (outcome: Outcome)
      modifies this
      ensures (doc, outcome) == Commit(config, old(doc), Op.Transfer(record, newOwner), now)
    {
      var refused := Validate(record.owner);
      if refused.Some? {
        return Refused(refused.value);
      }
      if doc.None? {
        return Refused(NotHeld);
      }
      var decision := TransferLease(doc.value, record, newOwner, now, config.ttl);
      if decision.Reject? {
        return Refused(decision.error);
      }
      doc := Some(decision.next);
      return Granted(RecordFromDocument(decision.next));
    }

    method Release(record: Record) returns (outcome: Outcome)
      modifies this
      ensures forall now :: (doc, outcome) == Commit(config, old(doc), Op.Release(record), now)
    {
      var refused := Validate(record.owner);
      if refused.Some? {
        return Refused(refused.value);
      }
      if doc.None? {
        return Refused(NotHeld);
      }
      var error := ReleaseLease(doc.value, record);
      if error.Some? {
        return Refused(error.value);
      }
      doc := None;
      return Released;
    }

    function Validate(owner: string): Option<Error> {
      if !config.Usable() then Some(Misconfigured) else if owner == "" then Some(OwnerRequired) else None
    }
  }

  // ----- Firestore with TTL t is the in-process manager with TTL t + 2 s -----

  function MemorySettings(c: Config): Settings {
    Settings(c.group, c.ttl + SKEW_ALLOWANCE)
  }

  // A Firestore record seen as a record of the manager with the longer TTL.
  function Extended(record: Record): Record {
    record.(expiresAt := record.expiresAt + SKEW_ALLOWANCE)
  }

  ghost predicate Matches(doc: Option<Document>, record: Record) {
    match doc
    case None => record == NO_RECORD
    case Some(d) => d.owner != "" && 0 <= d.generation && record == Extended(RecordFromDocument(d))
  }

  lemma StepMatchesMemory(c: Config, doc: Option<Document>, record: Record, op: Op, now: Time)
    requires c.Usable() && Named(op) && Matches(doc, record)
    requires doc.Some? ==> doc.value.generation < MAX_INT64 && doc.value.group == c.group
    ensures var (doc', answer) := Commit(c, doc, op, now);
            var (record', outcome) := Apply(MemorySettings(c), record, op, now);
            && Matches(doc', record')
            && (doc'.Some? ==> doc'.value.group == c.group)
            && (answer.Ok() <==> outcome.Ok())
            && (answer.Granted? <==> outcome.Granted?)
            && (answer.Granted? ==> outcome.lease == Extended(answer.lease))
            && (answer.Refused? ==>
                  answer.error == if doc.None? && !op.Acquire? then NotHeld else outcome.error)
  {
  }

  // Without a gateway, a group or a TTL nothing is done, and nothing else is refused for it.
  lemma MisconfiguredIff(c: Config, doc: Option<Document>, op: Op, now: Time)
    ensures Commit(c, doc, op, now).1 == Refused(Misconfigured) <==> c.gateway == "" || c.group == "" || c.ttl <= 0
    ensures Commit(c, doc, op, now).1.Refused? ==> Commit(c, doc, op, now).0 == doc
  {
  }

  function DocAfter(c: Config, es: seq<Event>, i: nat): Option<Document>
    requires i <= |es|
  {
    if i == 0 then None else Commit(c, DocAfter(c, es, i - 1), es[i - 1].op, es[i - 1].now).0
  }

  /** On one clock, every run of the Firestore backend with TTL t gives, event by event, the answers
      of the in-process manager with TTL t + 2 s, up to the 2 s of every expiry time. */
  lemma {:induction false} RunMatchesMemory(c: Config, es: seq<Event>, i: nat)
    requires c.Usable() && i <= |es| < MAX_INT64
    requires forall e :: e in es ==> Named(e.op)
    ensures Matches(DocAfter(c, es, i), After(MemorySettings(c), es, i))
    ensures After(MemorySettings(c), es, i).generation <= i
    ensures DocAfter(c, es, i).Some? ==> DocAfter(c, es, i).value.group == c.group
    ensures i < |es| ==>
              var answer := Commit(c, DocAfter(c, es, i), es[i].op, es[i].now).1;
              var outcome := Answer(MemorySettings(c), es, i);
              && (answer.Ok() <==> outcome.Ok())
              && (answer.Granted? ==> outcome == Granted(Extended(answer.lease)))
  {
    GenerationBounded(MemorySettings(c), es, i);
    if i > 0 {
      RunMatchesMemory(c, es, i - 1);
      assert Named(es[i - 1].op);
      StepMatchesMemory(c, DocAfter(c, es, i - 1), After(MemorySettings(c), es, i - 1), es[i - 1].op, es[i - 1].now);
    }
    if i < |es| {
      assert Named(es[i].op);
      StepMatchesMemory(c, DocAfter(c, es, i), After(MemorySettings(c), es, i), es[i].op, es[i].now);
    }
  }

  // ----- Nodes with their own clocks -----

  // held is what a node remembers: the record of its last successful operation or read, forgotten when it releases it,
  // and at the attempt of a release or a transfer whose answer is lost.
  datatype System = System(doc: Option<Document>, held: map<string, Record>, clock: map<string, Time>)

  datatype Step =
    | Tick(clock: map<string, Time>)             // all clocks move on
    | Act(node: string, op: Op)                  // a node runs a backend operation by its own clock
    | Lose(node: string, op: Op, took: bool)     // the same, but the answer is lost, and perhaps the operation
    | Read(node: string)                         // a node reads the stored lease

  predicate ClocksWithin(clock: map<string, Time>, skew: Duration) {
    forall a, b :: a in clock && b in clock ==> clock[a] - clock[b] <= skew
  }

  // What the nodes may do next: clocks never run backwards nor further apart than skew, and a node
  // acts only under its own name, with any record of its own, however old.
  predicate Enabled(skew: Duration, s: System, step: Step) {
    match step
    case Tick(clock) =>
      && clock.Keys == s.clock.Keys
      && (forall n :: n in clock ==> s.clock[n] <= clock[n])
      && ClocksWithin(clock, skew)
    case Act(node, op) => node in s.clock && node != "" && ByNode(node, op)
    case Lose(node, op, _) => node in s.clock && node != "" && ByNode(node, op)
    case Read(node) => node in s.clock && node != ""
  }

  predicate ByNode(node: string, op: Op) {
    if op.Acquire? then op.owner == node else op.record.owner == node
  }

  function Perform(c: Config, s: System, step: Step): System
    requires step.Act? || step.Lose? ==> step.node in s.clock
  {
    match step
    case Tick(clock) => s.(clock := clock)
    case Act(node, op) =>
      var (doc, answer) := Commit(c, s.doc, op, s.clock[node]);
      s.(doc := doc,
         held := match answer
                 case Granted(lease) => s.held[node := lease]
                 case Released => s.held - {node}
                 case Refused(_) => s.held)
    case Lose(node, op, took) =>
      s.(doc := if took then Commit(c, s.doc, op, s.clock[node]).0 else s.doc,
         held := if op.Release? || op.Transfer? then s.held - {node} else s.held)
    case Read(node) =>
      if s.doc.Some? then s.(held := s.held[node := RecordFromDocument(s.doc.value)]) else s
  }

  // The node holds a record of its own that its own clock calls unexpired.
  predicate Holds(s: System, node: string) {
    node in s.held && node in s.clock && s.held[node].owner == node && s.clock[node] < s.held[node].expiresAt
  }

  ghost predicate MutualExclusion(s: System) {
    forall a, b :: Holds(s, a) && Holds(s, b) ==> a == b
  }

  ghost predicate Start(skew: Duration, s: System) {
    s.doc == None && s.held == map[] && ClocksWithin(s.clock, skew)
  }

  // trace is a run of the system: every state follows from the one before.
  ghost predicate IsRun(c: Config, skew: Duration, trace: seq<System>, steps: seq<Step>) {
    && |trace| == |steps| + 1
    && Start(skew, trace[0])
    && forall i :: 0 <= i < |steps| ==>
         Enabled(skew, trace[i], steps[i]) && trace[i + 1] == Perform(c, trace[i], steps[i])
  }

  // What a node remembers as its own is backed by the stored lease, up to the slack, or expired on the node's clock.
  predicate NodeBacked(slack: Duration, s: System, n: string) {
    n in s.held && n in s.clock && s.held[n].owner == n ==>
      || (s.doc.Some? && s.doc.value.owner == n && s.held[n].expiresAt <= s.doc.value.expiresAt + slack)
      || s.held[n].expiresAt <= s.clock[n]
  }

  // What is stored or remembered as the node's ends at most a TTL and the excess after the time on its clock.
  predicate NodeDated(c: Config, excess: Duration, s: System, n: string) {
    n in s.clock ==>
      && (s.doc.Some? && s.doc.value.owner == n ==> s.doc.value.expiresAt <= s.clock[n] + c.ttl + excess)
      && (n in s.held && s.held[n].owner == n ==> s.held[n].expiresAt <= s.clock[n] + c.ttl + excess)
  }

  ghost predicate Backed(c: Config, skew: Duration, slack: Duration, excess: Duration, s: System) {
    && ClocksWithin(s.clock, skew)
    && s.held.Keys <= s.clock.Keys - {""}
    && forall n :: n in s.clock ==> NodeBacked(slack, s, n) && NodeDated(c, excess, s, n)
  }

  predicate Transfers(step: Step) {
    (step.Act? || step.Lose?) && step.op.Transfer?
  }

  // Only an expired lease, the allowance included, changes hands without its owner.
  lemma OthersWaitForExpiry(c: Config, doc: Document, op: Op, now: Time, node: string)
    requires doc.owner != "" && doc.owner != node
    requires ByNode(node, op)
    ensures Commit(c, Some(doc), op, now).0 == Some(doc) || doc.expiresAt + SKEW_ALLOWANCE <= now
  {
  }

  // Who gets a lease ends it a TTL after the time on the writer's clock.
  lemma CommitIsDated(c: Config, doc: Option<Document>, op: Op, now: Time)
    ensures var (next, answer) := Commit(c, doc, op, now);
            && (next == doc || next == None || next.value.expiresAt == now + c.ttl)
            && (answer.Granted? ==> next.Some? && answer.lease == RecordFromDocument(next.value))
            && (answer.Released? ==> next == None)
            && (next.Some? && next != doc && !op.Transfer? ==>
                  next.value.owner == if op.Acquire? then op.owner else op.record.owner)
  {
  }

  lemma StepKeepsNodeDated(c: Config, skew: Duration, excess: Duration, s: System, step: Step, n: string)
    requires 0 <= excess && ClocksWithin(s.clock, skew) && Enabled(skew, s, step)
    requires Transfers(step) ==> skew <= excess
    requires NodeDated(c, excess, s, n)
    ensures NodeDated(c, excess, Perform(c, s, step), n)
  {
    if step.Act? || step.Lose? {
      CommitIsDated(c, s.doc, step.op, s.clock[step.node]);
      assert n in s.clock ==> s.clock[step.node] - s.clock[n] <= skew;
    }
  }

  lemma StepKeepsNodeBacked(c: Config, skew: Duration, slack: Duration, excess: Duration, s: System, step: Step,
                            n: string)
    requires 0 <= slack && skew + slack <= SKEW_ALLOWANCE && ClocksWithin(s.clock, skew) && Enabled(skew, s, step)
    requires step.Lose? ==> excess <= slack
    requires n != "" && NodeBacked(slack, s, n) && NodeDated(c, excess, s, n)
    ensures NodeBacked(slack, Perform(c, s, step), n)
  {
    if step.Act? || step.Lose? {
      CommitIsDated(c, s.doc, step.op, s.clock[step.node]);
      if n != step.node && s.doc.Some? && s.doc.value.owner == n {
        OthersWaitForExpiry(c, s.doc.value, step.op, s.clock[step.node], step.node);
        assert n in s.clock ==> s.clock[step.node] - s.clock[n] <= skew;
      }
    }
  }

  lemma StepKeepsBacked(c: Config, skew: Duration, slack: Duration, excess: Duration, s: System, step: Step)
    requires 0 <= slack && 0 <= excess && skew + slack <= SKEW_ALLOWANCE
    requires (step.Lose? ==> excess <= slack) && (Transfers(step) ==> skew <= excess)
    requires Backed(c, skew, slack, excess, s) && Enabled(skew, s, step)
    ensures Backed(c, skew, slack, excess, Perform(c, s, step))
  {
    forall n | n in Perform(c, s, step).clock
      ensures NodeBacked(slack, Perform(c, s, step), n) && NodeDated(c, excess, Perform(c, s, step), n)
    {
      StepKeepsNodeDated(c, skew, excess, s, step, n);
      if n != "" {
        StepKeepsNodeBacked(c, skew, slack, excess, s, step, n);
      }
    }
  }

  // Which kinds of steps a run may take: ones whose answer is lost, and transfers.
  datatype Kinds = Kinds(losing: bool, transferring: bool) {
    predicate Allow(step: Step) {
      (step.Lose? ==> losing) && (Transfers(step) ==> transferring)
    }

    // How far apart the clocks may be for what a node remembers to be backed.
    function Strain(skew: Duration): Duration {
      if losing && transferring then skew + skew else skew
    }
  }

  lemma {:induction false} RunKeepsBacked(c: Config, skew: Duration, kinds: Kinds,
                                          trace: seq<System>, steps: seq<Step>, i: nat)
    requires 0 <= skew && kinds.Strain(skew) <= SKEW_ALLOWANCE && IsRun(c, skew, trace, steps) && i < |trace|
    requires forall step :: step in steps ==> kinds.Allow(step)
    ensures Backed(c, skew, if kinds.losing && kinds.transferring then skew else 0,
                   if kinds.transferring then skew else 0, trace[i])
  {
    if i > 0 {
      RunKeepsBacked(c, skew, kinds, trace, steps, i - 1);
      assert steps[i - 1] in steps;
      StepKeepsBacked(c, skew, if kinds.losing && kinds.transferring then skew else 0,
                      if kinds.transferring then skew else 0, trace[i - 1], steps[i - 1]);
    }
  }

  /** With clocks at most 2 s apart, no two nodes ever both hold an unexpired record, also when answers are lost, unless
      there are transfers as well; with both, clocks at most 1 s apart are close enough. */
  lemma NeverTwoHolders(c: Config, skew: Duration, kinds: Kinds, trace: seq<System>, steps: seq<Step>, i: nat)
    requires kinds.Strain(skew) <= SKEW_ALLOWANCE && IsRun(c, skew, trace, steps) && i < |trace|
    requires forall step :: step in steps ==> kinds.Allow(step)
    ensures MutualExclusion(trace[i])
  {
    if skew < 0 {
      ClocksStayWithin(c, skew, trace, steps, i);
    } else {
      RunKeepsBacked(c, skew, kinds, trace, steps, i);
    }
  }

  lemma {:induction false} ClocksStayWithin(c: Config, skew: Duration, trace: seq<System>, steps: seq<Step>, i: nat)
    requires IsRun(c, skew, trace, steps) && i < |trace|
    ensures ClocksWithin(trace[i].clock, skew)
  {
    if i > 0 {
      ClocksStayWithin(c, skew, trace, steps, i - 1);
    }
  }

  // One nanosecond more skew is too much: a slow node still trusts its record when a fast one
  // takes the lease.
  lemma SkewBeyondAllowanceBreaks(c: Config, skew: Duration, a: string, b: string, now: Time)
    returns (trace: seq<System>, steps: seq<Step>)
    requires c.Usable() && SKEW_ALLOWANCE < skew && a != b && a != "" && b != ""
    ensures IsRun(c, skew, trace, steps) && !MutualExclusion(trace[|steps|])
    ensures forall step :: step in steps ==> !step.Lose? && !Transfers(step)
  {
    var s0 := System(None, map[], map[a := now, b := now]);
    var later := now + c.ttl;
    steps := [Act(a, Acquire(a)), Tick(map[a := later - 1, b := later + SKEW_ALLOWANCE]), Act(b, Acquire(b))];
    var s1 := Perform(c, s0, steps[0]);
    var s2 := Perform(c, s1, steps[1]);
    var s3 := Perform(c, s2, steps[2]);
    trace := [s0, s1, s2, s3];
    assert Enabled(skew, s0, steps[0]) && Enabled(skew, s1, steps[1]) && Enabled(skew, s2, steps[2]);
    assert Holds(s3, a) && Holds(s3, b);
  }

  // A lease document under the configuration's names.
  function Stored(c: Config, owner: string, generation: Int64, writtenAt: Time): Document {
    Document(c.gateway, c.group, owner, generation, writtenAt + c.ttl, writtenAt)
  }

  // A fast node takes the lease and hands it to another.
  lemma HandsOver(c: Config, s: System, a: string, b: string)
    requires c.Usable() && a != b && a != "" && b != "" && a in s.clock && s.doc == None
    ensures var first := Stored(c, a, 1, s.clock[a]);
            var second := Stored(c, b, 2, s.clock[a]);
            && Perform(c, s, Act(a, Acquire(a))).doc == Some(first)
            && Perform(c, s, Act(a, Acquire(a))).clock == s.clock
            && Perform(c, Perform(c, s, Act(a, Acquire(a))), Act(a, Transfer(RecordFromDocument(first), b))) ==
               System(Some(second), s.held[a := RecordFromDocument(second)], s.clock)
  {
  }

  // A slow node reads its lease and renews it without an answer: the stored lease gets shorter.
  lemma Shortens(c: Config, s: System, b: string)
    requires c.Usable() && b != "" && b in s.clock && s.doc.Some? && s.doc.value.owner == b
    requires s.doc.value.gateway == c.gateway && s.doc.value.group == c.group && s.clock[b] < s.doc.value.expiresAt
    requires 0 <= s.doc.value.generation <= MAX_INT64
    ensures var record := RecordFromDocument(s.doc.value);
            var next := Stored(c, b, s.doc.value.generation, s.clock[b]);
            Perform(c, Perform(c, s, Read(b)), Lose(b, Renew(record), true)) ==
            System(Some(next), s.held[b := record], s.clock)
  {
  }

  // The whole run: one hands over, the other shortens.
  lemma HandsOverAndShortens(c: Config, skew: Duration, a: string, b: string, now: Time)
    returns (trace: seq<System>, steps: seq<Step>)
    requires c.Usable() && 0 < skew && a != b && a != "" && b != ""
    ensures IsRun(c, skew, trace, steps)
    ensures var second := RecordFromDocument(Stored(c, b, 2, now + skew));
            trace[|steps|] == System(Some(Stored(c, b, 2, now)), map[a := second, b := second],
                                     map[a := now + skew, b := now])
  {
    var s0 := System(None, map[], map[a := now + skew, b := now]);
    trace, steps := HandOverRun(c, skew, [s0], [], a, b);
    trace, steps := ShortenRun(c, skew, trace, steps, b);
  }

  lemma HandOverRun(c: Config, skew: Duration, trace: seq<System>, steps: seq<Step>, a: string, b: string)
    returns (trace': seq<System>, steps': seq<Step>)
    requires IsRun(c, skew, trace, steps)
    requires c.Usable() && a != b && a != "" && b != "" && a in trace[|steps|].clock && trace[|steps|].doc == None
    ensures IsRun(c, skew, trace', steps')
    ensures var s := trace[|steps|];
            var second := Stored(c, b, 2, s.clock[a]);
            trace'[|steps'|] == System(Some(second), s.held[a := RecordFromDocument(second)], s.clock)
  {
    var s := trace[|steps|];
    HandsOver(c, s, a, b);
    trace', steps' := RunExtends(c, skew, trace, steps, Act(a, Acquire(a)));
    trace', steps' := RunExtends(c, skew, trace', steps',
                                 Act(a, Transfer(RecordFromDocument(Stored(c, a, 1, s.clock[a])), b)));
  }

  lemma ShortenRun(c: Config, skew: Duration, trace: seq<System>, steps: seq<Step>, b: string)
    returns (trace': seq<System>, steps': seq<Step>)
    requires IsRun(c, skew, trace, steps)
    requires var s := trace[|steps|];
             && c.Usable() && b != "" && b in s.clock && s.doc.Some? && s.doc.value.owner == b
             && s.doc.value.gateway == c.gateway && s.doc.value.group == c.group
             && s.clock[b] < s.doc.value.expiresAt && 0 <= s.doc.value.generation <= MAX_INT64
    ensures IsRun(c, skew, trace', steps')
    ensures var s := trace[|steps|];
            trace'[|steps'|] == System(Some(Stored(c, b, s.doc.value.generation, s.clock[b])),
                                       s.held[b := RecordFromDocument(s.doc.value)], s.clock)
  {
    var s := trace[|steps|];
    Shortens(c, s, b);
    trace', steps' := RunExtends(c, skew, trace, steps, Read(b));
    trace', steps' := RunExtends(c, skew, trace', steps', Lose(b, Renew(RecordFromDocument(s.doc.value)), true));
  }

  // With a lost answer after a transfer half the skew is too much: a fast node hands the lease to a slow one, whose
  // renewal shortens the stored lease without its knowing.
  lemma LostRenewalBreaks(c: Config, skew: Duration, a: string, b: string, now: Time)
    returns (trace: seq<System>, steps: seq<Step>)
    requires c.Usable() && SKEW_ALLOWANCE < skew + skew && a != b && a != "" && b != ""
    ensures IsRun(c, skew, trace, steps) && !MutualExclusion(trace[|steps|])
  {
    var later := now + skew + c.ttl - 1;
    trace, steps := HandsOverAndShortens(c, skew, a, b, now);
    trace, steps := RunExtends(c, skew, trace, steps, Tick(map[a := later + skew, b := later]));
    BothHold(c, trace[|steps|], a, b);
    trace, steps := RunExtends(c, skew, trace, steps, Act(a, Acquire(a)));
  }

  lemma RunExtends(c: Config, skew: Duration, trace: seq<System>, steps: seq<Step>, step: Step)
    returns (trace': seq<System>, steps': seq<Step>)
    requires IsRun(c, skew, trace, steps) && Enabled(skew, trace[|steps|], step)
    ensures steps' == steps + [step] && trace' == trace + [Perform(c, trace[|steps|], step)]
    ensures IsRun(c, skew, trace', steps') && trace'[|steps'|] == Perform(c, trace[|steps|], step)
  {
    trace', steps' := trace + [Perform(c, trace[|steps|], step)], steps + [step];
  }

  lemma BothHold(c: Config, s: System, a: string, b: string)
    requires c.Usable() && a != b && a != "" && a in s.clock && Holds(s, b) && s.doc.Some?
    requires s.doc.value.expiresAt + SKEW_ALLOWANCE <= s.clock[a] && s.doc.value.generation < MAX_INT64
    ensures !MutualExclusion(Perform(c, s, Act(a, Acquire(a))))
  {
    var next := Perform(c, s, Act(a, Acquire(a)));
    assert Holds(next, a) && Holds(next, b);
  }

  ghost predicate AlwaysExclusive(c: Config, skew: Duration, kinds: Kinds) {
    forall trace: seq<System>, steps: seq<Step> ::
      IsRun(c, skew, trace, steps) && (forall step :: step in steps ==> kinds.Allow(step)) ==>
        MutualExclusion(trace[|steps|])
  }

  /** The 2 s allowance is exactly right: mutual exclusion holds in every run if and only if the clocks are never more
      than 2 s apart, or 1 s where answers may be lost and leases transferred. */
  lemma ExclusiveIffSkewAllowed(c: Config, skew: Duration, kinds: Kinds)
    requires c.Usable()
    ensures AlwaysExclusive(c, skew, kinds) <==> kinds.Strain(skew) <= SKEW_ALLOWANCE
  {
    if kinds.Strain(skew) <= SKEW_ALLOWANCE {
      forall trace: seq<System>, steps: seq<Step> |
        IsRun(c, skew, trace, steps) && (forall step :: step in steps ==> kinds.Allow(step))
        ensures MutualExclusion(trace[|steps|])
      {
        NeverTwoHolders(c, skew, kinds, trace, steps, |steps|);
      }
    } else if SKEW_ALLOWANCE < skew {
      var trace, steps := SkewBeyondAllowanceBreaks(c, skew, "a", "b", 0);
    } else {
      var trace, steps := LostRenewalBreaks(c, skew, "a", "b", 0);
    }
  }
}
