/** The fenced lease, as the in-process manager of internal/lease/lease.go keeps it, and
    what that manager promises over whole runs. */
module Lease {

  // Times and durations are nanoseconds; times count from the Unix epoch.
  type Time = int
  type Duration = int

  const SECOND: Duration := 1_000_000_000

  // The instant Go's zero time.Time stands for: 0001-01-01T00:00:00Z.
  const ZERO_TIME: Time := -62_135_596_800 * SECOND

  // Generations are Go uint64 values.
  const GENERATION_COUNT: nat := 0x1_0000_0000_0000_0000
  type Generation = g: nat | g < GENERATION_COUNT

  datatype Record = Record(group: string, owner: string, generation: Generation, expiresAt: Time, updatedAt: Time)

  const NO_RECORD := Record("", "", 0, ZERO_TIME, ZERO_TIME)

  datatype Settings = Settings(group: string, ttl: Duration)

  datatype Op =
    | Acquire(owner: string)
    | Renew(record: Record)
    | Release(record: Record)
    | Transfer(record: Record, newOwner: string)

  datatype Error =
    OwnerRequired | NewOwnerRequired | HeldByOther | FencingFailed | Expired | NotHeld
    | GenerationExhausted | Misconfigured

  datatype Outcome = Granted(lease: Record) | Released | Refused(error: Error) {
    predicate Ok() {
      !Refused?
    }
  }

  // The operation names its node. The shared stores refuse a nameless record outright, where the
  // in-process manager compares it like any other.
  predicate Named(op: Op) {
    op.Acquire? || op.record.owner != ""
  }

  // uint64 increment.
  function NextGeneration(g: Generation): Generation {
    (g + 1) % GENERATION_COUNT
  }

  predicate SameOwnerAndGeneration(a: Record, b: Record) {
    a.owner == b.owner && a.generation == b.generation
  }

  predicate Live(record: Record, now: Time) {
    now < record.expiresAt
  }

  // One operation of the manager at clock reading now: the next stored record and the answer.
  function Apply(s: Settings, current: Record, op: Op, now: Time): (Record, Outcome) {
    match op
    case Acquire(owner) =>
      if owner == "" then (current, Refused(OwnerRequired))
      else if current.owner != "" && current.owner != owner && Live(current, now) then (current, Refused(HeldByOther))
      else
        var next := Record(s.group, owner, NextGeneration(current.generation), now + s.ttl, now);
        (next, Granted(next))
    case Renew(record) =>
      if !SameOwnerAndGeneration(current, record) then (current, Refused(FencingFailed))
      else if !Live(current, now) then (current, Refused(Expired))
      else
        var next := current.(expiresAt := now + s.ttl, updatedAt := now);
        (next, Granted(next))
    case Release(record) =>
      if !SameOwnerAndGeneration(current, record) then (current, Refused(FencingFailed))
      else (NO_RECORD, Released)
    case Transfer(record, newOwner) =>
      if newOwner == "" then (current, Refused(NewOwnerRequired))
      else if !SameOwnerAndGeneration(current, record) then (current, Refused(FencingFailed))
      else if !Live(current, now) then (current, Refused(Expired))
      else
        var next := current.(owner := newOwner, generation := NextGeneration(current.generation),
                             expiresAt := now + s.ttl, updatedAt := now);
        (next, Granted(next))
  }

  /** The in-process manager. Its mutex makes every method one atomic step; the clock reading a
      method takes while holding the mutex is the parameter now. */
  class MemoryManager {
    const settings: Settings
    var record: Record

    constructor (group: string, ttl: Duration)
      ensures settings == Settings(group, ttl) && record == NO_RECORD
    {
      settings := Settings(group, ttl);
      record := NO_RECORD;
    }

    method Acquire(owner: string, now: Time) returns (outcome: Outcome)
      modifies this
      ensures (record, outcome) == Apply(settings, old(record), Op.Acquire(owner), now)
    {
      if owner == "" {
        return Refused(OwnerRequired);
      }
      if record.owner != "" && record.owner != owner && now < record.expiresAt {
        return Refused(HeldByOther);
      }
      record := Record(settings.group, owner, NextGeneration(record.generation), now + settings.ttl, now);
      return Granted(record);
    }

    method Renew(held: Record, now: Time) returns (outcome: Outcome)
      modifies this
      ensures (record, outcome) == Apply(settings, old(record), Op.Renew(held), now)
    {
      if !SameOwnerAndGeneration(record, held) {
        return Refused(FencingFailed);
      }
      if !(now < record.expiresAt) {
        return Refused(Expired);
      }
      record := record.(expiresAt := now + settings.ttl);
      record := record.(updatedAt := now);
      return Granted(record);
    }

    method Release(held: Record) returns (outcome: Outcome)
      modifies this
      ensures forall now :: (record, outcome) == Apply(settings, old(record), Op.Release(held), now)
    {
      if !SameOwnerAndGeneration(record, held) {
        return Refused(FencingFailed);
      }
      record := NO_RECORD;
      return Released;
    }

    method Transfer(held: Record, newOwner: string, now: Time) returns (outcome: Outcome)
      modifies this
      ensures (record, outcome) == Apply(settings, old(record), Op.Transfer(held, newOwner), now)
    {
      if newOwner == "" {
        return Refused(NewOwnerRequired);
      }
      if !SameOwnerAndGeneration(record, held) {
        return Refused(FencingFailed);
      }
      if !(now < record.expiresAt) {
        return Refused(Expired);
      }
      record := record.(owner := newOwner);
      record := record.(generation := NextGeneration(record.generation));
      record := record.(expiresAt := now + settings.ttl);
      record := record.(updatedAt := now);
      return Granted(record);
    }

    // Refused(NotHeld) when nobody owns the lease.
    method Current() returns (outcome: Outcome)
      ensures outcome == if record.owner == "" then Refused(NotHeld) else Granted(record)
    {
      if record.owner == "" {
        return Refused(NotHeld);
      }
      return Granted(record);
    }
  }

  // ----- Runs -----

  datatype Event = Event(op: Op, now: Time)

  // The stored record after the first i events of a run that starts with no lease.
  function After(s: Settings, es: seq<Event>, i: nat): Record
    requires i <= |es|
  {
    if i == 0 then NO_RECORD else Apply(s, After(s, es, i - 1), es[i - 1].op, es[i - 1].now).0
  }

  // The answer to event i.
  function Answer(s: Settings, es: seq<Event>, i: nat): Outcome
    requires i < |es|
  {
    Apply(s, After(s, es, i), es[i].op, es[i].now).1
  }

  // The manager's clock never runs backwards and never reads before year 1.
  ghost predicate ClockOk(es: seq<Event>) {
    && (forall i :: 0 <= i < |es| ==> ZERO_TIME <= es[i].now)
    && (forall i, j :: 0 <= i < j < |es| ==> es[i].now <= es[j].now)
  }

  // Event i is a release or a transfer of owner's own lease that took effect.
  predicate GivesUp(s: Settings, es: seq<Event>, i: nat, owner: string)
    requires i < |es|
  {
    && Answer(s, es, i).Ok()
    && (es[i].op.Release? || es[i].op.Transfer?)
    && es[i].op.record.owner == owner
  }

  predicate Releases(s: Settings, es: seq<Event>, i: nat)
    requires i < |es|
  {
    es[i].op.Release? && Answer(s, es, i).Ok()
  }

  // A lease without an owner is never live, so that only named owners hold it.
  lemma {:induction false} UnownedIsEmpty(s: Settings, es: seq<Event>, i: nat)
    requires ClockOk(es) && i <= |es|
    ensures After(s, es, i).owner == "" ==> After(s, es, i) == NO_RECORD
  {
    if i > 0 {
      UnownedIsEmpty(s, es, i - 1);
    }
  }

  // An unexpired lease that its owner does not give up keeps its owner and expires no earlier.
  lemma StepKeepsPromise(s: Settings, current: Record, op: Op, now: Time, until: Time)
    requires current.owner != "" && now < until <= current.expiresAt && until <= now + s.ttl
    requires !((op.Release? || op.Transfer?) && Apply(s, current, op, now).1.Ok() && op.record.owner == current.owner)
    ensures var next := Apply(s, current, op, now).0; next.owner == current.owner && until <= next.expiresAt
  {
  }

  // Until owner gives the lease up, its promise stands: the stored record stays owner's and
  // never expires earlier than the record it was given at event i.
  lemma {:induction false} PromiseKept(s: Settings, es: seq<Event>, i: nat, j: nat)
    requires ClockOk(es) && i < j <= |es|
    requires Answer(s, es, i).Granted?
    requires j == |es| || es[j].now < Answer(s, es, i).lease.expiresAt
    requires forall k :: i < k < j ==> es[k].now < Answer(s, es, i).lease.expiresAt
    requires forall k :: i < k < j ==> !GivesUp(s, es, k, Answer(s, es, i).lease.owner)
    ensures After(s, es, j).owner == Answer(s, es, i).lease.owner != ""
    ensures Answer(s, es, i).lease.expiresAt <= After(s, es, j).expiresAt
  {
    UnownedIsEmpty(s, es, i);
    if i + 1 < j {
      PromiseKept(s, es, i, j - 1);
      assert !GivesUp(s, es, j - 1, Answer(s, es, i).lease.owner);
      assert es[i].now <= es[j - 1].now;
      StepKeepsPromise(s, After(s, es, j - 1), es[j - 1].op, es[j - 1].now, Answer(s, es, i).lease.expiresAt);
    }
  }

  /** Tenures of different owners never overlap: a grant to somebody else while an earlier grant
      is unexpired happens only after the earlier owner released or transferred its own lease. */
  lemma TenuresNeverOverlap(s: Settings, es: seq<Event>, i: nat, j: nat) returns (k: nat)
    requires ClockOk(es) && i < j < |es|
    requires Answer(s, es, i).Granted? && Answer(s, es, j).Granted?
    requires Answer(s, es, j).lease.owner != Answer(s, es, i).lease.owner
    requires es[j].now < Answer(s, es, i).lease.expiresAt
    ensures i < k <= j && (es[k].op.Release? || es[k].op.Transfer?) && Answer(s, es, k).Ok()
    ensures es[k].op.record.owner == Answer(s, es, i).lease.owner
  {
    var owner := Answer(s, es, i).lease.owner;
    k := i + 1;
    while k < j && !GivesUp(s, es, k, owner)
      invariant i < k <= j
      invariant forall m :: i < m < k ==> !GivesUp(s, es, m, owner)
    {
      k := k + 1;
    }
    if k == j && !GivesUp(s, es, j, owner) {
      forall m | i < m < j ensures es[m].now < Answer(s, es, i).lease.expiresAt {
        assert es[m].now <= es[j].now;
      }
      PromiseKept(s, es, i, j);
      UnownedIsEmpty(s, es, j);
      assert false;
    }
  }

  // Event i is the last one before j that took effect, and it granted the lease.
  ghost predicate LastGrant(s: Settings, es: seq<Event>, i: nat, j: nat)
    requires i < j <= |es|
  {
    Answer(s, es, i).Granted? && forall k :: i < k < j ==> !Answer(s, es, k).Ok()
  }

  // Somebody was granted the lease last, and what they were given satisfies the test.
  ghost predicate LastGranted(s: Settings, es: seq<Event>, j: nat, test: Record -> bool)
    requires j <= |es|
  {
    exists i :: 0 <= i < j && LastGrant(s, es, i, j) && test(Answer(s, es, i).lease)
  }

  // What is stored is what was granted last, or nothing.
  lemma {:induction false} StoredIsLastGrant(s: Settings, es: seq<Event>, j: nat)
    requires j <= |es|
    ensures forall i :: 0 <= i < j && LastGrant(s, es, i, j) ==> After(s, es, j) == Answer(s, es, i).lease
    ensures After(s, es, j) == NO_RECORD || exists i :: 0 <= i < j && LastGrant(s, es, i, j)
  {
    if j > 0 {
      StoredIsLastGrant(s, es, j - 1);
      if Answer(s, es, j - 1).Granted? {
        assert LastGrant(s, es, j - 1, j);
      } else if !Answer(s, es, j - 1).Ok() && After(s, es, j) != NO_RECORD {
        var i :| 0 <= i < j - 1 && LastGrant(s, es, i, j - 1);
        assert LastGrant(s, es, i, j);
      }
      forall i | 0 <= i < j && LastGrant(s, es, i, j)
        ensures After(s, es, j) == Answer(s, es, i).lease
      {
        if i < j - 1 {
          assert LastGrant(s, es, i, j - 1) && !Answer(s, es, j - 1).Ok();
        }
      }
    }
  }

  /** Who gets what, told by the past answers alone: an acquire by a named owner is refused exactly when
      the last grant was somebody else's and is unexpired; a renewal, and a transfer to a named owner,
      succeeds exactly when the last grant carries its record's owner and generation and is unexpired; a
      release exactly when the last grant carries them, expired or not. */
  lemma AnswersFollowLastGrant(s: Settings, es: seq<Event>, j: nat)
    requires ClockOk(es) && j < |es| && Named(es[j].op)
    ensures var now := es[j].now;
      match es[j].op
      case Acquire(owner) =>
        Answer(s, es, j).Ok() <==>
          owner != "" && !LastGranted(s, es, j, (r: Record) => r.owner != owner && now < r.expiresAt)
      case Renew(record) =>
        Answer(s, es, j).Ok() <==>
          LastGranted(s, es, j, (r: Record) =>
            r.owner == record.owner && r.generation == record.generation && now < r.expiresAt)
      case Transfer(record, newOwner) =>
        Answer(s, es, j).Ok() <==>
          newOwner != "" && LastGranted(s, es, j, (r: Record) =>
            r.owner == record.owner && r.generation == record.generation && now < r.expiresAt)
      case Release(record) =>
        Answer(s, es, j).Ok() <==>
          LastGranted(s, es, j, (r: Record) => r.owner == record.owner && r.generation == record.generation)
  {
    StoredIsLastGrant(s, es, j);
    UnownedIsEmpty(s, es, j);
  }

  /** And why not: a record with the last grant's owner and generation is only ever refused as expired, at or after its
      end, any other record for its fence, and an acquire for the holder or the missing name. */
  lemma RefusalsFollowLastGrant(s: Settings, es: seq<Event>, j: nat)
    requires ClockOk(es) && j < |es| && Named(es[j].op) && Answer(s, es, j).Refused?
    ensures var op, error := es[j].op, Answer(s, es, j).error;
      if op.Acquire? then error == if op.owner == "" then OwnerRequired else HeldByOther
      else if op.Transfer? && op.newOwner == "" then error == NewOwnerRequired
      else
        var now := es[j].now;
        && error in {Expired, FencingFailed}
        && (error == Expired <==>
              LastGranted(s, es, j, (r: Record) =>
                r.owner == op.record.owner && r.generation == op.record.generation && r.expiresAt <= now))
  {
    StoredIsLastGrant(s, es, j);
    UnownedIsEmpty(s, es, j);
  }

  // A stored lease belongs to the manager's group.
  lemma {:induction false} StoredGroup(s: Settings, es: seq<Event>, i: nat)
    requires ClockOk(es) && i <= |es|
    ensures After(s, es, i).owner != "" ==> After(s, es, i).group == s.group
  {
    if i > 0 {
      StoredGroup(s, es, i - 1);
      UnownedIsEmpty(s, es, i - 1);
    }
  }

  /** The terms of every grant: one TTL from now, in the manager's group, to the owner asked for; and it is what a read
      returns afterwards. */
  lemma GrantTerms(s: Settings, es: seq<Event>, i: nat)
    requires ClockOk(es) && i < |es| && Answer(s, es, i).Granted?
    ensures var lease, op := Answer(s, es, i).lease, es[i].op;
      && lease.expiresAt == es[i].now + s.ttl && lease.updatedAt == es[i].now && lease.group == s.group
      && lease.owner == (match op
                         case Acquire(owner) => owner
                         case Renew(record) => record.owner
                         case Transfer(_, newOwner) => newOwner
                         case Release(record) => record.owner)
      && lease.owner != "" && After(s, es, i + 1) == lease
  {
    StoredGroup(s, es, i);
    UnownedIsEmpty(s, es, i);
  }

  // How the generation moves: a grant that changes hands or re-acquires adds one, a renewal and a
  // refusal add nothing.
  lemma GenerationStep(s: Settings, es: seq<Event>, i: nat)
    requires i < |es|
    requires After(s, es, i).generation + 1 < GENERATION_COUNT
    ensures !Releases(s, es, i) ==>
              After(s, es, i + 1).generation ==
              After(s, es, i).generation + (if Answer(s, es, i).Granted? && !es[i].op.Renew? then 1 else 0)
    ensures !Answer(s, es, i).Ok() ==> After(s, es, i + 1) == After(s, es, i)
  {
    assert After(s, es, i + 1) == Apply(s, After(s, es, i), es[i].op, es[i].now).0;
  }

  // Grants that take the lease (acquire or transfer) among events i..j.
  function Takings(s: Settings, es: seq<Event>, i: nat, j: nat): nat
    requires i <= j <= |es|
    decreases j - i
  {
    if i == j then 0
    else Takings(s, es, i, j - 1) + (if Answer(s, es, j - 1).Granted? && !es[j - 1].op.Renew? then 1 else 0)
  }

  /** Between two releases the generation counts the takings: each acquire and each transfer adds
      exactly one, renewals and refusals nothing. */
  lemma {:induction false} GenerationCountsTakings(s: Settings, es: seq<Event>, i: nat, j: nat)
    requires i <= j <= |es|
    requires After(s, es, i).generation + (j - i) < GENERATION_COUNT
    requires forall k :: i <= k < j ==> !Releases(s, es, k)
    ensures After(s, es, j).generation == After(s, es, i).generation + Takings(s, es, i, j)
    ensures Takings(s, es, i, j) <= j - i
    decreases j - i
  {
    if i < j {
      GenerationCountsTakings(s, es, i, j - 1);
      GenerationStep(s, es, j - 1);
    }
  }

  // Starting with no lease, a run shorter than the uint64 range never wraps the generation.
  lemma {:induction false} GenerationBounded(s: Settings, es: seq<Event>, i: nat)
    requires i <= |es| && i < GENERATION_COUNT
    ensures After(s, es, i).generation <= i
  {
    if i > 0 {
      GenerationBounded(s, es, i - 1);
    }
  }

  /** A superseded record is dead until a release: it renews, transfers and releases nothing. */
  lemma SupersededStaysDead(s: Settings, es: seq<Event>, i: nat, j: nat)
    requires i <= j < |es| < GENERATION_COUNT
    requires forall k :: i <= k < j ==> !(es[k].op.Release? && Answer(s, es, k).Ok())
    requires !es[j].op.Acquire?
    requires es[j].op.record.generation < After(s, es, i).generation
    ensures !Answer(s, es, j).Ok() && After(s, es, j + 1) == After(s, es, j)
  {
    GenerationBounded(s, es, i);
    GenerationCountsTakings(s, es, i, j);
  }

  /** A release restarts the generations, so it can bring a superseded record back to life: here
      the record of event 0 is superseded at event 1 and yet renews at event 4. */
  lemma ReleaseRevives(s: Settings, owner: string, now: Time) returns (es: seq<Event>)
    requires owner != "" && 0 < s.ttl && ZERO_TIME <= now
    ensures |es| == 5 && ClockOk(es) && Answer(s, es, 0).Granted?
    ensures After(s, es, 2).generation > Answer(s, es, 0).lease.generation
    ensures es[4].op == Renew(Answer(s, es, 0).lease) && Answer(s, es, 4).Ok()
  {
    var first := Record(s.group, owner, 1, now + s.ttl, now);
    var second := Record(s.group, owner, 2, now + s.ttl, now);
    es := [Event(Acquire(owner), now), Event(Acquire(owner), now), Event(Release(second), now),
           Event(Acquire(owner), now), Event(Renew(first), now)];
    assert After(s, es, 1) == first;
    assert After(s, es, 2) == second;
    assert After(s, es, 3) == NO_RECORD;
    assert After(s, es, 4) == first;
  }
}
