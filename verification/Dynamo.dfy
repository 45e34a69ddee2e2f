/** The DynamoDB lease of internal/coordination/dynamodb and internal/lease/dynamodb: conditional
    updates on whole seconds, and the proof that they refine the in-process manager. */
module Dynamo {
  import opened Common
  import opened Lease

  // The stored item; a deleted or never written item is None. Times are whole seconds.
  datatype Item = Item(group: string, owner: string, generation: int, expiresAt: int, updatedAt: int)

  // Go's Time.Unix: whole seconds, rounded down (Dafny's division by a positive number floors).
  function Unix(t: Time): int {
    t / SECOND
  }

  // The uint64 -> int64 conversion of a generation wraps around.
  function ToInt64(g: Generation): int {
    if g <= MAX_INT64 then g else g - GENERATION_COUNT
  }

  function RecordFromItem(item: Item): Record
    requires 0 <= item.generation < GENERATION_COUNT
  {
    Record(item.group, item.owner, item.generation, item.expiresAt * SECOND, item.updatedAt * SECOND)
  }

  // The update succeeded; the answer is the parsed item, and parsing fails outside int64.
  function Answered(next: Item): Outcome {
    if 0 <= next.generation <= MAX_INT64 then Granted(RecordFromItem(next)) else Refused(GenerationExhausted)
  }

  predicate OwnedBy(item: Option<Item>, record: Record) {
    item.Some? && item.value.owner == record.owner && item.value.generation == ToInt64(record.generation)
  }

  // One conditional update or delete at clock reading now.
  function Update(s: Settings, item: Option<Item>, op: Op, now: Time): (Option<Item>, Outcome) {
    var seconds := Unix(now);
    var expires := Unix(now + s.ttl);
    match op
    case Acquire(owner) =>
      if owner == "" then (item, Refused(OwnerRequired))
      else if item.None? || item.value.expiresAt < seconds || item.value.owner == owner then
        var next := Item(s.group, owner, (if item.None? then 0 else item.value.generation) + 1, expires, seconds);
        (Some(next), Answered(next))
      else (item, Refused(HeldByOther))
    case Renew(record) =>
      if record.owner == "" then (item, Refused(OwnerRequired))
      else if OwnedBy(item, record) && item.value.expiresAt > seconds then
        var next := item.value.(expiresAt := expires, updatedAt := seconds);
        (Some(next), Answered(next))
      else (item, Refused(FencingFailed))
    case Release(record) =>
      if record.owner == "" then (item, Refused(OwnerRequired))
      else if OwnedBy(item, record) then (None, Released)
      else (item, Refused(FencingFailed))
    case Transfer(record, newOwner) =>
      if record.owner == "" then (item, Refused(OwnerRequired))
      else if newOwner == "" then (item, Refused(NewOwnerRequired))
      else if OwnedBy(item, record) && item.value.expiresAt > seconds then
        var next := item.value.(owner := newOwner, generation := item.value.generation + 1,
                               expiresAt := expires, updatedAt := seconds);
        (Some(next), Answered(next))
      else (item, Refused(FencingFailed))
  }

  /** The table's single lease item under conditional writes: each method is one atomic write. */
  class Table {
    const settings: Settings
    var item: Option<Item>

    constructor (settings: Settings)
      ensures this.settings == settings && item == None
    {
      this.settings := settings;
      item := None;
    }

    method Acquire(owner: string, now: Time) returns (outcome: Outcome)
      modifies this
      ensures (item, outcome) == Update(settings, old(item), Op.Acquire(owner), now)
    {
      if owner == "" {
        return Refused(OwnerRequired);
      }
      if item.Some? && !(item.value.expiresAt < Unix(now)) && item.value.owner != owner {
        return Refused(HeldByOther);
      }
      var generation := if item.Some? then item.value.generation else 0;
      item := Some(Item(settings.group, owner, generation + 1, Unix(now + settings.ttl), Unix(now)));
      return Answered(item.value);
    }

    method Renew(record: Record, now: Time) returns (outcome: Outcome)
      modifies this
      ensures (item, outcome) == Update(settings, old(item), Op.Renew(record), now)
    {
      if record.owner == "" {
        return Refused(OwnerRequired);
      }
      if !OwnedBy(item, record) || !(item.value.expiresAt > Unix(now)) {
        return Refused(FencingFailed);
      }
      item := Some(item.value.(expiresAt := Unix(now + settings.ttl), updatedAt := Unix(now)));
      return Answered(item.value);
    }

    method Release(record: Record) returns (outcome: Outcome)
      modifies this
      ensures forall now :: (item, outcome) == Update(settings, old(item), Op.Release(record), now)
    {
      if record.owner == "" {
        return Refused(OwnerRequired);
      }
      if !OwnedBy(item, record) {
        return Refused(FencingFailed);
      }
      item := None;
      return Released;
    }

    method Transfer(record: Record, newOwner: string, now: Time) returns (outcome: Outcome)
      modifies this
      ensures (item, outcome) == Update(settings, old(item), Op.Transfer(record, newOwner), now)
    {
      if record.owner == "" {
        return Refused(OwnerRequired);
      }
      if newOwner == "" {
        return Refused(NewOwnerRequired);
      }
      if !OwnedBy(item, record) || !(item.value.expiresAt > Unix(now)) {
        return Refused(FencingFailed);
      }
      item := Some(item.value.(owner := newOwner, generation := item.value.generation + 1));
      item := Some(item.value.(expiresAt := Unix(now + settings.ttl), updatedAt := Unix(now)));
      return Answered(item.value);
    }
  }

  // ----- Refinement -----

  // A record with its times rounded down to seconds.
  function Floored(record: Record): Record {
    record.(expiresAt := Unix(record.expiresAt) * SECOND, updatedAt := Unix(record.updatedAt) * SECOND)
  }

  // The item is the in-process manager's record with its times rounded down.
  ghost predicate Simulates(item: Option<Item>, record: Record) {
    match item
    case None => record == NO_RECORD
    case Some(i) => i.owner != "" && 0 <= i.generation < MAX_INT64 && RecordFromItem(i) == Floored(record)
  }

  lemma FloorsOrdered(a: Time, b: Time)
    ensures Unix(a) < Unix(b) ==> a < b
    ensures a <= b ==> Unix(a) <= Unix(b)
    ensures Unix(a) * SECOND <= a < Unix(a) * SECOND + SECOND
    ensures Unix(Unix(a) * SECOND) == Unix(a)
  {
  }

  // What the manager answers to an operation of a named node, and when DynamoDB is stricter: in the
  // second in which the lease ends, the clock and the expiry are rounded to the same whole second.
  predicate SameSecond(record: Record, now: Time) {
    Unix(now) == Unix(record.expiresAt)
  }

  predicate NeedsUnexpired(op: Op) {
    op.Renew? || op.Transfer?
  }

  predicate TakesFromOther(op: Op, record: Record) {
    op.Acquire? && record.owner != "" && record.owner != op.owner
  }

  /** One DynamoDB write against one manager step at the same time: a success is always a success of
      the manager with the same result up to rounding; and the manager succeeds alone exactly in the
      lease's last second, on a renewal or transfer, or on a takeover. */
  lemma UpdateRefinesApply(s: Settings, item: Option<Item>, record: Record, op: Op, now: Time)
    requires Named(op) && Simulates(item, record)
    requires item.Some? ==> item.value.generation < MAX_INT64 - 1
    ensures var (item', answer) := Update(s, item, op, now);
            var (record', outcome) := Apply(s, record, op, now);
            && (answer.Ok() ==> outcome.Ok() && Simulates(item', record'))
            && (answer.Granted? ==> outcome.Granted? && answer.lease == Floored(outcome.lease))
            && (!answer.Ok() ==> item' == item)
            && (answer.Refused? ==>
                  answer.error == if op.Transfer? && op.newOwner == "" then NewOwnerRequired
                                  else if !op.Acquire? then FencingFailed
                                  else if op.owner == "" then OwnerRequired else HeldByOther)
            && (answer.Ok() <==>
                  outcome.Ok() && !((NeedsUnexpired(op) || TakesFromOther(op, record)) && SameSecond(record, now)))
  {
    FloorsOrdered(record.expiresAt, now);
    FloorsOrdered(now, record.expiresAt);
    FloorsOrdered(now + s.ttl, now);
    if item.Some? {
      assert item.value.expiresAt == Unix(record.expiresAt) by {
        assert item.value.expiresAt * SECOND == Unix(record.expiresAt) * SECOND;
      }
    }
  }

  function ItemAfter(s: Settings, es: seq<Event>, i: nat): Option<Item>
    requires i <= |es|
  {
    if i == 0 then None else Update(s, ItemAfter(s, es, i - 1), es[i - 1].op, es[i - 1].now).0
  }

  function ItemAnswer(s: Settings, es: seq<Event>, i: nat): Outcome
    requires i < |es|
  {
    Update(s, ItemAfter(s, es, i), es[i].op, es[i].now).1
  }

  // The manager run beside a DynamoDB run: it performs the writes that succeeded and skips the rest.
  function Shadow(s: Settings, es: seq<Event>, i: nat): Record
    requires i <= |es|
  {
    if i == 0 then NO_RECORD
    else if ItemAnswer(s, es, i - 1).Ok() then Apply(s, Shadow(s, es, i - 1), es[i - 1].op, es[i - 1].now).0
    else Shadow(s, es, i - 1)
  }

  lemma {:induction false} RunSimulated(s: Settings, es: seq<Event>, i: nat)
    requires i <= |es| < MAX_INT64 - 1
    requires forall e :: e in es ==> Named(e.op)
    ensures Simulates(ItemAfter(s, es, i), Shadow(s, es, i))
    ensures ItemAfter(s, es, i).Some? ==> ItemAfter(s, es, i).value.generation <= i
  {
    if i > 0 {
      RunSimulated(s, es, i - 1);
      assert Named(es[i - 1].op);
      UpdateRefinesApply(s, ItemAfter(s, es, i - 1), Shadow(s, es, i - 1), es[i - 1].op, es[i - 1].now);
    }
  }

  /** Refinement: beside every run of the table goes a run of the in-process manager in which each
      successful write is a successful manager step at the same time, with the same answer up to
      rounding down, and each refused write changes nothing on either side. */
  lemma RunRefinesMemory(s: Settings, es: seq<Event>, i: nat)
    requires i < |es| < MAX_INT64 - 1
    requires forall e :: e in es ==> Named(e.op)
    ensures Simulates(ItemAfter(s, es, i), Shadow(s, es, i))
    ensures ItemAnswer(s, es, i).Ok() ==>
              var (record', outcome) := Apply(s, Shadow(s, es, i), es[i].op, es[i].now);
              && outcome.Ok() && Shadow(s, es, i + 1) == record'
              && (ItemAnswer(s, es, i).Granted? ==>
                  outcome.Granted? && ItemAnswer(s, es, i).lease == Floored(outcome.lease))
    ensures !ItemAnswer(s, es, i).Ok() ==>
              ItemAfter(s, es, i + 1) == ItemAfter(s, es, i) && Shadow(s, es, i + 1) == Shadow(s, es, i)
  {
    RunSimulated(s, es, i);
    assert Named(es[i].op);
    UpdateRefinesApply(s, ItemAfter(s, es, i), Shadow(s, es, i), es[i].op, es[i].now);
  }

  predicate TableGivesUp(s: Settings, es: seq<Event>, i: nat, owner: string)
    requires i < |es|
  {
    && ItemAnswer(s, es, i).Ok()
    && (es[i].op.Release? || es[i].op.Transfer?)
    && es[i].op.record.owner == owner
  }

  // The item is owner's and expires no earlier than whole second until.
  predicate Promises(item: Option<Item>, owner: string, until: int) {
    item.Some? && item.value.owner == owner && until <= item.value.expiresAt
  }

  // A grant stores what it answers.
  lemma GrantPromises(s: Settings, item: Option<Item>, op: Op, now: Time)
    requires Update(s, item, op, now).1.Granted?
    ensures var (item', answer) := Update(s, item, op, now);
            && item'.Some? && item'.value.owner == answer.lease.owner
            && answer.lease.expiresAt == item'.value.expiresAt * SECOND
            && item'.value.expiresAt == Unix(now + s.ttl)
  {
  }

  // A write that does not give the lease up keeps the promise while its last second is not over.
  lemma StepKeepsPromise(s: Settings, item: Option<Item>, op: Op, now: Time, owner: string, until: int)
    requires Promises(item, owner, until) && Unix(now) <= until <= Unix(now + s.ttl)
    requires !(Update(s, item, op, now).1.Ok() && (op.Release? || op.Transfer?) && op.record.owner == owner)
    requires 0 <= item.value.generation < MAX_INT64 - 1
    ensures Promises(Update(s, item, op, now).0, owner, until)
  {
  }

  lemma {:induction false} TablePromiseKept(s: Settings, es: seq<Event>, i: nat, j: nat, until: int)
    requires ClockOk(es) && i < j <= |es| < MAX_INT64 - 1
    requires forall e :: e in es ==> Named(e.op)
    requires ItemAnswer(s, es, i).Granted? && ItemAnswer(s, es, i).lease.expiresAt == until * SECOND
    requires forall k :: i < k < j ==> Unix(es[k].now) <= until
    requires forall k :: i < k < j ==> !TableGivesUp(s, es, k, ItemAnswer(s, es, i).lease.owner)
    ensures Promises(ItemAfter(s, es, j), ItemAnswer(s, es, i).lease.owner, until)
  {
    GrantPromises(s, ItemAfter(s, es, i), es[i].op, es[i].now);
    if i + 1 < j {
      TablePromiseKept(s, es, i, j - 1, until);
      RunSimulated(s, es, j - 1);
      assert !TableGivesUp(s, es, j - 1, ItemAnswer(s, es, i).lease.owner);
      FloorsOrdered(es[i].now + s.ttl, es[j - 1].now + s.ttl);
      StepKeepsPromise(s, ItemAfter(s, es, j - 1), es[j - 1].op, es[j - 1].now,
                       ItemAnswer(s, es, i).lease.owner, until);
    }
  }

  /** On DynamoDB a foreign grant needs more than expiry: until the second after the promised expiry
      has begun, only the owner's own release or transfer lets anybody else in. */
  lemma TableTenuresNeverOverlap(s: Settings, es: seq<Event>, i: nat, j: nat) returns (k: nat)
    requires ClockOk(es) && i < j < |es| < MAX_INT64 - 1
    requires forall e :: e in es ==> Named(e.op)
    requires ItemAnswer(s, es, i).Granted? && ItemAnswer(s, es, j).Granted?
    requires ItemAnswer(s, es, j).lease.owner != ItemAnswer(s, es, i).lease.owner
    requires es[j].now < ItemAnswer(s, es, i).lease.expiresAt + SECOND
    ensures i < k <= j && (es[k].op.Release? || es[k].op.Transfer?) && ItemAnswer(s, es, k).Ok()
    ensures es[k].op.record.owner == ItemAnswer(s, es, i).lease.owner
  {
    var owner := ItemAnswer(s, es, i).lease.owner;
    k := i + 1;
    while k < j && !TableGivesUp(s, es, k, owner)
      invariant i < k <= j
      invariant forall m :: i < m < k ==> !TableGivesUp(s, es, m, owner)
    {
      k := k + 1;
    }
    if k == j && !TableGivesUp(s, es, j, owner) {
      GrantPromises(s, ItemAfter(s, es, i), es[i].op, es[i].now);
      var until := ItemAfter(s, es, i + 1).value.expiresAt;
      forall m | i < m <= j ensures Unix(es[m].now) <= until {
        FloorsOrdered(es[m].now, es[j].now);
      }
      TablePromiseKept(s, es, i, j, until);
      RunSimulated(s, es, j);
      StepKeepsPromise(s, ItemAfter(s, es, j), es[j].op, es[j].now, owner, until);
      GrantPromises(s, ItemAfter(s, es, j), es[j].op, es[j].now);
      assert false;
    }
  }
}
