/** The three lease stores under one roof: what each makes of an operation, seen through its reads. */
module Stores {
  import opened Common
  import opened Lease
  import F = Firestore
  import D = Dynamo

  // What tells the stores apart: for how long after a lease's end they still turn newcomers away (takeover)
  // and still accept the owner (lateness), whether they keep whole seconds, and whether nodes share them.
  datatype Terms = Terms(
    group: string, ttl: Duration, takeover: Duration, lateness: Duration, wholeSeconds: bool, shared: bool)
  {
    predicate Sound() {
      ttl > 0 && 0 <= lateness <= takeover && (wholeSeconds ==> ttl >= SECOND)
    }

    // A time as the store keeps it.
    function Kept(t: Time): Time {
      if wholeSeconds then D.Unix(t) * SECOND else t
    }

    // How much life a grant is sure to give.
    function Assured(): Duration {
      if wholeSeconds then ttl - SECOND + 1 else ttl
    }

    // The shared stores stop at the largest int64 generation.
    predicate Room(lease: Record) {
      shared ==> lease.generation < MAX_INT64
    }
  }

  // One operation against the lease as a read returns it (NO_RECORD when there is none).
  function Act(k: Terms, lease: Record, op: Op, now: Time): (Record, Outcome) {
    if k.shared && !Named(op) then (lease, Refused(OwnerRequired))
    else match op
      case Acquire(owner) =>
        if owner == "" then (lease, Refused(OwnerRequired))
        else if lease.owner != "" && lease.owner != owner && now < lease.expiresAt + k.takeover then
          (lease, Refused(HeldByOther))
        else if !k.Room(lease) then (lease, Refused(GenerationExhausted))
        else
          var next := Record(k.group, owner, NextGeneration(lease.generation), k.Kept(now + k.ttl), k.Kept(now));
          (next, Granted(next))
      case Renew(record) =>
        if !SameOwnerAndGeneration(lease, record) then (lease, Refused(FencingFailed))
        else if !(now < lease.expiresAt + k.lateness) then (lease, Refused(Expired))
        else
          var next := lease.(expiresAt := k.Kept(now + k.ttl), updatedAt := k.Kept(now));
          (next, Granted(next))
      case Release(record) =>
        if !SameOwnerAndGeneration(lease, record) then (lease, Refused(FencingFailed)) else (NO_RECORD, Released)
      case Transfer(record, newOwner) =>
        if newOwner == "" then (lease, Refused(NewOwnerRequired))
        else if !SameOwnerAndGeneration(lease, record) then (lease, Refused(FencingFailed))
        else if !(now < lease.expiresAt + k.lateness) then (lease, Refused(Expired))
        else if !k.Room(lease) then (lease, Refused(GenerationExhausted))
        else
          var next := lease.(owner := newOwner, generation := NextGeneration(lease.generation),
                             expiresAt := k.Kept(now + k.ttl), updatedAt := k.Kept(now));
          (next, Granted(next))
  }

  // A grant at now is live for as long as the terms assure.
  lemma GrantIsAssured(k: Terms, lease: Record, op: Op, now: Time)
    requires k.Sound() && Act(k, lease, op, now).1.Granted?
    ensures Act(k, lease, op, now).0 == Act(k, lease, op, now).1.lease
    ensures now < now + k.Assured() <= Act(k, lease, op, now).0.expiresAt <= now + k.ttl
  {
    D.FloorsOrdered(now + k.ttl, now);
  }

  // ----- The stores -----

  // The three lease stores with what they hold.
  datatype Store =
    | Memory(settings: Settings, record: Record)
    | Firestore(config: F.Config, doc: Option<F.Document>)
    | DynamoDB(settings: Settings, item: Option<D.Item>)
  {
    // The settings are ones the store is run with, and what it holds is what it writes.
    predicate Usable() {
      match this
      case Memory(s, _) => s.ttl > 0
      case Firestore(c, doc) =>
        c.Usable() && (doc.Some? ==> doc.value.owner != "" && 0 <= doc.value.generation <= MAX_INT64)
      case DynamoDB(s, item) =>
        s.ttl >= SECOND && (item.Some? ==> item.value.owner != "" && 0 <= item.value.generation <= MAX_INT64)
    }

    // What a read of the lease returns.
    function Read(): (r: Option<Record>)
      requires Usable()
      ensures r == if View().owner == "" then None else Some(View())
    {
      match this
      case Memory(_, record) => if record.owner == "" then None else Some(record)
      case Firestore(_, doc) => if doc.None? then None else Some(F.RecordFromDocument(doc.value))
      case DynamoDB(_, item) => if item.None? then None else Some(D.RecordFromItem(item.value))
    }

    function View(): Record
      requires Usable()
    {
      match this
      case Memory(_, record) => record
      case Firestore(_, doc) => if doc.None? then NO_RECORD else F.RecordFromDocument(doc.value)
      case DynamoDB(_, item) => if item.None? then NO_RECORD else D.RecordFromItem(item.value)
    }

    // At the end of the generations DynamoDB would write what it cannot read back; here it refuses.
    function Do(op: Op, now: Time): (Store, Outcome) {
      match this
      case Memory(s, record) =>
        var (next, answer) := Apply(s, record, op, now);
        (Memory(s, next), answer)
      case Firestore(c, doc) =>
        var (next, answer) := F.Commit(c, doc, op, now);
        (Firestore(c, next), answer)
      case DynamoDB(s, item) =>
        var (next, answer) := D.Update(s, item, op, now);
        if next.Some? && next.value.generation > MAX_INT64 then (this, Refused(GenerationExhausted))
        else (DynamoDB(s, next), answer)
    }

    function Kind(): Terms {
      match this
      case Memory(s, _) => Terms(s.group, s.ttl, 0, 0, false, false)
      case Firestore(c, _) => Terms(c.group, c.ttl, F.SKEW_ALLOWANCE, F.SKEW_ALLOWANCE, false, true)
      case DynamoDB(s, _) => Terms(s.group, s.ttl, SECOND, 0, true, true)
    }
  }

  // A whole second is over exactly when the next one has begun.
  lemma SecondsCompare(seconds: int, now: Time)
    ensures seconds < D.Unix(now) <==> seconds * SECOND + SECOND <= now
    ensures seconds > D.Unix(now) <==> now < seconds * SECOND
  {
  }

  ghost predicate ActsAs(store: Store, op: Op, now: Time)
    requires store.Usable()
  {
    var (next, answer) := store.Do(op, now);
    var (record, outcome) := Act(store.Kind(), store.View(), op, now);
    && next.Usable() && next.Kind() == store.Kind() && next.View() == record
    && (answer.Granted? <==> outcome.Granted?) && (answer.Released? <==> outcome.Released?)
    && (answer.Granted? ==> answer.lease == outcome.lease)
  }

  predicate Takes(op: Op) {
    op.Acquire? || op.Transfer?
  }

  lemma FirestoreTakes(store: Store, op: Op, now: Time)
    requires store.Usable() && store.Firestore? && Takes(op)
    ensures ActsAs(store, op, now)
  {
  }

  lemma FirestoreKeeps(store: Store, op: Op, now: Time)
    requires store.Usable() && store.Firestore? && !Takes(op)
    ensures ActsAs(store, op, now)
  {
  }

  lemma DynamoTakes(store: Store, op: Op, now: Time)
    requires store.Usable() && store.DynamoDB? && Takes(op)
    ensures ActsAs(store, op, now)
  {
    if store.item.Some? {
      SecondsCompare(store.item.value.expiresAt, now);
    }
  }

  lemma DynamoKeeps(store: Store, op: Op, now: Time)
    requires store.Usable() && store.DynamoDB? && !Takes(op)
    ensures ActsAs(store, op, now)
  {
    if store.item.Some? {
      SecondsCompare(store.item.value.expiresAt, now);
    }
  }

  /** Each store is an instance of its terms: seen through its reads it grants, refuses, stores and answers exactly
      what Act says, and it stays usable under the same terms. */
  lemma StoreActs(store: Store, op: Op, now: Time)
    requires store.Usable()
    ensures store.Kind().Sound() && ActsAs(store, op, now)
  {
    if store.Firestore? {
      if Takes(op) {
        FirestoreTakes(store, op, now);
      } else {
        FirestoreKeeps(store, op, now);
      }
    } else if store.DynamoDB? {
      if Takes(op) {
        DynamoTakes(store, op, now);
      } else {
        DynamoKeeps(store, op, now);
      }
    }
  }
}
