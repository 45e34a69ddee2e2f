/** Bounded failover: when the holder stops, a peer takes over in time, on every lease store. */
module Failover {
  import opened Lease
  import opened World
  import opened Controller
  import opened Protocol
  import opened Supervisor
  import opened Stores
  import D = Dynamo

  // A node's faultless supervisor step at an instant.
  datatype Turn = Turn(node: string, at: Time)

  ghost predicate Ordered(turns: seq<Turn>) {
    forall i, j :: 0 <= i < j < |turns| ==> turns[i].at <= turns[j].at
  }

  // Node takes a turn in the window of the given length that opens at t.
  ghost predicate TurnWithin(turns: seq<Turn>, node: string, t: Time, interval: Duration) {
    exists i :: 0 <= i < |turns| && turns[i].node == node && t <= turns[i].at <= t + interval
  }

  // From instant start on, some turn of node falls into every window of length interval.
  ghost predicate TurnsEvery(turns: seq<Turn>, node: string, start: Time, interval: Duration, horizon: Time) {
    forall t :: start <= t && t + interval <= horizon ==> TurnWithin(turns, node, t, interval)
  }

  // ----- With the real controller -----

  // The node shares the world and is ready to run.
  ghost predicate Waiting(w: World, node: Node)
    reads node, node.c, node.c.w
  {
    node.c.w == w && node.Valid() && node.Runnable()
  }

  // The first instant at which the store lets somebody else have the lease.
  function FreeFrom(k: Terms, lease: Record): Time {
    lease.expiresAt + k.takeover
  }

  method WaitOrWin(w: World, node: Node, at: Time) returns (won: bool)
    requires w.Valid() && w.smooth && Waiting(w, node) && w.now <= at
    requires w.lease.owner != "" && w.lease.owner != node.local && w.terms.Room(w.lease)
    modifies w, node
    ensures w.now == at && won == (FreeFrom(w.terms, old(w.lease)) <= at)
    ensures won ==>
              && node.latest.state == ACTIVE && w.lease.owner == node.local && Live(w.lease, at)
              && OwnedBy(node.c.cfg, w.routes, w.addresses, node.local)
    ensures !won ==> Waiting(w, node) && w.lease == old(w.lease)
  {
    w.AdvanceTo(at);
    ghost var t, seen, verifiedAt := node.Tick();
    won := node.latest.state == ACTIVE;
  }

  /** With the real controller in a world without faults, on any store: when the holder stops, some other node is
      ACTIVE and owns everything within one interval of the instant at which the store lets the lease go. */
  method AwaitTakeover(w: World, nodes: map<string, Node>, turns: seq<Turn>, id: string, interval: Duration)
    returns (winner: string, at: Time)
    requires w.Valid() && w.smooth && w.terms.Room(w.lease)
    requires id in nodes && w.lease.owner != "" && w.lease.owner !in nodes
    requires forall n :: n in nodes ==> nodes[n].local == n && Waiting(w, nodes[n])
    // They take turns; node id does so at least once in every interval.
    requires Ordered(turns) && forall turn :: turn in turns ==> turn.node in nodes && w.now <= turn.at
    requires TurnsEvery(turns, id, w.now, interval, FreeFrom(w.terms, w.lease) + interval)
    requires w.now <= FreeFrom(w.terms, w.lease)
    modifies w, nodes.Values
    ensures winner in nodes && old(w.now) <= at && w.now == at
    ensures FreeFrom(w.terms, old(w.lease)) <= at <= FreeFrom(w.terms, old(w.lease)) + interval
    ensures nodes[winner].latest.state == ACTIVE && w.lease.owner == winner && Live(w.lease, w.now)
    ensures OwnedBy(nodes[winner].c.cfg, w.routes, w.addresses, winner)
  {
    ghost var free := FreeFrom(w.terms, w.lease);
    assert TurnWithin(turns, id, free, interval);
    ghost var due :| 0 <= due < |turns| && turns[due].node == id && free <= turns[due].at <= free + interval;
    for i := 0 to |turns|
      invariant i <= due
      invariant w.lease == old(w.lease) && old(w.now) <= w.now
      invariant i < |turns| ==> w.now <= turns[i].at
      invariant forall n :: n in nodes ==> Waiting(w, nodes[n])
    {
      assert turns[i] in turns;
      var node := nodes[turns[i].node];
      var won := WaitOrWin(w, node, turns[i].at);
      if won {
        return turns[i].node, turns[i].at;
      }
      assert i != due;
      forall n | n in nodes
        ensures Waiting(w, nodes[n])
      {
        assert nodes[n] == node || nodes[n].local != node.local;
      }
    }
  }

  /** The bound on each of the three stores: TTL + interval after the holder's last grant, plus 2 s on Firestore and
      1 s on DynamoDB. The world's lease is the store's, as its reads show it. */
  method AwaitTakeoverOn(store: Store, holder: string, renewedAt: Time,
                         w: World, nodes: map<string, Node>, turns: seq<Turn>, id: string, interval: Duration)
    returns (winner: string, at: Time)
    requires HeldSince(store, holder, renewedAt) && w.terms == store.Kind() && w.lease == store.View()
    requires w.Valid() && w.smooth && w.terms.Room(w.lease)
    requires id in nodes && holder !in nodes
    requires forall n :: n in nodes ==> nodes[n].local == n && Waiting(w, nodes[n])
    requires Ordered(turns) && forall turn :: turn in turns ==> turn.node in nodes && w.now <= turn.at
    requires TurnsEvery(turns, id, w.now, interval, renewedAt + Ttl(store) + Grace(store) + interval)
    requires w.now <= FreeFrom(w.terms, w.lease)
    modifies w, nodes.Values
    ensures winner in nodes && w.now == at <= renewedAt + Ttl(store) + Grace(store) + interval
    ensures Grace(store) ==
              match store case Memory(_, _) => 0 case Firestore(_, _) => 2 * SECOND case DynamoDB(_, _) => SECOND
    ensures nodes[winner].latest.state == ACTIVE && w.lease.owner == winner && Live(w.lease, w.now)
    ensures OwnedBy(nodes[winner].c.cfg, w.routes, w.addresses, winner)
  {
    HeldIsFreeInTime(store, holder, renewedAt);
    winner, at := AwaitTakeover(w, nodes, turns, id, interval);
  }

  // ----- On every store -----

  // A step without faults by a node that has not been active: the next store and whether it is ACTIVE.
  function TakeTurn(store: Store, node: string, now: Time): (Store, bool)
    requires store.Usable()
  {
    var current := store.Read();
    if current.Some? && ForeignLive(current.value, node, now) then (store, false)
    else
      var (next, answer) := store.Do(Acquire(node), now);
      if !answer.Granted? then (store, false)
      else if Live(answer.lease, now) then (next, true)
      else (next.Do(Release(answer.lease), now).0, false)
  }

  // Seen through its reads, on every store this is the controller's own faultless step.
  lemma TurnIsFaultlessTurn(store: Store, node: string, now: Time)
    requires store.Usable() && node != "" && !(store.View().owner == node && Live(store.View(), now))
    ensures var (next, active) := TakeTurn(store, node, now);
      next.Usable() && (next.View(), active) == FaultlessTurn(store.Kind(), store.View(), node, now)
  {
    StoreActs(store, Acquire(node), now);
    var (next, answer) := store.Do(Acquire(node), now);
    if answer.Granted? {
      GrantIsAssured(store.Kind(), store.View(), Acquire(node), now);
    }
  }

  // A store whose lease holder took it last at instant renewedAt.
  ghost predicate HeldSince(store: Store, holder: string, renewedAt: Time) {
    && store.Usable() && holder != ""
    && match store
       case Memory(s, record) => record.owner == holder && record.expiresAt == renewedAt + s.ttl
       case Firestore(c, doc) => doc.Some? && doc.value.owner == holder && doc.value.expiresAt == renewedAt + c.ttl
       case DynamoDB(s, item) =>
         item.Some? && item.value.owner == holder && item.value.expiresAt == D.Unix(renewedAt + s.ttl)
  }

  // How long after the lease's end the store may still turn a newcomer away.
  function Grace(store: Store): Duration {
    store.Kind().takeover
  }

  // The lease a store was granted last is free one TTL and the store's grace later, at the latest.
  lemma HeldIsFreeInTime(store: Store, holder: string, renewedAt: Time)
    requires HeldSince(store, holder, renewedAt)
    ensures store.View().owner == holder
    ensures FreeFrom(store.Kind(), store.View()) <= renewedAt + Ttl(store) + Grace(store)
  {
    if store.DynamoDB? {
      D.FloorsOrdered(renewedAt + store.settings.ttl, renewedAt);
    }
  }

  function Ttl(store: Store): Duration {
    match store
    case Memory(s, _) => s.ttl
    case Firestore(c, _) => c.ttl
    case DynamoDB(s, _) => s.ttl
  }

  // Whatever grant comes last, its instant is what the bound counts from.
  lemma GrantHolds(store: Store, op: Op, now: Time)
    requires store.Usable() && store.Do(op, now).1.Granted? && Named(op)
    ensures HeldSince(store.Do(op, now).0, store.Do(op, now).1.lease.owner, now)
  {
  }

  // A turn by somebody else either leaves the store alone or wins; late enough, it wins.
  lemma TurnWinsOnceFree(store: Store, holder: string, renewedAt: Time, node: string, now: Time)
    requires HeldSince(store, holder, renewedAt) && node != "" && node != holder
    ensures var (next, active) := TakeTurn(store, node, now); active || next == store
    ensures renewedAt + Ttl(store) + Grace(store) <= now && store.Kind().Room(store.View()) ==>
              TakeTurn(store, node, now).1
  {
    if store.DynamoDB? {
      D.FloorsOrdered(renewedAt + store.settings.ttl, now);
      D.FloorsOrdered(now + store.settings.ttl, now);
      assert now < D.Unix(now + store.settings.ttl) * SECOND;
      if renewedAt + store.settings.ttl + SECOND <= now {
        D.FloorsOrdered(renewedAt + store.settings.ttl + SECOND, now);
      }
    }
  }

  function StoreAfter(store: Store, turns: seq<Turn>, i: nat): (next: Store)
    requires store.Usable() && i <= |turns|
  {
    if i == 0 then store
    else
      var before := StoreAfter(store, turns, i - 1);
      if before.Usable() then TakeTurn(before, turns[i - 1].node, turns[i - 1].at).0 else before
  }

  // Turn i made its node ACTIVE.
  predicate Wins(store: Store, turns: seq<Turn>, i: nat)
    requires store.Usable() && i < |turns|
  {
    var before := StoreAfter(store, turns, i);
    before.Usable() && TakeTurn(before, turns[i].node, turns[i].at).1
  }

  lemma {:induction false} UntakenStaysHeld(store: Store, holder: string, renewedAt: Time, turns: seq<Turn>, i: nat)
    requires HeldSince(store, holder, renewedAt) && i <= |turns|
    requires forall turn :: turn in turns ==> turn.node != "" && turn.node != holder
    requires forall j :: 0 <= j < i ==> !Wins(store, turns, j)
    ensures StoreAfter(store, turns, i) == store
  {
    if i > 0 {
      UntakenStaysHeld(store, holder, renewedAt, turns, i - 1);
      assert turns[i - 1] in turns;
      TurnWinsOnceFree(store, holder, renewedAt, turns[i - 1].node, turns[i - 1].at);
      assert !Wins(store, turns, i - 1);
    }
  }

  /** On each store: when the holder stops, some other node is ACTIVE at the latest TTL + interval after
      the last renewal, plus 2 s on Firestore and 1 s on DynamoDB. */
  lemma TakeoverIsBounded(store: Store, holder: string, renewedAt: Time, turns: seq<Turn>, node: string,
                          interval: Duration)
    returns (i: nat)
    requires HeldSince(store, holder, renewedAt) && store.Kind().Room(store.View())
    requires Ordered(turns) && forall turn :: turn in turns ==> turn.node != "" && turn.node != holder
    requires interval >= 0
    requires TurnsEvery(turns, node, renewedAt, interval, renewedAt + Ttl(store) + Grace(store) + interval)
    ensures i < |turns| && StoreAfter(store, turns, i).Usable()
    ensures TakeTurn(StoreAfter(store, turns, i), turns[i].node, turns[i].at).1
    ensures turns[i].at <= renewedAt + Ttl(store) + interval + Grace(store)
  {
    var free := renewedAt + Ttl(store) + Grace(store);
    assert Ttl(store) + Grace(store) >= 0;
    assert TurnWithin(turns, node, free, interval);
    var due :| 0 <= due < |turns| && turns[due].node == node && free <= turns[due].at <= free + interval;
    i := 0;
    while i < due && !Wins(store, turns, i)
      invariant 0 <= i <= due
      invariant forall j :: 0 <= j < i ==> !Wins(store, turns, j)
    {
      i := i + 1;
    }
    assert turns[i].at <= turns[due].at;
    if i == due {
      UntakenStaysHeld(store, holder, renewedAt, turns, due);
      assert turns[due] in turns;
      TurnWinsOnceFree(store, holder, renewedAt, turns[due].node, turns[due].at);
    }
  }
}
