/** The supervisor loop of internal/ha/supervisor.go, one node's and many nodes' together. */
module Supervisor {
  import opened Common
  import opened Lease
  import opened Stores
  import opened World
  import opened Fencing
  import opened Controller
  import opened Protocol

  // A step without faults, as the lease sees it: the next record and whether the node is ACTIVE.
  function FaultlessTurn(k: Terms, lease: Record, local: string, now: Time): (Record, bool) {
    if ForeignLive(lease, local, now) then (lease, false)
    else if lease.owner == local && Live(lease, now) then (Act(k, lease, Renew(lease), now).0, true)
    else
      var (next, answer) := Act(k, lease, Acquire(local), now);
      (next, answer.Granted?)
  }

  // What a step saw of the lease first, and when; Blind if it did not look.
  datatype Sight = Blind | Sight(reply: Reply<Record>, at: Time) {
    function Moments(): seq<Moment> {
      if Blind? then [] else Look(reply, at)
    }

    predicate Foreign(local: string) {
      Sight? && reply.Ok? && ForeignLive(reply.value, local, at)
    }
  }

  /** One node: the supervisor, its status reporter and what its loop remembers. */
  class Node {
    const c: Controller
    const local: string
    // A status reporter is attached, so that a step can look back at the last reported result.
    const reporting: bool
    const startedAt: Option<Time>
    const gracePeriod: Duration

    var latest: StepResult
    var owned: Record

    ghost predicate Valid()
      reads this, c, c.w
    {
      c.w.Valid() && (owned.owner == "" || owned.owner == local)
    }

    constructor (c: Controller, local: string, reporting: bool, startedAt: Option<Time>, gracePeriod: Duration)
      requires c.w.Valid()
      ensures Valid() && this.c == c && this.local == local && owned == NO_RECORD
      ensures latest == StepResult(INIT, NO_RECORD, false)
    {
      this.c, this.local, this.reporting, this.startedAt, this.gracePeriod :=
        c, local, reporting, startedAt, gracePeriod;
      latest := StepResult(INIT, NO_RECORD, false);
      owned := NO_RECORD;
    }

    // The configuration lets the node take part.
    predicate Runnable() {
      c.cfg.enabled && NodeResolved(local) && c.cfg.IdentityOk() && Targets(c.cfg, local).Some?
    }

    function PreviousOwnedLease(now: Time): Record
      reads this
    {
      PreviousOwned(reporting, latest, local, now)
    }

    // A node that never was healthily active reports trouble as INIT while it starts up.
    function StartupConvergenceState(now: Time): State
      reads this
    {
      var grace := if gracePeriod <= 0 then 90 * SECOND else gracePeriod;
      var starting := startedAt.Some? && now - startedAt.value < grace;
      var wasHealthy := reporting && latest.state == ACTIVE && !latest.failed;
      if starting && !wasHealthy then INIT else DEGRADED
    }

    /** One supervisor step. t is the tenure it acted under, seen what it read, verifiedAt its last lease check. */
    method Step() returns (result: StepResult, ghost t: Tenure, ghost seen: Sight, ghost verifiedAt: Time)
      requires Valid()
      modifies c.w`now, c.w`lease, c.w`routes, c.w`addresses, c.w`history, c.w`operations, c.w`calls
      ensures c.w.Valid() && old(c.w.now) <= c.w.now
      // The step looks first, and does about the lease what the protocol says for what it has seen.
      ensures seen.Blind? <==> !c.cfg.enabled || !NodeResolved(local)
      ensures old(c.w.history) + seen.Moments() <= c.w.history && old(c.w.operations) <= c.w.operations
      ensures seen.Sight? ==>
                && old(c.w.now) <= seen.at <= c.w.now
                && Follows(local, Decide(local, PreviousOwnedLease(seen.at), seen.reply, seen.at),
                           c.w.operations[|old(c.w.operations)|..], result)
      ensures seen.Blind? ==> c.w.operations == old(c.w.operations) && c.w.calls == old(c.w.calls)
      // Fenced: at most one change of the cloud once the tenure, one of this node's, is lost after the look.
      ensures Fenced(c.w.history, |old(c.w.history)|, t)
      ensures t.owner == local && OneLateCallAtMost(c.w.history, |old(c.w.history) + seen.Moments()|, t)
      ensures result.state == ACTIVE ==> t == TenureOf(result.lease)
      // Another node's lease, live when it is read, is left alone in every world, and so is the cloud.
      ensures c.w.smooth && c.cfg.enabled && NodeResolved(local) && old(c.w.lease).owner != "" ==>
                seen == Sight(Ok(old(c.w.lease)), c.w.now)
      ensures seen.Foreign(local) ==>
                && result.state == STANDBY && result.lease == seen.reply.value && c.w.calls == old(c.w.calls)
                && c.w.operations == old(c.w.operations)
                && (c.w.quiet ==> c.w.lease == old(c.w.lease) && c.w.routes == old(c.w.routes)
                                  && c.w.addresses == old(c.w.addresses))
      // In terms of the record read, the last report and the clock: a node whose last report still stands, as active or
      // degraded, holds still when it cannot read the lease; otherwise it begins with an acquire.
      ensures seen.Sight? && !seen.reply.Ok? ==>
                if reporting && latest.state in {ACTIVE, DEGRADED} && latest.lease.owner == local
                   && seen.at < latest.lease.expiresAt
                then result == StepResult(DEGRADED, latest.lease, true) && c.w.operations == old(c.w.operations)
                     && c.w.calls == old(c.w.calls)
                     && (c.w.quiet ==> c.w.lease == old(c.w.lease) && c.w.routes == old(c.w.routes)
                                       && c.w.addresses == old(c.w.addresses))
                else var made := c.w.operations[|old(c.w.operations)|..]; |made| > 0 && made[0].op == Acquire(local)
      // A live lease of its own is renewed first; one that is nobody's or has expired is acquired.
      ensures seen.Sight? && seen.reply.Ok? && seen.reply.value.owner in {"", local} ==>
                var made := c.w.operations[|old(c.w.operations)|..];
                && |made| > 0
                && made[0].op == if seen.reply.value.owner == local && seen.at < seen.reply.value.expiresAt
                                 then Renew(seen.reply.value) else Acquire(local)
      ensures c.cfg.enabled && local in {"", "auto"} ==> result.state == ERROR && seen.Blind?
      // Alone in the world during the step: ACTIVE means this node holds the lease and everything.
      ensures c.w.quiet && result.state == ACTIVE ==>
                && c.cfg.enabled && c.w.lease == result.lease && c.w.lease.owner == local
                && OwnedBy(c.cfg, c.w.routes, c.w.addresses, local)
                && old(c.w.now) <= verifiedAt <= c.w.now && Live(c.w.lease, verifiedAt)
                && (!c.cfg.probe ==> verifiedAt == c.w.now)
                // and is live when the step ends, unless the step outlasts what the store assured.
                && (c.w.now < old(c.w.now) + c.w.terms.Assured() ==> Live(c.w.lease, c.w.now))
      // A foreign lease that is live all along is left alone, and so is the cloud.
      ensures c.w.quiet && ForeignLive(old(c.w.lease), local, c.w.now) ==>
                && result.state != ACTIVE && c.w.lease == old(c.w.lease) && c.w.routes == old(c.w.routes)
                && c.w.addresses == old(c.w.addresses) && c.w.calls == old(c.w.calls)
      // Without faults the step's outcome is fixed by what it finds.
      ensures (c.w.smooth && c.cfg.enabled && local !in {"", "auto"} && Targets(c.cfg, local).Some?
               && (c.cfg.identityMode == "" || (c.cfg.identityMode == "shared_eip" && c.cfg.allocationID != ""))
               && (PreviousOwnedLease(old(c.w.now)).owner == "" || old(c.w.lease).owner != "")) ==>
                && c.w.now == old(c.w.now) && (result.state == ACTIVE || result.state == STANDBY)
                && (c.w.lease, result.state == ACTIVE) == FaultlessTurn(c.w.terms, old(c.w.lease), local, c.w.now)
    {
      var w := c.w;
      t, seen, verifiedAt := Tenure(local, 0), Blind, w.now;
      if !c.cfg.enabled {
        var reconciled := w.LocalWork();
        result := if reconciled then StepResult(STANDBY, NO_RECORD, false) else StepResult(ERROR, NO_RECORD, true);
        return;
      }
      if !NodeResolved(local) {
        return StepResult(ERROR, NO_RECORD, true), t, seen, verifiedAt;
      }
      var reply, now := w.LookAtLease();
      seen := Sight(reply, now);
      if !reply.Ok? {
        var previous := PreviousOwnedLease(now);
        if previous.owner != "" {
          LookThenFenced(old(w.history), reply, now, w.history, t);
          FollowingBegins(local, reporting, latest, reply, now, [], StepResult(DEGRADED, previous, true));
          return StepResult(DEGRADED, previous, true), t, seen, verifiedAt;
        }
      }
      result, t, verifiedAt := Respond(reply, now);
      LookThenFenced(old(w.history), reply, now, w.history, t);
      FollowingBegins(local, reporting, latest, reply, now, w.operations[|old(w.operations)|..], result);
    }

    // What a step does about the lease it has read: hold it, leave it alone, or try to take it.
    method Respond(reply: Reply<Record>, now: Time)
      returns (result: StepResult, ghost t: Tenure, ghost verifiedAt: Time)
      requires Valid() && c.cfg.enabled && NodeResolved(local) && now <= c.w.now && (c.w.smooth ==> now == c.w.now)
      requires c.w.quiet && reply.Ok? ==> c.w.lease == reply.value
      requires c.w.quiet && reply.Missing? ==> c.w.lease.owner == ""
      requires c.w.smooth ==> !reply.Failed?
      requires !reply.Ok? ==> PreviousOwnedLease(now).owner == ""
      modifies c.w`now, c.w`lease, c.w`routes, c.w`addresses, c.w`history, c.w`operations, c.w`calls
      ensures c.w.Valid() && old(c.w.now) <= c.w.now
      ensures old(c.w.history) <= c.w.history && Fenced(c.w.history, |old(c.w.history)|, t)
      ensures t.owner == local && (result.state == ACTIVE ==> t == TenureOf(result.lease))
      ensures OneLateCallAtMost(c.w.history, |old(c.w.history)|, t)
      ensures old(c.w.operations) <= c.w.operations
      ensures Follows(local, Decide(local, PreviousOwnedLease(now), reply, now),
                      c.w.operations[|old(c.w.operations)|..], result)
      ensures reply.Ok? && reply.value.owner == local && Live(reply.value, now) ==> t == TenureOf(reply.value)
      ensures reply.Ok? && ForeignLive(reply.value, local, now) ==>
                && result.state == STANDBY && result.lease == reply.value && c.w.calls == old(c.w.calls)
                && c.w.operations == old(c.w.operations)
                && (c.w.quiet ==> c.w.lease == old(c.w.lease) && c.w.routes == old(c.w.routes)
                                  && c.w.addresses == old(c.w.addresses))
      ensures c.w.quiet && result.state == ACTIVE ==>
                && c.w.lease == result.lease && c.w.lease.owner == local
                && OwnedBy(c.cfg, c.w.routes, c.w.addresses, local)
                && old(c.w.now) <= verifiedAt <= c.w.now && Live(c.w.lease, verifiedAt)
                && (!c.cfg.probe ==> verifiedAt == c.w.now)
                && old(c.w.now) + c.w.terms.Assured() <= c.w.lease.expiresAt
      ensures c.w.smooth ==> c.w.now == old(c.w.now)
      ensures c.w.quiet && ForeignLive(old(c.w.lease), local, c.w.now) ==>
                && result.state != ACTIVE && c.w.lease == old(c.w.lease) && c.w.routes == old(c.w.routes)
                && c.w.addresses == old(c.w.addresses) && c.w.calls == old(c.w.calls)
      ensures c.w.smooth && Runnable() ==>
                && c.w.now == old(c.w.now) && (result.state == ACTIVE || result.state == STANDBY)
                && (c.w.lease, result.state == ACTIVE) == FaultlessTurn(c.w.terms, old(c.w.lease), local, c.w.now)
    {
      var w := c.w;
      t, verifiedAt := Tenure(local, 0), w.now;
      if reply.Ok? && reply.value.owner == local && Live(reply.value, now) {
        result, t, verifiedAt := Hold(reply.value);
        return;
      }
      if reply.Ok? && ForeignLive(reply.value, local, now) {
        var reconciled := w.LocalWork();
        return StepResult(STANDBY, reply.value, !reconciled), t, verifiedAt;
      }
      var seen := if reply.Ok? then reply.value else NO_RECORD;
      var activation;
      activation, t, verifiedAt := c.Activate(local);
      result := if activation.Activated? then StepResult(ACTIVE, activation.lease, false)
                else StepResult(STANDBY, seen, true);
      ActivationFollows(local, seen, w.operations[|old(w.operations)|..], activation, t, result);
    }

    // The step of a node that finds itself the live holder: renew, check, repair, check.
    method Hold(current: Record) returns (result: StepResult, ghost t: Tenure, ghost verifiedAt: Time)
      requires Valid() && c.cfg.enabled && NodeResolved(local) && current.owner == local
      requires c.w.quiet ==> c.w.lease == current
      modifies c.w`now, c.w`lease, c.w`routes, c.w`addresses, c.w`history, c.w`operations, c.w`calls
      ensures c.w.Valid() && old(c.w.now) <= c.w.now
      ensures old(c.w.history) <= c.w.history && Fenced(c.w.history, |old(c.w.history)|, t)
      ensures t == TenureOf(current) == TenureOf(result.lease)
      ensures old(c.w.operations) <= c.w.operations
      ensures Follows(local, Renewing(current), c.w.operations[|old(c.w.operations)|..], result)
      ensures OneLateCallAtMost(c.w.history, |old(c.w.history)|, t)
      ensures c.w.quiet && result.state == ACTIVE ==>
                && c.w.lease == result.lease && c.w.lease.owner == local
                && OwnedBy(c.cfg, c.w.routes, c.w.addresses, local)
                && verifiedAt == c.w.now && Live(c.w.lease, verifiedAt)
                && old(c.w.now) + c.w.terms.Assured() <= c.w.lease.expiresAt
      ensures c.w.smooth ==> c.w.now == old(c.w.now)
      ensures (c.w.smooth && Live(current, c.w.now) && Runnable()) ==>
                result.state == ACTIVE && c.w.lease == Act(c.w.terms, current, Renew(current), c.w.now).0
    {
      var w := c.w;
      t, verifiedAt := TenureOf(current), w.now;
      var answer := w.Operate(Renew(current));
      if answer.None? || !answer.value.Granted? {
        return StepResult(DEGRADED, current, true), t, verifiedAt;
      }
      ghost var from := |w.history|;
      result := HoldRenewed(answer.value.lease, from);
      FencedMeansOneLateCall(w.history, from, t);
      verifiedAt := w.now;
    }

    // The rest of the holder's step, under the lease just renewed.
    method HoldRenewed(renewed: Record, ghost from: nat) returns (result: StepResult)
      requires Valid() && c.cfg.enabled && NodeResolved(local) && renewed.owner == local && from == |c.w.history|
      requires c.w.quiet ==> c.w.lease == renewed
      modifies c.w`now, c.w`lease, c.w`routes, c.w`addresses, c.w`history, c.w`calls
      ensures c.w.Valid() && old(c.w.now) <= c.w.now && (c.w.smooth ==> c.w.now == old(c.w.now))
      ensures old(c.w.history) <= c.w.history && Fenced(c.w.history, from, TenureOf(renewed))
      ensures result.lease == renewed && result.state in {ACTIVE, INIT, DEGRADED}
      // Short of ACTIVE it reports INIT exactly while it starts up and its last report was not a healthy ACTIVE.
      ensures result.state != ACTIVE ==>
                result.state ==
                if startedAt.Some? && c.w.now - startedAt.value < (if gracePeriod > 0 then gracePeriod else 90 * SECOND)
                   && !(reporting && latest.state == ACTIVE && !latest.failed)
                then INIT else DEGRADED
      ensures c.w.quiet ==> c.w.lease == old(c.w.lease)
      ensures c.w.quiet && result.state == ACTIVE ==>
                Live(renewed, c.w.now) && OwnedBy(c.cfg, c.w.routes, c.w.addresses, local)
      ensures c.w.smooth && Live(renewed, c.w.now) && Runnable() ==> result.state == ACTIVE
    {
      var w := c.w;
      var ok := w.LocalWork();
      if ok {
        ok := c.VerifyLease(renewed, local, from);
      }
      if !ok {
        return StepResult(StartupConvergenceState(w.now), renewed, true);
      }
      ghost var before := w.history;
      var ownership := c.EnsureOwnershipFenced(local, renewed);
      FencedJoin(before, w.history, from, TenureOf(renewed));
      if ownership.NotOwned? {
        return StepResult(StartupConvergenceState(w.now), renewed, true);
      }
      ok := c.VerifyLease(renewed, local, from);
      if !ok {
        return StepResult(StartupConvergenceState(w.now), renewed, true);
      }
      return StepResult(ACTIVE, renewed, false);
    }

    /** One turn of the loop: step, report, remember. */
    method Tick() returns (ghost t: Tenure, ghost seen: Sight, ghost verifiedAt: Time)
      requires Valid()
      modifies this`latest, this`owned
      modifies c.w`now, c.w`lease, c.w`routes, c.w`addresses, c.w`history, c.w`operations, c.w`calls
      ensures Valid() && old(c.w.now) <= c.w.now
      ensures seen.Blind? <==> !c.cfg.enabled || !NodeResolved(local)
      ensures old(c.w.history) + seen.Moments() <= c.w.history && old(c.w.operations) <= c.w.operations
      ensures seen.Sight? ==>
                && old(c.w.now) <= seen.at <= c.w.now
                && Follows(local, Decide(local, old(PreviousOwnedLease(seen.at)), seen.reply, seen.at),
                           c.w.operations[|old(c.w.operations)|..], latest)
      ensures Fenced(c.w.history, |old(c.w.history)|, t)
      ensures t.owner == local && OneLateCallAtMost(c.w.history, |old(c.w.history) + seen.Moments()|, t)
      ensures latest.state == ACTIVE ==> t == TenureOf(latest.lease)
      ensures seen.Foreign(local) ==>
                && latest.state == STANDBY && latest.lease == seen.reply.value && c.w.calls == old(c.w.calls)
                && c.w.operations == old(c.w.operations)
                && (c.w.quiet ==> c.w.lease == old(c.w.lease) && c.w.routes == old(c.w.routes)
                                  && c.w.addresses == old(c.w.addresses))
      // In terms of the record read, the last report and the clock: a node whose last report still stands, as active or
      // degraded, holds still when it cannot read the lease; otherwise it begins with an acquire.
      ensures seen.Sight? && !seen.reply.Ok? ==>
                if reporting && old(latest).state in {ACTIVE, DEGRADED} && old(latest).lease.owner == local
                   && seen.at < old(latest).lease.expiresAt
                then latest == StepResult(DEGRADED, old(latest).lease, true) && c.w.operations == old(c.w.operations)
                     && c.w.calls == old(c.w.calls)
                else var made := c.w.operations[|old(c.w.operations)|..]; |made| > 0 && made[0].op == Acquire(local)
      // A live lease of its own is renewed first; one that is nobody's or has expired is acquired.
      ensures seen.Sight? && seen.reply.Ok? && seen.reply.value.owner in {"", local} ==>
                var made := c.w.operations[|old(c.w.operations)|..];
                && |made| > 0
                && made[0].op == if seen.reply.value.owner == local && seen.at < seen.reply.value.expiresAt
                                 then Renew(seen.reply.value) else Acquire(local)
      ensures c.cfg.enabled && local in {"", "auto"} ==> latest.state == ERROR && seen.Blind?
      ensures c.w.quiet && latest.state == ACTIVE ==>
                && c.cfg.enabled && c.w.lease == latest.lease && c.w.lease.owner == local
                && OwnedBy(c.cfg, c.w.routes, c.w.addresses, local)
                && old(c.w.now) <= verifiedAt <= c.w.now && Live(c.w.lease, verifiedAt)
                && (c.w.now < old(c.w.now) + c.w.terms.Assured() ==> Live(c.w.lease, c.w.now))
      ensures (c.w.smooth && c.cfg.enabled && local !in {"", "auto"} && Targets(c.cfg, local).Some?
               && (c.cfg.identityMode == "" || (c.cfg.identityMode == "shared_eip" && c.cfg.allocationID != ""))
               && (old(PreviousOwnedLease(c.w.now)).owner == "" || old(c.w.lease).owner != "")) ==>
                && c.w.now == old(c.w.now) && (latest.state == ACTIVE || latest.state == STANDBY)
                && (c.w.lease, latest.state == ACTIVE) == FaultlessTurn(c.w.terms, old(c.w.lease), local, c.w.now)
      // A live lease of its own is the one remembered; a turn that ends on somebody else's live lease forgets.
      ensures owned == if c.w.now < latest.lease.expiresAt && latest.lease.owner == local then latest.lease
                       else if c.w.now < latest.lease.expiresAt && latest.lease.owner != "" then NO_RECORD
                       else old(owned)
      ensures c.w.quiet && ForeignLive(old(c.w.lease), local, c.w.now) ==>
                && latest.state != ACTIVE && c.w.lease == old(c.w.lease) && c.w.routes == old(c.w.routes)
                && c.w.addresses == old(c.w.addresses) && c.w.calls == old(c.w.calls)
    {
      var result;
      result, t, seen, verifiedAt := Step();
      latest := result;
      owned := LatestOwnedLease(owned, result, local, c.w.now);
    }

    /** Shutdown: releases the remembered lease. Alone in the world this ends exactly the tenure of
        that record; a superseded one changes nothing. */
    method Stop()
      requires Valid()
      modifies this`latest, this`owned, c.w`now, c.w`lease, c.w`routes, c.w`addresses, c.w`operations
      ensures Valid() && old(c.w.now) <= c.w.now && latest.state == INIT && owned == NO_RECORD
      // It releases the remembered record, or does nothing about the lease if there is none.
      ensures old(c.w.operations) <= c.w.operations
      ensures var made := c.w.operations[|old(c.w.operations)|..];
              if old(owned).owner == "" then made == [] else |made| == 1 && made[0].op == Release(old(owned))
      ensures c.w.quiet ==> c.w.routes == old(c.w.routes) && c.w.addresses == old(c.w.addresses)
      ensures c.w.quiet && c.w.lease != old(c.w.lease) ==>
                c.w.lease == NO_RECORD && TenureOf(old(c.w.lease)) == TenureOf(old(owned)) && old(owned).owner == local
      ensures (c.w.quiet && c.w.answering && old(owned).owner == local != ""
               && TenureOf(old(c.w.lease)) == TenureOf(old(owned))) ==> c.w.lease == NO_RECORD
    {
      latest := StepResult(INIT, NO_RECORD, false);
      var record := owned;
      owned := NO_RECORD;
      if record.owner == "" || record.owner != local {
        return;
      }
      var answer := c.w.Operate(Release(record));
    }
  }

  /** Several nodes sharing one world, whose steps interleave in any order. */
  class Cluster {
    const w: World
    const nodes: map<string, Node>

    // Every node's active result is backed by the stored lease for as long as it is unexpired.
    ghost predicate Valid()
      reads this, w, nodes.Values, set n | n in nodes.Values :: n.c
    {
      && w.Valid() && w.quiet
      && forall id :: id in nodes ==>
           && id != "" && nodes[id].local == id && nodes[id].c.w == w && nodes[id].Valid()
           && (ActiveUnexpired(id) ==> w.lease.owner == id && nodes[id].latest.lease.expiresAt <= w.lease.expiresAt)
    }

    // The node's latest result is ACTIVE under a lease that has not expired.
    predicate ActiveUnexpired(id: string)
      requires id in nodes
      reads this, w, nodes.Values
    {
      nodes[id].latest.state == ACTIVE && Live(nodes[id].latest.lease, w.now)
    }

    constructor (w: World, nodes: map<string, Node>)
      requires w.Valid() && w.quiet
      requires forall id :: id in nodes ==>
                 id != "" && nodes[id].local == id && nodes[id].c.w == w
                 && nodes[id].Valid() && nodes[id].latest.state == INIT
      ensures Valid() && this.w == w && this.nodes == nodes
    {
      this.w, this.nodes := w, nodes;
    }

    method Turn(id: string, stop: bool)
      requires Valid() && id in nodes
      modifies w, nodes[id]
      ensures Valid()
    {
      if stop {
        nodes[id].Stop();
      } else {
        ghost var t, seen, verifiedAt := nodes[id].Tick();
      }
    }

    /** In every run of interleaved steps and restarts, whatever fails in them, at most one node's latest
        result is ACTIVE with an unexpired lease, and that node is the stored holder. */
    method Run(turns: seq<(string, bool)>)
      requires Valid() && forall turn :: turn in turns ==> turn.0 in nodes
      modifies w, nodes.Values
      ensures Valid()
      ensures forall a, b :: a in nodes && b in nodes && ActiveUnexpired(a) && ActiveUnexpired(b) ==> a == b
      ensures forall a :: a in nodes && ActiveUnexpired(a) ==> w.lease.owner == a && Live(w.lease, w.now)
    {
      for i := 0 to |turns|
        invariant Valid()
      {
        assert turns[i] in turns;
        Turn(turns[i].0, turns[i].1);
      }
    }
  }
}
