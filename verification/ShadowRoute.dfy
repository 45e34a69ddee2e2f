/** Route replacement on GCP (internal/cloud/gcp/provider.go): the swap that hides the gap between
    deleting and inserting the route behind a temporary shadow route of better priority. */
module ShadowRoute {
  import opened Common

  // An instance by name, or any other kind of next hop by its link.
  datatype NextHop = Instance(name: string) | OtherHop(link: string)

  datatype Route =
    Route(name: string, network: string, destRange: string, priority: int, tags: seq<string>, nextHop: NextHop)

  // A route change the cloud has accepted and carries out in its own time.
  datatype Change = Put(route: Route) | Drop(name: string)

  datatype Submission = Accepted(change: Change) | NotFound | NotReady | Rejected

  // Inserting never overwrites; deleting what is not there does nothing.
  function Applied(routes: map<string, Route>, change: Change): map<string, Route> {
    match change
    case Put(route) => if route.name in routes then routes else routes[route.name := route]
    case Drop(name) => routes - {name}
  }

  // ----- Which route carries the traffic -----

  // The clients: instances of a network that carry a tag, sending to a destination.
  datatype Clients = Clients(network: string, destination: string, tag: string)

  predicate Serves(r: Route, c: Clients) {
    r.network == c.network && r.destRange == c.destination && (r.tags == [] || c.tag in r.tags)
  }

  // Of the routes that serve the clients the lowest priority number wins.
  predicate Effective(routes: map<string, Route>, name: string, c: Clients) {
    && name in routes && Serves(routes[name], c)
    && forall other :: other in routes && Serves(routes[other], c) ==> routes[name].priority <= routes[other].priority
  }

  // ----- A replacement and what it may rely on -----

  // The canonical route before and after, and the shadow that stands in for it.
  datatype Plan = Plan(previous: Route, next: Route, shadow: Route) {
    predicate Ok() {
      && previous.name == next.name != shadow.name
      && previous.network == next.network == shadow.network
      && previous.destRange == next.destRange == shadow.destRange
      && previous.tags == next.tags == shadow.tags && previous.tags != []
      && previous.priority == next.priority == shadow.priority + 1
      && next.nextHop == shadow.nextHop != previous.nextHop
    }

    predicate Concerns(c: Clients) {
      c.network == previous.network && c.destination == previous.destRange && c.tag in previous.tags
    }

    predicate Ours(name: string) {
      name == previous.name || name == shadow.name
    }
  }

  // Some route carries the plan's clients, and it leads to the old or the new target.
  ghost predicate Covered(p: Plan, routes: map<string, Route>) {
    forall c :: p.Concerns(c) ==>
                  && (exists name :: Effective(routes, name, c))
                  && (forall name :: Effective(routes, name, c) ==>
                                       routes[name].nextHop == p.previous.nextHop
                                       || routes[name].nextHop == p.next.nextHop)
  }

  // The clients' traffic goes to hop and nowhere else.
  ghost predicate Leads(p: Plan, routes: map<string, Route>, hop: NextHop) {
    forall c :: p.Concerns(c) ==>
                  && (exists name :: Effective(routes, name, c))
                  && (forall name :: Effective(routes, name, c) ==> routes[name].nextHop == hop)
  }

  // Everybody else's routes for these clients rank behind the canonical one.
  predicate OthersBehind(p: Plan, routes: map<string, Route>) {
    forall name :: name in routes && !p.Ours(name) ==>
                     !(routes[name].network == p.previous.network && routes[name].destRange == p.previous.destRange)
                     || p.previous.priority < routes[name].priority
  }

  // A present route that no change under way will drop.
  predicate Safe(routes: map<string, Route>, late: set<Change>, route: Route) {
    route.name in routes && routes[route.name] == route && Drop(route.name) !in late
  }

  // What holds throughout a replacement: the two names hold only the plan's routes (or, under the
  // shadow's name, a stale shadow for the same target), only the plan's changes are under way, and
  // one of the two routes is there to stay.
  ghost predicate Inv(p: Plan, routes: map<string, Route>, late: set<Change>) {
    && p.Ok() && OthersBehind(p, routes)
    && (p.previous.name in routes ==> routes[p.previous.name] == p.previous || routes[p.previous.name] == p.next)
    && (p.shadow.name in routes ==> routes[p.shadow.name].nextHop == p.next.nextHop)
    && late <= {Put(p.previous), Put(p.next), Put(p.shadow), Drop(p.previous.name), Drop(p.shadow.name)}
    && (Safe(routes, late, p.previous) || Safe(routes, late, p.next) || Safe(routes, late, p.shadow))
  }

  lemma InvCovers(p: Plan, routes: map<string, Route>, late: set<Change>)
    requires Inv(p, routes, late)
    ensures Covered(p, routes)
  {
    var canonical, shadow := p.previous.name, p.shadow.name;
    forall c | p.Concerns(c)
      ensures exists name :: Effective(routes, name, c)
      ensures forall name :: Effective(routes, name, c) ==>
                               routes[name].nextHop == p.previous.nextHop || routes[name].nextHop == p.next.nextHop
    {
      var best := if shadow in routes && Serves(routes[shadow], c)
                     && (canonical !in routes || routes[shadow].priority <= routes[canonical].priority)
                  then shadow else canonical;
      assert best in routes && Serves(routes[best], c) && routes[best].priority <= p.previous.priority;
      assert Effective(routes, best, c);
      forall name | Effective(routes, name, c) ensures p.Ours(name) {
        assert routes[name].priority <= routes[best].priority;
      }
    }
  }

  lemma ChangeKeepsInv(p: Plan, routes: map<string, Route>, late: set<Change>, change: Change)
    requires Inv(p, routes, late) && change in late
    ensures Inv(p, Applied(routes, change), late - {change})
  {
  }

  // A moment in the life of the routes: the routes, the changes under way, the states so far.
  datatype Scene = Scene(routes: map<string, Route>, late: set<Change>, history: seq<map<string, Route>>)

  // From one moment to a later one the replacement's invariant survives, and every state passed
  // through is covered.
  ghost predicate Kept(p: Plan, a: Scene, b: Scene) {
    && a.history <= b.history
    && (Inv(p, a.routes, a.late) ==>
          Inv(p, b.routes, b.late) && forall i :: |a.history| <= i < |b.history| ==> Covered(p, b.history[i]))
  }

  // Every route that is there to stay stays.
  ghost predicate SafeStays(a: Scene, b: Scene) {
    forall r :: Safe(a.routes, a.late, r) ==> Safe(b.routes, b.late, r)
  }

  lemma KeptTwice(p: Plan, a: Scene, b: Scene, c: Scene)
    requires Kept(p, a, b) && Kept(p, b, c)
    ensures Kept(p, a, c)
  {
    if Inv(p, a.routes, a.late) {
      forall i | |a.history| <= i < |c.history| ensures Covered(p, c.history[i]) {
        if i < |b.history| {
          assert c.history[i] == b.history[i];
        }
      }
    }
  }

  // Carrying out one change under way.
  lemma CarryingOutKeeps(p: Plan, a: Scene, change: Change)
    requires change in a.late
    ensures var routes := Applied(a.routes, change); Kept(p, a, Scene(routes, a.late - {change}, a.history + [routes]))
  {
    if Inv(p, a.routes, a.late) {
      ChangeKeepsInv(p, a.routes, a.late, change);
      InvCovers(p, Applied(a.routes, change), a.late - {change});
    }
  }

  // One more change under way, as long as a deletion leaves another route in place.
  lemma SubmittingKeeps(p: Plan, a: Scene, change: Change)
    requires match change
             case Put(route) => route == p.previous || route == p.next || route == p.shadow
             case Drop(name) => Replaceable(p, a.routes, a.late, name)
    ensures Kept(p, a, a.(late := a.late + {change}))
  {
  }

  /** The routes of a project, and the changes accepted for them but not yet known to be done. */
  class RouteTable {
    var routes: map<string, Route>
    var late: set<Change>
    // No call fails, is cancelled or finds the cloud busy.
    const smooth: bool

    // Every state the routes have been in.
    ghost var history: seq<map<string, Route>>

    // A deletion is under way only while its route is there.
    ghost predicate Valid()
      reads this
    {
      && (forall name :: Drop(name) in late ==> name in routes)
      && history != [] && history[|history| - 1] == routes
    }

    constructor (routes: map<string, Route>, smooth: bool)
      ensures Valid() && this.routes == routes && this.smooth == smooth && late == {} && history == [routes]
    {
      this.routes, this.smooth, this.late, this.history := routes, smooth, {}, [routes];
    }

    ghost function Now(): Scene
      reads this
    {
      Scene(routes, late, history)
    }

    // Some of the changes under way are carried out.
    method Settle(ghost p: Plan)
      requires Valid()
      modifies this
      ensures Valid() && late <= old(late) && Kept(p, old(Now()), Now()) && SafeStays(old(Now()), Now())
      ensures late == old(late) ==> Now() == old(Now())
      ensures forall change :: old(late) == {change} && late == {} ==>
                history == old(history) + [Applied(old(routes), change)]
    {
      var more := *;
      while more && late != {}
        invariant Valid() && late <= old(late) && Kept(p, old(Now()), Now()) && SafeStays(old(Now()), Now())
        invariant late == old(late) ==> Now() == old(Now())
        invariant forall change :: old(late) == {change} && late == {} ==>
                  history == old(history) + [Applied(old(routes), change)]
        decreases late
      {
        var change :| change in late;
        ghost var before := Now();
        CarryOut(change, p);
        KeptTwice(p, old(Now()), before, Now());
        more := *;
      }
    }

    method CarryOut(change: Change, ghost p: Plan)
      requires Valid() && change in late
      modifies this
      ensures Valid() && routes == Applied(old(routes), change) && late == old(late) - {change}
      ensures history == old(history) + [routes] && Kept(p, old(Now()), Now()) && SafeStays(old(Now()), Now())
    {
      CarryingOutKeeps(p, Now(), change);
      routes := Applied(routes, change);
      late := late - {change};
      history := history + [routes];
    }

    // Accepted, or refused because the name is taken; an error may hide an acceptance.
    method Insert(route: Route, ghost p: Plan) returns (r: Submission)
      requires Valid() && (route == p.previous || route == p.next || route == p.shadow)
      modifies this
      ensures Valid() && late <= old(late) + {Put(route)} && Kept(p, old(Now()), Now()) && SafeStays(old(Now()), Now())
      ensures r == Accepted(Put(route)) || r == Rejected
      ensures r.Accepted? ==> route.name !in routes && Put(route) in late
      ensures old(late) == {} ==>
                history == old(history) && routes == old(routes) && (r.Accepted? ==> late == {Put(route)})
      ensures smooth && old(late) == {} ==> (r.Accepted? <==> route.name !in routes)
    {
      Settle(p);
      if route.name in routes {
        return Rejected;
      }
      var accepted, hidden := *, *;
      accepted := accepted || smooth;
      if accepted || hidden {
        SubmittingKeeps(p, Now(), Put(route));
        ghost var before := Now();
        late := late + {Put(route)};
        KeptTwice(p, old(Now()), before, Now());
      }
      return if accepted then Accepted(Put(route)) else Rejected;
    }

    // An error means the deletion was not accepted.
    method Delete(name: string, ghost p: Plan) returns (r: Submission)
      requires Valid()
      modifies this
      ensures Valid() && late <= old(late) + {Drop(name)} && old(history) <= history
      ensures Replaceable(p, old(routes), old(late), name) || !r.Accepted? ==> Kept(p, old(Now()), Now())
      ensures forall x :: Safe(old(routes), old(late), x) && (x.name != name || !r.Accepted?) ==> Safe(routes, late, x)
      ensures match r
              case Accepted(change) => change == Drop(name) && name in routes
              case NotFound => name !in routes && late <= old(late)
              case _ => late <= old(late)
      ensures old(late) == {} ==>
                history == old(history) && routes == old(routes) && (r.Accepted? ==> late == {Drop(name)})
      ensures smooth ==> r.Accepted? || r.NotFound?
    {
      Settle(p);
      if name !in routes {
        return NotFound;
      }
      var busy, failed := *, *;
      if busy && !smooth {
        return NotReady;
      }
      if failed && !smooth {
        return Rejected;
      }
      ghost var before := Now();
      late := late + {Drop(name)};
      if Replaceable(p, old(routes), old(late), name) {
        SubmittingKeeps(p, before, Drop(name));
        KeptTwice(p, old(Now()), before, Now());
      }
      return Accepted(Drop(name));
    }

    // Polls a change until it is done. Success shows the change's effect; a failure leaves open
    // whether it has happened, will happen or never will.
    method Wait(change: Change, ghost p: Plan) returns (ok: bool)
      requires Valid()
      modifies this
      ensures Valid() && late <= old(late) && Kept(p, old(Now()), Now()) && SafeStays(old(Now()), Now())
      ensures ok ==> change !in late
      ensures ok && change.Put? ==> change.route.name in routes && routes[change.route.name] == change.route
      ensures ok && change.Drop? ==> change.name !in routes
      ensures ok && old(late) == {change} ==>
                late == {} && history == old(history) + [routes] && routes == Applied(old(routes), change)
      ensures smooth && old(late) == {change} && (change.Put? ==> change.route.name !in old(routes)) ==> ok
    {
      Settle(p);
      ghost var before := Now();
      ok := *;
      ok := ok || smooth;
      if change in late {
        if ok {
          CarryOut(change, p);
          KeptTwice(p, old(Now()), before, Now());
        } else {
          var never := *;
          if never {
            late := late - {change};
            KeptTwice(p, old(Now()), before, Now());
          }
        }
      }
      if ok {
        ok := match change
              case Put(route) => route.name in routes && routes[route.name] == route
              case Drop(name) => name !in routes;
      }
    }
  }

  // Another of the plan's routes is there to stay, so that this one may go.
  predicate Replaceable(p: Plan, routes: map<string, Route>, late: set<Change>, name: string) {
    || (name == p.previous.name && Safe(routes, late, p.shadow))
    || (name == p.shadow.name && (Safe(routes, late, p.previous) || Safe(routes, late, p.next)))
  }

  // ----- Names -----

  function TrimDashes(s: string): string
  {
    if s != "" && s[0] == '-' then TrimDashes(s[1..]) else TrimDashesRight(s)
  }

  function TrimDashesRight(s: string): (r: string)
    ensures r <= s
  {
    if s != "" && s[|s| - 1] == '-' then TrimDashesRight(s[..|s| - 1]) else s
  }

  // GCP resource names have at most 63 characters.
  const NAME_LIMIT := 63

  // The shadow's name, from the route's name and the eight hexadecimal digits of a hash of route and target.
  function ShadowRouteName(routeName: string, digest: string): string
    requires |digest| == 8
  {
    var suffix := "-bnat-ho-" + digest;
    var trimmed := TrimDashes(routeName);
    var prefix := if |trimmed| > NAME_LIMIT - |suffix| then TrimDashesRight(trimmed[..NAME_LIMIT - |suffix|])
      else trimmed;
    (if prefix == "" then "route" else prefix) + suffix
  }

  // Dashes go at both ends, and nothing else.
  lemma {:induction false} TrimmedRight(s: string)
    ensures var r := TrimDashesRight(s);
            && r <= s && (r == "" || r[|r| - 1] != '-') && forall i :: |r| <= i < |s| ==> s[i] == '-'
  {
    if s != "" && s[|s| - 1] == '-' {
      TrimmedRight(s[..|s| - 1]);
    }
  }

  lemma {:induction false} Trimmed(s: string) returns (k: nat)
    ensures var r := TrimDashes(s);
            && k + |r| <= |s| && (forall i :: k <= i < k + |r| ==> s[i] == r[i - k])
            && (r == "" || (r[0] != '-' && r[|r| - 1] != '-'))
            && forall i :: 0 <= i < k || k + |r| <= i < |s| ==> s[i] == '-'
  {
    if s != "" && s[0] == '-' {
      var n := Trimmed(s[1..]);
      k := n + 1;
      assert forall i :: 1 <= i < |s| ==> s[i] == s[1..][i - 1];
    } else {
      k := 0;
      TrimmedRight(s);
    }
  }

  lemma {:induction false} NothingButDashes(s: string)
    requires forall i :: 0 <= i < |s| ==> s[i] == '-'
    ensures TrimDashes(s) == ""
  {
    if s != "" {
      NothingButDashes(s[1..]);
    }
  }

  // A name without dashes at its ends that leaves room is kept whole; a longer one is cut, to no dash at the end; what
  // is nothing but dashes becomes "route".
  lemma ShadowNameIs(routeName: string, digest: string)
    requires |digest| == 8
    ensures routeName != "" && routeName[0] != '-' && routeName[|routeName| - 1] != '-' && |routeName| <= 46 ==>
              ShadowRouteName(routeName, digest) == routeName + "-bnat-ho-" + digest
    ensures (forall i :: 0 <= i < |routeName| ==> routeName[i] == '-') ==>
              ShadowRouteName(routeName, digest) == "route" + "-bnat-ho-" + digest
    ensures ShadowRouteName(routeName, digest)[0] != '-'
  {
    var suffix := "-bnat-ho-" + digest;
    assert |suffix| == 17;
    var k := Trimmed(routeName);
    var trimmed := TrimDashes(routeName);
    if |trimmed| > 46 {
      TrimmedRight(trimmed[..46]);
      var prefix := TrimDashesRight(trimmed[..46]);
      assert prefix != "" by {
        assert trimmed[..46][0] == trimmed[0];
      }
      assert prefix[0] == trimmed[0];
    }
    if forall i :: 0 <= i < |routeName| ==> routeName[i] == '-' {
      NothingButDashes(routeName);
    }
    if routeName != "" && routeName[0] != '-' && routeName[|routeName| - 1] != '-' {
      assert k == 0 && |trimmed| == |routeName|;
      assert trimmed == routeName;
    }
    assert routeName + "-bnat-ho-" + digest == routeName + suffix;
    assert "route" + "-bnat-ho-" + digest == "route" + suffix;
  }

  // A shadow name fits the limit, and differs from its route's name unless that name itself ends in
  // the very suffix of a shadow for the same target.
  lemma ShadowNameFits(routeName: string, digest: string)
    requires |digest| == 8
    ensures |ShadowRouteName(routeName, digest)| <= 63
    ensures ShadowRouteName(routeName, digest) == routeName ==>
              |routeName| > 17 && routeName[|routeName| - 17..] == "-bnat-ho-" + digest
  {
    var suffix := "-bnat-ho-" + digest;
    assert |suffix| == 17;
    var name := ShadowRouteName(routeName, digest);
    assert name[|name| - 17..] == suffix;
  }

  // ----- The provider -----

  datatype Config = Config(network: string, clientTag: string, priority: int)

  function RoutePriority(value: int): int {
    if value == 0 then 800 else value
  }

  function RouteForTarget(cfg: Config, name: string, destination: string, target: string): Route {
    Route(name, cfg.network, destination, RoutePriority(cfg.priority), [cfg.clientTag], Instance(target))
  }

  predicate CanUseShadow(previous: Route) {
    previous.priority > 0 && previous.destRange != "" && previous.network != "" && previous.tags != []
  }

  // The new canonical route and its shadow take priority, network and tags from the previous route.
  function PlanFor(cfg: Config, previous: Route, shadowName: string, name: string, destination: string,
                   target: string): Plan {
    var next := RouteForTarget(cfg, name, destination, target).(
                    priority := previous.priority, network := previous.network, tags := previous.tags);
    var shadow := RouteForTarget(cfg, name, destination, target)
                    .(name := shadowName, priority := previous.priority - 1,
                      network := previous.network, tags := previous.tags);
    Plan(previous, next, shadow)
  }

  // The new canonical route is the previous one but for where it leads, and its shadow ranks one better. Where nobody
  // else's route ranks before the previous one, the replacement's invariant holds to begin with.
  lemma PlanFits(cfg: Config, routes: map<string, Route>, previous: Route, shadowName: string, name: string,
                 destination: string, target: string)
    requires previous.name == name && previous.destRange == destination && shadowName != name
    requires previous.tags != [] && previous.nextHop != Instance(target)
    ensures var p := PlanFor(cfg, previous, shadowName, name, destination, target);
            && p.previous == previous && p.next == previous.(nextHop := Instance(target))
            && p.shadow == previous.(name := shadowName, nextHop := Instance(target), priority := previous.priority - 1)
            && ((&& name in routes && routes[name] == previous && shadowName !in routes
                 && forall other :: other in routes && other != name ==>
                      routes[other].network != previous.network || routes[other].destRange != previous.destRange
                      || previous.priority < routes[other].priority)
                ==> Inv(p, routes, {}))
  {
    var p := PlanFor(cfg, previous, shadowName, name, destination, target);
    assert p.Ok();
    if name in routes && routes[name] == previous {
      assert Safe(routes, {}, previous);
    }
  }

  // The four states of an undisturbed swap.
  function Swap(routes: map<string, Route>, p: Plan): seq<map<string, Route>> {
    var shadowed := routes[p.shadow.name := p.shadow];
    var bare := shadowed - {p.previous.name};
    var replaced := bare[p.next.name := p.next];
    [shadowed, bare, replaced, replaced - {p.shadow.name}]
  }

  /** An undisturbed swap switches the traffic exactly once: before it everything goes to the old
      target, in each of its states to the new one; and it ends with the canonical route alone changed. */
  lemma SwapSwitchesOnce(routes: map<string, Route>, p: Plan)
    requires p.Ok() && OthersBehind(p, routes) && p.shadow.name !in routes
    requires p.previous.name in routes && routes[p.previous.name] == p.previous
    ensures Leads(p, routes, p.previous.nextHop)
    ensures forall i :: 0 <= i < 4 ==> Leads(p, Swap(routes, p)[i], p.next.nextHop)
    ensures Swap(routes, p)[3] == routes[p.next.name := p.next]
  {
    BestLeads(p, routes, p.previous);
    var swap := Swap(routes, p);
    assert swap[3] == routes[p.next.name := p.next];
    BestLeads(p, swap[3], p.next);
    forall i | 0 <= i < 3 ensures Leads(p, swap[i], p.next.nextHop) {
      ShadowedLeads(p, routes, i);
    }
  }

  lemma ShadowedLeads(p: Plan, routes: map<string, Route>, i: nat)
    requires p.Ok() && OthersBehind(p, routes) && i < 3
    requires p.previous.name in routes && routes[p.previous.name] == p.previous
    ensures Leads(p, Swap(routes, p)[i], p.next.nextHop)
  {
    var state := Swap(routes, p)[i];
    assert OthersBehind(p, state) by {
      forall name | name in state && !p.Ours(name) ensures name in routes && state[name] == routes[name] {
      }
    }
    BestLeads(p, state, p.shadow);
  }

  lemma BestLeads(p: Plan, routes: map<string, Route>, best: Route)
    requires p.Ok() && OthersBehind(p, routes)
    requires best == p.previous || best == p.next || best == p.shadow
    requires best.name in routes && routes[best.name] == best
    requires best == p.shadow || p.shadow.name !in routes
    requires p.previous.name in routes ==> routes[p.previous.name] == p.previous || routes[p.previous.name] == p.next
    ensures Leads(p, routes, best.nextHop)
  {
    forall c | p.Concerns(c)
      ensures exists name :: Effective(routes, name, c)
      ensures forall name :: Effective(routes, name, c) ==> routes[name].nextHop == best.nextHop
    {
      assert Effective(routes, best.name, c);
      forall name | Effective(routes, name, c) ensures name == best.name {
        assert routes[name].priority <= best.priority;
      }
    }
  }

  // An ordinary fast replacement: a route in order, elsewhere so far, alone in the table but for routes that rank
  // behind it.
  ghost predicate Shadowed(routes: map<string, Route>, late: set<Change>, fast: bool, name: string,
                           destination: string, target: string, shadowName: string)
  {
    && fast && late == {} && shadowName != name && shadowName !in routes && name in routes
    && routes[name].priority > 0 && routes[name].network != "" && routes[name].tags != []
    && routes[name].destRange == destination != "" && routes[name].nextHop != Instance(target)
    && forall other :: other in routes && other != name ==>
         routes[other].network != routes[name].network || routes[other].destRange != destination
         || routes[name].priority < routes[other].priority
  }

  predicate Reaches(r: Route, c: Clients) {
    c.network == r.network && c.destination == r.destRange && c.tag in r.tags
  }

  // A route for the clients: of their network, for their destination, without tags or with theirs.
  predicate For(r: Route, c: Clients) {
    r.network == c.network && r.destRange == c.destination && (r.tags == [] || c.tag in r.tags)
  }

  // Some route carries the clients, and all routes for them that rank before every other lead to one of these hops.
  ghost predicate ServedBy(routes: map<string, Route>, c: Clients, hops: set<NextHop>) {
    && (exists name :: name in routes && For(routes[name], c))
    && forall name :: name in routes && For(routes[name], c) && routes[name].nextHop !in hops ==>
         exists other :: other in routes && For(routes[other], c) && routes[other].priority < routes[name].priority
  }

  lemma KeptServes(p: Plan, a: Scene, b: Scene, c: Clients, i: nat)
    requires Kept(p, a, b) && Inv(p, a.routes, a.late) && p.Concerns(c) && |a.history| <= i < |b.history|
    ensures ServedBy(b.history[i], c, {p.previous.nextHop, p.next.nextHop})
  {
    var routes := b.history[i];
    assert Covered(p, routes);
    var best :| Effective(routes, best, c);
    assert For(routes[best], c);
    forall name |
      name in routes && For(routes[name], c) && routes[name].nextHop !in {p.previous.nextHop, p.next.nextHop}
      ensures exists other :: other in routes && For(routes[other], c) && routes[other].priority < routes[name].priority
    {
      assert !Effective(routes, name, c);
      var other :| other in routes && Serves(routes[other], c) && routes[other].priority < routes[name].priority;
      assert For(routes[other], c);
    }
  }

  // An ordinary fast replacement that keeps the invariant leaves no state in which clients are not served.
  lemma KeptServesAll(cfg: Config, a: Scene, b: Scene, fast: bool, name: string, destination: string, target: string,
                      shadowName: string)
    requires name in a.routes && a.routes[name].name == name && Drop(name) !in a.late ==>
               Kept(PlanFor(cfg, a.routes[name], shadowName, name, destination, target), a, b)
    ensures forall c: Clients, i ::
              (&& name in a.routes && a.routes[name].name == name
               && Shadowed(a.routes, a.late, fast, name, destination, target, shadowName)
               && Reaches(a.routes[name], c) && |a.history| <= i < |b.history|) ==>
                ServedBy(b.history[i], c, {a.routes[name].nextHop, Instance(target)})
  {
    if (name in a.routes && a.routes[name].name == name
        && Shadowed(a.routes, a.late, fast, name, destination, target, shadowName)) {
      var p := PlanFor(cfg, a.routes[name], shadowName, name, destination, target);
      PlanFits(cfg, a.routes, a.routes[name], shadowName, name, destination, target);
      forall c: Clients, i | Reaches(a.routes[name], c) && |a.history| <= i < |b.history|
        ensures ServedBy(b.history[i], c, {a.routes[name].nextHop, Instance(target)})
      {
        KeptServes(p, a, b, c, i);
      }
    }
  }

  class Provider {
    const table: RouteTable
    const cfg: Config

    constructor (table: RouteTable, cfg: Config)
      ensures this.table == table && this.cfg == cfg
    {
      this.table, this.cfg := table, cfg;
    }

    // Deletes the route, polling while the cloud is busy with it until the caller's time runs out.
    method DeleteRouteIfExists(name: string, ghost p: Plan) returns (ok: bool)
      requires table.Valid()
      modifies table
      ensures table.Valid() && old(table.history) <= table.history
      ensures Replaceable(p, old(table.routes), old(table.late), name) ==> Kept(p, old(table.Now()), table.Now())
      ensures table.late <= old(table.late) + {Drop(name)}
      ensures forall x :: Safe(old(table.routes), old(table.late), x) && x.name != name ==>
                Safe(table.routes, table.late, x)
      ensures ok ==> name !in table.routes
      ensures ok && old(table.late) == {} ==> table.late == {} && table.routes == old(table.routes) - {name}
      ensures ok && old(table.late) == {} && name in old(table.routes) ==>
                table.history == old(table.history) + [table.routes]
      ensures ok && old(table.late) == {} && name !in old(table.routes) ==> table.history == old(table.history)
      ensures table.smooth && old(table.late) == {} ==> ok
    {
      var polls: int :| 1 <= polls;
      while polls > 0
        invariant table.Valid() && table.late <= old(table.late) && Kept(p, old(table.Now()), table.Now())
        invariant SafeStays(old(table.Now()), table.Now())
        invariant old(table.late) == {} ==> table.Now() == old(table.Now())
        invariant table.smooth ==> 1 <= polls
        decreases polls
      {
        ghost var before := table.Now();
        var r := table.Delete(name, p);
        if Replaceable(p, old(table.routes), old(table.late), name) || !r.Accepted? {
          KeptTwice(p, old(table.Now()), before, table.Now());
        }
        match r {
          case NotFound => return true;
          case NotReady =>
          case Rejected => return false;
          case Accepted(change) =>
            ghost var accepted := table.Now();
            ok := table.Wait(change, p);
            if Replaceable(p, old(table.routes), old(table.late), name) {
              KeptTwice(p, old(table.Now()), accepted, table.Now());
            }
            return;
        }
        polls := polls - 1;
      }
      return false;
    }

    /** The swap behind a shadow. Whatever fails, whatever a failed change does later, and whatever changes of earlier
        attempts are still under way except a deletion of the canonical route, every state passed through carries the
        traffic to the old or the new target, and the invariant that makes it so survives the call. Success leaves the
        canonical route alone, at the new target. */
    method ReplaceRouteWithShadow(name: string, destination: string, target: string, previous: Route,
                                  shadowName: string)
      returns (ok: bool)
      requires table.Valid() && previous.name == name && name in table.routes && table.routes[name] == previous
      modifies table
      ensures table.Valid() && old(table.history) <= table.history
      ensures Drop(name) !in old(table.late) ==>
                Kept(PlanFor(cfg, previous, shadowName, name, destination, target), old(table.Now()), table.Now())
      ensures ok ==> shadowName !in table.routes
      ensures ok && shadowName != name ==>
                Safe(table.routes, table.late, PlanFor(cfg, previous, shadowName, name, destination, target).next)
      // With nothing else under way.
      ensures var p := PlanFor(cfg, previous, shadowName, name, destination, target);
              && (ok && old(table.late) == {} && shadowName != name ==>
                    table.late == {} && table.routes == (old(table.routes) - {shadowName})[name := p.next])
              && (ok && old(table.late) == {} && shadowName !in old(table.routes) ==>
                    table.history == old(table.history) + Swap(old(table.routes), p))
      ensures table.smooth && old(table.late) == {} && shadowName != name ==> ok
      // The route is then the previous one but for where it leads.
      ensures ok && shadowName != name ==>
                && name in table.routes
                && table.routes[name] == previous.(destRange := destination, nextHop := Instance(target))
    {
      ghost var p := PlanFor(cfg, previous, shadowName, name, destination, target);
      ghost var start := table.Now();
      ok := InsertShadow(name, destination, target, previous, shadowName);
      if !ok {
        return;
      }
      ghost var shadowed := table.Now();
      ok := DeleteCanonical(previous, shadowName, p);
      if Drop(name) !in old(table.late) {
        KeptTwice(p, start, shadowed, table.Now());
      }
      if !ok {
        return;
      }
      ghost var bare := table.Now();
      ok := InsertCanonical(name, destination, target, previous, shadowName);
      if Drop(name) !in old(table.late) {
        KeptTwice(p, start, bare, table.Now());
      }
    }

    // Takes the canonical route down behind the shadow. A refused deletion takes the shadow down again,
    // a stuck one tries to put the previous route back.
    method DeleteCanonical(previous: Route, shadowName: string, ghost p: Plan) returns (ok: bool)
      requires table.Valid() && p.previous == previous && p.shadow.name == shadowName
      modifies table
      ensures table.Valid() && old(table.history) <= table.history
      ensures Safe(old(table.routes), old(table.late), previous)
               && Safe(old(table.routes), old(table.late), p.shadow) ==>
                Kept(p, old(table.Now()), table.Now())
      ensures ok && old(table.late) == {} && previous.name in old(table.routes) ==>
                && table.late == {} && table.routes == old(table.routes) - {previous.name}
                && table.history == old(table.history) + [table.routes]
      ensures table.smooth && old(table.late) == {} ==> ok
    {
      ghost var start := table.Now();
      ghost var safe := Safe(table.routes, table.late, previous) && Safe(table.routes, table.late, p.shadow);
      var r := table.Delete(previous.name, p);
      ghost var asked := table.Now();
      match r {
        case NotFound => ok := true;
        case Accepted(change) =>
          ok := table.Wait(change, p);
          if safe {
            KeptTwice(p, start, asked, table.Now());
          }
          if !ok {
            ghost var stuck := table.Now();
            RestorePreviousAfterShadow(previous, shadowName, p);
            if safe {
              KeptTwice(p, start, stuck, table.Now());
            }
          }
        case _ =>
          var cleaned := DeleteRouteIfExists(shadowName, p);
          if safe {
            KeptTwice(p, start, asked, table.Now());
          }
          ok := false;
      }
    }

    // Clears a stale shadow and puts the new one up, one priority better than the previous route.
    method InsertShadow(name: string, destination: string, target: string, previous: Route, shadowName: string)
      returns (ok: bool)
      requires table.Valid() && previous.name == name && name in table.routes && table.routes[name] == previous
      modifies table
      ensures table.Valid() && old(table.history) <= table.history
      ensures Drop(name) !in old(table.late) ==>
                Kept(PlanFor(cfg, previous, shadowName, name, destination, target), old(table.Now()), table.Now())
      ensures Drop(name) !in old(table.late) && shadowName != name ==> Safe(table.routes, table.late, previous)
      ensures ok ==>
                Safe(table.routes, table.late, PlanFor(cfg, previous, shadowName, name, destination, target).shadow)
      ensures var p := PlanFor(cfg, previous, shadowName, name, destination, target);
              ok && old(table.late) == {} ==>
                table.late == {} && table.routes == old(table.routes)[shadowName := p.shadow]
      ensures ok && old(table.late) == {} && shadowName !in old(table.routes) ==>
                table.history == old(table.history) + [table.routes]
      ensures table.smooth && old(table.late) == {} ==> ok
    {
      ghost var p := PlanFor(cfg, previous, shadowName, name, destination, target);
      ghost var start := table.Now();
      ok := DeleteRouteIfExists(shadowName, p);
      if !ok {
        return;
      }
      ghost var cleaned := table.Now();
      var shadow := RouteForTarget(cfg, name, destination, target);
      shadow := shadow.(name := shadowName);
      shadow := shadow.(priority := previous.priority - 1, network := previous.network, tags := previous.tags);
      var r := table.Insert(shadow, p);
      if Drop(name) !in old(table.late) {
        KeptTwice(p, start, cleaned, table.Now());
      }
      if !r.Accepted? {
        return false;
      }
      ghost var inserting := table.Now();
      ok := table.Wait(r.change, p);
      if Drop(name) !in old(table.late) {
        KeptTwice(p, start, inserting, table.Now());
      }
    }

    // Puts the canonical route in at the new target and takes the shadow down.
    method InsertCanonical(name: string, destination: string, target: string, previous: Route, shadowName: string)
      returns (ok: bool)
      requires table.Valid() && previous.name == name
      modifies table
      ensures table.Valid()
      ensures Kept(PlanFor(cfg, previous, shadowName, name, destination, target), old(table.Now()), table.Now())
      ensures ok ==> shadowName !in table.routes
      ensures var next := PlanFor(cfg, previous, shadowName, name, destination, target).next;
              && (ok && shadowName != name ==> Safe(table.routes, table.late, next))
              && (ok && old(table.late) == {} ==>
                    && table.late == {} && table.routes == old(table.routes)[name := next] - {shadowName})
              && (ok && old(table.late) == {} && shadowName in old(table.routes)[name := next] ==>
                    table.history == old(table.history) + [old(table.routes)[name := next], table.routes])
      ensures table.smooth && old(table.late) == {} && name !in old(table.routes) ==> ok
    {
      ghost var p := PlanFor(cfg, previous, shadowName, name, destination, target);
      ghost var start := table.Now();
      var canonical := RouteForTarget(cfg, name, destination, target);
      canonical := canonical.(priority := previous.priority, network := previous.network, tags := previous.tags);
      var r := table.Insert(canonical, p);
      ok := r.Accepted?;
      if ok {
        ghost var inserting := table.Now();
        ok := table.Wait(r.change, p);
        KeptTwice(p, start, inserting, table.Now());
      }
      ghost var settled := table.Now();
      if !ok {
        RestorePreviousAfterShadow(previous, shadowName, p);
        KeptTwice(p, start, settled, table.Now());
        return;
      }
      ok := DeleteRouteIfExists(shadowName, p);
      KeptTwice(p, start, settled, table.Now());
    }

    // After a failure with the shadow up: the previous route first, and only then the shadow down.
    method RestorePreviousAfterShadow(previous: Route, shadowName: string, ghost p: Plan)
      requires table.Valid() && p.previous == previous && p.shadow.name == shadowName
      modifies table
      ensures table.Valid() && Kept(p, old(table.Now()), table.Now())
      // With nothing under way and no further fault the previous route is back and the shadow gone.
      ensures table.smooth && old(table.late) == {} && previous.name !in old(table.routes) ==>
                table.late == {} && table.routes == old(table.routes)[previous.name := previous] - {shadowName}
    {
      ghost var start := table.Now();
      var cancelled := *;
      if cancelled && !table.smooth {
        return;
      }
      var r := table.Insert(previous, p);
      if !r.Accepted? {
        return;
      }
      ghost var inserting := table.Now();
      var ok := table.Wait(r.change, p);
      KeptTwice(p, start, inserting, table.Now());
      if !ok {
        return;
      }
      ghost var restored := table.Now();
      var cleaned := DeleteRouteIfExists(shadowName, p);
      KeptTwice(p, start, restored, table.Now());
    }

    /** The slow path: delete, then insert. On success, with nothing else under way, exactly one state lies in between,
        and it has no route under this name. */
    method ReplaceRouteByDeleteInsert(name: string, destination: string, target: string, previous: Option<Route>)
      returns (ok: bool)
      requires table.Valid()
      requires previous == if name in table.routes then Some(table.routes[name]) else None
      modifies table
      ensures table.Valid() && old(table.history) <= table.history
      ensures ok ==> name in table.routes && table.routes[name] == RouteForTarget(cfg, name, destination, target)
      ensures ok && old(table.late) == {} ==>
                table.late == {}
                && table.routes == old(table.routes)[name := RouteForTarget(cfg, name, destination, target)]
      ensures ok && old(table.late) == {} && previous.Some? ==>
                table.history == old(table.history) + [old(table.routes) - {name}, table.routes]
      ensures table.smooth && old(table.late) == {} ==> ok
    {
      var route := RouteForTarget(cfg, name, destination, target);
      ghost var p := Plan(if previous.Some? then previous.value else route, route, route);
      var deletion := table.Delete(name, p);
      if deletion.Rejected? || deletion.NotReady? {
        return false;
      }
      if deletion.Accepted? {
        ok := table.Wait(deletion.change, p);
        if !ok {
          RestorePreviousRoute(previous, p);
          return;
        }
      }
      ok := InsertAnew(route, previous, p);
    }

    // The second half of the slow path.
    method InsertAnew(route: Route, previous: Option<Route>, ghost p: Plan) returns (ok: bool)
      requires table.Valid() && p.next == route && (previous.Some? ==> p.previous == previous.value)
      modifies table
      ensures table.Valid() && old(table.history) <= table.history
      ensures ok ==> route.name in table.routes && table.routes[route.name] == route
      ensures ok && old(table.late) == {} ==>
                && table.late == {} && table.routes == old(table.routes)[route.name := route]
                && table.history == old(table.history) + [table.routes]
      ensures table.smooth && old(table.late) == {} && route.name !in old(table.routes) ==> ok
    {
      var insertion := table.Insert(route, p);
      ok := insertion.Accepted?;
      if ok {
        ok := table.Wait(insertion.change, p);
      }
      if !ok {
        RestorePreviousRoute(previous, p);
      }
    }

    method RestorePreviousRoute(previous: Option<Route>, ghost p: Plan)
      requires table.Valid() && (previous.Some? ==> p.previous == previous.value)
      modifies table
      ensures table.Valid() && old(table.history) <= table.history
      ensures table.smooth && old(table.late) == {} && previous.Some? && previous.value.name !in old(table.routes) ==>
                table.late == {} && table.routes == old(table.routes)[previous.value.name := previous.value]
      ensures previous.None? ==> table.Now() == old(table.Now())
    {
      var cancelled := *;
      if previous.None? || (cancelled && !table.smooth) {
        return;
      }
      var r := table.Insert(previous.value, p);
      if r.Accepted? {
        var ok := table.Wait(r.change, p);
      }
    }

    /** Points the route at target, behind a shadow if the caller wants it fast. */
    method ReplaceRoute(name: string, destination: string, target: string, fast: bool, shadowName: string)
      returns (ok: bool)
      requires table.Valid() && (name in table.routes ==> table.routes[name].name == name)
      modifies table
      ensures table.Valid() && old(table.history) <= table.history
      ensures ok && shadowName != name ==> name in table.routes && table.routes[name].nextHop == Instance(target)
      ensures ok && old(table.late) == {} && shadowName != name ==> table.late == {}
      // A route already at the target is left alone, whatever else leads elsewhere.
      ensures name in old(table.routes) && old(table.routes)[name].nextHop == Instance(target) ==>
                table.Now() == old(table.Now())
      // The fast way keeps the traffic flowing, unless a deletion of the route is still under way when it begins. It is
      // taken exactly for routes with a priority, a destination, a network and tags.
      ensures (fast && name in old(table.routes) && old(table.routes)[name].priority > 0
               && old(table.routes)[name].destRange != "" && old(table.routes)[name].network != ""
               && old(table.routes)[name].tags != [] && Drop(name) !in old(table.late)) ==>
                Kept(PlanFor(cfg, old(table.routes)[name], shadowName, name, destination, target),
                     old(table.Now()), table.Now())
      ensures (ok && fast && name in old(table.routes) && old(table.routes)[name].priority > 0
               && old(table.routes)[name].destRange != "" && old(table.routes)[name].network != ""
               && old(table.routes)[name].tags != [] && shadowName != name) ==>
                table.routes[name] ==
                  if old(table.routes)[name].nextHop == Instance(target) then old(table.routes)[name]
                  else old(table.routes)[name].(destRange := destination, nextHop := Instance(target))
      // Any other route, with nothing else under way, goes through exactly the state without it.
      ensures (ok && old(table.late) == {} && name in old(table.routes)
               && old(table.routes)[name].nextHop != Instance(target)
               && (!fast || old(table.routes)[name].priority <= 0 || old(table.routes)[name].destRange == ""
                   || old(table.routes)[name].network == "" || old(table.routes)[name].tags == [])) ==>
                && table.history == old(table.history) + [old(table.routes) - {name}, table.routes]
                && name in table.routes
                && table.routes[name] ==
                   Route(name, cfg.network, destination, if cfg.priority == 0 then 800 else cfg.priority,
                         [cfg.clientTag], Instance(target))
      // In the routes' terms: alone in the table and with nobody's route before this one, the fast way leaves no client
      // without a route in any state, nor with one that leads anywhere but to the old or the new target.
      ensures forall c: Clients, i ::
                (&& name in old(table.routes)
                 && Shadowed(old(table.routes), old(table.late), fast, name, destination, target, shadowName)
                 && Reaches(old(table.routes)[name], c) && |old(table.history)| <= i < |table.history|) ==>
                  ServedBy(table.history[i], c, {old(table.routes)[name].nextHop, Instance(target)})
      ensures (fast && name in old(table.routes) && CanUseShadow(old(table.routes)[name])
               && Drop(name) !in old(table.late)) ==>
                Kept(PlanFor(cfg, old(table.routes)[name], shadowName, name, destination, target),
                     old(table.Now()), table.Now())
      ensures (table.smooth && old(table.late) == {} && shadowName != name && name != "" && destination != ""
               && target != "") ==>
                ok
    {
      var readable := *;
      readable := readable || table.smooth;
      if name == "" || destination == "" || target == "" || !readable {
        return false;
      }
      var previous := if name in table.routes then Some(table.routes[name]) else None;
      if previous.Some? && previous.value.nextHop == Instance(target) {
        return true;
      }
      if fast && previous.Some? && CanUseShadow(previous.value) {
        ok := ReplaceRouteWithShadow(name, destination, target, previous.value, shadowName);
        KeptServesAll(cfg, old(table.Now()), table.Now(), fast, name, destination, target, shadowName);
      } else {
        ok := ReplaceRouteByDeleteInsert(name, destination, target, previous);
      }
    }
  }

  // ----- A second attempt while the first one's deletion is still under way -----

  // The routes after these changes, one after the other.
  function Carried(routes: map<string, Route>, changes: seq<Change>): map<string, Route>
    decreases |changes|
  {
    if changes == [] then routes else Carried(Applied(routes, changes[0]), changes[1..])
  }

  // The changes are ones under way, each carried out once.
  predicate Drawn(changes: seq<Change>, late: set<Change>) {
    changes == [] || (changes[0] in late && Drawn(changes[1..], late - {changes[0]}))
  }

  lemma {:induction false} CarryingOutKeepsInv(p: Plan, routes: map<string, Route>, late: set<Change>,
                                               changes: seq<Change>)
    requires Inv(p, routes, late) && Drawn(changes, late)
    ensures Covered(p, Carried(routes, changes))
    decreases |changes|
  {
    if changes == [] {
      InvCovers(p, routes, late);
    } else {
      ChangeKeepsInv(p, routes, late, changes[0]);
      CarryingOutKeepsInv(p, Applied(routes, changes[0]), late - {changes[0]}, changes[1..]);
    }
  }

  // What happens to the table: a change is accepted, or one under way is carried out.
  datatype Happening = Accepts(change: Change) | Carries(change: Change)

  predicate Possible(routes: map<string, Route>, late: set<Change>, events: seq<Happening>)
    decreases |events|
  {
    events == [] ||
    match events[0]
    case Accepts(change) =>
      && (match change
          case Put(route) => route.name !in routes
          case Drop(name) => name in routes)
      && Possible(routes, late + {change}, events[1..])
    case Carries(change) => change in late && Possible(Applied(routes, change), late - {change}, events[1..])
  }

  function Played(routes: map<string, Route>, late: set<Change>, events: seq<Happening>)
    : (map<string, Route>, set<Change>)
    decreases |events|
  {
    if events == [] then (routes, late)
    else match events[0]
      case Accepts(change) => Played(routes, late + {change}, events[1..])
      case Carries(change) => Played(Applied(routes, change), late - {change}, events[1..])
  }

  lemma {:induction false} PlayedOn(routes: map<string, Route>, late: set<Change>,
                                    first: seq<Happening>, second: seq<Happening>)
    requires Possible(routes, late, first)
    requires Possible(Played(routes, late, first).0, Played(routes, late, first).1, second)
    ensures Possible(routes, late, first + second)
    ensures Played(routes, late, first + second) ==
            Played(Played(routes, late, first).0, Played(routes, late, first).1, second)
    decreases |first|
  {
    if first == [] {
      assert first + second == second;
    } else {
      var e := first[0];
      assert (first + second)[1..] == first[1..] + second;
      if e.Accepts? {
        PlayedOn(routes, late + {e.change}, first[1..], second);
      } else {
        PlayedOn(Applied(routes, e.change), late - {e.change}, first[1..], second);
      }
    }
  }

  // An attempt puts its shadow up.
  function ShadowUp(p: Plan): seq<Happening> {
    [Accepts(Put(p.shadow)), Carries(Put(p.shadow))]
  }

  lemma ShadowGoesUp(p: Plan, routes: map<string, Route>)
    requires p.shadow.name !in routes
    ensures Possible(routes, {}, ShadowUp(p))
    ensures Played(routes, {}, ShadowUp(p)) == (routes[p.shadow.name := p.shadow], {})
  {
    var put := Put(p.shadow);
    var late: set<Change> := {} + {put};
    assert late - {put} == {};
    assert ShadowUp(p)[1..] == [Carries(put)] && [Carries(put)][1..] == [];
    assert Played(routes, late, [Carries(put)]) == Played(Applied(routes, put), late - {put}, []);
  }

  // It asks for the canonical route's deletion, its wait fails, and the previous route cannot be put back because it is
  // still there: the invariant holds by the shadow alone.
  lemma AttemptSticks(p: Plan, routes: map<string, Route>)
    requires Inv(p, routes, {}) && Safe(routes, {}, p.previous) && p.shadow.name !in routes
    ensures var events := ShadowUp(p) + [Accepts(Drop(p.previous.name))];
            var (routes', late) := Played(routes, {}, events);
            && Possible(routes, {}, events) && Inv(p, routes', late)
            && routes' == routes[p.shadow.name := p.shadow] && late == {Drop(p.previous.name)}
  {
    ShadowGoesUp(p, routes);
    var shadowed := routes[p.shadow.name := p.shadow];
    var asked := [Accepts(Drop(p.previous.name))];
    assert asked[1..] == [] && {} + {Drop(p.previous.name)} == {Drop(p.previous.name)};
    assert Played(shadowed, {}, asked) == (shadowed, {Drop(p.previous.name)});
    PlayedOn(routes, {}, ShadowUp(p), asked);
  }

  // The next attempt's first request, and both deletions carried out.
  function RetryFirst(p: Plan): seq<Happening> {
    [Accepts(Drop(p.shadow.name)), Carries(Drop(p.shadow.name)), Carries(Drop(p.previous.name))]
  }

  lemma TwoCarried(routes: map<string, Route>, late: set<Change>, a: Change, b: Change)
    requires a in late && b in late && a != b
    ensures Possible(routes, late, [Carries(a), Carries(b)])
    ensures Played(routes, late, [Carries(a), Carries(b)]).0 == Carried(routes, [a, b])
  {
    var events := [Carries(a), Carries(b)];
    assert events[1..] == [Carries(b)] && [Carries(b)][1..] == [];
    assert [a, b][1..] == [b] && [b][1..] == [];
    var routes', late' := Applied(routes, a), late - {a};
    assert Possible(routes', late', [Carries(b)]);
    assert Played(routes', late', [Carries(b)]) == (Applied(routes', b), late' - {b});
    assert Carried(routes', [b]) == Applied(routes', b);
  }

  lemma RetryPlayed(p: Plan, routes: map<string, Route>, late: set<Change>)
    requires p.Ok() && p.shadow.name in routes && Drop(p.previous.name) in late
    ensures Possible(routes, late, RetryFirst(p))
    ensures Played(routes, late, RetryFirst(p)).0 ==
            Carried(routes, [Drop(p.shadow.name), Drop(p.previous.name)])
  {
    var first, second := Drop(p.shadow.name), Drop(p.previous.name);
    assert RetryFirst(p)[1..] == [Carries(first), Carries(second)];
    TwoCarried(routes, late + {first}, first, second);
  }

  /** From routes in order: an attempt that sticks and the next one's first request, carried out before the deletion
      that stuck, leave the clients without a route. */
  lemma StuckAttemptThenRetry(p: Plan, routes: map<string, Route>, c: Clients) returns (events: seq<Happening>)
    requires Inv(p, routes, {}) && Safe(routes, {}, p.previous) && p.shadow.name !in routes
    requires p.Concerns(c)
    requires forall name :: name in routes && Serves(routes[name], c) ==> name in {p.previous.name, p.shadow.name}
    ensures Covered(p, routes)
    ensures Possible(routes, {}, events) && !Covered(p, Played(routes, {}, events).0)
  {
    InvCovers(p, routes, {});
    AttemptSticks(p, routes);
    events := ShadowUp(p) + [Accepts(Drop(p.previous.name))];
    var (shadowed, late) := Played(routes, {}, events);
    var asked := late + {Drop(p.shadow.name)};
    RetryLosesRoute(p, shadowed, asked, c);
    RetryPlayed(p, shadowed, late);
    PlayedOn(routes, {}, events, RetryFirst(p));
    events := events + RetryFirst(p);
  }

  /** The next attempt begins by asking for the shadow's deletion. However the changes then under way are carried out,
      the traffic is carried, if and only if the canonical route's deletion is not among them: otherwise both routes
      can be gone. */
  lemma RetryCoveredIff(p: Plan, routes: map<string, Route>, late: set<Change>)
    requires Inv(p, routes, late) && p.previous.name in routes && routes[p.previous.name] == p.previous
    requires exists c :: p.Concerns(c) && NobodyElseServes(p, routes, c)
    ensures (forall changes :: Drawn(changes, late + {Drop(p.shadow.name)}) ==> Covered(p, Carried(routes, changes)))
            <==> Drop(p.previous.name) !in late
  {
    var asked := late + {Drop(p.shadow.name)};
    if Drop(p.previous.name) !in late {
      forall changes | Drawn(changes, asked)
        ensures Covered(p, Carried(routes, changes))
      {
        CarryingOutKeepsInv(p, routes, asked, changes);
      }
    } else {
      var c :| p.Concerns(c) && NobodyElseServes(p, routes, c);
      RetryLosesRoute(p, routes, asked, c);
    }
  }

  predicate NobodyElseServes(p: Plan, routes: map<string, Route>, c: Clients) {
    forall name :: name in routes && Serves(routes[name], c) ==> p.Ours(name)
  }

  // The failing run: first the shadow goes, then the canonical route.
  lemma RetryLosesRoute(p: Plan, routes: map<string, Route>, asked: set<Change>, c: Clients)
    requires p.Ok() && p.Concerns(c) && NobodyElseServes(p, routes, c)
    requires Drop(p.shadow.name) in asked && Drop(p.previous.name) in asked
    ensures var changes := [Drop(p.shadow.name), Drop(p.previous.name)];
      Drawn(changes, asked) && !Covered(p, Carried(routes, changes))
  {
    var changes := [Drop(p.shadow.name), Drop(p.previous.name)];
    assert changes[1..] == [Drop(p.previous.name)] && changes[1..][1..] == [];
    var bare := Carried(routes, changes);
    assert Carried(routes - {p.shadow.name}, [Drop(p.previous.name)]) == routes - {p.shadow.name} - {p.previous.name};
    assert bare == routes - {p.shadow.name} - {p.previous.name};
    assert forall name :: !Effective(bare, name, c);
  }

  // The state between deleting and inserting leaves the clients without a route, unless some other
  // route serves them.
  lemma GapUncovers(p: Plan, routes: map<string, Route>, c: Clients)
    requires p.Concerns(c)
    requires forall name :: name in routes && Serves(routes[name], c) ==> name == p.previous.name
    ensures !Covered(p, routes - {p.previous.name})
  {
    var bare := routes - {p.previous.name};
    assert forall name :: !Effective(bare, name, c);
  }

  /** Where a route already at the target is left alone, the traffic follows it if and only if no
      shadow left over from another handover (one priority better) leads elsewhere. */
  lemma LeftAloneServesIff(routes: map<string, Route>, name: string, c: Clients)
    requires name in routes && Serves(routes[name], c)
    requires forall other :: other in routes && Serves(routes[other], c) && other != name ==>
                               routes[other].priority == routes[name].priority - 1
                               || routes[name].priority < routes[other].priority
    ensures (forall best :: Effective(routes, best, c) ==> routes[best].nextHop == routes[name].nextHop)
            <==> (forall other :: (other in routes && Serves(routes[other], c)
                                    && routes[other].priority == routes[name].priority - 1) ==>
                                    routes[other].nextHop == routes[name].nextHop)
  {
    if forall best :: Effective(routes, best, c) ==> routes[best].nextHop == routes[name].nextHop {
      forall other | other in routes && Serves(routes[other], c) && routes[other].priority == routes[name].priority - 1
        ensures routes[other].nextHop == routes[name].nextHop
      {
        assert Effective(routes, other, c);
      }
    }
  }

  /** Where that goes wrong: an attempt that put its shadow up and failed there, and then a replacement back to where
      the canonical route still leads. It succeeds by leaving the route alone, and the traffic goes to the shadow's
      target. */
  method LeavesAloneInVain(provider: Provider, ghost p: Plan, ghost before: map<string, Route>, ghost c: Clients,
                           name: string, destination: string, back: string, fast: bool, shadowName: string)
    returns (ok: bool)
    requires Inv(p, before, {}) && Safe(before, {}, p.previous) && p.shadow.name !in before && p.Concerns(c)
    // The table is as that attempt left it.
    requires (provider.table.routes, provider.table.late) == Played(before, {}, ShadowUp(p))
    requires provider.table.Valid() && provider.table.smooth && p.previous.nextHop == Instance(back) && back != ""
    requires name == p.previous.name != "" && destination != "" && shadowName != name
    modifies provider.table
    ensures ok && provider.table.routes == old(provider.table.routes)
    ensures Possible(before, {}, ShadowUp(p)) && Leads(p, provider.table.routes, p.next.nextHop)
    ensures p.next.nextHop != Instance(back)
  {
    var table := provider.table;
    ShadowGoesUp(p, before);
    assert OthersBehind(p, table.routes);
    BestLeads(p, table.routes, p.shadow);
    ok := provider.ReplaceRoute(name, destination, back, fast, shadowName);
  }
}
