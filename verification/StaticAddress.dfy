/** Moving a static external address between GCP instances (AssociateEIP in internal/cloud/gcp/provider.go). */
module StaticAddress {
  import opened Common

  // An access config on a network interface.
  datatype Attachment = Attachment(nic: string, name: string, natIP: string)

  // An instance's interfaces and, interface by interface, their access configs.
  datatype Instance = Instance(nics: seq<string>, configs: seq<Attachment>)

  predicate Carries(i: Instance, ip: string) {
    exists a :: a in i.configs && a.natIP == ip
  }

  // Access configs are told apart by interface and name.
  predicate Distinct(i: Instance) {
    forall a, b :: 0 <= a < b < |i.configs| ==>
      !(i.configs[a].nic == i.configs[b].nic && i.configs[a].name == i.configs[b].name)
  }

  predicate AtMostOneCarrier(instances: map<string, Instance>, ip: string) {
    forall a, b :: a in instances && b in instances && Carries(instances[a], ip) && Carries(instances[b], ip) ==> a == b
  }

  // Two access configs with the address are on the same instance.
  lemma OneCarrierMeans(instances: map<string, Instance>, ip: string, a: string, x: Attachment,
                        b: string, y: Attachment)
    requires AtMostOneCarrier(instances, ip)
    requires a in instances && x in instances[a].configs && x.natIP == ip
    requires b in instances && y in instances[b].configs && y.natIP == ip
    ensures a == b
  {
    assert Carries(instances[a], ip) && Carries(instances[b], ip);
  }

  function Without(configs: seq<Attachment>, nic: string, name: string): (rest: seq<Attachment>)
    ensures forall a :: a in rest <==> a in configs && !(a.nic == nic && a.name == name)
    ensures |rest| <= |configs|
  {
    if configs == [] then []
    else (if configs[0].nic == nic && configs[0].name == name then [] else [configs[0]])
         + Without(configs[1..], nic, name)
  }

  /** The compute API: an instance's access configs change one at a time; an error leaves open whether
      the change happened. */
  class Compute {
    var instances: map<string, Instance>
    // No call fails.
    const smooth: bool
    ghost var history: seq<map<string, Instance>>

    ghost predicate Valid()
      reads this
    {
      history != [] && history[|history| - 1] == instances
    }

    constructor (instances: map<string, Instance>, smooth: bool)
      ensures Valid() && this.instances == instances && this.smooth == smooth && history == [instances]
    {
      this.instances, this.smooth, this.history := instances, smooth, [instances];
    }

    // The instance using the address, if any.
    method AddressUser(ip: string) returns (ok: bool, user: Option<string>)
      ensures ok ==> match user
                     case Some(id) => id in instances && Carries(instances[id], ip)
                     case None => forall id :: id in instances ==> !Carries(instances[id], ip)
      ensures smooth ==> ok
    {
      ok, user := *, None;
      ok := ok || smooth;
      if ok && exists id :: id in instances && Carries(instances[id], ip) {
        var id :| id in instances && Carries(instances[id], ip);
        user := Some(id);
      }
    }

    method Get(id: string) returns (instance: Option<Instance>)
      ensures instance.Some? ==> id in instances && instance.value == instances[id]
      ensures smooth && id in instances ==> instance.Some?
    {
      var ok := *;
      return if (ok || smooth) && id in instances then Some(instances[id]) else None;
    }

    method DeleteAccessConfig(id: string, name: string, nic: string) returns (ok: bool)
      requires Valid() && id in instances
      modifies this
      ensures Valid()
      ensures var gone :=
                  old(instances)[id := old(instances)[id].(configs := Without(old(instances)[id].configs, nic, name))];
              || (instances == gone && history == old(history) + [gone])
              || (!ok && instances == old(instances) && history == old(history))
      ensures smooth ==> ok
    {
      ok := *;
      ok := ok || smooth;
      var took := *;
      if ok || took {
        instances := instances[id := instances[id].(configs := Without(instances[id].configs, nic, name))];
        history := history + [instances];
      }
    }

    method AddAccessConfig(id: string, config: Attachment) returns (ok: bool)
      requires Valid() && id in instances
      modifies this
      ensures Valid()
      ensures var added := old(instances)[id := old(instances)[id].(configs := old(instances)[id].configs + [config])];
              || (instances == added && history == old(history) + [added])
              || (!ok && instances == old(instances) && history == old(history))
      ensures smooth && config.nic in old(instances)[id].nics ==> ok
    {
      ok := *;
      ok := ok || smooth;
      var took := *;
      if config.nic in instances[id].nics && (ok || took) {
        instances := instances[id := instances[id].(configs := instances[id].configs + [config])];
        history := history + [instances];
      } else {
        ok := false;
      }
    }
  }

  function PrimaryNIC(i: Instance): string {
    if i.nics == [] then "nic0" else i.nics[0]
  }

  // The name of the first access config on the first interface, or the default name.
  function DefaultConfigName(i: Instance): string {
    if i.nics != [] && i.configs != [] && i.configs[0].nic == i.nics[0] then i.configs[0].name else "External NAT"
  }

  // Only one instance differs, and it has lost access configs at most.
  ghost predicate OnlyShrunk(before: map<string, Instance>, after: map<string, Instance>, id: string) {
    && id in before && after.Keys == before.Keys
    && (forall other :: other in before && other != id ==> after[other] == before[other])
    && after[id].nics == before[id].nics
    && (forall a :: a in after[id].configs ==> a in before[id].configs)
  }

  // Every state since moment from has at most one carrier.
  ghost predicate OneCarrierSince(history: seq<map<string, Instance>>, from: nat, ip: string) {
    forall i :: from <= i < |history| ==> AtMostOneCarrier(history[i], ip)
  }

  lemma ShrinkingKeepsOneCarrier(before: map<string, Instance>, after: map<string, Instance>, id: string, ip: string)
    requires OnlyShrunk(before, after, id) && AtMostOneCarrier(before, ip)
    ensures AtMostOneCarrier(after, ip)
  {
    forall x | x in after && Carries(after[x], ip) ensures Carries(before[x], ip) {
      var a :| a in after[x].configs && a.natIP == ip;
      assert a in before[x].configs;
    }
  }

  lemma ShrunkTwice(a: map<string, Instance>, b: map<string, Instance>, c: map<string, Instance>, id: string)
    requires OnlyShrunk(a, b, id) && OnlyShrunk(b, c, id)
    ensures OnlyShrunk(a, c, id)
  {
  }

  // Deletes one access config and waits for it.
  method DeleteOne(api: Compute, id: string, config: Attachment, ghost ip: string) returns (ok: bool)
    requires api.Valid() && id in api.instances && AtMostOneCarrier(api.instances, ip)
    modifies api
    ensures api.Valid() && OnlyShrunk(old(api.instances), api.instances, id) && AtMostOneCarrier(api.instances, ip)
    ensures old(api.history) <= api.history && OneCarrierSince(api.history, |old(api.history)|, ip)
    ensures ok ==> config !in api.instances[id].configs
    ensures api.smooth ==> ok
    ensures forall a :: a in old(api.instances)[id].configs && !(a.nic == config.nic && a.name == config.name) ==>
              a in api.instances[id].configs
  {
    ghost var before := api.instances;
    ok := api.DeleteAccessConfig(id, config.name, config.nic);
    ShrinkingKeepsOneCarrier(before, api.instances, id, ip);
  }

  // Deletes, one by one, the access configs of id that do not carry keep (None: all of them).
  method DeleteAccessConfigs(api: Compute, id: string, snapshot: Instance, keep: Option<string>, ghost ip: string)
    returns (ok: bool)
    requires api.Valid() && id in api.instances && snapshot == api.instances[id]
    requires AtMostOneCarrier(api.instances, ip)
    modifies api
    ensures api.Valid() && OnlyShrunk(old(api.instances), api.instances, id) && AtMostOneCarrier(api.instances, ip)
    ensures old(api.history) <= api.history && OneCarrierSince(api.history, |old(api.history)|, ip)
    ensures ok ==> forall a :: a in api.instances[id].configs ==> keep.Some? && a.natIP == keep.value
    ensures api.smooth ==> ok
    ensures Distinct(snapshot) && keep.Some? ==>
              forall a :: a in snapshot.configs && a.natIP == keep.value ==> a in api.instances[id].configs
  {
    for i := 0 to |snapshot.configs|
      invariant api.Valid() && OnlyShrunk(old(api.instances), api.instances, id) && AtMostOneCarrier(api.instances, ip)
      invariant old(api.history) <= api.history && OneCarrierSince(api.history, |old(api.history)|, ip)
      invariant forall k :: 0 <= k < i && snapshot.configs[k] in api.instances[id].configs ==>
                              keep.Some? && snapshot.configs[k].natIP == keep.value
      invariant Distinct(snapshot) && keep.Some? ==>
                  forall k :: 0 <= k < |snapshot.configs| && snapshot.configs[k].natIP == keep.value ==>
                                snapshot.configs[k] in api.instances[id].configs
    {
      var config := snapshot.configs[i];
      if keep.Some? && config.natIP == keep.value {
        continue;
      }
      ghost var before := api.instances;
      ok := DeleteOne(api, id, config, ip);
      ShrunkTwice(old(api.instances), before, api.instances, id);
      if !ok {
        return;
      }
    }
    ok := true;
  }

  /** Moves the address to target. At every step at most one instance carries it. On success the target
      carries it and nothing else, whoever held it before has no access config left, and every other
      instance is as it was. */
  method AssociateEIP(api: Compute, ip: string, target: string) returns (ok: bool, ghost holder: Option<string>)
    requires api.Valid() && AtMostOneCarrier(api.instances, ip)
    requires forall id, a, b :: id in api.instances && 0 <= a < b < |api.instances[id].configs| ==>
                                  api.instances[id].configs[a].nic != api.instances[id].configs[b].nic
                                  || api.instances[id].configs[a].name != api.instances[id].configs[b].name
    modifies api
    ensures api.Valid() && old(api.history) <= api.history && OneCarrierSince(api.history, |old(api.history)|, ip)
    ensures holder.Some? ==> holder.value in old(api.instances) && Carries(old(api.instances)[holder.value], ip)
    ensures api.instances.Keys == old(api.instances).Keys
    ensures forall id :: id in api.instances && id != target && (holder.None? || id != holder.value) ==>
                           api.instances[id] == old(api.instances)[id]
    ensures ok ==>
              && target in api.instances && Carries(api.instances[target], ip)
              && (forall a :: a in api.instances[target].configs ==> a.natIP == ip)
              && (holder.Some? && holder.value != target ==> api.instances[holder.value].configs == [])
    // A target that did not carry it has it on its first interface, under the name its first access config there had.
    ensures ok && !Carries(old(api.instances)[target], ip) ==>
              var before := old(api.instances)[target];
              api.instances[target].configs ==
              [Attachment(if before.nics == [] then "nic0" else before.nics[0],
                          if before.nics != [] && before.configs != [] && before.configs[0].nic == before.nics[0]
                          then before.configs[0].name else "External NAT", ip)]
    // Without faults it succeeds on every instance that has an interface.
    ensures (api.smooth && ip != "" && target != "" && target in api.instances
             && old(api.instances)[target].nics != []) ==>
              ok
  {
    holder := None;
    if ip == "" || target == "" {
      return false, holder;
    }
    var known, user := api.AddressUser(ip);
    if !known {
      return false, holder;
    }
    holder := user;
    if user.Some? && user.value != target {
      ok := DetachFrom(api, user.value, ip);
      if !ok {
        return;
      }
    }
    ok := AttachTo(api, target, ip);
  }

  method DetachFrom(api: Compute, id: string, ip: string) returns (ok: bool)
    requires api.Valid() && id in api.instances && AtMostOneCarrier(api.instances, ip)
    modifies api
    ensures api.Valid() && OnlyShrunk(old(api.instances), api.instances, id) && AtMostOneCarrier(api.instances, ip)
    ensures old(api.history) <= api.history && OneCarrierSince(api.history, |old(api.history)|, ip)
    ensures ok ==> api.instances[id].configs == []
    ensures api.smooth ==> ok
  {
    var instance := api.Get(id);
    if instance.None? {
      return false;
    }
    ok := DeleteAccessConfigs(api, id, instance.value, None, ip);
    assert api.instances[id].configs == [] || api.instances[id].configs[0] in api.instances[id].configs;
  }

  method AttachTo(api: Compute, target: string, ip: string) returns (ok: bool)
    requires api.Valid() && AtMostOneCarrier(api.instances, ip)
    requires forall id :: id in api.instances && id != target ==> !Carries(api.instances[id], ip)
    requires target in api.instances ==> Distinct(api.instances[target])
    modifies api
    ensures api.Valid() && old(api.history) <= api.history && OneCarrierSince(api.history, |old(api.history)|, ip)
    ensures api.instances.Keys == old(api.instances).Keys
    ensures forall id :: id in api.instances && id != target ==> api.instances[id] == old(api.instances)[id]
    ensures ok ==>
              && target in api.instances && Carries(api.instances[target], ip)
              && forall a :: a in api.instances[target].configs ==> a.natIP == ip
    ensures ok && !Carries(old(api.instances)[target], ip) ==>
              var before := old(api.instances)[target];
              api.instances[target].configs ==
              [Attachment(if before.nics == [] then "nic0" else before.nics[0],
                          if before.nics != [] && before.configs != [] && before.configs[0].nic == before.nics[0]
                          then before.configs[0].name else "External NAT", ip)]
    ensures api.smooth && target in api.instances && old(api.instances)[target].nics != [] ==> ok
  {
    var instance := api.Get(target);
    if instance.None? {
      return false;
    }
    var snapshot := instance.value;
    ok := DeleteAccessConfigs(api, target, snapshot, Some(ip), ip);
    assert api.instances[target].configs == [] || api.instances[target].configs[0] in api.instances[target].configs;
    if !ok {
      return;
    }
    if Carries(snapshot, ip) {
      var kept :| kept in snapshot.configs && kept.natIP == ip;
      assert kept in api.instances[target].configs;
    } else {
      var config := Attachment(PrimaryNIC(snapshot), DefaultConfigName(snapshot), ip);
      ghost var before := api.instances;
      ok := api.AddAccessConfig(target, config);
      assert AtMostOneCarrier(api.instances, ip);
      if ok {
        assert config in api.instances[target].configs;
      }
    }
  }
}
