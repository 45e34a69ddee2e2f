/** The edits of a project's IAM policy (internal/install/gcp/runtime_iam.go): a member is added to a role's binding, or
    removed from all of them by compacting the lists in place. */
module Iam {
  import opened Strings

  datatype Grant = Grant(role: string, members: seq<string>)

  // ----- The edits on values -----

  function Without(members: seq<string>, member: string): seq<string> {
    if members == [] then []
    else
      var last := members[|members| - 1];
      var front := Without(members[..|members| - 1], member);
      if last == member then front else front + [last]
  }

  // A binding of the role loses the member; left empty, it goes.
  function RemovedFrom(g: Grant, role: string, member: string): seq<Grant> {
    if g.role != role then [g]
    else if Without(g.members, member) == [] then []
    else [Grant(role, Without(g.members, member))]
  }

  function Removed(grants: seq<Grant>, role: string, member: string): seq<Grant> {
    if grants == [] then []
    else
      Removed(grants[..|grants| - 1], role, member) + RemovedFrom(grants[|grants| - 1], role, member)
  }

  function WithMember(g: Grant, member: string): Grant {
    Grant(g.role, Sorted(g.members + [member]))
  }

  // The first binding of the role decides.
  function Added(grants: seq<Grant>, role: string, member: string): seq<Grant> {
    if grants == [] then [Grant(role, [member])]
    else if grants[0].role != role then [grants[0]] + Added(grants[1..], role, member)
    else if member in grants[0].members then grants
    else [WithMember(grants[0], member)] + grants[1..]
  }

  // Binding i is the first of the role; it is new, or has the member once more than before and in order, and the others
  // are as they were.
  predicate ExtendedAt(before: seq<Grant>, after: seq<Grant>, i: nat, role: string, member: string)
    requires i < |after|
  {
    && i <= |before| && after[i].role == role && (forall j :: 0 <= j < i ==> after[j].role != role)
    && after[..i] == before[..i] && InOrder(after[i].members)
    && if i == |before| then after[i..] == [Grant(role, [member])]
       else after[i + 1..] == before[i + 1..]
            && multiset(after[i].members) == multiset(before[i].members) + multiset{member}
            && member !in before[i].members
  }

  // The first binding of the role has the member.
  predicate FirstHas(grants: seq<Grant>, role: string, member: string) {
    grants != [] &&
    if grants[0].role == role then member in grants[0].members else FirstHas(grants[1..], role, member)
  }

  // Who holds which role.
  ghost function Pairs(grants: seq<Grant>): set<(string, string)> {
    set g, m | g in grants && m in g.members :: (g.role, m)
  }

  function OfOthers(grants: seq<Grant>, role: string): seq<Grant> {
    if grants == [] then []
    else
      var last := grants[|grants| - 1];
      OfOthers(grants[..|grants| - 1], role) + if last.role == role then [] else [last]
  }

  lemma WithoutNext(members: seq<string>, i: nat, member: string)
    requires i < |members|
    ensures Without(members[..i + 1], member) ==
              Without(members[..i], member) + if members[i] == member then [] else [members[i]]
    ensures member in members[..i + 1] <==> member in members[..i] || members[i] == member
  {
    assert members[..i + 1] == members[..i] + [members[i]] && members[..i + 1][..i] == members[..i];
  }

  // The members are gone through one by one, in order.
  lemma {:induction false} WithoutKeepsOrder(a: seq<string>, b: seq<string>, member: string)
    ensures Without(a + b, member) == Without(a, member) + Without(b, member)
    ensures |b| == 1 ==> Without(b, member) == if b[0] == member then [] else b
  {
    if b == [] {
      assert a + b == a;
    } else {
      assert (a + b)[..|a + b| - 1] == a + b[..|b| - 1];
      WithoutKeepsOrder(a, b[..|b| - 1], member);
    }
  }

  lemma {:induction false} WithoutMembers(members: seq<string>, member: string)
    ensures forall m :: m in Without(members, member) <==> m in members && m != member
  {
    if members != [] {
      var front := members[..|members| - 1];
      WithoutMembers(front, member);
      assert members == front + [members[|members| - 1]];
    }
  }

  // What is filtered keeps how often each other member is listed.
  lemma {:induction false} WithoutCounts(members: seq<string>, member: string)
    ensures forall m :: multiset(Without(members, member))[m] == if m == member then 0 else multiset(members)[m]
  {
    if members != [] {
      var front := members[..|members| - 1];
      WithoutCounts(front, member);
      assert members == front + [members[|members| - 1]];
    }
  }

  // A binding of the role goes exactly when nobody but the member is in it; else it loses the member and no one else.
  // A binding of another role stays as it is.
  lemma RemovedFromIs(g: Grant, role: string, member: string)
    ensures g.role != role ==> RemovedFrom(g, role, member) == [g]
    ensures g.role == role ==> (RemovedFrom(g, role, member) == [] <==> forall m :: m in g.members ==> m == member)
    ensures g.role == role && RemovedFrom(g, role, member) != [] ==>
              && |RemovedFrom(g, role, member)| == 1 && RemovedFrom(g, role, member)[0].role == role
              && forall m :: multiset(RemovedFrom(g, role, member)[0].members)[m] ==
                             if m == member then 0 else multiset(g.members)[m]
  {
    WithoutMembers(g.members, member);
    WithoutCounts(g.members, member);
    if g.role == role && Without(g.members, member) != [] {
      assert Without(g.members, member)[0] in Without(g.members, member);
    }
  }

  // A member added to a binding is listed once more, everybody else as often as before, in order.
  lemma WithMemberIs(g: Grant, member: string)
    ensures WithMember(g, member).role == g.role && InOrder(WithMember(g, member).members)
    ensures multiset(WithMember(g, member).members) == multiset(g.members) + multiset{member}
  {
    SortedInOrder(g.members + [member]);
    assert multiset(g.members + [member]) == multiset(g.members) + multiset{member};
  }

  // In no binding of the role is the member left, and none is left empty that had the member or nobody.
  lemma {:induction false} RemovedLeavesNoneEmpty(grants: seq<Grant>, role: string, member: string)
    ensures forall g :: g in Removed(grants, role, member) && g.role == role ==> member !in g.members && g.members != []
  {
    if grants != [] {
      RemovedLeavesNoneEmpty(grants[..|grants| - 1], role, member);
      WithoutMembers(grants[|grants| - 1].members, member);
    }
  }

  lemma PairsOfConcat(a: seq<Grant>, b: seq<Grant>)
    ensures Pairs(a + b) == Pairs(a) + Pairs(b)
  {
    forall p
      ensures p in Pairs(a + b) <==> p in Pairs(a) + Pairs(b)
    {
      if p in Pairs(a) {
        var g :| g in a && g.role == p.0 && p.1 in g.members;
        assert g in a + b;
      }
      if p in Pairs(b) {
        var g :| g in b && g.role == p.0 && p.1 in g.members;
        assert g in a + b;
      }
    }
  }

  lemma PairsOfOne(g: Grant)
    ensures forall p :: p in Pairs([g]) <==> p.0 == g.role && p.1 in g.members
  {
    forall p: (string, string) | p.0 == g.role && p.1 in g.members
      ensures p in Pairs([g])
    {
      assert g in [g];
    }
  }

  // The bindings of other roles are gone through one by one, in order.
  lemma {:induction false} OthersKeepOrder(a: seq<Grant>, b: seq<Grant>, role: string)
    ensures OfOthers(a + b, role) == OfOthers(a, role) + OfOthers(b, role)
    ensures |b| == 1 ==> OfOthers(b, role) == if b[0].role == role then [] else b
  {
    if b == [] {
      assert a + b == a;
    } else {
      assert (a + b)[..|a + b| - 1] == a + b[..|b| - 1];
      OthersKeepOrder(a, b[..|b| - 1], role);
    }
  }

  lemma RemovedFromPairs(g: Grant, role: string, member: string)
    ensures Pairs(RemovedFrom(g, role, member)) == Pairs([g]) - {(role, member)}
  {
    PairsOfOne(g);
    if g.role == role {
      WithoutMembers(g.members, member);
      PairsOfOne(Grant(role, Without(g.members, member)));
      forall p: (string, string)
        ensures p in Pairs(RemovedFrom(g, role, member)) <==> p in Pairs([g]) - {(role, member)}
      {
        assert p.0 == role && p.1 in g.members && p.1 != member ==> p.1 in Without(g.members, member);
      }
    }
  }

  lemma RemovedFromOthers(g: Grant, role: string, member: string)
    ensures OfOthers(RemovedFrom(g, role, member), role) == OfOthers([g], role)
  {
  }

  lemma {:induction false} RemovedOthers(grants: seq<Grant>, role: string, member: string)
    ensures OfOthers(Removed(grants, role, member), role) == OfOthers(grants, role)
  {
    if grants != [] {
      var front, last := grants[..|grants| - 1], grants[|grants| - 1];
      var kept, one := Removed(front, role, member), RemovedFrom(last, role, member);
      assert OfOthers(kept + one, role) == OfOthers(front, role) + OfOthers([last], role) by {
        RemovedOthers(front, role, member);
        RemovedFromOthers(last, role, member);
        OthersKeepOrder(kept, one, role);
      }
      assert OfOthers(grants, role) == OfOthers(front, role) + OfOthers([last], role) by {
        assert grants == front + [last];
        OthersKeepOrder(front, [last], role);
      }
    }
  }

  lemma {:induction false} RemovedTakesPair(grants: seq<Grant>, role: string, member: string)
    ensures Pairs(Removed(grants, role, member)) == Pairs(grants) - {(role, member)}
  {
    if grants != [] {
      var front, last := grants[..|grants| - 1], grants[|grants| - 1];
      RemovedTakesPair(front, role, member);
      RemovedFromPairs(last, role, member);
      assert grants == front + [last];
      PairsOfConcat(front, [last]);
      PairsOfConcat(Removed(front, role, member), RemovedFrom(last, role, member));
    }
  }

  /** Removing takes away exactly the pair, and leaves the bindings of other roles as and where they were. */
  lemma RemovedPairs(grants: seq<Grant>, role: string, member: string)
    ensures Pairs(Removed(grants, role, member)) == Pairs(grants) - {(role, member)}
    ensures OfOthers(Removed(grants, role, member), role) == OfOthers(grants, role)
  {
    RemovedTakesPair(grants, role, member);
    RemovedOthers(grants, role, member);
  }

  /** Adding adds exactly the pair. */
  lemma {:induction false} AddedPairs(grants: seq<Grant>, role: string, member: string)
    ensures Pairs(Added(grants, role, member)) == Pairs(grants) + {(role, member)}
  {
    if grants == [] {
      PairsOfOne(Grant(role, [member]));
    } else {
      var first, rest := grants[0], grants[1..];
      assert grants == [first] + rest;
      PairsOfConcat([first], rest);
      if first.role != role {
        AddedPairs(rest, role, member);
        PairsOfConcat([first], Added(rest, role, member));
      } else {
        AddedToPairs(first, member);
        PairsOfConcat([WithMember(first, member)], rest);
      }
    }
  }

  lemma WithMemberHas(g: Grant, member: string)
    ensures forall m :: m in WithMember(g, member).members <==> m in g.members || m == member
  {
    forall m
      ensures m in WithMember(g, member).members <==> m in g.members || m == member
    {
      assert m in WithMember(g, member).members <==> m in multiset(g.members + [member]);
    }
  }

  lemma AddedToPairs(g: Grant, member: string)
    ensures Pairs([WithMember(g, member)]) == Pairs([g]) + {(g.role, member)}
    ensures member in g.members ==> (g.role, member) in Pairs([g])
  {
    PairsOfOne(g);
    PairsOfOne(WithMember(g, member));
    WithMemberHas(g, member);
  }

  /** Removing a pair just added gives back who held what, if the pair is new. */
  lemma RemoveUndoesAdd(grants: seq<Grant>, role: string, member: string)
    requires (role, member) !in Pairs(grants)
    ensures Pairs(Removed(Added(grants, role, member), role, member)) == Pairs(grants)
  {
    AddedPairs(grants, role, member);
    RemovedPairs(Added(grants, role, member), role, member);
  }

  // ----- The edits in place -----

  // A binding's members are the first count elements of its array.
  class Binding {
    const role: string
    var members: array<string>
    var count: nat

    ghost predicate Valid()
      reads this
    {
      count <= members.Length
    }

    ghost function Value(): Grant
      requires Valid()
      reads this, members
    {
      Grant(role, members[..count])
    }

    constructor (role: string, member: string)
      ensures Valid() && fresh(members) && Value() == Grant(role, [member])
    {
      this.role, count := role, 1;
      members := new string[1](_ => member);
    }

    /** Compacts the members in place over the one removed. */
    method Remove(member: string) returns (found: bool)
      requires Valid()
      modifies this, members
      ensures Valid() && members == old(members)
      ensures Value() == Grant(role, Without(old(Value()).members, member))
      ensures found <==> member in old(Value()).members
    {
      found := false;
      var kept := 0;
      ghost var before := members[..count];
      for i := 0 to count
        invariant kept <= i && members == old(members) && count == |before|
        invariant forall j :: i <= j < count ==> members[j] == before[j]
        invariant members[..kept] == Without(before[..i], member)
        invariant found <==> member in before[..i]
      {
        var existing := members[i];
        WithoutNext(before, i, member);
        if existing == member {
          found := true;
          continue;
        }
        ghost var done := members[..kept];
        members[kept] := existing;
        kept := kept + 1;
        assert members[..kept] == done + [existing];
      }
      assert before[..count] == before;
      count := kept;
    }

    method Add(member: string)
      requires Valid()
      modifies this
      ensures Valid() && fresh(members)
      ensures Value() == WithMember(old(Value()), member)
    {
      var sorted := Sorted(members[..count] + [member]);
      assert |sorted| == |multiset(sorted)| == |multiset(members[..count] + [member])| == count + 1;
      members := new string[|sorted|](i requires 0 <= i < |sorted| => sorted[i]);
      count := count + 1;
      assert members[..count] == sorted;
    }
  }

  predicate SomeHolds(grants: seq<Grant>, role: string, member: string) {
    grants != []
    && (SomeHolds(grants[..|grants| - 1], role, member) || Holds(grants[|grants| - 1], role, member))
  }

  // No two bindings share storage.
  ghost predicate Apart(bindings: seq<Binding>)
    reads bindings
  {
    forall i, j :: 0 <= i < j < |bindings| ==> bindings[i] != bindings[j] && bindings[i].members != bindings[j].members
  }

  predicate Holds(g: Grant, role: string, member: string) {
    g.role == role && member in g.members
  }

  // The bindings, one by one, are these grants.
  ghost predicate Hold(bindings: seq<Binding>, grants: seq<Grant>)
    reads bindings, set b | b in bindings :: b.members
  {
    |bindings| == |grants| && forall i :: 0 <= i < |grants| ==> bindings[i].Valid() && bindings[i].Value() == grants[i]
  }

  lemma ApartFrom(front: seq<Binding>, binding: Binding, rest: seq<Binding>)
    requires Apart(front + [binding] + rest)
    ensures forall i :: 0 <= i < |front| ==> front[i] != binding && front[i].members != binding.members
    ensures forall i :: 0 <= i < |rest| ==> rest[i] != binding && rest[i].members != binding.members
  {
    var all, k := front + [binding] + rest, |front|;
    assert all[k] == binding;
    assert forall i :: 0 <= i < k ==> all[i] == front[i];
    forall i | 0 <= i < |rest|
      ensures rest[i] != binding && rest[i].members != binding.members
    {
      assert all[k + 1 + i] == rest[i];
    }
  }

  // The bindings before and after do not notice.
  method RemoveAmong(ghost front: seq<Binding>, ghost kept: seq<Grant>, binding: Binding,
                     ghost rest: seq<Binding>, ghost grants: seq<Grant>, member: string)
    returns (found: bool)
    requires binding.Valid() && Hold(front, kept) && Hold(rest, grants) && Apart(front + [binding] + rest)
    modifies binding, binding.members
    ensures binding.Valid() && Hold(front, kept) && Hold(rest, grants) && Apart(front + [binding] + rest)
    ensures binding.members == old(binding.members)
    ensures binding.Value() == Grant(binding.role, Without(old(binding.Value()).members, member))
    ensures found <==> member in old(binding.Value()).members
  {
    ApartFrom(front, binding, rest);
    found := binding.Remove(member);
  }

  lemma ApartWithout(front: seq<Binding>, binding: Binding, rest: seq<Binding>)
    requires Apart(front + [binding] + rest)
    ensures Apart(front + rest)
  {
    var all, less, k := front + [binding] + rest, front + rest, |front|;
    forall i, j | 0 <= i < j < |less|
      ensures less[i] != less[j] && less[i].members != less[j].members
    {
      var p, q := if i < k then i else i + 1, if j < k then j else j + 1;
      assert less[i] == all[p] && less[j] == all[q];
    }
  }

  // A list with or without one more binding.
  function Extended(out: seq<Binding>, binding: Binding, keep: bool): seq<Binding> {
    if keep then out + [binding] else out
  }

  // One round of the loop over the bindings: out is what is kept so far, rest what is still to come.
  method RemoveFromOne(ghost out: seq<Binding>, ghost values: seq<Grant>, binding: Binding,
                       ghost rest: seq<Binding>, ghost grants: seq<Grant>, role: string, member: string)
    returns (keep: bool, found: bool)
    requires binding.Valid() && Hold(out, values) && Hold(rest, grants) && Apart(out + [binding] + rest)
    modifies binding, binding.members
    ensures Hold(Extended(out, binding, keep), values + RemovedFrom(old(binding.Value()), role, member))
    ensures Hold(rest, grants) && Apart(Extended(out, binding, keep) + rest)
    ensures found <==> Holds(old(binding.Value()), role, member)
    ensures binding.members == old(binding.members)
  {
    if binding.role != role {
      return true, false;
    }
    found := RemoveAmong(out, values, binding, rest, grants, member);
    keep := binding.count > 0;
    if !keep {
      ApartWithout(out, binding, rest);
      assert values + [] == values;
    }
  }

  // Storing a binding in the policy's array changes no binding.
  method Store(a: array<Binding>, i: nat, binding: Binding,
               ghost out: seq<Binding>, ghost values: seq<Grant>, ghost rest: seq<Binding>, ghost grants: seq<Grant>)
    requires i < a.Length && Hold(out, values) && Hold(rest, grants) && Apart(out + rest)
    modifies a
    ensures a[..] == old(a[..])[i := binding]
    ensures Hold(out, values) && Hold(rest, grants) && Apart(out + rest)
  {
    a[i] := binding;
  }

  // One round in the array a: the binding at i is read and, if kept, stored behind those kept before.
  method CompactOne(a: array<Binding>, kept: nat, i: nat, ghost out: seq<Binding>, ghost values: seq<Grant>,
                    binding: Binding, ghost rest: seq<Binding>, ghost grants: seq<Grant>, role: string, member: string)
    returns (kept': nat, found: bool, ghost out': seq<Binding>)
    requires kept <= i < a.Length && a[..kept] == out && a[i] == binding && Unread(a, i + 1, rest)
    requires binding.Valid() && Hold(out, values) && Hold(rest, grants) && Apart(out + [binding] + rest)
    modifies a, binding, binding.members
    ensures kept <= kept' <= i + 1 && a[..kept'] == out'
    ensures Unread(a, i + 1, rest)
    ensures Hold(out', values + RemovedFrom(old(binding.Value()), role, member)) && Hold(rest, grants)
    ensures Apart(out' + rest)
    ensures found <==> Holds(old(binding.Value()), role, member)
    ensures binding.members == old(binding.members) && (out' == out || out' == out + [binding])
  {
    ghost var after := values + RemovedFrom(binding.Value(), role, member);
    var keep;
    keep, found := RemoveFromOne(out, values, binding, rest, grants, role, member);
    kept', out' := kept, Extended(out, binding, keep);
    if keep {
      Store(a, kept, binding, out', after, rest, grants);
      kept' := kept + 1;
    }
  }

  method OneLonger(a: array<Binding>, count: nat, binding: Binding) returns (longer: array<Binding>)
    requires count <= a.Length
    ensures fresh(longer) && longer[..] == a[..count] + [binding]
  {
    var s := a[..count] + [binding];
    longer := new Binding[|s|](i requires 0 <= i < |s| => s[i]);
    assert longer[..] == s;
  }

  // A policy's bindings are the first elements of its array; list and contents are what they are and stand for.
  class Policy {
    var bindings: array<Binding>
    var count: nat
    ghost var list: seq<Binding>
    ghost var contents: seq<Grant>

    ghost predicate Valid()
      reads this, bindings, list, set b | b in list :: b.members
    {
      && count == |list| <= bindings.Length && bindings[..count] == list
      && Hold(list, contents) && Apart(list)
    }

    /** The first binding of the role gets the member, unless it has it; with no such binding there is a new one. */
    method Add(role: string, member: string) returns (changed: bool)
      requires Valid()
      modifies this, bindings, list
      ensures Valid() && contents == Added(old(contents), role, member)
      ensures changed <==> !FirstHas(old(contents), role, member)
      // At most one binding has changed: it has the member now, once more than before, and is in order.
      ensures !changed ==> contents == old(contents)
      ensures changed ==> exists i :: 0 <= i < |contents| && ExtendedAt(old(contents), contents, i, role, member)
    {
      AddedExtends(contents, role, member);
      changed := AddToFirst(role, member);
    }

    // The loop over the bindings.
    method AddToFirst(role: string, member: string) returns (changed: bool)
      requires Valid()
      modifies this, bindings, list
      ensures Valid() && contents == Added(old(contents), role, member)
      ensures changed <==> !FirstHas(old(contents), role, member)
    {
      for i := 0 to count
        invariant Valid() && contents == old(contents) && bindings == old(bindings) && list == old(list)
        invariant count == old(count)
        invariant forall j :: 0 <= j < i ==> contents[j].role != role
      {
        var binding := bindings[i];
        assert binding == bindings[..count][i] == list[i] && binding.Value() == contents[i];
        if binding.role == role {
          AddedAt(contents, i, role, member);
          if member in binding.members[..binding.count] {
            return false;
          }
          AddTo(i, binding, member);
          return true;
        }
      }
      AddedAtEnd(contents, role, member);
      AddBinding(role, member);
      return true;
    }

    method AddTo(ghost i: nat, binding: Binding, member: string)
      requires Valid() && i < |list| && list[i] == binding
      modifies this, binding
      ensures Valid() && list == old(list)
      ensures contents == old(contents)[i := WithMember(old(contents)[i], member)]
    {
      assert binding.Value() == contents[i];
      binding.Add(member);
      contents := contents[i := binding.Value()];
    }

    // Appends in the spare room of the array, or in a larger one.
    method AddBinding(role: string, member: string)
      requires Valid()
      modifies this, bindings
      ensures Valid() && contents == old(contents) + [Grant(role, [member])]
    {
      var binding := new Binding(role, member);
      if count < bindings.Length {
        Store(bindings, count, binding, list, contents, [binding], [binding.Value()]);
      } else {
        bindings := OneLonger(bindings, count, binding);
      }
      count := count + 1;
      list, contents := list + [binding], contents + [binding.Value()];
      assert bindings[..count] == list;
    }

    /** Every binding of the role loses the member; those left empty go. The list is compacted in its own array, behind
        the place where it is being read. */
    method Remove(role: string, member: string) returns (changed: bool)
      requires Valid()
      modifies this, bindings, list, set b | b in list :: b.members
      ensures Valid() && contents == Removed(old(contents), role, member) && bindings == old(bindings)
      ensures changed <==> (role, member) in Pairs(old(contents))
      // No binding of the role has the member any more, and none is empty.
      ensures forall g :: g in contents && g.role == role ==> member !in g.members && g.members != []
    {
      ghost var out;
      RemovedLeavesNoneEmpty(contents, role, member);
      HeldIsPair(contents, role, member);
      ghost var values := Removed(contents, role, member);
      count, changed, out := Compact(bindings, count, list, contents, role, member);
      list, contents := out, values;
    }
  }

  // The same against the values: done is gone through, grants is still to come.
  method CompactNext(a: array<Binding>, kept: nat, i: nat, ghost out: seq<Binding>, ghost done: seq<Grant>,
                     ghost rest: seq<Binding>, ghost grants: seq<Grant>, role: string, member: string)
    returns (kept': nat, found: bool, ghost out': seq<Binding>)
    requires kept == |out| <= i < a.Length && a[..kept] == out && rest != [] && Unread(a, i, rest)
    requires Apart(out + rest) && Hold(out, Removed(done, role, member)) && Hold(rest, grants)
    modifies a, rest[0], rest[0].members
    ensures kept' == |out'| <= i + 1 <= a.Length && a[..kept'] == out' && Unread(a, i + 1, rest[1..])
    ensures Apart(out' + rest[1..]) && Hold(rest[1..], grants[1..])
    ensures Hold(out', Removed(done + [grants[0]], role, member))
    ensures found <==> Holds(grants[0], role, member)
    ensures rest[0].members == old(rest[0].members)
  {
    Peel(out, rest, grants);
    RemovedSnoc(done, grants[0], role, member);
    assert a[i + 0] == rest[0];
    assert Unread(a, i + 1, rest[1..]) by {
      forall j | 0 <= j < |rest| - 1
        ensures a[i + 1 + j] == rest[1..][j]
      {
        assert a[i + (j + 1)] == rest[j + 1];
      }
    }
    kept', found, out' := CompactOne(a, kept, i, out, Removed(done, role, member),
                                     a[i], rest[1..], grants[1..], role, member);
  }

  // The loop over the first count bindings of the array: reads one after the other, and writes what is kept to the
  // front of the same array.
  method Compact(a: array<Binding>, count: nat, ghost all: seq<Binding>, ghost contents: seq<Grant>, role: string,
                 member: string)
    returns (kept: nat, changed: bool, ghost out: seq<Binding>)
    requires count == |all| <= a.Length && a[..count] == all && Hold(all, contents) && Apart(all)
    modifies a, all, set b | b in all :: b.members
    ensures kept == |out| <= count && a[..kept] == out
    ensures Hold(out, Removed(contents, role, member)) && Apart(out)
    ensures changed <==> SomeHolds(contents, role, member)
  {
    kept, changed, out := 0, false, [];
    ghost var done, rest, grants := [], all, contents;
    assert out + rest == all && done + grants == contents;
    for i := 0 to count
      invariant kept == |out| <= i == |done| && i + |rest| == count && contents == done + grants
      invariant a[..kept] == out && Unread(a, i, rest)
      invariant forall b :: b in rest ==> b in all
      invariant forall b :: b in all ==> b.members == old(b.members)
      invariant Apart(out + rest) && Hold(out, Removed(done, role, member)) && Hold(rest, grants)
      invariant changed <==> SomeHolds(done, role, member)
    {
      assert a[i + 0] == rest[0] && rest[0] in all;
      var found;
      kept, found, out := CompactNext(a, kept, i, out, done, rest, grants, role, member);
      Shifted(done, grants);
      done, rest, grants := done + [grants[0]], rest[1..], grants[1..];
      changed := changed || found;
    }
    NothingLeft(out, rest, done, grants);
  }

  lemma NothingLeft(out: seq<Binding>, rest: seq<Binding>, done: seq<Grant>, grants: seq<Grant>)
    requires rest == [] && Apart(out + rest) && Hold(rest, grants)
    ensures Apart(out) && done + grants == done
  {
    assert out + rest == out;
  }

  // From i on the array holds these bindings.
  predicate Unread(a: array<Binding>, i: nat, rest: seq<Binding>)
    reads a
  {
    i + |rest| <= a.Length && forall j :: 0 <= j < |rest| ==> a[i + j] == rest[j]
  }

  lemma Peel(out: seq<Binding>, rest: seq<Binding>, grants: seq<Grant>)
    requires rest != [] && Apart(out + rest) && Hold(rest, grants)
    ensures Apart(out + [rest[0]] + rest[1..]) && Hold(rest[1..], grants[1..])
    ensures rest[0].Valid() && rest[0].Value() == grants[0]
  {
    assert out + rest == out + [rest[0]] + rest[1..];
  }

  lemma Shifted(done: seq<Grant>, grants: seq<Grant>)
    requires grants != []
    ensures done + grants == done + [grants[0]] + grants[1..]
  {
  }

  lemma RemovedSnoc(done: seq<Grant>, g: Grant, role: string, member: string)
    ensures Removed(done + [g], role, member) == Removed(done, role, member) + RemovedFrom(g, role, member)
    ensures SomeHolds(done + [g], role, member) <==> SomeHolds(done, role, member) || Holds(g, role, member)
  {
    assert (done + [g])[..|done|] == done;
  }

  lemma {:induction false} FirstHasAfter(front: seq<Grant>, g: Grant, rest: seq<Grant>, member: string)
    requires forall f :: f in front ==> f.role != g.role
    ensures FirstHas(front + [g] + rest, g.role, member) <==> member in g.members
  {
    if front != [] {
      assert front[0] in front && forall f :: f in front[1..] ==> f in front;
      FirstHasAfter(front[1..], g, rest, member);
      assert (front + [g] + rest)[1..] == front[1..] + [g] + rest;
    }
  }

  lemma {:induction false} AddedAfter(front: seq<Grant>, g: Grant, rest: seq<Grant>, member: string, now: Grant)
    requires forall f :: f in front ==> f.role != g.role
    requires now == if member in g.members then g else WithMember(g, member)
    ensures Added(front + [g] + rest, g.role, member) == front + [now] + rest
  {
    var all := front + [g] + rest;
    if front != [] {
      assert front[0] in front && forall f :: f in front[1..] ==> f in front;
      AddedAfter(front[1..], g, rest, member, now);
      assert all[1..] == front[1..] + [g] + rest;
      assert [front[0]] + (front[1..] + [now] + rest) == front + [now] + rest;
    } else {
      assert all == [g] + rest && all[1..] == rest;
    }
  }

  lemma AddedAt(grants: seq<Grant>, i: nat, role: string, member: string)
    requires i < |grants| && grants[i].role == role && forall j :: 0 <= j < i ==> grants[j].role != role
    ensures FirstHas(grants, role, member) <==> member in grants[i].members
    ensures member in grants[i].members ==> Added(grants, role, member) == grants
    ensures member !in grants[i].members ==>
              Added(grants, role, member) == grants[i := WithMember(grants[i], member)]
  {
    assert grants == grants[..i] + [grants[i]] + grants[i + 1..];
    FirstHasAfter(grants[..i], grants[i], grants[i + 1..], member);
    var now := if member in grants[i].members then grants[i] else WithMember(grants[i], member);
    AddedAfter(grants[..i], grants[i], grants[i + 1..], member, now);
  }

  lemma {:induction false} AddedAtEnd(grants: seq<Grant>, role: string, member: string)
    requires forall j :: 0 <= j < |grants| ==> grants[j].role != role
    ensures Added(grants, role, member) == grants + [Grant(role, [member])] && !FirstHas(grants, role, member)
  {
    if grants != [] {
      AddedAtEnd(grants[1..], role, member);
    }
  }

  // Adding changes the first binding of the role, or appends one.
  lemma AddedExtends(grants: seq<Grant>, role: string, member: string)
    ensures FirstHas(grants, role, member) ==> Added(grants, role, member) == grants
    ensures var added := Added(grants, role, member);
            !FirstHas(grants, role, member) ==>
              exists i :: 0 <= i < |added| && ExtendedAt(grants, added, i, role, member)
  {
    var i := 0;
    while i < |grants| && grants[i].role != role
      invariant 0 <= i <= |grants| && forall j :: 0 <= j < i ==> grants[j].role != role
    {
      i := i + 1;
    }
    if i < |grants| {
      AddedAt(grants, i, role, member);
      WithMemberIs(grants[i], member);
    } else {
      AddedAtEnd(grants, role, member);
    }
    if !FirstHas(grants, role, member) {
      assert ExtendedAt(grants, Added(grants, role, member), i, role, member);
    }
  }

  lemma {:induction false} HeldIsPair(grants: seq<Grant>, role: string, member: string)
    ensures (role, member) in Pairs(grants) <==> SomeHolds(grants, role, member)
  {
    if grants != [] {
      var front, last := grants[..|grants| - 1], grants[|grants| - 1];
      HeldIsPair(front, role, member);
      assert grants == front + [last];
      PairsOfConcat(front, [last]);
      PairsOfOne(last);
    }
  }
}
