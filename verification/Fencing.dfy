/** What lease fencing buys: between two cloud changes the lease is read back, so a node that has
    lost the lease makes at most one more change. */
module Fencing {
  import opened Lease
  import opened World

  // A read that found the lease still under tenure t.
  predicate HeldRead(m: Moment, t: Tenure) {
    m.LeaseRead? && TenureOf(m.lease) == t
  }

  predicate ForwardCall(m: Moment) {
    m.CloudCall? && m.purpose.Forward?
  }

  // The latest lease read since moment from found the lease under t, and no forward change followed.
  predicate Armed(h: seq<Moment>, from: nat, t: Tenure)
    decreases |h|
  {
    |h| > from &&
    var last := h[|h| - 1];
    if last.LeaseRead? then HeldRead(last, t) else !ForwardCall(last) && Armed(h[..|h| - 1], from, t)
  }

  // From moment from on, every forward change was made armed.
  predicate Fenced(h: seq<Moment>, from: nat, t: Tenure)
    decreases |h|
  {
    |h| <= from ||
    (Fenced(h[..|h| - 1], from, t) && (ForwardCall(h[|h| - 1]) ==> Armed(h[..|h| - 1], from, t)))
  }

  lemma Append(h: seq<Moment>, m: Moment, from: nat, t: Tenure)
    requires from <= |h|
    ensures Armed(h + [m], from, t) == if m.LeaseRead? then HeldRead(m, t) else !ForwardCall(m) && Armed(h, from, t)
    ensures Fenced(h + [m], from, t) == (Fenced(h, from, t) && (ForwardCall(m) ==> Armed(h, from, t)))
  {
    assert (h + [m])[..|h|] == h;
  }

  // The moments at which the stored lease is known.
  predicate Tells(m: Moment) {
    m.LeaseRead? || m.CloudCall?
  }

  predicate Lost(m: Moment, t: Tenure) {
    Tells(m) && TenureOf(m.lease) != t
  }

  // Once the lease is no longer under t it never is again.
  ghost predicate LossIsPermanent(h: seq<Moment>, from: nat, t: Tenure) {
    forall i, j :: from <= i < j < |h| && Lost(h[i], t) && Tells(h[j]) ==> Lost(h[j], t)
  }

  // Forward changes made while the lease was no longer under t.
  function LateCalls(h: seq<Moment>, from: nat, t: Tenure): nat
    decreases |h|
  {
    if |h| <= from then 0
    else
      var last := h[|h| - 1];
      LateCalls(h[..|h| - 1], from, t) + (if ForwardCall(last) && TenureOf(last.lease) != t then 1 else 0)
  }

  predicate Late(m: Moment, t: Tenure) {
    ForwardCall(m) && TenureOf(m.lease) != t
  }

  // None is late, or at most one, exactly when no moment is, or no two are.
  lemma {:induction false} LateCallsCount(h: seq<Moment>, from: nat, t: Tenure)
    ensures LateCalls(h, from, t) == 0 <==> forall i :: from <= i < |h| ==> !Late(h[i], t)
    ensures LateCalls(h, from, t) <= 1 <==> forall i, j :: from <= i < j < |h| && Late(h[i], t) ==> !Late(h[j], t)
    decreases |h|
  {
    if from < |h| {
      var front, last := h[..|h| - 1], |h| - 1;
      LateCallsCount(front, from, t);
      assert forall i :: from <= i < last ==> front[i] == h[i];
      if LateCalls(front, from, t) > 0 {
        var i :| from <= i < last && Late(front[i], t);
        assert Late(h[i], t);
        if Late(h[last], t) {
          assert from <= i < last < |h| && Late(h[i], t) && Late(h[last], t);
        }
      }
    }
  }

  lemma {:induction false} LateMeansLost(h: seq<Moment>, from: nat, t: Tenure)
    requires LateCalls(h, from, t) > 0
    ensures exists i :: from <= i < |h| && Lost(h[i], t)
    decreases |h|
  {
    var last := |h| - 1;
    if LateCalls(h[..last], from, t) > 0 {
      LateMeansLost(h[..last], from, t);
      var i :| from <= i < last && Lost(h[..last][i], t);
      assert h[i] == h[..last][i];
    } else {
      assert Lost(h[last], t);
    }
  }

  lemma LossStaysPermanent(h: seq<Moment>, n: nat, from: nat, t: Tenure)
    requires n <= |h| && LossIsPermanent(h, from, t)
    ensures LossIsPermanent(h[..n], from, t)
  {
    forall i, j | from <= i < j < n && Lost(h[..n][i], t) && Tells(h[..n][j]) ensures Lost(h[..n][j], t) {
      assert h[..n][i] == h[i] && h[..n][j] == h[j];
    }
  }

  lemma {:induction false} LateCallDisarms(h: seq<Moment>, from: nat, t: Tenure)
    requires Fenced(h, from, t) && LossIsPermanent(h, from, t)
    ensures LateCalls(h, from, t) <= 1
    ensures LateCalls(h, from, t) == 1 ==> !Armed(h, from, t)
    decreases |h|
  {
    if |h| > from {
      var before := h[..|h| - 1];
      LossStaysPermanent(h, |before|, from, t);
      LateCallDisarms(before, from, t);
      if LateCalls(before, from, t) == 1 {
        LateMeansLost(before, from, t);
        var i :| from <= i < |before| && Lost(before[i], t);
        assert h[i] == before[i];
      }
    }
  }

  lemma {:induction false} LossReadDisarms(h: seq<Moment>, from: nat, t: Tenure, i: nat)
    requires LossIsPermanent(h, from, t)
    requires from <= i < |h| && h[i].LeaseRead? && TenureOf(h[i].lease) != t
    ensures !Armed(h, from, t)
    decreases |h|
  {
    var before := h[..|h| - 1];
    if i < |before| {
      LossStaysPermanent(h, |before|, from, t);
      LossReadDisarms(before, from, t, i);
    }
  }

  lemma {:induction false} FencedBefore(h: seq<Moment>, from: nat, t: Tenure, j: nat)
    requires Fenced(h, from, t) && from <= j < |h| && ForwardCall(h[j])
    ensures Armed(h[..j], from, t)
    decreases |h|
  {
    var before := h[..|h| - 1];
    if j < |before| {
      FencedBefore(before, from, t, j);
      assert before[..j] == h[..j];
    }
  }

  /** Wherever the loss falls, a fenced run makes at most one forward change after it, and none at
      all once a read has shown the loss. */
  lemma AtMostOneLateCall(h: seq<Moment>, from: nat, t: Tenure)
    requires Fenced(h, from, t) && LossIsPermanent(h, from, t)
    ensures LateCalls(h, from, t) <= 1
    ensures forall i, j :: from <= i < j < |h| && h[i].LeaseRead? && TenureOf(h[i].lease) != t ==> !ForwardCall(h[j])
  {
    LateCallDisarms(h, from, t);
    forall i, j | from <= i < j < |h| && h[i].LeaseRead? && TenureOf(h[i].lease) != t
      ensures !ForwardCall(h[j])
    {
      if ForwardCall(h[j]) {
        FencedBefore(h, from, t, j);
        var before := h[..j];
        LossStaysPermanent(h, j, from, t);
        assert before[i] == h[i];
        LossReadDisarms(before, from, t, i);
      }
    }
  }

  // If the lease is lost for good, at most one forward change follows the loss, and none follows a read that shows it.
  ghost predicate OneLateCallAtMost(h: seq<Moment>, from: nat, t: Tenure) {
    LossIsPermanent(h, from, t) ==>
      && LateCalls(h, from, t) <= 1
      && forall i, j :: from <= i < j < |h| && h[i].LeaseRead? && TenureOf(h[i].lease) != t ==> !ForwardCall(h[j])
  }

  lemma FencedMeansOneLateCall(h: seq<Moment>, from: nat, t: Tenure)
    requires Fenced(h, from, t)
    ensures OneLateCallAtMost(h, from, t)
  {
    if LossIsPermanent(h, from, t) {
      AtMostOneLateCall(h, from, t);
    }
  }

  lemma {:induction false} ArmedFromEarlier(h: seq<Moment>, early: nat, late: nat, t: Tenure)
    requires early <= late && Armed(h, late, t)
    ensures Armed(h, early, t)
    decreases |h|
  {
    if !h[|h| - 1].LeaseRead? {
      ArmedFromEarlier(h[..|h| - 1], early, late, t);
    }
  }

  // Fenced stretches of history join up.
  lemma {:induction false} FencedJoin(first: seq<Moment>, h: seq<Moment>, from: nat, t: Tenure)
    requires from <= |first| && first <= h
    requires Fenced(first, from, t) && Fenced(h, |first|, t)
    ensures Fenced(h, from, t)
    decreases |h|
  {
    if |h| == |first| {
      assert h == first;
    } else {
      var before := h[..|h| - 1];
      FencedJoin(first, before, from, t);
      if ForwardCall(h[|h| - 1]) {
        ArmedFromEarlier(before, from, |first|, t);
      }
    }
  }

  // A look at the lease, and then a fenced stretch.
  lemma LookThenFenced(start: seq<Moment>, reply: Reply<Record>, at: Time, h: seq<Moment>, t: Tenure)
    requires start + Look(reply, at) <= h && Fenced(h, |start + Look(reply, at)|, t)
    ensures start <= h && Fenced(h, |start|, t)
  {
    if reply.Ok? {
      Append(start, LeaseRead(reply.value), |start|, t);
      Append(start + [LeaseRead(reply.value)], Looked(reply, at), |start|, t);
      assert start + Look(reply, at) == start + [LeaseRead(reply.value)] + [Looked(reply, at)];
    } else {
      Append(start, Looked(reply, at), |start|, t);
    }
    FencedJoin(start + Look(reply, at), h, |start|, t);
  }
}
