/**
 * The reconnect bookkeeping of the master loop, on values: what happens to
 * each camera's `Connected` flag and `Reconnect` deadline when transfers
 * finish, and which cameras are re-added to the transfer set.
 */
module Reconnect {
  import opened Wrappers
  import opened Alarm

  /** Seconds between a transfer ending and the camera being re-added. */
  const RECONNECT_DELAY: nat := 5

  /** A camera's connection bookkeeping: `Connected` and the pending `Reconnect` deadline. */
  datatype Link = Link(connected: Option<bool>, reconnect: Option<Time>)

  /**
   * A transfer of this camera has finished (successfully or with an
   * error): unless a reconnect is already pending, the camera is marked
   * disconnected and a reconnect is scheduled RECONNECT_DELAY from now.
   */
  function Drop(l: Link, now: Time): (r: Link)
    ensures l.reconnect.Some? ==> r == l
    ensures l.reconnect.None? ==> r.connected == Some(false) && r.reconnect == Some(now + RECONNECT_DELAY)
  {
    if l.reconnect.Some? then l else Link(Some(false), Some(now + RECONNECT_DELAY))
  }

  /** Indices that name cameras of the roster. */
  predicate InRange(links: seq<Link>, ids: seq<nat>)
  {
    forall k :: 0 <= k < |ids| ==> ids[k] < |links|
  }

  /** The finished transfers `ids`, handled in order. */
  function DropAll(links: seq<Link>, ids: seq<nat>, now: Time): (r: seq<Link>)
    requires InRange(links, ids)
    ensures |r| == |links|
    decreases |ids|
  {
    if ids == [] then links
    else DropAll(links[ids[0] := Drop(links[ids[0]], now)], ids[1..], now)
  }

  /** The deadline of this camera has passed. */
  predicate Due(l: Link, now: Time)
  {
    l.reconnect.Some? && l.reconnect.value < now
  }

  /** A camera whose deadline has passed is re-added: its deadline is cleared. */
  function Rearm(l: Link, now: Time): (r: Link)
    ensures Due(l, now) ==> r == Link(l.connected, None)
    ensures !Due(l, now) ==> r == l
  {
    if Due(l, now) then l.(reconnect := None) else l
  }

  /** Every camera re-armed. */
  function RearmAll(links: seq<Link>, now: Time): (r: seq<Link>)
    ensures |r| == |links|
    ensures forall i :: 0 <= i < |links| ==> r[i] == Rearm(links[i], now)
  {
    seq(|links|, i requires 0 <= i < |links| => Rearm(links[i], now))
  }

  /** The cameras among the first `n` whose deadline has passed, in roster order. */
  function DueAmong(links: seq<Link>, n: nat, now: Time): seq<nat>
    requires n <= |links|
  {
    if n == 0 then []
    else DueAmong(links, n - 1, now) + (if Due(links[n - 1], now) then [n - 1] else [])
  }

  /** The cameras re-added, in roster order: those whose deadline has passed. */
  function Restarted(links: seq<Link>, now: Time): (r: seq<nat>)
    ensures InRange(links, r)
    ensures forall k :: 0 <= k < |r| ==> Due(links[r[k]], now)
  {
    DueAmongMembers(links, |links|, now);
    var r := DueAmong(links, |links|, now);
    assert forall k :: 0 <= k < |r| ==> r[k] in r;
    r
  }

  /**
   * One pass of the bookkeeping after `perform` reports that fewer
   * transfers are running than there are cameras: the successful ones,
   * then the failed ones, then the re-arming of every camera. Afterwards
   * no deadline lies in the past: every camera either has no pending
   * reconnect or one that is still to come.
   */
  function Finish(links: seq<Link>, success: seq<nat>, errors: seq<nat>, now: Time): (r: seq<Link>)
    requires InRange(links, success) && InRange(links, errors)
    ensures |r| == |links|
    ensures forall i :: 0 <= i < |r| ==> !Due(r[i], now)
  {
    RearmAll(DropAll(DropAll(links, success, now), errors, now), now)
  }

  /** A second report of a finished transfer changes nothing: a pending reconnect is never rescheduled. */
  lemma DropTwice(l: Link, now: Time, later: Time)
    ensures Drop(Drop(l, now), later) == Drop(l, now)
  {
  }

  /**
   * Handling a list of finished transfers touches exactly the cameras it
   * names, each as if it had been named once, whatever the repetitions.
   */
  lemma {:induction false} DropAllAt(links: seq<Link>, ids: seq<nat>, now: Time, i: nat)
    requires InRange(links, ids) && i < |links|
    ensures DropAll(links, ids, now)[i] == if i in ids then Drop(links[i], now) else links[i]
    decreases |ids|
  {
    if ids != [] {
      var next := links[ids[0] := Drop(links[ids[0]], now)];
      DropAllAt(next, ids[1..], now, i);
      assert i in ids <==> i == ids[0] || i in ids[1..];
    }
  }

  /** The first `n` cameras contribute exactly those of them that are due. */
  lemma {:induction false} DueAmongMembers(links: seq<Link>, n: nat, now: Time)
    requires n <= |links|
    ensures forall i: nat :: i in DueAmong(links, n, now) <==> i < n && Due(links[i], now)
  {
    if n > 0 {
      DueAmongMembers(links, n - 1, now);
    }
  }

  /** The cameras due among the first `n` are listed in increasing order. */
  lemma {:induction false} DueAmongIncreasing(links: seq<Link>, n: nat, now: Time)
    requires n <= |links|
    ensures forall a, b :: 0 <= a < b < |DueAmong(links, n, now)| ==> DueAmong(links, n, now)[a] < DueAmong(links, n, now)[b]
  {
    if n > 0 {
      var prev := DueAmong(links, n - 1, now);
      DueAmongIncreasing(links, n - 1, now);
      DueAmongMembers(links, n - 1, now);
      assert forall k :: 0 <= k < |prev| ==> prev[k] in prev;
    }
  }

  /** A camera is re-added exactly when its deadline has passed, and the re-added list is in roster order. */
  lemma RestartedExactly(links: seq<Link>, now: Time)
    ensures forall i: nat :: i in Restarted(links, now) <==> i < |links| && Due(links[i], now)
    ensures forall a, b :: 0 <= a < b < |Restarted(links, now)| ==> Restarted(links, now)[a] < Restarted(links, now)[b]
  {
    DueAmongMembers(links, |links|, now);
    DueAmongIncreasing(links, |links|, now);
  }

  /**
   * The whole pass, camera by camera: a camera named by a finished transfer
   * and not already waiting is disconnected and, its fresh deadline lying in
   * the future, keeps it; an overdue deadline is cleared; nothing else changes.
   */
  lemma FinishAt(links: seq<Link>, success: seq<nat>, errors: seq<nat>, now: Time, i: nat)
    requires InRange(links, success) && InRange(links, errors) && i < |links|
    ensures var l := links[i];
      Finish(links, success, errors, now)[i] ==
        if (i in success || i in errors) && l.reconnect.None? then Link(Some(false), Some(now + RECONNECT_DELAY))
        else Rearm(l, now)
  {
    var d1 := DropAll(links, success, now);
    DropAllAt(links, success, now, i);
    DropAllAt(d1, errors, now, i);
  }
}
