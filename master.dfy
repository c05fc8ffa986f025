/**
 * The master: the camera roster, the periodic tick that reaches every
 * camera, and the reconnect bookkeeping done each time the transfer set
 * reports that fewer transfers are running than there are cameras.
 */
module Master {
  import opened Wrappers
  import opened Alarm
  import opened Reconnect
  import opened Camera

  /** The connection bookkeeping of each camera, in roster order. */
  function LinksOf(cs: seq<DahuaCamera>): (r: seq<Link>)
    reads cs
    ensures |r| == |cs|
    ensures forall i :: 0 <= i < |cs| ==> r[i] == cs[i].LinkState()
    decreases |cs|
  {
    if cs == [] then [] else LinksOf(cs[..|cs| - 1]) + [cs[|cs| - 1].LinkState()]
  }

  /** The indices 0 .. n-1 in order. */
  function Upto(n: nat): (r: seq<nat>)
    ensures |r| == n && forall i :: 0 <= i < n ==> r[i] == i
  {
    seq(n, i requires 0 <= i < n => i)
  }

  class DahuaMaster {
    const cameras: seq<DahuaCamera>
    /** Every transfer added to the transfer set, by camera index, oldest first. */
    var added: seq<nat>

    /** Each camera appears once, knows its position, and is valid. */
    predicate Valid()
      reads this, cameras
    {
      Distinct() && forall i :: 0 <= i < |cameras| ==> cameras[i].index == i && cameras[i].Valid()
    }

    /** No camera appears twice in the roster. */
    predicate Distinct()
    {
      forall i, j :: 0 <= i < j < |cameras| ==> cameras[i] != cameras[j]
    }

    function Links(): seq<Link>
      reads this, cameras
    {
      LinksOf(cameras)
    }

    /** One camera per roster entry, all idle, every transfer added once in roster order. */
    constructor(roster: seq<CameraConfig>)
      ensures |cameras| == |roster| && Valid() && added == Upto(|roster|)
      ensures forall i :: 0 <= i < |roster| ==>
        cameras[i].config == roster[i] && cameras[i].State() == Idle && cameras[i].sent == [] &&
        cameras[i].LinkState() == Link(None, None)
    {
      var cs: seq<DahuaCamera> := [];
      for i := 0 to |roster|
        invariant |cs| == i
        invariant forall j, k :: 0 <= j < k < i ==> cs[j] != cs[k]
        invariant forall j :: 0 <= j < i ==>
          cs[j].index == j && cs[j].config == roster[j] && cs[j].Valid() &&
          cs[j].State() == Idle && cs[j].sent == [] && cs[j].LinkState() == Link(None, None)
      {
        var c := new DahuaCamera(i, roster[i]);
        cs := cs + [c];
      }
      cameras := cs;
      added := Upto(|roster|);
    }

    /** The periodic tick, passed to every camera in turn; each camera's tick touches that camera only. */
    method OnTimer(now: Time)
      requires Valid()
      modifies cameras
      ensures Valid()
      ensures forall i :: 0 <= i < |cameras| ==>
        cameras[i].State() == Tick(old(cameras[i].State()), now).state &&
        cameras[i].sent == old(cameras[i].sent) + Tick(old(cameras[i].State()), now).sent &&
        cameras[i].LinkState() == old(cameras[i].LinkState())
    {
      for i := 0 to |cameras|
        invariant Valid()
        invariant forall j :: 0 <= j < i ==>
          cameras[j].State() == Tick(old(cameras[j].State()), now).state &&
          cameras[j].sent == old(cameras[j].sent) + Tick(old(cameras[j].State()), now).sent &&
          cameras[j].LinkState() == old(cameras[j].LinkState())
        invariant forall j :: i <= j < |cameras| ==>
          cameras[j].State() == old(cameras[j].State()) && cameras[j].sent == old(cameras[j].sent) &&
          cameras[j].LinkState() == old(cameras[j].LinkState())
      {
        cameras[i].OnTimer(now);
      }
    }
    /**
     * The finished transfers `ids`, handled in order: a camera with no
     * pending reconnect is disconnected and given a deadline RECONNECT_DELAY
     * from now; one already waiting is skipped.
     */
    method DropFinished(ids: seq<nat>, now: Time)
      requires Valid() && InRange(Links(), ids)
      modifies cameras
      ensures Valid() && Links() == DropAll(old(Links()), ids, now)
      ensures forall i :: 0 <= i < |cameras| ==>
        cameras[i].State() == old(cameras[i].State()) && cameras[i].sent == old(cameras[i].sent)
    {
      ghost var links := Links();
      for k := 0 to |ids|
        invariant forall j :: 0 <= j < |cameras| ==>
          cameras[j].LinkState() == (if j in ids[..k] then Drop(links[j], now) else links[j]) &&
          cameras[j].State() == old(cameras[j].State()) && cameras[j].sent == old(cameras[j].sent)
      {
        assert forall j :: j in ids[..k + 1] <==> j in ids[..k] || j == ids[k];
        cameras[ids[k]].Finished(now);
      }
      assert ids[..|ids|] == ids;
      forall j | 0 <= j < |cameras| ensures Links()[j] == DropAll(links, ids, now)[j] {
        DropAllAt(links, ids, now, j);
      }
      assert forall j :: 0 <= j < |cameras| ==> cameras[j].Valid() == old(cameras[j].Valid());
    }

    /**
     * Every camera whose deadline has passed has its deadline cleared; the
     * cameras whose transfers are to be re-added are returned in roster order.
     */
    method RearmDue(now: Time) returns (restarted: seq<nat>)
      requires Valid()
      modifies cameras
      ensures Valid() && Links() == RearmAll(old(Links()), now)
      ensures restarted == Restarted(old(Links()), now)
      ensures forall i :: 0 <= i < |cameras| ==>
        cameras[i].State() == old(cameras[i].State()) && cameras[i].sent == old(cameras[i].sent)
    {
      ghost var links := Links();
      restarted := [];
      for i := 0 to |cameras|
        invariant forall j :: 0 <= j < i ==> cameras[j].LinkState() == Rearm(links[j], now)
        invariant forall j :: i <= j < |cameras| ==> cameras[j].LinkState() == links[j]
        invariant restarted == DueAmong(links, i, now)
        invariant forall j :: 0 <= j < |cameras| ==>
          cameras[j].State() == old(cameras[j].State()) && cameras[j].sent == old(cameras[j].sent)
      {
        var due := cameras[i].RearmIfDue(now);
        if due {
          restarted := restarted + [i];
        }
      }
      assert forall j :: 0 <= j < |cameras| ==> Links()[j] == RearmAll(links, now)[j];
      assert forall j :: 0 <= j < |cameras| ==> cameras[j].Valid() == old(cameras[j].Valid());
    }

    /**
     * One report of the transfer set, with `running` transfers still
     * running: when that is fewer than there are cameras, the successful
     * transfers, then the failed ones, are handled, and every camera whose
     * deadline has passed is re-added. The alarm state is never touched.
     */
    method HandleFinished(running: nat, success: seq<nat>, errors: seq<nat>, now: Time)
      requires Valid() && InRange(Links(), success) && InRange(Links(), errors)
      modifies this, cameras
      ensures Valid()
      ensures running == |cameras| ==> Links() == old(Links()) && added == old(added)
      ensures running != |cameras| ==>
        Links() == Finish(old(Links()), success, errors, now) &&
        added == old(added) + Restarted(DropAll(DropAll(old(Links()), success, now), errors, now), now)
      ensures forall i :: 0 <= i < |cameras| ==>
        cameras[i].State() == old(cameras[i].State()) && cameras[i].sent == old(cameras[i].sent)
    {
      if running != |cameras| {
        DropFinished(success, now);
        DropFinished(errors, now);
        var restarted := RearmDue(now);
        added := added + restarted;
      }
    }

    /**
     * One turn of the main loop of `Run`: unless `select` on the transfer
     * set returned -1 (`selectFailed`), `perform` runs and its report is
     * handled; either way every camera is then ticked, which is what lets a
     * cooldown expire when no event arrives.
     */
    method Wake(selectFailed: bool, running: nat, success: seq<nat>, errors: seq<nat>, now: Time)
      requires Valid()
      requires !selectFailed ==> InRange(Links(), success) && InRange(Links(), errors)
      modifies this, cameras
      ensures Valid()
      ensures selectFailed || running == |cameras| ==> Links() == old(Links()) && added == old(added)
      ensures !selectFailed && running != |cameras| ==>
        Links() == Finish(old(Links()), success, errors, now) &&
        added == old(added) + Restarted(DropAll(DropAll(old(Links()), success, now), errors, now), now)
      ensures forall i :: 0 <= i < |cameras| ==>
        cameras[i].State() == Tick(old(cameras[i].State()), now).state &&
        cameras[i].sent == old(cameras[i].sent) + Tick(old(cameras[i].State()), now).sent
    {
      if !selectFailed {
        HandleFinished(running, success, errors, now);
      }
      ghost var links := Links();
      OnTimer(now);
      assert forall j :: 0 <= j < |cameras| ==> Links()[j] == links[j];
    }
  }
}
