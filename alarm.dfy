/**
 * The per-camera debounce state machine: `Active` is unset (no event seen,
 * or the last cooldown expired), `true` (an alarm is running) or `false`
 * (cooling down since the Stop recorded in `Last`). A monitored Start trips
 * the actuator only from the unset state; a timer tick more than
 * ALARM_DELAY seconds after the last Stop clears it.
 */
module Alarm {
  import opened Wrappers
  import opened Text
  import opened Protocol

  /** Whole seconds of wall-clock time. */
  type Time = nat

  const ALARM_DELAY: int := 30

  datatype AlarmState = AlarmState(active: Option<bool>, last: Option<Time>)

  /** The state of a camera that has seen no event, or whose cooldown has expired. */
  const Idle: AlarmState := AlarmState(None, None)

  /** A new alarm state and the notifications sent to the actuator on the way, in order. */
  datatype Step = Step(state: AlarmState, sent: seq<bool>)

  /** A camera cools down only after a Stop, which always records its time. */
  predicate Valid(s: AlarmState)
  {
    s.active == Some(false) ==> s.last.Some?
  }

  /** The actuator is never told "tripped" twice without a "cleared" in between. */
  predicate NeverTrippedTwice(sent: seq<bool>)
  {
    forall i :: 0 < i < |sent| ==> !(sent[i - 1] && sent[i])
  }

  /** The notifications sent so far agree with the state: after a "tripped", Active stays set. */
  predicate Consistent(s: AlarmState, sent: seq<bool>)
  {
    Valid(s) && NeverTrippedTwice(sent) && (|sent| > 0 && sent[|sent| - 1] ==> s.active.Some?)
  }

  /** The camera's `events` setting lists `code` as one of its comma-separated tokens. */
  predicate IsMonitored(events: string, code: string)
  {
    code in Split(events, ",")
  }

  /** `ParseAlarm`: the effect of one alarm record received at time `now`. */
  function OnRecord(s: AlarmState, events: string, alarm: map<string, string>, now: Time): (r: Result<Step, Fault>)
    ensures r.Err? <==> "Code" !in alarm || (IsMonitored(events, alarm["Code"]) && "action" !in alarm)
    ensures r.Ok? && r.value.sent != [] ==>
      r.value.sent == [true] && s.active.None? && r.value.state.active == Some(true)
    ensures r.Ok? && r.value.state != s ==> IsMonitored(events, alarm["Code"])
    ensures r.Ok? && r.value.state.last != s.last ==> r.value.state == AlarmState(Some(false), Some(now))
    ensures r.Ok? && Valid(s) ==> Valid(r.value.state)
  {
    if "Code" !in alarm then Err(MissingKey("Code"))
    else if !IsMonitored(events, alarm["Code"]) then Ok(Step(s, []))
    else if "action" !in alarm then Err(MissingKey("action"))
    else if alarm["action"] == "Start" then
      Ok(Step(AlarmState(Some(true), s.last), if s.active.None? then [true] else []))
    else if alarm["action"] == "Stop" then
      Ok(Step(AlarmState(Some(false), Some(now)), []))
    else
      Ok(Step(s, []))
  }

  /** `OnTimer` of one camera: a cooldown older than ALARM_DELAY expires and clears the actuator. */
  function Tick(s: AlarmState, now: Time): (r: Step)
    requires Valid(s)
    ensures Valid(r.state)
    ensures r.sent == [] || r.sent == [false]
    ensures r.sent != [] <==> r.state != s
    ensures r.state != s ==> r.state == Idle && s.active == Some(false)
    ensures s.active == Some(false) ==> (r.state == s <==> now - s.last.value <= ALARM_DELAY)
  {
    if s.active == Some(false) && now - s.last.value > ALARM_DELAY then Step(Idle, [false])
    else Step(s, [])
  }

  /** Handling an alarm record keeps the notifications consistent with the state. */
  lemma RecordKeepsConsistent(s: AlarmState, sent: seq<bool>, events: string, alarm: map<string, string>, now: Time)
    requires Consistent(s, sent) && OnRecord(s, events, alarm, now).Ok?
    ensures Consistent(OnRecord(s, events, alarm, now).value.state, sent + OnRecord(s, events, alarm, now).value.sent)
  {
  }

  /** A timer tick keeps the notifications consistent with the state. */
  lemma TickKeepsConsistent(s: AlarmState, sent: seq<bool>, now: Time)
    requires Consistent(s, sent)
    ensures Consistent(Tick(s, now).state, sent + Tick(s, now).sent)
  {
  }

  /**
   * The camera setting `Join(codes, ",")` monitors exactly the listed codes:
   * a code is matched as a whole token, never as a substring of one.
   */
  lemma MonitoredExactly(codes: seq<string>, code: string)
    requires |codes| >= 1 && forall k :: 0 <= k < |codes| ==> ',' !in codes[k]
    ensures IsMonitored(Join(codes, ","), code) <==> code in codes
  {
    SplitJoin(codes, ",");
  }

  /** A record whose code the camera does not monitor changes nothing and sends nothing. */
  lemma UnmonitoredIgnored(s: AlarmState, events: string, alarm: map<string, string>, now: Time)
    requires "Code" in alarm && !IsMonitored(events, alarm["Code"])
    ensures OnRecord(s, events, alarm, now) == Ok(Step(s, []))
  {
  }

  /**
   * For a monitored code: Start trips the actuator only from the unset state
   * and sets Active, keeping Last; Stop enters the cooldown at `now` from any
   * state and sends nothing; any other action changes nothing.
   */
  lemma RecordActions(s: AlarmState, events: string, alarm: map<string, string>, now: Time)
    requires "Code" in alarm && IsMonitored(events, alarm["Code"]) && "action" in alarm
    ensures alarm["action"] == "Start" ==>
      OnRecord(s, events, alarm, now) == Ok(Step(AlarmState(Some(true), s.last), if s.active.None? then [true] else []))
    ensures alarm["action"] == "Stop" ==>
      OnRecord(s, events, alarm, now) == Ok(Step(AlarmState(Some(false), Some(now)), []))
    ensures alarm["action"] != "Start" && alarm["action"] != "Stop" ==>
      OnRecord(s, events, alarm, now) == Ok(Step(s, []))
  {
  }

  /**
   * After a Stop at `t`, a tick clears the actuator exactly when more than
   * ALARM_DELAY seconds have passed; at exactly ALARM_DELAY nothing happens.
   */
  lemma CooldownExpiry(t: Time, now: Time)
    ensures Tick(AlarmState(Some(false), Some(t)), now) ==
      if now > t + ALARM_DELAY then Step(Idle, [false]) else Step(AlarmState(Some(false), Some(t)), [])
  {
  }

  /** A tick right after a reset (or at any later time) does nothing. */
  lemma TickAfterResetIsNoOp(s: AlarmState, now: Time, later: Time)
    requires Valid(s) && Tick(s, now).sent != []
    ensures Tick(Tick(s, now).state, later) == Step(Idle, [])
  {
  }

  /**
   * A camera watching "VideoMotion" gets Start at `t0` and Stop two seconds
   * later: "tripped" at `t0`, nothing at `t0 + 32`, "cleared" at `t0 + 33`.
   */
  lemma MotionScenario(t0: Time)
    ensures OnRecord(Idle, "VideoMotion", map["Code" := "VideoMotion", "action" := "Start", "index" := "0"], t0) ==
      Ok(Step(AlarmState(Some(true), None), [true]))
    ensures OnRecord(AlarmState(Some(true), None), "VideoMotion",
      map["Code" := "VideoMotion", "action" := "Stop", "index" := "0"], t0 + 2) ==
      Ok(Step(AlarmState(Some(false), Some(t0 + 2)), []))
    ensures Tick(AlarmState(Some(false), Some(t0 + 2)), t0 + 32) ==
      Step(AlarmState(Some(false), Some(t0 + 2)), [])
    ensures Tick(AlarmState(Some(false), Some(t0 + 2)), t0 + 33) == Step(Idle, [false])
  {
    SplitClean("VideoMotion", ",");
    assert IsMonitored("VideoMotion", "VideoMotion");
  }

  /**
   * A Stop that arrives while no alarm is running still starts a cooldown, so
   * the actuator is later told "cleared" without having been told "tripped".
   */
  lemma ClearedWithoutTrip(t: Time)
    ensures OnRecord(Idle, "VideoMotion", map["Code" := "VideoMotion", "action" := "Stop"], t) ==
      Ok(Step(AlarmState(Some(false), Some(t)), []))
    ensures Tick(AlarmState(Some(false), Some(t)), t + ALARM_DELAY + 1) == Step(Idle, [false])
  {
    SplitClean("VideoMotion", ",");
  }

  /**
   * A Start during a cooldown re-arms the alarm but sends nothing: only the
   * unset state sends "tripped". `Last` keeps the time of the Stop, and the
   * cooldown no longer expires on a tick while the alarm is active.
   */
  lemma StartDuringCooldown(t: Time, now: Time, later: Time)
    ensures OnRecord(AlarmState(Some(false), Some(t)), "VideoMotion", map["Code" := "VideoMotion", "action" := "Start"], now) ==
      Ok(Step(AlarmState(Some(true), Some(t)), []))
    ensures Tick(AlarmState(Some(true), Some(t)), later) == Step(AlarmState(Some(true), Some(t)), [])
  {
    SplitClean("VideoMotion", ",");
  }
}
