/**
 * One watched camera: its configuration, its connection bookkeeping and
 * its alarm state, updated in place by the handlers the transfer and the
 * master loop call.
 */
module Camera {
  import opened Wrappers
  import opened Text
  import opened Protocol
  import opened Alarm
  import opened Receive
  import opened Reconnect
  import opened Notifier

  /** One entry of the camera roster. */
  datatype CameraConfig = CameraConfig(
    host: string, port: nat, user: string, pass: string,
    events: string, veradevice: string, vera: string)

  class DahuaCamera {
    /** Position in the roster. */
    const index: nat
    const config: CameraConfig
    /** `Connected`: unknown until the status line or the end of a transfer. */
    var connected: Option<bool>
    /** `Reconnect`: the time after which the transfer is re-added, if one is pending. */
    var reconnect: Option<Time>
    /** `Alarm["Active"]` and `Alarm["Last"]`. */
    var active: Option<bool>
    var last: Option<Time>
    /** Every notification sent to the controller, oldest first: true for tripped, false for cleared. */
    var sent: seq<bool>

    function State(): AlarmState
      reads this
    {
      AlarmState(active, last)
    }

    function LinkState(): Link
      reads this
    {
      Link(connected, reconnect)
    }

    /** What a chunk of the event stream works on. */
    function Snapshot(): Received
      reads this
    {
      Received(State(), connected, sent, Pass)
    }

    /** The alarm state is well formed and the notifications sent agree with it. */
    predicate Valid()
      reads this
    {
      Consistent(State(), sent)
    }

    constructor(index: nat, config: CameraConfig)
      ensures this.index == index && this.config == config
      ensures connected.None? && reconnect.None? && State() == Idle && sent == []
      ensures Valid()
    {
      this.index := index;
      this.config := config;
      connected := None;
      reconnect := None;
      active := None;
      last := None;
      sent := [];
    }

    /** Notifies the controller; the notification is logged and its request URL returned. */
    method OnAlarm(tripped: bool) returns (url: string)
      modifies this
      ensures sent == old(sent) + [tripped]
      ensures url == VeraUrl(config.vera, config.veradevice, tripped)
      ensures State() == old(State()) && LinkState() == old(LinkState())
    {
      url := VeraUrl(config.vera, config.veradevice, tripped);
      sent := sent + [tripped];
    }

    /** The status line was seen. */
    method OnConnect()
      modifies this
      ensures connected == Some(true)
      ensures reconnect == old(reconnect) && State() == old(State()) && sent == old(sent)
    {
      connected := Some(true);
    }

    /** The transfer ended. */
    method OnDisconnect()
      modifies this
      ensures connected == Some(false)
      ensures reconnect == old(reconnect) && State() == old(State()) && sent == old(sent)
    {
      connected := Some(false);
    }

    /** The camera's transfer has finished: unless a reconnect is pending, disconnect and schedule one. */
    method Finished(now: Time)
      modifies this
      ensures LinkState() == Drop(old(LinkState()), now)
      ensures State() == old(State()) && sent == old(sent)
    {
      if reconnect.None? {
        OnDisconnect();
        reconnect := Some(now + RECONNECT_DELAY);
      }
    }

    /** If the reconnect deadline has passed, clear it and report that the transfer is to be re-added. */
    method RearmIfDue(now: Time) returns (due: bool)
      modifies this
      ensures due == Due(old(LinkState()), now)
      ensures LinkState() == Rearm(old(LinkState()), now)
      ensures State() == old(State()) && sent == old(sent)
    {
      due := reconnect.Some? && reconnect.value < now;
      if due {
        reconnect := None;
      }
    }

    /** The periodic tick: an expired cooldown clears the alarm and notifies the controller. */
    method OnTimer(now: Time)
      requires Valid()
      modifies this
      ensures State() == Tick(old(State()), now).state
      ensures sent == old(sent) + Tick(old(State()), now).sent
      ensures LinkState() == old(LinkState())
      ensures Valid()
    {
      TickKeepsConsistent(State(), sent, now);
      if active == Some(false) && now - last.value > ALARM_DELAY {
        active := None;
        last := None;
        var _ := OnAlarm(false);
      }
    }

    /** One alarm record received at time `now`; a missing key raises. */
    method ParseAlarm(alarm: map<string, string>, now: Time) returns (outcome: Outcome<Fault>)
      modifies this
      ensures match OnRecord(old(State()), config.events, alarm, now)
        case Err(e) => outcome == Fail(e) && State() == old(State()) && sent == old(sent)
        case Ok(step) => outcome == Pass && State() == step.state && sent == old(sent) + step.sent
      ensures LinkState() == old(LinkState())
      ensures old(Valid()) ==> Valid()
    {
      if Valid() && OnRecord(State(), config.events, alarm, now).Ok? {
        RecordKeepsConsistent(State(), sent, config.events, alarm, now);
      }
      if "Code" !in alarm {
        return Fail(MissingKey("Code"));
      }
      var codes := Split(config.events, ",");
      if alarm["Code"] !in codes {
        return Pass;
      }
      if "action" !in alarm {
        return Fail(MissingKey("action"));
      }
      if alarm["action"] == "Start" {
        if active.None? {
          var _ := OnAlarm(true);
        }
        active := Some(true);
      } else if alarm["action"] == "Stop" {
        active := Some(false);
        last := Some(now);
      }
      return Pass;
    }

    /** One line of a chunk: the status line connects, an alarm line is parsed and handled. */
    method ReceiveLine(line: string, now: Time) returns (outcome: Outcome<Fault>)
      modifies this
      ensures var h := HandleLine(old(Snapshot()), config.events, line, now);
        State() == h.alarm && connected == h.connected && sent == h.sent && outcome == h.outcome
      ensures reconnect == old(reconnect)
    {
      if line == StatusLine {
        OnConnect();
      }
      outcome := Pass;
      if CodeMarker <= line {
        var fields := ParseFields(line);
        if fields.Err? {
          return Fail(fields.error);
        }
        outcome := ParseAlarm(fields.value, now);
      }
    }

    /**
     * One chunk of the event stream received at time `now`: its lines are
     * handled in order until one raises, whose fault is returned.
     */
    method OnReceive(data: string, now: Time) returns (outcome: Outcome<Fault>)
      modifies this
      ensures var e := Chunk(old(Snapshot()), config.events, data, now);
        State() == e.alarm && connected == e.connected && sent == e.sent && outcome == e.outcome
      ensures reconnect == old(reconnect)
      ensures old(Valid()) ==> Valid()
    {
      var lines := Split(data, LineBreak);
      ghost var goal := Chunk(Snapshot(), config.events, data, now);
      if Valid() {
        LinesKeepConsistent(Snapshot(), config.events, lines, now);
      }
      outcome := Pass;
      for i := 0 to |lines|
        invariant outcome == Pass
        invariant Lines(Snapshot(), config.events, lines[i..], now) == goal
        invariant reconnect == old(reconnect)
      {
        assert lines[i..][0] == lines[i] && lines[i..][1..] == lines[i + 1..];
        outcome := ReceiveLine(lines[i], now);
        if outcome.Fail? {
          assert Lines(Snapshot().(outcome := outcome), config.events, lines[i + 1..], now) == Snapshot().(outcome := outcome);
          return;
        }
      }
      assert lines[|lines|..] == [];
    }
  }
}
