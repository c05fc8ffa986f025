/**
 * What `OnReceive` does with one chunk of the event stream: split it on
 * CRLF (no line is carried over to the next chunk) and handle the lines in
 * order. The status line marks the camera connected; a `Code=` line is
 * parsed into an alarm record and handed to the state machine; every other
 * line is ignored. The first line that raises ends the chunk.
 */
module Receive {
  import opened Wrappers
  import opened Text
  import opened Protocol
  import opened Alarm

  /**
   * The part of a camera a chunk can change: its alarm state, its
   * `Connected` flag, every notification it has sent, and whether handling
   * is still going or has stopped on a fault.
   */
  datatype Received = Received(alarm: AlarmState, connected: Option<bool>, sent: seq<bool>, outcome: Outcome<Fault>)

  /** One iteration of the line loop of `OnReceive`. */
  function HandleLine(r: Received, events: string, line: string, now: Time): Received
  {
    var conn := if line == StatusLine then Some(true) else r.connected;
    if !(CodeMarker <= line) then r.(connected := conn)
    else match Fields(line)
      case Err(e) => r.(connected := conn, outcome := Fail(e))
      case Ok(record) =>
        match OnRecord(r.alarm, events, record, now)
        case Err(e) => r.(connected := conn, outcome := Fail(e))
        case Ok(step) => r.(alarm := step.state, connected := conn, sent := r.sent + step.sent)
  }

  /** Handling `lines` in order until one of them raises. */
  function Lines(r: Received, events: string, lines: seq<string>, now: Time): Received
    decreases |lines|
  {
    if lines == [] || r.outcome.Fail? then r
    else Lines(HandleLine(r, events, lines[0], now), events, lines[1..], now)
  }

  /** The effect of one received chunk (already decoded to text). */
  function Chunk(r: Received, events: string, data: string, now: Time): Received
  {
    Lines(r, events, Split(data, LineBreak), now)
  }

  /**
   * Lines are handled strictly in order: handling `l1 + l2` is handling `l1`
   * and then `l2` from where `l1` left off; once a line has raised, every
   * later line is discarded.
   */
  lemma {:induction false} LinesConcat(r: Received, events: string, l1: seq<string>, l2: seq<string>, now: Time)
    ensures Lines(r, events, l1 + l2, now) == Lines(Lines(r, events, l1, now), events, l2, now)
    ensures r.outcome.Fail? ==> Lines(r, events, l1, now) == r
    decreases |l1|
  {
    if l1 == [] {
      assert l1 + l2 == l2;
    } else if r.outcome.Pass? {
      assert (l1 + l2)[0] == l1[0] && (l1 + l2)[1..] == l1[1..] + l2;
      LinesConcat(HandleLine(r, events, l1[0], now), events, l1[1..], l2, now);
    } else {
      assert l2 == [] || Lines(r, events, l2, now) == r;
    }
  }

  /**
   * Lines that are not alarm lines change no alarm state and send nothing;
   * the camera becomes connected exactly when one of them is the status line.
   */
  lemma {:induction false} PlainLinesIgnored(r: Received, events: string, lines: seq<string>, now: Time)
    requires r.outcome.Pass?
    requires forall k :: 0 <= k < |lines| ==> !(CodeMarker <= lines[k])
    ensures Lines(r, events, lines, now) ==
      r.(connected := if StatusLine in lines then Some(true) else r.connected)
    decreases |lines|
  {
    if lines != [] {
      PlainLinesIgnored(HandleLine(r, events, lines[0], now), events, lines[1..], now);
      assert StatusLine in lines <==> lines[0] == StatusLine || StatusLine in lines[1..];
    }
  }

  /**
   * Nothing is carried between chunks: a chunk with no CRLF in it is
   * handled at once as one complete line, even when it is the head of a
   * line the next chunk finishes.
   */
  lemma ChunkWithoutBreak(r: Received, events: string, data: string, now: Time)
    requires r.outcome.Pass? && Find(data, LineBreak).None?
    ensures Chunk(r, events, data, now) == HandleLine(r, events, data, now)
  {
    assert Split(data, LineBreak) == [data];
    var h := HandleLine(r, events, data, now);
    assert [data][1..] == [];
    assert Lines(r, events, [data], now) == Lines(h, events, [], now) == h;
  }

  /** The first line that raises ends the chunk: every line after it is discarded. */
  lemma FaultDiscardsRest(r: Received, events: string, lines: seq<string>, now: Time)
    requires r.outcome.Pass? && |lines| >= 1
    requires HandleLine(r, events, lines[0], now).outcome.Fail?
    ensures Lines(r, events, lines, now) == HandleLine(r, events, lines[0], now)
  {
  }

  /** One line keeps the notifications consistent with the state, and adds at most a "tripped". */
  lemma HandleLineKeepsConsistent(r: Received, events: string, line: string, now: Time)
    requires Consistent(r.alarm, r.sent)
    ensures var h := HandleLine(r, events, line, now);
      Consistent(h.alarm, h.sent) && (h.sent == r.sent || h.sent == r.sent + [true])
  {
    if CodeMarker <= line && Fields(line).Ok? && OnRecord(r.alarm, events, Fields(line).value, now).Ok? {
      RecordKeepsConsistent(r.alarm, r.sent, events, Fields(line).value, now);
    }
  }

  /**
   * A chunk keeps the notifications consistent with the alarm state, and it
   * only ever adds "tripped" notifications: "cleared" comes from the timer alone.
   */
  lemma {:induction false} LinesKeepConsistent(r: Received, events: string, lines: seq<string>, now: Time)
    requires Consistent(r.alarm, r.sent)
    ensures var e := Lines(r, events, lines, now);
      Consistent(e.alarm, e.sent) && |r.sent| <= |e.sent| && e.sent[..|r.sent|] == r.sent &&
      forall i :: |r.sent| <= i < |e.sent| ==> e.sent[i]
    decreases |lines|
  {
    if lines != [] && r.outcome.Pass? {
      var h := HandleLine(r, events, lines[0], now);
      HandleLineKeepsConsistent(r, events, lines[0], now);
      LinesKeepConsistent(h, events, lines[1..], now);
      var e := Lines(h, events, lines[1..], now);
      assert e.sent[..|h.sent|][..|r.sent|] == e.sent[..|r.sent|];
    }
  }

  /**
   * A parsed `Code=` line always has its `Code`, so the only key whose
   * absence can end a chunk is `action`.
   */
  lemma {:induction false} OnlyActionCanBeMissing(r: Received, events: string, lines: seq<string>, now: Time)
    requires r.outcome.Pass?
    ensures var e := Lines(r, events, lines, now);
      (e.outcome.Fail? && e.outcome.error.MissingKey?) ==> e.outcome.error == MissingKey("action")
    decreases |lines|
  {
    if lines != [] {
      var h := HandleLine(r, events, lines[0], now);
      if h.outcome.Pass? {
        OnlyActionCanBeMissing(h, events, lines[1..], now);
      } else {
        HandleLineMissingKey(r, events, lines[0], now);
        assert Lines(h, events, lines[1..], now) == h;
      }
    }
  }

  /** A single line can end the chunk for a missing key only when that key is `action`. */
  lemma HandleLineMissingKey(r: Received, events: string, line: string, now: Time)
    requires r.outcome.Pass?
    ensures var h := HandleLine(r, events, line, now);
      (h.outcome.Fail? && h.outcome.error.MissingKey?) ==> h.outcome.error == MissingKey("action")
  {
    if CodeMarker <= line && Fields(line).Ok? {
      var record := Fields(line).value;
      CodeLineHasCode(line);
      assert OnRecord(r.alarm, events, record, now).Err? ==>
        OnRecord(r.alarm, events, record, now).error == MissingKey("action");
    } else if CodeMarker <= line {
      CollectFirstFault(Split(line, ";"));
    }
  }
}
