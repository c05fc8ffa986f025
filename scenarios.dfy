/**
 * Concrete runs of the event stream handling, on the lines a camera sends
 * for a motion event.
 *
 * The lines and records of a run are parameters pinned to their literal
 * values by a `requires` (or by `MotionStart` and `CutHead`) rather than
 * literals written into the `ensures`: each lemma then states one step of
 * the run about a named value, and the verifier unfolds a literal line's
 * split and parse once, in a small lemma of its own, instead of inside
 * every formula that mentions it.
 */
module Scenarios {
  import opened Wrappers
  import opened Text
  import opened Protocol
  import opened Alarm
  import opened Receive

  /** The record of a motion start: `Code=VideoMotion;action=Start;index=0`. */
  predicate MotionStart(pairs: seq<(string, string)>)
  {
    pairs == [("Code", "VideoMotion"), ("action", "Start"), ("index", "0")]
  }

  /** The keys and values of the motion start record are delimiter-free. */
  lemma MotionStartPlain(pairs: seq<(string, string)>)
    requires MotionStart(pairs)
    ensures forall i :: 0 <= i < |pairs| ==> Plain(pairs[i].0) && Plain(pairs[i].1)
    ensures forall i :: 0 <= i < |pairs| ==> '\r' !in pairs[i].0 && '\r' !in pairs[i].1
  {
  }

  /** The motion start line parses to a record with code `VideoMotion` and action `Start`. */
  lemma MotionStartFields(pairs: seq<(string, string)>)
    requires MotionStart(pairs)
    ensures Fields(Encode(pairs)).Ok?
    ensures var m := Fields(Encode(pairs)).value;
      "Code" in m && m["Code"] == "VideoMotion" && "action" in m && m["action"] == "Start"
  {
    MotionStartPlain(pairs);
    RoundTrip(pairs);
    assert pairs[..2][..1] == pairs[..1] && pairs[..3][..2] == pairs[..2] && pairs[..3] == pairs;
    assert ToMap(pairs[..1]) == map["Code" := "VideoMotion"];
    assert ToMap(pairs[..2]) == map["Code" := "VideoMotion", "action" := "Start"];
  }

  /** The motion start line is an alarm line, not the status line, and holds no CR. */
  lemma MotionStartShape(pairs: seq<(string, string)>)
    requires MotionStart(pairs)
    ensures CodeMarker <= Encode(pairs) && Encode(pairs) != StatusLine
    ensures '\r' !in Encode(pairs)
  {
    MotionStartPlain(pairs);
    EncodeHead(pairs);
    EncodeAvoids(pairs, '\r');
    assert Encode(pairs)[4] == '=' != StatusLine[4];
  }

  /** A chunk holding exactly one complete line splits into that line and an empty tail. */
  lemma OneLine(line: string)
    requires '\r' !in line
    ensures Split(line + LineBreak, LineBreak) == [line, ""]
  {
    SplitAfterClean(line, LineBreak, "");
    SplitClean("", LineBreak);
    assert line + LineBreak + "" == line + LineBreak;
  }

  /** A camera watching only `VideoMotion` monitors that code. */
  lemma WatchesVideoMotion(events: string)
    requires events == "VideoMotion"
    ensures IsMonitored(events, "VideoMotion")
  {
    SplitClean(events, ",");
  }

  /** A monitored Start on an idle camera trips it, once. */
  lemma StartRecordTrips(record: map<string, string>, events: string, now: Time)
    requires "Code" in record && record["Code"] == "VideoMotion"
    requires "action" in record && record["action"] == "Start"
    requires events == "VideoMotion"
    ensures OnRecord(Idle, events, record, now) == Ok(Step(AlarmState(Some(true), None), [true]))
  {
    WatchesVideoMotion(events);
  }

  /** The motion start line, on a fresh camera watching `VideoMotion`, trips it. */
  lemma StartLineHandled(pairs: seq<(string, string)>, events: string, now: Time)
    requires MotionStart(pairs) && events == "VideoMotion"
    ensures HandleLine(Received(Idle, None, [], Pass), events, Encode(pairs), now)
         == Received(AlarmState(Some(true), None), None, [true], Pass)
  {
    MotionStartShape(pairs);
    MotionStartFields(pairs);
    StartRecordTrips(Fields(Encode(pairs)).value, events, now);
  }

  /**
   * A fresh camera watching `VideoMotion` that receives the motion start line
   * in one chunk trips once and becomes active; nothing else changes.
   */
  lemma StartLineTrips(pairs: seq<(string, string)>, events: string, now: Time)
    requires MotionStart(pairs) && events == "VideoMotion"
    ensures Chunk(Received(Idle, None, [], Pass), events, Encode(pairs) + LineBreak, now)
         == Received(AlarmState(Some(true), None), None, [true], Pass)
  {
    var line := Encode(pairs);
    MotionStartShape(pairs);
    OneLine(line);
    StartLineHandled(pairs, events, now);
    var r1 := Received(AlarmState(Some(true), None), None, [true], Pass);
    PlainLinesIgnored(r1, events, [""], now);
    assert [line, ""][1..] == [""];
  }

  /** The head of the motion start line up to `action=St`, and its record. */
  predicate CutHead(head: seq<(string, string)>)
  {
    head == [("Code", "VideoMotion"), ("action", "St")]
  }

  /** The head parses to a monitored record whose action is neither `Start` nor `Stop`. */
  lemma CutHeadFields(head: seq<(string, string)>)
    requires CutHead(head)
    ensures Fields(Encode(head)) == Ok(map["Code" := "VideoMotion", "action" := "St"])
  {
    assert forall i :: 0 <= i < |head| ==> Plain(head[i].0) && Plain(head[i].1);
    RoundTrip(head);
    assert head[..2][..1] == head[..1] && head[..2] == head;
    assert ToMap(head[..1]) == map["Code" := "VideoMotion"];
  }

  /** The head is an alarm line, not the status line, and holds no CR. */
  lemma CutHeadShape(head: seq<(string, string)>)
    requires CutHead(head)
    ensures CodeMarker <= Encode(head) && Encode(head) != StatusLine
    ensures '\r' !in Encode(head)
  {
    assert forall i :: 0 <= i < |head| ==> '\r' !in head[i].0 && '\r' !in head[i].1;
    EncodeHead(head);
    EncodeAvoids(head, '\r');
    assert Encode(head)[4] == '=' != StatusLine[4];
  }

  /** Head and tail together are the motion start line. */
  lemma CutJoins(full: seq<(string, string)>, head: seq<(string, string)>, tail: string)
    requires MotionStart(full) && CutHead(head) && tail == "art;index=0"
    ensures Encode(head) + tail == Encode(full)
  {
    EncodeCons(full);
    EncodeCons(full[1..]);
    EncodeOne(full[2]);
    EncodeCons(head);
    EncodeOne(head[1]);
    var t0 := "Code" + "=" + "VideoMotion";
    var a := "action" + "=";
    assert Encode(head) + tail == t0 + ";" + (a + ("St" + tail));
    assert "St" + tail == "Start" + ";" + ("index" + "=" + "0");
  }

  /** The tail `art;index=0` of a cut line is not an alarm line, and a chunk of it changes nothing. */
  lemma CutTailIgnored(tail: string, events: string, now: Time)
    requires tail == "art;index=0"
    ensures var r0 := Received(Idle, None, [], Pass);
      Chunk(r0, events, tail + LineBreak, now) == r0
  {
    assert '\r' !in tail && tail[0] == 'a';
    OneLine(tail);
    PlainLinesIgnored(Received(Idle, None, [], Pass), events, [tail, ""], now);
  }

  /** A chunk holding only the head of the cut line changes nothing. */
  lemma CutHeadIgnored(head: seq<(string, string)>, events: string, now: Time)
    requires CutHead(head) && events == "VideoMotion"
    ensures var r0 := Received(Idle, None, [], Pass);
      Chunk(r0, events, Encode(head), now) == r0
  {
    var r0 := Received(Idle, None, [], Pass);
    CutHeadShape(head);
    CutHeadFields(head);
    WatchesVideoMotion(events);
    assert OnRecord(Idle, events, Fields(Encode(head)).value, now) == Ok(Step(Idle, []));
    FindAbsent(Encode(head), LineBreak);
    ChunkWithoutBreak(r0, events, Encode(head), now);
  }

  /**
   * A motion start line cut after `action=St` by the end of a chunk is lost:
   * the head parses as a record whose action is neither `Start` nor `Stop`,
   * and the tail `art;index=0` is not an alarm line, so neither chunk
   * changes the camera, although the two together are the motion start line.
   */
  lemma SplitLineIsLost(full: seq<(string, string)>, head: seq<(string, string)>, tail: string,
                        events: string, now: Time)
    requires MotionStart(full) && CutHead(head)
    requires tail == "art;index=0" && events == "VideoMotion"
    ensures Encode(head) + tail == Encode(full)
    ensures var r0 := Received(Idle, None, [], Pass);
      Chunk(r0, events, Encode(head), now) == r0 && Chunk(r0, events, tail + LineBreak, now) == r0
  {
    CutJoins(full, head, tail);
    CutHeadIgnored(head, events, now);
    CutTailIgnored(tail, events, now);
  }

  /** A token followed by a piece without `=` raises on that piece. */
  lemma JunkAfterToken(key: string, value: string, junk: string)
    requires Plain(key) && Plain(value) && ';' !in junk && '=' !in junk
    ensures Fields(key + "=" + value + ";" + junk) == Err(MalformedToken(junk))
  {
    var t0 := key + "=" + value;
    SplitAfterClean(t0, ";", junk);
    SplitClean(junk, ";");
    assert Split(t0 + ";" + junk, ";") == [t0, junk];
    PairOf(t0, key, value);
    assert multiset(junk)['='] == 0;
    PairOk(junk);
    assert [t0, junk][..1] == [t0] && [t0][..0] == [];
    assert Collect([t0]) == Ok(map[key := value]);
  }

  /** `Code=VideoMotion;garbage` is an alarm line, not the status line, and holds no CR. */
  lemma JunkLineShape(t0: string, junk: string)
    requires t0 == "Code" + "=" + "VideoMotion" && junk == "garbage"
    ensures CodeMarker <= t0 + ";" + junk && t0 + ";" + junk != StatusLine
    ensures '\r' !in t0 + ";" + junk
  {
    var line := t0 + ";" + junk;
    assert line[4] == '=' != StatusLine[4];
    assert line[..5] == t0[..5];
  }

  /**
   * A token without `=` raises and ends the chunk: the motion start line
   * that follows the malformed line in the same chunk is never handled.
   */
  lemma MalformedLineEndsChunk(bad: seq<(string, string)>, junk: string, full: seq<(string, string)>,
                               events: string, now: Time)
    requires bad == [("Code", "VideoMotion")] && junk == "garbage" && MotionStart(full)
    requires events == "VideoMotion"
    ensures var r0 := Received(Idle, None, [], Pass);
      Chunk(r0, events, Encode(bad) + ";" + junk + LineBreak + Encode(full) + LineBreak, now)
        == r0.(outcome := Fail(MalformedToken(junk)))
  {
    var r0 := Received(Idle, None, [], Pass);
    var t0 := Encode(bad);
    var line := t0 + ";" + junk;
    EncodeOne(bad[0]);
    assert Plain("Code") && Plain("VideoMotion") && ';' !in junk && '=' !in junk;
    JunkAfterToken("Code", "VideoMotion", junk);
    JunkLineShape(t0, junk);
    MotionStartShape(full);
    SplitAfterClean(line, LineBreak, Encode(full) + LineBreak);
    assert line + LineBreak + Encode(full) + LineBreak == line + LineBreak + (Encode(full) + LineBreak);
    OneLine(Encode(full));
    FaultDiscardsRest(r0, events, [line, Encode(full), ""], now);
  }
}
