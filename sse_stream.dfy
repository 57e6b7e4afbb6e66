/** The dashboard's reader of the hub's event stream: `parseSSEBuffer`,
    `tryParseEvent` and `buildRemainingBuffer`, and the reconnect-attempt
    counter of the `useSSE` hook (apps/tui/src/hooks/use-sse.ts).

    The reader handles a subset of the `text/event-stream` format of the
    WHATWG HTML Living Standard, section 9.2, with its own rules: the space
    after the colon is part of the field prefix, a later `data: ` line
    replaces an earlier one instead of being appended to it, and every empty
    line, including the one a single trailing newline produces, ends the
    pending block. */
module SseStream {
  import opened Common
  import opened Json
  import EventBus

  /** `{ event, data }`: an event name and its parsed JSON payload. */
  datatype SseEvent = SseEvent(event: string, data: Json)

  /** What one call of `parseSSEBuffer` returns. */
  datatype Parsed = Parsed(events: seq<SseEvent>, remaining: string)

  /** The parser between two lines: the events emitted so far and the pending
      `currentEvent` and `currentData`. */
  datatype Scan = Scan(events: seq<SseEvent>, event: string, data: string)

  const Start: Scan := Scan([], "", "")

  /** `tryParseEvent`: an event comes out only when both fields are set and the
      data is JSON. */
  function TryParseEvent(parse: string -> Option<Json>, eventType: string, eventData: string): (r: Option<SseEvent>)
    ensures r.Some? <==> eventType != "" && eventData != "" && parse(eventData).Some?
    ensures r.Some? ==> r.value == SseEvent(eventType, parse(eventData).value)
  {
    if eventType != "" && eventData != "" then
      match parse(eventData)
      case Some(v) => Some(SseEvent(eventType, v))
      case None => None
    else None
  }

  /** The events an empty line emits: the pending event, when it parses. */
  function Emit(parse: string -> Option<Json>, eventType: string, eventData: string): seq<SseEvent> {
    match TryParseEvent(parse, eventType, eventData)
    case Some(e) => [e]
    case None => []
  }

  /** One line of the loop: an empty line emits and resets, an `event: ` or
      `data: ` line sets its field, any other line is skipped. */
  function Step(parse: string -> Option<Json>, s: Scan, line: string): Scan {
    if line == "" then Scan(s.events + Emit(parse, s.event, s.data), "", "")
    else if StartsWith(line, "event: ") then s.(event := line[7..])
    else if StartsWith(line, "data: ") then s.(data := line[6..])
    else s
  }

  /** The loop over `lines`: events are only ever appended, and each has a name. */
  function Run(parse: string -> Option<Json>, s: Scan, lines: seq<string>): (r: Scan)
    ensures s.events <= r.events
    ensures forall i :: |s.events| <= i < |r.events| ==> r.events[i].event != ""
    decreases |lines|
  {
    if |lines| == 0 then s
    else Step(parse, Run(parse, s, lines[..|lines| - 1]), lines[|lines| - 1])
  }

  /** `buildRemainingBuffer`: the pending fields that are set, event line first. */
  function BuildRemainingBuffer(eventType: string, eventData: string): (r: string)
    ensures r == "" <==> eventType == "" && eventData == ""
    ensures eventType != "" ==> StartsWith(r, "event: " + eventType + "\n")
    ensures eventType == "" ==> !StartsWith(r, "event: ")
  {
    var e := if eventType != "" then "event: " + eventType + "\n" else "";
    var d := if eventData != "" then "data: " + eventData + "\n" else "";
    StartsWithConcat("event: " + eventType + "\n", d);
    if d != "" then
      NotStartsWith(d, "event: ");
      e + d
    else e + d
  }

  /** One more line is one more step. */
  lemma {:induction false} RunSnoc(parse: string -> Option<Json>, s: Scan, lines: seq<string>, i: int)
    requires 0 <= i < |lines|
    ensures Run(parse, s, lines[..i + 1]) == Step(parse, Run(parse, s, lines[..i]), lines[i])
  {
    assert lines[..i + 1][..i] == lines[..i];
  }

  /** What `parseSSEBuffer` computes: the lines of the buffer run from the start. */
  function Parse(parse: string -> Option<Json>, buffer: string): (r: Parsed)
    ensures forall i :: 0 <= i < |r.events| ==> r.events[i].event != ""
  {
    var s := Run(parse, Start, Lines(buffer));
    Parsed(s.events, BuildRemainingBuffer(s.event, s.data))
  }

  /** `parseSSEBuffer`: the loop over the lines of the buffer. */
  method ParseSseBuffer(parse: string -> Option<Json>, buffer: string) returns (r: Parsed)
    ensures r == Parse(parse, buffer)
  {
    var events: seq<SseEvent> := [];
    var lines := Lines(buffer);
    var currentEvent, currentData := "", "";
    var i := 0;
    while i < |lines|
      invariant 0 <= i <= |lines|
      invariant Run(parse, Start, lines[..i]) == Scan(events, currentEvent, currentData)
    {
      var line := lines[i];
      RunSnoc(parse, Start, lines, i);
      if line == "" {
        var parsed := TryParseEvent(parse, currentEvent, currentData);
        if parsed.Some? {
          events := events + [parsed.value];
        }
        currentEvent, currentData := "", "";
      } else if StartsWith(line, "event: ") {
        currentEvent := line[7..];
      } else if StartsWith(line, "data: ") {
        currentData := line[6..];
      }
      i := i + 1;
    }
    assert lines[..i] == lines;
    r := Parsed(events, BuildRemainingBuffer(currentEvent, currentData));
  }

  // ----- Properties of the line loop ----------------------------------------

  /** Running two stretches of lines is running the first, then the second. */
  lemma {:induction false} RunAppend(parse: string -> Option<Json>, s: Scan, a: seq<string>, b: seq<string>)
    ensures Run(parse, s, a + b) == Run(parse, Run(parse, s, a), b)
    decreases |b|
  {
    if |b| == 0 {
      assert a + b == a;
    } else {
      assert (a + b)[..|a + b| - 1] == a + b[..|b| - 1];
      RunAppend(parse, s, a, b[..|b| - 1]);
    }
  }

  /** The events already emitted play no part in what later lines do. */
  lemma {:induction false} RunShift(parse: string -> Option<Json>, done: seq<SseEvent>, e: string, d: string, b: seq<string>)
    ensures var t := Run(parse, Scan([], e, d), b);
      Run(parse, Scan(done, e, d), b) == Scan(done + t.events, t.event, t.data)
    decreases |b|
  {
    if |b| > 0 {
      var init := b[..|b| - 1];
      RunShift(parse, done, e, d, init);
      var t := Run(parse, Scan([], e, d), init);
      var line := b[|b| - 1];
      if line == "" {
        assert done + t.events + Emit(parse, t.event, t.data) == done + (t.events + Emit(parse, t.event, t.data));
      }
    }
  }

  /** Every empty line ends a block and resets both pending fields, whether or
      not it emitted an event: the lines after it are read exactly as if the
      buffer began there, and their events follow the earlier ones in order. */
  lemma BlankLineEndsBlock(parse: string -> Option<Json>, s: Scan, lines: seq<string>, i: int)
    requires 0 <= i < |lines| && lines[i] == ""
    ensures Run(parse, s, lines[..i + 1]).event == "" && Run(parse, s, lines[..i + 1]).data == ""
    ensures var before := Run(parse, s, lines[..i + 1]);
      var after := Run(parse, Start, lines[i + 1..]);
      Run(parse, s, lines) == Scan(before.events + after.events, after.event, after.data)
  {
    assert lines[..i + 1][..i] == lines[..i];
    assert lines == lines[..i + 1] + lines[i + 1..];
    RunAppend(parse, s, lines[..i + 1], lines[i + 1..]);
    RunShift(parse, Run(parse, s, lines[..i + 1]).events, "", "", lines[i + 1..]);
  }

  /** The value of the last line in `lines` carrying `prefix`, or `current`
      when there is none. */
  function LastField(lines: seq<string>, prefix: string, current: string): string
    decreases |lines|
  {
    if |lines| == 0 then current
    else if StartsWith(lines[|lines| - 1], prefix) then lines[|lines| - 1][|prefix|..]
    else LastField(lines[..|lines| - 1], prefix, current)
  }

  lemma PrefixesExclusive(line: string)
    ensures !(StartsWith(line, "event: ") && StartsWith(line, "data: "))
  {
    if StartsWith(line, "event: ") {
      assert line[0] == line[..7][0];
      NotStartsWith(line, "data: ");
    }
  }

  /** Within a block, the last `event: ` line and the last `data: ` line win;
      every other line is ignored and nothing is emitted. */
  lemma {:induction false} LastLineWins(parse: string -> Option<Json>, s: Scan, lines: seq<string>)
    requires forall i :: 0 <= i < |lines| ==> lines[i] != ""
    ensures Run(parse, s, lines) == Scan(s.events, LastField(lines, "event: ", s.event), LastField(lines, "data: ", s.data))
    decreases |lines|
  {
    if |lines| > 0 {
      LastLineWins(parse, s, lines[..|lines| - 1]);
      PrefixesExclusive(lines[|lines| - 1]);
    }
  }

  // ----- The pending block handed back ---------------------------------------

  /** A block holding both field lines splits into them and a final empty piece. */
  lemma {:induction false} FieldLines(eventType: string, eventData: string)
    requires '\n' !in eventType && '\n' !in eventData
    ensures Lines("event: " + eventType + "\n" + ("data: " + eventData + "\n" + ""))
      == ["event: " + eventType, "data: " + eventData, ""]
  {
    var e, d := "event: " + eventType, "data: " + eventData;
    assert '\n' !in e && '\n' !in d;
    LinesCons(d, "");
    LinesCons(e, d + "\n" + "");
  }

  /** Reading an `event: ` line and then a `data: ` line sets both fields. */
  lemma {:induction false} RunFields(parse: string -> Option<Json>, eventType: string, eventData: string)
    ensures Run(parse, Start, ["event: " + eventType, "data: " + eventData]) == Scan([], eventType, eventData)
  {
    var e, d := "event: " + eventType, "data: " + eventData;
    StartsWithConcat("event: ", eventType);
    StartsWithConcat("data: ", eventData);
    PrefixesExclusive(d);
    assert [e, d][..1] == [e];
    assert [e][..0] == [];
    assert Run(parse, Start, [e]) == Scan([], eventType, "");
  }

  /** Re-reading the lines of the returned buffer, up to the empty piece its
      final newline leaves, puts the parser back in the pending state it was
      returned from, with nothing emitted. */
  lemma RemainingRestoresPending(parse: string -> Option<Json>, eventType: string, eventData: string)
    requires '\n' !in eventType && '\n' !in eventData
    ensures var ls := Lines(BuildRemainingBuffer(eventType, eventData));
      && ls[|ls| - 1] == ""
      && Run(parse, Start, ls[..|ls| - 1]) == Scan([], eventType, eventData)
  {
    var e, d := "event: " + eventType, "data: " + eventData;
    var ls := Lines(BuildRemainingBuffer(eventType, eventData));
    if eventType != "" && eventData != "" {
      assert BuildRemainingBuffer(eventType, eventData) == e + "\n" + (d + "\n" + "");
      FieldLines(eventType, eventData);
      assert ls[..|ls| - 1] == [e, d];
      RunFields(parse, eventType, eventData);
    } else if eventType != "" {
      StartsWithConcat("event: ", eventType);
      assert BuildRemainingBuffer(eventType, eventData) == e + "\n" + "";
      LinesCons(e, "");
      assert ls[..|ls| - 1] == [e];
    } else if eventData != "" {
      StartsWithConcat("data: ", eventData);
      PrefixesExclusive(d);
      assert BuildRemainingBuffer(eventType, eventData) == d + "\n" + "";
      LinesCons(d, "");
      assert ls[..|ls| - 1] == [d];
    }
  }

  // ----- Round trip with the hub's broadcast ----------------------------------

  /** The bytes a stream carries after the hub broadcast `events` in order. */
  function Wire(codec: Codec, events: seq<SseEvent>): string {
    if |events| == 0 then ""
    else EventBus.Message(events[0].event, codec.stringify(events[0].data)) + Wire(codec, events[1..])
  }

  predicate Nameable(events: seq<SseEvent>) {
    forall i :: 0 <= i < |events| ==> events[i].event != "" && '\n' !in events[i].event
  }

  /** The lines of one broadcast message followed by more of the stream. */
  lemma {:induction false} MessageThenLines(event: string, json: string, rest: string)
    requires '\n' !in event && '\n' !in json
    ensures Lines(EventBus.Message(event, json) + rest) == ["event: " + event, "data: " + json, ""] + Lines(rest)
  {
    var e, d := "event: " + event, "data: " + json;
    assert "\ndata: " == "\n" + "data: " && "\n\n" == "\n" + ("" + "\n");
    assert EventBus.Message(event, json) + rest == e + "\n" + (d + "\n" + ("" + "\n" + rest));
    LinesCons("", rest);
    LinesCons(d, "" + "\n" + rest);
    LinesCons(e, d + "\n" + ("" + "\n" + rest));
  }

  /** One message's three lines emit its event and leave nothing pending. */
  lemma MessageBlockRun(codec: Codec, ev: SseEvent, done: seq<SseEvent>)
    requires Lawful(codec) && ev.event != ""
    ensures Run(codec.parse, Scan(done, "", ""), ["event: " + ev.event, "data: " + codec.stringify(ev.data), ""])
      == Scan(done + [ev], "", "")
  {
    var json := codec.stringify(ev.data);
    var e, d := "event: " + ev.event, "data: " + json;
    var block := [e, d, ""];
    StartsWithConcat("event: ", ev.event);
    StartsWithConcat("data: ", json);
    PrefixesExclusive(d);
    assert block[..2][..1] == [e];
    assert block[..2] == [e, d];
    assert [e][..0] == [];
    assert e != "" && e[7..] == ev.event;
    assert Step(codec.parse, Scan(done, "", ""), e) == Scan(done, ev.event, "");
    var s1 := Run(codec.parse, Scan(done, "", ""), [e]);
    assert s1 == Step(codec.parse, Run(codec.parse, Scan(done, "", ""), []), e);
    var s2 := Run(codec.parse, Scan(done, "", ""), [e, d]);
    assert s2 == Step(codec.parse, s1, d) == Scan(done, ev.event, json);
    assert Emit(codec.parse, ev.event, json) == [ev];
  }

  /** The lines of the stream are the first message's three lines, then the rest's. */
  lemma {:induction false} WireLines(codec: Codec, events: seq<SseEvent>)
    requires Lawful(codec) && Nameable(events) && |events| > 0
    ensures Lines(Wire(codec, events)) ==
      ["event: " + events[0].event, "data: " + codec.stringify(events[0].data), ""] + Lines(Wire(codec, events[1..]))
    ensures Nameable(events[1..])
  {
    var ev := events[0];
    MessageThenLines(ev.event, codec.stringify(ev.data), Wire(codec, events[1..]));
    forall i | 0 <= i < |events[1..]|
      ensures events[1..][i].event != "" && '\n' !in events[1..][i].event
    {
      assert events[1..][i] == events[i + 1];
    }
  }

  lemma {:induction false} WireRun(codec: Codec, events: seq<SseEvent>, done: seq<SseEvent>)
    requires Lawful(codec) && Nameable(events)
    ensures Run(codec.parse, Scan(done, "", ""), Lines(Wire(codec, events))) == Scan(done + events, "", "")
    decreases |events|
  {
    if |events| == 0 {
      assert Lines("") == [""];
      assert Lines("")[..0] == [];
      assert done + events == done;
    } else {
      var ev := events[0];
      var block := ["event: " + ev.event, "data: " + codec.stringify(ev.data), ""];
      var rest := Wire(codec, events[1..]);
      WireLines(codec, events);
      RunAppend(codec.parse, Scan(done, "", ""), block, Lines(rest));
      MessageBlockRun(codec, ev, done);
      WireRun(codec, events[1..], done + [ev]);
      assert done + [ev] + events[1..] == done + events;
    }
  }

  /** Whatever sequence of events the hub broadcasts on a stream, reading the
      whole stream in one buffer gives back exactly those events, in order,
      with nothing left pending. */
  lemma StreamRoundTrip(codec: Codec, events: seq<SseEvent>)
    requires Lawful(codec) && Nameable(events)
    ensures Parse(codec.parse, Wire(codec, events)) == Parsed(events, "")
  {
    WireRun(codec, events, []);
    assert [] + events == events;
  }

  /** One message written by `broadcast` parses to exactly its event. */
  lemma MessageRoundTrip(codec: Codec, event: string, data: Json)
    requires Lawful(codec) && event != "" && '\n' !in event
    ensures Parse(codec.parse, EventBus.Message(event, codec.stringify(data))) == Parsed([SseEvent(event, data)], "")
  {
    var events := [SseEvent(event, data)];
    assert events[1..] == [];
    assert Wire(codec, events[1..]) == "";
    assert Wire(codec, events) == EventBus.Message(event, codec.stringify(data)) + "";
    assert EventBus.Message(event, codec.stringify(data)) + "" == EventBus.Message(event, codec.stringify(data));
    StreamRoundTrip(codec, events);
  }

  // ----- Reconnection ---------------------------------------------------------

  const MAX_RECONNECT_ATTEMPTS: nat := 10
  /** Milliseconds before a scheduled retry; the timer itself is not modelled. */
  const RECONNECT_DELAY: nat := 3000

  /** The counter after a failed connection, and whether a retry is scheduled. */
  datatype Recovery = Recovery(attempts: nat, retry: bool)

  /** The `catch` of `connect`: an `AbortError` ends the attempt quietly;
      any other failure schedules a retry while fewer than ten have been tried. */
  function AfterFailure(attempts: nat, aborted: bool): (r: Recovery)
    ensures r.retry <==> !aborted && attempts < MAX_RECONNECT_ATTEMPTS
    ensures r.retry ==> r.attempts == attempts + 1
    ensures !r.retry ==> r.attempts == attempts
  {
    if aborted then Recovery(attempts, false)
    else if attempts < MAX_RECONNECT_ATTEMPTS then Recovery(attempts + 1, true)
    else Recovery(attempts, false)
  }

  /** How many retries `n` failures in a row schedule, starting from `attempts`. */
  function RetriesAfter(attempts: nat, n: nat): nat
    decreases n
  {
    if n == 0 then 0
    else
      var r := AfterFailure(attempts, false);
      (if r.retry then 1 else 0) + RetriesAfter(r.attempts, n - 1)
  }

  /** Between two successful connections at most ten retries are scheduled,
      however often the connection fails: `n` failures from a fresh counter
      schedule `min(n, 10)` retries. */
  lemma {:induction false} RetriesCapped(attempts: nat, n: nat)
    requires attempts <= MAX_RECONNECT_ATTEMPTS
    ensures RetriesAfter(attempts, n) == if n < MAX_RECONNECT_ATTEMPTS - attempts then n else MAX_RECONNECT_ATTEMPTS - attempts
    decreases n
  {
    if n > 0 {
      RetriesCapped(AfterFailure(attempts, false).attempts, n - 1);
    }
  }

  /** The hook's connection state: `connected` and `reconnectAttemptsRef`. */
  class Connection {
    var connected: bool
    var attempts: nat

    ghost predicate Valid()
      reads this
    {
      attempts <= MAX_RECONNECT_ATTEMPTS
    }

    constructor ()
      ensures Valid() && !connected && attempts == 0
    {
      connected := false;
      attempts := 0;
    }

    /** The response arrived: connected, and the counter starts over. */
    method Opened()
      modifies this
      ensures Valid() && connected && attempts == 0
    {
      connected := true;
      attempts := 0;
    }

    /** The attempt or the stream failed; `retry` says whether a retry is scheduled. */
    method Failed(aborted: bool) returns (retry: bool)
      requires Valid()
      modifies this
      ensures Valid()
      ensures Recovery(attempts, retry) == AfterFailure(old(attempts), aborted)
      ensures connected == (old(connected) && aborted)
    {
      if aborted {
        return false;
      }
      connected := false;
      retry := false;
      if attempts < MAX_RECONNECT_ATTEMPTS {
        attempts := attempts + 1;
        retry := true;
      }
    }

    /** `reconnect`: the counter starts over before the new attempt. */
    method Reconnect()
      modifies this
      ensures Valid() && attempts == 0 && connected == old(connected)
    {
      attempts := 0;
    }
  }
}
