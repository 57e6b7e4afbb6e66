/** The older copy of the dashboard's stream reader (apps/tui/src/hooks/useSSE.ts).
    Its `parseSSEBuffer` is an index loop that emits inline and rebuilds the
    pending block itself; it computes the same result as the reader of
    use-sse.ts on every buffer. Its reconnect counter is the same code as
    use-sse.ts's and is modelled by `SseStream.Connection`. */
module SseHook {
  import opened Common
  import opened Json
  import SseStream

  /** `parseSSEBuffer` of useSSE.ts: returns what use-sse.ts's returns. */
  method ParseSseBuffer(parse: string -> Option<Json>, buffer: string) returns (r: SseStream.Parsed)
    ensures r == SseStream.Parse(parse, buffer)
  {
    var events: seq<SseStream.SseEvent> := [];
    var lines := Lines(buffer);
    var currentEvent, currentData := "", "";
    var i := 0;
    while i < |lines|
      invariant 0 <= i <= |lines|
      invariant SseStream.Run(parse, SseStream.Start, lines[..i]) == SseStream.Scan(events, currentEvent, currentData)
    {
      var line := lines[i];
      SseStream.RunSnoc(parse, SseStream.Start, lines, i);
      if line == "" {
        if currentEvent != "" && currentData != "" {
          var data := parse(currentData);
          if data.Some? {
            events := events + [SseStream.SseEvent(currentEvent, data.value)];
          }
        }
        currentEvent, currentData := "", "";
      } else if StartsWith(line, "event: ") {
        currentEvent := line[7..];
      } else if StartsWith(line, "data: ") {
        currentData := line[6..];
      }
      i := i + 1;
    }
    assert lines[..i] == lines;
    var remaining := "";
    ghost var e := if currentEvent != "" then "event: " + currentEvent + "\n" else "";
    ghost var d := if currentData != "" then "data: " + currentData + "\n" else "";
    if currentEvent != "" || currentData != "" {
      if currentEvent != "" {
        remaining := remaining + "event: " + currentEvent + "\n";
      }
      assert remaining == e;
      if currentData != "" {
        remaining := remaining + "data: " + currentData + "\n";
      }
    }
    assert remaining == e + d;
    r := SseStream.Parsed(events, remaining);
  }
}
