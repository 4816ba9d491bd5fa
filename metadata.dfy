/**
 * The metadata module object: its request-size cap and its handles on the
 * inventory cache and the travel-time table, and the loops of the export
 * and time-window endpoints, each proved to compute the specification of
 * Windows, Export and Phases.
 */
module Metadata {
  import opened Types
  import opened Phases
  import opened Accumulate
  import opened Windows
  import opened Export

  /**
   * Scan the arrival list for a requested phase and stop at the first
   * accepted arrival.
   */
  method ScanArrivals(tts: seq<Arrival>, phase: string, delta: real, evTime: Time, offset: int) returns (a: Anchor)
    ensures a == ResolveTime(tts, phase, delta, evTime, offset)
  {
    for i := 0 to |tts|
      invariant i > 0 ==> RuleFor(phase, delta).Some?
      invariant forall j :: 0 <= j < i ==> !Matches(RuleFor(phase, delta).value, tts[j].phase)
    {
      var tt := tts[i];
      if phase == "P" && delta >= DeltaThreshold {
        if StartsWith(tt.phase, "PKP") || StartsWith(tt.phase, "PKiKP") {
          return Found(evTime + tt.time + offset * 60);
        }
      } else if phase == "S" || (phase == "P" && delta < DeltaThreshold) {
        if IsPhase(tt.phase, phase) == Ok(true) {
          return Found(evTime + tt.time + offset * 60);
        }
      } else {
        return Raised;
      }
    }
    if tts != [] {
      var rule := RuleFor(phase, delta).value;
      assert forall j :: 0 <= j < |tts| ==> !Matches(rule, tts[j].phase);
    }
    return NotFound;
  }

  class WiModule {
    /** The most result rows one time-window request may produce. */
    const maxLines: nat
    /** The inventory cache's stream lookup. */
    const ic: Inventory
    /** The travel-time table. */
    const ttt: TravelTimes

    constructor (maxLines: nat, ic: Inventory, ttt: TravelTimes)
      ensures this.maxLines == maxLines && this.ic == ic && this.ttt == ttt
    {
      this.maxLines := maxLines;
      this.ic := ic;
      this.ttt := ttt;
    }

    /** The station-selection export text. */
    method DownloadSelection(streams: seq<seq<string>>) returns (r: Result<string, Error>)
      ensures r == Selection(streams)
    {
      var text := "";
      assert streams[0..] == streams;
      assert Selection(streams).Ok? ==> text + Selection(streams).value == Selection(streams).value;
      for i := 0 to |streams|
        invariant Selection(streams) ==
          match Selection(streams[i..])
          case Ok(rest) => Ok(text + rest)
          case Err(e) => Err(e)
      {
        assert streams[i..][1..] == streams[i + 1..];
        var key := ParseKey(streams[i]);
        if key.Err? {
          return Err(key.error);
        }
        var k := key.value;
        if Selection(streams[i + 1..]).Ok? {
          var rest := Selection(streams[i + 1..]).value;
          assert text + (Line(k) + rest) == (text + Line(k)) + rest;
        }
        text := text + Line(k);
      }
      assert streams[|streams|..] == [] && text + "" == text;
      r := Ok(text);
    }

    /** Explicit mode: the caller's window for every stream the cache knows over it. */
    method TimeWindowsTw(streams: seq<seq<string>>, start: Time, end: Time) returns (r: Result<seq<Row>, Error>)
      ensures r == TwResult(maxLines, ic, streams, start, end)
    {
      var result: seq<Row> := [];
      for i := 0 to |streams|
        invariant |result| <= maxLines
        invariant TwResult(maxLines, ic, streams, start, end) == Run(result, TwSteps(ic, start, end, streams[i..]), maxLines)
      {
        assert streams[i..][1..] == streams[i + 1..];
        var key := ParseKey(streams[i]);
        if key.Err? {
          return Err(key.error);
        }
        var k := key.value;
        var streamInfo := ic(start, end, k);
        if streamInfo.Some? {
          result := result + [Row(start, end, k.net, k.sta, k.cha, k.loc, streamInfo.value.size)];
          if |result| > maxLines {
            return Err(RequestTooLarge);
          }
        }
      }
      r := Ok(result);
    }

    /**
     * Event-relative mode: for every event and every stream, the window
     * anchored on the requested phases, for the pairs that resolve and that
     * the cache knows over the resolved window.
     */
    method TimeWindowsEv(streams: seq<seq<string>>, events: seq<seq<Field>>, policy: Policy, delazi: Distance)
      returns (r: Result<seq<Row>, Error>)
      ensures r == EvResult(maxLines, ic, ttt, delazi, streams, events, policy)
    {
      var result: seq<Row> := [];
      for i := 0 to |events|
        invariant |result| <= maxLines
        invariant EvResult(maxLines, ic, ttt, delazi, streams, events, policy) ==
          Run(result, EvSteps(ic, ttt, delazi, events[i..], policy, streams), maxLines)
      {
        assert events[i..][1..] == events[i + 1..];
        var parsed := ParseEvent(events[i]);
        if parsed.Err? {
          return Err(parsed.error);
        }
        var ev := parsed.value;
        ghost var before := result;
        ghost var later := EvSteps(ic, ttt, delazi, events[i + 1..], policy, streams);
        RunAppend(before, EventSteps(ic, ttt, delazi, ev, policy, streams), later, maxLines);
        for j := 0 to |streams|
          invariant |result| <= maxLines
          invariant Run(before, EventSteps(ic, ttt, delazi, ev, policy, streams), maxLines) ==
            Run(result, EventSteps(ic, ttt, delazi, ev, policy, streams[j..]), maxLines)
        {
          assert streams[j..][1..] == streams[j + 1..];
          var row := ResolvePair(ev, streams[j], policy, delazi);
          if row.Err? {
            return Err(row.error);
          }
          if row.value.Some? {
            result := result + [row.value.value];
            if |result| > maxLines {
              return Err(RequestTooLarge);
            }
          }
        }
      }
      r := Ok(result);
    }

    /**
     * The body of the inner loop of event-relative mode for one stream key:
     * a malformed key is an error, a skipped pair gives None.
     */
    method ResolvePair(ev: Event, raw: seq<string>, policy: Policy, delazi: Distance) returns (r: Result<Option<Row>, Error>)
      ensures r.Err? <==> |raw| != 4
      ensures r.Err? ==> EvStep(ic, ttt, delazi, ev, policy, raw) == Fail(r.error)
      ensures r == Ok(None) ==> EvStep(ic, ttt, delazi, ev, policy, raw) == Skip
      ensures r.Ok? && r.value.Some? ==> EvStep(ic, ttt, delazi, ev, policy, raw) == Emit(r.value.value)
    {
      var key := ParseKey(raw);
      if key.Err? {
        return Err(key.error);
      }
      var k := key.value;
      // the window is not known yet: the origin time alone gives the coordinates
      var probe := ic(ev.time, ev.time, k);
      if probe.None? {
        return Ok(None);
      }
      var info := probe.value;
      var delta := delazi(ev.lat, ev.lon, info.latitude, info.longitude);
      var ttlist := ttt(ev.lat, ev.lon, ev.depth, info.latitude, info.longitude, info.elevation);
      if ttlist.None? {
        return Ok(None);
      }
      var startTime := ScanArrivals(ttlist.value, policy.startphase, delta, ev.time, policy.startoffset);
      if startTime.Raised? {
        return Ok(None);
      }
      var endTime := ScanArrivals(ttlist.value, policy.endphase, delta, ev.time, policy.endoffset);
      if endTime.Raised? {
        return Ok(None);
      }
      if startTime.Found? && endTime.Found? {
        // look again over the actual window
        var streamInfo := ic(startTime.time, endTime.time, k);
        if streamInfo.Some? {
          return Ok(Some(Row(startTime.time, endTime.time, k.net, k.sta, k.cha, k.loc, streamInfo.value.size)));
        }
      }
      return Ok(None);
    }
  }
}
