/**
 * What the two resolvers compute, as steps for the accumulation of
 * Accumulate: explicit mode (one caller-supplied window for every stream)
 * and event-relative mode (a window per event and stream, anchored on
 * predicted phase arrivals).
 */
module Windows {
  import opened Types
  import opened Phases
  import opened Accumulate

  // ---------------------------------------------------------------- explicit mode

  /**
   * One stream key in explicit mode: a malformed key fails the request, a
   * stream the cache does not know over the window is skipped, and a known
   * one gives a row with the caller's window, its codes and the cache's size.
   */
  function TwStep(ic: Inventory, start: Time, end: Time, raw: seq<string>): (s: Step)
    ensures s.Fail? <==> |raw| != 4
    ensures s.Fail? ==> s.error == InvalidStream(raw)
    ensures s == Skip <==> |raw| == 4 && ic(start, end, StreamKey(raw[0], raw[1], raw[2], raw[3])).None?
    ensures s.Emit? ==>
      var k := StreamKey(raw[0], raw[1], raw[2], raw[3]);
      && ic(start, end, k).Some?
      && s.row == Row(start, end, raw[0], raw[1], raw[2], raw[3], ic(start, end, k).value.size)
  {
    match ParseKey(raw)
    case Err(e) => Fail(e)
    case Ok(k) =>
      match ic(start, end, k)
      case None => Skip
      case Some(info) => Emit(Row(start, end, k.net, k.sta, k.cha, k.loc, info.size))
  }

  function TwSteps(ic: Inventory, start: Time, end: Time, streams: seq<seq<string>>): (steps: seq<Step>)
    ensures |steps| == |streams|
  {
    if streams == [] then [] else [TwStep(ic, start, end, streams[0])] + TwSteps(ic, start, end, streams[1..])
  }

  lemma {:induction false} TwStepAt(ic: Inventory, start: Time, end: Time, streams: seq<seq<string>>, k: nat)
    requires k < |streams|
    ensures TwSteps(ic, start, end, streams)[k] == TwStep(ic, start, end, streams[k])
  {
    if k > 0 {
      TwStepAt(ic, start, end, streams[1..], k - 1);
    }
  }

  predicate WellFormedKeys(streams: seq<seq<string>>)
  {
    forall i :: 0 <= i < |streams| ==> |streams[i]| == 4
  }

  /**
   * The outcome of an explicit-mode request: a success means every key was
   * well formed and the rows fit under the cap.
   */
  function TwResult(maxLines: nat, ic: Inventory, streams: seq<seq<string>>, start: Time, end: Time): (r: Result<seq<Row>, Error>)
    ensures r.Ok? ==> WellFormedKeys(streams) && |r.value| <= maxLines
  {
    var steps := TwSteps(ic, start, end, streams);
    assert Run([], steps, maxLines).Ok? ==> WellFormedKeys(streams) by {
      if !WellFormedKeys(streams) {
        var k :| 0 <= k < |streams| && |streams[k]| != 4;
        TwStepAt(ic, start, end, streams, k);
        RunFailsOnFail([], steps, maxLines, k);
      }
    }
    Run([], steps, maxLines)
  }

  /** A malformed key anywhere in the list fails an explicit-mode request. */
  lemma TwMalformedKeyFails(maxLines: nat, ic: Inventory, streams: seq<seq<string>>, start: Time, end: Time, k: nat)
    requires k < |streams| && |streams[k]| != 4
    ensures TwResult(maxLines, ic, streams, start, end).Err?
  {
  }

  /**
   * The rows explicit mode is after, defined directly: one per well-formed
   * key the cache knows over the window, in the keys' order, with the
   * cache's size.
   */
  function KnownRows(ic: Inventory, start: Time, end: Time, streams: seq<seq<string>>): seq<Row>
  {
    if streams == [] then []
    else
      var raw := streams[0];
      var known :=
        if |raw| == 4 && ic(start, end, StreamKey(raw[0], raw[1], raw[2], raw[3])).Some? then
          [Row(start, end, raw[0], raw[1], raw[2], raw[3], ic(start, end, StreamKey(raw[0], raw[1], raw[2], raw[3])).value.size)]
        else [];
      known + KnownRows(ic, start, end, streams[1..])
  }

  lemma {:induction false} EmittedTwSteps(ic: Inventory, start: Time, end: Time, streams: seq<seq<string>>)
    ensures Emitted(TwSteps(ic, start, end, streams)) == KnownRows(ic, start, end, streams)
  {
    if streams != [] {
      var steps := TwSteps(ic, start, end, streams);
      assert steps[1..] == TwSteps(ic, start, end, streams[1..]);
      EmittedTwSteps(ic, start, end, streams[1..]);
    }
  }

  /**
   * Explicit mode with well-formed keys: exactly the known streams' rows,
   * in order, when they fit under the cap, and RequestTooLarge otherwise.
   */
  lemma TwAllOrNothing(maxLines: nat, ic: Inventory, streams: seq<seq<string>>, start: Time, end: Time)
    requires WellFormedKeys(streams)
    ensures var rows := KnownRows(ic, start, end, streams);
      TwResult(maxLines, ic, streams, start, end) == if |rows| <= maxLines then Ok(rows) else Err(RequestTooLarge)
  {
    var steps := TwSteps(ic, start, end, streams);
    TwStepsShape(ic, start, end, streams);
    RunAllOrNothing([], steps, maxLines);
    EmittedTwSteps(ic, start, end, streams);
    assert [] + Emitted(steps) == Emitted(steps);
  }

  /** The row an explicit-mode stream contributes, if any. */
  lemma {:induction false} TwStepsShape(ic: Inventory, start: Time, end: Time, streams: seq<seq<string>>)
    ensures WellFormedKeys(streams) ==> NoFail(TwSteps(ic, start, end, streams))
    ensures forall r :: r in Emitted(TwSteps(ic, start, end, streams)) ==>
      r.start == start && r.end == end && [r.net, r.sta, r.cha, r.loc] in streams
  {
    if streams != [] {
      var steps := TwSteps(ic, start, end, streams);
      TwStepsShape(ic, start, end, streams[1..]);
      assert steps[1..] == TwSteps(ic, start, end, streams[1..]);
      if WellFormedKeys(streams) {
        assert WellFormedKeys(streams[1..]) by {
          forall i | 0 <= i < |streams[1..]| ensures |streams[1..][i]| == 4 { assert streams[1..][i] == streams[i + 1]; }
        }
        forall i | 0 <= i < |steps| ensures !steps[i].Fail? {
          if i > 0 { assert steps[i] == steps[1..][i - 1]; }
        }
      }
      forall r | r in Emitted(steps) ensures r.start == start && r.end == end && [r.net, r.sta, r.cha, r.loc] in streams {
        if steps[0].Emit? && r == steps[0].row {
          assert [r.net, r.sta, r.cha, r.loc] == streams[0];
        } else {
          assert r in Emitted(steps[1..]);
          assert [r.net, r.sta, r.cha, r.loc] in streams[1..];
        }
      }
    }
  }

  /**
   * Explicit mode succeeds only within the cap; every row carries the
   * caller's window unchanged and the codes of one of the requested streams;
   * there are never more rows than streams.
   */
  lemma TwResultShape(maxLines: nat, ic: Inventory, streams: seq<seq<string>>, start: Time, end: Time, rows: seq<Row>)
    requires TwResult(maxLines, ic, streams, start, end) == Ok(rows)
    ensures |rows| <= maxLines && |rows| <= |streams|
    ensures forall r :: r in rows ==> r.start == start && r.end == end && [r.net, r.sta, r.cha, r.loc] in streams
  {
    var steps := TwSteps(ic, start, end, streams);
    TwStepsShape(ic, start, end, streams);
    RunAllOrNothing([], steps, maxLines);
  }

  /**
   * When every key is well formed and every stream is known over the window,
   * explicit mode returns one row per stream, in the streams' order, or fails
   * with RequestTooLarge when there are more streams than `maxLines`.
   */
  lemma {:induction false} TwAllKnown(maxLines: nat, ic: Inventory, streams: seq<seq<string>>, start: Time, end: Time)
    requires WellFormedKeys(streams)
    requires forall i :: 0 <= i < |streams| ==> ic(start, end, StreamKey(streams[i][0], streams[i][1], streams[i][2], streams[i][3])).Some?
    ensures |streams| > maxLines ==> TwResult(maxLines, ic, streams, start, end) == Err(RequestTooLarge)
    ensures |streams| <= maxLines ==>
      && TwResult(maxLines, ic, streams, start, end).Ok?
      && |TwResult(maxLines, ic, streams, start, end).value| == |streams|
      && forall i :: 0 <= i < |streams| ==>
           var r := TwResult(maxLines, ic, streams, start, end).value[i];
           r.start == start && r.end == end && [r.net, r.sta, r.cha, r.loc] == streams[i]
  {
    TwStepsShape(ic, start, end, streams);
    RunAllOrNothing([], TwSteps(ic, start, end, streams), maxLines);
    AllKnownEmitted(ic, streams, start, end);
  }

  lemma {:induction false} AllKnownEmitted(ic: Inventory, streams: seq<seq<string>>, start: Time, end: Time)
    requires WellFormedKeys(streams)
    requires forall i :: 0 <= i < |streams| ==> ic(start, end, StreamKey(streams[i][0], streams[i][1], streams[i][2], streams[i][3])).Some?
    ensures |Emitted(TwSteps(ic, start, end, streams))| == |streams|
    ensures forall i :: 0 <= i < |streams| ==>
      var r := Emitted(TwSteps(ic, start, end, streams))[i];
      r.start == start && r.end == end && [r.net, r.sta, r.cha, r.loc] == streams[i]
  {
    if streams != [] {
      var tail := streams[1..];
      assert WellFormedKeys(tail) by {
        forall i | 0 <= i < |tail| ensures |tail[i]| == 4 { assert tail[i] == streams[i + 1]; }
      }
      forall i | 0 <= i < |tail|
        ensures ic(start, end, StreamKey(tail[i][0], tail[i][1], tail[i][2], tail[i][3])).Some?
      {
        assert tail[i] == streams[i + 1];
      }
      AllKnownEmitted(ic, tail, start, end);
      var steps := TwSteps(ic, start, end, streams);
      assert steps[0].Emit?;
      assert steps[1..] == TwSteps(ic, start, end, tail);
      assert Emitted(steps) == [steps[0].row] + Emitted(TwSteps(ic, start, end, tail));
      forall i | 0 <= i < |streams|
        ensures var r := Emitted(steps)[i];
          r.start == start && r.end == end && [r.net, r.sta, r.cha, r.loc] == streams[i]
      {
        if i > 0 { assert streams[i] == tail[i - 1]; }
      }
    }
  }

  // ---------------------------------------------------------- event-relative mode

  /** The phases and offsets (minutes) of an event-relative request. */
  datatype Policy = Policy(startphase: string, startoffset: int, endphase: string, endoffset: int)

  /**
   * One (event, stream) pair: probe the inventory at the origin time for the
   * station's coordinates, compute the arrivals, resolve the start and end
   * phases independently, and look the stream up again over the resolved
   * window. None when the pair is skipped.
   */
  function PairRow(ic: Inventory, ttt: TravelTimes, delazi: Distance, ev: Event, k: StreamKey, policy: Policy): (r: Option<Row>)
    ensures r.Some? ==> ic(ev.time, ev.time, k).Some?
    ensures r.Some? ==> policy.startphase in {"P", "S"} && policy.endphase in {"P", "S"}
    ensures r.Some? ==> Codes(k) == [r.value.net, r.value.sta, r.value.cha, r.value.loc]
    ensures r.Some? ==> ic(r.value.start, r.value.end, k).Some? && ic(r.value.start, r.value.end, k).value.size == r.value.size
  {
    match ic(ev.time, ev.time, k)
    case None => None
    case Some(probe) =>
      var delta := delazi(ev.lat, ev.lon, probe.latitude, probe.longitude);
      match ttt(ev.lat, ev.lon, ev.depth, probe.latitude, probe.longitude, probe.elevation)
      case None => None
      case Some(tts) =>
        var s := ResolveTime(tts, policy.startphase, delta, ev.time, policy.startoffset);
        var e := ResolveTime(tts, policy.endphase, delta, ev.time, policy.endoffset);
        if s.Found? && e.Found? then
          match ic(s.time, e.time, k)
          case None => None
          case Some(info) => Some(Row(s.time, e.time, k.net, k.sta, k.cha, k.loc, info.size))
        else None
  }

  /**
   * A row for a pair is anchored on the first accepted arrival for each
   * phase: its start and end are origin time plus that arrival's travel time
   * plus the offset in minutes.
   */
  lemma PairRowAnchored(ic: Inventory, ttt: TravelTimes, delazi: Distance, ev: Event, k: StreamKey, policy: Policy, row: Row)
    requires PairRow(ic, ttt, delazi, ev, k, policy) == Some(row)
    ensures
      var probe := ic(ev.time, ev.time, k).value;
      var delta := delazi(ev.lat, ev.lon, probe.latitude, probe.longitude);
      var tts := ttt(ev.lat, ev.lon, ev.depth, probe.latitude, probe.longitude, probe.elevation);
      && tts.Some?
      && (exists i :: 0 <= i < |tts.value|
            && Matches(RuleFor(policy.startphase, delta).value, tts.value[i].phase)
            && (forall j :: 0 <= j < i ==> !Matches(RuleFor(policy.startphase, delta).value, tts.value[j].phase))
            && row.start == ev.time + tts.value[i].time + policy.startoffset * 60)
      && (exists i :: 0 <= i < |tts.value|
            && Matches(RuleFor(policy.endphase, delta).value, tts.value[i].phase)
            && (forall j :: 0 <= j < i ==> !Matches(RuleFor(policy.endphase, delta).value, tts.value[j].phase))
            && row.end == ev.time + tts.value[i].time + policy.endoffset * 60)
  {
    var probe := ic(ev.time, ev.time, k).value;
    var delta := delazi(ev.lat, ev.lon, probe.latitude, probe.longitude);
    var tts := ttt(ev.lat, ev.lon, ev.depth, probe.latitude, probe.longitude, probe.elevation).value;
    var si := FirstMatch(tts, RuleFor(policy.startphase, delta).value).value;
    var ei := FirstMatch(tts, RuleFor(policy.endphase, delta).value).value;
    assert row.start == ev.time + tts[si].time + policy.startoffset * 60;
    assert row.end == ev.time + tts[ei].time + policy.endoffset * 60;
  }

  /**
   * The converse: when the probe hits, the travel times are computed, both
   * phases have a first accepted arrival and the inventory knows the stream
   * over the window so anchored, the pair yields exactly that row.
   */
  lemma PairRowResolves(ic: Inventory, ttt: TravelTimes, delazi: Distance, ev: Event, k: StreamKey, policy: Policy,
                        probe: StreamInfo, tts: seq<Arrival>, si: nat, ei: nat, info: StreamInfo)
    requires ic(ev.time, ev.time, k) == Some(probe)
    requires ttt(ev.lat, ev.lon, ev.depth, probe.latitude, probe.longitude, probe.elevation) == Some(tts)
    requires
      var delta := delazi(ev.lat, ev.lon, probe.latitude, probe.longitude);
      && RuleFor(policy.startphase, delta).Some? && RuleFor(policy.endphase, delta).Some?
      && si < |tts| && Matches(RuleFor(policy.startphase, delta).value, tts[si].phase)
      && (forall j :: 0 <= j < si ==> !Matches(RuleFor(policy.startphase, delta).value, tts[j].phase))
      && ei < |tts| && Matches(RuleFor(policy.endphase, delta).value, tts[ei].phase)
      && (forall j :: 0 <= j < ei ==> !Matches(RuleFor(policy.endphase, delta).value, tts[j].phase))
    requires
      ic(ev.time + tts[si].time + policy.startoffset * 60, ev.time + tts[ei].time + policy.endoffset * 60, k) == Some(info)
    ensures
      PairRow(ic, ttt, delazi, ev, k, policy)
        == Some(Row(ev.time + tts[si].time + policy.startoffset * 60, ev.time + tts[ei].time + policy.endoffset * 60,
                    k.net, k.sta, k.cha, k.loc, info.size))
  {
    var delta := delazi(ev.lat, ev.lon, probe.latitude, probe.longitude);
    ResolveTimeIsFirstMatch(tts, policy.startphase, delta, ev.time, policy.startoffset, si);
    ResolveTimeIsFirstMatch(tts, policy.endphase, delta, ev.time, policy.endoffset, ei);
  }

  /**
   * A requested phase other than "P" and "S" never yields a row: the scan
   * raises on the first arrival, and the pair is skipped.
   */
  lemma WrongPhaseSkipsPair(ic: Inventory, ttt: TravelTimes, delazi: Distance, ev: Event, k: StreamKey, policy: Policy)
    requires policy.startphase !in {"P", "S"} || policy.endphase !in {"P", "S"}
    ensures PairRow(ic, ttt, delazi, ev, k, policy) == None
  {
  }

  /** A failing travel-time computation skips the pair. */
  lemma TravelTimeFailureSkipsPair(ic: Inventory, ttt: TravelTimes, delazi: Distance, ev: Event, k: StreamKey, policy: Policy)
    requires ic(ev.time, ev.time, k).Some?
    requires
      var p := ic(ev.time, ev.time, k).value;
      ttt(ev.lat, ev.lon, ev.depth, p.latitude, p.longitude, p.elevation).None?
    ensures PairRow(ic, ttt, delazi, ev, k, policy) == None
  {
  }

  /** One stream key for a given event: fail on a malformed key, else the pair's row or a skip. */
  function EvStep(ic: Inventory, ttt: TravelTimes, delazi: Distance, ev: Event, policy: Policy, raw: seq<string>): Step
  {
    match ParseKey(raw)
    case Err(e) => Fail(e)
    case Ok(k) =>
      match PairRow(ic, ttt, delazi, ev, k, policy)
      case None => Skip
      case Some(row) => Emit(row)
  }

  /** The steps of one event, over all stream keys in order. */
  function EventSteps(ic: Inventory, ttt: TravelTimes, delazi: Distance, ev: Event, policy: Policy, streams: seq<seq<string>>): (steps: seq<Step>)
    ensures |steps| == |streams|
  {
    if streams == [] then []
    else [EvStep(ic, ttt, delazi, ev, policy, streams[0])] + EventSteps(ic, ttt, delazi, ev, policy, streams[1..])
  }

  /** The steps of all events in order, each event's streams in order; a malformed event fails there. */
  function EvSteps(ic: Inventory, ttt: TravelTimes, delazi: Distance, events: seq<seq<Field>>, policy: Policy, streams: seq<seq<string>>): seq<Step>
  {
    if events == [] then []
    else match ParseEvent(events[0])
      case Err(e) => [Fail(e)]
      case Ok(ev) => EventSteps(ic, ttt, delazi, ev, policy, streams) + EvSteps(ic, ttt, delazi, events[1..], policy, streams)
  }

  predicate WellFormedEvents(events: seq<seq<Field>>)
  {
    forall i :: 0 <= i < |events| ==> ParseEvent(events[i]).Ok?
  }

  /**
   * The outcome of an event-relative request: a success means every event
   * was well formed, every key too once there is an event to pair it with,
   * and the rows fit under the cap.
   */
  function EvResult(maxLines: nat, ic: Inventory, ttt: TravelTimes, delazi: Distance,
                    streams: seq<seq<string>>, events: seq<seq<Field>>, policy: Policy): (r: Result<seq<Row>, Error>)
    ensures r.Ok? ==> |r.value| <= maxLines
    ensures r.Ok? ==> WellFormedEvents(events) && (events != [] ==> WellFormedKeys(streams))
  {
    var steps := EvSteps(ic, ttt, delazi, events, policy, streams);
    assert Run([], steps, maxLines).Ok? ==> WellFormedEvents(events) && (events != [] ==> WellFormedKeys(streams)) by {
      if !WellFormedEvents(events) {
        var k :| 0 <= k < |events| && ParseEvent(events[k]).Err?;
        var i := EvStepsFailAtEvent(ic, ttt, delazi, events, policy, streams, k);
        RunFailsOnFail([], steps, maxLines, i);
      } else if events != [] && !WellFormedKeys(streams) {
        var k :| 0 <= k < |streams| && |streams[k]| != 4;
        var ev := ParseEvent(events[0]).value;
        EventStepAt(ic, ttt, delazi, ev, policy, streams, k);
        assert steps[k] == EventSteps(ic, ttt, delazi, ev, policy, streams)[k];
        RunFailsOnFail([], steps, maxLines, k);
      }
    }
    Run([], steps, maxLines)
  }

  /** A malformed event makes some step fail: the first malformed one is reached. */
  lemma {:induction false} EvStepsFailAtEvent(ic: Inventory, ttt: TravelTimes, delazi: Distance, events: seq<seq<Field>>,
                                               policy: Policy, streams: seq<seq<string>>, k: nat) returns (i: nat)
    requires k < |events| && ParseEvent(events[k]).Err?
    ensures i < |EvSteps(ic, ttt, delazi, events, policy, streams)|
    ensures EvSteps(ic, ttt, delazi, events, policy, streams)[i].Fail?
  {
    if ParseEvent(events[0]).Err? {
      i := 0;
    } else {
      var head := EventSteps(ic, ttt, delazi, ParseEvent(events[0]).value, policy, streams);
      var tail := EvSteps(ic, ttt, delazi, events[1..], policy, streams);
      assert events[1..][k - 1] == events[k];
      var j := EvStepsFailAtEvent(ic, ttt, delazi, events[1..], policy, streams, k - 1);
      var all: seq<Step> := head + tail;
      assert all[|head| + j] == tail[j];
      i := |head| + j;
    }
  }

  lemma {:induction false} EventStepsNoFail(ic: Inventory, ttt: TravelTimes, delazi: Distance, ev: Event, policy: Policy, streams: seq<seq<string>>)
    requires WellFormedKeys(streams)
    ensures NoFail(EventSteps(ic, ttt, delazi, ev, policy, streams))
  {
    var steps := EventSteps(ic, ttt, delazi, ev, policy, streams);
    if streams != [] {
      assert WellFormedKeys(streams[1..]) by {
        forall i | 0 <= i < |streams[1..]| ensures |streams[1..][i]| == 4 { assert streams[1..][i] == streams[i + 1]; }
      }
      EventStepsNoFail(ic, ttt, delazi, ev, policy, streams[1..]);
      forall i | 0 <= i < |steps| ensures !steps[i].Fail? {
        if i > 0 { assert steps[i] == steps[1..][i - 1]; }
      }
    }
  }

  /** With well-formed events and keys, no step fails, whatever the oracles answer. */
  lemma {:induction false} EvStepsNoFail(ic: Inventory, ttt: TravelTimes, delazi: Distance, events: seq<seq<Field>>, policy: Policy, streams: seq<seq<string>>)
    requires WellFormedEvents(events) && WellFormedKeys(streams)
    ensures NoFail(EvSteps(ic, ttt, delazi, events, policy, streams))
  {
    if events != [] {
      assert WellFormedEvents(events[1..]) by {
        forall i | 0 <= i < |events[1..]| ensures ParseEvent(events[1..][i]).Ok? { assert events[1..][i] == events[i + 1]; }
      }
      assert ParseEvent(events[0]).Ok?;
      var ev := ParseEvent(events[0]).value;
      var head := EventSteps(ic, ttt, delazi, ev, policy, streams);
      var tail := EvSteps(ic, ttt, delazi, events[1..], policy, streams);
      EventStepsNoFail(ic, ttt, delazi, ev, policy, streams);
      EvStepsNoFail(ic, ttt, delazi, events[1..], policy, streams);
      var all: seq<Step> := head + tail;
      forall i | 0 <= i < |all| ensures !all[i].Fail? {
        if i >= |head| { assert all[i] == tail[i - |head|]; }
      }
    }
  }

  /**
   * Event-relative mode with well-formed events and keys: the whole row
   * list when it fits under the cap, RequestTooLarge otherwise. Skipped
   * pairs (unknown stream, failing travel-time computation, unresolved or
   * invalid phase) never fail the request.
   */
  lemma EvAllOrNothing(maxLines: nat, ic: Inventory, ttt: TravelTimes, delazi: Distance,
                       streams: seq<seq<string>>, events: seq<seq<Field>>, policy: Policy)
    requires WellFormedEvents(events) && WellFormedKeys(streams)
    ensures var rows := Emitted(EvSteps(ic, ttt, delazi, events, policy, streams));
      EvResult(maxLines, ic, ttt, delazi, streams, events, policy) ==
        if |rows| <= maxLines then Ok(rows) else Err(RequestTooLarge)
  {
    EvStepsNoFail(ic, ttt, delazi, events, policy, streams);
    var steps := EvSteps(ic, ttt, delazi, events, policy, streams);
    RunAllOrNothing([], steps, maxLines);
    assert [] + Emitted(steps) == Emitted(steps);
  }

  /** A malformed event anywhere in the list fails an event-relative request. */
  lemma EvMalformedEventFails(maxLines: nat, ic: Inventory, ttt: TravelTimes, delazi: Distance,
                              streams: seq<seq<string>>, events: seq<seq<Field>>, policy: Policy, k: nat)
    requires k < |events| && ParseEvent(events[k]).Err?
    ensures EvResult(maxLines, ic, ttt, delazi, streams, events, policy).Err?
  {
  }

  /**
   * A malformed stream key fails the request whenever there is an event to
   * pair it with, even when every other pair would have been skipped.
   */
  lemma EvMalformedKeyFails(maxLines: nat, ic: Inventory, ttt: TravelTimes, delazi: Distance,
                            streams: seq<seq<string>>, events: seq<seq<Field>>, policy: Policy, k: nat)
    requires events != []
    requires k < |streams| && |streams[k]| != 4
    ensures EvResult(maxLines, ic, ttt, delazi, streams, events, policy).Err?
  {
  }

  lemma {:induction false} EventStepAt(ic: Inventory, ttt: TravelTimes, delazi: Distance, ev: Event, policy: Policy, streams: seq<seq<string>>, k: nat)
    requires k < |streams|
    ensures EventSteps(ic, ttt, delazi, ev, policy, streams)[k] == EvStep(ic, ttt, delazi, ev, policy, streams[k])
  {
    if k > 0 {
      EventStepAt(ic, ttt, delazi, ev, policy, streams[1..], k - 1);
    }
  }
}
