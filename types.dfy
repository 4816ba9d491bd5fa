/**
 * Values exchanged by the time-window resolvers of the ArcLink web
 * interface's metadata module: stream keys, events, the inventory's
 * stream information, travel-time arrivals, result rows and the client
 * errors that abort a request.
 */
module Types {

  datatype Option<+T> = None | Some(value: T)

  datatype Result<+T, +E> = Ok(value: T) | Err(error: E)

  /** An instant, in whole seconds on one time line. */
  type Time = int

  /**
   * The client errors the module raises. Each one aborts the whole request:
   * no partial result is returned with it.
   */
  datatype Error =
    | MissingStreams                  // "missing streams"
    | InvalidParameterSet             // "invalid set of parameters"
    | InvalidStream(key: seq<string>) // "invalid stream: <key>"
    | InvalidEvent(event: seq<Field>) // "invalid event: <event>"
    | WrongPhase                      // "Wrong phase received! Only "P" and "S" are implemented."
    | RequestTooLarge                 // "maximum request size exceeded"

  /**
   * One component of a decoded event list, classified by the conversion the
   * module applies to it: a value `float()` accepts, a value the date parser
   * accepts, or neither.
   */
  datatype Field = Number(x: real) | Timestamp(t: Time) | Unconvertible

  /** An event: latitude, longitude, depth (km) and origin time. */
  datatype Event = Event(lat: real, lon: real, depth: real, time: Time)

  /** Network, station, channel and location codes of one stream. */
  datatype StreamKey = StreamKey(net: string, sta: string, cha: string, loc: string)

  /** What the inventory cache reports about a stream over a time range. */
  datatype StreamInfo = StreamInfo(latitude: real, longitude: real, elevation: real, size: int)

  /** One predicted arrival: phase name and travel time in seconds. */
  datatype Arrival = Arrival(phase: string, time: int)

  /** One result line: the window, the stream's codes and its estimated size. */
  datatype Row = Row(start: Time, end: Time, net: string, sta: string, cha: string, loc: string, size: int)

  /** The inventory cache lookup: window start, window end, stream; None when the stream is not defined there. */
  type Inventory = (Time, Time, StreamKey) -> Option<StreamInfo>

  /**
   * The travel-time table: event latitude, longitude, depth, station latitude,
   * longitude, elevation; None when the computation raises.
   */
  type TravelTimes = (real, real, real, real, real, real) -> Option<seq<Arrival>>

  /** Great-circle distance in degrees between (lat1, lon1) and (lat2, lon2). */
  type Distance = (real, real, real, real) -> real

  /** The four codes of a stream key, in the order a caller lists them. */
  function Codes(k: StreamKey): seq<string>
  {
    [k.net, k.sta, k.cha, k.loc]
  }

  /** A stream key as the caller sent it must have exactly four components. */
  function ParseKey(raw: seq<string>): (r: Result<StreamKey, Error>)
    ensures r.Ok? <==> |raw| == 4
    ensures r.Ok? ==> Codes(r.value) == raw
    ensures r.Err? ==> r.error == InvalidStream(raw)
  {
    if |raw| != 4 then Err(InvalidStream(raw))
    else Ok(StreamKey(raw[0], raw[1], raw[2], raw[3]))
  }

  /**
   * An event as the caller sent it must have exactly four components: three
   * numbers and an origin time.
   */
  function ParseEvent(raw: seq<Field>): (r: Result<Event, Error>)
    ensures r.Ok? <==> |raw| == 4 && raw[0].Number? && raw[1].Number? && raw[2].Number? && raw[3].Timestamp?
    ensures r.Ok? ==> raw == [Number(r.value.lat), Number(r.value.lon), Number(r.value.depth), Timestamp(r.value.time)]
    ensures r.Err? ==> r.error == InvalidEvent(raw)
  {
    if |raw| != 4 then Err(InvalidEvent(raw))
    else if raw[0].Number? && raw[1].Number? && raw[2].Number? && raw[3].Timestamp? then
      Ok(Event(raw[0].x, raw[1].x, raw[2].x, raw[3].t))
    else Err(InvalidEvent(raw))
  }
}
