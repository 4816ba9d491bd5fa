/**
 * The parameter-set check of the time-window endpoint: explicit mode takes
 * exactly the window parameters, event-relative mode exactly the five event
 * parameters, and the two never mix.
 */
module Dispatch {
  import opened Types

  datatype Mode = Tw | Ev

  const TwParams: set<string> := {"start", "end"}
  const EvParams: set<string> := {"events", "startphase", "startoffset", "endphase", "endoffset"}

  /** How many of `names` the request supplies (each parameter name occurs once). */
  function Count(params: set<string>, names: set<string>): nat
  {
    |params * names|
  }

  /**
   * The mode a request selects, from the names of the parameters it
   * supplies: without streams the request is "missing streams", and with
   * streams every rejected set is "invalid set of parameters".
   */
  function SelectMode(params: set<string>): (r: Result<Mode, Error>)
    ensures "streams" !in params ==> r == Err(MissingStreams)
    ensures "streams" in params && r.Err? ==> r == Err(InvalidParameterSet)
  {
    if "streams" !in params then Err(MissingStreams)
    else if Count(params, TwParams) == |TwParams| && Count(params, EvParams) == 0 then Ok(Tw)
    else if Count(params, EvParams) == |EvParams| && Count(params, TwParams) == 0 then Ok(Ev)
    else Err(InvalidParameterSet)
  }

  /** Supplying as many of `names` as there are means supplying all of them. */
  lemma CountAll(params: set<string>, names: set<string>)
    ensures Count(params, names) == |names| <==> names <= params
  {
    var common := params * names;
    if names <= params {
      assert common == names;
    }
    if |common| == |names| {
      var rest := names - common;
      assert names == common + rest && common !! rest;
      assert |names| == |common| + |rest|;
      assert rest == {};
      assert names <= params;
    }
  }

  lemma CountNone(params: set<string>, names: set<string>)
    ensures Count(params, names) == 0 <==> forall n :: n in names ==> n !in params
  {
    if Count(params, names) != 0 {
      var n :| n in params * names;
    } else {
      assert params * names == {};
      forall n | n in names ensures n !in params {
        assert n in params ==> n in params * names;
      }
    }
  }

  /**
   * Explicit mode is chosen exactly when streams, start and end are all
   * present and none of the five event parameters is.
   */
  lemma SelectsExplicit(params: set<string>)
    ensures SelectMode(params) == Ok(Tw) <==>
      "streams" in params && "start" in params && "end" in params && forall n :: n in EvParams ==> n !in params
  {
    CountAll(params, TwParams);
    CountNone(params, EvParams);
  }

  /**
   * Event-relative mode is chosen exactly when streams and all five event
   * parameters are present and neither start nor end is.
   */
  lemma SelectsEventRelative(params: set<string>)
    ensures SelectMode(params) == Ok(Ev) <==>
      "streams" in params && EvParams <= params && "start" !in params && "end" !in params
  {
    CountAll(params, EvParams);
    CountNone(params, TwParams);
    CountAll(params, TwParams);
    CountNone(params, EvParams);
    if SelectMode(params) == Ok(Ev) {
      assert !(TwParams <= params);
    }
  }

  /** Every other combination with streams present is an invalid parameter set. */
  lemma RejectsMixtures(params: set<string>)
    requires "streams" in params
    requires "start" in params || "end" in params
    requires exists n :: n in EvParams && n in params
    ensures SelectMode(params) == Err(InvalidParameterSet)
  {
    SelectsExplicit(params);
    SelectsEventRelative(params);
  }
}
