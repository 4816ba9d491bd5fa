/**
 * Phase selection: which predicted arrival anchors a requested "P" or "S"
 * phase at a given event-station distance.
 */
module Phases {
  import opened Types

  /** Names that count as a "P" arrival. */
  const PFamily: set<string> := {"P", "Pg", "Pb", "Pn", "Pdif", "Pdiff"}

  /** Names that count as an "S" arrival (besides every name starting with "SKS"). */
  const SFamily: set<string> := {"S", "Sg", "Sb", "Sn", "Sdif", "Sdiff"}

  /** From this distance (degrees) on, core phases arrive before direct P. */
  const DeltaThreshold: real := 120.0

  predicate StartsWith(s: string, prefix: string)
  {
    prefix <= s
  }

  /** A core phase: the names a far "P" request accepts. */
  predicate IsCorePhase(name: string)
  {
    StartsWith(name, "PKP") || StartsWith(name, "PKiKP")
  }

  /**
   * Does the arrival named `ttphase` belong to the family of the requested
   * `phase`? Only "P" and "S" may be requested.
   */
  function IsPhase(ttphase: string, phase: string): (r: Result<bool, Error>)
    ensures r.Err? <==> phase != "P" && phase != "S"
    ensures r.Err? ==> r.error == WrongPhase
    ensures r == Ok(true) ==> (phase == "P" && ttphase in PFamily) || (phase == "S" && (ttphase in SFamily || StartsWith(ttphase, "SKS")))
    ensures r == Ok(false) ==> (phase == "P" && ttphase !in PFamily) || (phase == "S" && ttphase !in SFamily && !StartsWith(ttphase, "SKS"))
  {
    if phase == "P" then Ok(ttphase in PFamily)
    else if phase == "S" then Ok(ttphase in SFamily || StartsWith(ttphase, "SKS"))
    else Err(WrongPhase)
  }

  /** No arrival name belongs to both families. */
  lemma FamiliesDisjoint(name: string)
    ensures !(IsPhase(name, "P") == Ok(true) && IsPhase(name, "S") == Ok(true))
  {
    if IsPhase(name, "P") == Ok(true) {
      assert name[0] == 'P';
    }
  }

  /** A core phase is never in the "P" family: the far-distance rule cannot be expressed with IsPhase. */
  lemma CorePhaseOutsidePFamily(name: string)
    requires IsCorePhase(name)
    ensures IsPhase(name, "P") == Ok(false)
  {
    assert |name| >= 3 && name[1] == 'K';
  }

  /** The test an arrival must pass to anchor a request. */
  datatype Rule = CorePhases | Family(phase: string)

  /**
   * The rule for a requested phase at distance `delta`; None for a phase
   * other than "P" and "S", which the scan reports as an error.
   */
  function RuleFor(phase: string, delta: real): (r: Option<Rule>)
    ensures r.None? <==> phase != "P" && phase != "S"
    ensures r == Some(CorePhases) <==> phase == "P" && delta >= DeltaThreshold
    ensures phase == "S" || (phase == "P" && delta < DeltaThreshold) ==> r == Some(Family(phase))
  {
    if phase == "P" && delta >= DeltaThreshold then Some(CorePhases)
    else if phase == "S" || (phase == "P" && delta < DeltaThreshold) then Some(Family(phase))
    else None
  }

  predicate Matches(rule: Rule, name: string)
  {
    match rule
    case CorePhases => IsCorePhase(name)
    case Family(p) => IsPhase(name, p) == Ok(true)
  }

  /** The index of the first arrival that passes `rule`, in list order. */
  function FirstMatch(tts: seq<Arrival>, rule: Rule): (r: Option<nat>)
    ensures r.Some? ==> r.value < |tts| && Matches(rule, tts[r.value].phase)
    ensures r.Some? ==> forall j :: 0 <= j < r.value ==> !Matches(rule, tts[j].phase)
    ensures r.None? ==> forall j :: 0 <= j < |tts| ==> !Matches(rule, tts[j].phase)
  {
    if tts == [] then None
    else if Matches(rule, tts[0].phase) then Some(0)
    else match FirstMatch(tts[1..], rule)
      case None => None
      case Some(i) => Some(i + 1)
  }

  /** The outcome of scanning the arrival list for one requested phase. */
  datatype Anchor = Found(time: Time) | NotFound | Raised

  /**
   * The resolved time for a requested phase: origin time plus the travel
   * time of the first accepted arrival plus `offset` minutes. A phase other
   * than "P" and "S" raises, but only once there is an arrival to test.
   */
  function ResolveTime(tts: seq<Arrival>, phase: string, delta: real, evTime: Time, offset: int): (a: Anchor)
    ensures a.Raised? <==> tts != [] && phase != "P" && phase != "S"
    ensures a.Found? ==> exists i :: 0 <= i < |tts| && a.time == evTime + tts[i].time + offset * 60
  {
    if tts == [] then NotFound
    else match RuleFor(phase, delta)
      case None => Raised
      case Some(rule) =>
        match FirstMatch(tts, rule)
        case None => NotFound
        case Some(i) => Found(evTime + tts[i].time + offset * 60)
  }

  /** The anchor is the first arrival that passes the rule, whichever it is. */
  lemma ResolveTimeIsFirstMatch(tts: seq<Arrival>, phase: string, delta: real, evTime: Time, offset: int, i: nat)
    requires RuleFor(phase, delta).Some?
    requires i < |tts| && Matches(RuleFor(phase, delta).value, tts[i].phase)
    requires forall j :: 0 <= j < i ==> !Matches(RuleFor(phase, delta).value, tts[j].phase)
    ensures ResolveTime(tts, phase, delta, evTime, offset) == Found(evTime + tts[i].time + offset * 60)
  {
    var k := FirstMatch(tts, RuleFor(phase, delta).value);
    assert k.Some?;
    assert k.value == i;
  }

  /** Without any accepted arrival a valid phase stays unresolved. */
  lemma ResolveTimeNotFound(tts: seq<Arrival>, phase: string, delta: real, evTime: Time, offset: int)
    requires RuleFor(phase, delta).Some?
    ensures ResolveTime(tts, phase, delta, evTime, offset) == NotFound
        <==> forall j :: 0 <= j < |tts| ==> !Matches(RuleFor(phase, delta).value, tts[j].phase)
  {
    if tts != [] && !(forall j :: 0 <= j < |tts| ==> !Matches(RuleFor(phase, delta).value, tts[j].phase)) {
      var j :| 0 <= j < |tts| && Matches(RuleFor(phase, delta).value, tts[j].phase);
      assert FirstMatch(tts, RuleFor(phase, delta).value).Some?;
    }
  }

  /** At or beyond the threshold a "P" request is anchored only on a core phase. */
  lemma FarPAnchorsOnCorePhase(tts: seq<Arrival>, delta: real, evTime: Time, offset: int)
    requires delta >= DeltaThreshold
    ensures ResolveTime(tts, "P", delta, evTime, offset).Found? <==> exists i :: 0 <= i < |tts| && IsCorePhase(tts[i].phase)
  {
    if exists i :: 0 <= i < |tts| && IsCorePhase(tts[i].phase) {
      var i :| 0 <= i < |tts| && IsCorePhase(tts[i].phase);
      assert Matches(CorePhases, tts[i].phase);
    }
  }

  /** At or beyond the threshold a direct-P entry in front of the list is ignored. */
  lemma {:induction false} FarPIgnoresDirectP(name: string, t: int, tts: seq<Arrival>, delta: real, evTime: Time, offset: int)
    requires name in PFamily && delta >= DeltaThreshold
    ensures ResolveTime([Arrival(name, t)] + tts, "P", delta, evTime, offset) == ResolveTime(tts, "P", delta, evTime, offset)
  {
    var all := [Arrival(name, t)] + tts;
    assert all[1..] == tts;
    assert !IsCorePhase(name) by {
      if IsCorePhase(name) { CorePhaseOutsidePFamily(name); }
    }
  }

  /** Below the threshold a "P" request uses the "P" family; exactly 120 degrees is already far. */
  lemma ThresholdIsInclusive(delta: real)
    ensures RuleFor("P", delta) == (if delta < 120.0 then Some(Family("P")) else Some(CorePhases))
  {
  }

  predicate SortedByTime(tts: seq<Arrival>)
  {
    forall i, j :: 0 <= i <= j < |tts| ==> tts[i].time <= tts[j].time
  }

  /**
   * On a list sorted by travel time the first accepted arrival is the
   * earliest accepted one.
   */
  lemma FirstMatchIsEarliest(tts: seq<Arrival>, rule: Rule, j: nat)
    requires SortedByTime(tts)
    requires j < |tts| && Matches(rule, tts[j].phase)
    ensures FirstMatch(tts, rule).Some?
    ensures tts[FirstMatch(tts, rule).value].time <= tts[j].time
  {
  }
}
