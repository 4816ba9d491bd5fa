/**
 * Result accumulation under the request-size cap, shared by both resolvers:
 * each (event,) stream contributes a step that emits a row, skips, or fails
 * the request; rows are appended in order and the request fails as soon as
 * the list grows past `maxLines`.
 */
module Accumulate {
  import opened Types

  datatype Step = Emit(row: Row) | Skip | Fail(error: Error)

  /**
   * The outcome of processing `steps` in order, starting from the rows `acc`:
   * a success extends `acc` and stays within the cap; a failure is the error
   * of a failing step or RequestTooLarge.
   */
  function Run(acc: seq<Row>, steps: seq<Step>, maxLines: nat): (r: Result<seq<Row>, Error>)
    ensures r.Ok? ==> acc <= r.value
    ensures r.Ok? && |acc| <= maxLines ==> |r.value| <= maxLines
    ensures r.Err? ==> r.error == RequestTooLarge || Fail(r.error) in steps
    decreases |steps|
  {
    if steps == [] then Ok(acc)
    else match steps[0]
      case Fail(e) => Err(e)
      case Skip =>
        var r := Run(acc, steps[1..], maxLines);
        assert r.Err? && r.error != RequestTooLarge ==> Fail(r.error) in steps by {
          if r.Err? && r.error != RequestTooLarge { assert Fail(r.error) in steps[1..]; }
        }
        r
      case Emit(row) =>
        if |acc + [row]| > maxLines then Err(RequestTooLarge)
        else
          var r := Run(acc + [row], steps[1..], maxLines);
          assert r.Err? && r.error != RequestTooLarge ==> Fail(r.error) in steps by {
            if r.Err? && r.error != RequestTooLarge { assert Fail(r.error) in steps[1..]; }
          }
          r
  }

  /** The rows the steps emit, in order. */
  function Emitted(steps: seq<Step>): (rows: seq<Row>)
    ensures |rows| <= |steps|
  {
    if steps == [] then []
    else if steps[0].Emit? then [steps[0].row] + Emitted(steps[1..])
    else Emitted(steps[1..])
  }

  predicate NoFail(steps: seq<Step>)
  {
    forall i :: 0 <= i < |steps| ==> !steps[i].Fail?
  }

  /** Running a concatenation runs the first part, then the second from where it stopped. */
  lemma {:induction false} RunAppend(acc: seq<Row>, s1: seq<Step>, s2: seq<Step>, maxLines: nat)
    ensures Run(acc, s1 + s2, maxLines) ==
      match Run(acc, s1, maxLines)
      case Ok(rows) => Run(rows, s2, maxLines)
      case Err(e) => Err(e)
    decreases |s1|
  {
    if s1 != [] {
      assert (s1 + s2)[0] == s1[0];
      assert (s1 + s2)[1..] == s1[1..] + s2;
      match s1[0]
      case Fail(e) =>
      case Skip => RunAppend(acc, s1[1..], s2, maxLines);
      case Emit(row) => RunAppend(acc + [row], s1[1..], s2, maxLines);
    } else {
      assert s1 + s2 == s2;
    }
  }

  /**
   * All or nothing: when no step fails, the outcome is every emitted row
   * after `acc` if that fits under the cap, and RequestTooLarge otherwise;
   * never a truncated list.
   */
  lemma {:induction false} RunAllOrNothing(acc: seq<Row>, steps: seq<Step>, maxLines: nat)
    requires |acc| <= maxLines
    requires NoFail(steps)
    ensures Run(acc, steps, maxLines) ==
      if |acc| + |Emitted(steps)| <= maxLines then Ok(acc + Emitted(steps)) else Err(RequestTooLarge)
    decreases |steps|
  {
    if steps != [] {
      assert NoFail(steps[1..]) by {
        forall i | 0 <= i < |steps[1..]| ensures !steps[1..][i].Fail? {
          assert steps[1..][i] == steps[i + 1];
        }
      }
      assert !steps[0].Fail?;
      match steps[0]
      case Skip =>
        assert Emitted(steps) == Emitted(steps[1..]);
        assert Run(acc, steps, maxLines) == Run(acc, steps[1..], maxLines);
        RunAllOrNothing(acc, steps[1..], maxLines);
      case Emit(row) =>
        assert Emitted(steps) == [row] + Emitted(steps[1..]);
        if |acc + [row]| <= maxLines {
          RunAllOrNothing(acc + [row], steps[1..], maxLines);
          assert acc + [row] + Emitted(steps[1..]) == acc + Emitted(steps);
        }
    } else {
      assert acc + Emitted(steps) == acc;
    }
  }

  /** A failing step, once reached, fails the request. */
  lemma {:induction false} RunFailsOnFail(acc: seq<Row>, steps: seq<Step>, maxLines: nat, k: nat)
    requires k < |steps| && steps[k].Fail?
    ensures Run(acc, steps, maxLines).Err?
  {
    RunAppend(acc, steps[..k], steps[k..], maxLines);
    assert steps[..k] + steps[k..] == steps;
    match Run(acc, steps[..k], maxLines)
    case Ok(rows) => assert steps[k..][0] == steps[k];
    case Err(_) =>
  }

  /** With a cap of zero the first row fails the request. */
  lemma ZeroCapRejectsFirstRow(row: Row, steps: seq<Step>)
    ensures Run([], [Emit(row)] + steps, 0) == Err(RequestTooLarge)
  {
  }
}
