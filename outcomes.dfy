/** Values and failures shared by every part of the model, and the one control
    shape the script uses twice: a `for` loop that appends one value per item
    to a list and is cut short by the first exception an item raises. */
module Outcomes {

  datatype Option<+T> = None | Some(value: T)

  /** A Python computation that either returns a value or raises `error`. */
  datatype Result<+T, +E> = Ok(value: T) | Err(error: E)

  /** Runs the steps in order, appending each value; the first failing step
      ends the whole run with its error. */
  function Sequence<T, E>(steps: seq<Result<T, E>>): (r: Result<seq<T>, E>)
    ensures r.Ok? ==> |r.value| == |steps|
    decreases |steps|
  {
    if |steps| == 0 then Ok([])
    else
      match Sequence(steps[..|steps| - 1])
      case Err(e) => Err(e)
      case Ok(done) =>
        match steps[|steps| - 1]
        case Err(e) => Err(e)
        case Ok(x) => Ok(done + [x])
  }

  /** The run succeeds exactly when every step does, and then it holds the
      steps' values in their order. */
  lemma {:induction false} SequenceOk<T, E>(steps: seq<Result<T, E>>)
    ensures Sequence(steps).Ok? <==> forall i :: 0 <= i < |steps| ==> steps[i].Ok?
    ensures Sequence(steps).Ok? ==>
      forall i :: 0 <= i < |steps| ==> Sequence(steps).value[i] == steps[i].value
    decreases |steps|
  {
    if |steps| > 0 {
      var front := steps[..|steps| - 1];
      SequenceOk(front);
      assert forall i :: 0 <= i < |front| ==> front[i] == steps[i];
    }
  }

  /** A failing step fails the whole run with its own error when every step
      before it succeeded. */
  lemma {:induction false} SequenceFirstError<T, E>(steps: seq<Result<T, E>>, i: nat)
    requires i < |steps| && steps[i].Err?
    requires forall j :: 0 <= j < i ==> steps[j].Ok?
    ensures Sequence(steps) == Err(steps[i].error)
    decreases |steps|
  {
    var front := steps[..|steps| - 1];
    if i < |steps| - 1 {
      SequenceFirstError(front, i);
    } else {
      SequenceOk(front);
    }
  }

  /** Conversely, a failed run names the error of its first failing step. */
  lemma {:induction false} SequenceErrorWitness<T, E>(steps: seq<Result<T, E>>)
    requires Sequence(steps).Err?
    ensures exists i :: 0 <= i < |steps| && steps[i].Err? && steps[i].error == Sequence(steps).error &&
                        forall j :: 0 <= j < i ==> steps[j].Ok?
    decreases |steps|
  {
    var front := steps[..|steps| - 1];
    if Sequence(front).Err? {
      SequenceErrorWitness(front);
      var i :| 0 <= i < |front| && front[i].Err? && front[i].error == Sequence(front).error &&
               forall j :: 0 <= j < i ==> front[j].Ok?;
      assert steps[i] == front[i];
      assert forall j :: 0 <= j < i ==> steps[j] == front[j];
    } else {
      SequenceOk(front);
      assert forall j :: 0 <= j < |front| ==> steps[j] == front[j];
    }
  }

  /** Once a prefix of the steps has failed, later steps change nothing: this
      is the early exit of the loop. */
  lemma {:induction false} SequenceStopsAtError<T, E>(steps: seq<Result<T, E>>, k: nat)
    requires k <= |steps| && Sequence(steps[..k]).Err?
    ensures Sequence(steps) == Sequence(steps[..k])
    decreases |steps| - k
  {
    if k < |steps| {
      var front := steps[..|steps| - 1];
      assert front[..k] == steps[..k];
      SequenceStopsAtError(front, k);
    } else {
      assert steps[..k] == steps;
    }
  }

  /** One more loop iteration: the run over one more step extends the run over
      the ones before it. */
  lemma SequenceStep<T, E>(steps: seq<Result<T, E>>, k: nat)
    requires k < |steps|
    ensures Sequence(steps[..k + 1]) ==
      match Sequence(steps[..k])
      case Err(e) => Err(e)
      case Ok(done) =>
        match steps[k]
        case Err(e) => Err(e)
        case Ok(x) => Ok(done + [x])
  {
    assert steps[..k + 1][..k] == steps[..k];
  }
}
