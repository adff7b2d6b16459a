/**
 * The status stepper: how the lifecycle is drawn for a report's current status
 * (which steps are completed, which one is current, which connectors are
 * filled), and what a click on a step requests.
 */
module Stepper {
  import opened Base
  import opened Types

  /** `findIndex` over the step keys: the first matching position, or -1. */
  function FindStep(steps: seq<Step>, status: ReportStatus): (k: int)
    ensures -1 <= k < |steps|
    ensures k >= 0 ==> steps[k].key == status && forall i :: 0 <= i < k ==> steps[i].key != status
    ensures k == -1 <==> forall i :: 0 <= i < |steps| ==> steps[i].key != status
  {
    if |steps| == 0 then -1
    else if steps[0].key == status then 0
    else
      var k := FindStep(steps[1..], status);
      if k == -1 then -1 else k + 1
  }

  /** `currentIdx` for a status. */
  function CurrentIndex(status: ReportStatus): int {
    FindStep(StatusSteps, status)
  }

  /** Every status is found, at its lifecycle position. */
  lemma CurrentIndexFound(status: ReportStatus)
    ensures CurrentIndex(status) == StatusIndex(status)
  {
    StatusStepsShape();
  }

  /**
   * How one step is drawn.  `connector` is the line under the step: absent on
   * the last step and in the horizontal layout, otherwise filled or not.
   */
  datatype StepView = StepView(key: ReportStatus, completed: bool, current: bool, connector: Option<bool>)

  function ViewStep(idx: nat, currentIdx: int, vertical: bool): (v: StepView)
    requires idx < |StatusSteps|
    ensures v.key == StatusSteps[idx].key
    ensures v.current ==> v.completed
    ensures v.connector.None? <==> !vertical || idx == |StatusSteps| - 1
    ensures v.connector == Some(true) ==> v.completed && !v.current
  {
    var isCompleted := idx <= currentIdx;
    var isCurrent := idx == currentIdx;
    var isLast := idx == |StatusSteps| - 1;
    StepView(StatusSteps[idx].key, isCompleted, isCurrent,
             if vertical && !isLast then Some(isCompleted && idx < currentIdx) else None)
  }

  /** The stepper for a given `currentIdx`: one view per step, in lifecycle order. */
  function Render(currentIdx: int, vertical: bool): (views: seq<StepView>)
    ensures |views| == |StatusSteps|
    ensures forall i :: 0 <= i < |views| ==> views[i].key == StatusSteps[i].key
  {
    seq(|StatusSteps|, i requires 0 <= i < |StatusSteps| => ViewStep(i, currentIdx, vertical))
  }

  /**
   * For a report's status, a step is completed exactly when it does not come
   * after that status in the lifecycle; the completed steps are a prefix.
   */
  lemma CompletedIsPrefix(status: ReportStatus, vertical: bool)
    ensures var views := Render(CurrentIndex(status), vertical);
      && (forall i :: 0 <= i < |views| ==>
            (views[i].completed <==> StatusIndex(views[i].key) <= StatusIndex(status)))
      && (forall i, j :: 0 <= i <= j < |views| && views[j].completed ==> views[i].completed)
      && views[StatusIndex(status)].completed
      && (forall i :: StatusIndex(status) < i < |views| ==> !views[i].completed)
  {
    CurrentIndexFound(status);
    StatusStepsShape();
    var views := Render(CurrentIndex(status), vertical);
    var k := StatusIndex(status);
    forall i | 0 <= i < |views|
      ensures views[i].completed <==> i <= k
      ensures StatusIndex(views[i].key) == i
    {
      assert views[i] == ViewStep(i, k, vertical);
    }
  }

  /** Exactly one step is current, the status's own, and it is also completed. */
  lemma ExactlyOneCurrent(status: ReportStatus, vertical: bool)
    ensures var views := Render(CurrentIndex(status), vertical);
      && (forall i :: 0 <= i < |views| ==> (views[i].current <==> views[i].key == status))
      && (forall i, j :: 0 <= i < |views| && 0 <= j < |views| && views[i].current && views[j].current ==> i == j)
      && (exists i :: 0 <= i < |views| && views[i].current && views[i].completed)
  {
    CurrentIndexFound(status);
    StatusStepsShape();
    var views := Render(CurrentIndex(status), vertical);
    var k := StatusIndex(status);
    forall i | 0 <= i < |views|
      ensures views[i].current <==> i == k
      ensures views[i].key == status <==> i == k
    {
      assert views[i] == ViewStep(i, k, vertical);
      assert StatusIndex(StatusSteps[i].key) == i;
    }
    assert views[k].current && views[k].completed;
  }

  /**
   * In the vertical layout the connector under a step is filled exactly when the
   * step lies strictly before the current one; the last step never has one, and
   * the horizontal layout draws none.
   */
  lemma Connectors(currentIdx: int, vertical: bool)
    ensures var views := Render(currentIdx, vertical);
      && views[|views| - 1].connector == None
      && (forall i :: 0 <= i < |views| - 1 ==>
            views[i].connector == if vertical then Some(i < currentIdx) else None)
      && (forall i :: 0 <= i < |views| && views[i].connector == Some(true) ==> views[i].completed && !views[i].current)
  {
  }

  /** A status outside the step list (index -1) leaves every step neither completed nor current. */
  lemma NotFoundShowsNothing(vertical: bool)
    ensures forall v :: v in Render(-1, vertical) ==> !v.completed && !v.current
  {
  }

  /** A click requests the step's own status, but only on an interactive stepper with a callback. */
  function Click(interactive: bool, hasCallback: bool, idx: nat): (request: Option<ReportStatus>)
    requires idx < |StatusSteps|
    ensures request.Some? <==> interactive && hasCallback
    ensures request.Some? ==> request.value == StatusSteps[idx].key
  {
    if interactive && hasCallback then Some(StatusSteps[idx].key) else None
  }

  /**
   * Clicks carry no adjacency or direction check: from any current status every
   * status, earlier ones included, can be requested.
   */
  lemma AnyStatusCanBeRequested(target: ReportStatus)
    ensures Click(true, true, StatusIndex(target)) == Some(target)
  {
  }
}
