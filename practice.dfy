/** The step-completion tracker of a practice guide: a set of completed step
    ids toggled one at a time, one expanded step (or none), and the share of
    completed steps shown as a progress bar. */
module Practice {
  import opened Wrappers

  /** A step of the guide; its content and duration label are only rendered. */
  datatype PracticeStep = PracticeStep(id: string, title: string, optional: bool)

  /** The ids of the steps, as a set. */
  function StepIds(steps: seq<PracticeStep>): (ids: set<string>)
    ensures forall i :: 0 <= i < |steps| ==> steps[i].id in ids
    ensures forall id :: id in ids ==> exists i :: 0 <= i < |steps| && steps[i].id == id
  {
    if |steps| == 0 then {}
    else
      var rest := StepIds(steps[1..]);
      assert forall i :: 1 <= i < |steps| ==> steps[i] == steps[1..][i - 1];
      {steps[0].id} + rest
  }

  /** No two steps share an id (the id is the step's rendering key). */
  predicate DistinctIds(steps: seq<PracticeStep>)
  {
    forall i, j :: 0 <= i < j < |steps| ==> steps[i].id != steps[j].id
  }

  /** There are never more distinct ids than steps, and exactly as many when
      the ids are distinct. */
  lemma {:induction false} StepIdsCount(steps: seq<PracticeStep>)
    ensures |StepIds(steps)| <= |steps|
    ensures DistinctIds(steps) ==> |StepIds(steps)| == |steps|
  {
    if |steps| > 0 {
      var rest := steps[1..];
      StepIdsCount(rest);
      assert StepIds(steps) == {steps[0].id} + StepIds(rest);
      if DistinctIds(steps) {
        assert DistinctIds(rest) by {
          forall i, j | 0 <= i < j < |rest| ensures rest[i].id != rest[j].id {
            assert rest[i] == steps[i + 1] && rest[j] == steps[j + 1];
          }
        }
        assert steps[0].id !in StepIds(rest);
      }
    }
  }

  /** `toggleStep`'s change to the completed set: remove the id when present,
      add it when absent. */
  function Toggle(completed: set<string>, id: string): (r: set<string>)
    ensures id in r <==> id !in completed
    ensures forall other :: other != id ==> (other in r <==> other in completed)
  {
    if id in completed then completed - {id} else completed + {id}
  }

  /** Toggling the same id twice restores the set. */
  lemma ToggleTwice(completed: set<string>, id: string)
    ensures Toggle(Toggle(completed, id), id) == completed
  {
  }

  /** Each toggle changes the number of completed steps by exactly one. */
  lemma ToggleCount(completed: set<string>, id: string)
    ensures |Toggle(completed, id)| == if id in completed then |completed| - 1 else |completed| + 1
  {
  }

  /** Toggling an id of the steps keeps the completed set within the step ids. */
  lemma ToggleWithinSteps(completed: set<string>, id: string, steps: seq<PracticeStep>)
    requires completed <= StepIds(steps) && id in StepIds(steps)
    ensures Toggle(completed, id) <= StepIds(steps)
  {
  }

  /** `progressPercentage`: the completed share of the steps, in percent, as
      an exact rational. */
  function Progress(done: nat, total: nat): (r: real)
    requires total > 0
    ensures 0.0 <= r
    ensures done <= total ==> r <= 100.0
    ensures r == 100.0 <==> done == total
  {
    ShareBounds(done as real, total as real);
    (done as real / total as real) * 100.0
  }

  lemma ShareBounds(d: real, t: real)
    requires d >= 0.0 && t > 0.0
    ensures 0.0 <= d / t
    ensures d <= t ==> d / t <= 1.0
    ensures d / t == 1.0 <==> d == t
  {
    var q := d / t;
    assert q * t == d;
    if q > 1.0 {
      assert q * t > t;
    }
    if q < 1.0 {
      assert q * t < t;
    }
  }

  /** With completed ids drawn from the steps, progress lies in [0, 100]. */
  lemma ProgressBounded(completed: set<string>, steps: seq<PracticeStep>)
    requires |steps| > 0 && completed <= StepIds(steps)
    ensures 0.0 <= Progress(|completed|, |steps|) <= 100.0
  {
    StepIdsCount(steps);
    var ids := StepIds(steps);
    assert |ids - completed| == |ids| - |completed|;
    assert |completed| <= |steps|;
  }

  /** With distinct ids, progress is 100 exactly when every step is completed. */
  lemma FullProgressIffAllCompleted(completed: set<string>, steps: seq<PracticeStep>)
    requires |steps| > 0 && completed <= StepIds(steps)
    ensures DistinctIds(steps) ==> (Progress(|completed|, |steps|) == 100.0 <==> completed == StepIds(steps))
  {
    StepIdsCount(steps);
    var ids := StepIds(steps);
    if DistinctIds(steps) && |completed| == |steps| {
      assert |ids - completed| == |ids| - |completed| == 0;
      assert ids - completed == {};
    }
  }

  /** The expanded slot holds one id or none, so with distinct ids at most one
      step is expanded. */
  lemma AtMostOneExpanded(steps: seq<PracticeStep>, expanded: Option<string>, i: nat, j: nat)
    requires DistinctIds(steps) && i < |steps| && j < |steps|
    requires expanded == Some(steps[i].id) && expanded == Some(steps[j].id)
    ensures i == j
  {
  }

  /** Three steps "a", "b", "c": completing "a" and "b" gives two thirds;
      toggling "a" again leaves one third. */
  lemma ThreeStepExample()
    ensures var steps := [PracticeStep("a", "", false), PracticeStep("b", "", false), PracticeStep("c", "", false)];
      var two := Toggle(Toggle({}, "a"), "b");
      && Progress(|two|, |steps|) == 200.0 / 3.0
      && Progress(|Toggle(two, "a")|, |steps|) == 100.0 / 3.0
  {
    var two := Toggle(Toggle({}, "a"), "b");
    assert two == {"a", "b"};
    assert Toggle(two, "a") == {"b"};
  }

  class PracticeGuide {
    const steps: seq<PracticeStep>
    var completedSteps: set<string>
    var expandedStep: Option<string>

    /** Completed and expanded ids are ids of the steps: the handlers are
        only ever called with the id of a rendered step. */
    ghost predicate Valid()
      reads this
    {
      && completedSteps <= StepIds(steps)
      && (expandedStep.Some? ==> expandedStep.value in StepIds(steps))
    }

    /** Nothing completed; the first step is expanded, except when there is
        no step or the first id is the empty string, which `||` reads as
        absent. */
    constructor (steps: seq<PracticeStep>)
      ensures Valid() && this.steps == steps
      ensures completedSteps == {}
      ensures |steps| > 0 && steps[0].id != "" ==> expandedStep == Some(steps[0].id)
      ensures |steps| == 0 || steps[0].id == "" ==> expandedStep == None
    {
      this.steps := steps;
      completedSteps := {};
      expandedStep := if |steps| > 0 && steps[0].id != "" then Some(steps[0].id) else None;
    }

    method ToggleStep(id: string)
      modifies this
      ensures completedSteps == Toggle(old(completedSteps), id)
      ensures expandedStep == old(expandedStep)
      ensures old(Valid()) && id in StepIds(steps) ==> Valid()
    {
      var newSet := completedSteps;
      if id in newSet {
        newSet := newSet - {id};
      } else {
        newSet := newSet + {id};
      }
      completedSteps := newSet;
    }

    method ToggleExpanded(id: string)
      modifies this
      ensures expandedStep == if old(expandedStep) == Some(id) then None else Some(id)
      ensures completedSteps == old(completedSteps)
      ensures old(Valid()) && id in StepIds(steps) ==> Valid()
    {
      expandedStep := if expandedStep == Some(id) then None else Some(id);
    }

    /** The check button of step `i`: the click toggles completion and does
        not reach the header, so the expanded step is kept. */
    method ClickCheckbox(i: nat)
      requires Valid() && i < |steps|
      modifies this
      ensures Valid()
      ensures completedSteps == Toggle(old(completedSteps), steps[i].id)
      ensures expandedStep == old(expandedStep)
    {
      ToggleStep(steps[i].id);
    }

    /** The header of step `i`: expands it, or collapses it when expanded. */
    method ClickHeader(i: nat)
      requires Valid() && i < |steps|
      modifies this
      ensures Valid()
      ensures expandedStep == if old(expandedStep) == Some(steps[i].id) then None else Some(steps[i].id)
      ensures completedSteps == old(completedSteps)
    {
      ToggleExpanded(steps[i].id);
    }

    /** The progress bar's width, in percent. */
    function ProgressPercentage(): (r: real)
      reads this
      requires Valid() && |steps| > 0
      ensures 0.0 <= r <= 100.0
      ensures DistinctIds(steps) ==> (r == 100.0 <==> completedSteps == StepIds(steps))
    {
      ProgressBounded(completedSteps, steps);
      FullProgressIffAllCompleted(completedSteps, steps);
      Progress(|completedSteps|, |steps|)
    }
  }
}
