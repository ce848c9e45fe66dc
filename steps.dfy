/** `FormStepsManager`: the four-step sequencer that owns the current step, the
    form's fields and the rendered summary. Each transition is atomic here;
    the animation delay before it takes effect is not modelled. */
module Steps {
  import opened Form
  import opened Summary
  import opened Submission

  /** The ids of the step sections, in order; the last one is the summary. */
  const StepIds: seq<string> := ["contact_info", "service_info", "payment_info", "summary_info"]

  /** `updateProgress`: the width of the progress bar, in percent, while step
      `step` of `count` is shown. */
  function ProgressPercent(step: int, count: int): (p: real)
    requires 0 <= step < count
    ensures 0.0 < p <= 100.0
    ensures p == 100.0 <==> step == count - 1
  {
    (step + 1) as real / count as real * 100.0
  }

  /** A later step always shows a longer bar. */
  lemma ProgressIncreases(a: int, b: int, count: int)
    requires 0 <= a < b < count
    ensures ProgressPercent(a, count) < ProgressPercent(b, count)
  {
    var c := count as real;
    assert (a + 1) as real / c < (b + 1) as real / c;
  }

  class FormStepsManager {
    const steps: seq<string>
    var currentStep: int
    var fields: seq<Field>
    /** The rendered summary; empty while nothing is shown. */
    var summary: seq<Section>

    ghost predicate Valid()
      reads this
    {
      steps == StepIds && 0 <= currentStep < |steps|
    }

    /** The constructor followed by `init`, whose only effect on the model is
        the first run of the visibility rule. */
    constructor (fields0: seq<Field>)
      ensures Valid()
      ensures currentStep == 0 && fields == WithVisibility(fields0) && summary == []
    {
      steps := StepIds;
      currentStep := 0;
      fields := fields0;
      summary := [];
      new;
      UpdateFieldVisibility();
    }

    /** The progress bar's width for the current step. */
    function Progress(): (p: real)
      reads this
      requires Valid()
      ensures 0.0 < p <= 100.0
      ensures p == 100.0 <==> currentStep == |steps| - 1
    {
      ProgressPercent(currentStep, |steps|)
    }

    /** `updateFieldVisibility`. */
    method UpdateFieldVisibility()
      modifies this
      ensures fields == WithVisibility(old(fields))
      ensures currentStep == old(currentStep) && summary == old(summary)
    {
      fields := WithVisibility(fields);
    }

    /** `validateStep(k)`: the verdict, with the markers of step `k` updated. */
    method ValidateStep(k: int) returns (isValid: bool)
      requires Valid() && 0 <= k < |steps|
      modifies this
      ensures Valid()
      ensures isValid <==> StepValid(old(fields), k)
      ensures fields == Flagged(old(fields), k)
      ensures currentStep == old(currentStep) && summary == old(summary)
    {
      var marked;
      isValid, marked := ValidateFields(fields, k);
      fields := marked;
    }

    /** `populateSummary`: replaces the summary when every read succeeds; when
        one fails (the code throws) the summary stays as it was. */
    method PopulateSummary()
      modifies this
      ensures summary == Populated(old(fields), old(summary))
      ensures currentStep == old(currentStep) && fields == old(fields)
    {
      summary := Populated(fields, summary);
    }

    /** `nextStep`: validates the current step (updating its markers); moves
        on only when it is valid and not the last one, and builds the summary
        on arriving at the last step. */
    method NextStep()
      requires Valid()
      modifies this
      ensures Valid()
      ensures fields == Flagged(old(fields), old(currentStep))
      ensures currentStep ==
        if StepValid(old(fields), old(currentStep)) && old(currentStep) < |steps| - 1
        then old(currentStep) + 1 else old(currentStep)
      ensures summary ==
        if currentStep == |steps| - 1 && old(currentStep) != currentStep
        then Populated(fields, old(summary)) else old(summary)
    {
      var valid := ValidateStep(currentStep);
      if !valid {
        return;
      }
      if currentStep < |steps| - 1 {
        currentStep := currentStep + 1;
        if currentStep == |steps| - 1 {
          PopulateSummary();
        }
      }
    }

    /** `prevStep`: one step back unless already on the first. */
    method PrevStep()
      requires Valid()
      modifies this
      ensures Valid()
      ensures currentStep == if old(currentStep) > 0 then old(currentStep) - 1 else old(currentStep)
      ensures fields == old(fields) && summary == old(summary)
    {
      if currentStep > 0 {
        currentStep := currentStep - 1;
      }
    }

    /** `goToStep(target)`, the summary's edit buttons: an unconditional jump,
        without validation and without rebuilding the summary. */
    method GoToStep(target: int)
      requires Valid() && 0 <= target < |steps|
      modifies this
      ensures Valid()
      ensures currentStep == target
      ensures fields == old(fields) && summary == old(summary)
    {
      currentStep := target;
    }

    /** `resetForm`, the clear button: restores the default entries, returns
        to the first step, re-applies the visibility rule and empties the
        summary. Error markers are not cleared. */
    method ResetForm()
      requires Valid()
      modifies this
      ensures Valid()
      ensures currentStep == 0
      ensures fields == WithVisibility(ResetValues(old(fields)))
      ensures summary == []
    {
      fields := ResetValues(fields);
      currentStep := 0;
      UpdateFieldVisibility();
      summary := [];
    }

    /** `submitForm`: sends the payload; on success only the entries are reset
        (`form.reset()`), the step, the visibility and the summary stay. The
        result stands for which of the two alerts is shown. */
    method SubmitForm(reply: HttpReply) returns (success: bool)
      requires Valid()
      modifies this
      ensures Valid()
      ensures success <==>
        (exists i :: 0 <= i < |old(fields)| && (Contributes(old(fields)[i]) || CheckedRadio(old(fields)[i])))
        && SendToWebhook(reply).Ok?
      ensures fields == if success then ResetValues(old(fields)) else old(fields)
      ensures currentStep == old(currentStep) && summary == old(summary)
    {
      var sent;
      success, sent := SubmitFormData(fields, reply);
      if success {
        fields := ResetValues(fields);
      }
    }
  }

  /** The summary's edit buttons always satisfy `GoToStep`'s precondition. */
  lemma EditTargetsAreSteps(s: SummaryInput)
    ensures forall i :: 0 <= i < |BuildSummary(s)| ==> 0 <= BuildSummary(s)[i].editStep < |StepIds|
  {
    EditTargetsInRange(s);
  }
}
