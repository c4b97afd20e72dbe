/** The Previous/Next buttons under a form step. Previous steps back with
    no checks; Next first validates the step's section and only advances
    when it is complete. Neither touches the field map: an outcome carries
    only the new step or the message to show. */
module Navigation {
  import opened Common
  import Config
  import FormValidation

  /** The section shown at steps 1 to 4, in step order. */
  const StepNames: seq<string> := ["company_overview", "marketing_details", "competitor_info", "financial_overview"]

  lemma StepNamesAreSections()
    ensures StepNames == Config.SectionNames()
  {
    Config.SectionNamesInOrder();
  }

  /** The button clicked on this run, if any (one click per run). */
  datatype Button = NoButton | PreviousButton | NextButton

  datatype NavOutcome =
    | Stay                                   // no button, or one that is not shown
    | Moved(step: int)                       // the step changes and the page reruns
    | Rejected(section: string, message: string)  // Next on an incomplete section
    | IndexError                             // `step_names[...]` out of range

  /** `step_names[step - 1]` with Python list indexing: an index from -4 to
      -1 counts from the end, any other index outside 0..3 raises. */
  function StepName(step: int): (r: Option<string>)
    ensures r.Some? <==> -3 <= step <= 4
    ensures 1 <= step <= 4 ==> r == Some(StepNames[step - 1])
    ensures r.Some? ==> r.value in StepNames
  {
    var i := step - 1;
    if 0 <= i < |StepNames| then Some(StepNames[i])
    else if -|StepNames| <= i < 0 then Some(StepNames[|StepNames| + i])
    else None
  }

  /** Previous is shown only above step 1. */
  predicate ShowsPrevious(step: int) { step > 1 }

  /** Next is shown only below step 5. */
  predicate ShowsNext(step: int) { step < 5 }

  /** `render_navigation_buttons` for the clicked button. */
  function Navigate(step: int, fm: FieldMap, button: Button): (r: NavOutcome)
    ensures button == NoButton ==> r == Stay
    ensures button == PreviousButton ==> r == (if ShowsPrevious(step) then Moved(step - 1) else Stay)
    ensures button == NextButton && !ShowsNext(step) ==> r == Stay
    ensures button == NextButton && 1 <= step <= 4 ==>
      var name := StepNames[step - 1];
      var v := FormValidation.ValidateSection(name, fm);
      (r.Moved? <==> v.0) &&
      (r.Moved? ==> r.step == step + 1) &&
      (!r.Moved? ==> r == Rejected(name, FormValidation.ValidationMessage([(name, v.1)])) && r.message != [])
    ensures r.IndexError? <==> button == NextButton && step < -3
  {
    match button
    case NoButton => Stay
    case PreviousButton => if ShowsPrevious(step) then Moved(step - 1) else Stay
    case NextButton =>
      if !ShowsNext(step) then Stay
      else
        match StepName(step)
        case None => IndexError
        case Some(name) =>
          var v := FormValidation.ValidateSection(name, fm);
          if v.0 then Moved(step + 1) else Rejected(name, FormValidation.ValidationMessage([(name, v.1)]))
  }

  /** The step after the outcome. */
  function NextStep(step: int, outcome: NavOutcome): int {
    if outcome.Moved? then outcome.step else step
  }

  /** From a step in 1..5 every transition stays in 1..5, moves by at most
      one, and never raises. */
  lemma StepStaysInRange(step: int, fm: FieldMap, button: Button)
    requires 1 <= step <= 5
    ensures 1 <= NextStep(step, Navigate(step, fm, button)) <= 5
    ensures var n := NextStep(step, Navigate(step, fm, button)); n == step || n == step - 1 || n == step + 1
    ensures !Navigate(step, fm, button).IndexError?
  {
  }

  /** Previous, then Next on the same (complete) form, returns to the
      original step; Next then Previous does too. */
  lemma PreviousThenNext(step: int, fm: FieldMap)
    requires 1 < step <= 5
    requires FormValidation.ValidateSection(StepNames[step - 2], fm).0
    ensures Navigate(step, fm, PreviousButton) == Moved(step - 1)
    ensures Navigate(step - 1, fm, NextButton) == Moved(step)
  {
  }

  lemma NextThenPrevious(step: int, fm: FieldMap)
    requires 1 <= step <= 4
    requires FormValidation.ValidateSection(StepNames[step - 1], fm).0
    ensures Navigate(step, fm, NextButton) == Moved(step + 1)
    ensures Navigate(step + 1, fm, PreviousButton) == Moved(step)
  {
  }

  /** Below step 1 the negative index still names a section: step 0 checks
      the financial section and step -3 the company section; from step -4
      down Next raises. */
  lemma NegativeStepIndexing()
    ensures StepName(0) == Some("financial_overview")
    ensures StepName(-3) == Some("company_overview")
    ensures StepName(-4).None?
  {
  }
}
