/** The sidebar: the API-key field, the five-step progress list and, once
    any answer is stored, a summary with the overall completion state. */
module Sidebar {
  import opened Common
  import Config
  import FormValidation
  import Sections

  /** How one step is shown in the progress list. */
  datatype Status = Complete | Current | Pending

  const StepLabels: seq<string> := ["Company Overview", "Marketing Details", "Competitor Information", "Financial Overview", "Generate Plan"]

  /** Step `i` (counted from 1) relative to the current step. */
  function StepStatus(i: int, step: int): Status {
    if i < step then Complete else if i == step then Current else Pending
  }

  /** The statuses of the first `n` steps. */
  function Statuses(n: nat, step: int): (r: seq<Status>)
    ensures |r| == n
    ensures forall i :: 0 <= i < n ==> r[i] == StepStatus(i + 1, step)
  {
    if n == 0 then [] else Statuses(n - 1, step) + [StepStatus(n, step)]
  }

  /** The progress list of the five steps. */
  function Progress(step: int): (r: seq<Status>)
    ensures |r| == |StepLabels|
    ensures forall i :: 0 <= i < |r| ==> (r[i] == Complete <==> i + 1 < step)
    ensures forall i :: 0 <= i < |r| ==> (r[i] == Current <==> i + 1 == step)
  {
    Statuses(|StepLabels|, step)
  }

  function Clamp(x: int, lo: int, hi: int): int {
    if x < lo then lo else if x > hi then hi else x
  }

  lemma {:induction false} StatusCounts(n: nat, step: int)
    ensures Count(Statuses(n, step), Complete) == Clamp(step - 1, 0, n)
    ensures Count(Statuses(n, step), Current) == (if 1 <= step <= n then 1 else 0)
    ensures Count(Statuses(n, step), Pending) == n - Clamp(step, 0, n)
  {
    if n > 0 {
      StatusCounts(n - 1, step);
      CountAppend(Statuses(n - 1, step), [StepStatus(n, step)], Complete);
      CountAppend(Statuses(n - 1, step), [StepStatus(n, step)], Current);
      CountAppend(Statuses(n - 1, step), [StepStatus(n, step)], Pending);
    }
  }

  /** For a step in 1..5 exactly one step is current, the `step - 1` before
      it are complete and the rest are pending. */
  lemma ProgressCounts(step: int)
    requires 1 <= step <= 5
    ensures Count(Progress(step), Current) == 1
    ensures Count(Progress(step), Complete) == step - 1
    ensures Count(Progress(step), Pending) == 5 - step
  {
    StatusCounts(5, step);
  }

  /** The completion line of the summary. */
  datatype Completion = AllComplete | NeedAttention(sections: nat)

  datatype Summary = Summary(company: string, completion: Completion)

  const NotSpecified: string := "Not specified"

  /** The summary block: absent for an empty form; otherwise the company
      name (`Not specified` only when the key is absent) and either "all
      complete" or the number of sections that fail validation. */
  function FormSummary(fm: FieldMap): (r: Option<Summary>)
    ensures r.None? <==> fm == map[]
    ensures r.Some? ==> r.value.company == (if "company_name" in fm then fm["company_name"] else NotSpecified)
    ensures r.Some? ==> (r.value.completion == AllComplete <==> FormValidation.ValidateAll(fm).0)
    ensures r.Some? && r.value.completion.NeedAttention? ==>
      r.value.completion.sections == |FormValidation.ValidateAll(fm).1|
  {
    if fm == map[] then None
    else
      var company := if "company_name" in fm then fm["company_name"] else NotSpecified;
      var v := FormValidation.ValidateAll(fm);
      Some(Summary(company, if v.0 then AllComplete else NeedAttention(|v.1|)))
  }

  /** The count of sections needing attention is between 1 and 4. */
  lemma AttentionCountInRange(fm: FieldMap)
    requires FormSummary(fm).Some? && FormSummary(fm).value.completion.NeedAttention?
    ensures 1 <= FormSummary(fm).value.completion.sections <= |Config.SectionNames()|
  {
    Config.SectionNamesInOrder();
  }

  /** The API-key widget: its value is what the user typed, else the stored
      key, else "". The session key is written when it differs from the
      widget value, which includes the first run, when it is absent. */
  function StoreApiKey(stored: Option<string>, input: Option<string>): (r: Option<string>)
    ensures r.Some?
    ensures input.Some? ==> r.value == input.value
    ensures input.None? ==> r == Some(stored.GetOr(""))
  {
    var value := Sections.WidgetValue(stored.GetOr(""), input);
    if Some(value) != stored then Some(value) else stored
  }

  /** The sidebar's output: the progress list and the summary block. */
  datatype SidebarView = SidebarView(progress: seq<Status>, summary: Option<Summary>)

  /** `render_sidebar` for a session step and field map: the key field's
      value, each step's status relative to `step`, and the summary. */
  function RenderSidebar(step: int, fm: FieldMap, storedKey: Option<string>, keyInput: Option<string>): (r: (Option<string>, SidebarView))
    ensures keyInput.Some? ==> r.0 == keyInput
    ensures keyInput.None? ==> r.0 == Some(storedKey.GetOr(""))
    ensures |r.1.progress| == 5
    ensures forall i :: 0 <= i < 5 ==>
      (r.1.progress[i] == Complete <==> i + 1 < step) && (r.1.progress[i] == Current <==> i + 1 == step)
    ensures r.1.summary.None? <==> fm == map[]
    ensures r.1.summary.Some? ==>
      r.1.summary.value.company == (if "company_name" in fm then fm["company_name"] else NotSpecified)
    ensures r.1.summary.Some? ==> (r.1.summary.value.completion == AllComplete <==> FormValidation.ValidateAll(fm).0)
    ensures r.1.summary.Some? && r.1.summary.value.completion.NeedAttention? ==>
      r.1.summary.value.completion.sections == |FormValidation.ValidateAll(fm).1|
  {
    (StoreApiKey(storedKey, keyInput), SidebarView(Progress(step), FormSummary(fm)))
  }
}
