/** The per-user session state the wizard keeps between reruns, as an
    explicit record: each key may be absent until it is first set. */
module Session {
  import opened Common

  datatype Session = Session(
    formData: Option<FieldMap>,
    currentStep: Option<int>,
    planGenerated: Option<bool>,
    apiKey: Option<string>)

  /** The session every browser tab starts with: no keys at all. */
  const Fresh: Session := Session(None, None, None, None)

  /** The three keys that `initialize_session_state` guarantees. */
  predicate Initialized(s: Session) {
    s.formData.Some? && s.currentStep.Some? && s.planGenerated.Some?
  }

  /** `initialize_session_state`: each of the three keys is set to its
      default (empty form, step 1, no plan) only when it is absent; a key
      already present keeps its value, whatever the other keys hold. */
  function Initialize(s: Session): (r: Session)
    ensures Initialized(r)
    ensures r.formData == (if s.formData.Some? then s.formData else Some(map[]))
    ensures r.currentStep == (if s.currentStep.Some? then s.currentStep else Some(1))
    ensures r.planGenerated == (if s.planGenerated.Some? then s.planGenerated else Some(false))
    ensures r.apiKey == s.apiKey
  {
    var s1 := if s.formData.None? then s.(formData := Some(map[])) else s;
    var s2 := if s1.currentStep.None? then s1.(currentStep := Some(1)) else s1;
    if s2.planGenerated.None? then s2.(planGenerated := Some(false)) else s2
  }

  /** A fresh session starts on step 1 with an empty form and no plan. */
  lemma InitializeFresh()
    ensures Initialize(Fresh) == Session(Some(map[]), Some(1), Some(false), None)
  {
  }

  /** Running the initialisation twice is the same as running it once, and
      an initialised session is left as it is. */
  lemma InitializeIdempotent(s: Session)
    ensures Initialize(Initialize(s)) == Initialize(s)
    ensures Initialized(s) ==> Initialize(s) == s
  {
  }
}
