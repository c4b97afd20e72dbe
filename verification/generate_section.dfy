/** The last step: generation is offered only once every section is
    complete; otherwise the page lists what is still missing. */
module GenerateSection {
  import opened Common
  import Config
  import FormValidation
  import opened Text

  datatype GenerateView =
    | NeedsFields(message: string)   // the error box and the full validation message
    | GenerateOffered                // the "Generate Business Plan" button

  /** `render_generate_section`: the button is offered exactly when
      `validate_all_sections` is valid; otherwise the page shows the
      non-empty message for the whole section-to-errors map. */
  function RenderGenerate(fm: FieldMap): (r: GenerateView)
    ensures r.GenerateOffered? <==> FormValidation.ValidateAll(fm).0
    ensures r.NeedsFields? ==> r.message == FormValidation.ValidationMessage(FormValidation.ValidateAll(fm).1)
    ensures r.NeedsFields? ==> r.message != [] && StartsWith(r.message, FormValidation.MessageHeader)
  {
    var v := FormValidation.ValidateAll(fm);
    if !v.0 then NeedsFields(FormValidation.ValidationMessage(v.1)) else GenerateOffered
  }

  /** The gate is the same as every section passing on its own, and so the
      same as every required key holding a non-blank answer. */
  lemma GateIffEverySection(fm: FieldMap)
    ensures RenderGenerate(fm).GenerateOffered? <==>
      forall s :: s in Config.SectionNames() ==> FormValidation.ValidateSection(s, fm).0
    ensures RenderGenerate(fm).GenerateOffered? <==>
      forall s, k :: s in Config.SectionNames() && k in Config.RequiredKeys(s) ==> !FormValidation.Blank(Get(fm, k))
  {
    FormValidation.ValidateAllIffEverySection(fm);
  }
}
