/** One run of the page (`main`): initialise the session, draw the sidebar,
    render the current step, then the navigation buttons below step 5. A
    run is a pure function from the session and the user's input on this
    run to the next session and what was shown. */
module App {
  import opened Common
  import opened Text
  import Config
  import FormValidation
  import Session
  import Sections
  import Navigation
  import Sidebar
  import GenerateSection

  /** The one button clicked on this run, if any. */
  datatype Click = NoClick | ClickPrevious | ClickNext | ClickGenerate

  /** What the user did on this run: the API-key widget, the text typed
      into form widgets by field key (a key that is absent means the widget
      keeps its prefill), and the click. */
  datatype Input = Input(apiKey: Option<string>, typed: map<string, string>, click: Click)

  /** The value a form widget reports on this run. */
  function Typed(inp: Input, key: string): Option<string> {
    if key in inp.typed then Some(inp.typed[key]) else None
  }

  /** The widget inputs of a section's keys, in key order. */
  function TypedAll(inp: Input, keys: seq<string>): (r: seq<Option<string>>)
    ensures |r| == |keys| && forall i :: 0 <= i < |keys| ==> r[i] == Typed(inp, keys[i])
  {
    seq(|keys|, i requires 0 <= i < |keys| => Typed(inp, keys[i]))
  }

  /** The main area of the page. */
  datatype Page =
    | SectionPage(section: string, values: seq<string>)
    | GeneratePage(view: GenerateSection.GenerateView)
    | NoPage

  datatype View = View(sidebar: Sidebar.SidebarView, page: Page, nav: Navigation.NavOutcome, generateRequested: bool)

  /** The section rendered at a step, with its widget keys. */
  function StepKeys(step: int): seq<string> {
    if step == 1 then Sections.CompanyKeys
    else if step == 2 then Sections.MarketingKeys
    else if step == 3 then Sections.CompetitorKeys
    else if step == 4 then Sections.FinancialKeys
    else []
  }

  lemma StepKeysDistinct(step: int)
    ensures Distinct(StepKeys(step))
  {
    Sections.CompanyKeysDistinct();
    Sections.MarketingKeysDistinct();
    Sections.CompetitorKeysDistinct();
    Sections.FinancialKeysDistinct();
  }

  /** The step dispatch of `main`: steps 1 to 4 render their section
      (which saves its widget values), step 5 the generate page, any other
      step nothing; only the rendered section's keys change. */
  function RenderStep(step: int, fm: FieldMap, inp: Input): (r: (FieldMap, Page))
    ensures 1 <= step <= 4 ==> r.1.SectionPage? && r.1.section == Navigation.StepNames[step - 1]
    ensures !(1 <= step <= 4) ==> r.0 == fm
    ensures step == 5 ==> r.1 == GeneratePage(GenerateSection.RenderGenerate(fm))
    ensures !(1 <= step <= 5) ==> r.1 == NoPage
    ensures fm.Keys <= r.0.Keys
    ensures forall k :: k in StepKeys(step) ==> k in r.0 && r.0[k] == Sections.WidgetValue(Get(fm, k), Typed(inp, k))
    ensures forall k :: k in fm && k !in StepKeys(step) ==> r.0[k] == fm[k]
  {
    if 1 <= step <= 4 then
      var keys := StepKeys(step);
      StepKeysDistinct(step);
      var o := Sections.RenderFields(fm, keys, TypedAll(inp, keys));
      (o.0, SectionPage(Navigation.StepNames[step - 1], o.1))
    else if step == 5 then (fm, GeneratePage(GenerateSection.RenderGenerate(fm)))
    else (fm, NoPage)
  }

  /** Each of steps 1 to 4 is exactly its section's render, fed the widgets
      in the render's parameter order. */
  lemma DispatchIsSectionRender(fm: FieldMap, inp: Input)
    ensures var ks := Sections.CompanyKeys;
      RenderStep(1, fm, inp) == (var o := Sections.RenderCompanyOverview(fm, Typed(inp, ks[0]), Typed(inp, ks[1]), Typed(inp, ks[2]), Typed(inp, ks[3]));
                                 (o.0, SectionPage("company_overview", o.1)))
    ensures var ks := Sections.MarketingKeys;
      RenderStep(2, fm, inp) == (var o := Sections.RenderMarketingDetails(fm, Typed(inp, ks[0]), Typed(inp, ks[1]), Typed(inp, ks[2]), Typed(inp, ks[3]));
                                 (o.0, SectionPage("marketing_details", o.1)))
    ensures var ks := Sections.CompetitorKeys;
      RenderStep(3, fm, inp) == (var o := Sections.RenderCompetitorInfo(fm, Typed(inp, ks[0]), Typed(inp, ks[1]), Typed(inp, ks[2]), Typed(inp, ks[3]));
                                 (o.0, SectionPage("competitor_info", o.1)))
    ensures var ks := Sections.FinancialKeys;
      RenderStep(4, fm, inp) == (var o := Sections.RenderFinancialOverview(fm, Typed(inp, ks[0]), Typed(inp, ks[1]), Typed(inp, ks[2]), Typed(inp, ks[3]), Typed(inp, ks[4]));
                                 (o.0, SectionPage("financial_overview", o.1)))
  {
    var c, m, p, f := Sections.CompanyKeys, Sections.MarketingKeys, Sections.CompetitorKeys, Sections.FinancialKeys;
    assert TypedAll(inp, c) == [Typed(inp, c[0]), Typed(inp, c[1]), Typed(inp, c[2]), Typed(inp, c[3])];
    assert TypedAll(inp, m) == [Typed(inp, m[0]), Typed(inp, m[1]), Typed(inp, m[2]), Typed(inp, m[3])];
    assert TypedAll(inp, p) == [Typed(inp, p[0]), Typed(inp, p[1]), Typed(inp, p[2]), Typed(inp, p[3])];
    assert TypedAll(inp, f) == [Typed(inp, f[0]), Typed(inp, f[1]), Typed(inp, f[2]), Typed(inp, f[3]), Typed(inp, f[4])];
  }

  function ButtonOf(click: Click): Navigation.Button {
    match click
    case ClickPrevious => Navigation.PreviousButton
    case ClickNext => Navigation.NextButton
    case _ => Navigation.NoButton
  }

  /** `main`: initialisation first; the sidebar sees the form as stored
      before this run's edits; the step's section is saved before the
      buttons run; the buttons are drawn only below step 5; generation is
      requested exactly by the button that step 5 offers on a complete
      form. The plan flag is
      left as it is (it is set by the generation call, outside this model). */
  function Run(s: Session.Session, inp: Input): (r: (Session.Session, View))
    ensures Session.Initialized(r.0)
    ensures r.0.apiKey == Some(Sidebar.StoreApiKey(s.apiKey, inp.apiKey).value)
    ensures r.0.planGenerated == Session.Initialize(s).planGenerated
    ensures r.1.generateRequested <==>
      Session.Initialize(s).currentStep == Some(5) && inp.click == ClickGenerate &&
      FormValidation.ValidateAll(Session.Initialize(s).formData.value).0
    ensures Session.Initialize(s).currentStep.value >= 5 ==> r.1.nav == Navigation.Stay
    ensures r.1.sidebar.progress == Sidebar.Progress(Session.Initialize(s).currentStep.value)
    ensures r.1.sidebar.summary == Sidebar.FormSummary(Session.Initialize(s).formData.value)
  {
    var s1 := Session.Initialize(s);
    var step, fm := s1.currentStep.value, s1.formData.value;
    var side := Sidebar.RenderSidebar(step, fm, s1.apiKey, inp.apiKey);
    var (fm1, page) := RenderStep(step, fm, inp);
    var nav := if step < 5 then Navigation.Navigate(step, fm1, ButtonOf(inp.click)) else Navigation.Stay;
    var generate := page.GeneratePage? && page.view.GenerateOffered? && inp.click == ClickGenerate;
    (Session.Session(Some(fm1), Some(Navigation.NextStep(step, nav)), s1.planGenerated, side.0),
     View(side.1, page, nav, generate))
  }

  /** The step the run leaves the session on. */
  function StepAfter(s: Session.Session, inp: Input): int {
    Run(s, inp).0.currentStep.value
  }

  /** Starting from a fresh session or a step in 1..5, a run leaves the step
      in 1..5, moved by at most one. */
  lemma StepStaysInRange(s: Session.Session, inp: Input)
    requires s.currentStep.None? || 1 <= s.currentStep.value <= 5
    ensures 1 <= StepAfter(s, inp) <= 5
    ensures var before := Session.Initialize(s).currentStep.value;
      before - 1 <= StepAfter(s, inp) <= before + 1
  {
    var s1 := Session.Initialize(s);
    var fm1 := RenderStep(s1.currentStep.value, s1.formData.value, inp).0;
    if s1.currentStep.value < 5 {
      Navigation.StepStaysInRange(s1.currentStep.value, fm1, ButtonOf(inp.click));
    }
  }

  /** Step 5 is absorbing: no click leaves it and the form is not touched. */
  lemma StepFiveAbsorbing(s: Session.Session, inp: Input)
    requires s.currentStep == Some(5)
    ensures StepAfter(s, inp) == 5
    ensures Run(s, inp).0.formData == Session.Initialize(s).formData
  {
  }

  /** At steps 1 to 4 the render saves this run's widget value under every
      key the step's section requires. */
  lemma RenderSavesRequired(step: int, fm: FieldMap, inp: Input)
    requires 1 <= step <= 4
    ensures forall k :: k in Config.RequiredKeys(Navigation.StepNames[step - 1]) ==>
      Get(RenderStep(step, fm, inp).0, k) == Sections.WidgetValue(Get(fm, k), Typed(inp, k))
  {
    Sections.WrittenKeysCoverRequired();
  }

  /** How a run's step and form come about from the dispatch and the
      buttons. */
  lemma RunShape(s: Session.Session, inp: Input)
    ensures var s1 := Session.Initialize(s);
      var step := s1.currentStep.value;
      var fm1 := RenderStep(step, s1.formData.value, inp).0;
      Run(s, inp).0.formData == Some(fm1) &&
      Run(s, inp).1.nav == (if step < 5 then Navigation.Navigate(step, fm1, ButtonOf(inp.click)) else Navigation.Stay) &&
      StepAfter(s, inp) == Navigation.NextStep(step, Run(s, inp).1.nav)
  {
  }

  /** Next on the saved form advances exactly when the step's required
      keys are all filled in that form. */
  lemma NextOnSavedForm(step: int, fm1: FieldMap)
    requires 1 <= step <= 4
    ensures Navigation.NextStep(step, Navigation.Navigate(step, fm1, Navigation.NextButton)) == step + 1 <==>
      forall k :: k in Config.RequiredKeys(Navigation.StepNames[step - 1]) ==> !FormValidation.Blank(Get(fm1, k))
  {
  }

  /** Next right after the step's render advances exactly when this run's
      widget values fill every required key of the step's section. */
  lemma NextAfterRender(step: int, fm: FieldMap, inp: Input)
    requires 1 <= step <= 4
    ensures var fm1 := RenderStep(step, fm, inp).0;
      Navigation.NextStep(step, Navigation.Navigate(step, fm1, Navigation.NextButton)) == step + 1 <==>
        forall k :: k in Config.RequiredKeys(Navigation.StepNames[step - 1]) ==>
          !FormValidation.Blank(Sections.WidgetValue(Get(fm, k), Typed(inp, k)))
  {
    var fm1 := RenderStep(step, fm, inp).0;
    NextOnSavedForm(step, fm1);
    RenderSavesRequired(step, fm, inp);
  }

  /** Next validates the values saved on this same run: at steps 1 to 4 a
      Next click advances exactly when every required key of the step's
      section has a non-blank widget value on this run. */
  lemma NextValidatesThisRun(s: Session.Session, inp: Input)
    requires s.currentStep.Some? && 1 <= s.currentStep.value <= 4
    requires inp.click == ClickNext
    ensures var step := s.currentStep.value;
      var fm := Session.Initialize(s).formData.value;
      StepAfter(s, inp) == step + 1 <==>
        forall k :: k in Config.RequiredKeys(Navigation.StepNames[step - 1]) ==>
          !FormValidation.Blank(Sections.WidgetValue(Get(fm, k), Typed(inp, k)))
  {
    var step := s.currentStep.value;
    var fm := Session.Initialize(s).formData.value;
    RunShape(s, inp);
    NextAfterRender(step, fm, inp);
    assert ButtonOf(inp.click) == Navigation.NextButton;
  }

  /** A run starts by initialising: running on a session or on its
      initialised form gives the same result. */
  lemma InitializeFirst(s: Session.Session, inp: Input)
    ensures Run(s, inp) == Run(Session.Initialize(s), inp)
  {
    Session.InitializeIdempotent(s);
  }

  /** Generation is requested exactly when the Generate button is clicked
      at step 5 and every section of the stored form is complete. */
  lemma GenerateIffValid(s: Session.Session, inp: Input)
    ensures Run(s, inp).1.generateRequested <==>
      Session.Initialize(s).currentStep == Some(5) && inp.click == ClickGenerate &&
      forall sec :: sec in Config.SectionNames() ==>
        FormValidation.ValidateSection(sec, Session.Initialize(s).formData.value).0
  {
    GenerateSection.GateIffEverySection(Session.Initialize(s).formData.value);
  }

  /** Only the current section's keys change on a run; the navigation
      buttons never touch the form. */
  lemma OtherAnswersUnchanged(s: Session.Session, inp: Input, k: string)
    requires Session.Initialize(s).currentStep.value !in {1, 2, 3, 4} ||
             k !in StepKeys(Session.Initialize(s).currentStep.value)
    requires k in Session.Initialize(s).formData.value
    ensures k in Run(s, inp).0.formData.value
    ensures Run(s, inp).0.formData.value[k] == Session.Initialize(s).formData.value[k]
  {
  }
}
