# Business-plan wizard, modelled in Dafny

This project models the logic of a five-step wizard that collects answers about a company and asks a language model for a business plan. There are four parts:

- **Required-field validation** (`FormValidator` and the `REQUIRED_FIELDS` table, which lists ten keys: 4 + 1 + 2 + 3). Sections are validated one at a time and all together. The validation message and the field-length check are modelled too.
- **The wizard state machine**. This covers:
  - the session record and its initialisation;
  - the four section pages, each of which writes a fixed key set into the form;
  - the Previous/Next buttons and the validation gate on Next;
  - the page dispatch of `main`, which hides the buttons at step 5;
  - the all-sections gate before generation;
  - the sidebar's progress list, summary and API-key field.
- **The generation client**: the key check, filling the prompt template, and the retry policy with exponential back-off.
- **The PDF line scanner**: lines become a sequence of title, heading, paragraph, bullet-list and spacer blocks. A spacer follows the title (0.2 inch), a heading (4 points), and a list or a blank line (6 points).

Everything is a pure function over immutable values:

- The Streamlit session is a `Session` record with optional fields.
- Widget values are parameters. `None` means the widget was left as shown; `Some(v)` means the user typed `v`.
- A run of the page is a function from the session and the user's input to the next session and what was shown.
- The model call is a sequence of attempt outcomes given as data. Back-off sleeps are recorded as a list of waits.

Modules:

| file | module | what it holds |
|---|---|---|
| common.dfy | `Common` | `Option`, `Result`, the field map, counting and mapping helpers |
| text.dfy | `Text` | Versions over fixed character sets of `strip`, `rstrip`, `isdigit`, `title`, `replace`, `startswith` and `splitlines` |
| config.dfy | `Config` | `REQUIRED_FIELDS`, the prompt template's slots, `MAX_RETRIES`, error texts |
| form_validation.dfy | `FormValidation` | `validate_section`, `validate_all_sections`, `get_validation_message`, `check_field_length` |
| session.dfy | `Session` | `initialize_session_state` |
| sections.dfy | `Sections` | the four section renders as field-map merges |
| navigation.dfy | `Navigation` | Previous/Next |
| sidebar.dfy | `Sidebar` | progress list, summary, API-key storage |
| generate_section.dfy | `GenerateSection` | the generation gate |
| app.dfy | `App` | one run of `main` |
| api_client.dfy | `ApiClient` | key check, `_prepare_prompt`, retry loop |
| pdf_generator.dfy | `PdfGenerator` | `_split_lines` and the scan in `generate_pdf` |

## Model

| member | source | states |
|---|---|---|
| Config.RequiredFieldsShape | config.py:21-26 | The four sections come in wizard order and require 4, 1, 2 and 3 keys. That is ten keys in all, and no key is required by two sections. |
| Config.RequiredForAgrees | config.py:21-26 | The section lookup answers exactly for the four configured names, each with its own key list, and is absent for every other name. |
| Config.TemplateSlots | config.py:29-69 | The prompt template has exactly the seventeen slots, each occurring once. |
| Config.RequiredKeysAreSlots | config.py:22-25 | Every required key is also a slot of the prompt template. |
| FormValidation.BlankIsEmptyStrip | utils/form_validation.py:32-33 | A value counts as missing exactly when `strip()` leaves nothing. |
| FormValidation.MissingFields | utils/form_validation.py:29-34 | A key is reported exactly when it is required and its value is absent or blank. There are never more reports than required keys. |
| FormValidation.MissingNoneIff | utils/form_validation.py:29-36 | Nothing is missing exactly when every required key holds a non-blank value. |
| FormValidation.MissingFieldsAppend | utils/form_validation.py:31-34 | Checking two key lists one after the other reports the same keys as checking their concatenation, in the same order. |
| FormValidation.SectionErrors | utils/form_validation.py:31-34 | There is one error per missing key, in key order, each reading `"<Title> is required"`. |
| FormValidation.CompanyNameLabel | utils/form_validation.py:34 | The key `company_name` is shown as "Company Name": the underscore becomes a space and each word is capitalised. |
| FormValidation.ValidateSection | utils/form_validation.py:13-36 | An unknown section is `(True, [])`. Otherwise the result is valid exactly when the error list is empty, which is exactly when every required key is filled. There is one `"<Title> is required"` error per missing key, in the section's key order. |
| FormValidation.CollectErrorsAppend | utils/form_validation.py:51-55 | Looping over two lists of section names one after the other collects the concatenation of their error maps. |
| FormValidation.CollectErrorsSections | utils/form_validation.py:51-55 | A section appears in the collected map exactly when it is among the names looped over and fails its own validation. |
| FormValidation.ValidateAll | utils/form_validation.py:38-57 | The result is valid exactly when the map is empty. The map holds exactly the failing sections, in table order, each with its own non-empty error list. |
| FormValidation.ValidateAllIffEverySection | utils/form_validation.py:48-57 | All sections together are valid exactly when each section is valid alone. |
| FormValidation.ValidationMessage | utils/form_validation.py:59-81 | The message is empty exactly for an empty map. Otherwise it starts with the "Please complete …" header. |
| FormValidation.MessageLayout | utils/form_validation.py:69-81 | A non-empty message is the header followed by one block per section, in the map's order. Each block is the bold `**<Title>:**` line, one `• error` line per error in order, and a blank line. The blocks are written as an independent join of lines. |
| FormValidation.MessageMentionsEveryError | utils/form_validation.py:74-79 | Every error of every section appears in the message as its own `"• error\n"` line. |
| FormValidation.CheckFieldLength | utils/form_validation.py:83-99 | `""` fails whatever the bounds. Any other value passes exactly when its stripped length lies within the bounds. The defaults are 10 and 5000. |
| FormValidation.LengthCheckAndBlank | utils/form_validation.py:95-99 | With a positive minimum, a value that passes the length check is never blank. A whitespace-only value is judged by its stripped length (zero), not rejected as empty. |
| Session.Initialize | app/session.py:6-13 | Each of the three keys gets its default (`{}`, step 1, `False`) only when it is absent. A present key keeps its value, independently of the others. |
| Session.InitializeFresh | app/session.py:8-13 | A fresh session starts on step 1 with an empty form and no plan. |
| Session.InitializeIdempotent | app/session.py:8-13 | Initialising twice is initialising once, and an initialised session is left unchanged. |
| Sections.Merge | app/company_overview.py:47-52 | `dict.update` with distinct keys: those keys take the new values, the key set grows by exactly them, and every other key is unchanged. |
| Sections.RenderFields | app/company_overview.py:14-52 | Each widget shows the stored answer or `""`. The widget values are written under exactly the section's keys and returned in order; all other answers are kept. |
| Sections.RenderCompanyOverview | app/company_overview.py:47-54 | Writes exactly the four company keys, each with its widget's value (an empty input overwrites a stored answer). Leaves other keys alone and returns the four values in order. |
| Sections.RenderMarketingDetails | app/marketing_details.py:48-55 | The same for the four marketing keys. |
| Sections.RenderCompetitorInfo | app/competitor_info.py:48-55 | The same for the four competitor keys. |
| Sections.RenderFinancialOverview | app/financial_overview.py:56-64 | The same for the five financial keys. |
| Sections.WrittenKeysCoverRequired | app/company_overview.py:47-52 | Each section writes every key that its section requires. |
| Sections.UntouchedRenderKeepsAnswers | app/company_overview.py:14-52 | A render with every widget left as shown changes no stored answer and adds `""` only for keys never stored. |
| Navigation.StepName | app/navigation.py:22-23 | `step_names[step - 1]` with Python indexing: defined exactly for steps -3 to 4, and the step's own section for steps 1 to 4. |
| Navigation.Navigate | app/navigation.py:7-32 | Previous is offered only above step 1 and steps back with no check. Next is offered only below step 5 and validates exactly the step's section. On success it moves one step forward. On failure it stays and shows the message for that one section. Next raises exactly for steps below -3. |
| Navigation.StepStaysInRange | app/navigation.py:12-28 | From a step in 1..5 every click leaves the step in 1..5, moves it by at most one, and never raises. |
| Navigation.PreviousThenNext | app/navigation.py:14-28 | Previous followed by Next on a complete section returns to the starting step. |
| Navigation.NextThenPrevious | app/navigation.py:14-28 | Next on a complete section followed by Previous returns to the starting step. |
| Navigation.NegativeStepIndexing | app/navigation.py:22-23 | At step 0 Next checks the financial section, and at step -3 the company section. At step -4 the index is out of range. |
| Sidebar.Progress | app/sidebar.py:24-38 | Step `i` is complete exactly when `i` is before the current step, and current exactly when `i` is the current step. |
| Sidebar.StatusCounts | app/sidebar.py:32-38 | Over `n` steps the counts of complete, current and pending steps are the clamped step arithmetic. |
| Sidebar.ProgressCounts | app/sidebar.py:32-38 | For a step in 1..5 exactly one step is current, `step - 1` are complete and `5 - step` are pending. |
| Sidebar.FormSummary | app/sidebar.py:43-54 | The summary is absent exactly for an empty form. The company shown is `Not specified` only when the key is absent. "All complete" is shown exactly when all sections validate; otherwise the count is the number of failing sections. |
| Sidebar.AttentionCountInRange | app/sidebar.py:50-54 | A "need attention" count is between 1 and 4. |
| Sidebar.StoreApiKey | app/sidebar.py:11-19 | After the call the stored key is the widget's value: what was typed, else the previously stored key, else `""`. |
| Sidebar.RenderSidebar | app/sidebar.py:7-54 | The stored key is what was typed, else the previously stored key, else "". The progress list has five entries: step `i` is complete exactly before the current step and current exactly at it. The summary is absent exactly for an empty form. Otherwise it names the company (or "Not specified"), reports all complete exactly when every section validates, and else gives the number of failing sections. |
| GenerateSection.RenderGenerate | app/generate_section.py:9-31 | The Generate button is offered exactly when all sections validate. Otherwise the page shows the non-empty message for the whole error map and offers no button. |
| GenerateSection.GateIffEverySection | app/generate_section.py:18-25 | The gate holds exactly when every section passes alone, which is exactly when every required key has a non-blank answer. |
| App.RenderStep | main.py:35-45 | Steps 1 to 4 render their section and save only its keys. Step 5 renders the generation page and any other step renders nothing; neither changes the form. |
| App.DispatchIsSectionRender | main.py:36-43 | Steps 1 to 4 are exactly the four named section renders, fed the widgets in parameter order. |
| App.Run | main.py:24-49 | The result is always initialised and the stored API key is the widget value. No buttons are drawn from step 5 on. Generation is requested exactly when Generate is clicked at step 5 and the stored form validates. The sidebar shows the progress of the stored step and the summary of the form as stored before this run's edits. |
| App.RenderSavesRequired | main.py:36-43 | At steps 1 to 4 every key that the step's section requires is stored after the render, holding this run's widget value. |
| App.InitializeFirst | main.py:27 | A run begins with initialisation: running on a session gives the same result as running on its initialised form. |
| App.StepStaysInRange | main.py:24-49 | From a fresh session or a step in 1..5, a run leaves the step in 1..5, moved by at most one. |
| App.StepFiveAbsorbing | main.py:44-49 | At step 5 no click changes the step or the form. |
| App.NextAfterRender | main.py:36-49 | Right after a section is rendered, Next advances exactly when this run's widget values fill every required key. |
| App.NextValidatesThisRun | main.py:36-49 | A Next click at steps 1 to 4 advances exactly when the values entered on this same run fill the section's required keys. |
| App.GenerateIffValid | app/generate_section.py:20-31 | Generation is requested exactly when Generate is clicked at step 5 and every section of the stored form validates. |
| App.OtherAnswersUnchanged | main.py:36-49 | A run changes no answer outside the current section's keys; the buttons never touch the form. |
| ApiClient.NewClient | utils/api_client.py:13-15 | Construction fails with the missing-key message exactly when the key is unset or empty. |
| ApiClient.PromptIgnoresOtherKeys | utils/api_client.py:59-84 | Two forms that agree on the seventeen slot keys give the same prompt. A missing key fills its slot as `""`. |
| ApiClient.PreparePrompt | utils/api_client.py:59-84 | Each of the seventeen answers (or `""` for an absent key) appears in the prompt immediately after its label. |
| ApiClient.FillShowsEveryAnswer | utils/api_client.py:64-82 | For any template, each slot's value (or `""`) appears in the filled text immediately after the literal text before it. |
| ApiClient.FillPlaceholders | utils/api_client.py:64-82 | Filling every slot with its own `{name}` gives back the raw template, so filling changes nothing but the slots. |
| ApiClient.FirstSuccess | utils/api_client.py:35-48 | The index of the first attempt that neither raised nor returned empty text. Every attempt before it failed. |
| ApiClient.Retry | utils/api_client.py:35-57 | At most three attempts. The result is the first non-empty reply, and an empty reply counts as a failure. After failed attempt `a`, unless it is the last, the client waits `2**a` seconds. After the third failure the result is `None` and the error shown is the API-error text followed by the last failure. |
| ApiClient.BackoffTotal | utils/api_client.py:53 | The waits 1, 2, 4, … before attempt `n` add up to `2**n - 1` seconds. |
| ApiClient.GenerateBusinessPlan | utils/api_client.py:20-57 | The prompt is built once and the same text is sent on every attempt. A result comes back exactly when one of the three attempts gives a non-empty reply; it is the first such reply, and the attempts stop there. Before attempt `j + 1` the client waits `2**j` seconds, at most three seconds in all. When every attempt fails, all three are made and the API-error text with the last failure is shown. |
| PdfGenerator.SplitPdfLines | utils/pdf_generator.py:15-16 | There is one line per `'\n'`-separated line of the text, in order. Each is that line with its trailing whitespace removed. |
| PdfGenerator.ClassifyStripped | utils/pdf_generator.py:69-90 | The checks run in order: blank, heading, bullet, paragraph. A heading keeps its text. A bullet's item is the rest after the marker, stripped. A paragraph is the line with `**` and then `__` removed. |
| PdfGenerator.Classify | utils/pdf_generator.py:67-69 | A line is blank exactly when it is all whitespace, and it is classified after stripping. |
| PdfGenerator.FlushBullets | utils/pdf_generator.py:59-65 | An empty buffer emits nothing. Otherwise one list of the buffered items, in order, is emitted with its 6-point gap. The buffer is empty afterwards. |
| PdfGenerator.ScanLine | utils/pdf_generator.py:67-90 | A bullet line only buffers its item. Any other line flushes the buffer and then emits its blocks. |
| PdfGenerator.ScanMatchesLayout | utils/pdf_generator.py:57-92 | The buffered scan, from any state, produces the reference layout, in which each maximal run of bullet lines is one list followed by its gap. |
| PdfGenerator.GeneratePdf | utils/pdf_generator.py:19-92 | The document is the title, its gap, and the reference layout of the text's lines, in which each maximal run of bullet lines is one list followed by its gap. |
| PdfGenerator.ScanLines | utils/pdf_generator.py:67-90 | The loop only adds to the story; nothing emitted is taken back. |
| PdfGenerator.ScanLinesPending | utils/pdf_generator.py:67-92 | After the loop the buffer holds items exactly when the last line is a bullet. That is why the final flush is needed. |
| PdfGenerator.TitleComesFirst | utils/pdf_generator.py:52-53 | Every document starts with `"<company> — Business Plan"` and a 0.2-inch (14.4-point) spacer, whatever the text. |
| PdfGenerator.NoBulletDropped | utils/pdf_generator.py:59-92 | The lists of the document hold exactly the items of the bullet lines, in order, none dropped, including a final run. |
| PdfGenerator.ListsNonEmpty | utils/pdf_generator.py:59-65 | Every list in the document is non-empty and is followed by its gap. |
| PdfGenerator.HeadingExamples | utils/pdf_generator.py:75 | Two leading digits, a digit and a period in a longer line, and a lone digit are each read as a heading. |
| PdfGenerator.DigitPeriodIsParagraph | utils/pdf_generator.py:75 | `"1."` alone is not a heading: its two characters are not both digits and the line is not longer than two. |
| PdfGenerator.ClassifyBullet | utils/pdf_generator.py:82-84 | A marker, a space and trimmed text read as a bullet whose item is that text. |
| PdfGenerator.ClassifyHeading | utils/pdf_generator.py:75-77 | A digit, a period and at least one more character read as a heading of the whole line. |
| PdfGenerator.BoldParagraph | utils/pdf_generator.py:87 | Bold markers around plain text are removed from a paragraph. |
| PdfGenerator.ParagraphCleanup | utils/pdf_generator.py:87 | A cleaned paragraph contains no `__`, and keeps every character other than `*` and `_`, in order. |
| PdfGenerator.StarsCanSurvive | utils/pdf_generator.py:87 | Because `**` is removed first, `"*__*"` cleans to `"**"`. |
| PdfGenerator.SplitFourLines | utils/pdf_generator.py:15-16 | Four one-line texts without trailing whitespace, joined by line breaks, split back into themselves. |
| PdfGenerator.LayoutFourLines | utils/pdf_generator.py:67-92 | A heading, two bullets and a paragraph give the heading and its gap, one list of both items and its gap, and the paragraph. |
| PdfGenerator.DocumentExample | utils/pdf_generator.py:19-92 | Take any heading line that starts with a digit and a period and has no trailing whitespace, such as `1. Summary`. Follow it with two `- ` bullets and a paragraph. The document is the title and gap, the heading and gap, one two-item list and gap, and the cleaned paragraph. |
| PdfGenerator.ExecutiveSummaryDocument | utils/pdf_generator.py:19-92 | For any company, the lines `1. Executive Summary`, `- Strong team`, `- Clear market` and `We are **ready**.` give the title and gap, that heading and gap, one list of the two items and gap, and the paragraph `We are ready.`. |
| Text.Strip | utils/form_validation.py:32 | The result is a contiguous slice of the input with only whitespace cut off on either side. It is empty exactly when the input is all whitespace, and otherwise has no whitespace at either end. |
| Text.RStrip | utils/pdf_generator.py:16 | The result is a prefix of the input, what was cut is all whitespace, and the result has no trailing whitespace. |
| Text.SplitLines | utils/pdf_generator.py:16 | No line contains a line break. |
| Text.Title | utils/form_validation.py:34 | The result has the input's length and a letter exactly where the input has one. |
| Text.TitleIdempotent | utils/form_validation.py:34 | Applying title case twice is applying it once. |
| Text.RemoveAll | utils/pdf_generator.py:87 | The result is never longer than the input. |
| Text.RemoveAllAbsent | utils/pdf_generator.py:87 | Text in which the pattern does not occur is left unchanged. |
| Navigation.StepNamesAreSections | app/navigation.py:22 | The sections of steps 1 to 4 are the configured sections, in configuration order. |
| Text.StripIdempotent | utils/form_validation.py:32 | Stripping twice is stripping once. |
| Text.TitleScanAgrees | utils/form_validation.py:34 | The left-to-right scan of `str.title()` agrees with its position-wise definition. |
| Text.UnlinesRoundTrip | utils/pdf_generator.py:16 | Splitting lines that are joined with line breaks gives the lines back. |
| Text.SplitLinesRoundTrip | utils/pdf_generator.py:16 | Joining the split lines gives the text back, with a final line break added when the text had none. |
| Text.RemoveAllNoDoubled | utils/pdf_generator.py:87 | After every `cc` is removed, no `cc` is left. |
| Text.RemoveAllKeepsOthers | utils/pdf_generator.py:87 | Removing a marker pattern keeps every other character, in order. |

## Left out

- Streamlit rendering is not modelled: widgets, columns, styling, headers, the footer, `st.rerun` and `st.error` boxes. Widget values are parameters and shown texts are results.
- The `google.generativeai` calls are not modelled (`configure`, `GenerativeModel`, `generate_content` and the generation settings). The source imports `REQUEST_TIMEOUT` but passes no timeout to the call, so none is modelled. Each attempt is an outcome given as data, and each `time.sleep` is a recorded wait.
- ApiClient.Retry: the caller supplies an outcome for each of the three possible attempts (`|outcomes| >= 3`), because the model call is external. The outcomes past the last attempt made are ignored.
- The configured key is read from the environment (`dotenv`, `os.getenv`). That is environment I/O, so `NewClient` takes the key as a parameter.
- The prompt's prose is not modelled: the introduction, the requested plan structure and the closing instructions. The template keeps its labelled slot lines and a final line break. Its slots and labels are modelled exactly.
- The ReportLab document is not modelled: page size, margins, styles, `ListFlowable`/`ListItem` objects, `BytesIO` and `doc.build`. Only the block sequence is kept. Spacer heights are reals in points.
- Python string methods are modelled over fixed character sets:
  - `isdigit` covers the ASCII digits;
  - `strip` covers a fixed subset of Python's whitespace: space, `\t`, `\n`, `\r`, `\v` and `\f`. The separators `\x1c` to `\x1f` and non-ASCII spaces are not stripped;
  - `title` covers the ASCII letters;
  - `splitlines` splits on `'\n'` only.
- app/business_plan_generator.py is not part of this model. It is progress-bar and error-display glue around the client. It also calls the client constructor with an argument that the constructor does not accept.
- app.py is not part of this model. It is an older single-file copy of the same wizard logic.
- app/header.py is not part of this model. It only produces static output.
- The summary card of the generation page is not part of this model, because the formatter module it comes from is not available.
- The plan-generated flag is initialised but not changed by `App.Run`, because it is set by the generation call, which is outside this model.
- Text.RemoveAll: its own contract states only that the result is no longer than the input. What removal keeps and drops is stated by `Text.RemoveAllKeepsOthers`, `Text.RemoveAllNoDoubled` and `Text.RemoveAllAbsent`.
