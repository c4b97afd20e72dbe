/** The wizard's configuration: the required fields of each form section,
    the slots of the business-plan prompt template, the retry budget and the
    user-facing error texts. */
module Config {
  import opened Common

  /** Attempts the generation client makes before giving up. */
  const MaxRetries: nat := 3

  /** Section name to the ordered keys that must be non-blank, in the
      dictionary's insertion order. */
  const RequiredFields: seq<(string, seq<string>)> := [
    ("company_overview", ["company_name", "business_description", "mission", "target_market"]),
    ("marketing_details", ["marketing_strategy"]),
    ("competitor_info", ["competitor_overview", "competitive_advantages"]),
    ("financial_overview", ["expected_costs", "financial_strategy", "projected_sales"])
  ]

  /** The section names of `RequiredFields`, in order. */
  function SectionNames(): (r: seq<string>)
    ensures |r| == |RequiredFields|
    ensures forall i :: 0 <= i < |r| ==> r[i] == RequiredFields[i].0
  {
    seq(|RequiredFields|, i requires 0 <= i < |RequiredFields| => RequiredFields[i].0)
  }

  /** `REQUIRED_FIELDS.get(section)`: the required keys of a known section,
      `None` for any other name (`RequiredForAgrees` ties it to the table). */
  function RequiredFor(section: string): Option<seq<string>> {
    if section == RequiredFields[0].0 then Some(RequiredFields[0].1)
    else if section == RequiredFields[1].0 then Some(RequiredFields[1].1)
    else if section == RequiredFields[2].0 then Some(RequiredFields[2].1)
    else if section == RequiredFields[3].0 then Some(RequiredFields[3].1)
    else None
  }

  /** The lookup answers for exactly the table's sections, with their keys. */
  lemma RequiredForAgrees(section: string)
    ensures RequiredFor(section).None? <==> section !in SectionNames()
    ensures forall i :: 0 <= i < |RequiredFields| ==> RequiredFor(RequiredFields[i].0) == Some(RequiredFields[i].1)
  {
  }

  /** The required keys of a section; none for an unknown section. */
  function RequiredKeys(section: string): seq<string> {
    RequiredFor(section).GetOr([])
  }

  lemma SectionNamesInOrder()
    ensures SectionNames() == ["company_overview", "marketing_details", "competitor_info", "financial_overview"]
  {
  }

  /** The four sections, in wizard order, with 4, 1, 2 and 3 required keys:
      ten in all, no key required by two sections. */
  lemma RequiredFieldsShape()
    ensures SectionNames() == ["company_overview", "marketing_details", "competitor_info", "financial_overview"]
    ensures |RequiredKeys("company_overview")| == 4
    ensures |RequiredKeys("marketing_details")| == 1
    ensures |RequiredKeys("competitor_info")| == 2
    ensures |RequiredKeys("financial_overview")| == 3
    ensures Distinct(AllRequiredKeys()) && |AllRequiredKeys()| == 10
  {
  }

  /** Every required key, section by section. */
  function AllRequiredKeys(): seq<string> {
    RequiredFields[0].1 + RequiredFields[1].1 + RequiredFields[2].1 + RequiredFields[3].1
  }

  /** One `{slot}` of a format string with the literal text before it. */
  datatype Part = Part(before: string, slot: string)

  /** A format string: literal-and-slot parts followed by literal text. */
  datatype Template = Template(parts: seq<Part>, tail: string)

  /** The structure of the business-plan prompt: one labelled line per form
      field, the value coming from the slot of the same name. */
  const PromptTemplate: Template := Template([
    Part("COMPANY OVERVIEW:\n- Company Name: ", "company_name"),
    Part("\n- Business Description: ", "business_description"),
    Part("\n- Mission Statement: ", "mission"),
    Part("\n- Target Market: ", "target_market"),
    Part("\n\nMARKETING DETAILS:\n- Marketing Strategy: ", "marketing_strategy"),
    Part("\n- Customer Acquisition: ", "customer_acquisition"),
    Part("\n- Marketing Channels: ", "marketing_channels"),
    Part("\n- Budget Considerations: ", "budget_considerations"),
    Part("\n\nCOMPETITOR INFORMATION:\n- Competitor Overview: ", "competitor_overview"),
    Part("\n- Competitive Advantages: ", "competitive_advantages"),
    Part("\n- Market Positioning: ", "market_positioning"),
    Part("\n- Unique Value Proposition: ", "unique_value_prop"),
    Part("\n\nFINANCIAL OVERVIEW:\n- Expected Costs: ", "expected_costs"),
    Part("\n- Financial Strategy: ", "financial_strategy"),
    Part("\n- Projected Sales: ", "projected_sales"),
    Part("\n- Revenue Model: ", "revenue_model"),
    Part("\n- Funding Requirements: ", "funding_requirements")
  ], "\n")

  /** The slot names of a template, in order of appearance. */
  function SlotsOf(t: Template): seq<string> {
    seq(|t.parts|, i requires 0 <= i < |t.parts| => t.parts[i].slot)
  }

  /** The seventeen keyword arguments that fill the template. */
  const PromptSlots: seq<string> := [
    "company_name", "business_description", "mission", "target_market",
    "marketing_strategy", "customer_acquisition", "marketing_channels", "budget_considerations",
    "competitor_overview", "competitive_advantages", "market_positioning", "unique_value_prop",
    "expected_costs", "financial_strategy", "projected_sales", "revenue_model", "funding_requirements"
  ]

  lemma PromptSlotsDistinct()
    ensures Distinct(PromptSlots)
  {
    forall i, j | 0 <= i < j < |PromptSlots|
      ensures PromptSlots[i] != PromptSlots[j]
    {
      var a, b := PromptSlots[i], PromptSlots[j];
      assert |a| != |b| || a[0] != b[0] || a[6] != b[6] || a[10] != b[10];
    }
  }

  /** The template has exactly the seventeen slots, each occurring once. */
  lemma TemplateSlots()
    ensures SlotsOf(PromptTemplate) == PromptSlots
    ensures |PromptSlots| == 17 && Distinct(PromptSlots)
    ensures forall k :: k in PromptSlots ==> Count(SlotsOf(PromptTemplate), k) == 1
  {
    PromptSlotsDistinct();
    forall k | k in PromptSlots
      ensures Count(SlotsOf(PromptTemplate), k) == 1
    {
      DistinctCountOne(PromptSlots, k);
    }
  }

  /** Every required key names a slot of the prompt template. */
  lemma RequiredKeysAreSlots()
    ensures forall k :: k in AllRequiredKeys() ==> k in SlotsOf(PromptTemplate)
  {
    TemplateSlots();
  }

  const ApiKeyMissing: string := "Please set your GEMINI_API_KEY in the environment variables"
  const ApiError: string := "There was an error generating your business plan. Please try again."
}
