/** The four form sections. Each render shows one widget per field,
    prefilled from the stored answer, and then writes the widget values of
    exactly its own keys back into the field map (`dict.update`). A widget
    input is `None` when the user left the widget as shown, and `Some(v)`
    when the user typed `v`. */
module Sections {
  import opened Common
  import Config

  /** A widget's value on this run: what the user typed, or the prefill. */
  function WidgetValue(prefill: string, input: Option<string>): string {
    input.GetOr(prefill)
  }

  /** `form_data.update({keys[0]: values[0], ...})` with distinct keys:
      those keys take the new values, every other key is untouched. */
  function Merge(fm: FieldMap, keys: seq<string>, values: seq<string>): (r: FieldMap)
    requires |keys| == |values| && Distinct(keys)
    decreases |keys|
    ensures r.Keys == fm.Keys + set k | k in keys
    ensures forall i :: 0 <= i < |keys| ==> r[keys[i]] == values[i]
    ensures forall k :: k in fm && k !in keys ==> r[k] == fm[k]
  {
    if keys == [] then fm
    else
      var r := Merge(fm[keys[0] := values[0]], keys[1..], values[1..]);
      assert forall i :: 1 <= i < |keys| ==> keys[i] == keys[1..][i - 1] && values[i] == values[1..][i - 1];
      assert keys[0] !in keys[1..];
      r
  }

  /** The generic section render: the widget values, prefilled from the
      stored answers, written back under the section's keys. */
  function RenderFields(fm: FieldMap, keys: seq<string>, inputs: seq<Option<string>>): (r: (FieldMap, seq<string>))
    requires |inputs| == |keys| && Distinct(keys)
    ensures |r.1| == |keys|
    ensures forall i :: 0 <= i < |keys| ==> r.1[i] == WidgetValue(Get(fm, keys[i]), inputs[i])
    ensures r.0.Keys == fm.Keys + set k | k in keys
    ensures forall i :: 0 <= i < |keys| ==> r.0[keys[i]] == r.1[i]
    ensures forall k :: k in fm && k !in keys ==> r.0[k] == fm[k]
  {
    var values := seq(|keys|, i requires 0 <= i < |keys| => WidgetValue(Get(fm, keys[i]), inputs[i]));
    (Merge(fm, keys, values), values)
  }

  const CompanyKeys: seq<string> := ["company_name", "business_description", "mission", "target_market"]
  const MarketingKeys: seq<string> := ["marketing_strategy", "customer_acquisition", "marketing_channels", "budget_considerations"]
  const CompetitorKeys: seq<string> := ["competitor_overview", "competitive_advantages", "market_positioning", "unique_value_prop"]
  const FinancialKeys: seq<string> := ["expected_costs", "financial_strategy", "projected_sales", "revenue_model", "funding_requirements"]

  lemma CompanyKeysDistinct() ensures Distinct(CompanyKeys) { }
  lemma MarketingKeysDistinct() ensures Distinct(MarketingKeys) { }
  lemma CompetitorKeysDistinct() ensures Distinct(CompetitorKeys) { }
  lemma FinancialKeysDistinct() ensures Distinct(FinancialKeys) { }

  /** `render_company_overview`: writes exactly the four company keys, each
      the widget's value (the stored answer unless the user typed something,
      "" when nothing was stored), leaves every other key alone, and returns
      the values in write order. */
  function RenderCompanyOverview(fm: FieldMap, name: Option<string>, description: Option<string>,
                                 mission: Option<string>, market: Option<string>): (r: (FieldMap, seq<string>))
    ensures var inputs := [name, description, mission, market];
      |r.1| == 4 && forall i :: 0 <= i < 4 ==> r.1[i] == WidgetValue(Get(fm, CompanyKeys[i]), inputs[i])
    ensures r.0.Keys == fm.Keys + set k | k in CompanyKeys
    ensures forall i :: 0 <= i < 4 ==> r.0[CompanyKeys[i]] == r.1[i]
    ensures forall k :: k in fm && k !in CompanyKeys ==> r.0[k] == fm[k]
  {
    CompanyKeysDistinct();
    RenderFields(fm, CompanyKeys, [name, description, mission, market])
  }

  /** `render_marketing_details`: writes exactly the four marketing keys. */
  function RenderMarketingDetails(fm: FieldMap, strategy: Option<string>, acquisition: Option<string>,
                                  channels: Option<string>, budget: Option<string>): (r: (FieldMap, seq<string>))
    ensures var inputs := [strategy, acquisition, channels, budget];
      |r.1| == 4 && forall i :: 0 <= i < 4 ==> r.1[i] == WidgetValue(Get(fm, MarketingKeys[i]), inputs[i])
    ensures r.0.Keys == fm.Keys + set k | k in MarketingKeys
    ensures forall i :: 0 <= i < 4 ==> r.0[MarketingKeys[i]] == r.1[i]
    ensures forall k :: k in fm && k !in MarketingKeys ==> r.0[k] == fm[k]
  {
    MarketingKeysDistinct();
    RenderFields(fm, MarketingKeys, [strategy, acquisition, channels, budget])
  }

  /** `render_competitor_info`: writes exactly the four competitor keys. */
  function RenderCompetitorInfo(fm: FieldMap, overview: Option<string>, advantages: Option<string>,
                                positioning: Option<string>, valueProp: Option<string>): (r: (FieldMap, seq<string>))
    ensures var inputs := [overview, advantages, positioning, valueProp];
      |r.1| == 4 && forall i :: 0 <= i < 4 ==> r.1[i] == WidgetValue(Get(fm, CompetitorKeys[i]), inputs[i])
    ensures r.0.Keys == fm.Keys + set k | k in CompetitorKeys
    ensures forall i :: 0 <= i < 4 ==> r.0[CompetitorKeys[i]] == r.1[i]
    ensures forall k :: k in fm && k !in CompetitorKeys ==> r.0[k] == fm[k]
  {
    CompetitorKeysDistinct();
    RenderFields(fm, CompetitorKeys, [overview, advantages, positioning, valueProp])
  }

  /** `render_financial_overview`: writes exactly the five financial keys. */
  function RenderFinancialOverview(fm: FieldMap, costs: Option<string>, strategy: Option<string>, sales: Option<string>,
                                   revenue: Option<string>, funding: Option<string>): (r: (FieldMap, seq<string>))
    ensures var inputs := [costs, strategy, sales, revenue, funding];
      |r.1| == 5 && forall i :: 0 <= i < 5 ==> r.1[i] == WidgetValue(Get(fm, FinancialKeys[i]), inputs[i])
    ensures r.0.Keys == fm.Keys + set k | k in FinancialKeys
    ensures forall i :: 0 <= i < 5 ==> r.0[FinancialKeys[i]] == r.1[i]
    ensures forall k :: k in fm && k !in FinancialKeys ==> r.0[k] == fm[k]
  {
    FinancialKeysDistinct();
    RenderFields(fm, FinancialKeys, [costs, strategy, sales, revenue, funding])
  }

  /** Each section writes every key its section requires, so after a
      render the section's validation sees this run's widget values. */
  lemma WrittenKeysCoverRequired()
    ensures forall k :: k in Config.RequiredKeys("company_overview") ==> k in CompanyKeys
    ensures forall k :: k in Config.RequiredKeys("marketing_details") ==> k in MarketingKeys
    ensures forall k :: k in Config.RequiredKeys("competitor_info") ==> k in CompetitorKeys
    ensures forall k :: k in Config.RequiredKeys("financial_overview") ==> k in FinancialKeys
  {
  }

  /** A render with every widget left as shown only adds "" for keys that
      were never stored; it never changes a stored answer. */
  lemma UntouchedRenderKeepsAnswers(fm: FieldMap, keys: seq<string>)
    requires Distinct(keys)
    ensures var r := RenderFields(fm, keys, seq(|keys|, _ => None)).0;
      forall k :: k in fm ==> r[k] == fm[k]
    ensures var r := RenderFields(fm, keys, seq(|keys|, _ => None)).0;
      forall k :: k in keys && k !in fm ==> r[k] == ""
  {
    var r := RenderFields(fm, keys, seq(|keys|, _ => None)).0;
    forall k | k in keys
      ensures r[k] == Get(fm, k)
    {
      var i :| 0 <= i < |keys| && keys[i] == k;
    }
  }
}
