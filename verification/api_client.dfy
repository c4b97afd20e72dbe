/** The generation client: it refuses to start without an API key, fills
    the prompt template from the form, and asks the model up to
    `MaxRetries` times with exponential back-off. The model itself is
    outside the model: each attempt's outcome is given as data, and each
    wait is recorded instead of slept. */
module ApiClient {
  import opened Common
  import opened Text
  import Config

  /** A client that holds a usable key. */
  datatype Client = Client(apiKey: string)

  /** `GeminiAPIClient()`: raises with the missing-key message when the
      configured key is unset or empty. */
  function NewClient(configuredKey: Option<string>): (r: Result<Client>)
    ensures r.Err? <==> configuredKey.None? || configuredKey.value == []
    ensures r.Err? ==> r.message == Config.ApiKeyMissing
    ensures r.Ok? ==> r.value.apiKey == configuredKey.value
  {
    match configuredKey
    case None => Err(Config.ApiKeyMissing)
    case Some(k) => if k == [] then Err(Config.ApiKeyMissing) else Ok(Client(k))
  }

  /** `str.format` over a template's parts: each slot becomes the form's
      value for it, or "" when absent. */
  function FillParts(parts: seq<Config.Part>, fm: FieldMap): string {
    if parts == [] then [] else parts[0].before + Get(fm, parts[0].slot) + FillParts(parts[1..], fm)
  }

  function Fill(t: Config.Template, fm: FieldMap): string {
    FillParts(t.parts, fm) + t.tail
  }

  /** `_prepare_prompt`: the business-plan prompt for the form. Every
      answer reaches the prompt right after its label: the value of slot
      `i` (or "" when the key is absent) follows the literal text of part
      `i`. */
  function PreparePrompt(fm: FieldMap): (r: string)
    ensures forall i :: 0 <= i < |Config.PromptTemplate.parts| ==>
      Infix(Config.PromptTemplate.parts[i].before + Get(fm, Config.PromptTemplate.parts[i].slot), r)
  {
    var t := Config.PromptTemplate;
    assert forall i :: 0 <= i < |t.parts| ==> Infix(t.parts[i].before + Get(fm, t.parts[i].slot), Fill(t, fm)) by {
      forall i | 0 <= i < |t.parts| {
        FillShowsEveryAnswer(t, fm, i);
      }
    }
    Fill(t, fm)
  }

  /** Two forms that agree on every slot give the same filled text. */
  lemma {:induction false} FillPartsDependsOnlyOnSlots(parts: seq<Config.Part>, fm1: FieldMap, fm2: FieldMap)
    requires forall i :: 0 <= i < |parts| ==> Get(fm1, parts[i].slot) == Get(fm2, parts[i].slot)
    ensures FillParts(parts, fm1) == FillParts(parts, fm2)
  {
    if parts != [] {
      FillPartsDependsOnlyOnSlots(parts[1..], fm1, fm2);
    }
  }

  /** Keys outside the seventeen slot names do not affect the prompt, and a
      missing key reads as "" just like a present empty answer. */
  lemma PromptIgnoresOtherKeys(fm1: FieldMap, fm2: FieldMap)
    requires forall k :: k in Config.PromptSlots ==> Get(fm1, k) == Get(fm2, k)
    ensures PreparePrompt(fm1) == PreparePrompt(fm2)
  {
    var parts := Config.PromptTemplate.parts;
    Config.TemplateSlots();
    forall i | 0 <= i < |parts|
      ensures Get(fm1, parts[i].slot) == Get(fm2, parts[i].slot)
    {
      assert parts[i].slot == Config.SlotsOf(Config.PromptTemplate)[i];
    }
    FillPartsDependsOnlyOnSlots(parts, fm1, fm2);
  }

  /** The filled text is the prefix parts, this part's label and value,
      then the remaining parts. */
  lemma {:induction false} FillPartsSplit(parts: seq<Config.Part>, fm: FieldMap, i: nat)
    requires i < |parts|
    ensures FillParts(parts, fm)
         == FillParts(parts[..i], fm) + (parts[i].before + Get(fm, parts[i].slot)) + FillParts(parts[i + 1..], fm)
  {
    if i > 0 {
      FillPartsSplit(parts[1..], fm, i - 1);
      assert parts[1..][..i - 1] == parts[1..i];
      assert parts[1..][i..] == parts[i + 1..];
      assert parts[..i][1..] == parts[1..i];
    } else {
      assert parts[..0] == [];
      assert parts[1..] == parts[i + 1..];
    }
  }

  /** The value of every slot (or "" when the key is absent) appears in
      the filled text right after the literal text before it. */
  lemma FillShowsEveryAnswer(t: Config.Template, fm: FieldMap, i: nat)
    requires i < |t.parts|
    ensures Infix(t.parts[i].before + Get(fm, t.parts[i].slot), Fill(t, fm))
  {
    FillPartsSplit(t.parts, fm, i);
    var x := t.parts[i].before + Get(fm, t.parts[i].slot);
    assert Fill(t, fm) == FillParts(t.parts[..i], fm) + x + (FillParts(t.parts[i + 1..], fm) + t.tail);
    InfixOf(FillParts(t.parts[..i], fm), x, FillParts(t.parts[i + 1..], fm) + t.tail);
  }

  /** The template text itself: each slot written as `{name}`. */
  function RawParts(parts: seq<Config.Part>): string {
    if parts == [] then [] else parts[0].before + "{" + parts[0].slot + "}" + RawParts(parts[1..])
  }

  /** Filling every slot with its own `{name}` gives back the raw template,
      so filling changes nothing but the slots. */
  lemma {:induction false} FillPlaceholders(parts: seq<Config.Part>, fm: FieldMap)
    requires forall i :: 0 <= i < |parts| ==> Get(fm, parts[i].slot) == "{" + parts[i].slot + "}"
    ensures FillParts(parts, fm) == RawParts(parts)
  {
    if parts != [] {
      var rest := parts[1..];
      assert forall i :: 0 <= i < |rest| ==> rest[i] == parts[i + 1];
      FillPlaceholders(rest, fm);
      assert Get(fm, parts[0].slot) == "{" + parts[0].slot + "}";
    }
  }

  /** One attempt of the model call: a reply text, or a raised error. */
  datatype Attempt = Reply(text: string) | Raised(error: string)

  /** An attempt fails when it raises or replies with empty text. */
  predicate Failed(a: Attempt) {
    a.Raised? || a.text == []
  }

  /** The text of the exception a failed attempt ends with. */
  function FailureText(a: Attempt): string {
    if a.Raised? then a.error else "Empty response from API"
  }

  function Pow2(n: nat): (r: nat)
    ensures r >= 1
  {
    if n == 0 then 1 else 2 * Pow2(n - 1)
  }

  function Sum(s: seq<nat>): nat {
    if s == [] then 0 else s[0] + Sum(s[1..])
  }

  /** Index of the first successful attempt among the first `n`, or `n`. */
  function FirstSuccess(outcomes: seq<Attempt>, n: nat): (k: nat)
    requires n <= |outcomes|
    ensures k <= n
    ensures forall j :: 0 <= j < k ==> Failed(outcomes[j])
    ensures k < n ==> !Failed(outcomes[k])
  {
    if n == 0 then 0
    else
      var k := FirstSuccess(outcomes, n - 1);
      if k < n - 1 then k else if Failed(outcomes[n - 1]) then n else n - 1
  }

  /** The retry loop of `generate_business_plan`. Returns the reply text
      or `None`, how many attempts were made, the back-off waits in
      seconds, and the error shown when every attempt failed. */
  method Retry(outcomes: seq<Attempt>) returns (result: Option<string>, attempts: nat, waits: seq<nat>, shown: Option<string>)
    requires |outcomes| >= Config.MaxRetries
    ensures 1 <= attempts <= Config.MaxRetries
    ensures forall j :: 0 <= j < attempts - 1 ==> Failed(outcomes[j])
    ensures result.Some? <==> !Failed(outcomes[attempts - 1])
    ensures result.Some? ==> outcomes[attempts - 1].Reply? && result.value == outcomes[attempts - 1].text && result.value != []
    ensures result.None? ==> attempts == Config.MaxRetries
    ensures result.None? ==> shown == Some(Config.ApiError + ": " + FailureText(outcomes[attempts - 1]))
    ensures result.Some? ==> shown.None?
    ensures |waits| == attempts - 1
    ensures forall j :: 0 <= j < |waits| ==> waits[j] == Pow2(j)
    ensures result.Some? <==> FirstSuccess(outcomes, Config.MaxRetries) < Config.MaxRetries
    ensures result.Some? ==> attempts == FirstSuccess(outcomes, Config.MaxRetries) + 1
  {
    attempts := 0;
    waits := [];
    result := None;
    shown := None;
    while attempts < Config.MaxRetries
      invariant 0 <= attempts < Config.MaxRetries
      invariant forall j :: 0 <= j < attempts ==> Failed(outcomes[j])
      invariant |waits| == attempts
      invariant forall j :: 0 <= j < |waits| ==> waits[j] == Pow2(j)
      decreases Config.MaxRetries - attempts
    {
      var a := outcomes[attempts];
      if !Failed(a) {
        result := Some(a.text);
        attempts := attempts + 1;
        return;
      }
      if attempts == Config.MaxRetries - 1 {
        shown := Some(Config.ApiError + ": " + FailureText(a));
        attempts := attempts + 1;
        return;
      }
      waits := waits + [Pow2(attempts)];
      attempts := attempts + 1;
    }
    assert false;
  }

  /** Waiting 1, 2, 4, ... seconds adds up to one less than the next power. */
  lemma {:induction false} BackoffTotal(n: nat)
    ensures Sum(seq(n, j requires 0 <= j < n => Pow2(j))) == Pow2(n) - 1
  {
    if n > 0 {
      var s := seq(n, j requires 0 <= j < n => Pow2(j));
      var t := seq(n - 1, j requires 0 <= j < n - 1 => Pow2(j));
      assert s == t + [Pow2(n - 1)];
      SumAppend(t, [Pow2(n - 1)]);
      BackoffTotal(n - 1);
    }
  }

  lemma {:induction false} SumAppend(a: seq<nat>, b: seq<nat>)
    ensures Sum(a + b) == Sum(a) + Sum(b)
  {
    if a == [] {
      assert a + b == b;
    } else {
      assert (a + b)[1..] == a[1..] + b;
      SumAppend(a[1..], b);
    }
  }

  /** `generate_business_plan`: the prompt is built once and sent on every
      attempt. The first non-empty reply ends the loop; before attempt
      `j + 1` the client waits `2**j` seconds; when all three attempts fail
      the API-error text and the last failure are shown. */
  method GenerateBusinessPlan(client: Client, fm: FieldMap, outcomes: seq<Attempt>)
    returns (result: Option<string>, sent: seq<string>, waits: seq<nat>, shown: Option<string>)
    requires |outcomes| >= Config.MaxRetries
    ensures 1 <= |sent| <= Config.MaxRetries
    ensures forall j :: 0 <= j < |sent| ==> sent[j] == PreparePrompt(fm)
    ensures result.Some? <==> FirstSuccess(outcomes, Config.MaxRetries) < Config.MaxRetries
    ensures result.Some? ==> outcomes[|sent| - 1].Reply? && result.value == outcomes[|sent| - 1].text && result.value != [] && shown.None?
    ensures result.Some? ==> |sent| == FirstSuccess(outcomes, Config.MaxRetries) + 1
    ensures result.None? ==> |sent| == Config.MaxRetries
    ensures result.None? ==> shown == Some(Config.ApiError + ": " + FailureText(outcomes[Config.MaxRetries - 1]))
    ensures |waits| == |sent| - 1 && forall j :: 0 <= j < |waits| ==> waits[j] == Pow2(j)
    ensures Sum(waits) == Pow2(|sent| - 1) - 1
  {
    var prompt := PreparePrompt(fm);
    var attempts: nat;
    result, attempts, waits, shown := Retry(outcomes);
    sent := seq(attempts, _ => prompt);
    assert waits == seq(attempts - 1, j requires 0 <= j < attempts - 1 => Pow2(j));
    BackoffTotal(attempts - 1);
  }
}
