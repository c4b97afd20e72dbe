/** Required-field validation of the form sections (`FormValidator`): per
    section, across all sections, the user-facing message, and the field
    length check. */
module FormValidation {
  import opened Common
  import opened Text
  import Config

  /** A value counts as missing when it is made of whitespace only, which is
      when `strip()` leaves nothing (`BlankIsEmptyStrip`). */
  predicate Blank(v: string) {
    AllSpace(v)
  }

  lemma BlankIsEmptyStrip(v: string)
    ensures Blank(v) <==> Strip(v) == []
  {
  }

  /** "company_name" is shown as "Company Name". */
  function Label(key: string): string {
    Title(ReplaceChar(key, '_', ' '))
  }

  /** The label of `company_name` is "Company Name": the underscore
      becomes a space and each word starts with a capital. */
  lemma CompanyNameLabel()
    ensures Label("company_name") == "Company Name"
  {
  }

  /** The error reported for a missing required field. */
  function RequiredError(key: string): string {
    Label(key) + " is required"
  }

  /** The keys of `keys` whose value in `fm` is absent or blank, in order. */
  function MissingFields(keys: seq<string>, fm: FieldMap): (r: seq<string>)
    ensures forall k :: k in r <==> k in keys && Blank(Get(fm, k))
    ensures |r| <= |keys|
  {
    if keys == [] then []
    else (if Blank(Get(fm, keys[0])) then [keys[0]] else []) + MissingFields(keys[1..], fm)
  }

  lemma MissingNoneIff(keys: seq<string>, fm: FieldMap)
    ensures MissingFields(keys, fm) == [] <==> forall k :: k in keys ==> !Blank(Get(fm, k))
  {
    var m := MissingFields(keys, fm);
    if m != [] {
      assert m[0] in m;
    }
  }

  /** Filtering distributes over concatenation: the missing fields of a key
      list are those of its first part followed by those of the rest. */
  lemma {:induction false} MissingFieldsAppend(a: seq<string>, b: seq<string>, fm: FieldMap)
    ensures MissingFields(a + b, fm) == MissingFields(a, fm) + MissingFields(b, fm)
  {
    if a == [] {
      assert a + b == b;
    } else {
      assert (a + b)[0] == a[0];
      assert (a + b)[1..] == a[1..] + b;
      MissingFieldsAppend(a[1..], b, fm);
    }
  }

  /** The loop of `validate_section`: one error per missing field, in field
      order. */
  function SectionErrors(keys: seq<string>, fm: FieldMap): (r: seq<string>)
    ensures |r| == |MissingFields(keys, fm)|
    ensures forall i :: 0 <= i < |r| ==> r[i] == RequiredError(MissingFields(keys, fm)[i])
  {
    if keys == [] then []
    else
      var e := if Blank(Get(fm, keys[0])) then [RequiredError(keys[0])] else [];
      e + SectionErrors(keys[1..], fm)
  }

  /** `validate_section`: valid exactly when no error is reported; an
      unknown section is valid with no errors; otherwise one error per
      required field that is absent or blank, in the section's field order,
      and none for filled fields. */
  function ValidateSection(section: string, fm: FieldMap): (r: (bool, seq<string>))
    ensures r.0 <==> r.1 == []
    ensures Config.RequiredFor(section).None? ==> r == (true, [])
    ensures |r.1| == |MissingFields(Config.RequiredKeys(section), fm)|
    ensures forall i :: 0 <= i < |r.1| ==>
      r.1[i] == RequiredError(MissingFields(Config.RequiredKeys(section), fm)[i])
    ensures r.0 <==> forall k :: k in Config.RequiredKeys(section) ==> !Blank(Get(fm, k))
  {
    match Config.RequiredFor(section)
    case None => (true, [])
    case Some(keys) =>
      var errors := SectionErrors(keys, fm);
      MissingNoneIff(keys, fm);
      (|errors| == 0, errors)
  }

  /** A section validator, as `validate_all_sections` uses it. */
  type Validator = string -> (bool, seq<string>)

  /** The entry `validate_all_sections` records for one section: nothing
      when it is valid, else the section's name with its errors. */
  function Entry(section: string, validate: Validator): seq<(string, seq<string>)> {
    var v := validate(section);
    if v.0 then [] else [(section, v.1)]
  }

  /** The section names of an error map, in order. */
  function SectionsOf(errs: seq<(string, seq<string>)>): (r: seq<string>)
    ensures |r| == |errs| && forall i :: 0 <= i < |errs| ==> r[i] == errs[i].0
  {
    if errs == [] then [] else [errs[0].0] + SectionsOf(errs[1..])
  }

  /** The loop of `validate_all_sections` over the given section names:
      every recorded entry is a failing section with its errors. */
  function CollectErrors(names: seq<string>, validate: Validator): (r: seq<(string, seq<string>)>)
    ensures forall i :: 0 <= i < |r| ==> r[i].1 == validate(r[i].0).1 && !validate(r[i].0).0
  {
    if names == [] then []
    else
      var rest := CollectErrors(names[1..], validate);
      var e := Entry(names[0], validate);
      var r := e + rest;
      assert forall i :: |e| <= i < |r| ==> r[i] == rest[i - |e|];
      r
  }

  lemma {:induction false} SectionsOfAppend(a: seq<(string, seq<string>)>, b: seq<(string, seq<string>)>)
    ensures SectionsOf(a + b) == SectionsOf(a) + SectionsOf(b)
  {
  }

  /** A section is recorded exactly when it is listed and fails. */
  lemma {:induction false} CollectErrorsSections(names: seq<string>, validate: Validator, s: string)
    ensures s in SectionsOf(CollectErrors(names, validate)) <==> s in names && !validate(s).0
  {
    if names != [] {
      var e := Entry(names[0], validate);
      CollectErrorsSections(names[1..], validate, s);
      SectionsOfAppend(e, CollectErrors(names[1..], validate));
      assert s in names <==> s == names[0] || s in names[1..];
    }
  }

  lemma {:induction false} CollectErrorsAppend(a: seq<string>, b: seq<string>, validate: Validator)
    ensures CollectErrors(a + b, validate) == CollectErrors(a, validate) + CollectErrors(b, validate)
  {
    if a == [] {
      assert a + b == b;
    } else {
      assert (a + b)[0] == a[0];
      assert (a + b)[1..] == a[1..] + b;
      CollectErrorsAppend(a[1..], b, validate);
    }
  }

  /** Over four sections the collected map is the four entries in order. */
  lemma CollectFour(n0: string, n1: string, n2: string, n3: string, validate: Validator)
    ensures CollectErrors([n0, n1, n2, n3], validate)
         == Entry(n0, validate) + Entry(n1, validate) + Entry(n2, validate) + Entry(n3, validate)
  {
    CollectOne(n0, validate);
    CollectOne(n1, validate);
    CollectOne(n2, validate);
    CollectOne(n3, validate);
    assert [n0, n1, n2, n3] == [n0, n1, n2] + [n3];
    assert [n0, n1, n2] == [n0, n1] + [n2];
    assert [n0, n1] == [n0] + [n1];
    CollectErrorsAppend([n0, n1, n2], [n3], validate);
    CollectErrorsAppend([n0, n1], [n2], validate);
    CollectErrorsAppend([n0], [n1], validate);
  }

  /** One section contributes its entry. */
  lemma CollectOne(n: string, validate: Validator)
    ensures CollectErrors([n], validate) == Entry(n, validate)
  {
    assert [n][1..] == [];
    assert Entry(n, validate) + [] == Entry(n, validate);
  }

  /** `validate_section` applied to the form data, as a validator value. */
  function SectionValidator(fm: FieldMap): (v: Validator)
    ensures forall s :: v(s) == ValidateSection(s, fm)
  {
    s => ValidateSection(s, fm)
  }

  /** `validate_all_sections`: valid exactly when the error map is empty; the
      map holds exactly the sections that fail `validate_section`, each with
      that section's error list, in configuration order. */
  function ValidateAll(fm: FieldMap): (r: (bool, seq<(string, seq<string>)>))
    ensures r.0 <==> r.1 == []
    ensures forall i :: 0 <= i < |r.1| ==> r.1[i].1 == ValidateSection(r.1[i].0, fm).1 && r.1[i].1 != []
    ensures forall s :: s in SectionsOf(r.1) <==> s in Config.SectionNames() && !ValidateSection(s, fm).0
    ensures r.1 == Entry("company_overview", SectionValidator(fm)) + Entry("marketing_details", SectionValidator(fm))
                 + Entry("competitor_info", SectionValidator(fm)) + Entry("financial_overview", SectionValidator(fm))
  {
    var validate := SectionValidator(fm);
    var errors := CollectErrors(Config.SectionNames(), validate);
    forall s | true
      ensures s in SectionsOf(errors) <==> s in Config.SectionNames() && !ValidateSection(s, fm).0
    {
      CollectErrorsSections(Config.SectionNames(), validate, s);
    }
    Config.SectionNamesInOrder();
    CollectFour("company_overview", "marketing_details", "competitor_info", "financial_overview", validate);
    (|errors| == 0, errors)
  }

  /** The aggregate gate agrees with checking every section one by one. */
  lemma ValidateAllIffEverySection(fm: FieldMap)
    ensures ValidateAll(fm).0 <==> forall s :: s in Config.SectionNames() ==> ValidateSection(s, fm).0
  {
    var r := ValidateAll(fm);
    if !r.0 {
      assert SectionsOf(r.1)[0] in SectionsOf(r.1);
    }
  }

  /** The heading line of a non-empty validation message. */
  const MessageHeader: string := "Please complete the following required fields:\n\n"

  /** One "• error" line per error. */
  function Bullets(errors: seq<string>): string {
    if errors == [] then [] else "• " + errors[0] + "\n" + Bullets(errors[1..])
  }

  /** The block for one section: its title in bold, its errors, a blank line. */
  function SectionBlock(section: string, errors: seq<string>): string {
    "**" + Label(section) + ":**\n" + Bullets(errors) + "\n"
  }

  function Blocks(sections: seq<(string, seq<string>)>): string {
    if sections == [] then [] else SectionBlock(sections[0].0, sections[0].1) + Blocks(sections[1..])
  }

  /** `get_validation_message`: empty for no errors; otherwise the header
      followed by one block per section, in the map's order. */
  function ValidationMessage(sectionErrors: seq<(string, seq<string>)>): (r: string)
    ensures r == [] <==> sectionErrors == []
    ensures sectionErrors != [] ==> StartsWith(r, MessageHeader)
  {
    if sectionErrors == [] then [] else MessageHeader + Blocks(sectionErrors)
  }

  lemma {:induction false} BulletsSplit(errors: seq<string>, j: nat)
    requires j < |errors|
    ensures Bullets(errors) == Bullets(errors[..j]) + ("• " + errors[j] + "\n") + Bullets(errors[j + 1..])
  {
    if j > 0 {
      BulletsSplit(errors[1..], j - 1);
      assert errors[1..][..j - 1] == errors[1..j];
      assert errors[1..][j..] == errors[j + 1..];
      assert errors[..j] == [errors[0]] + errors[1..j];
      assert errors[..j][1..] == errors[1..j];
    } else {
      assert errors[..0] == [];
      assert errors[1..] == errors[j + 1..];
    }
  }

  lemma {:induction false} BlocksSplit(sections: seq<(string, seq<string>)>, i: nat)
    requires i < |sections|
    ensures Blocks(sections) == Blocks(sections[..i]) + SectionBlock(sections[i].0, sections[i].1) + Blocks(sections[i + 1..])
  {
    if i > 0 {
      BlocksSplit(sections[1..], i - 1);
      assert sections[1..][..i - 1] == sections[1..i];
      assert sections[1..][i..] == sections[i + 1..];
      assert sections[..i][1..] == sections[1..i];
    } else {
      assert sections[..0] == [];
      assert sections[1..] == sections[i + 1..];
    }
  }

  /** Every reported error appears in the message as its own "• " line. */
  lemma MessageMentionsEveryError(sectionErrors: seq<(string, seq<string>)>, i: nat, j: nat)
    requires i < |sectionErrors| && j < |sectionErrors[i].1|
    ensures Infix("• " + sectionErrors[i].1[j] + "\n", ValidationMessage(sectionErrors))
  {
    var (name, errors) := sectionErrors[i];
    var line := "• " + errors[j] + "\n";
    BulletsSplit(errors, j);
    InfixOf(Bullets(errors[..j]), line, Bullets(errors[j + 1..]));
    InfixOf("**" + Label(name) + ":**\n", Bullets(errors), "\n");
    InfixWithin(line, Bullets(errors), SectionBlock(name, errors));
    BlocksSplit(sectionErrors, i);
    InfixOf(Blocks(sectionErrors[..i]), SectionBlock(name, errors), Blocks(sectionErrors[i + 1..]));
    InfixWithin(line, SectionBlock(name, errors), Blocks(sectionErrors));
    InfixOf(MessageHeader, Blocks(sectionErrors), []);
    assert MessageHeader + Blocks(sectionErrors) + [] == ValidationMessage(sectionErrors);
    InfixWithin(line, Blocks(sectionErrors), ValidationMessage(sectionErrors));
  }

  /** The line of one error under its section title. */
  function ErrorLine(error: string): string {
    "• " + error + "\n"
  }

  /** One section of the message, written as the join of its lines: the
      bold title line, one line per error in order, and a blank line. */
  function SectionText(entry: (string, seq<string>)): string {
    "**" + Label(entry.0) + ":**\n" + Concat(Map(ErrorLine, entry.1)) + "\n"
  }

  lemma {:induction false} BulletsAreErrorLines(errors: seq<string>)
    ensures Bullets(errors) == Concat(Map(ErrorLine, errors))
  {
    if errors != [] {
      MapTail(ErrorLine, errors);
      BulletsAreErrorLines(errors[1..]);
    }
  }

  lemma {:induction false} BlocksAreSectionTexts(sections: seq<(string, seq<string>)>)
    ensures Blocks(sections) == Concat(Map(SectionText, sections))
  {
    if sections != [] {
      MapTail(SectionText, sections);
      BulletsAreErrorLines(sections[0].1);
      BlocksAreSectionTexts(sections[1..]);
    }
  }

  /** The whole message: the header, then for every section in the map's
      order its bold title line, its errors one per line in order, and a
      blank line. */
  lemma MessageLayout(sectionErrors: seq<(string, seq<string>)>)
    requires sectionErrors != []
    ensures ValidationMessage(sectionErrors) == MessageHeader + Concat(Map(SectionText, sectionErrors))
  {
    BlocksAreSectionTexts(sectionErrors);
  }

  /** `check_field_length`: false for the empty string whatever the bounds;
      otherwise whether the stripped length lies within the bounds. */
  function CheckFieldLength(value: string, minLength: int := 10, maxLength: int := 5000): (ok: bool)
    ensures value == [] ==> !ok
    ensures value != [] ==> (ok <==> minLength <= |Strip(value)| <= maxLength)
  {
    if value == [] then false
    else
      var length := |Strip(value)|;
      minLength <= length <= maxLength
  }

  /** With a positive minimum, passing the length check implies the field
      is not blank, so it also passes required-field validation; a
      whitespace-only value passes whenever the minimum allows length 0. */
  lemma LengthCheckAndBlank(value: string, minLength: int, maxLength: int)
    ensures 0 < minLength && CheckFieldLength(value, minLength, maxLength) ==> !Blank(value)
    ensures value != [] && Blank(value) && minLength <= 0 <= maxLength ==> CheckFieldLength(value, minLength, maxLength)
  {
  }
}
