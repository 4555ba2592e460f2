/** The submit handler of `src/add-api-key.tsx`: required-field validation,
    the choice of service name and the parsing of the comma-separated
    category field, up to the call into the store. */
module AddApiKeyForm {
  import opened Seqs
  import opened Text

  /** The dropdown values: every service name carries an emoji prefix. */
  const Services: seq<string> := [
    "🎵 ElevenLabs", "🤖 Operative", "⚡ OpenAI", "🎨 Everart Forge", "🔍 Brave Search",
    "✏️ Figma", "💡 Perplexity", "🕸️ Firecrawl", "✉️ Resend", "🔑 Custom"]

  /** The submitted form; `categories` and `service` are also kept in
      component state, which is what the handler reads. */
  datatype FormValues = FormValues(service: string, keyName: string, keyValue: string, categories: string, notes: string)

  /** What a submission does: nothing but a "Missing Fields" toast, or one
      call `addApiKey(service, name, key, categories, notes)`. */
  datatype Submission =
    | MissingFields
    | AddCall(service: string, name: string, key: string, categories: seq<string>, notes: string)

  /** The dropdown option that reveals the custom-service text field. */
  const CustomOption: string := "🔑 Custom"

  /** `selectedService === customOption ? customService : selectedService`:
      the typed name when the custom option is selected, else the selection. */
  function ChosenService(selectedService: string, customService: string, customOption: string): string {
    if selectedService == customOption then customService else selectedService
  }

  /** The choice as the handler writes it, comparing with the bare "Custom". */
  function ServiceNameAsWritten(selectedService: string, customService: string): string {
    ChosenService(selectedService, customService, "Custom")
  }

  /** The choice as the form intends it: the option that shows the text
      field is the one whose selection submits the typed name. */
  function ServiceName(selectedService: string, customService: string): string {
    ChosenService(selectedService, customService, CustomOption)
  }

  function NonEmpty(s: string): bool { s != "" }

  /** `.map(cat => cat.trim())`. */
  function TrimAll(parts: seq<string>): (r: seq<string>)
    ensures |r| == |parts| && forall i :: 0 <= i < |parts| ==> r[i] == Trim(parts[i])
    decreases |parts|
  {
    if parts == [] then [] else [Trim(parts[0])] + TrimAll(parts[1..])
  }

  /** `categories.split(',').map(cat => cat.trim()).filter(Boolean)`. */
  function ParseCategories(text: string): seq<string> {
    Filter(TrimAll(Split(text, ',')), NonEmpty)
  }

  /** `handleSubmit`, choosing the service as `serviceName` is written. */
  function HandleSubmit(values: FormValues, selectedService: string, customService: string, categories: string): Submission {
    if values.keyName == "" || values.keyValue == "" then MissingFields
    else AddCall(ServiceNameAsWritten(selectedService, customService), values.keyName, values.keyValue,
                 ParseCategories(categories), values.notes)
  }

  /** `handleSubmit` with the intended choice of service. */
  function HandleSubmitIntended(values: FormValues, selectedService: string, customService: string, categories: string): Submission {
    if values.keyName == "" || values.keyValue == "" then MissingFields
    else AddCall(ServiceName(selectedService, customService), values.keyName, values.keyValue,
                 ParseCategories(categories), values.notes)
  }

  /** A submission missing the key name or value never reaches the store;
      any other submission adds exactly the entered name, value, notes and
      parsed categories, under the service the handler chooses. */
  lemma SubmitValidation(values: FormValues, selectedService: string, customService: string, categories: string)
    ensures HandleSubmit(values, selectedService, customService, categories).MissingFields?
            <==> values.keyName == "" || values.keyValue == ""
    ensures var s := HandleSubmit(values, selectedService, customService, categories);
            s.AddCall? ==> s.service == ServiceNameAsWritten(selectedService, customService)
                           && s.name == values.keyName && s.key == values.keyValue && s.notes == values.notes
                           && s.categories == ParseCategories(categories)
  {
  }

  /** As written, whatever option of the dropdown is selected, the store is
      asked to add a key under that option's own name, and a typed name
      that is not an option never reaches it. */
  lemma SubmitIgnoresCustomName(values: FormValues, selectedService: string, customService: string, categories: string)
    requires selectedService in Services
    ensures var s := HandleSubmit(values, selectedService, customService, categories);
            s.AddCall? ==> s.service == selectedService && (customService !in Services ==> s.service != customService)
  {
    CustomNeverSelected(selectedService, customService);
  }

  /** The intended submission agrees with the written one except under the
      custom option, where it submits the typed name. */
  lemma IntendedSubmitUsesTypedName(values: FormValues, selectedService: string, customService: string, categories: string)
    requires selectedService in Services
    ensures var s := HandleSubmitIntended(values, selectedService, customService, categories);
            s.AddCall? ==> s.service == (if selectedService == CustomOption then customService else selectedService)
    ensures selectedService != CustomOption ==>
            HandleSubmitIntended(values, selectedService, customService, categories)
            == HandleSubmit(values, selectedService, customService, categories)
  {
    CustomNameReachable(selectedService, customService);
    CustomNeverSelected(selectedService, customService);
  }

  /** As written, the "Custom" test compares with a name the dropdown never
      offers: every offered value is submitted as itself, so a typed service
      name that is not itself an offered value can never be submitted. */
  lemma CustomNeverSelected(selectedService: string, customService: string)
    requires selectedService in Services
    ensures ServiceNameAsWritten(selectedService, customService) == selectedService
    ensures customService !in Services ==> ServiceNameAsWritten(selectedService, customService) != customService
  {
  }

  /** With the intended test, selecting the custom option submits whatever
      was typed, and every other offered value is submitted as itself. */
  lemma CustomNameReachable(selectedService: string, customService: string)
    requires selectedService in Services
    ensures CustomOption in Services
    ensures ServiceName(CustomOption, customService) == customService
    ensures selectedService != CustomOption ==> ServiceName(selectedService, customService) == selectedService
  {
    assert Services[9] == CustomOption;
  }

  /** The parsed categories are exactly the non-empty trimmed segments, each
      as often as it occurs among them; they are non-empty, trimmed and
      comma-free, and come in the order of the comma-separated segments. */
  lemma ParseCategoriesSpec(text: string)
    ensures forall c :: c in ParseCategories(text) <==> c in TrimAll(Split(text, ',')) && c != ""
    ensures forall c :: multiset(ParseCategories(text))[c] == if c != "" then multiset(TrimAll(Split(text, ',')))[c] else 0
    ensures forall c :: c in ParseCategories(text) ==> c != "" && Trim(c) == c && ',' !in c
    ensures IsSubsequence(ParseCategories(text), TrimAll(Split(text, ',')))
  {
    var trimmed := TrimAll(Split(text, ','));
    forall c ensures c in ParseCategories(text) <==> c in trimmed && c != "" {
      FilterMembership(trimmed, NonEmpty, c);
    }
    forall c ensures multiset(ParseCategories(text))[c] == if c != "" then multiset(trimmed)[c] else 0 {
      FilterMultiset(trimmed, NonEmpty, c);
    }
    forall c | c in ParseCategories(text) ensures c != "" && Trim(c) == c && ',' !in c {
      ParsedCategoryClean(text, c);
    }
    FilterIsSubsequence(TrimAll(Split(text, ',')), NonEmpty);
  }

  lemma ParsedCategoryClean(text: string, c: string)
    requires c in ParseCategories(text)
    ensures c != "" && Trim(c) == c && ',' !in c
  {
    var segments := Split(text, ',');
    var trimmed := TrimAll(segments);
    FilterMembership(trimmed, NonEmpty, c);
    var i :| 0 <= i < |trimmed| && trimmed[i] == c;
    var segment := segments[i];
    TrimIdempotent(segment);
    TrimKeepsOut(segment, ',');
  }

  /** Parsing a comma-joined list of clean categories gives back the list. */
  lemma ParseJoinRoundTrip(cats: seq<string>)
    requires forall i :: 0 <= i < |cats| ==> cats[i] != "" && Trim(cats[i]) == cats[i] && ',' !in cats[i]
    ensures ParseCategories(Join(cats, ',')) == cats
  {
    if cats == [] {
      ParseEmpty();
    } else {
      SplitJoin(cats, ',');
      CleanPartsSurvive(cats);
    }
  }

  lemma ParseEmpty()
    ensures ParseCategories("") == []
  {
    assert Split("", ',') == [""];
    assert TrimAll([""]) == [Trim("")];
    FilterCons("", [], NonEmpty);
  }

  lemma CleanPartsSurvive(cats: seq<string>)
    requires forall i :: 0 <= i < |cats| ==> cats[i] != "" && Trim(cats[i]) == cats[i]
    ensures Filter(TrimAll(cats), NonEmpty) == cats
  {
    assert TrimAll(cats) == cats;
    FilterLength(cats, NonEmpty);
  }
}
