/**
 The page's generate flow: the form that submits a marketplace URL and an
 optional image URL, and the handler that runs the generator and keeps the
 page state (infographic, loading flag, error text) in step with it.
 */
module App {
  import opened Results
  import opened JsString
  import opened Json
  import opened Types
  import opened GeminiService
  import opened InfographicDisplay

  const EmptyUrlMessage := "Por favor, insira a URL do anúncio."
  const DefaultErrorMessage := "Ocorreu um erro desconhecido."

  /** The page state. The infographic is kept as the untyped value the
      generator returned, with the image URL merged in. */
  datatype AppState = AppState(infographicData: Option<JValue>, isLoading: bool, error: Option<string>)

  const InitialState := AppState(None, false, None)

  /** What the form hands to the page. */
  datatype GenerateRequest = GenerateRequest(marketplaceUrl: string, imageUrl: string)

  /** The form's submit handler: it submits both fields as typed, and only
      when the marketplace URL is not empty. */
  function SubmitProductForm(marketplaceUrl: string, imageUrl: string): (r: Option<GenerateRequest>)
    ensures r.Some? <==> marketplaceUrl != ""
    ensures r.Some? ==> r.value.marketplaceUrl == marketplaceUrl && r.value.imageUrl == imageUrl
  {
    if marketplaceUrl != "" then Some(GenerateRequest(marketplaceUrl, imageUrl)) else None
  }

  /** `{ ...data, productImageUrl: imageUrl }`: the same object with the
      image URL set, even to the empty string. */
  function MergeImageUrl(data: JValue, imageUrl: string): (r: JValue)
    requires data.JObject?
    ensures r.JObject? && r.fields.Keys == data.fields.Keys + {"productImageUrl"}
    ensures Member(r, "productImageUrl") == Some(JString(imageUrl))
    ensures forall k | k in data.fields && k != "productImageUrl" :: r.fields[k] == data.fields[k]
  {
    JObject(data.fields["productImageUrl" := JString(imageUrl)])
  }

  /** `err.message || 'Ocorreu um erro desconhecido.'`. */
  function ErrorText(e: Thrown): (r: string)
    ensures r != ""
    ensures e.Error? && e.message != "" ==> r == e.message
    ensures r == DefaultErrorMessage <==> e.NonError? || e.message == "" || e.message == DefaultErrorMessage
  {
    if e.Error? && e.message != "" then e.message else DefaultErrorMessage
  }

  /** One call of the handler: the state it shows while the generator runs
      (none when it stops at once), the state it ends in, and the run of
      the generator it waited for (none when it did not call it). */
  datatype Generation = Generation(pending: Option<AppState>, final: AppState, run: Option<UrlRun>)

  /** `handleGenerate`. An empty URL only sets the error, leaving the rest
      of the state alone. Otherwise the page clears the infographic and the
      error and shows the loading state, runs the generator, and on success
      shows its infographic with the image URL merged in, on failure the
      error's message; the loading flag drops either way. */
  function HandleGenerate(s: AppState, req: GenerateRequest, ai: GenAi): (g: Generation)
    ensures req.marketplaceUrl == "" ==> g == Generation(None, s.(error := Some(EmptyUrlMessage)), None)
    ensures req.marketplaceUrl != "" ==>
              && g.pending == Some(AppState(None, true, None))
              && g.run == Some(GenerateInfographicFromUrl(req.marketplaceUrl, ai))
              && !g.final.isLoading
              && (g.final.infographicData.Some? <==> g.final.error.None?)
    ensures g.run.Some? && g.run.value.outcome.Success? ==>
              && g.run.value.outcome.value.JObject?
              && g.final.infographicData == Some(MergeImageUrl(g.run.value.outcome.value, req.imageUrl))
    ensures g.run.Some? && g.run.value.outcome.Failure? ==>
              g.final.error == Some(ErrorText(g.run.value.outcome.error))
  {
    if req.marketplaceUrl == "" then
      Generation(None, s.(error := Some(EmptyUrlMessage)), None)
    else
      var pending := AppState(None, true, None);
      var run := GenerateInfographicFromUrl(req.marketplaceUrl, ai);
      match run.outcome
      case Success(data) =>
        TruthyMemberOfObject(data, "productName");
        Generation(Some(pending), pending.(infographicData := Some(MergeImageUrl(data, req.imageUrl)), isLoading := false), Some(run))
      case Failure(e) =>
        Generation(Some(pending), pending.(error := Some(ErrorText(e)), isLoading := false), Some(run))
  }

  /** The typed view of the stored infographic, as the display receives it. */
  function ShownData(s: AppState): Option<InfographicData>
  {
    if s.infographicData.Some? then DecodeInfographic(s.infographicData.value) else None
  }

  // ---------------------------------------------------------------------
  // Lemmas
  // ---------------------------------------------------------------------

  /** Through the form the handler never takes its empty-URL branch: every
      submission starts a generation. */
  lemma FormSubmissionsAlwaysGenerate(s: AppState, url: string, imageUrl: string, ai: GenAi)
    requires SubmitProductForm(url, imageUrl).Some?
    ensures HandleGenerate(s, SubmitProductForm(url, imageUrl).value, ai).pending.Some?
    ensures HandleGenerate(s, SubmitProductForm(url, imageUrl).value, ai).run.Some?
  {
  }

  /** A failed generation shows the generator's own message, which always
      names the failure; the handler's fallback text never appears. */
  lemma FailureShowsGeneratorMessage(s: AppState, req: GenerateRequest, ai: GenAi)
    requires req.marketplaceUrl != ""
    requires GenerateInfographicFromUrl(req.marketplaceUrl, ai).outcome.Failure?
    ensures HandleGenerate(s, req, ai).final.error ==
              Some(GenerateInfographicFromUrl(req.marketplaceUrl, ai).outcome.error.message)
    ensures StartsWith(HandleGenerate(s, req, ai).final.error.value, WrapPrefix)
    ensures HandleGenerate(s, req, ai).final.error.value != DefaultErrorMessage
  {
    var m := GenerateInfographicFromUrl(req.marketplaceUrl, ai).outcome.error.message;
    assert m[0] == WrapPrefix[0] == 'F';
    assert DefaultErrorMessage[0] == 'O';
  }

  /** Merging the image URL into an infographic's JSON is setting the
      record's image field. */
  lemma MergeMatchesRecordUpdate(d: InfographicData, imageUrl: string)
    ensures MergeImageUrl(InfographicToJson(d), imageUrl) == InfographicToJson(d.(productImageUrl := Some(imageUrl)))
  {
  }

  /** Decoding after the merge is decoding first and then setting the
      image field: the merge touches no key the other fields are read from. */
  lemma DecodeAfterMerge(data: JValue, imageUrl: string)
    requires data.JObject? && DecodeInfographic(data).Some?
    ensures DecodeInfographic(MergeImageUrl(data, imageUrl)) ==
              Some(DecodeInfographic(data).value.(productImageUrl := Some(imageUrl)))
  {
    var merged := MergeImageUrl(data, imageUrl);
    assert StringMember(merged, "productName") == StringMember(data, "productName");
    assert StringMember(merged, "headline") == StringMember(data, "headline");
    assert StringMember(merged, "summary") == StringMember(data, "summary");
    assert Member(merged, "benefits") == Member(data, "benefits");
  }

  /** End to end: when the composition reply is shaped like `d`, the page
      ends showing `d` with the form's image URL, an empty one included. */
  lemma GenerationShowsInfographic(s: AppState, req: GenerateRequest, ai: GenAi, data: JValue, raw: string, d: InfographicData)
    requires req.marketplaceUrl != ""
    requires ExtractProductInfo(ai.extract(req.marketplaceUrl), ai.parse) == Success(data)
    requires Complete(FactsOf(data))
    requires ai.compose(FactsOf(data)) == Replied(raw)
    requires ai.parse(Trim(raw)) == Some(InfographicToJson(d))
    requires d.productName != "" && d.headline != "" && d.summary != ""
    ensures HandleGenerate(s, req, ai).final.error.None?
    ensures ShownData(HandleGenerate(s, req, ai).final) == Some(d.(productImageUrl := Some(req.imageUrl)))
  {
    var run := GenerateInfographicFromUrl(req.marketplaceUrl, ai);
    UrlPipelineKeepsInfographic(req.marketplaceUrl, ai, data, raw, d);
    TruthyMemberOfObject(run.outcome.value, "productName");
    DecodeAfterMerge(run.outcome.value, req.imageUrl);
  }

  /** The page's screen through a generation: the skeleton while it runs;
      afterwards the infographic on success and the placeholder on
      failure. */
  lemma ScreenFollowsGeneration(s: AppState, req: GenerateRequest, ai: GenAi)
    requires req.marketplaceUrl != ""
    ensures var g := HandleGenerate(s, req, ai);
            Render(g.pending.value.isLoading, ShownData(g.pending.value)) == Skeleton
    ensures var g := HandleGenerate(s, req, ai);
            g.run.value.outcome.Failure? ==> Render(g.final.isLoading, ShownData(g.final)) == Placeholder
  {
  }
}
