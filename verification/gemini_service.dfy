/**
 The two-stage infographic generator: extraction of product facts from a
 marketplace page, composition of the infographic from those facts, and
 the orchestrator that chains them.

 The generative service and `JSON.parse` are not modelled: each stage's
 reply from the service is an input (`Reply`), and parsing is an abstract
 function from text to an optional JSON value. Prompt texts are left out.
 */
module GeminiService {
  import opened Results
  import opened JsString
  import opened Json
  import opened Types

  /** A value thrown in JavaScript: an `Error` instance with its message,
      or any other thrown value. */
  datatype Thrown = Error(message: string) | NonError

  /** What one call to the generative service gave back: it threw, or it
      answered with a response text. */
  datatype Reply = Threw(exception: Thrown) | Replied(text: string)

  // ---------------------------------------------------------------------
  // Messages
  // ---------------------------------------------------------------------

  // Some literals below are written as several `+` pieces. The pieces
  // carry no meaning; they only let proofs about a message's words work
  // on short texts.

  /** The two wordings the extraction `catch` looks for. */
  const JsonWord := "JSON"
  const NoObjectWord := "IA não continha"

  const NoObjectLead := "A resposta da " + NoObjectWord + " um objeto JSON válido. " + "Resposta recebida: \""

  /** The extraction error for a reply in which no `{ … }` span was found. */
  function NoObjectMessage(text: string): string
  {
    NoObjectLead + text + "\""
  }

  const InvalidJsonMessage := "A IA retornou uma resposta, mas o formato " + JsonWord + " era inválido."
  const MissingFieldsMessage := "O " + JsonWord + " retornado pela IA não contém os campos necessários."
  const ExtractionFailedMessage :=
    "Falha ao extrair informações do anúncio. A IA não conseguiu processar a URL. "
    + "Verifique se a página está acessível publicamente e tente novamente."
  /** What a JavaScript engine (V8) throws when a property of `null` is read. */
  const NullReadMessage := "Cannot read " + "properties " + "of null " + "(reading 'productName')"
  /** Stands for the text of the `SyntaxError` that `JSON.parse` throws on
      malformed input. That text depends on the engine and is not modelled;
      the composition `catch` replaces it in any case. */
  const ParseErrorMessage := "Unexpected token in JSON"
  const InvalidStructureMessage := "Estrutura de dados inválida recebida da API."
  const CompositionFailedMessage :=
    "Falha ao gerar o conteúdo do infográfico. Verifique os dados de entrada e tente novamente."
  const IncompleteFactsMessage :=
    "Não foi possível extrair informações completas do produto da URL. "
    + "Verifique se a página contém nome, descrição e benefícios claros."
  const WrapPrefix := "Falha ao gerar infográfico: "
  const UnknownErrorMessage := "Ocorreu um erro desconhecido " + "ao gerar o infográfico a partir da URL."

  // ---------------------------------------------------------------------
  // Locating the JSON object in a reply
  // ---------------------------------------------------------------------

  /** Some `{` comes before some `}`. */
  predicate HasBracePair(text: string)
  {
    exists i, j | 0 <= i < j < |text| :: text[i] == '{' && text[j] == '}'
  }

  /** `obj` sits at position `i` of `text`, runs from a `{` to a `}`, no `{`
      comes before it and no `}` after it. */
  predicate OutermostObjectAt(text: string, obj: string, i: int)
  {
    && OccursAt(text, obj, i)
    && |obj| >= 2 && obj[0] == '{' && obj[|obj| - 1] == '}'
    && (forall k | 0 <= k < i :: text[k] != '{')
    && (forall k | i + |obj| <= k < |text| :: text[k] != '}')
  }

  /** The span from the first `{` to the last `}`, both included; None when
      either is missing or the last `}` comes before the first `{`. */
  function SliceJsonObject(text: string): (r: Option<string>)
    ensures r.None? <==> !HasBracePair(text)
    ensures r.Some? ==> exists i | 0 <= i <= |text| - |r.value| :: OutermostObjectAt(text, r.value, i)
  {
    var startIndex := IndexOf(text, '{');
    var endIndex := LastIndexOf(text, '}');
    if startIndex == -1 || endIndex == -1 || endIndex < startIndex then
      BracePairBetweenEnds(text);
      None
    else
      var obj := text[startIndex..endIndex + 1];
      assert OutermostObjectAt(text, obj, startIndex);
      Some(obj)
  }

  /** A `{` at `i` and a `}` at `j` lie between the first `{` and the last `}`. */
  lemma BraceBounds(text: string, i: int, j: int)
    requires 0 <= i < |text| && text[i] == '{'
    requires 0 <= j < |text| && text[j] == '}'
    ensures 0 <= IndexOf(text, '{') <= i
    ensures j <= LastIndexOf(text, '}')
  {
  }

  /** When some `{` precedes some `}`, the first `{` precedes the last `}`. */
  lemma BracePairBetweenEnds(text: string)
    ensures HasBracePair(text) ==>
              0 <= IndexOf(text, '{') <= LastIndexOf(text, '}')
  {
    if HasBracePair(text) {
      var i, j :| 0 <= i < j < |text| && text[i] == '{' && text[j] == '}';
      BraceBounds(text, i, j);
    }
  }

  // ---------------------------------------------------------------------
  // Stage 1: extraction
  // ---------------------------------------------------------------------

  /** The body of the extraction `try` block, before its `catch`. */
  function ExtractionAttempt(reply: Reply, parse: string -> Option<JValue>): (r: Result<JValue, Thrown>)
    ensures r.Success? ==>
              && reply.Replied?
              && r.value != JNull
              && Member(r.value, "productName").Some?
              && Member(r.value, "productDescription").Some?
              && Member(r.value, "benefitsList").Some?
  {
    match reply
    case Threw(e) => Failure(e)
    case Replied(raw) =>
      var text := Trim(raw);
      match SliceJsonObject(text)
      case None => Failure(Error(NoObjectMessage(text)))
      case Some(jsonText) =>
        match parse(jsonText)
        case None => Failure(Error(InvalidJsonMessage))
        case Some(data) =>
          if data.JNull? then Failure(Error(NullReadMessage))
          else if Member(data, "productName").None? || Member(data, "productDescription").None?
                  || Member(data, "benefitsList").None? then
            Failure(Error(MissingFieldsMessage))
          else Success(data)
  }

  /** Errors the extraction `catch` lets through unchanged: `Error`s whose
      message mentions JSON or the missing-object wording. */
  predicate KeptByExtraction(e: Thrown)
  {
    e.Error? && (Contains(e.message, JsonWord) || Contains(e.message, NoObjectWord))
  }

  /** Extraction of the product facts from the service's reply to the
      extraction prompt. */
  function ExtractProductInfo(reply: Reply, parse: string -> Option<JValue>): (r: Result<JValue, Thrown>)
    ensures r.Failure? ==> r.error.Error?
    ensures r.Failure? ==> KeptByExtraction(r.error) || r.error == Error(ExtractionFailedMessage)
    ensures r.Success? ==>
              && reply.Replied?
              && r.value != JNull
              && Member(r.value, "productName").Some?
              && Member(r.value, "productDescription").Some?
              && Member(r.value, "benefitsList").Some?
  {
    match ExtractionAttempt(reply, parse)
    case Success(data) => Success(data)
    case Failure(e) =>
      if KeptByExtraction(e) then Failure(e) else Failure(Error(ExtractionFailedMessage))
  }

  // ---------------------------------------------------------------------
  // Stage 2: composition
  // ---------------------------------------------------------------------

  /** What the composition stage checks of the parsed reply: truthy
      `productName`, `headline` and `summary`, and an array `benefits`.
      Neither the length of the array nor its elements are checked. */
  predicate AcceptedContent(data: JValue)
  {
    && Truthy(Member(data, "productName"))
    && Truthy(Member(data, "headline"))
    && Truthy(Member(data, "summary"))
    && IsArray(Member(data, "benefits"))
  }

  /** The body of the composition `try` block, before its `catch`. Reading
      a property of `null` throws there too, and the `catch` treats that
      like every other failure. */
  function CompositionAttempt(reply: Reply, parse: string -> Option<JValue>): Result<JValue, Thrown>
  {
    match reply
    case Threw(e) => Failure(e)
    case Replied(raw) =>
      match parse(Trim(raw))
      case None => Failure(Error(ParseErrorMessage))
      case Some(data) =>
        if data.JNull? then Failure(Error(NullReadMessage))
        else if !AcceptedContent(data) then Failure(Error(InvalidStructureMessage))
        else Success(data)
  }

  /** Composition of the infographic from the service's reply to the
      composition prompt; every failure becomes one fixed message. */
  function GenerateInfographicContent(reply: Reply, parse: string -> Option<JValue>): (r: Result<JValue, Thrown>)
    ensures r.Failure? ==> r.error == Error(CompositionFailedMessage)
    ensures r.Success? <==>
              && reply.Replied?
              && parse(Trim(reply.text)).Some?
              && AcceptedContent(parse(Trim(reply.text)).value)
    ensures r.Success? ==> r.value == parse(Trim(reply.text)).value
  {
    match CompositionAttempt(reply, parse)
    case Success(data) => Success(data)
    case Failure(_) => Failure(Error(CompositionFailedMessage))
  }

  // ---------------------------------------------------------------------
  // The orchestrator
  // ---------------------------------------------------------------------

  /** The three facts extraction hands to composition. */
  datatype Facts = Facts(productName: JValue, productDescription: JValue, benefitsList: JValue)

  /** All three facts are truthy; an empty string (or `null`, `0`, `false`)
      makes the facts incomplete. */
  predicate Complete(f: Facts)
  {
    Truthy(Some(f.productName)) && Truthy(Some(f.productDescription)) && Truthy(Some(f.benefitsList))
  }

  /** The generative service as the orchestrator sees it: the reply to the
      extraction prompt for a URL, the reply to the composition prompt for
      a set of facts, and the JSON parser. */
  datatype GenAi = GenAi(
    extract: string -> Reply,
    compose: Facts -> Reply,
    parse: string -> Option<JValue>)

  /** One run of the URL pipeline: its outcome, and the facts composition
      was called with, if it was called at all. */
  datatype UrlRun = UrlRun(outcome: Result<JValue, Thrown>, composedWith: Option<Facts>)

  /** The orchestrator's `catch`: an `Error` gets the stage-independent
      prefix, anything else becomes the unknown-error message. */
  function WrapError(e: Thrown): (r: Thrown)
    ensures r.Error? && r.message != ""
    ensures e.Error? ==> StartsWith(r.message, WrapPrefix)
  {
    match e
    case Error(m) =>
      StartsWithConcat(WrapPrefix, m);
      Error(WrapPrefix + m)
    case NonError => Error(UnknownErrorMessage)
  }

  /** Extraction, the completeness check on the three facts, then composition. */
  function GenerateInfographicFromUrl(url: string, ai: GenAi): (run: UrlRun)
    ensures run.composedWith.Some? ==> Complete(run.composedWith.value)
    ensures run.outcome.Success? ==> run.composedWith.Some? && AcceptedContent(run.outcome.value)
    ensures run.outcome.Failure? ==>
              run.outcome.error.Error? && StartsWith(run.outcome.error.message, WrapPrefix)
  {
    match ExtractProductInfo(ai.extract(url), ai.parse)
    case Failure(e) => UrlRun(Failure(WrapError(e)), None)
    case Success(data) =>
      var facts := FactsOf(data);
      if !Complete(facts) then
        UrlRun(Failure(WrapError(Error(IncompleteFactsMessage))), None)
      else
        var content := GenerateInfographicContent(ai.compose(facts), ai.parse);
        UrlRun(content.MapFailure(WrapError), Some(facts))
  }

  /** The destructuring `{ productName, productDescription, benefitsList }`
      of an extraction result. */
  function FactsOf(data: JValue): Facts
    requires Member(data, "productName").Some?
    requires Member(data, "productDescription").Some?
    requires Member(data, "benefitsList").Some?
  {
    Facts(
      Member(data, "productName").value,
      Member(data, "productDescription").value,
      Member(data, "benefitsList").value)
  }

  // ---------------------------------------------------------------------
  // Lemmas: slicing
  // ---------------------------------------------------------------------

  /** Prose or code fences around an object do not disturb the slice: for
      `p + obj + q` with no `{` in `p` and no `}` in `q`, the slice is
      exactly `obj`, whatever braces `obj` holds inside. */
  lemma SliceFindsEmbeddedObject(p: string, obj: string, q: string)
    requires '{' !in p && '}' !in q
    requires |obj| >= 2 && obj[0] == '{' && obj[|obj| - 1] == '}'
    ensures SliceJsonObject(p + obj + q) == Some(obj)
  {
    var text := p + obj + q;
    var e := |p| + |obj| - 1;
    assert text[|p|] == '{' && text[e] == '}';
    BraceBounds(text, |p|, e);
    forall k | 0 <= k < |p|
      ensures text[k] != '{'
    {
      assert text[k] == p[k] && p[k] in p;
    }
    forall k | e < k < |text|
      ensures text[k] != '}'
    {
      assert text[k] == q[k - |p| - |obj|] && q[k - |p| - |obj|] in q;
    }
    assert IndexOf(text, '{') == |p|;
    assert LastIndexOf(text, '}') == e;
    assert text[|p|..e + 1] == obj;
  }

  /** Braces are not whitespace, so trimming the reply first changes nothing
      about the slice. */
  lemma SliceIgnoresTrim(raw: string)
    ensures SliceJsonObject(Trim(raw)) == SliceJsonObject(raw)
  {
    var t := Trim(raw);
    var a := TrimOffset(raw);
    if SliceJsonObject(raw).None? {
      BracePairSurvivesInWhole(raw, a, t);
    } else {
      SliceOfTrimmed(raw, a, t);
    }
  }

  /** A brace pair inside a part of the text is a brace pair of the text. */
  lemma BracePairSurvivesInWhole(raw: string, a: int, t: string)
    requires 0 <= a <= |raw| - |t| && t == raw[a..a + |t|]
    ensures HasBracePair(t) ==> HasBracePair(raw)
  {
    if HasBracePair(t) {
      var x, y :| 0 <= x < y < |t| && t[x] == '{' && t[y] == '}';
      assert raw[a + x] == '{' && raw[a + y] == '}';
    }
  }

  /** The object found in the whole text lies inside its trimmed middle,
      and is found there too. */
  lemma SliceOfTrimmed(raw: string, a: int, t: string)
    requires 0 <= a <= |raw| - |t| && t == raw[a..a + |t|]
    requires forall k | 0 <= k < a :: IsWhitespace(raw[k])
    requires forall k | a + |t| <= k < |raw| :: IsWhitespace(raw[k])
    requires SliceJsonObject(raw).Some?
    ensures SliceJsonObject(t) == SliceJsonObject(raw)
  {
    var obj := SliceJsonObject(raw).value;
    var i :| 0 <= i <= |raw| - |obj| && OutermostObjectAt(raw, obj, i);
    ObjectInsideMiddle(raw, a, t, obj, i);
    var p, q := raw[a..i], raw[i + |obj|..a + |t|];
    assert t == p + obj + q;
    forall k | 0 <= k < |p|
      ensures p[k] != '{'
    {
      assert p[k] == raw[a + k];
    }
    forall k | 0 <= k < |q|
      ensures q[k] != '}'
    {
      assert q[k] == raw[i + |obj| + k];
    }
    SliceFindsEmbeddedObject(p, obj, q);
  }

  /** Braces are not whitespace, so an outermost object lies within the
      part of the text that is left after trimming. */
  lemma ObjectInsideMiddle(raw: string, a: int, t: string, obj: string, i: int)
    requires 0 <= a <= |raw| - |t|
    requires forall k | 0 <= k < a :: IsWhitespace(raw[k])
    requires forall k | a + |t| <= k < |raw| :: IsWhitespace(raw[k])
    requires OutermostObjectAt(raw, obj, i)
    ensures a <= i && i + |obj| <= a + |t|
  {
    assert raw[i] == raw[i..i + |obj|][0] == '{';
    assert raw[i + |obj| - 1] == raw[i..i + |obj|][|obj| - 1] == '}';
  }

  // ---------------------------------------------------------------------
  // Lemmas: extraction
  // ---------------------------------------------------------------------

  /** The missing-object message mentions the missing-object wording, so
      the extraction `catch` lets it through. */
  lemma NoObjectMessageKept(text: string)
    ensures KeptByExtraction(Error(NoObjectMessage(text)))
  {
    ContainsSelf(NoObjectWord);
    ContainsAfter("A resposta da ", NoObjectWord, NoObjectWord);
    ContainsBefore("A resposta da " + NoObjectWord, " um objeto JSON válido. ", NoObjectWord);
    ContainsBefore("A resposta da " + NoObjectWord + " um objeto JSON válido. ", "Resposta recebida: \"", NoObjectWord);
    ContainsBefore(NoObjectLead, text, NoObjectWord);
    ContainsBefore(NoObjectLead + text, "\"", NoObjectWord);
  }

  /** The parser and missing-field messages both mention JSON, so the
      extraction `catch` lets them through. */
  lemma ParseMessagesKept()
    ensures KeptByExtraction(Error(InvalidJsonMessage))
    ensures KeptByExtraction(Error(MissingFieldsMessage))
  {
    ContainsSelf(JsonWord);
    ContainsAfter("A IA retornou uma resposta, mas o formato ", JsonWord, JsonWord);
    ContainsBefore("A IA retornou uma resposta, mas o formato " + JsonWord, " era inválido.", JsonWord);
    ContainsAfter("O ", JsonWord, JsonWord);
    ContainsBefore("O " + JsonWord, " retornado pela IA não contém os campos necessários.", JsonWord);
  }

  /** The engine's message for reading a property of `null` has neither
      trigger wording: it holds no `J` and no `ã`. */
  lemma NullReadMessageHidden()
    ensures !KeptByExtraction(Error(NullReadMessage))
  {
    NullReadMessageLetters();
    assert JsonWord[0] == 'J' && NoObjectWord[4] == 'ã';
    MissingCharRulesOut(NullReadMessage, JsonWord, 0);
    MissingCharRulesOut(NullReadMessage, NoObjectWord, 4);
  }

  lemma NullReadMessageLetters()
    ensures 'J' !in NullReadMessage && 'ã' !in NullReadMessage
  {
    NullReadMessageLacks('J');
    NullReadMessageLacks('ã');
  }

  lemma NullReadMessageLacks(x: char)
    requires x == 'J' || x == 'ã'
    ensures x !in NullReadMessage
  {
    var a, b, c, d := "Cannot read ", "properties ", "of null ", "(reading 'productName')";
    assert x !in a && x !in b && x !in c && x !in d;
    NotInConcat(x, a, b);
    NotInConcat(x, a + b, c);
    NotInConcat(x, a + b + c, d);
  }

  /** A reply with no `{` before a `}` fails with the missing-object
      message, which quotes the trimmed reply. */
  lemma ExtractRejectsReplyWithoutObject(raw: string, parse: string -> Option<JValue>)
    requires !HasBracePair(raw)
    ensures ExtractProductInfo(Replied(raw), parse) == Failure(Error(NoObjectMessage(Trim(raw))))
  {
    SliceIgnoresTrim(raw);
    assert ExtractionAttempt(Replied(raw), parse) == Failure(Error(NoObjectMessage(Trim(raw))));
    NoObjectMessageKept(Trim(raw));
  }

  /** A sliced object the parser rejects fails with the invalid-JSON message. */
  lemma ExtractRejectsUnparsableObject(raw: string, parse: string -> Option<JValue>)
    requires SliceJsonObject(raw).Some? && parse(SliceJsonObject(raw).value).None?
    ensures ExtractProductInfo(Replied(raw), parse) == Failure(Error(InvalidJsonMessage))
  {
    SliceIgnoresTrim(raw);
    assert ExtractionAttempt(Replied(raw), parse) == Failure(Error(InvalidJsonMessage));
    ParseMessagesKept();
  }

  /** An object lacking one of the three keys fails with the missing-fields message. */
  lemma ExtractRejectsMissingField(raw: string, parse: string -> Option<JValue>)
    requires SliceJsonObject(raw).Some?
    requires parse(SliceJsonObject(raw).value).Some?
    requires parse(SliceJsonObject(raw).value).value != JNull
    requires var data := parse(SliceJsonObject(raw).value).value;
             || Member(data, "productName").None?
             || Member(data, "productDescription").None?
             || Member(data, "benefitsList").None?
    ensures ExtractProductInfo(Replied(raw), parse) == Failure(Error(MissingFieldsMessage))
  {
    SliceIgnoresTrim(raw);
    assert ExtractionAttempt(Replied(raw), parse) == Failure(Error(MissingFieldsMessage));
    ParseMessagesKept();
  }

  /** Reading a key of a parsed `null` throws a `TypeError` whose message
      has neither trigger wording, so it surfaces as the generic message. */
  lemma ExtractHidesNullRead(raw: string, parse: string -> Option<JValue>)
    requires SliceJsonObject(raw).Some? && parse(SliceJsonObject(raw).value) == Some(JNull)
    ensures ExtractProductInfo(Replied(raw), parse) == Failure(Error(ExtractionFailedMessage))
  {
    SliceIgnoresTrim(raw);
    assert ExtractionAttempt(Replied(raw), parse) == Failure(Error(NullReadMessage));
    NullReadMessageHidden();
  }

  /** A sliced object holding the three keys is returned unchanged,
      whatever their values, empty strings included. */
  lemma ExtractAcceptsPresentFields(raw: string, parse: string -> Option<JValue>, data: JValue)
    requires SliceJsonObject(raw).Some? && parse(SliceJsonObject(raw).value) == Some(data)
    requires data != JNull
    requires Member(data, "productName").Some?
    requires Member(data, "productDescription").Some?
    requires Member(data, "benefitsList").Some?
    ensures ExtractProductInfo(Replied(raw), parse) == Success(data)
  {
    SliceIgnoresTrim(raw);
    assert SliceJsonObject(Trim(raw)) == SliceJsonObject(raw);
    assert ExtractionAttempt(Replied(raw), parse) == Success(data);
  }

  /** End to end for extraction: an object embedded in prose or code
      fences, and holding the three keys, is what extraction returns. */
  lemma ExtractAcceptsEmbeddedObject(p: string, obj: string, q: string, parse: string -> Option<JValue>, data: JValue)
    requires '{' !in p && '}' !in q
    requires |obj| >= 2 && obj[0] == '{' && obj[|obj| - 1] == '}'
    requires parse(obj) == Some(data) && data != JNull
    requires Member(data, "productName").Some?
    requires Member(data, "productDescription").Some?
    requires Member(data, "benefitsList").Some?
    ensures ExtractProductInfo(Replied(p + obj + q), parse) == Success(data)
  {
    SliceFindsEmbeddedObject(p, obj, q);
    ExtractAcceptsPresentFields(p + obj + q, parse, data);
  }

  /** A service failure keeps its message when it mentions JSON or the
      missing-object wording; any other failure, including a thrown
      non-`Error`, becomes the generic extraction message. */
  lemma ExtractClassifiesServiceErrors(e: Thrown, parse: string -> Option<JValue>)
    ensures KeptByExtraction(e) ==> ExtractProductInfo(Threw(e), parse) == Failure(e)
    ensures !KeptByExtraction(e) ==>
              ExtractProductInfo(Threw(e), parse) == Failure(Error(ExtractionFailedMessage))
  {
  }

  // ---------------------------------------------------------------------
  // Lemmas: composition
  // ---------------------------------------------------------------------

  /** The composition check does not look at the benefits' number: any
      parsed object with truthy texts and an empty `benefits` array is
      returned as it is. */
  lemma ContentAcceptsEmptyBenefits(raw: string, parse: string -> Option<JValue>, data: JValue)
    requires parse(Trim(raw)) == Some(data)
    requires Truthy(Member(data, "productName"))
    requires Truthy(Member(data, "headline"))
    requires Truthy(Member(data, "summary"))
    requires Member(data, "benefits") == Some(JArray([]))
    ensures GenerateInfographicContent(Replied(raw), parse) == Success(data)
  {
  }

  /** A parsed reply that lacks any of the four checked keys is rejected
      with the fixed composition message. */
  lemma ContentRejectsMissingKeys(raw: string, parse: string -> Option<JValue>, data: JValue, key: string)
    requires parse(Trim(raw)) == Some(data)
    requires key == "productName" || key == "headline" || key == "summary" || key == "benefits"
    requires Member(data, key) == None
    ensures GenerateInfographicContent(Replied(raw), parse) == Failure(Error(CompositionFailedMessage))
  {
  }

  /** A reply shaped like an `InfographicData` with non-empty name,
      headline and summary comes back unchanged: it reads back as the same
      record, benefits in the same order. */
  lemma ContentKeepsInfographic(raw: string, parse: string -> Option<JValue>, d: InfographicData)
    requires parse(Trim(raw)) == Some(InfographicToJson(d))
    requires d.productName != "" && d.headline != "" && d.summary != ""
    ensures GenerateInfographicContent(Replied(raw), parse).Success?
    ensures DecodeInfographic(GenerateInfographicContent(Replied(raw), parse).value) == Some(d)
  {
    InfographicRoundTrip(d);
  }

  // ---------------------------------------------------------------------
  // Lemmas: the orchestrator
  // ---------------------------------------------------------------------

  /** Composition runs exactly when extraction succeeds with three truthy
      facts, and it receives those facts unchanged. */
  lemma ComposesExactlyOnCompleteFacts(url: string, ai: GenAi)
    ensures var x := ExtractProductInfo(ai.extract(url), ai.parse);
            GenerateInfographicFromUrl(url, ai).composedWith.Some? <==> (x.Success? && Complete(FactsOf(x.value)))
    ensures var x := ExtractProductInfo(ai.extract(url), ai.parse);
            GenerateInfographicFromUrl(url, ai).composedWith.Some? ==>
              GenerateInfographicFromUrl(url, ai).composedWith == Some(FactsOf(x.value))
  {
  }

  /** An incomplete extraction stops the pipeline with the wrapped
      incomplete-facts message; composition is never called. */
  lemma StopsOnIncompleteFacts(url: string, ai: GenAi)
    requires ExtractProductInfo(ai.extract(url), ai.parse).Success?
    requires !Complete(FactsOf(ExtractProductInfo(ai.extract(url), ai.parse).value))
    ensures GenerateInfographicFromUrl(url, ai) == UrlRun(Failure(Error(WrapPrefix + IncompleteFactsMessage)), None)
  {
  }

  /** Extraction errors reach the caller with the prefix in front of their message. */
  lemma WrapsExtractionErrors(url: string, ai: GenAi)
    requires ExtractProductInfo(ai.extract(url), ai.parse).Failure?
    ensures GenerateInfographicFromUrl(url, ai) ==
              UrlRun(Failure(Error(WrapPrefix + ExtractProductInfo(ai.extract(url), ai.parse).error.message)), None)
  {
  }

  /** Once extraction has given complete facts, composition runs on
      exactly those facts, and the pipeline returns its parsed reply
      unchanged or the prefixed composition message. */
  lemma ReturnsComposition(url: string, ai: GenAi, data: JValue)
    requires ExtractProductInfo(ai.extract(url), ai.parse) == Success(data)
    requires Complete(FactsOf(data))
    ensures GenerateInfographicFromUrl(url, ai).composedWith == Some(FactsOf(data))
    ensures var run := GenerateInfographicFromUrl(url, ai);
            var reply := ai.compose(FactsOf(data));
            run.outcome.Success? ==> reply.Replied? && run.outcome.value == ai.parse(Trim(reply.text)).value
    ensures var run := GenerateInfographicFromUrl(url, ai);
            run.outcome.Failure? ==> run.outcome.error == Error(WrapPrefix + CompositionFailedMessage)
  {
  }

  /** Both stages only ever throw `Error`s, so the unknown-error branch of
      the orchestrator's `catch` is never taken. */
  lemma NeverUnknownError(url: string, ai: GenAi)
    ensures GenerateInfographicFromUrl(url, ai).outcome != Failure(Error(UnknownErrorMessage))
  {
    var run := GenerateInfographicFromUrl(url, ai);
    if run.outcome.Failure? {
      var m := run.outcome.error.message;
      assert m[..|WrapPrefix|] == WrapPrefix;
      assert m[0] == WrapPrefix[0] == 'F';
      assert UnknownErrorMessage[0] == 'O';
    }
  }

  /** End to end: complete facts and a composition reply shaped like `d`
      give back `d`, benefits in the same order. */
  lemma UrlPipelineKeepsInfographic(url: string, ai: GenAi, data: JValue, raw: string, d: InfographicData)
    requires ExtractProductInfo(ai.extract(url), ai.parse) == Success(data)
    requires Complete(FactsOf(data))
    requires ai.compose(FactsOf(data)) == Replied(raw)
    requires ai.parse(Trim(raw)) == Some(InfographicToJson(d))
    requires d.productName != "" && d.headline != "" && d.summary != ""
    ensures GenerateInfographicFromUrl(url, ai).outcome.Success?
    ensures DecodeInfographic(GenerateInfographicFromUrl(url, ai).outcome.value) == Some(d)
  {
    ContentKeepsInfographic(raw, ai.parse, d);
  }
}
