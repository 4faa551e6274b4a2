# Infographic generator — a Dafny model

The application turns a product's marketplace URL into a benefits
infographic. It does so in two calls to a generative model:

1. **Extraction** reads the page and replies with a JSON object. The object
   holds `productName`, `productDescription` and `benefitsList`.
2. **Composition** turns those facts into an infographic. The infographic
   has a product name, a headline, a summary and a list of benefits, and
   each benefit has a title, a description and an icon name.

The page shows the result, with an optional image URL merged in. From the
page the user can download the image or copy it to the clipboard.

This project models the parts of that flow that are logic rather than I/O.
It proves what they promise.

- `results.dfy` (module `Results`): the `Option` and `Result` types.
- `js_string.dfy` (module `JsString`): the JavaScript string operations the
  code relies on. These are `trim`, `indexOf`, `lastIndexOf`, `includes` and
  `replace(/\s+/g, '-')`. Whitespace is exactly the ECMAScript WhiteSpace and
  LineTerminator set.
- `json.dfy` (module `Json`): the values `JSON.parse` yields, property access
  that may give `undefined`, JavaScript truthiness, and `Array.isArray`.
- `types.dfy` (module `Types`): `Benefit`, `InfographicData` and the closed
  `IconName` set. It also has an encoding of infographics as JSON and a
  decoder. The decoder is proved to read back whatever the encoder writes.
  The converse does not hold: the decoder ignores keys it does not know.
  `IconName` only records the closed set of names that types.ts declares.
  The program never parses icon names. The display casts a benefit's icon
  string without checking it, so a card's icon stays a free string.
- `gemini_service.dfy` (module `GeminiService`): the three service functions.
  - Extraction trims the reply and slices out the first `{` to the last `}`.
    It parses the slice and checks that the three keys are not `undefined`.
    It then sorts errors into those it rethrows and those it replaces.
  - Composition checks the three texts for truthiness and that `benefits`
    is an array. It replaces every failure with one message.
  - The orchestrator stops before composition when a fact is falsy. It
    prefixes every error with `Falha ao gerar infográfico: `.
  - The model and `JSON.parse` are parameters (`GenAi`). A reply is either
    a thrown value or a text.
- `infographic_display.dfy` (module `InfographicDisplay`): the display
  component. It covers the download file name and the benefit cards with
  their six cycling colour classes. It also covers the choice between the
  loading skeleton, the placeholder and the infographic, and the copy
  button's guard and outcome.
- `app.dfy` (module `App`): the form's submit guard and `handleGenerate`.
  The latter is a function from the page state, the request and the model
  to the state shown while waiting and the final state.

Strings are sequences of Unicode characters. The source works on UTF-16
code units, but the positions in this model are character positions; the
two agree on text without astral characters.

The code's checks are looser than its prompts suggest, and its errors are
less specific:

- Composition accepts an empty `benefits` array. It does not check the
  benefit elements at all.
- The "non-empty" checks are JavaScript truthiness checks. Extraction's
  check is only "not `undefined`", so empty strings pass it.
- Errors from both stages reach the caller with the same prefix
  `Falha ao gerar infográfico: `, not with a stage-specific context.
- Composition parses the trimmed reply directly, without the brace slicing
  that extraction does.

## Model

| member | source | states |
|---|---|---|
| JsString.IsWhitespace | services/geminiService.ts:66 | No contract of its own. It is the ECMAScript WhiteSpace and LineTerminator set that `trim` uses here and that `\s` uses in components/InfographicDisplay.tsx:24. It is characterised by Trim, TrimOffset and ReplaceRunsShape. |
| JsString.Contains | services/geminiService.ts:94 | No contract of its own. It models `includes`, and is characterised by NoObjectMessageKept, ParseMessagesKept and NullReadMessageHidden. |
| JsString.Trim | services/geminiService.ts:66 | The result is a contiguous middle part of the input. Only whitespace lies outside it, and it neither starts nor ends with whitespace. |
| JsString.TrimOffset | services/geminiService.ts:66 | The number of characters `trim` removes from the front: all of them whitespace, and followed by a non-whitespace character unless the text ends there. |
| JsString.TrimIdempotent | services/geminiService.ts:66 | Trimming trimmed text changes nothing. This holds for the `trim` here and for the one at line 135. |
| JsString.IndexOf | services/geminiService.ts:70 | `-1` exactly when the character is absent. Otherwise the position of its first occurrence. |
| JsString.LastIndexOf | services/geminiService.ts:71 | `-1` exactly when the character is absent. Otherwise the position of its last occurrence. |
| JsString.ReplaceRunsShape | components/InfographicDisplay.tsx:24 | Replacing whitespace runs leaves no whitespace and never lengthens the text. It gives empty text only for empty text. |
| JsString.ReplaceRunsIdentity | components/InfographicDisplay.tsx:24 | Text without whitespace is left unchanged. |
| JsString.ReplaceRunsAllWhitespace | components/InfographicDisplay.tsx:24 | A non-empty all-whitespace text becomes a single `-`. |
| JsString.ReplaceRunsSplit | components/InfographicDisplay.tsx:24 | A maximal whitespace run between two parts becomes exactly one `-`. The two parts are replaced independently. |
| JsString.ReplaceRunsAppend | components/InfographicDisplay.tsx:24 | The left-to-right scan of a concatenation is the scan of the first part followed by the scan of the second. The second scan starts in the run state the first ended in. |
| JsString.ReplaceWhitespaceRuns | components/InfographicDisplay.tsx:24 | No contract of its own. It models `replace(/\s+/g, '-')` and is characterised by ReplaceRunsShape, ReplaceRunsIdentity, ReplaceRunsAllWhitespace and ReplaceRunsSplit. |
| Json.Member | services/geminiService.ts:87 | No contract of its own. It models a property read that may give `undefined`, and is characterised by TruthyMemberOfObject and by the extraction and composition lemmas. |
| Json.Truthy | services/geminiService.ts:138 | No contract of its own. It models JavaScript truthiness, and is characterised by TruthyMemberOfObject, ContentAcceptsEmptyBenefits and ContentRejectsMissingKeys. |
| Json.IsArray | services/geminiService.ts:138 | No contract of its own. It models `Array.isArray`, and is characterised by TruthyMemberOfObject and ContentAcceptsEmptyBenefits. |
| Json.TruthyMemberOfObject | services/geminiService.ts:138 | A property is truthy or an array only on an object that owns it. |
| Types.ParseIconName | types.ts:15 | Reading an icon name gives back the icon whose text it is. |
| Types.IconNameRoundTrip | types.ts:15 | Every one of the sixteen icon names reads back as itself. |
| Types.IconTextInjective | types.ts:15 | Distinct icons have distinct names. |
| Types.DecodeBenefits | types.ts:11 | Decoding an array succeeds exactly when every element decodes. The result keeps the array's length and order. |
| Types.BenefitRoundTrip | types.ts:1-5 | A benefit written as JSON reads back as the same benefit. |
| Types.BenefitsRoundTrip | types.ts:11 | A benefit list written as JSON reads back as the same list, in the same order. |
| Types.InfographicRoundTrip | types.ts:7-13 | An infographic written as JSON reads back as itself, with or without an image URL. |
| GeminiService.SliceJsonObject | services/geminiService.ts:70-77 | Fails exactly when no `{` comes before a `}`. Otherwise the slice runs from the first `{` to the last `}`, inclusive. |
| GeminiService.SliceFindsEmbeddedObject | services/geminiService.ts:70-77 | Suppose the text before an object has no `{` and the text after it has no `}`. Then the slice is exactly that object, whatever braces it holds. |
| GeminiService.SliceIgnoresTrim | services/geminiService.ts:66-77 | Trimming before slicing does not change the slice. |
| GeminiService.ExtractionAttempt | services/geminiService.ts:56-91 | Success requires a text reply whose parse is not null and has all three keys. |
| GeminiService.KeptByExtraction | services/geminiService.ts:94 | No contract of its own. It models the catch condition, and is characterised by NoObjectMessageKept, ParseMessagesKept, NullReadMessageHidden and ExtractClassifiesServiceErrors. |
| GeminiService.ExtractProductInfo | services/geminiService.ts:56-98 | Every failure is an `Error`. It is either a kept message (one mentioning "JSON" or "IA não continha") or the fixed extraction message. |
| GeminiService.NoObjectMessage | services/geminiService.ts:74 | No contract of its own. It models the template literal quoting the trimmed reply, and is characterised by NoObjectMessageKept and ExtractRejectsReplyWithoutObject. |
| GeminiService.NoObjectMessageKept | services/geminiService.ts:73-75 | The missing-object message always passes the extraction `catch` unchanged. |
| GeminiService.ParseMessagesKept | services/geminiService.ts:84-95 | The invalid-JSON and missing-fields messages pass the extraction `catch` unchanged. |
| GeminiService.NullReadMessageHidden | services/geminiService.ts:87-97 | The engine's error for reading a property of `null` is not kept by the `catch`. |
| GeminiService.ExtractRejectsReplyWithoutObject | services/geminiService.ts:70-75 | A reply with no `{` before a `}` fails with the missing-object message, which quotes the trimmed reply. |
| GeminiService.ExtractRejectsUnparsableObject | services/geminiService.ts:79-85 | A slice the parser rejects fails with the invalid-JSON message. |
| GeminiService.ExtractRejectsMissingField | services/geminiService.ts:87-89 | A parsed value lacking any of the three keys fails with the missing-fields message. |
| GeminiService.ExtractHidesNullRead | services/geminiService.ts:87-97 | A slice that parses to `null` surfaces as the fixed extraction message. |
| GeminiService.ExtractAcceptsPresentFields | services/geminiService.ts:87-91 | A parsed value with the three keys present is returned unchanged, whatever their values, empty strings included. |
| GeminiService.ExtractAcceptsEmbeddedObject | services/geminiService.ts:66-91 | An object wrapped in prose or code fences is found, parsed and returned. |
| GeminiService.ExtractClassifiesServiceErrors | services/geminiService.ts:92-98 | A service error is rethrown when it is kept. Otherwise it is replaced by the fixed extraction message. |
| GeminiService.AcceptedContent | services/geminiService.ts:138 | No contract of its own. It models the four composition checks, and is characterised by GenerateInfographicContent, ContentAcceptsEmptyBenefits and ContentRejectsMissingKeys. |
| GeminiService.CompositionAttempt | services/geminiService.ts:124-142 | No contract of its own. It models the composition `try` body, and its outcomes are pinned by GenerateInfographicContent's contract. |
| GeminiService.GenerateInfographicContent | services/geminiService.ts:135-146 | Succeeds exactly when the trimmed reply parses and has truthy `productName`, `headline` and `summary` and an array `benefits`. It then returns the parsed value. Every failure is the one fixed composition message. |
| GeminiService.ContentAcceptsEmptyBenefits | services/geminiService.ts:138-142 | Any parsed reply with truthy `productName`, `headline` and `summary` and an empty `benefits` array is returned unchanged. The array's length is not checked. |
| GeminiService.ContentRejectsMissingKeys | services/geminiService.ts:138-145 | A parsed reply lacking any one of `productName`, `headline`, `summary` or `benefits` fails with the fixed composition message. |
| GeminiService.ContentKeepsInfographic | services/geminiService.ts:135-142 | Suppose a reply is shaped like an infographic with non-empty texts. Then it decodes back to that infographic, with benefits in order. |
| GeminiService.WrapError | services/geminiService.ts:160-163 | A wrapped error is an `Error` with a non-empty message. |
| GeminiService.FactsOf | services/geminiService.ts:152 | No contract of its own. It models the destructuring of the extraction result, and is characterised by ComposesExactlyOnCompleteFacts. |
| GeminiService.Complete | services/geminiService.ts:153 | No contract of its own. It models the truthiness check on the three facts, and is characterised by ComposesExactlyOnCompleteFacts and StopsOnIncompleteFacts. |
| GeminiService.GenerateInfographicFromUrl | services/geminiService.ts:150-165 | Composition only ever sees complete facts. Success means composition ran and its result passed validation. Every failure is an `Error` whose message starts with the prefix. |
| GeminiService.ComposesExactlyOnCompleteFacts | services/geminiService.ts:152-156 | Composition is called if and only if extraction succeeded with three truthy facts. It receives those facts unchanged. |
| GeminiService.StopsOnIncompleteFacts | services/geminiService.ts:153-155 | Incomplete facts fail with the prefixed incomplete-facts message, and composition is not called. |
| GeminiService.WrapsExtractionErrors | services/geminiService.ts:158-162 | An extraction failure reaches the caller as the prefix followed by its message. |
| GeminiService.ReturnsComposition | services/geminiService.ts:152-162 | After extraction gives complete facts, composition is called with exactly those facts. The result is then its parsed reply unchanged, or the prefixed composition message. |
| GeminiService.NeverUnknownError | services/geminiService.ts:160-163 | The unknown-error message is never produced, because every error reaching the orchestrator's `catch` is an `Error`. |
| GeminiService.UrlPipelineKeepsInfographic | services/geminiService.ts:150-157 | End to end, a composition reply shaped like an infographic gives back that infographic, with benefits in order. |
| InfographicDisplay.FileStem | components/InfographicDisplay.tsx:24 | The file-name stem is never empty and contains no whitespace. |
| InfographicDisplay.DownloadFileName | components/InfographicDisplay.tsx:24 | The name starts with `infografico-`, ends with `.png`, and has a non-empty stem between them. |
| InfographicDisplay.FileNameHasNoWhitespace | components/InfographicDisplay.tsx:24 | The file name contains no whitespace, whatever the product is called. |
| InfographicDisplay.FileNameFallback | components/InfographicDisplay.tsx:24 | An absent or empty name gives `infografico-produto.png`. |
| InfographicDisplay.FileNameOfBlankName | components/InfographicDisplay.tsx:24 | An all-whitespace name gives `infografico--.png`, not the fallback. |
| InfographicDisplay.FileNameOfPlainName | components/InfographicDisplay.tsx:24 | A name without whitespace is used as it is. |
| InfographicDisplay.FileNameJoinsWords | components/InfographicDisplay.tsx:24 | Each whitespace run between words becomes exactly one `-`. |
| InfographicDisplay.CardsFrom | components/InfographicDisplay.tsx:140-150 | There is one card per benefit, in order, carrying its texts and icon. The colour follows the card's position on the page. |
| InfographicDisplay.BenefitCards | components/InfographicDisplay.tsx:140-142 | Card `i` shows benefit `i` and has colour class `i % 6`, always within the six colours. |
| InfographicDisplay.IconColorsDistinct | components/InfographicDisplay.tsx:79-86 | The six colour classes are pairwise different. |
| InfographicDisplay.CardColorsCycle | components/InfographicDisplay.tsx:140-142 | Two cards share a colour exactly when their positions differ by a multiple of six. |
| InfographicDisplay.Render | components/InfographicDisplay.tsx:63-136 | Loading shows the skeleton whatever the data. Otherwise no data shows the placeholder, and data shows its texts, its cards, and its image only when the image URL is non-empty. |
| InfographicDisplay.BeginCopy | components/InfographicDisplay.tsx:35-42 | Copying starts if and only if the browser supports it and no copy is running or just done. An unsupported browser always gets an alert. |
| InfographicDisplay.FinishCopy | components/InfographicDisplay.tsx:43-60 | The copy ends with `isCopying` cleared. Success, and only success, marks the image copied and shows no alert. A missing blob alerts `Falha ao copiar imagem: ` followed by the missing-image text. A thrown `Error` alerts the prefix followed by its own message. Any other thrown value alerts the prefix followed by the unknown-error text. |
| InfographicDisplay.MissingBlobIsThrownError | components/InfographicDisplay.tsx:46-48 | A missing blob ends the copy exactly as a thrown `Error` with the missing-image text would. |
| InfographicDisplay.UnknownErrorAlertOnlyForNonError | components/InfographicDisplay.tsx:54-55 | The unknown-error alert comes only from a thrown value that is not an `Error`, or from an `Error` whose message is that very text. |
| InfographicDisplay.CopyIsNotReentrant | components/InfographicDisplay.tsx:40 | A second click neither during a copy nor right after a successful one starts another copy. |
| App.SubmitProductForm | App.tsx:18-23 | The form submits exactly when the marketplace URL is non-empty. It passes both fields through unchanged. |
| App.MergeImageUrl | App.tsx:242 | The merged object has `productImageUrl` set to the form's URL, even an empty one. Every other key is unchanged. |
| App.ErrorText | App.tsx:245 | The shown text is never empty. It is the error's own message when that is non-empty, and the default text otherwise. |
| App.ShownData | App.tsx:297 | No contract of its own. It models `data={infographicData}` as a decode of the stored value, and is characterised by GenerationShowsInfographic and ScreenFollowsGeneration. |
| App.HandleGenerate | App.tsx:232-249 | An empty URL only sets the error. Otherwise the page clears data and error and shows loading, and calls the pipeline once. It then ends not loading, with either data or an error but never both. Success stores the merged data and failure stores the error text. |
| App.FormSubmissionsAlwaysGenerate | App.tsx:233-236 | Through the form, the handler's empty-URL branch is never taken. |
| App.FailureShowsGeneratorMessage | App.tsx:244-245 | A failed generation shows the pipeline's prefixed message, never the handler's default text. |
| App.MergeMatchesRecordUpdate | App.tsx:242 | Merging the image URL into an infographic's JSON is setting the record's image field. |
| App.DecodeAfterMerge | App.tsx:242 | Decoding after the merge equals decoding first and then setting the image field. |
| App.GenerationShowsInfographic | App.tsx:241-243 | End to end, a composition reply shaped like an infographic ends on the page as that infographic. It carries the form's image URL and no error. |
| App.ScreenFollowsGeneration | App.tsx:237-248 | The skeleton shows while the pipeline runs, and the placeholder shows after a failure. |

## Left out

- The network calls to the generative model, the model names, temperatures, the search tool and the response schema are left out. Each stage's reply is a parameter: either a thrown value or a text. A `response.text` that is `undefined` makes `trim` throw; it is folded into the thrown case.
- `JSON.parse` is an abstract parameter returning an optional value. Its grammar is not modelled.
- The prompt texts are left out. They only embed the URL and the facts.
- Console logging is left out.
- App.tsx:245 reads `err.message` from whatever was thrown, so a thrown non-`Error` with a `message` property would show that property. In the model a non-`Error` has no message, so `App.ErrorText` gives it the default text. The case cannot arise, because the orchestrator only ever throws `Error`s (`GeminiService.NeverUnknownError`).
- The text of the `SyntaxError` that `JSON.parse` throws in composition is engine-specific. It is a placeholder constant, and the composition `catch` replaces it anyway.
- Zoom in and out are left out. They are floating-point steps of 0.1 with clamping, and nothing else depends on them.
- `html2canvas`, canvas and blob encoding, the clipboard and the DOM download link are left out; they are browser I/O. The copy flow takes the outcome of capturing and writing the image as a parameter. The download flow's own error alert and `isDownloading` flag are not modelled, only its file name.
- The two-second `setTimeout` that resets `hasCopied` is left out because it is timing. `CopyIsNotReentrant` covers the state before that reset.
- The theme toggle, the JSX layout, the error banner's markup and the icon drawing are left out.
- components/InfographicSkeleton.tsx, components/ProductForm.tsx and components/ManualInputForm.tsx are not part of this model. They are rendering only, or repeat the form guard already modelled from App.tsx.
- App.tsx defines its own copy of the display component. It differs from components/InfographicDisplay.tsx only in the placeholder's wording, so it is modelled once, from the component file.
- The display component is given typed data. The page stores the untyped value the pipeline returned. `App.ShownData` links the two by decoding, so a stored value that is not shaped like an infographic shows the placeholder in the model.
- Text positions are Unicode character positions, not UTF-16 code units.
- The extraction and composition error texts are modelled as fixed constants. Only their first characters and the trigger words are used in proofs.
