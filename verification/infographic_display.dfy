/**
 The page that shows a generated infographic: which of the three views it
 shows, the benefit cards and their colours, the name of the downloaded
 image, and the guard around copying the image to the clipboard.
 */
module InfographicDisplay {
  import opened Results
  import opened JsString
  import opened Types
  import opened GeminiService

  // ---------------------------------------------------------------------
  // Download file name
  // ---------------------------------------------------------------------

  const DownloadPrefix := "infografico-"
  const DownloadExtension := ".png"
  const FallbackStem := "produto"

  /** `data?.productName?.replace(/\s+/g, '-') || 'produto'`: the product
      name with its whitespace runs dashed, or the fallback when there is
      no name or the dashed name is empty. */
  function FileStem(productName: Option<string>): (stem: string)
    ensures stem != [] && NoWhitespace(stem)
  {
    if productName.None? then FallbackStem
    else
      ReplaceRunsShape(productName.value);
      var dashed := ReplaceWhitespaceRuns(productName.value);
      if dashed == "" then FallbackStem else dashed
  }

  /** The name the infographic is downloaded under. */
  function DownloadFileName(productName: Option<string>): (name: string)
    ensures StartsWith(name, DownloadPrefix)
    ensures |name| > |DownloadPrefix| + |DownloadExtension|
    ensures name[|name| - |DownloadExtension|..] == DownloadExtension
  {
    var name := DownloadPrefix + FileStem(productName) + DownloadExtension;
    assert name[|name| - |DownloadExtension|..] == DownloadExtension;
    name
  }

  // ---------------------------------------------------------------------
  // Benefit cards
  // ---------------------------------------------------------------------

  /** The colour classes benefit icons cycle through. */
  const IconColors: seq<string> := [
    "text-emerald-500 bg-emerald-100 dark:bg-emerald-900",
    "text-sky-500 bg-sky-100 dark:bg-sky-900",
    "text-amber-500 bg-amber-100 dark:bg-amber-900",
    "text-rose-500 bg-rose-100 dark:bg-rose-900",
    "text-violet-500 bg-violet-100 dark:bg-violet-900",
    "text-teal-500 bg-teal-100 dark:bg-teal-900"
  ]

  /** One rendered benefit: its texts, its icon name and its colour class. */
  datatype Card = Card(title: string, description: string, icon: string, colorClass: string)

  /** The cards for `benefits`, the first of which is the `start`-th benefit
      on the page. */
  function CardsFrom(benefits: seq<Benefit>, start: nat): (cards: seq<Card>)
    ensures |cards| == |benefits|
    ensures forall i | 0 <= i < |benefits| ::
              && cards[i].title == benefits[i].title
              && cards[i].description == benefits[i].description
              && cards[i].icon == benefits[i].icon
              && cards[i].colorClass == IconColors[(start + i) % |IconColors|]
  {
    if benefits == [] then []
    else
      var b := benefits[0];
      var rest := CardsFrom(benefits[1..], start + 1);
      assert forall i | 1 <= i < |benefits| :: benefits[i] == benefits[1..][i - 1];
      [Card(b.title, b.description, b.icon, IconColors[start % |IconColors|])] + rest
  }

  /** `benefits.map(...)`: one card per benefit, in array order, the `i`-th
      coloured `iconColors[i % iconColors.length]`. */
  function BenefitCards(benefits: seq<Benefit>): (cards: seq<Card>)
    ensures |cards| == |benefits|
    ensures forall i | 0 <= i < |benefits| ::
              && cards[i].title == benefits[i].title
              && cards[i].description == benefits[i].description
              && cards[i].icon == benefits[i].icon
              && cards[i].colorClass == IconColors[i % 6]
  {
    CardsFrom(benefits, 0)
  }

  // ---------------------------------------------------------------------
  // Which view is shown
  // ---------------------------------------------------------------------

  /** The content of a shown infographic. The image appears only for a
      non-empty `productImageUrl`. */
  datatype Page = Page(productName: string, headline: string, summary: string, image: Option<string>, cards: seq<Card>)

  datatype View = Skeleton | Placeholder | Infographic(page: Page)

  function Render(isLoading: bool, data: Option<InfographicData>): (v: View)
    ensures isLoading ==> v == Skeleton
    ensures !isLoading && data.None? ==> v == Placeholder
    ensures !isLoading && data.Some? ==>
              && v.Infographic?
              && v.page.productName == data.value.productName
              && v.page.headline == data.value.headline
              && v.page.summary == data.value.summary
              && v.page.cards == BenefitCards(data.value.benefits)
              && (v.page.image.Some? <==> data.value.productImageUrl.Some? && data.value.productImageUrl.value != "")
              && (v.page.image.Some? ==> v.page.image == data.value.productImageUrl)
  {
    if isLoading then Skeleton
    else match data
      case None => Placeholder
      case Some(d) =>
        var image := if d.productImageUrl.Some? && d.productImageUrl.value != "" then d.productImageUrl else None;
        Infographic(Page(d.productName, d.headline, d.summary, image, BenefitCards(d.benefits)))
  }

  // ---------------------------------------------------------------------
  // Copying the image
  // ---------------------------------------------------------------------

  const CopyUnsupportedMessage := "A cópia da imagem não é suportada neste navegador."
  const CopyFailurePrefix := "Falha ao copiar imagem: "
  const MissingBlobMessage := "Não foi possível criar a imagem para cópia."
  const CopyUnknownMessage := "Ocorreu um erro desconhecido."

  /** The copy button's flags. */
  datatype CopyState = CopyState(isCopying: bool, hasCopied: bool)

  /** The effect of one step of `handleCopy`: the flags after it, the alert
      it shows if any, and whether it goes on to capture the image. */
  datatype CopyStep = CopyStep(state: CopyState, alert: Option<string>, captures: bool)

  /** The synchronous start of `handleCopy`: an unsupported browser gets an
      alert whatever the flags say; a copy already running or just done
      makes the click do nothing; otherwise copying starts. */
  function BeginCopy(s: CopyState, supported: bool): (step: CopyStep)
    ensures step.captures <==> supported && !s.isCopying && !s.hasCopied
    ensures step.captures ==> step.state == s.(isCopying := true) && step.alert.None?
    ensures !step.captures ==> step.state == s
    ensures step.alert.Some? <==> !supported
  {
    if !supported then CopyStep(s, Some(CopyUnsupportedMessage), false)
    else if s.isCopying || s.hasCopied then CopyStep(s, None, false)
    else CopyStep(s.(isCopying := true), None, true)
  }

  /** How capturing and writing the image ended. */
  datatype CaptureOutcome = Copied | NoBlob | CaptureFailed(error: Thrown)

  /** The end of `handleCopy`: success marks the image copied, any failure
      alerts with its message, and `isCopying` is cleared either way. */
  function FinishCopy(s: CopyState, outcome: CaptureOutcome): (step: CopyStep)
    ensures !step.state.isCopying && !step.captures
    ensures step.state.hasCopied <==> outcome == Copied || s.hasCopied
    ensures step.alert.None? <==> outcome == Copied
    ensures step.alert.Some? ==> StartsWith(step.alert.value, CopyFailurePrefix)
    ensures outcome == NoBlob ==> step.alert == Some(CopyFailurePrefix + MissingBlobMessage)
    ensures outcome.CaptureFailed? && outcome.error.Error? ==>
              step.alert == Some(CopyFailurePrefix + outcome.error.message)
    ensures outcome == CaptureFailed(NonError) ==> step.alert == Some(CopyFailurePrefix + CopyUnknownMessage)
  {
    match outcome
    case Copied => CopyStep(CopyState(false, true), None, false)
    case NoBlob => CopyStep(s.(isCopying := false), Some(CopyFailurePrefix + MissingBlobMessage), false)
    case CaptureFailed(e) =>
      var message := if e.Error? then e.message else CopyUnknownMessage;
      CopyStep(s.(isCopying := false), Some(CopyFailurePrefix + message), false)
  }

  // ---------------------------------------------------------------------
  // Lemmas
  // ---------------------------------------------------------------------

  /** A missing blob is reported like any other thrown `Error`: the
      component throws it inside the same `try`. */
  lemma MissingBlobIsThrownError(s: CopyState)
    ensures FinishCopy(s, NoBlob) == FinishCopy(s, CaptureFailed(Error(MissingBlobMessage)))
  {
  }

  /** Only a thrown value that is not an `Error` gets the unknown-error
      text; an `Error` whose message happens to be that text is shown
      the same way. */
  lemma UnknownErrorAlertOnlyForNonError(s: CopyState, e: Thrown)
    requires FinishCopy(s, CaptureFailed(e)).alert == Some(CopyFailurePrefix + CopyUnknownMessage)
    ensures e == NonError || e == Error(CopyUnknownMessage)
  {
    var a := FinishCopy(s, CaptureFailed(e)).alert.value;
    if e.Error? {
      assert a == CopyFailurePrefix + e.message;
      assert e.message == a[|CopyFailurePrefix|..];
    }
  }

  /** No name, or an empty one, gives `infografico-produto.png`. */
  lemma FileNameFallback(productName: Option<string>)
    requires productName.None? || productName.value == ""
    ensures DownloadFileName(productName) == "infografico-produto.png"
  {
  }

  /** A name that is all whitespace is dashed, not replaced by the
      fallback: `infografico--.png`. */
  lemma FileNameOfBlankName(name: string)
    requires name != "" && AllWhitespace(name)
    ensures DownloadFileName(Some(name)) == "infografico--.png"
  {
    ReplaceRunsAllWhitespace(name);
  }

  /** A name without whitespace is used as it is. */
  lemma FileNameOfPlainName(name: string)
    requires name != "" && NoWhitespace(name)
    ensures DownloadFileName(Some(name)) == DownloadPrefix + name + DownloadExtension
  {
    ReplaceRunsIdentity(name);
  }

  /** A whitespace run between two parts of the name becomes one `-`. */
  lemma FileNameJoinsWords(p: string, w: string, q: string)
    requires w != [] && AllWhitespace(w)
    requires p == [] || !IsWhitespace(p[|p| - 1])
    requires q == [] || !IsWhitespace(q[0])
    ensures DownloadFileName(Some(p + w + q)) ==
              DownloadPrefix + ReplaceWhitespaceRuns(p) + "-" + ReplaceWhitespaceRuns(q) + DownloadExtension
  {
    ReplaceRunsSplit(p, w, q);
  }

  /** The downloaded file's name holds no whitespace whatever the product
      is called. */
  lemma FileNameHasNoWhitespace(productName: Option<string>)
    ensures NoWhitespace(DownloadFileName(productName))
  {
    var stem := FileStem(productName);
    var name := DownloadFileName(productName);
    assert name == DownloadPrefix + stem + DownloadExtension;
    forall i | 0 <= i < |name| ensures !IsWhitespace(name[i])
    {
      if i < |DownloadPrefix| {
        assert name[i] == DownloadPrefix[i];
      } else if i < |DownloadPrefix| + |stem| {
        assert name[i] == stem[i - |DownloadPrefix|];
      } else {
        assert name[i] == DownloadExtension[i - |DownloadPrefix| - |stem|];
      }
    }
  }

  /** The six colour classes are all different. */
  lemma IconColorsDistinct()
    ensures forall i, j | 0 <= i < j < |IconColors| :: IconColors[i] != IconColors[j]
  {
    assert IconColors[3][5] == 'r' && IconColors[5][5] == 't';
  }

  /** Colours repeat every six cards, and any six consecutive cards all
      have different colours. */
  lemma CardColorsCycle(benefits: seq<Benefit>, i: nat, j: nat)
    requires i < j < |benefits|
    ensures BenefitCards(benefits)[i].colorClass == BenefitCards(benefits)[j].colorClass <==> (j - i) % 6 == 0
  {
    IconColorsDistinct();
    var cards := BenefitCards(benefits);
    assert cards[i].colorClass == IconColors[i % 6] && cards[j].colorClass == IconColors[j % 6];
    SameResidue(i, j);
  }

  lemma SameResidue(i: nat, j: nat)
    requires i < j
    ensures (j - i) % 6 == 0 <==> i % 6 == j % 6
  {
    assert i == 6 * (i / 6) + i % 6;
    assert j == 6 * (j / 6) + j % 6;
    assert j - i == 6 * (j / 6 - i / 6) + (j % 6 - i % 6);
    if i % 6 == j % 6 {
      assert j - i == 6 * (j / 6 - i / 6);
    }
  }

  /** A click while a copy is under way does not start a second one, and
      neither does a click right after a successful copy. */
  lemma CopyIsNotReentrant(s: CopyState, supported: bool, again: bool)
    requires BeginCopy(s, supported).captures
    ensures !BeginCopy(BeginCopy(s, supported).state, again).captures
    ensures !BeginCopy(FinishCopy(BeginCopy(s, supported).state, Copied).state, again).captures
  {
  }
}
