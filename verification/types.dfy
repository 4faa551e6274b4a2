/**
 The data model shared by the generator and the page: icon names, benefit
 cards, and the infographic record, together with how they look as JSON.
 */
module Types {
  import opened Results
  import opened Json

  /** The closed set of icon names the page knows how to draw. */
  datatype IconName =
    | CheckCircle | LightningBolt | ShieldCheck | Star | Heart | Rocket
    | AcademicCap | Adjustments | Annotation | Archive | ArrowCircleUp | Beaker
    | Download | DocumentDuplicate | ZoomIn | ZoomOut

  /** The spelling of an icon name. */
  function IconText(i: IconName): string
  {
    match i
    case CheckCircle => "CheckCircle"
    case LightningBolt => "LightningBolt"
    case ShieldCheck => "ShieldCheck"
    case Star => "Star"
    case Heart => "Heart"
    case Rocket => "Rocket"
    case AcademicCap => "AcademicCap"
    case Adjustments => "Adjustments"
    case Annotation => "Annotation"
    case Archive => "Archive"
    case ArrowCircleUp => "ArrowCircleUp"
    case Beaker => "Beaker"
    case Download => "Download"
    case DocumentDuplicate => "DocumentDuplicate"
    case ZoomIn => "ZoomIn"
    case ZoomOut => "ZoomOut"
  }

  /** Reads an icon name; a benefit's `icon` is a free string, so any other
      text is simply not one of the names. */
  function ParseIconName(s: string): (r: Option<IconName>)
    ensures r.Some? ==> IconText(r.value) == s
  {
    match s
    case "CheckCircle" => Some(CheckCircle)
    case "LightningBolt" => Some(LightningBolt)
    case "ShieldCheck" => Some(ShieldCheck)
    case "Star" => Some(Star)
    case "Heart" => Some(Heart)
    case "Rocket" => Some(Rocket)
    case "AcademicCap" => Some(AcademicCap)
    case "Adjustments" => Some(Adjustments)
    case "Annotation" => Some(Annotation)
    case "Archive" => Some(Archive)
    case "ArrowCircleUp" => Some(ArrowCircleUp)
    case "Beaker" => Some(Beaker)
    case "Download" => Some(Download)
    case "DocumentDuplicate" => Some(DocumentDuplicate)
    case "ZoomIn" => Some(ZoomIn)
    case "ZoomOut" => Some(ZoomOut)
    case _ => None
  }

  /** One benefit card. `icon` is whatever text the generator produced. */
  datatype Benefit = Benefit(title: string, description: string, icon: string)

  /** The infographic; `productImageUrl` is absent until the page adds it. */
  datatype InfographicData = InfographicData(
    productName: string,
    headline: string,
    summary: string,
    benefits: seq<Benefit>,
    productImageUrl: Option<string>)

  function BenefitToJson(b: Benefit): JValue
  {
    JObject(map["title" := JString(b.title), "description" := JString(b.description), "icon" := JString(b.icon)])
  }

  function BenefitsToJson(bs: seq<Benefit>): seq<JValue>
  {
    if bs == [] then [] else [BenefitToJson(bs[0])] + BenefitsToJson(bs[1..])
  }

  /** The JSON object an infographic is written as. */
  function InfographicToJson(d: InfographicData): JValue
  {
    var core := map[
      "productName" := JString(d.productName),
      "headline" := JString(d.headline),
      "summary" := JString(d.summary),
      "benefits" := JArray(BenefitsToJson(d.benefits))];
    match d.productImageUrl
    case None => JObject(core)
    case Some(u) => JObject(core["productImageUrl" := JString(u)])
  }

  /** The string held by `key`, when it holds one. */
  function StringMember(v: JValue, key: string): Option<string>
  {
    match Member(v, key)
    case Some(JString(s)) => Some(s)
    case _ => None
  }

  /** Reads a benefit: an object whose `title`, `description` and `icon`
      are strings; other keys are ignored. */
  function DecodeBenefit(v: JValue): Option<Benefit>
  {
    match (StringMember(v, "title"), StringMember(v, "description"), StringMember(v, "icon"))
    case (Some(t), Some(d), Some(i)) => Some(Benefit(t, d, i))
    case _ => None
  }

  /** Reads every element of an array as a benefit, in order. */
  function DecodeBenefits(vs: seq<JValue>): (r: Option<seq<Benefit>>)
    ensures r.Some? ==> |r.value| == |vs|
    ensures r.Some? ==> forall i | 0 <= i < |vs| :: DecodeBenefit(vs[i]) == Some(r.value[i])
    ensures r.None? ==> exists i | 0 <= i < |vs| :: DecodeBenefit(vs[i]).None?
  {
    if vs == [] then Some([])
    else
      match (DecodeBenefit(vs[0]), DecodeBenefits(vs[1..]))
      case (Some(b), Some(rest)) =>
        var r := [b] + rest;
        assert forall i | 1 <= i < |vs| :: vs[i] == vs[1..][i - 1] && r[i] == rest[i - 1];
        Some(r)
      case (None, _) => None
      case (_, None) =>
        var i :| 0 <= i < |vs[1..]| && DecodeBenefit(vs[1..][i]).None?;
        assert DecodeBenefit(vs[i + 1]).None?;
        None
  }

  /** Reads a value as an `InfographicData`: the shape the record type
      describes, with extra keys ignored. */
  function DecodeInfographic(v: JValue): Option<InfographicData>
  {
    var name, headline, summary := StringMember(v, "productName"), StringMember(v, "headline"), StringMember(v, "summary");
    var benefits := Member(v, "benefits");
    if name.None? || headline.None? || summary.None? || !IsArray(benefits) then None
    else
      match (DecodeBenefits(benefits.value.items), Member(v, "productImageUrl"))
      case (Some(bs), None) => Some(InfographicData(name.value, headline.value, summary.value, bs, None))
      case (Some(bs), Some(JString(u))) => Some(InfographicData(name.value, headline.value, summary.value, bs, Some(u)))
      case _ => None
  }

  // ---------------------------------------------------------------------
  // Lemmas
  // ---------------------------------------------------------------------

  /** Every icon name reads back as itself. */
  lemma IconNameRoundTrip(i: IconName)
    ensures ParseIconName(IconText(i)) == Some(i)
  {
  }

  /** Distinct icon names are spelled differently. */
  lemma IconTextInjective(i: IconName, j: IconName)
    requires IconText(i) == IconText(j)
    ensures i == j
  {
    IconNameRoundTrip(i);
    IconNameRoundTrip(j);
  }

  lemma BenefitRoundTrip(b: Benefit)
    ensures DecodeBenefit(BenefitToJson(b)) == Some(b)
  {
  }

  /** A written list of benefits reads back as the same list, in the same order. */
  lemma {:induction false} BenefitsRoundTrip(bs: seq<Benefit>)
    ensures DecodeBenefits(BenefitsToJson(bs)) == Some(bs)
  {
    if bs != [] {
      var vs := BenefitsToJson(bs);
      assert vs[0] == BenefitToJson(bs[0]) && vs[1..] == BenefitsToJson(bs[1..]);
      BenefitRoundTrip(bs[0]);
      BenefitsRoundTrip(bs[1..]);
      assert [bs[0]] + bs[1..] == bs;
    }
  }

  /** A written infographic reads back as itself. */
  lemma InfographicRoundTrip(d: InfographicData)
    ensures DecodeInfographic(InfographicToJson(d)) == Some(d)
  {
    BenefitsRoundTrip(d.benefits);
    InfographicMembers(d);
  }

  /** Each field of an infographic is found under its own key. */
  lemma InfographicMembers(d: InfographicData)
    ensures var v := InfographicToJson(d);
            && StringMember(v, "productName") == Some(d.productName)
            && StringMember(v, "headline") == Some(d.headline)
            && StringMember(v, "summary") == Some(d.summary)
            && Member(v, "benefits") == Some(JArray(BenefitsToJson(d.benefits)))
            && Member(v, "productImageUrl") == (if d.productImageUrl.Some? then Some(JString(d.productImageUrl.value)) else None)
  {
    assert "headline"[0] != "benefits"[0];
  }
}
