/** The `Contribution` record of the backend: its closed choice fields, its defaults, its string
  * form and its validation ratio. */
module ContributionModel {
  import opened Wrappers

  type UserId = nat

  datatype Kind = Text | Audio
  datatype ContentType = Word | Sentence | Paragraph | Story
  datatype Status = Pending | Validated | Rejected

  /** The value stored in the `type` column. */
  function KindValue(k: Kind): string
  {
    match k
    case Text => "text"
    case Audio => "audio"
  }

  /** The value stored in the `content_type` column. */
  function ContentTypeValue(t: ContentType): string
  {
    match t
    case Word => "word"
    case Sentence => "sentence"
    case Paragraph => "paragraph"
    case Story => "story"
  }

  /** `get_content_type_display()` */
  function ContentTypeLabel(t: ContentType): string
  {
    match t
    case Word => "Word"
    case Sentence => "Sentence"
    case Paragraph => "Paragraph"
    case Story => "Story"
  }

  /** The value stored in the `status` column. */
  function StatusValue(s: Status): string
  {
    match s
    case Pending => "pending"
    case Validated => "validated"
    case Rejected => "rejected"
  }

  /** Reading a stored `type` back: the two choices and nothing else. */
  function ParseKind(v: string): (r: Option<Kind>)
    ensures r.Some? ==> KindValue(r.value) == v
    ensures r.None? <==> forall k: Kind :: KindValue(k) != v
  {
    if v == "text" then Some(Text) else if v == "audio" then Some(Audio) else None
  }

  /** Reading a stored `content_type` back: the four choices and nothing else. */
  function ParseContentType(v: string): (r: Option<ContentType>)
    ensures r.Some? ==> ContentTypeValue(r.value) == v
    ensures r.None? <==> forall t: ContentType :: ContentTypeValue(t) != v
  {
    if v == "word" then Some(Word)
    else if v == "sentence" then Some(Sentence)
    else if v == "paragraph" then Some(Paragraph)
    else if v == "story" then Some(Story)
    else None
  }

  /** Reading a stored `status` back: the three choices and nothing else. */
  function ParseStatus(v: string): (r: Option<Status>)
    ensures r.Some? ==> StatusValue(r.value) == v
    ensures r.None? <==> forall s: Status :: StatusValue(s) != v
  {
    if v == "pending" then Some(Pending)
    else if v == "validated" then Some(Validated)
    else if v == "rejected" then Some(Rejected)
    else None
  }

  /** A row of the contributions table. `language` is the code of the language it belongs to. */
  datatype Contribution = Contribution(
    user: UserId,
    language: string,
    kind: Kind,
    contentType: ContentType,
    originalText: string,
    translatedText: string,
    context: string,
    anonymous: bool,
    status: Status,
    validationsCount: nat,
    positiveValidations: nat)

  /** A contribution as the ORM creates it: the given fields, the column defaults for the rest. */
  function NewContribution(user: UserId, language: string, kind: Kind, contentType: ContentType,
                           originalText: string, translatedText: string, context: string,
                           anonymous: bool): (c: Contribution)
    ensures c.status == Pending && c.validationsCount == 0 && c.positiveValidations == 0
    ensures c.user == user && c.language == language && c.kind == kind && c.contentType == contentType
    ensures c.originalText == originalText && c.translatedText == translatedText
    ensures c.context == context && c.anonymous == anonymous
  {
    Contribution(user, language, kind, contentType, originalText, translatedText, context,
                 anonymous, Pending, 0, 0)
  }

  /** `__str__`: the content-type label, " by ", then the author's name or "Anonymous". */
  function Describe(c: Contribution, username: string): (r: string)
    ensures |r| >= |ContentTypeLabel(c.contentType)| + 4
    ensures r[..|ContentTypeLabel(c.contentType)| + 4] == ContentTypeLabel(c.contentType) + " by "
    ensures c.anonymous ==> |r| >= 9 && r[|r| - 9..] == "Anonymous"
    ensures !c.anonymous ==> |r| >= |username| && r[|r| - |username|..] == username
  {
    var display := ContentTypeLabel(c.contentType);
    if c.anonymous then display + " by Anonymous" else display + " by " + username
  }

  /** `validation_ratio`, as an exact rational: 0 without validations, otherwise the share of
    * positive ones. */
  function ValidationRatio(c: Contribution): (r: real)
    ensures c.validationsCount == 0 ==> r == 0.0
    ensures c.validationsCount > 0 ==> r * c.validationsCount as real == c.positiveValidations as real
    ensures c.positiveValidations <= c.validationsCount ==> 0.0 <= r <= 1.0
  {
    if c.validationsCount == 0 then 0.0
    else c.positiveValidations as real / c.validationsCount as real
  }

  /** `validation_ratio >= 0.7`, by cross-multiplication. */
  predicate MeetsAcceptance(c: Contribution)
  {
    10 * c.positiveValidations >= 7 * c.validationsCount
  }

  /** `validation_ratio <= 0.3`, by cross-multiplication. */
  predicate MeetsRejection(c: Contribution)
  {
    10 * c.positiveValidations <= 3 * c.validationsCount
  }

  /** The integer comparisons decide exactly what the ratio comparisons decide. */
  lemma ThresholdsMatchRatio(c: Contribution)
    requires c.validationsCount > 0
    ensures MeetsAcceptance(c) <==> ValidationRatio(c) >= 0.7
    ensures MeetsRejection(c) <==> ValidationRatio(c) <= 0.3
  {
    var n, p := c.validationsCount as real, c.positiveValidations as real;
    QuotientCompare(p, n, 0.7);
    QuotientCompare(p, n, 0.3);
    assert (10 * c.positiveValidations) as real == 10.0 * p;
    assert (7 * c.validationsCount) as real == 10.0 * (0.7 * n);
    assert (3 * c.validationsCount) as real == 10.0 * (0.3 * n);
  }

  /** For a positive divisor, comparing a quotient is comparing the dividend with the scaled bound. */
  lemma QuotientCompare(p: real, n: real, k: real)
    requires n > 0.0
    ensures p / n >= k <==> p >= k * n
    ensures p / n <= k <==> p <= k * n
  {
    var r := p / n;
    assert r * n == p;
    assert p - k * n == (r - k) * n;
    if r > k {
      assert (r - k) * n > 0.0;
    } else if r < k {
      assert (k - r) * n > 0.0;
    }
  }
}
