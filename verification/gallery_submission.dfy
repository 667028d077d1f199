/**
 * The `gallerySubmission` document type (`sanity/schemas/gallerySubmission.js`):
 * who submitted a site, the site and its screenshot, the design style it is
 * filed under, and the editorial status.
 */
module GallerySubmissionSchema {
  import opened JsValues
  import opened Sanity
  import Email

  // ---------------------------------------------------------------------------
  // The status enumeration

  /** The five values of the status field's `options.list`. */
  datatype Status = Submitted | UnderReview | Approved | Featured | Rejected

  /** The stored string of a status. */
  function StatusValue(st: Status): string
  {
    match st
    case Submitted => "submitted"
    case UnderReview => "under-review"
    case Approved => "approved"
    case Featured => "featured"
    case Rejected => "rejected"
  }

  /** The stored strings, in the order the schema lists them. */
  const StatusList: seq<string> := ["submitted", "under-review", "approved", "featured", "rejected"]

  /** `initialValue` of the status field. */
  const InitialStatus: string := "submitted"

  /** The status a stored string denotes, if it is one of the listed values. */
  function ParseStatus(s: string): (r: Option<Status>)
    ensures r.Some? ==> StatusValue(r.value) == s
    ensures r.None? ==> forall st: Status :: StatusValue(st) != s
  {
    if s == "submitted" then Some(Submitted)
    else if s == "under-review" then Some(UnderReview)
    else if s == "approved" then Some(Approved)
    else if s == "featured" then Some(Featured)
    else if s == "rejected" then Some(Rejected)
    else None
  }

  /** The list holds exactly the values of the enumeration, each once. */
  lemma StatusListIsTheEnumeration()
    ensures forall s :: s in StatusList <==> ParseStatus(s).Some?
    ensures forall st: Status :: ParseStatus(StatusValue(st)) == Some(st)
    ensures |StatusList| == 5
    ensures forall i, j :: 0 <= i < j < |StatusList| ==> StatusList[i] != StatusList[j]
  {
  }

  // ---------------------------------------------------------------------------
  // The document

  /**
   * The `submitterInfo` object. A document without one is represented by an
   * object whose fields are all empty.
   */
  datatype SubmitterInfo = SubmitterInfo(name: Option<string>, email: Option<string>, website: Option<string>)

  datatype GallerySubmission = GallerySubmission(
    submitterInfo: SubmitterInfo,
    submissionUrl: Option<string>,
    screenshot: Option<Image>,
    styleReference: Option<Reference>,
    description: Option<string>,
    status: Option<string>,
    submissionDate: Option<string>,
    reviewNotes: Option<string>)

  /** The document types the style reference may point at (`to`). */
  const StyleReferenceTargets: set<string> := {"designStyle"}

  /** The fields the schema declares. */
  datatype Field =
    | SubmitterName | SubmitterEmail | SubmitterWebsite
    | SubmissionUrl | Screenshot | ScreenshotAlt | StyleReference
    | Description | StatusField | SubmissionDate | ReviewNotes

  /** The fields that carry `Rule.required()`. */
  const RequiredFields: set<Field> := {
    SubmitterName, SubmitterEmail, SubmissionUrl, Screenshot, ScreenshotAlt, StyleReference, StatusField
  }

  /**
   * Whether `f` holds a value. A field nested in an object is checked whether
   * or not the object is there: an absent screenshot has no `alt` either, just
   * as an absent `submitterInfo` (here, one whose three fields are empty) has
   * no name and no email.
   */
  predicate Has(doc: GallerySubmission, f: Field)
  {
    match f
    case SubmitterName => doc.submitterInfo.name.Some?
    case SubmitterEmail => doc.submitterInfo.email.Some?
    case SubmitterWebsite => doc.submitterInfo.website.Some?
    case SubmissionUrl => doc.submissionUrl.Some?
    case Screenshot => doc.screenshot.Some?
    case ScreenshotAlt => doc.screenshot.Some? && doc.screenshot.value.alt.Some?
    case StyleReference => doc.styleReference.Some?
    case Description => doc.description.Some?
    case StatusField => doc.status.Some?
    case SubmissionDate => doc.submissionDate.Some?
    case ReviewNotes => doc.reviewNotes.Some?
  }

  /** The status field's list check: a present value must be a listed one. */
  function StatusRule(status: Option<string>): (ms: set<Marker<Field>>)
    ensures ms == {} <==> status.None? || status.value in StatusList
    ensures forall m :: m in ms ==> m == Marker(StatusField, InList)
  {
    StatusListIsTheEnumeration();
    if status.Some? && ParseStatus(status.value).None? then {Marker(StatusField, InList)} else {}
  }

  /** The style reference's `to` check: it may point only at a design style. */
  function ReferenceRule(ref: Option<Reference>): (ms: set<Marker<Field>>)
    ensures ms == {} <==> ref.None? || ref.value.targetType == "designStyle"
    ensures forall m :: m in ms ==> m == Marker(StyleReference, ReferenceTo)
  {
    if ref.Some? && ref.value.targetType !in StyleReferenceTargets then {Marker(StyleReference, ReferenceTo)} else {}
  }

  /** The `Rule.required()` markers. */
  function RequiredProblems(doc: GallerySubmission): (ms: set<Marker<Field>>)
    ensures forall m :: m in ms ==> m.rule == Required
    ensures forall f :: Marker(f, Required) in ms <==> f in RequiredFields && !Has(doc, f)
  {
    RequiredMarkers(RequiredFields, f => Has(doc, f))
  }

  /** The markers of the value rules: the email pattern, the status list and the reference type. */
  function ValueProblems(doc: GallerySubmission): (ms: set<Marker<Field>>)
    ensures forall m :: m in ms ==> m.rule != Required
    ensures Marker(SubmitterEmail, EmailPattern) in ms
            <==> doc.submitterInfo.email.None? || !Email.MatchesEmailPattern(doc.submitterInfo.email.value)
    ensures Marker(StatusField, InList) in ms <==> doc.status.Some? && doc.status.value !in StatusList
    ensures Marker(StyleReference, ReferenceTo) in ms
            <==> doc.styleReference.Some? && doc.styleReference.value.targetType != "designStyle"
    ensures forall m :: m in ms ==> m in {Marker(SubmitterEmail, EmailPattern), Marker(StatusField, InList),
                                          Marker(StyleReference, ReferenceTo)}
  {
    EmailRule(SubmitterEmail, true, doc.submitterInfo.email)
    + ReferenceRule(doc.styleReference)
    + StatusRule(doc.status)
  }

  /**
   * Every marker the CMS reports for a document. Every field that declares a
   * rule is required, so only required fields are ever reported; a required
   * field is reported as missing exactly when it is empty.
   */
  function Problems(doc: GallerySubmission): (ms: set<Marker<Field>>)
    ensures forall m :: m in ms ==> m.field in RequiredFields
    ensures forall f :: Marker(f, Required) in ms <==> f in RequiredFields && !Has(doc, f)
  {
    RequiredProblems(doc) + ValueProblems(doc)
  }

  /**
   * A document the CMS accepts for publishing: one with no marker. That is
   * a document whose required fields are all filled in, whose email matches
   * the pattern, whose status is a listed one and whose style reference
   * points at a design style.
   */
  predicate Valid(doc: GallerySubmission): (b: bool)
    ensures b
            <==> && (forall f :: f in RequiredFields ==> Has(doc, f))
                 && doc.submitterInfo.email.Some? && Email.MatchesEmailPattern(doc.submitterInfo.email.value)
                 && doc.status.Some? && ParseStatus(doc.status.value).Some?
                 && doc.styleReference.Some? && doc.styleReference.value.targetType in StyleReferenceTargets
  {
    StatusListIsTheEnumeration();
    Problems(doc) == {}
  }

  /** A new document, as the studio creates it: only the initial status is set. */
  const NewSubmission: GallerySubmission :=
    GallerySubmission(SubmitterInfo(None, None, None), None, None, None, None, Some(InitialStatus), None, None)

  // ---------------------------------------------------------------------------
  // What validity means

  /** A valid submission carries a well-formed address: one '@', a non-empty local part, a dotted domain. */
  lemma ValidEmailHasShape(doc: GallerySubmission)
    requires Valid(doc)
    ensures doc.submitterInfo.email.Some? && Email.EmailShape(doc.submitterInfo.email.value)
  {
    Email.PatternIffShape(doc.submitterInfo.email.value);
  }

  /**
   * The email is both required and checked: a missing one is reported as
   * missing and, since the pattern is then matched against the empty string,
   * as malformed; a present one is reported exactly when it does not match.
   */
  lemma EmailMarkers(doc: GallerySubmission)
    ensures doc.submitterInfo.email.None?
            ==> Marker(SubmitterEmail, Required) in Problems(doc)
                && Marker(SubmitterEmail, EmailPattern) in Problems(doc)
    ensures doc.submitterInfo.email.Some?
            ==> && Marker(SubmitterEmail, Required) !in Problems(doc)
                && (Marker(SubmitterEmail, EmailPattern) in Problems(doc)
                    <==> !Email.MatchesEmailPattern(doc.submitterInfo.email.value))
  {
  }

  /** A valid submission has a screenshot with alt text and a style reference to a design style. */
  lemma ValidMedia(doc: GallerySubmission)
    requires Valid(doc)
    ensures doc.screenshot.Some? && doc.screenshot.value.alt.Some?
    ensures doc.styleReference.Some? && doc.styleReference.value.targetType == "designStyle"
  {
  }

  /**
   * A new document starts with the listed status "submitted", so the status
   * field reports nothing; what remains are exactly the other six required
   * fields the submitter still has to fill in (the nested ones included), the
   * empty email also failing its pattern.
   */
  lemma NewSubmissionProblems()
    ensures NewSubmission.status == Some(InitialStatus) && InitialStatus in StatusList
    ensures ParseStatus(InitialStatus) == Some(Submitted)
    ensures Problems(NewSubmission)
            == {Marker(SubmitterName, Required), Marker(SubmitterEmail, Required), Marker(SubmitterEmail, EmailPattern),
                Marker(SubmissionUrl, Required), Marker(Screenshot, Required), Marker(ScreenshotAlt, Required),
                Marker(StyleReference, Required)}
  {
  }

  /**
   * The website, description, submission date and review notes carry no
   * rule: whatever they hold, the document reports the same markers.
   */
  lemma FreeFieldsUnchecked(doc: GallerySubmission, website: Option<string>, description: Option<string>,
                            submissionDate: Option<string>, reviewNotes: Option<string>)
    ensures var doc' := doc.(submitterInfo := doc.submitterInfo.(website := website), description := description,
                             submissionDate := submissionDate, reviewNotes := reviewNotes);
            Problems(doc') == Problems(doc)
  {
    var doc' := doc.(submitterInfo := doc.submitterInfo.(website := website), description := description,
                     submissionDate := submissionDate, reviewNotes := reviewNotes);
    forall m | m in RequiredProblems(doc')
      ensures m in RequiredProblems(doc)
    {
      assert Has(doc', m.field) == Has(doc, m.field) || m.field !in RequiredFields;
    }
    forall m | m in RequiredProblems(doc)
      ensures m in RequiredProblems(doc')
    {
      assert Has(doc', m.field) == Has(doc, m.field) || m.field !in RequiredFields;
    }
    assert ValueProblems(doc') == ValueProblems(doc) by {
      assert doc'.submitterInfo.email == doc.submitterInfo.email;
    }
  }
}
