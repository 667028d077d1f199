/**
 * The `author` document type (`sanity/schemas/author.js`): a name and a
 * slug are required, the email is optional but must match the email pattern
 * when given, and the remaining profile fields carry no rule.
 */
module AuthorSchema {
  import opened JsValues
  import opened Sanity
  import Email
  import GallerySubmissionSchema

  datatype Author = Author(
    name: Option<string>,
    slug: Option<Slug>,
    bio: Option<string>,
    email: Option<string>,
    image: Option<Image>,
    twitter: Option<string>,
    linkedin: Option<string>,
    github: Option<string>,
    website: Option<string>)

  /** How the studio generates the slug: from the `name` field, cut to 96 characters. */
  datatype SlugOptions = SlugOptions(source: string, maxLength: nat)

  const AuthorSlugOptions: SlugOptions := SlugOptions("name", 96)

  /** The fields the schema declares. */
  datatype Field =
    | Name | SlugField | Bio | EmailField | ImageField | ImageAlt
    | Twitter | LinkedIn | GitHub | Website

  /** The fields that carry `Rule.required()`. */
  const RequiredFields: set<Field> := {Name, SlugField}

  /** Whether `f` holds a value (an absent image has no `alt` either). */
  predicate Has(a: Author, f: Field)
  {
    match f
    case Name => a.name.Some?
    case SlugField => a.slug.Some?
    case Bio => a.bio.Some?
    case EmailField => a.email.Some?
    case ImageField => a.image.Some?
    case ImageAlt => a.image.Some? && a.image.value.alt.Some?
    case Twitter => a.twitter.Some?
    case LinkedIn => a.linkedin.Some?
    case GitHub => a.github.Some?
    case Website => a.website.Some?
  }

  /** Every marker the CMS reports for an author. */
  function Problems(a: Author): (ms: set<Marker<Field>>)
    ensures forall f :: Marker(f, Required) in ms <==> f in RequiredFields && !Has(a, f)
    ensures Marker(EmailField, EmailPattern) in ms <==> a.email.Some? && !Email.MatchesEmailPattern(a.email.value)
    ensures forall m :: m in ms ==> m.rule == Required || m == Marker(EmailField, EmailPattern)
  {
    RequiredMarkers(RequiredFields, f => Has(a, f))
    + EmailRule(EmailField, false, a.email)
  }

  /**
   * An author the CMS accepts for publishing: one with no marker. That is an
   * author with a name and a slug whose email, if it gives one, matches the
   * pattern.
   */
  predicate Valid(a: Author): (b: bool)
    ensures b <==> a.name.Some? && a.slug.Some? && (a.email.None? || Email.MatchesEmailPattern(a.email.value))
  {
    Problems(a) == {}
  }

  // ---------------------------------------------------------------------------
  // What validity means

  /** Leaving the email out never makes an author invalid; only a present, malformed one does. */
  lemma EmailIsOptional(a: Author)
    ensures Valid(a.(email := None)) <==> a.name.Some? && a.slug.Some?
    ensures Valid(a) <==> Valid(a.(email := None)) && (a.email.None? || Email.MatchesEmailPattern(a.email.value))
  {
  }

  /**
   * The author's email check is the submitter's: for the same present
   * address, one schema reports a malformed email exactly when the other does.
   */
  lemma SameEmailRuleAsSubmissions(a: Author, doc: GallerySubmissionSchema.GallerySubmission)
    requires a.email.Some? && a.email == doc.submitterInfo.email
    ensures Marker(EmailField, EmailPattern) in Problems(a)
            <==> Marker(GallerySubmissionSchema.SubmitterEmail, EmailPattern) in GallerySubmissionSchema.Problems(doc)
  {
  }

  /**
   * The biography, image (with its alt text) and the four profile links carry
   * no rule: whatever they hold, the author reports the same markers.
   */
  lemma FreeFieldsUnchecked(a: Author, bio: Option<string>, image: Option<Image>, twitter: Option<string>,
                            linkedin: Option<string>, github: Option<string>, website: Option<string>)
    ensures var a' := a.(bio := bio, image := image, twitter := twitter, linkedin := linkedin,
                         github := github, website := website);
            Problems(a') == Problems(a)
  {
    var a' := a.(bio := bio, image := image, twitter := twitter, linkedin := linkedin,
                 github := github, website := website);
    assert a'.name == a.name && a'.slug == a.slug && a'.email == a.email;
  }
}
