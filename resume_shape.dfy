/**
 * The resume as the browser holds it: the object the resume API returns and
 * the editor keeps as its draft. Eight scalar fields, six collections.
 */
module ResumeShape {
  import opened Wrappers
  import opened JsonValues

  datatype Scalar = FullName | Email | Phone | Location | Website | Linkedin | Github | Summary

  datatype Collection = Experiences | Education | Skills | Projects | Certifications | Languages

  /** fullName and email are required; the other six scalars are optional. */
  predicate Optional(f: Scalar)
  {
    !(f.FullName? || f.Email?)
  }

  /** The JSON key of a scalar field. */
  function ScalarKey(f: Scalar): string
  {
    match f
    case FullName => "fullName"
    case Email => "email"
    case Phone => "phone"
    case Location => "location"
    case Website => "website"
    case Linkedin => "linkedin"
    case Github => "github"
    case Summary => "summary"
  }

  /** The JSON key of a collection field. */
  function CollectionKey(c: Collection): string
  {
    match c
    case Experiences => "experiences"
    case Education => "education"
    case Skills => "skills"
    case Projects => "projects"
    case Certifications => "certifications"
    case Languages => "languages"
  }

  /**
   * A resume object. A scalar is a string or JSON null (None); a collection
   * is whatever JSON value the code put there, normally an array.
   */
  datatype Resume = Resume(
    fullName: Option<string>,
    email: Option<string>,
    phone: Option<string>,
    location: Option<string>,
    website: Option<string>,
    linkedin: Option<string>,
    github: Option<string>,
    summary: Option<string>,
    experiences: Json,
    education: Json,
    skills: Json,
    projects: Json,
    certifications: Json,
    languages: Json)

  function GetScalar(r: Resume, f: Scalar): Option<string>
  {
    match f
    case FullName => r.fullName
    case Email => r.email
    case Phone => r.phone
    case Location => r.location
    case Website => r.website
    case Linkedin => r.linkedin
    case Github => r.github
    case Summary => r.summary
  }

  function GetItems(r: Resume, c: Collection): Json
  {
    match c
    case Experiences => r.experiences
    case Education => r.education
    case Skills => r.skills
    case Projects => r.projects
    case Certifications => r.certifications
    case Languages => r.languages
  }

  /** Two resumes are equal when every scalar and every collection is. */
  lemma Extensionality(r: Resume, r': Resume)
    requires forall f :: GetScalar(r, f) == GetScalar(r', f)
    requires forall c :: GetItems(r, c) == GetItems(r', c)
    ensures r == r'
  {
    assert GetScalar(r, FullName) == GetScalar(r', FullName);
    assert GetScalar(r, Email) == GetScalar(r', Email);
    assert GetScalar(r, Phone) == GetScalar(r', Phone);
    assert GetScalar(r, Location) == GetScalar(r', Location);
    assert GetScalar(r, Website) == GetScalar(r', Website);
    assert GetScalar(r, Linkedin) == GetScalar(r', Linkedin);
    assert GetScalar(r, Github) == GetScalar(r', Github);
    assert GetScalar(r, Summary) == GetScalar(r', Summary);
    assert GetItems(r, Experiences) == GetItems(r', Experiences);
    assert GetItems(r, Education) == GetItems(r', Education);
    assert GetItems(r, Skills) == GetItems(r', Skills);
    assert GetItems(r, Projects) == GetItems(r', Projects);
    assert GetItems(r, Certifications) == GetItems(r', Certifications);
    assert GetItems(r, Languages) == GetItems(r', Languages);
  }

  /** `{...r, [f]: v}` for a scalar field: only that field changes. */
  function WithScalar(r: Resume, f: Scalar, v: Option<string>): (r': Resume)
    ensures GetScalar(r', f) == v
    ensures forall g :: g != f ==> GetScalar(r', g) == GetScalar(r, g)
    ensures forall c :: GetItems(r', c) == GetItems(r, c)
  {
    match f
    case FullName => r.(fullName := v)
    case Email => r.(email := v)
    case Phone => r.(phone := v)
    case Location => r.(location := v)
    case Website => r.(website := v)
    case Linkedin => r.(linkedin := v)
    case Github => r.(github := v)
    case Summary => r.(summary := v)
  }

  /** `{...r, [c]: v}` for a collection: only that collection changes. */
  function WithItems(r: Resume, c: Collection, v: Json): (r': Resume)
    ensures GetItems(r', c) == v
    ensures forall d :: d != c ==> GetItems(r', d) == GetItems(r, d)
    ensures forall f :: GetScalar(r', f) == GetScalar(r, f)
  {
    match c
    case Experiences => r.(experiences := v)
    case Education => r.(education := v)
    case Skills => r.(skills := v)
    case Projects => r.(projects := v)
    case Certifications => r.(certifications := v)
    case Languages => r.(languages := v)
  }

  function ScalarJson(v: Option<string>): Json
  {
    match v
    case None => JNull
    case Some(s) => JStr(s)
  }

  /** The object `JSON.stringify(resume)` serialises, keys in declaration order. */
  function ResumeJson(r: Resume): Json
  {
    JObj([
      (ScalarKey(FullName), ScalarJson(r.fullName)),
      (ScalarKey(Email), ScalarJson(r.email)),
      (ScalarKey(Phone), ScalarJson(r.phone)),
      (ScalarKey(Location), ScalarJson(r.location)),
      (ScalarKey(Website), ScalarJson(r.website)),
      (ScalarKey(Linkedin), ScalarJson(r.linkedin)),
      (ScalarKey(Github), ScalarJson(r.github)),
      (ScalarKey(Summary), ScalarJson(r.summary)),
      (CollectionKey(Experiences), r.experiences),
      (CollectionKey(Education), r.education),
      (CollectionKey(Skills), r.skills),
      (CollectionKey(Projects), r.projects),
      (CollectionKey(Certifications), r.certifications),
      (CollectionKey(Languages), r.languages)])
  }

  /** Position of each field in the serialised resume. */
  function ScalarIndex(f: Scalar): nat
  {
    match f
    case FullName => 0
    case Email => 1
    case Phone => 2
    case Location => 3
    case Website => 4
    case Linkedin => 5
    case Github => 6
    case Summary => 7
  }

  function CollectionIndex(c: Collection): nat
  {
    match c
    case Experiences => 8
    case Education => 9
    case Skills => 10
    case Projects => 11
    case Certifications => 12
    case Languages => 13
  }

  /** The first member named k is the one at position i when no earlier member is named k. */
  lemma {:induction false} LookupAt(ms: seq<(string, Json)>, k: string, i: nat)
    requires i < |ms| && ms[i].0 == k
    requires forall j :: 0 <= j < i ==> ms[j].0 != k
    ensures Lookup(ms, k) == Some(ms[i].1)
  {
    if i > 0 {
      LookupAt(ms[1..], k, i - 1);
    }
  }

  /** The keys of the serialised resume, in order. */
  function ResumeKeys(): seq<string>
  {
    [ScalarKey(FullName), ScalarKey(Email), ScalarKey(Phone), ScalarKey(Location),
     ScalarKey(Website), ScalarKey(Linkedin), ScalarKey(Github), ScalarKey(Summary),
     CollectionKey(Experiences), CollectionKey(Education), CollectionKey(Skills),
     CollectionKey(Projects), CollectionKey(Certifications), CollectionKey(Languages)]
  }

  lemma ResumeKeysDistinct()
    ensures forall i, j :: 0 <= i < j < |ResumeKeys()| ==> ResumeKeys()[i] != ResumeKeys()[j]
  {
  }

  /** Reading a field of the serialised resume gives that field back. */
  lemma ResumeJsonScalar(r: Resume, f: Scalar)
    ensures Lookup(ResumeJson(r).members, ScalarKey(f)) == Some(ScalarJson(GetScalar(r, f)))
  {
    var ms := ResumeJson(r).members;
    assert forall i :: 0 <= i < |ms| ==> ms[i].0 == ResumeKeys()[i];
    ResumeKeysDistinct();
    LookupAt(ms, ScalarKey(f), ScalarIndex(f));
  }

  lemma ResumeJsonItems(r: Resume, c: Collection)
    ensures Lookup(ResumeJson(r).members, CollectionKey(c)) == Some(GetItems(r, c))
  {
    var ms := ResumeJson(r).members;
    assert forall i :: 0 <= i < |ms| ==> ms[i].0 == ResumeKeys()[i];
    ResumeKeysDistinct();
    LookupAt(ms, CollectionKey(c), CollectionIndex(c));
  }
}
