/**
 * The resume API route: the request schema, the field encoding written by
 * the upsert, the decoding of stored blobs, and the GET and PUT handlers.
 * The session lookup is replaced by a user id parameter and the database by
 * a map from user id to row.
 */
module ResumeApi {
  import opened Wrappers
  import opened JsonValues
  import opened JsonText
  import opened ResumeShape

  /** The address and URL syntax checks of the schema library, left uninterpreted. */
  datatype Checks = Checks(isEmail: string -> bool, isUrl: string -> bool)

  /** One schema violation: the body is not an object, or the named field is rejected. */
  datatype Issue = NotAnObject | BadScalar(field: Scalar) | BadCollection(collection: Collection)

  // ---------------------------------------------------------------- schema

  /** What the schema accepts for a scalar field (v is None when the key is absent). */
  predicate ScalarAccepted(checks: Checks, f: Scalar, v: Option<Json>)
  {
    match f
    case FullName => v.Some? && v.value.JStr? && |v.value.s| >= 1
    case Email => v.Some? && v.value.JStr? && checks.isEmail(v.value.s)
    case Website => UrlAccepted(checks, v)
    case Linkedin => UrlAccepted(checks, v)
    case Github => UrlAccepted(checks, v)
    case _ => v.None? || v.value.JStr?
  }

  /** An optional URL, or the empty string. */
  predicate UrlAccepted(checks: Checks, v: Option<Json>)
  {
    v.None? || (v.value.JStr? && (v.value.s == "" || checks.isUrl(v.value.s)))
  }

  /** A collection is absent or an array; its elements are not checked. */
  predicate CollectionAccepted(v: Option<Json>)
  {
    v.None? || v.value.JArr?
  }

  predicate AllAccepted(checks: Checks, ms: seq<(string, Json)>)
  {
    && (forall f :: ScalarAccepted(checks, f, Lookup(ms, ScalarKey(f))))
    && (forall c :: CollectionAccepted(Lookup(ms, CollectionKey(c))))
  }

  /** The data the schema hands on: required strings, optional strings, optional arrays. */
  datatype Input = Input(
    fullName: string,
    email: string,
    phone: Option<string>,
    location: Option<string>,
    website: Option<string>,
    linkedin: Option<string>,
    github: Option<string>,
    summary: Option<string>,
    experiences: Option<seq<Json>>,
    education: Option<seq<Json>>,
    skills: Option<seq<Json>>,
    projects: Option<seq<Json>>,
    certifications: Option<seq<Json>>,
    languages: Option<seq<Json>>)

  function InputScalar(x: Input, f: Scalar): Option<string>
  {
    match f
    case FullName => Some(x.fullName)
    case Email => Some(x.email)
    case Phone => x.phone
    case Location => x.location
    case Website => x.website
    case Linkedin => x.linkedin
    case Github => x.github
    case Summary => x.summary
  }

  function InputItems(x: Input, c: Collection): Option<seq<Json>>
  {
    match c
    case Experiences => x.experiences
    case Education => x.education
    case Skills => x.skills
    case Projects => x.projects
    case Certifications => x.certifications
    case Languages => x.languages
  }

  const ScalarOrder: seq<Scalar> := [FullName, Email, Phone, Location, Website, Linkedin, Github, Summary]
  const CollectionOrder: seq<Collection> := [Experiences, Education, Skills, Projects, Certifications, Languages]

  lemma OrdersComplete()
    ensures forall f :: f in ScalarOrder
    ensures forall c :: c in CollectionOrder
  {
    forall f ensures f in ScalarOrder {
      match f
      case FullName => assert ScalarOrder[0] == f;
      case Email => assert ScalarOrder[1] == f;
      case Phone => assert ScalarOrder[2] == f;
      case Location => assert ScalarOrder[3] == f;
      case Website => assert ScalarOrder[4] == f;
      case Linkedin => assert ScalarOrder[5] == f;
      case Github => assert ScalarOrder[6] == f;
      case Summary => assert ScalarOrder[7] == f;
    }
    forall c ensures c in CollectionOrder {
      match c
      case Experiences => assert CollectionOrder[0] == c;
      case Education => assert CollectionOrder[1] == c;
      case Skills => assert CollectionOrder[2] == c;
      case Projects => assert CollectionOrder[3] == c;
      case Certifications => assert CollectionOrder[4] == c;
      case Languages => assert CollectionOrder[5] == c;
    }
  }

  function ScalarIssues(checks: Checks, ms: seq<(string, Json)>, fs: seq<Scalar>): (r: seq<Issue>)
    ensures forall i :: i in r ==> i.BadScalar?
    ensures forall f :: BadScalar(f) in r <==> f in fs && !ScalarAccepted(checks, f, Lookup(ms, ScalarKey(f)))
  {
    if fs == [] then []
    else
      (if ScalarAccepted(checks, fs[0], Lookup(ms, ScalarKey(fs[0]))) then [] else [BadScalar(fs[0])])
      + ScalarIssues(checks, ms, fs[1..])
  }

  function CollectionIssues(ms: seq<(string, Json)>, cs: seq<Collection>): (r: seq<Issue>)
    ensures forall i :: i in r ==> i.BadCollection?
    ensures forall c :: BadCollection(c) in r <==> c in cs && !CollectionAccepted(Lookup(ms, CollectionKey(c)))
  {
    if cs == [] then []
    else
      (if CollectionAccepted(Lookup(ms, CollectionKey(cs[0]))) then [] else [BadCollection(cs[0])])
      + CollectionIssues(ms, cs[1..])
  }

  function StringOf(v: Option<Json>): Option<string>
  {
    if v.Some? && v.value.JStr? then Some(v.value.s) else None
  }

  function ArrayOf(v: Option<Json>): Option<seq<Json>>
  {
    if v.Some? && v.value.JArr? then Some(v.value.items) else None
  }

  /** Every issue of an object body, scalars first, in schema order. */
  function Issues(checks: Checks, ms: seq<(string, Json)>): (r: seq<Issue>)
    ensures r == [] <==> AllAccepted(checks, ms)
    ensures forall f :: BadScalar(f) in r <==> !ScalarAccepted(checks, f, Lookup(ms, ScalarKey(f)))
    ensures forall c :: BadCollection(c) in r <==> !CollectionAccepted(Lookup(ms, CollectionKey(c)))
  {
    OrdersComplete();
    var r := ScalarIssues(checks, ms, ScalarOrder) + CollectionIssues(ms, CollectionOrder);
    assert r != [] ==> !AllAccepted(checks, ms) by {
      if r != [] {
        var i := r[0];
        assert i in ScalarIssues(checks, ms, ScalarOrder) || i in CollectionIssues(ms, CollectionOrder);
      }
    }
    r
  }

  /** The schema's output for an accepted object: the known fields, unknown keys dropped. */
  function InputFrom(checks: Checks, ms: seq<(string, Json)>): (x: Input)
    requires AllAccepted(checks, ms)
  {
    var name := StringOf(Lookup(ms, ScalarKey(FullName)));
    var email := StringOf(Lookup(ms, ScalarKey(Email)));
    assert name.Some? && email.Some? by {
      assert ScalarAccepted(checks, FullName, Lookup(ms, ScalarKey(FullName)));
      assert ScalarAccepted(checks, Email, Lookup(ms, ScalarKey(Email)));
    }
    Input(
      name.value, email.value,
      StringOf(Lookup(ms, ScalarKey(Phone))),
      StringOf(Lookup(ms, ScalarKey(Location))),
      StringOf(Lookup(ms, ScalarKey(Website))),
      StringOf(Lookup(ms, ScalarKey(Linkedin))),
      StringOf(Lookup(ms, ScalarKey(Github))),
      StringOf(Lookup(ms, ScalarKey(Summary))),
      ArrayOf(Lookup(ms, CollectionKey(Experiences))),
      ArrayOf(Lookup(ms, CollectionKey(Education))),
      ArrayOf(Lookup(ms, CollectionKey(Skills))),
      ArrayOf(Lookup(ms, CollectionKey(Projects))),
      ArrayOf(Lookup(ms, CollectionKey(Certifications))),
      ArrayOf(Lookup(ms, CollectionKey(Languages))))
  }

  /** The schema's output carries each known field of the body. */
  lemma InputFromFields(checks: Checks, ms: seq<(string, Json)>)
    requires AllAccepted(checks, ms)
    ensures forall f :: InputScalar(InputFrom(checks, ms), f) == StringOf(Lookup(ms, ScalarKey(f)))
    ensures forall c :: InputItems(InputFrom(checks, ms), c) == ArrayOf(Lookup(ms, CollectionKey(c)))
  {
    var x := InputFrom(checks, ms);
    forall f ensures InputScalar(x, f) == StringOf(Lookup(ms, ScalarKey(f))) {
      match f
      case FullName => assert ScalarAccepted(checks, FullName, Lookup(ms, ScalarKey(FullName)));
      case Email => assert ScalarAccepted(checks, Email, Lookup(ms, ScalarKey(Email)));
      case _ =>
    }
  }

  /**
   * `resumeSchema.parse(body)`: the accepted data, or every issue found (the
   * schema reports all failing fields, not just the first).
   */
  function Validate(checks: Checks, body: Json): (r: Result<Input, seq<Issue>>)
    ensures !body.JObj? ==> r == Err([NotAnObject])
    ensures body.JObj? ==> (r.Ok? <==> AllAccepted(checks, body.members))
    ensures r.Err? ==> r.error != []
    ensures body.JObj? && r.Err? ==>
      && (forall f :: BadScalar(f) in r.error <==> !ScalarAccepted(checks, f, Lookup(body.members, ScalarKey(f))))
      && (forall c :: BadCollection(c) in r.error <==> !CollectionAccepted(Lookup(body.members, CollectionKey(c))))
    ensures r.Ok? ==>
      && (forall f :: InputScalar(r.value, f) == StringOf(Lookup(body.members, ScalarKey(f))))
      && (forall c :: InputItems(r.value, c) == ArrayOf(Lookup(body.members, CollectionKey(c))))
  {
    if !body.JObj? then Err([NotAnObject])
    else
      var issues := Issues(checks, body.members);
      if issues != [] then Err(issues)
      else
        InputFromFields(checks, body.members);
        Ok(InputFrom(checks, body.members))
  }

  /**
   * Single fields against the schema: an empty name is refused, an empty
   * website accepted, a website that is not a URL refused, a null phone
   * refused and an absent phone accepted.
   */
  lemma SchemaCases(checks: Checks)
    ensures !ScalarAccepted(checks, FullName, Some(JStr("")))
    ensures ScalarAccepted(checks, Website, Some(JStr("")))
    ensures !checks.isUrl("not-a-url") ==> !ScalarAccepted(checks, Website, Some(JStr("not-a-url")))
    ensures !ScalarAccepted(checks, Phone, Some(JNull)) && ScalarAccepted(checks, Phone, None)
    ensures !CollectionAccepted(Some(JStr("[]"))) && CollectionAccepted(Some(JArr([JNum(1), JStr("x")])))
  {
  }

  // ------------------------------------------------------- encoding and rows

  type UserId = string

  /** A stored resume row: nullable optional scalars, one JSON text blob per collection (null in legacy rows). */
  datatype Row = Row(
    fullName: string,
    email: string,
    phone: Option<string>,
    location: Option<string>,
    website: Option<string>,
    linkedin: Option<string>,
    github: Option<string>,
    summary: Option<string>,
    experiences: Option<string>,
    education: Option<string>,
    skills: Option<string>,
    projects: Option<string>,
    certifications: Option<string>,
    languages: Option<string>)

  type Store = map<UserId, Row>

  function RowScalar(row: Row, f: Scalar): Option<string>
  {
    match f
    case FullName => Some(row.fullName)
    case Email => Some(row.email)
    case Phone => row.phone
    case Location => row.location
    case Website => row.website
    case Linkedin => row.linkedin
    case Github => row.github
    case Summary => row.summary
  }

  function RowBlob(row: Row, c: Collection): Option<string>
  {
    match c
    case Experiences => row.experiences
    case Education => row.education
    case Skills => row.skills
    case Projects => row.projects
    case Certifications => row.certifications
    case Languages => row.languages
  }

  /** `x || null` on an optional string: the empty string and absence are both stored as null. */
  function OrNull(v: Option<string>): (r: Option<string>)
    ensures r.None? <==> v.None? || v == Some("")
    ensures r.Some? ==> r == v
  {
    if v.Some? && v.value != "" then v else None
  }

  /** `JSON.stringify(x || [])` */
  function EncodeItems(xs: Option<seq<Json>>): string
  {
    Stringify(JArr(if xs.Some? then xs.value else []))
  }

  /** The field values both branches of the upsert write for validated data. */
  function Encode(x: Input): (row: Row)
    ensures forall f :: !Optional(f) ==> RowScalar(row, f) == InputScalar(x, f)
    ensures forall f :: Optional(f) ==> RowScalar(row, f) == OrNull(InputScalar(x, f))
    ensures forall c :: RowBlob(row, c) == Some(EncodeItems(InputItems(x, c)))
  {
    Row(
      x.fullName, x.email,
      OrNull(x.phone), OrNull(x.location), OrNull(x.website),
      OrNull(x.linkedin), OrNull(x.github), OrNull(x.summary),
      Some(EncodeItems(x.experiences)), Some(EncodeItems(x.education)), Some(EncodeItems(x.skills)),
      Some(EncodeItems(x.projects)), Some(EncodeItems(x.certifications)), Some(EncodeItems(x.languages)))
  }

  /**
   * `prisma.resume.upsert`: the row of uid is created when missing and
   * updated otherwise, with the same field values either way; no other
   * user's row changes.
   */
  function Upsert(store: Store, uid: UserId, x: Input): (r: Store)
    ensures uid in r && r[uid] == Encode(x)
    ensures r.Keys == store.Keys + {uid}
    ensures forall u :: u in store && u != uid ==> r[u] == store[u]
  {
    store[uid := Encode(x)]
  }

  // -------------------------------------------------------------- decoding

  /** `JSON.parse(blob || '[]')`: None where the parse throws. */
  function DecodeBlob(b: Option<string>): (r: Option<Json>)
    ensures b.None? || b == Some("") ==> r == Some(JArr([]))
    ensures b.Some? && b.value != "" ==> r == Parse(b.value)
  {
    ParseStringify(JArr([]));
    assert Stringify(JArr([])) == "[]";
    Parse(if b.None? || b == Some("") then "[]" else b.value)
  }

  predicate Decodable(row: Row)
  {
    forall c :: DecodeBlob(RowBlob(row, c)).Some?
  }

  /**
   * The response object for a row: the row's scalars as they are, each blob
   * parsed; Err when any blob is not JSON (the handler then answers 500).
   */
  function Decode(row: Row): (r: Result<Resume, string>)
    ensures r.Ok? <==> Decodable(row)
    ensures r.Ok? ==> forall f :: GetScalar(r.value, f) == RowScalar(row, f)
    ensures r.Ok? ==> forall c :: Some(GetItems(r.value, c)) == DecodeBlob(RowBlob(row, c))
  {
    if !Decodable(row) then Err("Internal server error")
    else
      assert DecodeBlob(RowBlob(row, Experiences)).Some? && DecodeBlob(RowBlob(row, Education)).Some?;
      assert DecodeBlob(RowBlob(row, Skills)).Some? && DecodeBlob(RowBlob(row, Projects)).Some?;
      assert DecodeBlob(RowBlob(row, Certifications)).Some? && DecodeBlob(RowBlob(row, Languages)).Some?;
      var r := Resume(
        Some(row.fullName), Some(row.email),
        row.phone, row.location, row.website, row.linkedin, row.github, row.summary,
        DecodeBlob(row.experiences).value,
        DecodeBlob(row.education).value,
        DecodeBlob(row.skills).value,
        DecodeBlob(row.projects).value,
        DecodeBlob(row.certifications).value,
        DecodeBlob(row.languages).value);
      assert Some(GetItems(r, Experiences)) == DecodeBlob(RowBlob(row, Experiences));
      assert Some(GetItems(r, Education)) == DecodeBlob(RowBlob(row, Education));
      assert Some(GetItems(r, Skills)) == DecodeBlob(RowBlob(row, Skills));
      assert Some(GetItems(r, Projects)) == DecodeBlob(RowBlob(row, Projects));
      assert Some(GetItems(r, Certifications)) == DecodeBlob(RowBlob(row, Certifications));
      assert Some(GetItems(r, Languages)) == DecodeBlob(RowBlob(row, Languages));
      Ok(r)
  }

  /** What the server answers for validated data x: scalars after `|| null`, collections as sent. */
  function Confirmed(x: Input): (r: Resume)
    ensures forall f :: GetScalar(r, f) == if Optional(f) then OrNull(InputScalar(x, f)) else InputScalar(x, f)
    ensures forall c :: GetItems(r, c) == JArr(if InputItems(x, c).Some? then InputItems(x, c).value else [])
  {
    Resume(
      Some(x.fullName), Some(x.email),
      OrNull(x.phone), OrNull(x.location), OrNull(x.website),
      OrNull(x.linkedin), OrNull(x.github), OrNull(x.summary),
      JArr(if x.experiences.Some? then x.experiences.value else []),
      JArr(if x.education.Some? then x.education.value else []),
      JArr(if x.skills.Some? then x.skills.value else []),
      JArr(if x.projects.Some? then x.projects.value else []),
      JArr(if x.certifications.Some? then x.certifications.value else []),
      JArr(if x.languages.Some? then x.languages.value else []))
  }

  /** A stored blob decodes to the array that was encoded into it. */
  lemma DecodeEncodeItems(xs: Option<seq<Json>>)
    ensures DecodeBlob(Some(EncodeItems(xs))) == Some(JArr(if xs.Some? then xs.value else []))
  {
    var v := JArr(if xs.Some? then xs.value else []);
    ParseStringify(v);
    StringifyStart(v);
  }

  /** Round trip of the store: decoding the encoded row gives back what the server confirms. */
  lemma DecodeEncode(x: Input)
    ensures Decode(Encode(x)) == Ok(Confirmed(x))
  {
    var row := Encode(x);
    forall c ensures DecodeBlob(RowBlob(row, c)) == Some(GetItems(Confirmed(x), c)) {
      DecodeEncodeItems(InputItems(x, c));
    }
    assert Decodable(row);
    var r := Decode(row).value;
    Extensionality(r, Confirmed(x));
  }

  // -------------------------------------------------------------- handlers

  datatype Response =
    | Ok200(resume: Resume)
    | BadRequest400(issues: seq<Issue>)
    | NotFound404
    | ServerError500

  /** GET: the caller's decoded resume, 404 without a row, 500 when a blob is malformed. */
  function Get(store: Store, uid: UserId): (r: Response)
    ensures uid !in store ==> r == NotFound404
    ensures uid in store ==> (r.ServerError500? <==> !Decodable(store[uid]))
    ensures uid in store && Decodable(store[uid]) ==> r == Ok200(Decode(store[uid]).value)
  {
    if uid !in store then NotFound404
    else
      match Decode(store[uid])
      case Ok(resume) => Ok200(resume)
      case Err(_) => ServerError500
  }

  /**
   * PUT with the request's JSON text: 500 when the text is not JSON, 400 with
   * the issues and no write when the schema rejects it, otherwise the upsert
   * and the decoded new row.
   */
  function Put(checks: Checks, store: Store, uid: UserId, request: string): (r: (Response, Store))
    ensures Parse(request).None? ==> r == (ServerError500, store)
    ensures Parse(request).Some? && Validate(checks, Parse(request).value).Err? ==>
      r == (BadRequest400(Validate(checks, Parse(request).value).error), store)
    ensures Parse(request).Some? && Validate(checks, Parse(request).value).Ok? ==>
      var x := Validate(checks, Parse(request).value).value;
      r == (Ok200(Confirmed(x)), Upsert(store, uid, x))
  {
    match Parse(request)
    case None => (ServerError500, store)
    case Some(body) =>
      match Validate(checks, body)
      case Err(issues) => (BadRequest400(issues), store)
      case Ok(x) =>
        var store' := Upsert(store, uid, x);
        DecodeEncode(x);
        match Decode(store'[uid])
        case Ok(resume) => (Ok200(resume), store')
        case Err(_) => (ServerError500, store')
  }

  /** After a successful PUT, GET answers exactly what the PUT answered. */
  lemma GetAfterPut(checks: Checks, store: Store, uid: UserId, request: string)
    requires Put(checks, store, uid, request).0.Ok200?
    ensures Get(Put(checks, store, uid, request).1, uid) == Put(checks, store, uid, request).0
  {
    var x := Validate(checks, Parse(request).value).value;
    DecodeEncode(x);
  }
}
