# Resume write/read pipeline

A model of the two places where a user's resume is changed and checked:

- the client-side resume editor (`components/ResumeEditor.tsx`), which holds a
  draft resume as state. It loads the draft defensively from the server's
  resume and edits its six record collections by position. It also changes
  its eight scalar fields, saves the draft with a PUT, and replaces the draft
  with the server's answer;
- the `/api/resume` route (`app/api/resume/route.ts`). Its zod schema accepts
  or rejects a request body field by field. Its upsert stores a row, with
  optional scalars as `x || null` and collections as
  `JSON.stringify(x || [])`. GET and PUT answer with the row decoded through
  `JSON.parse(blob || '[]')`.

Modules:

| file | module | contents |
|---|---|---|
| `wrappers.dfy` | `Wrappers` | `Option`, `Result` |
| `json_value.dfy` | `JsonValues` | JSON values; JavaScript truthiness; array spread, object spread and computed-key assignment; property reads |
| `json_text.dfy` | `JsonText` | a JSON printer (`JSON.stringify`) and parser (`JSON.parse`); the parse of a printed value gives back the value |
| `resume_shape.dfy` | `ResumeShape` | the resume record, its field names, and its JSON object form |
| `resume_api.dfy` | `ResumeApi` | the schema, the row encoding, the store as a map from user id to row, the decoding, and the GET and PUT handlers |
| `resume_draft.dfy` | `ResumeDraft` | `parseArray`, the initial load, the blank records, add, remove and update, name display, and the post-save reconcile |
| `resume_editor.dfy` | `ResumeEditor` | which drafts the server accepts, what a save leaves behind, and the `Editor` class that holds the draft |

Design choices:

- JSON objects are lists of members in insertion order. A spread or a
  computed-key write keeps that order and appends new keys at the end.
- `JSON.stringify` and `JSON.parse` are concrete functions. The round trip
  `Parse(Stringify(v)) == Some(v)` is proved for every value.
- zod's e-mail and URL checks are a parameter `Checks`. Every property holds
  for any pair of such predicates.
- A JavaScript `TypeError` is modelled as `None`. Examples: spreading a
  number or an object into an array, calling `filter` on a non-array, reading
  `name` of `null`. The editor's methods then report failure and leave the
  draft unchanged.
- The draft's collections have type `Json`, not sequence of `Json`. This is
  because `parseArray` passes on whatever `JSON.parse` returns, arrays or not.

Behaviour a reader might expect but the code does not have:

- A malformed stored blob does not degrade to the empty sequence. The
  `JSON.parse` in the GET and PUT handlers throws, and the handler answers
  500. The model does the same (`ResumeApi.Get`, `ResumeApi.Decode`).
- After a save, the code does not normalise the server's answer. Scalars
  stored as null stay null in the draft. This save as written is
  `ResumeEditor.Editor.SaveAsWritten`, built on `ResumeDraft.Reconcile`.
  `ResumeEditor.Editor.Save` is the corrected save. It applies the
  initial-load coercion to the answer. See Findings.

## Model

| member | source | states |
|---|---|---|
| JsonValues.LookupKeys | components/ResumeEditor.tsx:159 | a property is missing from an object exactly when its key is not among the object's keys |
| JsonValues.Lookup | components/ResumeEditor.tsx:576 | a property read: the value of the first member with that key, or undefined; its link to the key list is LookupKeys |
| JsonValues.Truthy | components/ResumeEditor.tsx:64 | `\|\|` truthiness: undefined, null, false, 0 and `''` are falsy and every other value is truthy |
| JsonValues.SetMember | components/ResumeEditor.tsx:159 | `{...o, [k]: v}` has k set to v and every other property as in o; it keeps the keys in order and appends k when it is new |
| JsonValues.SpreadOrEmpty | components/ResumeEditor.tsx:158 | `[...(v \|\| [])]` is empty for a falsy value, an array's elements, or a string's characters; it throws exactly for true, a non-zero number or an object |
| JsonValues.ObjectSpread | components/ResumeEditor.tsx:159 | `{...v}` has an object's members; a string's characters or an array's elements under their decimal index; nothing for null, booleans and numbers |
| JsonValues.NatText | components/ResumeEditor.tsx:159 | the index keys of a spread are decimal digit strings without a leading zero |
| JsonValues.Property | components/ResumeEditor.tsx:576 | reading a property throws exactly on null; on an object it is the member's value or undefined |
| JsonText.ParseStringify | app/api/resume/route.ts:81-86 | parsing the JSON text of any value gives back that value |
| JsonText.Stringify | components/ResumeEditor.tsx:90 | `JSON.stringify` without whitespace: members and elements in order, strings escaped; ParseStringify is its partner |
| JsonText.Parse | app/api/resume/route.ts:43 | `JSON.parse`: one value with optional surrounding whitespace, and None where it throws; ParseStringify is its partner |
| JsonText.ParseUnicodeEscape | app/api/resume/route.ts:43 | the text after a decoded `\u` escape is shorter than the escape's text; what the escape decodes to is stated by the five lemmas below |
| JsonText.BmpEscapeDecoded | app/api/resume/route.ts:43 | any four hex digits, in either case, naming a code unit outside the surrogate range decode to that code unit and leave the rest |
| JsonText.PairEscapeDecoded | app/api/resume/route.ts:43 | a high surrogate escape followed by a low surrogate escape decodes to the one character beyond U+FFFF whose UTF-16 pair they are |
| JsonText.AstralEscapeDecoded | app/api/resume/route.ts:43 | every character beyond U+FFFF is decoded from the escapes of its own UTF-16 pair |
| JsonText.LowHalfRefused | app/api/resume/route.ts:43 | an escaped low surrogate with no high one before it is refused |
| JsonText.UnpairedHighRefused | app/api/resume/route.ts:43 | an escaped high surrogate that is not followed by an escaped low surrogate is refused |
| JsonText.Hex4 | app/api/resume/route.ts:43 | every code unit has a four-digit escape that the parser reads back as that code unit |
| JsonText.EscapedPairDecoded | app/api/resume/route.ts:43 | example: the escaped pair `\ud83d\ude00` parses to the one character U+1F600 |
| JsonText.LoneHalfRefused | app/api/resume/route.ts:43 | example: an escaped high surrogate at the end of a string does not parse |
| JsonText.ValueRoundTrip | app/api/resume/route.ts:110-115 | the parser reads exactly the printed text of a value and leaves whatever follows it |
| JsonText.StringRoundTrip | app/api/resume/route.ts:81-86 | an escaped string followed by its closing quote parses back to the string |
| ResumeShape.WithScalar | components/ResumeEditor.tsx:296 | a scalar setter changes that scalar only; every other scalar and every collection is kept |
| ResumeShape.WithItems | components/ResumeEditor.tsx:160 | replacing one collection keeps every other collection and every scalar |
| ResumeShape.ResumeJsonScalar | components/ResumeEditor.tsx:90 | the request body carries each scalar under its own key, as a string or as null |
| ResumeShape.ResumeJsonItems | components/ResumeEditor.tsx:90 | the request body carries each collection under its own key, unchanged |
| ResumeApi.ScalarIssues | app/api/resume/route.ts:8-15 | a scalar is reported exactly when the schema rejects its value |
| ResumeApi.CollectionIssues | app/api/resume/route.ts:16-21 | a collection is reported exactly when it is present and not an array |
| ResumeApi.ScalarAccepted | app/api/resume/route.ts:8-15 | the schema per scalar: a non-empty name string, an e-mail string, the URL fields as in UrlAccepted, the other scalars absent or a string; null is never accepted |
| ResumeApi.UrlAccepted | app/api/resume/route.ts:12-14 | a URL field is accepted exactly when absent, `''`, or a string passing the URL check |
| ResumeApi.CollectionAccepted | app/api/resume/route.ts:16-21 | a collection is accepted exactly when absent or an array, whatever its elements |
| ResumeApi.Issues | app/api/resume/route.ts:7-22 | there are no issues exactly when every field is accepted; each failing field is named |
| ResumeApi.SchemaCases | app/api/resume/route.ts:8-15 | the schema rejects an empty name, a non-URL website and a null phone; it accepts an empty website and an absent phone; a collection is accepted only as an array |
| ResumeApi.InputFromFields | app/api/resume/route.ts:68 | the validated data carry each string and array of the body, and absence where the body has none |
| ResumeApi.Validate | app/api/resume/route.ts:68 | a non-object is rejected; an object is accepted exactly when every field is accepted; otherwise every failing field is listed; accepted data carry the body's fields |
| ResumeApi.OrNull | app/api/resume/route.ts:75-80 | `x \|\| null` is null exactly for an absent or empty string, and the string otherwise |
| ResumeApi.EncodeItems | app/api/resume/route.ts:81-86 | `JSON.stringify(x \|\| [])`: the JSON text of the array, or of `[]` when absent; DecodeEncodeItems is its partner |
| ResumeApi.Encode | app/api/resume/route.ts:72-87 | the row has name and e-mail verbatim, optional scalars through `\|\| null`, and each collection as the JSON text of the array or of `[]` |
| ResumeApi.Upsert | app/api/resume/route.ts:70-105 | the user's row becomes the encoded data whether it existed or not; no other user's row changes and no other key appears |
| ResumeApi.DecodeBlob | app/api/resume/route.ts:43 | a null or empty blob decodes to `[]`; any other blob decodes to whatever it parses to, and fails when it does not parse |
| ResumeApi.Decode | app/api/resume/route.ts:41-49 | the row decodes exactly when every blob decodes; the scalars are the row's, the collections the decoded blobs |
| ResumeApi.Confirmed | app/api/resume/route.ts:108-116 | the PUT's answer has optional scalars through `\|\| null`, name and e-mail verbatim, and each collection as its array or `[]` |
| ResumeApi.DecodeEncodeItems | app/api/resume/route.ts:110-115 | a stored collection decodes to the array that was written, or `[]` when none was |
| ResumeApi.DecodeEncode | app/api/resume/route.ts:108-116 | a freshly encoded row always decodes, to the confirmed resume |
| ResumeApi.Get | app/api/resume/route.ts:24-57 | 404 without a row; 500 exactly when a blob does not parse; otherwise 200 with the decoded row |
| ResumeApi.Put | app/api/resume/route.ts:59-131 | 500 when the body is not JSON; 400 with the issues and the store unchanged when the schema rejects; otherwise 200 with the confirmed resume and the upserted store |
| ResumeApi.GetAfterPut | app/api/resume/route.ts:41-49 | after a successful PUT, GET answers exactly what the PUT answered |
| ResumeDraft.ParseArray | components/ResumeEditor.tsx:51-61 | an array is kept; a string becomes its parse, or `[]` when it does not parse; anything else becomes `[]` |
| ResumeDraft.ParseArrayOfText | components/ResumeEditor.tsx:55 | a collection held as JSON text is recovered as the array |
| ResumeDraft.ParseArrayKeepsNonArray | components/ResumeEditor.tsx:55 | the text "5" gives the number 5; the result is not checked to be an array |
| ResumeDraft.ParseArrayDropsGarbage | components/ResumeEditor.tsx:56-58 | text that is not JSON gives `[]` |
| ResumeDraft.OrEmpty | components/ResumeEditor.tsx:64-71 | `x \|\| ''` is the string itself, or `''` when absent |
| ResumeDraft.Load | components/ResumeEditor.tsx:63-78 | every scalar of the loaded draft is a string, `''` where the resume had none; every collection goes through `parseArray` |
| ResumeDraft.LoadIdempotent | components/ResumeEditor.tsx:63-78 | loading a loaded draft again changes nothing when all its collections are arrays |
| ResumeDraft.LoadOfNullText | components/ResumeEditor.tsx:74 | the stored text "null" loads as null, which a second load turns into `[]` |
| ResumeDraft.Blank | components/ResumeEditor.tsx:137-145 | the blank record for each edited collection: experience and education with six `''` fields and `current` false (lines 137-145, 168-176), a skill `{name, level}` (line 197), a certification `{name, issuer, date, url}` (lines 219-224), a project with six `''` fields and `current` false (lines 247-255) |
| ResumeDraft.AddItem | components/ResumeEditor.tsx:132-148 | one blank record of the collection's kind is appended at the end; a falsy collection counts as `[]`; it throws exactly where the spread throws |
| ResumeDraft.RemoveAt | components/ResumeEditor.tsx:153 | the element at i is removed and the others keep their order; an index out of range changes nothing |
| ResumeDraft.RemoveItem | components/ResumeEditor.tsx:150-155 | null becomes `[]`; an array loses the element at i; any other value throws |
| ResumeDraft.RemoveAfterAdd | components/ResumeEditor.tsx:135-153 | removing at the old length right after an add restores the array |
| ResumeDraft.RemoveAfterAddOnNull | components/ResumeEditor.tsx:136 | on a null collection, add then remove gives `[]`, not null |
| ResumeDraft.UpdateAt | components/ResumeEditor.tsx:157-161 | the length is the same; the record at i has the field set and keeps every other property it had; every other element is unchanged |
| ResumeDraft.UpdateKeepsKeyOrder | components/ResumeEditor.tsx:159 | updating an object record keeps its keys in order and appends a new field at the end |
| ResumeDraft.UpdateBareStringSkill | components/ResumeEditor.tsx:208-212 | renaming a bare-string skill gives one member per character under its index, followed by the new name |
| ResumeDraft.SkillLabel | components/ResumeEditor.tsx:576 | a string skill shows itself; a record shows its name when that is truthy, and the record itself otherwise; it throws only on null |
| ResumeDraft.SkillShowsTypedName | components/ResumeEditor.tsx:576 | after typing a non-empty name into any skill, the skill shows that name |
| ResumeDraft.SkillShowsRecordWhenCleared | components/ResumeEditor.tsx:576 | after clearing a skill's name, it shows the whole record |
| ResumeDraft.NameOrTitle | components/ResumeEditor.tsx:621 | a record shows its name, or its title, or `''`, in that order of truthiness; it throws only on null |
| ResumeDraft.TitleShowsWhenNameCleared | components/ResumeEditor.tsx:722 | clearing the name of a legacy record that has a title shows the title again |
| ResumeDraft.Reconcile | components/ResumeEditor.tsx:113-121 | the draft after a save has the answer's scalars as they are, null included, and each collection through `parseArray` |
| ResumeEditor.RequestText | components/ResumeEditor.tsx:90 | `JSON.stringify(resume)`: the request body is the draft's JSON text; ValidateDraft shows the server parses it back to the draft |
| ResumeEditor.ValidateDraft | app/api/resume/route.ts:67-68 | the server reads back exactly the draft it was sent; it accepts exactly when the draft's scalars and collections pass; it names every failing field; it hands on the draft's own values |
| ResumeEditor.SaveOutcome | components/ResumeEditor.tsx:86-97 | saving an accepted draft answers 200 with the stored form of the draft, GET then agrees, and other users' rows are kept; any other draft gets 400 with issues and no write |
| ResumeEditor.SecondSaveRejected | components/ResumeEditor.tsx:113-121 | as written: after a save of a draft with an empty optional field, that field is null, and the next save is refused with that field named and nothing written |
| ResumeEditor.SaveIsStable | components/ResumeEditor.tsx:113-121 | with the load coercion applied to the answer, the draft after saving an accepted draft is the same draft, and saving again answers the same |
| ResumeEditor.Editor.constructor | components/ResumeEditor.tsx:29-44 | a new editor holds the blank draft: empty strings and empty arrays |
| ResumeEditor.Editor.LoadInitial | components/ResumeEditor.tsx:48-80 | a loaded resume replaces the draft by its load; without one the draft is kept |
| ResumeEditor.Editor.SetScalar | components/ResumeEditor.tsx:296-365 | the typed string replaces that scalar and nothing else |
| ResumeEditor.Editor.Add | components/ResumeEditor.tsx:132-148 | the collection becomes the add's result and nothing else changes; where the add throws the draft is kept |
| ResumeEditor.Editor.Remove | components/ResumeEditor.tsx:150-155 | the collection becomes the remove's result and nothing else changes; where the remove throws the draft is kept |
| ResumeEditor.Editor.Update | components/ResumeEditor.tsx:157-161 | the copied array with the record at i updated replaces the collection, and nothing else changes |
| ResumeEditor.Editor.SaveAsWritten | components/ResumeEditor.tsx:82-130 | the answer and store are the PUT's on the draft's JSON text; on 200 the draft becomes the answer with collections through `parseArray` and scalars as they are, nulls included; otherwise the draft is kept |
| ResumeEditor.Editor.Save | components/ResumeEditor.tsx:82-130 | corrected (see Findings): the answer and store are the PUT's on the draft's JSON text; on 200 the draft becomes the answer coerced as on load (lines 64-71) instead of being copied as at lines 113-121; otherwise the draft is kept |
| ResumeEditor.SaveKeepsAcceptedDraft | components/ResumeEditor.tsx:82-130 | corrected (see Findings): with the corrected save, an editor whose draft is accepted answers 200, keeps the draft as it was, and GET then gives the same answer |

## Left out

- Authentication: the session lookup and the 401 answers are not modelled. The user id is a parameter of the handlers.
- Persistence: the database is a map from user id to row. Row ids, user-id columns and timestamps are not modelled. The editor therefore does not carry them in its draft after a save.
- Response serialization: `NextResponse.json` and `response.json()` are not modelled. A response body is the resume itself, which the proved round trip justifies.
- Request format: a request body that is not JSON answers 500, as the code does. Content-type headers are not modelled.
- The network and timers in `handleSave` are not modelled: `fetch`, `alert`, `setTimeout`, and the `saving`/`saved` flags. A failed request is any non-200 answer, and the draft is then kept.
- Races between saves are not modelled: two saves in flight, or an answer arriving after further edits. Each save is atomic.
- JSON numbers are unbounded integers. JavaScript numbers are doubles: fractions, exponents, rounding and the limit of exact integers are not modelled.
- Strings are sequences of Unicode scalar values, while JavaScript strings are sequences of UTF-16 code units. A lone surrogate, which JavaScript allows, cannot be represented. The parser therefore refuses an unpaired `\u` surrogate escape where `JSON.parse` accepts it.
- JsonValues.ObjectSpread: on a string it gives one member per scalar value. JavaScript gives one per UTF-16 code unit, so a character beyond U+FFFF spreads to two members in JavaScript and to one in the model. ResumeDraft.UpdateBareStringSkill inherits this.
- Raw control characters in strings are accepted by the parser. Only `\n`, `\r` and `\t` are escaped by the printer. JavaScript's ordering of integer-like keys first is not modelled.
- JsonText.Parse: an object keeps every member of its text, including repeated keys, and a property read (JsonValues.Lookup) takes the first. `JSON.parse` keeps one member per key, with the last value. A body that names a field twice is therefore judged by its first value in the model and by its last in JavaScript.
- Undefined: absent collections and absent values are represented as the key being absent, or as `None`. The editor's draft always holds every field.
- ResumeEditor.Editor.Update: it requires the collection to be an array and the index to be in range. This is because the update inputs exist only for rendered records of an array. The method is not modelled for a draft whose collection is not an array, which would make rendering throw first.
- Languages: the editor has no operations for them. They pass through load, save and reconcile.
- Rendering: the JSX markup, styling and the dashboard, public and PDF views are not modelled. The date formatter is not part of this model.

## Findings

| source | as written | input that shows it | evidently intended | confidence | as-written member | corrected member |
|---|---|---|---|---|---|---|
| components/ResumeEditor.tsx:113-121 | after a 200 answer the draft takes the answer's scalars as they are, so optional fields saved as `''` come back as null | a draft with name "A", an accepted e-mail, phone `''` and every collection `[]`: the first save answers 200 and leaves phone null in the draft; saving again answers 400 naming phone, because the schema accepts an absent or string phone but not null | the answer is coerced as on the initial load (`\|\| ''`, lines 64-71), so the draft after a save is the draft that was saved and can be saved again | not executed | ResumeDraft.Reconcile used by ResumeEditor.Editor.SaveAsWritten, ResumeEditor.SecondSaveRejected | ResumeDraft.Load used by ResumeEditor.Editor.Save, ResumeEditor.SaveIsStable |
