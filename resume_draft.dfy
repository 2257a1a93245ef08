/**
 * The editor's draft operations as functions: the defensive array decoder,
 * the initial load, the add/remove/update operations per collection, how a
 * record's name is shown, and the replacement of the draft after a save.
 */
module ResumeDraft {
  import opened Wrappers
  import opened JsonValues
  import opened JsonText
  import opened ResumeShape

  // ------------------------------------------------------------- parseArray

  /**
   * `parseArray`: an array as it is, a string parsed as JSON (whatever value
   * that gives, array or not) or `[]` when it does not parse, `[]` for
   * anything else. It never throws.
   */
  function ParseArray(v: Json): (r: Json)
    ensures v.JArr? ==> r == v
    ensures v.JStr? && Parse(v.s).Some? ==> r == Parse(v.s).value
    ensures v.JStr? && Parse(v.s).None? ==> r == JArr([])
    ensures !v.JArr? && !v.JStr? ==> r == JArr([])
  {
    if v.JArr? then v
    else if v.JStr? then
      match Parse(v.s)
      case Some(j) => j
      case None => JArr([])
    else JArr([])
  }

  /** A collection stored as JSON text inside a JSON string is recovered as the array. */
  lemma ParseArrayOfText(xs: seq<Json>)
    ensures ParseArray(JStr(Stringify(JArr(xs)))) == JArr(xs)
  {
    ParseStringify(JArr(xs));
  }

  /** The result is not checked to be an array: the text "5" gives the number 5. */
  lemma ParseArrayKeepsNonArray()
    ensures ParseArray(JStr("5")) == JNum(5)
  {
    ParseStringify(JNum(5));
    assert Stringify(JNum(5)) == "5";
  }

  /** Text that is not JSON gives the empty array. */
  lemma ParseArrayDropsGarbage()
    ensures ParseArray(JStr("garbage")) == JArr([])
  {
    assert ParseValue("garbage") == None by {
      assert SkipWs("garbage") == "garbage";
    }
  }

  // ----------------------------------------------------------- initial load

  /** `x || ''` on a scalar. */
  function OrEmpty(v: Option<string>): (r: string)
    ensures v.Some? ==> r == v.value
    ensures v.None? ==> r == ""
  {
    if v.Some? then v.value else ""
  }

  /** The draft before any resume is loaded: empty strings and empty arrays. */
  const BlankDraft: Resume :=
    Resume(Some(""), Some(""), Some(""), Some(""), Some(""), Some(""), Some(""), Some(""),
           JArr([]), JArr([]), JArr([]), JArr([]), JArr([]), JArr([]))

  /** The draft made from a loaded resume: every scalar a string, every collection through ParseArray. */
  function Load(initial: Resume): (r: Resume)
    ensures forall f :: GetScalar(r, f) == Some(OrEmpty(GetScalar(initial, f)))
    ensures forall c :: GetItems(r, c) == ParseArray(GetItems(initial, c))
  {
    Resume(
      Some(OrEmpty(initial.fullName)), Some(OrEmpty(initial.email)),
      Some(OrEmpty(initial.phone)), Some(OrEmpty(initial.location)),
      Some(OrEmpty(initial.website)), Some(OrEmpty(initial.linkedin)),
      Some(OrEmpty(initial.github)), Some(OrEmpty(initial.summary)),
      ParseArray(initial.experiences), ParseArray(initial.education),
      ParseArray(initial.skills), ParseArray(initial.projects),
      ParseArray(initial.certifications), ParseArray(initial.languages))
  }

  /**
   * Loading a loaded draft again changes nothing when every collection came
   * out as an array (a string whose JSON is null, a number or a string gives
   * a value that a second load changes again).
   */
  lemma LoadIdempotent(initial: Resume)
    requires forall c :: GetItems(Load(initial), c).JArr?
    ensures Load(Load(initial)) == Load(initial)
  {
    var once := Load(initial);
    var twice := Load(once);
    forall c ensures GetItems(twice, c) == GetItems(once, c) {
      assert GetItems(once, c).JArr?;
    }
    Extensionality(twice, once);
  }

  /** A collection stored as the text "null" loads as null, which a second load turns into []. */
  lemma LoadOfNullText(initial: Resume)
    requires initial.skills == JStr("null")
    ensures Load(initial).skills == JNull
    ensures Load(Load(initial)).skills == JArr([])
  {
    ParseStringify(JNull);
    assert Stringify(JNull) == "null";
  }

  // ------------------------------------------------------------- add / remove

  /** The collections the editor has operations for (languages only pass through). */
  predicate Edited(c: Collection)
  {
    c != Languages
  }

  /** The blank record each add operation appends. */
  function Blank(c: Collection): Json
    requires Edited(c)
  {
    match c
    case Experiences =>
      JObj([("title", JStr("")), ("company", JStr("")), ("location", JStr("")), ("startDate", JStr("")),
            ("endDate", JStr("")), ("current", JBool(false)), ("description", JStr(""))])
    case Education =>
      JObj([("degree", JStr("")), ("school", JStr("")), ("location", JStr("")), ("startDate", JStr("")),
            ("endDate", JStr("")), ("current", JBool(false)), ("description", JStr(""))])
    case Skills =>
      JObj([("name", JStr("")), ("level", JStr(""))])
    case Certifications =>
      JObj([("name", JStr("")), ("issuer", JStr("")), ("date", JStr("")), ("url", JStr(""))])
    case Projects =>
      JObj([("name", JStr("")), ("description", JStr("")), ("url", JStr("")), ("technologies", JStr("")),
            ("startDate", JStr("")), ("endDate", JStr("")), ("current", JBool(false))])
  }

  /**
   * `[...(items || []), blank]`: one blank record at the end of the array;
   * a falsy value counts as the empty array. None where the spread throws.
   */
  function AddItem(items: Json, c: Collection): (r: Option<Json>)
    requires Edited(c)
    ensures items.JArr? ==> r == Some(JArr(items.items + [Blank(c)]))
    ensures !Truthy(Some(items)) ==> r == Some(JArr([Blank(c)]))
    ensures r.Some? ==> r.value.JArr? && |r.value.items| >= 1 && r.value.items[|r.value.items| - 1] == Blank(c)
    ensures r.None? <==> SpreadOrEmpty(items).None?
  {
    match SpreadOrEmpty(items)
    case None => None
    case Some(xs) =>
      assert !Truthy(Some(items)) ==> xs + [Blank(c)] == [Blank(c)];
      Some(JArr(xs + [Blank(c)]))
  }

  /** `xs.filter((_, j) => j !== i)`: every element whose position is not i, in order. */
  function RemoveAt(xs: seq<Json>, i: int): (r: seq<Json>)
    ensures 0 <= i < |xs| ==> r == xs[..i] + xs[i + 1..]
    ensures !(0 <= i < |xs|) ==> r == xs
  {
    if xs == [] then []
    else
      var rest := RemoveAt(xs[1..], i - 1);
      assert i > 0 && i - 1 < |xs[1..]| ==> xs[1..][..i - 1] + xs[1..][i..] == xs[1..i] + xs[i + 1..];
      (if i == 0 then [] else [xs[0]]) + rest
  }

  /**
   * `items?.filter(...) || []`: null gives the empty array, an array loses
   * the element at i. None for any other value, which has no filter method.
   */
  function RemoveItem(items: Json, i: int): (r: Option<Json>)
    ensures items.JNull? ==> r == Some(JArr([]))
    ensures items.JArr? ==> r == Some(JArr(RemoveAt(items.items, i)))
    ensures r.None? <==> !items.JNull? && !items.JArr?
  {
    match items
    case JNull => Some(JArr([]))
    case JArr(xs) => Some(JArr(RemoveAt(xs, i)))
    case _ => None
  }

  /** Removing the record that was just added restores the array. */
  lemma RemoveAfterAdd(xs: seq<Json>, c: Collection)
    requires Edited(c)
    ensures AddItem(JArr(xs), c).Some?
    ensures RemoveItem(AddItem(JArr(xs), c).value, |xs|) == Some(JArr(xs))
  {
    var ys := xs + [Blank(c)];
    assert ys[..|xs|] == xs;
    assert ys[|xs| + 1..] == [];
    assert ys[..|xs|] + ys[|xs| + 1..] == xs;
  }

  /** On a null collection, add then remove gives the empty array, not null. */
  lemma RemoveAfterAddOnNull(c: Collection)
    requires Edited(c)
    ensures AddItem(JNull, c).Some?
    ensures RemoveItem(AddItem(JNull, c).value, 0) == Some(JArr([]))
  {
    assert [Blank(c)][..0] + [Blank(c)][1..] == [];
  }

  // ---------------------------------------------------------------- update

  /**
   * `updated = [...xs]; updated[i] = {...updated[i], [field]: value}`: the
   * record at i becomes an object with field set and every other property it
   * spread into, and no other element changes.
   */
  function UpdateAt(xs: seq<Json>, i: nat, field: string, value: Json): (r: seq<Json>)
    requires i < |xs|
    ensures |r| == |xs|
    ensures forall j :: 0 <= j < |xs| && j != i ==> r[j] == xs[j]
    ensures r[i].JObj? && Lookup(r[i].members, field) == Some(value)
    ensures forall k :: k != field ==> Lookup(r[i].members, k) == Lookup(ObjectSpread(xs[i]), k)
    ensures xs[i].JObj? ==> forall k :: k != field ==> Lookup(r[i].members, k) == Lookup(xs[i].members, k)
  {
    var updated := xs;
    updated[i := JObj(SetMember(ObjectSpread(updated[i]), field, value))]
  }

  /** An update on an object record keeps its keys in order and appends a new key at the end. */
  lemma UpdateKeepsKeyOrder(xs: seq<Json>, i: nat, field: string, value: Json)
    requires i < |xs| && xs[i].JObj?
    ensures Keys(UpdateAt(xs, i, field, value)[i].members) ==
      if field in Keys(xs[i].members) then Keys(xs[i].members) else Keys(xs[i].members) + [field]
  {
  }

  // ------------------------------------------------------------ name display

  /** `typeof skill === 'string' ? skill : (skill.name || skill)`; None where reading `name` throws. */
  function SkillLabel(skill: Json): (r: Option<Json>)
    ensures skill.JStr? ==> r == Some(skill)
    ensures skill.JObj? && Truthy(Lookup(skill.members, "name")) ==> r == Lookup(skill.members, "name")
    ensures skill.JObj? && !Truthy(Lookup(skill.members, "name")) ==> r == Some(skill)
    ensures r.None? <==> skill.JNull?
  {
    if skill.JStr? then Some(skill)
    else
      match Property(skill, "name")
      case None => None
      case Some(name) => if Truthy(name) then name else Some(skill)
  }

  /** `record.name || record.title || ''`; None where reading `name` throws. */
  function NameOrTitle(record: Json): (r: Option<Json>)
    ensures record.JObj? && Truthy(Lookup(record.members, "name")) ==> r == Lookup(record.members, "name")
    ensures record.JObj? && !Truthy(Lookup(record.members, "name")) && Truthy(Lookup(record.members, "title")) ==>
      r == Lookup(record.members, "title")
    ensures record.JObj? && !Truthy(Lookup(record.members, "name")) && !Truthy(Lookup(record.members, "title")) ==>
      r == Some(JStr(""))
    ensures !record.JObj? && !record.JNull? ==> r == Some(JStr(""))
    ensures r.None? <==> record.JNull?
  {
    match Property(record, "name")
    case None => None
    case Some(name) =>
      if Truthy(name) then name
      else
        var title := Property(record, "title").value;
        if Truthy(title) then title else Some(JStr(""))
  }

  /** No decimal index is a word key such as "name". */
  lemma IndexKeysAreNotWords(s: string, k: string)
    requires k != [] && !('0' <= k[0] <= '9')
    ensures k !in Keys(ObjectSpread(JStr(s)))
  {
    var ks := Keys(ObjectSpread(JStr(s)));
    forall j | 0 <= j < |ks| ensures ks[j] != k {
      assert ks[j] == NatText(j);
    }
  }

  /**
   * Renaming a bare-string skill spreads the string: the record gets one
   * member per character, under its index, followed by the new name.
   */
  lemma UpdateBareStringSkill(xs: seq<Json>, i: nat, s: string, v: string)
    requires i < |xs| && xs[i] == JStr(s)
    ensures var m := UpdateAt(xs, i, "name", JStr(v))[i].members;
      |m| == |s| + 1 && m[|s|] == ("name", JStr(v)) &&
      forall j :: 0 <= j < |s| ==> m[j] == (NatText(j), JStr([s[j]]))
  {
    var spread := ObjectSpread(JStr(s));
    IndexKeysAreNotWords(s, "name");
    var m := SetMember(spread, "name", JStr(v));
    assert m == spread + [("name", JStr(v))] by {
      SetMemberAppends(spread, "name", JStr(v));
    }
  }

  lemma {:induction false} SetMemberAppends(ms: seq<(string, Json)>, k: string, v: Json)
    requires k !in Keys(ms)
    ensures SetMember(ms, k, v) == ms + [(k, v)]
  {
    if ms != [] {
      assert Keys(ms) == [ms[0].0] + Keys(ms[1..]);
      SetMemberAppends(ms[1..], k, v);
      assert [ms[0]] + (ms[1..] + [(k, v)]) == ms + [(k, v)];
    }
  }

  /** After typing a non-empty name into any skill, the skill shows that name. */
  lemma SkillShowsTypedName(xs: seq<Json>, i: nat, v: string)
    requires i < |xs| && v != ""
    ensures SkillLabel(UpdateAt(xs, i, "name", JStr(v))[i]) == Some(JStr(v))
  {
  }

  /** Clearing a skill's name makes it show the whole record instead of an empty name. */
  lemma SkillShowsRecordWhenCleared(xs: seq<Json>, i: nat)
    requires i < |xs|
    ensures var r := UpdateAt(xs, i, "name", JStr(""))[i]; SkillLabel(r) == Some(r)
  {
  }

  /** Clearing the name of a legacy record with a title shows the title again. */
  lemma TitleShowsWhenNameCleared(xs: seq<Json>, i: nat, t: string)
    requires i < |xs| && xs[i].JObj? && Lookup(xs[i].members, "title") == Some(JStr(t)) && t != ""
    ensures NameOrTitle(UpdateAt(xs, i, "name", JStr(""))[i]) == Some(JStr(t))
  {
  }

  // -------------------------------------------------------------- reconcile

  /**
   * The draft after a successful save: the server's object with every
   * collection through ParseArray; scalars are copied as they are, so null
   * stays null.
   */
  function Reconcile(saved: Resume): (r: Resume)
    ensures forall f :: GetScalar(r, f) == GetScalar(saved, f)
    ensures forall c :: GetItems(r, c) == ParseArray(GetItems(saved, c))
  {
    saved.(experiences := ParseArray(saved.experiences),
           education := ParseArray(saved.education),
           skills := ParseArray(saved.skills),
           projects := ParseArray(saved.projects),
           certifications := ParseArray(saved.certifications),
           languages := ParseArray(saved.languages))
  }
}
