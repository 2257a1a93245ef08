/**
 * The resume editor: a draft resume held as state, the handlers that change
 * it, and the save that sends the draft to the PUT handler and replaces the
 * draft with the server's answer. The lemmas describe which drafts the
 * server accepts and what a save leaves behind.
 */
module ResumeEditor {
  import opened Wrappers
  import opened JsonValues
  import opened JsonText
  import opened ResumeShape
  import opened ResumeApi
  import opened ResumeDraft

  // ------------------------------------------------- what the server accepts

  /** The request body of a save: the draft as JSON text. */
  function RequestText(d: Resume): string
  {
    Stringify(ResumeJson(d))
  }

  /**
   * What the schema demands of a draft scalar, which is sent as a string or
   * as null: the scalar check on the value the request carries.
   */
  predicate DraftScalarOk(checks: Checks, f: Scalar, v: Option<string>)
  {
    ScalarAccepted(checks, f, Some(ScalarJson(v)))
  }

  /** A draft the server accepts: every scalar as above, every collection an array. */
  predicate DraftAccepted(checks: Checks, d: Resume)
  {
    && (forall f :: DraftScalarOk(checks, f, GetScalar(d, f)))
    && (forall c :: GetItems(d, c).JArr?)
  }

  /**
   * The server reads back exactly the draft, accepts it exactly when
   * DraftAccepted holds, names every field that fails, and otherwise hands
   * on the draft's own strings and arrays.
   */
  lemma ValidateDraft(checks: Checks, d: Resume)
    ensures Parse(RequestText(d)) == Some(ResumeJson(d))
    ensures Validate(checks, ResumeJson(d)).Ok? <==> DraftAccepted(checks, d)
    ensures var r := Validate(checks, ResumeJson(d));
      r.Err? ==>
        && (forall f :: BadScalar(f) in r.error <==> !DraftScalarOk(checks, f, GetScalar(d, f)))
        && (forall c :: BadCollection(c) in r.error <==> !GetItems(d, c).JArr?)
    ensures var r := Validate(checks, ResumeJson(d));
      r.Ok? ==>
        && (forall f :: InputScalar(r.value, f) == GetScalar(d, f))
        && (forall c :: InputItems(r.value, c) == Some(GetItems(d, c).items))
  {
    ParseStringify(ResumeJson(d));
    var ms := ResumeJson(d).members;
    forall f ensures ScalarAccepted(checks, f, Lookup(ms, ScalarKey(f))) <==> DraftScalarOk(checks, f, GetScalar(d, f)) {
      ResumeJsonScalar(d, f);
    }
    forall f | DraftScalarOk(checks, f, GetScalar(d, f))
      ensures StringOf(Lookup(ms, ScalarKey(f))) == GetScalar(d, f)
    {
      ResumeJsonScalar(d, f);
    }
    forall c ensures Lookup(ms, CollectionKey(c)) == Some(GetItems(d, c)) {
      ResumeJsonItems(d, c);
    }
  }

  /**
   * Saving an accepted draft answers 200 with the draft as stored (optional
   * empty strings become null), and GET then answers the same; saving any
   * other draft answers 400 with a non-empty list of issues and writes nothing.
   */
  lemma SaveOutcome(checks: Checks, store: Store, uid: UserId, d: Resume)
    ensures var (resp, store') := Put(checks, store, uid, RequestText(d));
      DraftAccepted(checks, d) ==>
        && resp.Ok200?
        && (forall f :: GetScalar(resp.resume, f) == if Optional(f) then OrNull(GetScalar(d, f)) else GetScalar(d, f))
        && (forall c :: GetItems(resp.resume, c) == GetItems(d, c))
        && Get(store', uid) == resp
        && (forall u :: u in store && u != uid ==> u in store' && store'[u] == store[u])
    ensures var (resp, store') := Put(checks, store, uid, RequestText(d));
      !DraftAccepted(checks, d) ==> resp.BadRequest400? && resp.issues != [] && store' == store
  {
    ValidateDraft(checks, d);
    if DraftAccepted(checks, d) {
      GetAfterPut(checks, store, uid, RequestText(d));
    }
  }

  // ------------------------------------------------------------ the finding

  /**
   * As written, the draft after a save keeps the server's nulls: a draft that
   * is accepted but has an empty optional field turns, after one save, into a
   * draft whose next save is refused with that field named, and nothing is
   * written the second time.
   */
  lemma SecondSaveRejected(checks: Checks, store: Store, uid: UserId, d: Resume, f: Scalar)
    requires DraftAccepted(checks, d) && Optional(f) && GetScalar(d, f) == Some("")
    ensures var (resp, store') := Put(checks, store, uid, RequestText(d));
      && resp.Ok200?
      && var d' := Reconcile(resp.resume);
        && GetScalar(d', f).None?
        && !DraftAccepted(checks, d')
        && var (resp2, store'') := Put(checks, store', uid, RequestText(d'));
          resp2.BadRequest400? && BadScalar(f) in resp2.issues && store'' == store'
  {
    SaveOutcome(checks, store, uid, d);
    var (resp, store') := Put(checks, store, uid, RequestText(d));
    var d' := Reconcile(resp.resume);
    assert !DraftScalarOk(checks, f, GetScalar(d', f));
    SaveOutcome(checks, store', uid, d');
    ValidateDraft(checks, d');
  }

  /** Loading the stored form of an accepted draft gives back the draft. */
  lemma AcceptedSurvivesLoad(checks: Checks, d: Resume, saved: Resume)
    requires DraftAccepted(checks, d)
    requires forall f :: GetScalar(saved, f) == if Optional(f) then OrNull(GetScalar(d, f)) else GetScalar(d, f)
    requires forall c :: GetItems(saved, c) == GetItems(d, c)
    ensures Load(saved) == d
  {
    var d' := Load(saved);
    forall f ensures GetScalar(d', f) == GetScalar(d, f) {
      assert DraftScalarOk(checks, f, GetScalar(d, f));
    }
    forall c ensures GetItems(d', c) == GetItems(d, c) {
      assert GetItems(d, c).JArr?;
    }
    Extensionality(d', d);
  }

  /**
   * With the initial-load coercion applied to the server's answer, the draft
   * after saving an accepted draft is that same draft, so saving again is
   * accepted and answers the same.
   */
  lemma SaveIsStable(checks: Checks, store: Store, uid: UserId, d: Resume)
    requires DraftAccepted(checks, d)
    ensures var (resp, store') := Put(checks, store, uid, RequestText(d));
      && resp.Ok200?
      && Load(resp.resume) == d
      && Put(checks, store', uid, RequestText(Load(resp.resume))).0 == resp
  {
    SaveOutcome(checks, store, uid, d);
    var (resp, store') := Put(checks, store, uid, RequestText(d));
    AcceptedSurvivesLoad(checks, d, resp.resume);
    SaveOutcome(checks, store', uid, d);
  }

  // -------------------------------------------------------------- the editor

  class Editor {
    /** The resume being edited. */
    var draft: Resume

    /** A new editor shows the blank draft. */
    constructor()
      ensures draft == BlankDraft
    {
      draft := BlankDraft;
    }

    /** The effect on mount: a loaded resume replaces the draft, none leaves it. */
    method LoadInitial(initial: Option<Resume>)
      modifies this
      ensures initial.Some? ==> draft == Load(initial.value)
      ensures initial.None? ==> draft == old(draft)
    {
      if initial.Some? {
        draft := Load(initial.value);
      }
    }

    /** Typing into a personal-information input sets that scalar and nothing else. */
    method SetScalar(f: Scalar, v: string)
      modifies this
      ensures draft == WithScalar(old(draft), f, Some(v))
    {
      draft := WithScalar(draft, f, Some(v));
    }

    /** An add button; false (and no change) where spreading the collection throws. */
    method Add(c: Collection) returns (ok: bool)
      requires Edited(c)
      modifies this
      ensures ok <==> AddItem(old(GetItems(draft, c)), c).Some?
      ensures ok ==> draft == WithItems(old(draft), c, AddItem(old(GetItems(draft, c)), c).value)
      ensures !ok ==> draft == old(draft)
    {
      var added := AddItem(GetItems(draft, c), c);
      ok := added.Some?;
      if ok {
        draft := WithItems(draft, c, added.value);
      }
    }

    /** A remove button; false (and no change) where the collection has no filter. */
    method Remove(c: Collection, i: int) returns (ok: bool)
      requires Edited(c)
      modifies this
      ensures ok <==> RemoveItem(old(GetItems(draft, c)), i).Some?
      ensures ok ==> draft == WithItems(old(draft), c, RemoveItem(old(GetItems(draft, c)), i).value)
      ensures !ok ==> draft == old(draft)
    {
      var removed := RemoveItem(GetItems(draft, c), i);
      ok := removed.Some?;
      if ok {
        draft := WithItems(draft, c, removed.value);
      }
    }

    /**
     * An input inside a shown record: the copy of the array gets the record
     * at i with field set, and the copy replaces the collection.
     */
    method Update(c: Collection, i: nat, field: string, value: Json)
      requires Edited(c)
      requires GetItems(draft, c).JArr? && i < |GetItems(draft, c).items|
      modifies this
      ensures draft == WithItems(old(draft), c, JArr(UpdateAt(old(GetItems(draft, c)).items, i, field, value)))
    {
      var updated := GetItems(draft, c).items;
      updated := updated[i := JObj(SetMember(ObjectSpread(updated[i]), field, value))];
      draft := WithItems(draft, c, JArr(updated));
    }

    /**
     * The save button as written, against the server state: the PUT's answer
     * and new store, and on 200 the draft replaced by the answer with its
     * collections through parseArray and its scalars, nulls included, as they
     * are; on any other answer the draft is kept.
     */
    method SaveAsWritten(checks: Checks, store: Store, uid: UserId) returns (response: Response, store': Store)
      modifies this
      ensures (response, store') == Put(checks, store, uid, RequestText(old(draft)))
      ensures response.Ok200? ==> draft == Reconcile(response.resume)
      ensures !response.Ok200? ==> draft == old(draft)
    {
      var sent := RequestText(draft);
      var answer := Put(checks, store, uid, sent);
      response, store' := answer.0, answer.1;
      if response.Ok200? {
        draft := Reconcile(response.resume);
      }
    }

    /**
     * The save button corrected: as SaveAsWritten, except that on 200 the
     * answer is coerced as on load, so no scalar of the draft becomes null.
     */
    method Save(checks: Checks, store: Store, uid: UserId) returns (response: Response, store': Store)
      modifies this
      ensures (response, store') == Put(checks, store, uid, RequestText(old(draft)))
      ensures response.Ok200? ==> draft == Load(response.resume)
      ensures !response.Ok200? ==> draft == old(draft)
    {
      var sent := RequestText(draft);
      var answer := Put(checks, store, uid, sent);
      response, store' := answer.0, answer.1;
      if response.Ok200? {
        draft := Load(response.resume);
      }
    }
  }

  /** A save from an editor holding an accepted draft leaves the draft as it was. */
  method SaveKeepsAcceptedDraft(e: Editor, checks: Checks, store: Store, uid: UserId)
    returns (response: Response, store': Store)
    requires DraftAccepted(checks, e.draft)
    modifies e
    ensures response.Ok200? && e.draft == old(e.draft)
    ensures Get(store', uid) == response
  {
    ghost var d := e.draft;
    SaveIsStable(checks, store, uid, d);
    SaveOutcome(checks, store, uid, d);
    response, store' := e.Save(checks, store, uid);
  }
}
