/**
 * Replacing a class's collaborator list: the owner sends the new list,
 * which is validated as a list of UUIDs and stored as given.
 */
module UpdateCollaboratorForClassHandler {
  import opened Common
  import opened Json
  import opened Responses
  import opened ProcessorContext
  import opened Store
  import opened Messages
  import opened HandlerSupport
  import C = AJEntityClass
  import EB = EntityBuilder
  import E = EventBuilderFactory
  import A = Authorizers
  import PV = PayloadValidator

  /** The columns the update changes: the modifier, then the converted payload. */
  function CollaboratorChanges(userId: string, payload: JsonObject, p: Parsers): C.ClassRow
    requires !EB.SomeConversionThrows(payload, C.Converters(p))
  {
    map[C.MODIFIER_ID := C.UuidColumn(Some(userId), p)] + EB.ConvertedPayload(payload, C.Converters(p))
  }

  /** A model loaded from `row`, given a modifier and then built from `payload`, writes back exactly the update's columns. */
  lemma ChangesAfterBuild(row: C.ClassRow, userId: string, payload: JsonObject, p: Parsers, m: C.ClassModel)
    requires !EB.SomeConversionThrows(payload, C.Converters(p))
    requires m.attrs == row[C.MODIFIER_ID := C.UuidColumn(Some(userId), p)] + EB.ConvertedPayload(payload, C.Converters(p))
    requires m.dirty == {C.MODIFIER_ID} + payload.Keys
    ensures m.Changes() == CollaboratorChanges(userId, payload, p)
    ensures C.ID !in payload ==> C.Id(m.attrs) == C.Id(row)
  {
    var changes := CollaboratorChanges(userId, payload, p);
    var converted := EB.ConvertedPayload(payload, C.Converters(p));
    assert changes.Keys == m.attrs.Keys * m.dirty;
    forall k | k in changes ensures m.Changes()[k] == changes[k] {
      if k in converted {
        assert m.attrs[k] == converted[k];
      }
    }
    if C.ID !in payload {
      assert C.ID in m.attrs <==> C.ID in row;
      assert C.ID in row ==> m.attrs[C.ID] == row[C.ID];
    }
  }

  /**
   * The class model executeRequest saves: loaded from the row, with the
   * caller as modifier, then built from the payload through the converters.
   */
  method BuildModel(row: C.ClassRow, userId: string, payload: JsonObject, p: Parsers) returns (m: C.ClassModel, built: Throws<()>)
    ensures fresh(m) && !m.isNew
    ensures built.Thrown? <==> EB.SomeConversionThrows(payload, C.Converters(p))
    ensures built.Normal? ==> m.Changes() == CollaboratorChanges(userId, payload, p)
                              && (C.ID !in payload ==> C.Id(m.attrs) == C.Id(row))
  {
    m := new C.ClassModel.Load(row);
    m.SetModifierId(Some(userId), p);
    built := EB.Build(m, payload, Some(C.Converters(p)));
    if built.Normal? {
      ChangesAfterBuild(row, userId, payload, p, m);
    }
  }

  /**
   * Storing a payload `{collaborator: ids}` replaces the list: afterwards
   * the collaborators of every row of the class are exactly `ids`, so the
   * collaborator check admits exactly the listed users, and the owner is
   * unchanged.
   */
  lemma CollaboratorsReplaced(db: Db, classId: string, userId: string, ids: seq<Value>, p: Parsers, u: string)
    requires !EB.SomeConversionThrows(map[C.COLLABORATOR := Arr(ids)], C.Converters(p))
    ensures var after := UpdateClass(db.classes, classId, CollaboratorChanges(userId, map[C.COLLABORATOR := Arr(ids)], p));
            forall k :: 0 <= k < |db.classes| && C.Id(db.classes[k]) == Some(classId) ==>
              && C.Collaborators(after[k]) == ids
              && (A.IsCollaborator(after[k], u) <==> Str(u) in ids)
              && (A.IsOwner(after[k], u) <==> A.IsOwner(db.classes[k], u))
  {
    var payload := map[C.COLLABORATOR := Arr(ids)];
    var changes := CollaboratorChanges(userId, payload, p);
    var conv := EB.ConvertedPayload(payload, C.Converters(p));
    assert conv[C.COLLABORATOR] == Arr(ids);
    assert changes.Keys == {C.MODIFIER_ID, C.COLLABORATOR};
    assert changes[C.COLLABORATOR] == Arr(ids);
  }

  class UpdateCollaboratorForClassHandler {
    const context: Context
    const parsers: Parsers
    /** The class validateRequest loaded. */
    var entityClass: Option<C.ClassRow>

    constructor (context: Context, parsers: Parsers)
      ensures this.context == context && this.parsers == parsers && entityClass.None?
      ensures Valid()
    {
      this.context := context;
      this.parsers := parsers;
      entityClass := None;
    }

    /** A loaded class is the live class the context names. */
    ghost predicate Valid()
      reads this
    {
      entityClass.Some? ==> context.classId.Some? && LiveWithId(entityClass.value, context.classId.value)
    }

    predicate HandlerReadOnly()
    {
      false
    }

    /**
     * checkSanity: a class id, a signed-in caller, a non-empty payload, and
     * a payload that holds exactly a valid collaborator field.
     */
    method CheckSanity() returns (r: Outcome)
      ensures NullOrEmpty(context.classId) ==> r == Returned(Fail(InvalidRequest, MISSING_CLASS_ID))
      ensures !NullOrEmpty(context.classId) && Anonymous(context.userId) ==> r == Returned(Fail(Forbidden, NOT_ALLOWED))
      ensures !NullOrEmpty(context.classId) && !Anonymous(context.userId) && (context.request.None? || |context.request.value| == 0) ==>
                r == Returned(Fail(InvalidRequest, EMPTY_PAYLOAD))
      ensures !NullOrEmpty(context.classId) && !Anonymous(context.userId) && context.request.Some? && |context.request.value| != 0 ==>
                var request := context.request.value;
                && (r.Threw? <==> PV.Raises(request, C.UpdateCollaboratorFieldSelector(), C.Validators(parsers)))
                && (r.Returned? ==> r.result == Verdict(PV.AsWritten(request, C.UpdateCollaboratorFieldSelector(), C.Validators(parsers))))
      ensures r.Returned? && r.result.IsContinue() ==>
                context.request.value.Keys == {C.COLLABORATOR}
    {
      if NullOrEmpty(context.classId) {
        return Returned(Fail(InvalidRequest, MISSING_CLASS_ID));
      }
      if Anonymous(context.userId) {
        return Returned(Fail(Forbidden, NOT_ALLOWED));
      }
      if context.request.None? || |context.request.value| == 0 {
        return Returned(Fail(InvalidRequest, EMPTY_PAYLOAD));
      }
      r := CheckPayload(context.request.value, C.UpdateCollaboratorFieldSelector(), C.Validators(parsers));
      C.SelectorsAreConsistent();
    }

    /**
     * validateRequest: the live class must exist, be of the current version
     * and not archived, and belong to the caller.
     */
    method ValidateRequest(store: Database) returns (r: Outcome)
      requires Valid()
      modifies this
      ensures Valid()
      ensures store.Fails(FindClass) ==> r.Threw?
      ensures !store.Fails(FindClass) ==>
                match FindById(store.db, context.classId)
                case None => r == Returned(Fail(NotFound, NOT_FOUND))
                case Some(row) => entityClass == Some(row)
                                  && r == AndThen(VersionCheck(row), A.Authorize(A.ClassOwner, context, row, store.db, store.faults))
      ensures r == Returned(Continue()) <==>
                !store.Fails(FindClass) && FindById(store.db, context.classId).Some?
                && var row := FindById(store.db, context.classId).value;
                   !C.IsArchived(row) && C.IsCurrentVersion(row) == Normal(true) && A.IsOwner(row, context.userId)
    {
      if store.Fails(FindClass) {
        return Threw(DB_ERROR);
      }
      var classes := FindById(store.db, context.classId);
      if classes.None? {
        return Returned(Fail(NotFound, NOT_FOUND));
      }
      entityClass := classes;
      var row := classes.value;
      var usable := VersionCheck(row);
      if usable != Returned(Continue()) {
        return usable;
      }
      r := A.Authorize(A.AuthorizerFor(A.UpdateCollaborator), context, row, store.db, store.faults);
      A.PassesMeaning(A.ClassOwner, context, row, store.db, store.faults);
    }

    /**
     * executeRequest: the caller becomes the modifier and the payload is
     * stored through the converters; the response is "updated" with the
     * class-update event. A missing payload, a converter that throws or a
     * failed save escapes.
     */
    method ExecuteRequest(store: Database) returns (r: Outcome)
      requires Valid()
      modifies store
      ensures entityClass.None? || context.request.None? || EB.SomeConversionThrows(context.request.value, C.Converters(parsers))
              || store.Fails(StoreOp.SaveClass) ==>
                r.Threw? && store.db == old(store.db)
      ensures entityClass.Some? && context.request.Some? && C.ID !in context.request.value
              && !EB.SomeConversionThrows(context.request.value, C.Converters(parsers)) && !store.Fails(StoreOp.SaveClass) ==>
                var classId := context.classId.value;
                && r == Returned(NoContentResponse(UPDATED, Some(E.UpdateClassEvent(classId))))
                && store.db == old(store.db).(classes := UpdateClass(old(store.db.classes), classId,
                                                                      CollaboratorChanges(context.userId, context.request.value, parsers)))
    {
      if entityClass.None? {
        return Threw(NULL_REFERENCE);
      }
      if context.request.None? {
        return Threw(NULL_REFERENCE);
      }
      var m, built := BuildModel(entityClass.value, context.userId, context.request.value, parsers);
      if built.Thrown? {
        return Threw(built.message);
      }
      var saved := store.SaveClass(m, "");
      if saved.Thrown? {
        return Threw(saved.message);
      }
      // A save that wrote no row leaves no errors on the class model: the response is the same.
      return Returned(NoContentResponse(UPDATED, Some(E.UpdateClassEvent(context.classId.value))));
    }
  }
}
