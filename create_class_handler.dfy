/**
 * Creating a class: the caller must be a signed-in user with a valid
 * payload; the class gets a fresh unique join code, the caller as creator
 * and modifier, the current version, and the payload's fields.
 */
module CreateClassHandler {
  import opened Common
  import opened Json
  import opened Responses
  import opened ProcessorContext
  import opened Store
  import opened Messages
  import opened HandlerSupport
  import C = AJEntityClass
  import CG = ClassCodeGenerator
  import EB = EntityBuilder
  import E = EventBuilderFactory
  import A = Authorizers

  const RETRY_COUNT_FOR_CODE_GENERATION: nat := 5

  /** checkUniqueness: no class row, deleted or not, has the code; a store error counts as "not unique". */
  predicate Unique(db: Db, faults: set<StoreOp>, code: string)
  {
    CountCode !in faults && CodeCount(db, code) == 0
  }

  /** The codes the generator produces on the five attempts, in order. */
  function Attempts(draws: nat -> CG.Draws): (codes: seq<string>)
    ensures |codes| == RETRY_COUNT_FOR_CODE_GENERATION
    ensures forall i :: 0 <= i < |codes| ==> codes[i] == CG.ClassCode(draws(i))
  {
    seq(RETRY_COUNT_FOR_CODE_GENERATION, i requires 0 <= i < RETRY_COUNT_FOR_CODE_GENERATION => CG.ClassCode(draws(i)))
  }

  /**
   * The code a create uses: the first of the five attempts that is unique,
   * or none when no attempt is.
   */
  function ChosenCode(db: Db, faults: set<StoreOp>, draws: nat -> CG.Draws): (r: Option<string>)
    ensures r.Some? ==> Unique(db, faults, r.value)
    ensures r.Some? ==> exists i :: 0 <= i < RETRY_COUNT_FOR_CODE_GENERATION && r.value == CG.ClassCode(draws(i))
                                    && forall j :: 0 <= j < i ==> !Unique(db, faults, CG.ClassCode(draws(j)))
    ensures r.None? <==> forall i :: 0 <= i < RETRY_COUNT_FOR_CODE_GENERATION ==> !Unique(db, faults, CG.ClassCode(draws(i)))
  {
    First(Attempts(draws), (code: string) => Unique(db, faults, code))
  }

  /** The attempts from `from` on decide the choice once the earlier ones were not unique. */
  lemma ChosenCodeFrom(db: Db, faults: set<StoreOp>, draws: nat -> CG.Draws, from: nat)
    requires from < RETRY_COUNT_FOR_CODE_GENERATION
    requires forall j :: 0 <= j < from ==> !Unique(db, faults, CG.ClassCode(draws(j)))
    ensures Unique(db, faults, CG.ClassCode(draws(from))) ==> ChosenCode(db, faults, draws) == Some(CG.ClassCode(draws(from)))
  {
    if Unique(db, faults, CG.ClassCode(draws(from))) {
      var r := ChosenCode(db, faults, draws);
      var i :| 0 <= i < RETRY_COUNT_FOR_CODE_GENERATION && r.value == CG.ClassCode(draws(i))
               && forall j :: 0 <= j < i ==> !Unique(db, faults, CG.ClassCode(draws(j)));
      assert i == from;
    }
  }

  /** A failing uniqueness query makes every attempt fail. */
  lemma StoreErrorMeansNoCode(db: Db, faults: set<StoreOp>, draws: nat -> CG.Draws)
    requires CountCode in faults
    ensures ChosenCode(db, faults, draws).None?
  {
  }

  /** autoPopulate's own columns: modifier and creator are the caller, and the version is current. */
  function AutoColumns(userId: string, p: Parsers): C.ClassRow
  {
    map[C.MODIFIER_ID := C.UuidColumn(Some(userId), p), C.CREATOR_ID := C.UuidColumn(Some(userId), p),
        C.GOORU_VERSION := Num(C.CURRENT_VERSION)]
  }

  /** Setting the three columns one by one is the same as adding autoPopulate's columns at once. */
  lemma AutoColumnsAsUpdates(attrs: C.ClassRow, userId: string, p: Parsers)
    ensures attrs[C.MODIFIER_ID := C.UuidColumn(Some(userId), p)][C.CREATOR_ID := C.UuidColumn(Some(userId), p)]
                 [C.GOORU_VERSION := Num(C.CURRENT_VERSION)] == attrs + AutoColumns(userId, p)
  {
  }

  /** The attributes of the new model before save: the code, autoPopulate's columns, then the converted payload. */
  function NewClassAttrs(code: string, userId: string, payload: JsonObject, p: Parsers): C.ClassRow
    requires !EB.SomeConversionThrows(payload, C.Converters(p))
  {
    (map[C.CODE := Str(code)] + AutoColumns(userId, p)) + EB.ConvertedPayload(payload, C.Converters(p))
  }

  /**
   * The row a successful create adds, for a payload of creatable fields
   * and a code no row had: it is live, unarchived, of the current version,
   * has the generated id, is created by the caller, and the join code now
   * finds it.
   */
  lemma NewClassIsLiveAndFoundByCode(db: Db, code: string, userId: string, payload: JsonObject, p: Parsers, newId: string)
    requires CodeCount(db, code) == 0
    requires payload.Keys <= C.CREATABLE_FIELDS
    requires !EB.SomeConversionThrows(payload, C.Converters(p))
    requires InsertClass(db.classes, NewClassAttrs(code, userId, payload, p), newId).Normal?
    ensures var rows := InsertClass(db.classes, NewClassAttrs(code, userId, payload, p), newId).value;
            var row := rows[|rows| - 1];
            && C.Live(row) && !C.IsArchived(row) && C.IsCurrentVersion(row) == Normal(true)
            && C.Id(row) == Some(newId) && C.Code(row) == Some(code)
            && C.CreatorId(row) == (if p.pgConverts(userId) then Some(userId) else None)
            && FindLiveClassByCode(db.(classes := rows), code) == Some(row)
  {
    var attrs := NewClassAttrs(code, userId, payload, p);
    var row := (CLASS_DEFAULTS + attrs)[C.ID := Str(newId)];
    NewRowColumns(code, userId, payload, p, newId);
    assert C.Code(row) == Some(code) && C.Live(row);
    FoundByCodeAfterAppend(db, row, code);
  }

  /** Appending a live row with a code no row had makes the code find exactly that row. */
  lemma FoundByCodeAfterAppend(db: Db, row: C.ClassRow, code: string)
    requires CodeCount(db, code) == 0
    requires C.Live(row) && C.Code(row) == Some(code)
    ensures FindLiveClassByCode(db.(classes := db.classes + [row]), code) == Some(row)
  {
    var rows := db.classes + [row];
    var found := FindLiveClassByCode(db.(classes := rows), code);
    assert C.Live(rows[|rows| - 1]) && C.Code(rows[|rows| - 1]) == Some(code);
    var k :| 0 <= k < |rows| && rows[k] == found.value;
    if k < |db.classes| {
      assert false;
    }
  }

  /** The columns of the inserted row that no creatable payload field can reach. */
  lemma NewRowColumns(code: string, userId: string, payload: JsonObject, p: Parsers, newId: string)
    requires payload.Keys <= C.CREATABLE_FIELDS
    requires !EB.SomeConversionThrows(payload, C.Converters(p))
    ensures var row := (CLASS_DEFAULTS + NewClassAttrs(code, userId, payload, p))[C.ID := Str(newId)];
            && row[C.CODE] == Str(code) && row[C.IS_DELETED] == Bool(false) && row[C.IS_ARCHIVED] == Bool(false)
            && row[C.GOORU_VERSION] == Num(C.CURRENT_VERSION) && row[C.ID] == Str(newId)
            && row[C.CREATOR_ID] == C.UuidColumn(Some(userId), p)
  {
    var conv := EB.ConvertedPayload(payload, C.Converters(p));
    PayloadAvoidsOwnColumns(payload.Keys);
    OwnColumnsSurvive(code, userId, p, conv, newId);
  }

  /** A creatable field is none of the columns the create sets itself or the table defaults. */
  lemma PayloadAvoidsOwnColumns(keys: set<string>)
    requires keys <= C.CREATABLE_FIELDS
    ensures C.CODE !in keys && C.IS_DELETED !in keys && C.IS_ARCHIVED !in keys
    ensures C.GOORU_VERSION !in keys && C.CREATOR_ID !in keys && C.ID !in keys
  {
    C.FieldSetFacts();
    assert C.CODE !in C.CREATABLE_FIELDS;
  }

  lemma OwnColumnsSurvive(code: string, userId: string, p: Parsers, conv: C.ClassRow, newId: string)
    requires C.CODE !in conv && C.IS_DELETED !in conv && C.IS_ARCHIVED !in conv
    requires C.GOORU_VERSION !in conv && C.CREATOR_ID !in conv
    ensures var row := (CLASS_DEFAULTS + ((map[C.CODE := Str(code)] + AutoColumns(userId, p)) + conv))[C.ID := Str(newId)];
            && row[C.CODE] == Str(code) && row[C.IS_DELETED] == Bool(false) && row[C.IS_ARCHIVED] == Bool(false)
            && row[C.GOORU_VERSION] == Num(C.CURRENT_VERSION) && row[C.ID] == Str(newId)
            && row[C.CREATOR_ID] == C.UuidColumn(Some(userId), p)
  {
    var own := map[C.CODE := Str(code)] + AutoColumns(userId, p);
    assert own.Keys == {C.CODE, C.MODIFIER_ID, C.CREATOR_ID, C.GOORU_VERSION};
    var attrs := own + conv;
    assert C.IS_DELETED !in attrs && C.IS_ARCHIVED !in attrs;
  }

  class CreateClassHandler {
    const context: Context
    const parsers: Parsers
    /** The answers SecureRandom gives while the generator produces its i-th code. */
    const draws: nat -> CG.Draws
    /** The id the database generates for the inserted row. */
    const newId: string

    constructor (context: Context, parsers: Parsers, draws: nat -> CG.Draws, newId: string)
      ensures this.context == context && this.parsers == parsers && this.draws == draws && this.newId == newId
    {
      this.context := context;
      this.parsers := parsers;
      this.draws := draws;
      this.newId := newId;
    }

    predicate HandlerReadOnly()
    {
      false
    }

    /**
     * checkSanity: a signed-in caller, a non-empty payload, and a payload
     * the create field selector accepts.
     */
    method CheckSanity() returns (r: Outcome)
      ensures Anonymous(context.userId) ==> r == Returned(Fail(Forbidden, NOT_ALLOWED))
      ensures !Anonymous(context.userId) && (context.request.None? || |context.request.value| == 0) ==>
                r == Returned(Fail(InvalidRequest, EMPTY_PAYLOAD))
      ensures !Anonymous(context.userId) && context.request.Some? && |context.request.value| != 0 ==>
                var request := context.request.value;
                && (r.Threw? <==> PayloadValidator.Raises(request, C.CreateFieldSelector(), C.Validators(parsers)))
                && (r.Returned? ==> r.result == Verdict(PayloadValidator.AsWritten(request, C.CreateFieldSelector(), C.Validators(parsers))))
      ensures r.Returned? && r.result.IsContinue() ==>
                !Anonymous(context.userId) && context.request.Some? && context.request.value.Keys <= C.CreateFieldSelector().allowed
    {
      if Anonymous(context.userId) {
        return Returned(Fail(Forbidden, NOT_ALLOWED));
      }
      if context.request.None? || |context.request.value| == 0 {
        return Returned(Fail(InvalidRequest, EMPTY_PAYLOAD));
      }
      r := CheckPayload(context.request.value, C.CreateFieldSelector(), C.Validators(parsers));
    }

    /** validateRequest: nothing to look up; the create authorizer lets everyone through. */
    method ValidateRequest(store: Database) returns (r: Outcome)
      ensures r == Returned(Continue())
    {
      r := A.Authorize(A.AuthorizerFor(A.CreateClass), context, map[], store.db, store.faults);
    }

    /** checkUniqueness. */
    method CheckUniqueness(store: Database, code: string) returns (unique: bool)
      ensures unique <==> Unique(store.db, store.faults, code)
    {
      if store.Fails(CountCode) {
        return false;
      }
      return CodeCount(store.db, code) == 0;
    }

    /** populateClassCode: up to five generated codes, the first unique one is set on the model. */
    method PopulateClassCode(entityClass: C.ClassModel, store: Database) returns (ok: bool)
      modifies entityClass
      ensures ok <==> ChosenCode(store.db, store.faults, draws).Some?
      ensures ok ==> entityClass.attrs == old(entityClass.attrs)[C.CODE := Str(ChosenCode(store.db, store.faults, draws).value)]
                     && entityClass.dirty == old(entityClass.dirty) + {C.CODE}
      ensures !ok ==> entityClass.attrs == old(entityClass.attrs) && entityClass.dirty == old(entityClass.dirty)
    {
      var retries := 0;
      while retries < RETRY_COUNT_FOR_CODE_GENERATION
        invariant 0 <= retries <= RETRY_COUNT_FOR_CODE_GENERATION
        invariant forall j :: 0 <= j < retries ==> !Unique(store.db, store.faults, CG.ClassCode(draws(j)))
        invariant entityClass.attrs == old(entityClass.attrs) && entityClass.dirty == old(entityClass.dirty)
      {
        var resultCode := CG.GenerateClassId(draws(retries));
        var unique := CheckUniqueness(store, resultCode);
        ChosenCodeFrom(store.db, store.faults, draws, retries);
        if unique {
          entityClass.Set(C.CODE, Str(resultCode));
          return true;
        }
        retries := retries + 1;
      }
      return false;
    }

    /**
     * autoPopulate: caller as modifier and creator, the current version,
     * then the payload through the converters. A missing payload or a
     * converter that throws escapes.
     */
    method AutoPopulate(entityClass: C.ClassModel) returns (r: Throws<()>)
      modifies entityClass
      ensures r.Normal? <==> context.request.Some? && !EB.SomeConversionThrows(context.request.value, C.Converters(parsers))
      ensures r.Normal? ==> entityClass.attrs == (old(entityClass.attrs) + AutoColumns(context.userId, parsers))
                                                 + EB.ConvertedPayload(context.request.value, C.Converters(parsers))
    {
      entityClass.SetModifierId(Some(context.userId), parsers);
      entityClass.SetCreatorId(Some(context.userId), parsers);
      entityClass.SetVersion();
      AutoColumnsAsUpdates(old(entityClass.attrs), context.userId, parsers);
      if context.request.None? {
        return Thrown(NULL_REFERENCE);
      }
      r := EB.Build(entityClass, context.request.value, Some(C.Converters(parsers)));
    }

    /**
     * executeRequest: no unique code is an internal error and writes
     * nothing; otherwise the new class is inserted under the generated id
     * and the response is "created" with that id and the create event. A
     * converter failure or a store error escapes.
     */
    method ExecuteRequest(store: Database) returns (r: Outcome)
      modifies store
      ensures ChosenCode(old(store.db), store.faults, draws).None? ==>
                r == Returned(Fail(InternalError, CODE_GENERATION_FAILURE)) && store.db == old(store.db)
      ensures ChosenCode(old(store.db), store.faults, draws).Some? &&
              (context.request.None? || EB.SomeConversionThrows(context.request.value, C.Converters(parsers))
               || store.Fails(StoreOp.SaveClass)) ==>
                r.Threw? && store.db == old(store.db)
      ensures ChosenCode(old(store.db), store.faults, draws).Some? && context.request.Some?
              && !EB.SomeConversionThrows(context.request.value, C.Converters(parsers)) && !store.Fails(StoreOp.SaveClass) ==>
                match InsertClass(old(store.db.classes),
                                  NewClassAttrs(ChosenCode(old(store.db), store.faults, draws).value, context.userId,
                                                context.request.value, parsers), newId)
                case Thrown(_) => r.Threw? && store.db == old(store.db)
                case Normal(rows) => r == Returned(CreatedResponse(newId, E.CreateClassEvent(newId)))
                                     && store.db == old(store.db).(classes := rows)
    {
      var entityClass := new C.ClassModel.Empty();
      var populated := PopulateClassCode(entityClass, store);
      if !populated {
        return Returned(Fail(InternalError, CODE_GENERATION_FAILURE));
      }
      var built := AutoPopulate(entityClass);
      if built.Thrown? {
        return Threw(built.message);
      }
      assert entityClass.attrs == NewClassAttrs(ChosenCode(store.db, store.faults, draws).value, context.userId,
                                                context.request.value, parsers);
      var saved := store.SaveClass(entityClass, newId);
      if saved.Thrown? {
        return Threw(saved.message);
      }
      // An insert that succeeds reports a written row; the class model records no
      // validation errors, so the response is "created" either way.
      return Returned(CreatedResponse(newId, E.CreateClassEvent(newId)));
    }
  }
}
