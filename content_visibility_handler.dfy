/**
 * Making course content visible to a class. A request names a scope: either
 * "specific" content (lists of units, lessons, collections and assessments)
 * or "all" content inside a boundary (a course, optionally a unit, optionally
 * a lesson) filtered by entity kind. The owner or a collaborator of the class
 * marks the chosen items visible to the class.
 */
module ContentVisibilityHandler {
  import opened Common
  import opened Json
  import opened Responses
  import opened ProcessorContext
  import opened Store
  import opened Messages
  import opened HandlerSupport
  import C = AJEntityClass
  import I = AJEntityCollection
  import E = EventBuilderFactory
  import A = Authorizers
  import PV = PayloadValidator
  import CVH = ContentVisibilityHelper

  // The request keys and values of the scope document.
  const CV_SCOPE: string := "scope"
  const CV_TYPE: string := "type"
  const CV_TYPE_ALL: string := "all"
  const CV_TYPE_SPECIFIC: string := "specific"
  const CV_BOUNDRY: string := "boundry"
  const CV_COURSE_ID: string := "course_id"
  const CV_UNIT_ID: string := "unit_id"
  const CV_LESSON_ID: string := "lesson_id"
  const CV_ENTITY: string := "entity"
  const CV_ENTITY_ALL: string := "all"
  const COURSE_OR_ENTITY: string := "course_id or entity"

  const TYPE_ALLOWED_VALUES: seq<string> := [CV_TYPE_ALL, CV_TYPE_SPECIFIC]
  const ENTITY_ALLOWED_VALUES: seq<string> := [CV_ENTITY_ALL, I.FORMAT_TYPE_ASSESSMENT, I.FORMAT_TYPE_COLLECTION]

  // ---------------------------------------------------------------------------
  // Reading the scope document

  /** What payloadValidator makes of a request. */
  datatype ScopeRequest =
    | Refused(errors: JsonObject)
    | SpecificContent
    | WholeBoundary(entity: string, courseId: string, unitId: Option<string>, lessonId: Option<string>)

  function Complaint(key: string, message: string): (r: JsonObject)
    ensures r.Keys == {key} && r[key] == Str(message)
  {
    map[key := Str(message)]
  }

  /** The "all" branch of payloadValidator: the boundary and the entity kind. */
  function ParseBoundary(scope: JsonObject): (r: Throws<ScopeRequest>)
    ensures r.Normal? ==> r.value.Refused? || r.value.WholeBoundary?
    ensures r.Normal? && r.value.Refused? ==> |r.value.errors| == 1
  {
    if CV_BOUNDRY !in scope then Normal(Refused(Complaint(CV_BOUNDRY, MISSING_FIELD)))
    else match GetObject(scope, CV_BOUNDRY)
      case CastFailure => Thrown(CLASS_CAST)
      case Absent => Normal(Refused(Complaint(CV_BOUNDRY, INVALID_VALUE)))
      case Found(boundry) =>
        if |boundry| == 0 then Normal(Refused(Complaint(CV_BOUNDRY, INVALID_VALUE)))
        else if CV_COURSE_ID !in boundry || CV_ENTITY !in boundry then Normal(Refused(Complaint(COURSE_OR_ENTITY, MISSING_FIELD)))
        else match GetString(boundry, CV_ENTITY)
          case CastFailure => Thrown(CLASS_CAST)
          case Absent => Normal(Refused(Complaint(CV_ENTITY, INVALID_VALUE)))
          case Found(entity) =>
            if |entity| == 0 || entity !in ENTITY_ALLOWED_VALUES then Normal(Refused(Complaint(CV_ENTITY, INVALID_VALUE)))
            else match GetString(boundry, CV_COURSE_ID)
              case CastFailure => Thrown(CLASS_CAST)
              // A missing course id is reported under the entity key.
              case Absent => Normal(Refused(Complaint(CV_ENTITY, INVALID_VALUE)))
              case Found(course) =>
                if |course| == 0 then Normal(Refused(Complaint(CV_ENTITY, INVALID_VALUE)))
                else
                  var unit := GetString(boundry, CV_UNIT_ID);
                  var lesson := GetString(boundry, CV_LESSON_ID);
                  if unit.CastFailure? || lesson.CastFailure? then Thrown(CLASS_CAST)
                  else Normal(WholeBoundary(entity, course, OrNull(unit), OrNull(lesson)))
  }

  /** payloadValidator, up to the point where a "specific" request goes on to the field selector. */
  function ParseScope(input: JsonObject): (r: Throws<ScopeRequest>)
    ensures r.Normal? && r.value.Refused? ==> |r.value.errors| == 1
  {
    if CV_SCOPE !in input then Normal(Refused(Complaint(CV_SCOPE, MISSING_FIELD)))
    else match GetObject(input, CV_SCOPE)
      case CastFailure => Thrown(CLASS_CAST)
      case Absent => Normal(Refused(Complaint(CV_SCOPE, INVALID_VALUE)))
      case Found(scope) =>
        if |scope| == 0 then Normal(Refused(Complaint(CV_SCOPE, INVALID_VALUE)))
        else if CV_TYPE !in scope then Normal(Refused(Complaint(CV_TYPE, MISSING_FIELD)))
        else match GetString(scope, CV_TYPE)
          case CastFailure => Thrown(CLASS_CAST)
          case Absent => Normal(Refused(Complaint(CV_TYPE, INVALID_VALUE)))
          case Found(t) =>
            if |t| == 0 || t !in TYPE_ALLOWED_VALUES then Normal(Refused(Complaint(CV_TYPE, INVALID_VALUE)))
            else if EqualsIgnoreCase(t, CV_TYPE_SPECIFIC) then Normal(SpecificContent)
            // The only other allowed type is "all".
            else ParseBoundary(scope)
  }

  /**
   * A request gets past the scope document only with a non-empty "scope"
   * object whose "type" is exactly "specific", or exactly "all" with a
   * non-empty "boundry" object naming a non-empty course id and one of the
   * three entity kinds.
   */
  lemma AcceptedScopes(input: JsonObject)
    requires ParseScope(input).Normal? && !ParseScope(input).value.Refused?
    ensures CV_SCOPE in input && input[CV_SCOPE].Obj? && |input[CV_SCOPE].fields| != 0
    ensures var scope := input[CV_SCOPE].fields;
            && CV_TYPE in scope
            && (ParseScope(input).value.SpecificContent? <==> scope[CV_TYPE] == Str(CV_TYPE_SPECIFIC))
            && (ParseScope(input).value.WholeBoundary? <==> scope[CV_TYPE] == Str(CV_TYPE_ALL))
    ensures ParseScope(input).value.WholeBoundary? ==>
              var scope := input[CV_SCOPE].fields;
              var w := ParseScope(input).value;
              && CV_BOUNDRY in scope && scope[CV_BOUNDRY].Obj?
              && var boundry := scope[CV_BOUNDRY].fields;
                 && boundry[CV_ENTITY] == Str(w.entity) && boundry[CV_COURSE_ID] == Str(w.courseId)
                 && w.entity in ENTITY_ALLOWED_VALUES && |w.courseId| != 0
                 && (w.unitId.Some? <==> CV_UNIT_ID in boundry && boundry[CV_UNIT_ID].Str?)
                 && (w.lessonId.Some? <==> CV_LESSON_ID in boundry && boundry[CV_LESSON_ID].Str?)
  {
    var scope := GetObject(input, CV_SCOPE).value;
    var t := GetString(scope, CV_TYPE).value;
    assert !EqualsIgnoreCase(CV_TYPE_ALL, CV_TYPE_SPECIFIC);
    if t == CV_TYPE_SPECIFIC {
      assert EqualsIgnoreCase(t, CV_TYPE_SPECIFIC);
    }
  }

  /**
   * A "specific" request is checked, whole, against the content-visibility
   * field selector, which does not allow the "scope" key the request must
   * carry: such a request is always refused (unless a validator throws
   * first), with "scope" among the errors.
   */
  lemma SpecificAlwaysRefused(input: JsonObject, parsers: Parsers)
    requires ParseScope(input) == Normal(SpecificContent)
    ensures !PV.Raises(input, C.ContentVisibilityFieldSelector(), C.Validators(parsers)) ==>
              var errors := PV.AsWritten(input, C.ContentVisibilityFieldSelector(), C.Validators(parsers));
              errors.Some? && CV_SCOPE in errors.value && errors.value[CV_SCOPE] == Str(PV.FIELD_NOT_ALLOWED)
  {
    var selector := C.ContentVisibilityFieldSelector();
    assert CV_SCOPE in input && CV_SCOPE !in selector.allowed;
    assert PV.KeyError(input, selector, C.Validators(parsers), CV_SCOPE) == Some(PV.FIELD_NOT_ALLOWED);
    assert CV_SCOPE in PV.EntryErrors(input, selector, C.Validators(parsers));
  }

  // ---------------------------------------------------------------------------
  // The nine update templates

  /**
   * The boundary the "all" update uses: course, unit and lesson when all
   * three are given, course and unit when the unit is, the course alone
   * otherwise, and no update without a course.
   */
  function BoundaryScope(courseId: Option<string>, unitId: Option<string>, lessonId: Option<string>): Option<I.Scope>
  {
    if courseId.Some? && unitId.Some? && lessonId.Some? then Some(I.LessonScope(courseId.value, unitId.value, lessonId.value))
    else if courseId.Some? && unitId.Some? then Some(I.UnitScope(courseId.value, unitId.value))
    else if courseId.Some? then Some(I.CourseScope(courseId.value))
    else None
  }

  /** The format condition of the "all" update for an entity kind. */
  function EntityFilter(entity: string): I.FormatFilter
  {
    if EqualsIgnoreCase(entity, CV_ENTITY_ALL) then I.AnyFormat
    else if EqualsIgnoreCase(entity, I.FORMAT_TYPE_COLLECTION) then I.OnlyCollections
    else I.NotCollections
  }

  /**
   * The boundary covers an item exactly when the item is in the course, in
   * the unit when one is given, and in the lesson when a unit and a lesson
   * are given; a lesson without a unit narrows nothing.
   */
  lemma BoundaryScopeMeaning(courseId: string, unitId: Option<string>, lessonId: Option<string>, i: I.Item)
    ensures BoundaryScope(Some(courseId), unitId, lessonId).Some?
    ensures I.InScope(BoundaryScope(Some(courseId), unitId, lessonId).value, i) <==>
              && i.courseId == courseId
              && (unitId.Some? ==> i.unitId == unitId.value)
              && (unitId.Some? && lessonId.Some? ==> i.lessonId == lessonId.value)
  {
  }

  /**
   * For the three entity kinds a request may name: "all" selects every
   * format, "collection" only collections, and "assessment" everything that
   * is not a collection.
   */
  lemma EntityFilterMeaning(entity: string, i: I.Item)
    requires entity in ENTITY_ALLOWED_VALUES
    ensures entity == CV_ENTITY_ALL ==> I.FormatMatches(EntityFilter(entity), i)
    ensures entity == I.FORMAT_TYPE_COLLECTION ==>
              (I.FormatMatches(EntityFilter(entity), i) <==> i.format == I.FORMAT_TYPE_COLLECTION)
    ensures entity == I.FORMAT_TYPE_ASSESSMENT ==>
              (I.FormatMatches(EntityFilter(entity), i) <==> i.format != I.FORMAT_TYPE_COLLECTION)
  {
    assert EqualsIgnoreCase(CV_ENTITY_ALL, CV_ENTITY_ALL);
    assert EqualsIgnoreCase(I.FORMAT_TYPE_COLLECTION, I.FORMAT_TYPE_COLLECTION);
    assert !EqualsIgnoreCase(I.FORMAT_TYPE_COLLECTION, CV_ENTITY_ALL);
    assert !EqualsIgnoreCase(I.FORMAT_TYPE_ASSESSMENT, CV_ENTITY_ALL);
    assert I.FORMAT_TYPE_ASSESSMENT[0] == 'a' && I.FORMAT_TYPE_COLLECTION[0] == 'c';
    assert !EqualsIgnoreCase(I.FORMAT_TYPE_ASSESSMENT, I.FORMAT_TYPE_COLLECTION);
  }

  /**
   * When the non-visible list names every live item of the boundary and
   * kind whose class_visibility array lacks the class, the update leaves
   * every such item with a non-NULL column visible to the class; an item
   * whose column is NULL stays NULL and so stays invisible; no item outside
   * the boundary or kind changes. The premise is the caller's: for entity
   * "assessment" the lookup lists only format "assessment", so external
   * assessments stay as they were (`ExternalAssessmentsStayInvisible`).
   */
  lemma BoundaryBecomesVisible(items: seq<I.Item>, classId: string, s: I.Scope, f: I.FormatFilter, ids: seq<string>)
    requires forall i :: (i in items && I.InScope(s, i) && I.FormatMatches(f, i) && !i.isDeleted
                          && i.classVisibility.Some? && classId !in i.classVisibility.value) ==> i.id in ids
    ensures var after := WithVisibility(items, classId, s, f, ids);
            forall k :: 0 <= k < |items| ==>
              && (I.InScope(s, items[k]) && I.FormatMatches(f, items[k]) && !items[k].isDeleted ==>
                    (I.VisibleTo(after[k], classId) <==> items[k].classVisibility.Some?))
              && (items[k].classVisibility.None? ==> after[k] == items[k])
              && (!I.InScope(s, items[k]) || !I.FormatMatches(f, items[k]) || items[k].isDeleted ==> after[k] == items[k])
  {
  }

  /**
   * SELECT_NONVISIBLE_ITEMS_BY_C/_CU/_CUL: the ids of the live items of the
   * boundary whose format is exactly `format` and whose non-NULL
   * class_visibility array lacks the class.
   */
  function NonVisibleOfFormat(items: seq<I.Item>, classId: string, s: I.Scope, format: string): (r: seq<string>)
    ensures forall x :: x in r ==> exists k :: 0 <= k < |items| && items[k].id == x && items[k].format == format
  {
    if |items| == 0 then []
    else
      var i := items[0];
      var rest := NonVisibleOfFormat(items[1..], classId, s, format);
      assert forall x :: x in rest ==> exists k :: 0 <= k < |items| && items[k].id == x && items[k].format == format by {
        forall x | x in rest ensures exists k :: 0 <= k < |items| && items[k].id == x && items[k].format == format {
          var k :| 0 <= k < |items[1..]| && items[1..][k].id == x && items[1..][k].format == format;
          assert items[k + 1] == items[1..][k];
        }
      }
      if I.InScope(s, i) && !i.isDeleted && i.format == format && i.classVisibility.Some? && classId !in i.classVisibility.value
      then [i.id] + rest
      else rest
  }

  /**
   * For entity "assessment" the handler looks up the non-visible items of
   * format "assessment" only, so an external assessment is never listed,
   * and the update, although its `format != 'collection'` condition would
   * admit it, leaves it as it was (the ids of the table being unique).
   */
  lemma ExternalAssessmentsStayInvisible(items: seq<I.Item>, classId: string, s: I.Scope)
    requires forall a, b :: 0 <= a < b < |items| ==> items[a].id != items[b].id
    ensures var ids := NonVisibleOfFormat(items, classId, s, LookupFormat(I.FORMAT_TYPE_ASSESSMENT).value);
            var after := WithVisibility(items, classId, s, EntityFilter(I.FORMAT_TYPE_ASSESSMENT), ids);
            forall k :: 0 <= k < |items| && items[k].format == I.FORMAT_TYPE_ASSESSMENT_EXT ==>
              I.FormatMatches(EntityFilter(I.FORMAT_TYPE_ASSESSMENT), items[k]) && after[k] == items[k]
  {
    assert LookupFormat(I.FORMAT_TYPE_ASSESSMENT) == Some(I.FORMAT_TYPE_ASSESSMENT) by {
      assert !EqualsIgnoreCase(I.FORMAT_TYPE_ASSESSMENT, CV_ENTITY_ALL);
      assert I.FORMAT_TYPE_ASSESSMENT[0] == 'a' && I.FORMAT_TYPE_COLLECTION[0] == 'c';
      assert !EqualsIgnoreCase(I.FORMAT_TYPE_ASSESSMENT, I.FORMAT_TYPE_COLLECTION);
    }
    var ids := NonVisibleOfFormat(items, classId, s, I.FORMAT_TYPE_ASSESSMENT);
    forall k | 0 <= k < |items| && items[k].format == I.FORMAT_TYPE_ASSESSMENT_EXT
      ensures items[k].id !in ids
    {
      assert I.FORMAT_TYPE_ASSESSMENT != I.FORMAT_TYPE_ASSESSMENT_EXT by {
        assert |I.FORMAT_TYPE_ASSESSMENT| != |I.FORMAT_TYPE_ASSESSMENT_EXT|;
      }
      assert forall j :: 0 <= j < |items| && items[j].id == items[k].id ==> items[j].format != I.FORMAT_TYPE_ASSESSMENT;
    }
  }

  /** The lookup of the items the class cannot see yet; that query is not part of this model. */
  datatype NonVisibleQuery = NonVisibleQuery(
    classId: string, courseId: Option<string>, unitId: Option<string>, lessonId: Option<string>,
    format: Option<string>)

  /** getNonVisibleCollectionsAssessments for "all", getNonVisibleItems with a format otherwise. */
  function LookupFormat(entity: string): (r: Option<string>)
    ensures r.None? <==> EntityFilter(entity) == I.AnyFormat
  {
    if EqualsIgnoreCase(entity, CV_ENTITY_ALL) then None
    else if EqualsIgnoreCase(entity, I.FORMAT_TYPE_COLLECTION) then Some(I.FORMAT_TYPE_COLLECTION)
    else Some(I.FORMAT_TYPE_ASSESSMENT)
  }

  /**
   * The nested choice among the nine UPDATE_*_CV_BY_* statements: it
   * amounts to one update over BoundaryScope and EntityFilter.
   */
  method MarkBoundaryVisible(store: Database, classId: string, courseId: Option<string>, unitId: Option<string>,
                             lessonId: Option<string>, entity: string, ids: seq<string>)
    returns (r: Throws<()>)
    modifies store
    ensures BoundaryScope(courseId, unitId, lessonId).None? ==> r.Normal? && store.db == old(store.db)
    ensures BoundaryScope(courseId, unitId, lessonId).Some? && store.Fails(MarkVisible) ==>
              r.Thrown? && store.db == old(store.db)
    ensures BoundaryScope(courseId, unitId, lessonId).Some? && !store.Fails(MarkVisible) ==>
              r.Normal? && store.db == old(store.db).(items := WithVisibility(old(store.db.items), classId,
                                                       BoundaryScope(courseId, unitId, lessonId).value, EntityFilter(entity), ids))
  {
    if courseId.Some? && unitId.Some? && lessonId.Some? {
      var s := I.LessonScope(courseId.value, unitId.value, lessonId.value);
      if EqualsIgnoreCase(entity, CV_ENTITY_ALL) {
        r := store.UpdateVisibility(classId, s, I.AnyFormat, ids);
      } else if EqualsIgnoreCase(entity, I.FORMAT_TYPE_COLLECTION) {
        r := store.UpdateVisibility(classId, s, I.OnlyCollections, ids);
      } else {
        r := store.UpdateVisibility(classId, s, I.NotCollections, ids);
      }
    } else if courseId.Some? && unitId.Some? {
      var s := I.UnitScope(courseId.value, unitId.value);
      if EqualsIgnoreCase(entity, CV_ENTITY_ALL) {
        r := store.UpdateVisibility(classId, s, I.AnyFormat, ids);
      } else if EqualsIgnoreCase(entity, I.FORMAT_TYPE_COLLECTION) {
        r := store.UpdateVisibility(classId, s, I.OnlyCollections, ids);
      } else {
        r := store.UpdateVisibility(classId, s, I.NotCollections, ids);
      }
    } else if courseId.Some? {
      var s := I.CourseScope(courseId.value);
      if EqualsIgnoreCase(entity, CV_ENTITY_ALL) {
        r := store.UpdateVisibility(classId, s, I.AnyFormat, ids);
      } else if EqualsIgnoreCase(entity, I.FORMAT_TYPE_COLLECTION) {
        r := store.UpdateVisibility(classId, s, I.OnlyCollections, ids);
      } else {
        r := store.UpdateVisibility(classId, s, I.NotCollections, ids);
      }
    } else {
      r := Normal(());
    }
  }

  /** getInputToMarkVisible: the assessments, then the collections, of the request. */
  function SpecificIds(request: JsonObject): (r: Throws<seq<string>>)
    ensures r.Thrown? <==> GetArray(request, C.CV_COLLECTIONS).CastFailure? || GetArray(request, C.CV_ASSESSMENTS).CastFailure?
    ensures r.Normal? ==> forall id :: id in r.value <==>
              Str(id) in CVH.ListOrEmpty(GetArray(request, C.CV_ASSESSMENTS)) + CVH.ListOrEmpty(GetArray(request, C.CV_COLLECTIONS))
  {
    var collections := GetArray(request, C.CV_COLLECTIONS);
    var assessments := GetArray(request, C.CV_ASSESSMENTS);
    if collections.CastFailure? || assessments.CastFailure? then Thrown(CLASS_CAST)
    else
      StringsMembership(CVH.ListOrEmpty(assessments) + CVH.ListOrEmpty(collections));
      Normal(Strings(CVH.ListOrEmpty(assessments) + CVH.ListOrEmpty(collections)))
  }

  /** The string elements of a list are exactly the strings it holds. */
  lemma {:induction false} StringsMembership(items: seq<Value>)
    ensures forall id :: id in Strings(items) <==> Str(id) in items
  {
    if |items| != 0 {
      StringsMembership(items[1..]);
      assert items == [items[0]] + items[1..];
    }
  }

  // ---------------------------------------------------------------------------
  // The handler

  class ContentVisibilityHandler {
    const context: Context
    const parsers: Parsers
    /** validatePayloadWithClassSetting, which is not part of this model. */
    const classSetting: (Option<JsonObject>, C.ClassRow, Option<string>) -> ExecutionResult
    /** The non-visible item lookups, which are not part of this model. */
    const nonVisible: NonVisibleQuery -> seq<string>

    var entityClass: Option<C.ClassRow>
    var courseId: Option<string>
    var kind: Option<string>
    var entity: Option<string>
    var courseIdFromRequest: Option<string>
    var unitIdFromRequest: Option<string>
    var lessonIdFromRequest: Option<string>

    constructor (context: Context, parsers: Parsers,
                 classSetting: (Option<JsonObject>, C.ClassRow, Option<string>) -> ExecutionResult,
                 nonVisible: NonVisibleQuery -> seq<string>)
      ensures this.context == context && this.parsers == parsers
      ensures this.classSetting == classSetting && this.nonVisible == nonVisible
      ensures entityClass.None? && courseId.None? && kind.None? && entity.None?
      ensures courseIdFromRequest.None? && unitIdFromRequest.None? && lessonIdFromRequest.None?
    {
      this.context := context;
      this.parsers := parsers;
      this.classSetting := classSetting;
      this.nonVisible := nonVisible;
      entityClass := None;
      courseId := None;
      kind := None;
      entity := None;
      courseIdFromRequest := None;
      unitIdFromRequest := None;
      lessonIdFromRequest := None;
    }

    ghost predicate Valid()
      reads this
    {
      entityClass.Some? ==> context.classId.Some? && LiveWithId(entityClass.value, context.classId.value)
    }

    predicate HandlerReadOnly()
    {
      false
    }

    /**
     * payloadValidator: reads the scope document step by step, keeping the
     * type, the entity kind and the boundary ids for the later phases.
     */
    method PayloadValidator(input: JsonObject) returns (errors: Throws<Option<JsonObject>>)
      modifies this
      ensures entityClass == old(entityClass) && courseId == old(courseId)
      ensures match ParseScope(input)
              case Thrown(_) => errors.Thrown?
              case Normal(Refused(e)) => errors == Normal(Some(e))
              case Normal(SpecificContent) =>
                && kind == Some(CV_TYPE_SPECIFIC)
                && (errors.Thrown? <==> PV.Raises(input, C.ContentVisibilityFieldSelector(), C.Validators(parsers)))
                && (errors.Normal? ==> errors.value == PV.AsWritten(input, C.ContentVisibilityFieldSelector(), C.Validators(parsers)))
              case Normal(WholeBoundary(e, c, u, l)) =>
                && errors == Normal(Some(map[]))
                && kind == Some(CV_TYPE_ALL) && entity == Some(e)
                && courseIdFromRequest == Some(c) && unitIdFromRequest == u && lessonIdFromRequest == l
    {
      if CV_SCOPE !in input {
        return Normal(Some(Complaint(CV_SCOPE, MISSING_FIELD)));
      }
      var scope := GetObject(input, CV_SCOPE);
      if scope.CastFailure? {
        return Thrown(CLASS_CAST);
      }
      if scope.Absent? || |scope.value| == 0 {
        return Normal(Some(Complaint(CV_SCOPE, INVALID_VALUE)));
      }
      if CV_TYPE !in scope.value {
        return Normal(Some(Complaint(CV_TYPE, MISSING_FIELD)));
      }
      var t := GetString(scope.value, CV_TYPE);
      if t.CastFailure? {
        return Thrown(CLASS_CAST);
      }
      kind := OrNull(t);
      if t.Absent? || |t.value| == 0 || t.value !in TYPE_ALLOWED_VALUES {
        return Normal(Some(Complaint(CV_TYPE, INVALID_VALUE)));
      }
      if EqualsIgnoreCase(t.value, CV_TYPE_SPECIFIC) {
        assert !EqualsIgnoreCase(CV_TYPE_ALL, CV_TYPE_SPECIFIC);
        errors := PV.ValidatePayload(input, C.ContentVisibilityFieldSelector(), C.Validators(parsers));
        return;
      }
      // The only other allowed type is "all".
      var b := scope.value;
      if CV_BOUNDRY !in b {
        return Normal(Some(Complaint(CV_BOUNDRY, MISSING_FIELD)));
      }
      var boundry := GetObject(b, CV_BOUNDRY);
      if boundry.CastFailure? {
        return Thrown(CLASS_CAST);
      }
      if boundry.Absent? || |boundry.value| == 0 {
        return Normal(Some(Complaint(CV_BOUNDRY, INVALID_VALUE)));
      }
      if CV_COURSE_ID !in boundry.value || CV_ENTITY !in boundry.value {
        return Normal(Some(Complaint(COURSE_OR_ENTITY, MISSING_FIELD)));
      }
      var e := GetString(boundry.value, CV_ENTITY);
      if e.CastFailure? {
        return Thrown(CLASS_CAST);
      }
      entity := OrNull(e);
      if e.Absent? || |e.value| == 0 || e.value !in ENTITY_ALLOWED_VALUES {
        return Normal(Some(Complaint(CV_ENTITY, INVALID_VALUE)));
      }
      var c := GetString(boundry.value, CV_COURSE_ID);
      if c.CastFailure? {
        return Thrown(CLASS_CAST);
      }
      courseIdFromRequest := OrNull(c);
      if c.Absent? || |c.value| == 0 {
        return Normal(Some(Complaint(CV_ENTITY, INVALID_VALUE)));
      }
      var u := GetString(boundry.value, CV_UNIT_ID);
      if u.CastFailure? {
        return Thrown(CLASS_CAST);
      }
      unitIdFromRequest := OrNull(u);
      var l := GetString(boundry.value, CV_LESSON_ID);
      if l.CastFailure? {
        return Thrown(CLASS_CAST);
      }
      lessonIdFromRequest := OrNull(l);
      return Normal(Some(map[]));
    }

    /**
     * checkSanity: a class id, a signed-in caller, a non-empty payload, and
     * a scope document payloadValidator accepts. Only an "all" request can
     * pass.
     */
    method CheckSanity() returns (r: Outcome)
      modifies this
      ensures entityClass == old(entityClass) && courseId == old(courseId)
      ensures NullOrEmpty(context.classId) ==> r == Returned(Fail(InvalidRequest, MISSING_CLASS_ID))
      ensures !NullOrEmpty(context.classId) && Anonymous(context.userId) ==> r == Returned(Fail(Forbidden, NOT_ALLOWED))
      ensures !NullOrEmpty(context.classId) && !Anonymous(context.userId) && (context.request.None? || |context.request.value| == 0) ==>
                r == Returned(Fail(InvalidRequest, EMPTY_PAYLOAD))
      ensures !NullOrEmpty(context.classId) && !Anonymous(context.userId) && context.request.Some? && |context.request.value| != 0 ==>
                match ParseScope(context.request.value)
                case Thrown(_) => r.Threw?
                case Normal(Refused(e)) => r == Returned(FailValidation(e))
                case Normal(SpecificContent) =>
                  && (r.Threw? <==> PV.Raises(context.request.value, C.ContentVisibilityFieldSelector(), C.Validators(parsers)))
                  && (r.Returned? ==> r.result.FailedWith(ValidationError))
                case Normal(WholeBoundary(e, c, u, l)) =>
                  && r == Returned(Continue())
                  && kind == Some(CV_TYPE_ALL) && entity == Some(e)
                  && courseIdFromRequest == Some(c) && unitIdFromRequest == u && lessonIdFromRequest == l
      ensures r == Returned(Continue()) ==>
                context.request.Some? && ParseScope(context.request.value).Normal?
                && ParseScope(context.request.value).value.WholeBoundary?
    {
      if NullOrEmpty(context.classId) {
        return Returned(Fail(InvalidRequest, MISSING_CLASS_ID));
      }
      if Anonymous(context.userId) {
        return Returned(Fail(Forbidden, NOT_ALLOWED));
      }
      if context.request.None? || |context.request.value| == 0 {
        return Returned(Fail(InvalidRequest, EMPTY_PAYLOAD));
      }
      var request := context.request.value;
      var errors := PayloadValidator(request);
      if errors.Thrown? {
        return Threw(errors.message);
      }
      if ParseScope(request) == Normal(SpecificContent) {
        SpecificAlwaysRefused(request, parsers);
      }
      if errors.value.Some? && |errors.value.value| != 0 {
        return Returned(FailValidation(errors.value.value));
      }
      return Returned(Continue());
    }

    /**
     * The checks validateRequest makes once the class is loaded: the class's
     * own settings, ownership or collaboration, a course, and for a
     * "specific" request content of that course.
     */
    ghost predicate Admits(row: C.ClassRow, store: Database)
      reads this, store
    {
      && classSetting(context.request, row, entity).status != Failed
      && (A.IsOwner(row, context.userId) || A.IsCollaborator(row, context.userId))
      && CourseAndContentAdmitted(row, store)
    }

    /** The later checks: a course, a known type, and for "specific" content of that course. */
    ghost predicate CourseAndContentAdmitted(row: C.ClassRow, store: Database)
      reads this, store
    {
      && C.CourseId(row).Some?
      && kind.Some?
      && (EqualsIgnoreCase(kind.value, CV_TYPE_SPECIFIC) ==>
            context.request.Some?
            && CVH.ValidatePayloadWithDB(context.request.value, C.CourseId(row), store.db, store.faults) == Returned(Continue()))
    }

    method CheckLoadedClass(row: C.ClassRow, store: Database) returns (r: Outcome)
      ensures r == Returned(Continue()) <==> Admits(row, store)
    {
      var setting := classSetting(context.request, row, entity);
      if setting.status == Failed {
        return Returned(setting);
      }
      r := A.Authorize(A.AuthorizerFor(A.ContentVisibility), context, row, store.db, store.faults);
      A.PassesMeaning(A.ClassOwnerOrCollaborator, context, row, store.db, store.faults);
      if r.Threw? || r.result.status == Failed {
        return r;
      }
      r := CheckCourseAndContent(row, store);
    }

    method CheckCourseAndContent(row: C.ClassRow, store: Database) returns (r: Outcome)
      ensures r == Returned(Continue()) <==> CourseAndContentAdmitted(row, store)
    {
      if C.CourseId(row).None? {
        return Returned(Fail(InvalidRequest, CLASS_WITHOUT_COURSE));
      }
      if kind.None? {
        return Threw(NULL_REFERENCE);
      }
      if EqualsIgnoreCase(kind.value, CV_TYPE_SPECIFIC) {
        if context.request.None? {
          return Threw(NULL_REFERENCE);
        }
        return CVH.ValidatePayloadWithDB(context.request.value, C.CourseId(row), store.db, store.faults);
      }
      return Returned(Continue());
    }

    /**
     * validateRequest: the live class must exist, be of the current version
     * and not archived, satisfy the class's own settings, be owned or
     * co-taught by the caller and belong to a course; a "specific" request
     * must also name only content of that course.
     */
    method ValidateRequest(store: Database) returns (r: Outcome)
      requires Valid()
      modifies this
      ensures Valid()
      ensures kind == old(kind) && entity == old(entity)
      ensures courseIdFromRequest == old(courseIdFromRequest) && unitIdFromRequest == old(unitIdFromRequest)
      ensures lessonIdFromRequest == old(lessonIdFromRequest)
      ensures store.Fails(FindClass) ==> r.Threw?
      ensures !store.Fails(FindClass) && FindById(store.db, context.classId).None? ==> r == Returned(Fail(NotFound, NOT_FOUND))
      ensures r == Returned(Continue()) <==>
                !store.Fails(FindClass) && FindById(store.db, context.classId).Some?
                && VersionCheck(FindById(store.db, context.classId).value) == Returned(Continue())
                && Admits(FindById(store.db, context.classId).value, store)
      ensures r == Returned(Continue()) ==> entityClass == FindById(store.db, context.classId) && courseId == C.CourseId(entityClass.value)
    {
      if store.Fails(FindClass) {
        return Threw(DB_ERROR);
      }
      var classes := FindById(store.db, context.classId);
      if classes.None? {
        return Returned(Fail(NotFound, NOT_FOUND));
      }
      entityClass := classes;
      var row := classes.value;
      var usable := VersionCheck(row);
      if usable != Returned(Continue()) {
        return usable;
      }
      courseId := C.CourseId(row);
      r := CheckLoadedClass(row, store);
    }

    /**
     * executeRequest: for "specific", mark the listed items of the class's
     * course visible; for "all", mark the boundary's items the class cannot
     * see yet visible, with the format condition of the entity kind. Both
     * answer "updated" with the content-visible event; a store error
     * escapes, and any other type is an invalid request.
     */
    method ExecuteRequest(store: Database) returns (r: Outcome)
      modifies store
      ensures kind.None? ==> r.Threw? && store.db == old(store.db)
      ensures kind.Some? && !EqualsIgnoreCase(kind.value, CV_TYPE_SPECIFIC) && !EqualsIgnoreCase(kind.value, CV_TYPE_ALL) ==>
                r == Returned(Fail(InvalidRequest, INVALID_TYPE)) && store.db == old(store.db)
      ensures r.Returned? && r.result.IsSuccessful() ==>
                context.request.Some? && context.classId.Some?
                && r.result == NoContentResponse(UPDATED, Some(Event(E.EVT_CLASS_CONTENT_VISIBLE,
                                                                     context.request.value[E.CLASS_ID := Str(context.classId.value)])))
      ensures kind.Some? && EqualsIgnoreCase(kind.value, CV_TYPE_SPECIFIC) && context.classId.Some? && context.request.Some?
              && courseId.Some? && SpecificIds(context.request.value).Normal? ==>
                (store.Fails(MarkVisible) ==> r.Threw?)
                && (!store.Fails(MarkVisible) ==>
                      r.Returned? && r.result.IsSuccessful()
                      && store.db == old(store.db).(items := WithVisibility(old(store.db.items), context.classId.value,
                                                      I.CourseScope(courseId.value), I.AnyFormat, SpecificIds(context.request.value).value)))
      ensures kind.Some? && !EqualsIgnoreCase(kind.value, CV_TYPE_SPECIFIC) && EqualsIgnoreCase(kind.value, CV_TYPE_ALL)
              && context.classId.Some? && context.request.Some? && entity.Some? ==>
                var s := BoundaryScope(courseIdFromRequest, unitIdFromRequest, lessonIdFromRequest);
                var ids := nonVisible(NonVisibleQuery(context.classId.value, courseIdFromRequest, unitIdFromRequest,
                                                      lessonIdFromRequest, LookupFormat(entity.value)));
                (store.Fails(FindNonVisible) || (s.Some? && store.Fails(MarkVisible)) ==> r.Threw?)
                && (!store.Fails(FindNonVisible) && (s.None? || !store.Fails(MarkVisible)) ==>
                      r.Returned? && r.result.IsSuccessful()
                      && store.db == if s.None? then old(store.db)
                                     else old(store.db).(items := WithVisibility(old(store.db.items), context.classId.value,
                                                                                 s.value, EntityFilter(entity.value), ids)))
    {
      if kind.None? {
        return Threw(NULL_REFERENCE);
      }
      if EqualsIgnoreCase(kind.value, CV_TYPE_SPECIFIC) {
        if context.request.None? {
          return Threw(NULL_REFERENCE);
        }
        var input := SpecificIds(context.request.value);
        if input.Thrown? {
          return Threw(input.message);
        }
        if context.classId.None? {
          return Threw(NULL_REFERENCE);
        }
        if courseId.None? {
          // `course_id = null` matches no item.
          if store.Fails(MarkVisible) {
            return Threw(DB_ERROR);
          }
        } else {
          var updated := store.UpdateVisibility(context.classId.value, I.CourseScope(courseId.value), I.AnyFormat, input.value);
          if updated.Thrown? {
            return Threw(updated.message);
          }
        }
        var body := new JsonBox(context.request.value);
        var event := E.ContentVisibleEvent(context.classId.value, body);
        return Returned(NoContentResponse(UPDATED, Some(event)));
      } else if EqualsIgnoreCase(kind.value, CV_TYPE_ALL) {
        if entity.None? || context.classId.None? {
          return Threw(NULL_REFERENCE);
        }
        if store.Fails(FindNonVisible) {
          return Threw(DB_ERROR);
        }
        var ids := nonVisible(NonVisibleQuery(context.classId.value, courseIdFromRequest, unitIdFromRequest,
                                              lessonIdFromRequest, LookupFormat(entity.value)));
        var updated := MarkBoundaryVisible(store, context.classId.value, courseIdFromRequest, unitIdFromRequest,
                                           lessonIdFromRequest, entity.value, ids);
        if updated.Thrown? {
          return Threw(updated.message);
        }
        if context.request.None? {
          return Threw(NULL_REFERENCE);
        }
        var body := new JsonBox(context.request.value);
        var event := E.ContentVisibleEvent(context.classId.value, body);
        return Returned(NoContentResponse(UPDATED, Some(event)));
      }
      return Returned(Fail(InvalidRequest, INVALID_TYPE));
    }
  }
}
