/**
 * The `class` table's entity: its column names, the field sets that the
 * payload checks use, the per-field validators and converters, the field
 * selectors of each operation, the row accessors the handlers and
 * authorizers read, and the ActiveJDBC model object whose setters change
 * attributes in place.
 */
module AJEntityClass {
  import opened Common
  import opened Json
  import FieldValidator
  import opened PayloadValidator

  const ID: string := "id"
  const CREATOR_ID: string := "creator_id"
  const IS_DELETED: string := "is_deleted"
  const MODIFIER_ID: string := "modifier_id"
  const TITLE: string := "title"
  const DESCRIPTION: string := "description"
  const GREETING: string := "greeting"
  const CLASS_SHARING: string := "class_sharing"
  const COVER_IMAGE: string := "cover_image"
  const GRADE: string := "grade"
  const CODE: string := "code"
  const MIN_SCORE: string := "min_score"
  const END_DATE: string := "end_date"
  const GOORU_VERSION: string := "gooru_version"
  const CONTENT_VISIBILITY: string := "content_visibility"
  const IS_ARCHIVED: string := "is_archived"
  const COLLABORATOR: string := "collaborator"
  const COURSE_ID: string := "course_id"
  const CREATED_AT: string := "created_at"
  const UPDATED_AT: string := "updated_at"
  const CREATOR_SYSTEM: string := "creator_system"
  const ROSTER_ID: string := "roster_id"
  const CURRENT_VERSION: int := 3
  const INVITEES: string := "invitees"

  // Pseudo-fields of the content-visibility payload
  const CV_UNITS: string := "units"
  const CV_LESSONS: string := "lessons"
  const CV_COLLECTIONS: string := "collections"
  const CV_ASSESSMENTS: string := "assessments"
  const CV_FIELDS: set<string> := {CV_ASSESSMENTS, CV_COLLECTIONS, CV_LESSONS, CV_UNITS}

  const CLASS_SHARING_TYPE_OPEN: string := "open"
  const CLASS_SHARING_TYPE_RESTRICTED: string := "restricted"

  const EDITABLE_FIELDS: set<string> :=
    {TITLE, DESCRIPTION, GREETING, GRADE, CLASS_SHARING, COVER_IMAGE, MIN_SCORE, END_DATE, COLLABORATOR}
  const CREATABLE_FIELDS: set<string> :=
    {TITLE, DESCRIPTION, GREETING, GRADE, CLASS_SHARING, COVER_IMAGE, MIN_SCORE, END_DATE, COLLABORATOR,
     CREATOR_SYSTEM, ROSTER_ID}
  const MANDATORY_FIELDS: set<string> := {TITLE, CLASS_SHARING}
  const FORBIDDEN_FIELDS: set<string> :=
    {ID, CREATED_AT, UPDATED_AT, CREATOR_ID, MODIFIER_ID, IS_DELETED, GOORU_VERSION, IS_ARCHIVED}
  const COLLABORATOR_FIELDS: set<string> := {COLLABORATOR}
  const INVITE_MANDATORY_FIELDS: set<string> := {INVITEES}
  const INVITE_ALLOWED_FIELDS: set<string> := {INVITEES, CREATOR_SYSTEM}
  /** The columns a fetch returns, in response order. */
  const FETCH_QUERY_FIELD_LIST: seq<string> :=
    [ID, CREATOR_ID, TITLE, DESCRIPTION, GREETING, GRADE, CLASS_SHARING, COVER_IMAGE, CODE, MIN_SCORE,
     END_DATE, COURSE_ID, COLLABORATOR, GOORU_VERSION, CONTENT_VISIBILITY, IS_ARCHIVED, CREATED_AT, UPDATED_AT]
  const JOIN_CLASS_FIELDS: set<string> := {ROSTER_ID, CREATOR_SYSTEM}

  /**
   * How the field sets relate: an update may touch only what a create may
   * set, a create adds exactly the two roster fields, the mandatory fields
   * can be created, and no forbidden column can be created or edited.
   */
  lemma FieldSetFacts()
    ensures EDITABLE_FIELDS <= CREATABLE_FIELDS
    ensures CREATABLE_FIELDS - EDITABLE_FIELDS == {CREATOR_SYSTEM, ROSTER_ID}
    ensures MANDATORY_FIELDS <= CREATABLE_FIELDS
    ensures FORBIDDEN_FIELDS !! CREATABLE_FIELDS && FORBIDDEN_FIELDS !! EDITABLE_FIELDS
    ensures COLLABORATOR_FIELDS <= EDITABLE_FIELDS && INVITE_MANDATORY_FIELDS <= INVITE_ALLOWED_FIELDS
    ensures JOIN_CLASS_FIELDS <= CREATABLE_FIELDS && JOIN_CLASS_FIELDS !! EDITABLE_FIELDS
    ensures |CV_FIELDS| == 4 && CV_FIELDS !! CREATABLE_FIELDS
  {
  }

  // ---------------------------------------------------------------------------
  // Validators

  /** The class_sharing check: a string equal, ignoring case, to "open" or "restricted". */
  predicate ValidSharing(value: Value)
  {
    value.Str? && (EqualsIgnoreCase(CLASS_SHARING_TYPE_OPEN, value.s) || EqualsIgnoreCase(CLASS_SHARING_TYPE_RESTRICTED, value.s))
  }

  /** The course_id check: the value is cast to String first, so anything but a string or null throws. */
  function CourseIdCheck(value: Value, p: Parsers): (r: Throws<bool>)
    ensures r.Thrown? <==> !(value.Str? || value.Null?)
    ensures r == Normal(true) <==> value.Null? || (value.Str? && p.isUuid(value.s))
  {
    match value
    case Null => Normal(FieldValidator.ValidateUuidIfPresent(None, p))
    case Str(s) => Normal(FieldValidator.ValidateUuidIfPresent(Some(s), p))
    case _ => Thrown(CLASS_CAST)
  }

  /** The fields that have a validator; every other field passes unchecked. */
  const VALIDATED_FIELDS: set<string> :=
    {ID, TITLE, DESCRIPTION, GREETING, GRADE, CLASS_SHARING, COVER_IMAGE, MIN_SCORE, END_DATE, COURSE_ID,
     COLLABORATOR, CREATOR_SYSTEM, ROSTER_ID, INVITEES, CV_ASSESSMENTS, CV_COLLECTIONS, CV_LESSONS, CV_UNITS}

  /** The validator registered for a field, if any. */
  function ValidatorFor(f: string, p: Parsers): Option<Value -> Throws<bool>>
  {
    match f
    case "id" => Some((v: Value) => FieldValidator.ValidateUuid(v, p))
    case "title" => Some((v: Value) => Normal(FieldValidator.ValidateString(v, 5000)))
    case "description" => Some((v: Value) => Normal(FieldValidator.ValidateStringIfPresent(v, 5000)))
    case "greeting" => Some((v: Value) => Normal(FieldValidator.ValidateStringIfPresent(v, 5000)))
    case "grade" => Some((v: Value) => Normal(FieldValidator.ValidateJsonArrayIfPresent(v)))
    case "class_sharing" => Some((v: Value) => Normal(ValidSharing(v)))
    case "cover_image" => Some((v: Value) => Normal(FieldValidator.ValidateStringIfPresent(v, 2000)))
    case "min_score" => Some((v: Value) => Normal(FieldValidator.ValidateInteger(v, p)))
    case "end_date" => Some((v: Value) => Normal(FieldValidator.ValidateDateWithFormat(v, p)))
    case "course_id" => Some((v: Value) => CourseIdCheck(v, p))
    case "collaborator" => Some((v: Value) => FieldValidator.ValidateDeepJsonArrayIfPresent(v, (x: Value) => FieldValidator.ValidateUuid(x, p)))
    case "creator_system" => Some((v: Value) => Normal(FieldValidator.ValidateStringIfPresent(v, 255)))
    case "roster_id" => Some((v: Value) => Normal(FieldValidator.ValidateStringIfPresent(v, 512)))
    case "invitees" => Some((v: Value) => FieldValidator.ValidateDeepJsonArrayIfPresent(v, (x: Value) => FieldValidator.ValidateEmail(x, p)))
    case "assessments" => Some((v: Value) => FieldValidator.ValidateDeepJsonArray(v, (x: Value) => FieldValidator.ValidateUuid(x, p)))
    case "collections" => Some((v: Value) => FieldValidator.ValidateDeepJsonArray(v, (x: Value) => FieldValidator.ValidateUuid(x, p)))
    case "lessons" => Some((v: Value) => FieldValidator.ValidateDeepJsonArray(v, (x: Value) => FieldValidator.ValidateUuid(x, p)))
    case "units" => Some((v: Value) => FieldValidator.ValidateDeepJsonArray(v, (x: Value) => FieldValidator.ValidateUuid(x, p)))
    case _ => None
  }

  /** The entity's validator registry: the fields that have a validator, each with it. */
  function Validators(p: Parsers): (r: ValidatorRegistry)
    ensures forall f :: f in r <==> ValidatorFor(f, p).Some?
    ensures forall f :: f in r ==> r[f] == ValidatorFor(f, p).value
  {
    map f | f in VALIDATED_FIELDS && ValidatorFor(f, p).Some? :: ValidatorFor(f, p).value
  }

  /** class_sharing accepts exactly the strings "open" and "restricted" in any letter case, and never throws. */
  lemma SharingValidatorMeaning(p: Parsers, v: Value)
    ensures Validators(p)[CLASS_SHARING](v).Normal?
    ensures Validators(p)[CLASS_SHARING](v) == Normal(true) <==>
              v.Str? && (EqualsIgnoreCase(v.s, "open") || EqualsIgnoreCase(v.s, "restricted"))
  {
    EqualsIgnoreCaseBasics(CLASS_SHARING_TYPE_OPEN, if v.Str? then v.s else "");
    EqualsIgnoreCaseBasics(CLASS_SHARING_TYPE_RESTRICTED, if v.Str? then v.s else "");
  }

  /** Each content-visibility field must be a non-empty array whose every element is a UUID string. */
  lemma ContentVisibilityValidatorsMeaning(p: Parsers, f: string, v: Value)
    requires f in CV_FIELDS
    ensures Validators(p)[f](v) == Normal(true) <==>
              v.Arr? && |v.items| != 0 && forall k :: 0 <= k < |v.items| ==> v.items[k].Str? && p.isUuid(v.items[k].s)
  {
    var fv := (x: Value) => FieldValidator.ValidateUuid(x, p);
    FieldValidator.DeepArrayMeaning(v, fv);
    assert Validators(p)[f](v) == FieldValidator.ValidateDeepJsonArray(v, fv);
  }

  /** The collaborator field is null, or a non-empty array of UUID strings. */
  lemma CollaboratorValidatorMeaning(p: Parsers, v: Value)
    ensures Validators(p)[COLLABORATOR](v) == Normal(true) <==>
              v.Null? || (v.Arr? && |v.items| != 0 && forall k :: 0 <= k < |v.items| ==> v.items[k].Str? && p.isUuid(v.items[k].s))
  {
    var fv := (x: Value) => FieldValidator.ValidateUuid(x, p);
    FieldValidator.DeepArrayMeaning(v, fv);
    assert Validators(p)[COLLABORATOR](v) == FieldValidator.ValidateDeepJsonArrayIfPresent(v, fv);
  }

  /** The invitees field is null, or a non-empty array of strings that match the e-mail pattern. */
  lemma InviteesValidatorMeaning(p: Parsers, v: Value)
    ensures Validators(p)[INVITEES](v) == Normal(true) <==>
              v.Null? || (v.Arr? && |v.items| != 0 && forall k :: 0 <= k < |v.items| ==> v.items[k].Str? && p.isEmail(v.items[k].s))
  {
    var fv := (x: Value) => FieldValidator.ValidateEmail(x, p);
    FieldValidator.DeepArrayMeaning(v, fv);
    assert Validators(p)[INVITEES](v) == FieldValidator.ValidateDeepJsonArrayIfPresent(v, fv);
  }

  // ---------------------------------------------------------------------------
  // Field selectors

  function CreateFieldSelector(): FieldSelector { FieldSelector(CREATABLE_FIELDS, Some(MANDATORY_FIELDS)) }
  function InviteStudentFieldSelector(): FieldSelector { FieldSelector(INVITE_ALLOWED_FIELDS, Some(INVITE_MANDATORY_FIELDS)) }
  /** The selectors below declare no mandatory set (FieldSelector's default). */
  function JoinClassFieldSelector(): FieldSelector { FieldSelector(JOIN_CLASS_FIELDS, None) }
  function UpdateClassFieldSelector(): FieldSelector { FieldSelector(EDITABLE_FIELDS, None) }
  function UpdateCollaboratorFieldSelector(): FieldSelector { FieldSelector(COLLABORATOR_FIELDS, Some(COLLABORATOR_FIELDS)) }
  function ContentVisibilityFieldSelector(): FieldSelector { FieldSelector(CV_FIELDS, None) }

  /** Every mandatory field of a selector is also allowed by it, so a payload can satisfy both. */
  lemma SelectorsAreConsistent()
    ensures forall s :: s in {CreateFieldSelector(), InviteStudentFieldSelector(), JoinClassFieldSelector(),
                               UpdateClassFieldSelector(), UpdateCollaboratorFieldSelector(), ContentVisibilityFieldSelector()}
              ==> s.mandatory.None? || s.mandatory.value <= s.allowed
    ensures UpdateCollaboratorFieldSelector().allowed == UpdateCollaboratorFieldSelector().mandatory.value == {COLLABORATOR}
  {
  }

  // ---------------------------------------------------------------------------
  // Converters

  /** convertFieldToUuid on a string: a PGobject holding the text, or null when the driver refuses it. */
  function UuidColumn(s: Option<string>, p: Parsers): (r: Value)
    ensures r.Str? <==> s.Some? && p.pgConverts(s.value)
    ensures r.Str? ==> r.s == s.value
    ensures !r.Str? ==> r.Null?
  {
    if s.Some? && p.pgConverts(s.value) then Str(s.value) else Null
  }

  /** A uuid converter applied to a payload value: the value is cast to String first. */
  function UuidConverter(value: Value, p: Parsers): (r: Throws<Value>)
    ensures r.Thrown? <==> !(value.Str? || value.Null?)
  {
    match value
    case Null => Normal(UuidColumn(None, p))
    case Str(s) => Normal(UuidColumn(Some(s), p))
    case _ => Thrown(CLASS_CAST)
  }

  /** The date converter: null stays null; a text that is not an ISO local date becomes null. */
  function DateConverter(value: Value, p: Parsers): (r: Value)
    ensures r.Str? <==> value.Str? && p.isIsoDate(value.s)
  {
    if value.Str? && p.isIsoDate(value.s) then value else Null
  }

  type ConverterRegistry = map<string, Value -> Throws<Value>>

  /** The fields that have a converter; every other field is stored as given. */
  const CONVERTED_FIELDS: set<string> := {ID, GRADE, END_DATE, CONTENT_VISIBILITY, CREATOR_ID, MODIFIER_ID, COURSE_ID, CLASS_SHARING, COLLABORATOR}

  /** The entity's converter registry; JSON and named-type conversion keep the value. */
  function Converters(p: Parsers): (r: ConverterRegistry)
    ensures r.Keys == CONVERTED_FIELDS
  {
    map[
      ID := (v: Value) => UuidConverter(v, p),
      GRADE := (v: Value) => Normal(v),
      END_DATE := (v: Value) => Normal(DateConverter(v, p)),
      CONTENT_VISIBILITY := (v: Value) => Normal(v),
      CREATOR_ID := (v: Value) => UuidConverter(v, p),
      MODIFIER_ID := (v: Value) => UuidConverter(v, p),
      COURSE_ID := (v: Value) => UuidConverter(v, p),
      CLASS_SHARING := (v: Value) => Normal(v),
      COLLABORATOR := (v: Value) => Normal(v)
    ]
  }

  /** Only the uuid-typed fields can throw while converting, and only on a value that is neither a string nor null. */
  lemma ConvertersThrowOnlyOnUuidCasts(p: Parsers, f: string, v: Value)
    requires f in CONVERTED_FIELDS
    ensures Converters(p)[f](v).Thrown? <==> f in {ID, CREATOR_ID, MODIFIER_ID, COURSE_ID} && !(v.Str? || v.Null?)
  {
  }

  // ---------------------------------------------------------------------------
  // Rows and their accessors

  /** A row of the class table as ActiveJDBC holds it: column name to value. */
  type ClassRow = map<string, Value>

  /** Model.getString on a text or uuid column: a string, or null. */
  function Text(row: ClassRow, column: string): (r: Option<string>)
    ensures r.Some? <==> column in row && row[column].Str?
    ensures r.Some? ==> row[column] == Str(r.value)
  {
    if column in row && row[column].Str? then Some(row[column].s) else None
  }

  function Id(row: ClassRow): Option<string> { Text(row, ID) }
  function CreatorId(row: ClassRow): Option<string> { Text(row, CREATOR_ID) }
  function CourseId(row: ClassRow): Option<string> { Text(row, COURSE_ID) }
  function Code(row: ClassRow): Option<string> { Text(row, CODE) }
  function ClassSharing(row: ClassRow): Option<string> { Text(row, CLASS_SHARING) }

  /** The collaborator document's elements; a null column has none. */
  function Collaborators(row: ClassRow): (r: seq<Value>)
    ensures COLLABORATOR in row && row[COLLABORATOR].Arr? ==> r == row[COLLABORATOR].items
    ensures !(COLLABORATOR in row && row[COLLABORATOR].Arr?) ==> r == []
  {
    if COLLABORATOR in row && row[COLLABORATOR].Arr? then row[COLLABORATOR].items else []
  }

  /** A row that has not been soft-deleted (`is_deleted = false`). */
  predicate Live(row: ClassRow)
  {
    IS_DELETED in row && row[IS_DELETED] == Bool(false)
  }

  /**
   * isCurrentVersion: getInteger(gooru_version) == 3. A null version makes
   * the unboxing throw; the column holds integers, so any other value is
   * read as that failure too.
   */
  function IsCurrentVersion(row: ClassRow): (r: Throws<bool>)
    ensures r == Normal(true) <==> GOORU_VERSION in row && row[GOORU_VERSION] == Num(CURRENT_VERSION)
    ensures r.Thrown? <==> !(GOORU_VERSION in row && row[GOORU_VERSION].Num?)
  {
    if GOORU_VERSION in row && row[GOORU_VERSION].Num? then Normal(row[GOORU_VERSION].n == CURRENT_VERSION)
    else Thrown(NULL_REFERENCE)
  }

  /** isArchived: getBoolean(is_archived); a null column reads as false. */
  function IsArchived(row: ClassRow): (r: bool)
    ensures r <==> IS_ARCHIVED in row && row[IS_ARCHIVED] == Bool(true)
  {
    IS_ARCHIVED in row && row[IS_ARCHIVED] == Bool(true)
  }

  /**
   * The check every write handler makes after loading a class,
   * `!isCurrentVersion() || isArchived()`: archived or not of the current
   * version is refused (`Normal(false)`). The version is read first, so its
   * failure escapes even for an archived class.
   */
  function UsableForWrite(row: ClassRow): (r: Throws<bool>)
    ensures r == Normal(true) <==> !IsArchived(row) && IsCurrentVersion(row) == Normal(true)
    ensures r.Thrown? <==> IsCurrentVersion(row).Thrown?
  {
    match IsCurrentVersion(row)
    case Thrown(e) => Thrown(e)
    case Normal(current) => Normal(current && !IsArchived(row))
  }

  /** The JSON formatter's view of a row: the fetch columns that the row has. */
  function FetchView(row: ClassRow): (r: JsonObject)
    ensures r.Keys == row.Keys * (set k | k in FETCH_QUERY_FIELD_LIST)
    ensures forall k :: k in r ==> r[k] == row[k]
  {
    map k | k in row.Keys && k in FETCH_QUERY_FIELD_LIST :: row[k]
  }

  // ---------------------------------------------------------------------------
  // The model object

  /**
   * An AJEntityClass instance: its attributes, and the attributes set since
   * it was created or loaded (what an update writes back).
   */
  class ClassModel {
    var attrs: ClassRow
    var dirty: set<string>
    /** True for `new AJEntityClass()` (saved by an insert), false for a model read from the table. */
    const isNew: bool

    /** A new, empty model (`new AJEntityClass()`). */
    constructor Empty()
      ensures attrs == map[] && dirty == {} && isNew
    {
      attrs := map[];
      dirty := {};
      isNew := true;
    }

    /** A model loaded from a stored row. */
    constructor Load(row: ClassRow)
      ensures attrs == row && dirty == {} && !isNew
    {
      attrs := row;
      dirty := {};
      isNew := false;
    }

    /** Model.set: one attribute is replaced and marked dirty. */
    method Set(column: string, v: Value)
      modifies this
      ensures attrs == old(attrs)[column := v]
      ensures dirty == old(dirty) + {column}
    {
      attrs := attrs[column := v];
      dirty := dirty + {column};
    }

    method SetModifierId(modifier: Option<string>, p: Parsers)
      modifies this
      ensures attrs == old(attrs)[MODIFIER_ID := UuidColumn(modifier, p)]
      ensures dirty == old(dirty) + {MODIFIER_ID}
    {
      Set(MODIFIER_ID, UuidColumn(modifier, p));
    }

    method SetCreatorId(creator: Option<string>, p: Parsers)
      modifies this
      ensures attrs == old(attrs)[CREATOR_ID := UuidColumn(creator, p)]
      ensures dirty == old(dirty) + {CREATOR_ID}
    {
      Set(CREATOR_ID, UuidColumn(creator, p));
    }

    method SetCourseId(courseId: Option<string>, p: Parsers)
      modifies this
      ensures attrs == old(attrs)[COURSE_ID := UuidColumn(courseId, p)]
      ensures dirty == old(dirty) + {COURSE_ID}
    {
      Set(COURSE_ID, UuidColumn(courseId, p));
    }

    method SetIdWithConverter(id: Option<string>, p: Parsers)
      modifies this
      ensures attrs == old(attrs)[ID := UuidColumn(id, p)]
      ensures dirty == old(dirty) + {ID}
    {
      Set(ID, UuidColumn(id, p));
    }

    /** The visibility document is stored as JSON. */
    method SetContentVisibility(visibility: JsonObject)
      modifies this
      ensures attrs == old(attrs)[CONTENT_VISIBILITY := Obj(visibility)]
      ensures dirty == old(dirty) + {CONTENT_VISIBILITY}
    {
      Set(CONTENT_VISIBILITY, Obj(visibility));
    }

    /** setVersion: afterwards the model is of the current version, and nothing else changed. */
    method SetVersion()
      modifies this
      ensures IsCurrentVersion(attrs) == Normal(true)
      ensures attrs == old(attrs)[GOORU_VERSION := Num(CURRENT_VERSION)]
      ensures dirty == old(dirty) + {GOORU_VERSION}
    {
      Set(GOORU_VERSION, Num(CURRENT_VERSION));
    }

    /** The attributes an update writes back. */
    function Changes(): (r: ClassRow)
      reads this
      ensures r.Keys == attrs.Keys * dirty
      ensures forall k :: k in r ==> r[k] == attrs[k]
    {
      map k | k in attrs && k in dirty :: attrs[k]
    }
  }
}
