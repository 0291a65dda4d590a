/**
 * The `collection` table as the visibility handlers see it: course content
 * items (collections, assessments and external assessments) with the set
 * of classes each is visible to, the format predicates, and the row
 * filters behind the visibility queries and updates.
 */
module AJEntityCollection {
  import opened Common

  const FORMAT_TYPE_COLLECTION: string := "collection"
  const FORMAT_TYPE_ASSESSMENT: string := "assessment"
  const FORMAT_TYPE_ASSESSMENT_EXT: string := "assessment-external"

  /**
   * A content item. `classVisibility` is the item's class_visibility
   * column: the class ids its JSON array holds, or None when the column is
   * SQL NULL.
   */
  datatype Item = Item(
    id: string,
    courseId: string,
    unitId: string,
    lessonId: string,
    format: string,
    isDeleted: bool,
    classVisibility: Option<set<string>>)

  predicate IsAssessment(i: Item) { EqualsIgnoreCase(FORMAT_TYPE_ASSESSMENT, i.format) }
  predicate IsCollection(i: Item) { EqualsIgnoreCase(FORMAT_TYPE_COLLECTION, i.format) }
  predicate IsAssessmentExternal(i: Item) { EqualsIgnoreCase(FORMAT_TYPE_ASSESSMENT_EXT, i.format) }

  /** The three format constants differ even ignoring case, so at most one predicate holds for an item. */
  lemma AtMostOneFormat(i: Item)
    ensures !(IsAssessment(i) && IsCollection(i))
    ensures !(IsAssessment(i) && IsAssessmentExternal(i))
    ensures !(IsCollection(i) && IsAssessmentExternal(i))
  {
    if IsAssessment(i) {
      assert LowerAscii(i.format[0]) == LowerAscii(FORMAT_TYPE_ASSESSMENT[0]) == 'a';
    }
    if IsCollection(i) {
      assert LowerAscii(i.format[0]) == LowerAscii(FORMAT_TYPE_COLLECTION[0]) == 'c';
    }
  }

  /** Which kind of content a query or update is restricted to. */
  datatype FormatFilter = AnyFormat | OnlyCollections | NotCollections

  /** The SQL format condition: none, `format = 'collection'`, or `format != 'collection'`. */
  predicate FormatMatches(f: FormatFilter, i: Item)
  {
    match f
    case AnyFormat => true
    case OnlyCollections => i.format == FORMAT_TYPE_COLLECTION
    case NotCollections => i.format != FORMAT_TYPE_COLLECTION
  }

  /**
   * The assessment-side filter keeps both assessment kinds and drops
   * collections; the three filters partition the items.
   */
  lemma AssessmentSideCoversBothKinds(i: Item)
    ensures i.format == FORMAT_TYPE_ASSESSMENT ==> FormatMatches(NotCollections, i)
    ensures i.format == FORMAT_TYPE_ASSESSMENT_EXT ==> FormatMatches(NotCollections, i)
    ensures FormatMatches(OnlyCollections, i) != FormatMatches(NotCollections, i)
    ensures FormatMatches(AnyFormat, i)
  {
  }

  /**
   * The boundary of a visibility update: the course, optionally narrowed to
   * one unit, and further to one lesson.
   */
  datatype Scope = CourseScope(courseId: string) | UnitScope(courseId: string, unitId: string)
                 | LessonScope(courseId: string, unitId: string, lessonId: string)

  predicate InScope(s: Scope, i: Item)
  {
    match s
    case CourseScope(c) => i.courseId == c
    case UnitScope(c, u) => i.courseId == c && i.unitId == u
    case LessonScope(c, u, l) => i.courseId == c && i.unitId == u && i.lessonId == l
  }

  /**
   * `class_visibility ?? classId`: the array holds the class id. On a NULL
   * column the operator yields NULL, which a WHERE clause treats as false.
   */
  predicate VisibleTo(i: Item, classId: string)
  {
    i.classVisibility.Some? && classId in i.classVisibility.value
  }

  /**
   * `class_visibility || '["classId"]'::jsonb`: the class id is appended to
   * the array, while a NULL column stays NULL.
   */
  function WithClass(v: Option<set<string>>, classId: string): (r: Option<set<string>>)
    ensures r.None? <==> v.None?
    ensures r.Some? ==> r.value == v.value + {classId}
  {
    if v.Some? then Some(v.value + {classId}) else None
  }

  /** Appending the class makes an item visible to it exactly when its column was not NULL. */
  lemma WithClassMeaning(i: Item, classId: string, other: string)
    ensures VisibleTo(i.(classVisibility := WithClass(i.classVisibility, classId)), classId) <==> i.classVisibility.Some?
    ensures other != classId ==>
              (VisibleTo(i.(classVisibility := WithClass(i.classVisibility, classId)), other) <==> VisibleTo(i, other))
  {
  }

  /** The WHERE clause of the visibility updates: scope, format, not deleted and one of the ids. */
  predicate UpdateTarget(s: Scope, f: FormatFilter, ids: seq<string>, i: Item)
  {
    InScope(s, i) && FormatMatches(f, i) && !i.isDeleted && i.id in ids
  }

  /** `course_id = ? and is_deleted = false and class_visibility ?? classId`, with a format condition. */
  predicate VisibleIn(courseId: string, classId: string, f: FormatFilter, i: Item)
  {
    i.courseId == courseId && !i.isDeleted && VisibleTo(i, classId) && FormatMatches(f, i)
  }

  /**
   * COLLECTIONS_QUERY_FILTER: the given ids of the course that are live and
   * not yet visible to the class (`not class_visibility ?? classId or
   * class_visibility is null`).
   */
  predicate NotYetVisible(courseId: string, classId: string, ids: seq<string>, i: Item)
  {
    i.courseId == courseId && i.id in ids && !i.isDeleted && !VisibleTo(i, classId)
  }
}
