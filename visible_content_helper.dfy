/**
 * Reading what a class can see of its course: the ids of visible
 * assessments, the visible items split into assessments and collections,
 * and per-lesson counts of visible content.
 */
module VisibleContentHelper {
  import opened Common
  import opened Json
  import AJEntityClass
  import opened AJEntityCollection
  import opened Store

  const ID: string := "id"
  const ASSESSMENT_COUNT: string := "assessment_count"
  const COLLECTION_COUNT: string := "collection_count"
  const COURSE: string := "course"
  const UNITS: string := "units"
  const LESSONS: string := "lessons"

  /** The `id` column of a query result, in row order. */
  function Ids(rows: seq<Item>): (r: seq<string>)
    ensures |r| == |rows| && forall k :: 0 <= k < |rows| ==> r[k] == rows[k].id
  {
    seq(|rows|, k requires 0 <= k < |rows| => rows[k].id)
  }

  /**
   * populateVisibleAssessments: the ids of the course's live items visible
   * to the class whose format is not "collection", put under "assessments".
   * The query's store error escapes.
   */
  method PopulateVisibleAssessments(store: Database, classId: string, courseId: string, result: JsonBox) returns (r: Throws<()>)
    modifies result
    ensures FindVisible in store.faults ==> r.Thrown? && result.fields == old(result.fields)
    ensures FindVisible !in store.faults ==>
              r.Normal? && result.fields == old(result.fields)[AJEntityClass.CV_ASSESSMENTS :=
                                              Arr(StrValues(Ids(VisibleItems(store.db, courseId, classId, NotCollections))))]
  {
    if FindVisible in store.faults {
      return Thrown(DB_ERROR);
    }
    var rows := VisibleItems(store.db, courseId, classId, NotCollections);
    var idArray: seq<string> := [];
    var i := 0;
    while i < |rows|
      invariant 0 <= i <= |rows|
      invariant idArray == Ids(rows[..i])
    {
      idArray := idArray + [rows[i].id];
      i := i + 1;
    }
    assert rows[..i] == rows;
    result.Put(AJEntityClass.CV_ASSESSMENTS, Arr(StrValues(idArray)));
    return Normal(());
  }

  /** The ids populateVisibleAssessments reports are exactly those of visible, live, non-collection items of the course. */
  lemma VisibleAssessmentIdsMeaning(db: Db, classId: string, courseId: string, x: string)
    ensures Str(x) in StrValues(Ids(VisibleItems(db, courseId, classId, NotCollections))) <==>
              exists i :: i in db.items && i.id == x && i.courseId == courseId && !i.isDeleted
                          && VisibleTo(i, classId) && i.format != FORMAT_TYPE_COLLECTION
  {
    var rows := VisibleItems(db, courseId, classId, NotCollections);
    if Str(x) in StrValues(Ids(rows)) {
      var k :| 0 <= k < |rows| && StrValues(Ids(rows))[k] == Str(x);
      assert rows[k] in rows;
    }
    if exists i :: i in db.items && i.id == x && i.courseId == courseId && !i.isDeleted
                   && VisibleTo(i, classId) && i.format != FORMAT_TYPE_COLLECTION {
      var i :| i in db.items && i.id == x && i.courseId == courseId && !i.isDeleted
               && VisibleTo(i, classId) && i.format != FORMAT_TYPE_COLLECTION;
      assert i in rows;
      var k :| 0 <= k < |rows| && rows[k] == i;
      assert StrValues(Ids(rows))[k] == Str(x);
    }
  }

  /** The assessment bucket: assessments and external assessments. */
  predicate AssessmentSide(i: Item)
  {
    IsAssessment(i) || IsAssessmentExternal(i)
  }

  /** The ids of the rows in the assessment bucket, in row order. */
  function AssessmentBucket(rows: seq<Item>): seq<string>
  {
    if |rows| == 0 then []
    else AssessmentBucket(rows[..|rows| - 1]) + (if AssessmentSide(rows[|rows| - 1]) then [rows[|rows| - 1].id] else [])
  }

  /** The ids of the rows in the collection bucket, in row order. */
  function CollectionBucket(rows: seq<Item>): seq<string>
  {
    if |rows| == 0 then []
    else CollectionBucket(rows[..|rows| - 1])
         + (if !AssessmentSide(rows[|rows| - 1]) && IsCollection(rows[|rows| - 1]) then [rows[|rows| - 1].id] else [])
  }

  /**
   * populateVisibleItems: one pass over the visible items, each id going
   * to the assessment or the collection bucket by its format; an item of
   * any other format is left out. Both buckets are put.
   */
  method PopulateVisibleItems(store: Database, classId: string, courseId: string, result: JsonBox) returns (r: Throws<()>)
    modifies result
    ensures FindVisible in store.faults ==> r.Thrown? && result.fields == old(result.fields)
    ensures FindVisible !in store.faults ==>
              var rows := VisibleItems(store.db, courseId, classId, AnyFormat);
              r.Normal? && result.fields == old(result.fields)[AJEntityClass.CV_ASSESSMENTS := Arr(StrValues(AssessmentBucket(rows)))]
                                                              [AJEntityClass.CV_COLLECTIONS := Arr(StrValues(CollectionBucket(rows)))]
  {
    if FindVisible in store.faults {
      return Thrown(DB_ERROR);
    }
    var rows := VisibleItems(store.db, courseId, classId, AnyFormat);
    var collections: seq<string> := [];
    var assessments: seq<string> := [];
    var i := 0;
    while i < |rows|
      invariant 0 <= i <= |rows|
      invariant assessments == AssessmentBucket(rows[..i])
      invariant collections == CollectionBucket(rows[..i])
    {
      var item := rows[i];
      assert rows[..i + 1][..i] == rows[..i];
      var assessmentSide := AssessmentSide(item);
      if assessmentSide {
        assessments := assessments + [item.id];
      } else if IsCollection(item) {
        collections := collections + [item.id];
      }
      i := i + 1;
    }
    assert rows[..i] == rows;
    result.Put(AJEntityClass.CV_ASSESSMENTS, Arr(StrValues(assessments)));
    result.Put(AJEntityClass.CV_COLLECTIONS, Arr(StrValues(collections)));
    return Normal(());
  }

  /** An id is in the assessment bucket exactly when a row with that id is an assessment of either kind. */
  lemma {:induction false} AssessmentBucketMeaning(rows: seq<Item>, x: string)
    ensures x in AssessmentBucket(rows) <==> exists k :: 0 <= k < |rows| && rows[k].id == x && AssessmentSide(rows[k])
  {
    if |rows| > 0 {
      var n := |rows| - 1;
      var front := rows[..n];
      AssessmentBucketMeaning(front, x);
      assert forall k :: 0 <= k < n ==> front[k] == rows[k];
    }
  }

  /**
   * An id is in the collection bucket exactly when a row with that id is a
   * collection: no collection is taken for an assessment.
   */
  lemma {:induction false} CollectionBucketMeaning(rows: seq<Item>, x: string)
    ensures x in CollectionBucket(rows) <==> exists k :: 0 <= k < |rows| && rows[k].id == x && IsCollection(rows[k])
  {
    if |rows| > 0 {
      var n := |rows| - 1;
      var front := rows[..n];
      CollectionBucketMeaning(front, x);
      assert forall k :: 0 <= k < n ==> front[k] == rows[k];
      CollectionBucketLast(rows);
    }
  }

  lemma CollectionBucketLast(rows: seq<Item>)
    requires |rows| > 0
    ensures var n := |rows| - 1;
            CollectionBucket(rows) == CollectionBucket(rows[..n]) + (if IsCollection(rows[n]) then [rows[n].id] else [])
  {
    AtMostOneFormat(rows[|rows| - 1]);
  }

  // ---------------------------------------------------------------------------
  // Statistics

  /**
   * One row of the statistics query: a (unit, lesson, format) group and
   * its count; `count` is None when the value does not convert to an
   * integer, which the source reads as 0.
   */
  datatype StatRow = StatRow(unitId: string, lessonId: string, format: string, count: Option<int>)

  function CountOf(row: StatRow): int
  {
    if row.count.Some? then row.count.value else 0
  }

  predicate AssessmentFormat(format: string)
  {
    EqualsIgnoreCase(format, FORMAT_TYPE_ASSESSMENT) || EqualsIgnoreCase(format, FORMAT_TYPE_ASSESSMENT_EXT)
  }

  predicate CollectionFormat(format: string)
  {
    EqualsIgnoreCase(format, FORMAT_TYPE_COLLECTION)
  }

  /** The lessons of each unit, from the rows seen so far. */
  function AddLesson(acc: map<string, set<string>>, row: StatRow): map<string, set<string>>
  {
    acc[row.unitId := (if row.unitId in acc then acc[row.unitId] else {}) + {row.lessonId}]
  }

  function UnitLessons(rows: seq<StatRow>): map<string, set<string>>
  {
    if |rows| == 0 then map[] else AddLesson(UnitLessons(rows[..|rows| - 1]), rows[|rows| - 1])
  }

  /** The unit-lesson map holds exactly the (unit, lesson) pairs of the rows. */
  lemma {:induction false} UnitLessonsMeaning(rows: seq<StatRow>, u: string, l: string)
    ensures u in UnitLessons(rows) <==> exists k :: 0 <= k < |rows| && rows[k].unitId == u
    ensures u in UnitLessons(rows) ==> (l in UnitLessons(rows)[u] <==> exists k :: 0 <= k < |rows| && rows[k].unitId == u && rows[k].lessonId == l)
  {
    if |rows| > 0 {
      var n := |rows| - 1;
      UnitLessonsMeaning(rows[..n], u, l);
      assert forall k :: 0 <= k < n ==> rows[..n][k] == rows[k];
      if exists k :: 0 <= k < |rows| && rows[k].unitId == u {
        var k :| 0 <= k < |rows| && rows[k].unitId == u;
        if k < n {
          assert rows[..n][k].unitId == u;
        }
      }
      if exists k :: 0 <= k < |rows| && rows[k].unitId == u && rows[k].lessonId == l {
        var k :| 0 <= k < |rows| && rows[k].unitId == u && rows[k].lessonId == l;
        if k < n {
          assert rows[..n][k].unitId == u && rows[..n][k].lessonId == l;
        }
      }
    }
  }

  /** The per-lesson count as written: each row of the kind replaces the lesson's count. */
  function PutCount(acc: map<string, int>, row: StatRow): map<string, int>
  {
    acc[row.lessonId := CountOf(row)]
  }

  /** The corrected per-lesson count: each row of the kind adds to the lesson's count. */
  function AddCount(acc: map<string, int>, row: StatRow): map<string, int>
  {
    acc[row.lessonId := (if row.lessonId in acc then acc[row.lessonId] else 0) + CountOf(row)]
  }

  /** The assessment counts as the source computes them, from a starting map: the last assessment-side row of a lesson wins. */
  function PutAssessments(acc: map<string, int>, rows: seq<StatRow>): map<string, int>
  {
    if |rows| == 0 then acc
    else
      var before := PutAssessments(acc, rows[..|rows| - 1]);
      if AssessmentFormat(rows[|rows| - 1].format) then PutCount(before, rows[|rows| - 1]) else before
  }

  /** The assessment counts summed over both assessment kinds, from a starting map. */
  function AddAssessments(acc: map<string, int>, rows: seq<StatRow>): map<string, int>
  {
    if |rows| == 0 then acc
    else
      var before := AddAssessments(acc, rows[..|rows| - 1]);
      if AssessmentFormat(rows[|rows| - 1].format) then AddCount(before, rows[|rows| - 1]) else before
  }

  function AssessmentCountsAsWritten(rows: seq<StatRow>): map<string, int>
  {
    PutAssessments(map[], rows)
  }

  function AssessmentCounts(rows: seq<StatRow>): map<string, int>
  {
    AddAssessments(map[], rows)
  }

  /** The collection counts: each lesson has one collection group, whose count is put. */
  function CollectionCounts(rows: seq<StatRow>): map<string, int>
  {
    if |rows| == 0 then map[]
    else
      var before := CollectionCounts(rows[..|rows| - 1]);
      if !AssessmentFormat(rows[|rows| - 1].format) && CollectionFormat(rows[|rows| - 1].format)
      then PutCount(before, rows[|rows| - 1]) else before
  }

  /**
   * The query groups by format, so a lesson holding both assessments and
   * external assessments yields two rows. As written, the lesson's
   * assessment count is that of whichever row comes last, so swapping the
   * rows changes the answer; summing gives both kinds together.
   */
  lemma LastCountWinsCounterexample()
    ensures var a := StatRow("u", "l", FORMAT_TYPE_ASSESSMENT, Some(2));
            var e := StatRow("u", "l", FORMAT_TYPE_ASSESSMENT_EXT, Some(3));
            AssessmentCountsAsWritten([a, e])["l"] == 3
            && AssessmentCountsAsWritten([e, a])["l"] == 2
            && AssessmentCounts([a, e])["l"] == 5
  {
    var a := StatRow("u", "l", FORMAT_TYPE_ASSESSMENT, Some(2));
    var e := StatRow("u", "l", FORMAT_TYPE_ASSESSMENT_EXT, Some(3));
    EqualsIgnoreCaseBasics(FORMAT_TYPE_ASSESSMENT, FORMAT_TYPE_ASSESSMENT);
    EqualsIgnoreCaseBasics(FORMAT_TYPE_ASSESSMENT_EXT, FORMAT_TYPE_ASSESSMENT_EXT);
    assert AssessmentFormat(a.format) && AssessmentFormat(e.format);
    assert [a, e][..1] == [a] && [e, a][..1] == [e];
    assert [a][..0] == [] && [e][..0] == [];
    assert PutAssessments(map[], [a]) == map["l" := 2];
    assert PutAssessments(map[], [e]) == map["l" := 3];
    assert PutAssessments(map[], [a, e]) == PutCount(map["l" := 2], e);
    assert PutAssessments(map[], [e, a]) == PutCount(map["l" := 3], a);
    assert AddAssessments(map[], [a]) == map["l" := 2];
    assert AddAssessments(map[], [a, e]) == AddCount(map["l" := 2], e);
  }

  lemma {:induction false} AddAssessmentsAppend(acc: map<string, int>, a: seq<StatRow>, b: seq<StatRow>)
    ensures AddAssessments(acc, a + b) == AddAssessments(AddAssessments(acc, a), b)
  {
    if |b| == 0 {
      assert a + b == a;
    } else {
      var n := |b| - 1;
      assert (a + b)[..|a + b| - 1] == a + b[..n];
      assert (a + b)[|a + b| - 1] == b[n];
      AddAssessmentsAppend(acc, a, b[..n]);
    }
  }

  /**
   * Summed counts do not depend on the order the groups arrive in:
   * swapping any two neighbouring rows leaves every lesson's count alone.
   */
  lemma SummedCountsIgnoreOrder(p: seq<StatRow>, x: StatRow, y: StatRow, s: seq<StatRow>)
    ensures AssessmentCounts(p + [x, y] + s) == AssessmentCounts(p + [y, x] + s)
  {
    AddAssessmentsAppend(map[], p + [x, y], s);
    AddAssessmentsAppend(map[], p + [y, x], s);
    AddAssessmentsAppend(map[], p, [x, y]);
    AddAssessmentsAppend(map[], p, [y, x]);
    SwapTwo(AddAssessments(map[], p), x, y);
  }

  lemma SwapTwo(q: map<string, int>, x: StatRow, y: StatRow)
    ensures AddAssessments(q, [x, y]) == AddAssessments(q, [y, x])
  {
    assert [x, y][..1] == [x] && [y, x][..1] == [y];
    assert [x][..0] == [] && [y][..0] == [];
    var fx, fy := AssessmentFormat(x.format), AssessmentFormat(y.format);
    var qx := if fx then AddCount(q, x) else q;
    var qy := if fy then AddCount(q, y) else q;
    assert AddAssessments(q, [x]) == qx;
    assert AddAssessments(q, [y]) == qy;
    assert AddAssessments(q, [x, y]) == if fy then AddCount(qx, y) else qx;
    assert AddAssessments(q, [y, x]) == if fx then AddCount(qy, x) else qy;
  }

  /** Every lesson with a summed count has an assessment-side row. */
  lemma {:induction false} CountedLessonsHaveRows(rows: seq<StatRow>)
    ensures forall l :: l in AssessmentCounts(rows) ==>
              exists k :: 0 <= k < |rows| && AssessmentFormat(rows[k].format) && rows[k].lessonId == l
  {
    if |rows| > 0 {
      var n := |rows| - 1;
      CountedLessonsHaveRows(rows[..n]);
      forall l | l in AssessmentCounts(rows)
        ensures exists k :: 0 <= k < |rows| && AssessmentFormat(rows[k].format) && rows[k].lessonId == l
      {
        if l in AssessmentCounts(rows[..n]) {
          var k :| 0 <= k < n && AssessmentFormat(rows[..n][k].format) && rows[..n][k].lessonId == l;
          assert rows[k] == rows[..n][k];
        } else {
          assert AssessmentFormat(rows[n].format) && rows[n].lessonId == l;
        }
      }
    }
  }

  /**
   * The overwrite only matters for a lesson with two assessment-side rows:
   * when no two such rows share a lesson, the counts as written are the
   * summed counts.
   */
  lemma {:induction false} AsWrittenAgreesWithoutSharedLessons(rows: seq<StatRow>)
    requires forall i, j :: 0 <= i < j < |rows| && AssessmentFormat(rows[i].format) && AssessmentFormat(rows[j].format)
                           ==> rows[i].lessonId != rows[j].lessonId
    ensures AssessmentCountsAsWritten(rows) == AssessmentCounts(rows)
  {
    if |rows| > 0 {
      var n := |rows| - 1;
      var prefix := rows[..n];
      assert forall i :: 0 <= i < n ==> prefix[i] == rows[i];
      AsWrittenAgreesWithoutSharedLessons(prefix);
      if AssessmentFormat(rows[n].format) {
        CountedLessonsHaveRows(prefix);
        assert forall k :: 0 <= k < n && AssessmentFormat(prefix[k].format) ==> prefix[k].lessonId != rows[n].lessonId;
      }
    }
  }

  // The statistics document

  function CountAt(counts: map<string, int>, lessonId: string): int
  {
    if lessonId in counts then counts[lessonId] else 0
  }

  /** One lesson's entry: its id and its two counts, 0 where the lesson has none. */
  function LessonValue(lessonId: string, a: map<string, int>, c: map<string, int>): Value
  {
    Obj(map[ID := Str(lessonId), ASSESSMENT_COUNT := Num(CountAt(a, lessonId)), COLLECTION_COUNT := Num(CountAt(c, lessonId))])
  }

  /** The id field of an entry, or null. */
  function IdField(v: Value): Value
  {
    if v.Obj? && ID in v.fields then v.fields[ID] else Null
  }

  /** A lesson array lists each lesson of the set once, in some order, and nothing else. */
  predicate LessonsListed(ls: seq<Value>, lessons: set<string>, a: map<string, int>, c: map<string, int>)
  {
    (forall k :: 0 <= k < |ls| ==> IdField(ls[k]).Str? && IdField(ls[k]).s in lessons && ls[k] == LessonValue(IdField(ls[k]).s, a, c))
    && (forall l :: l in lessons ==> LessonValue(l, a, c) in ls)
    && (forall i, j :: 0 <= i < j < |ls| ==> ls[i] != ls[j])
  }

  /** One entry of a unit array: the unit's id and its lessons listed. */
  predicate UnitEntry(v: Value, unitLessons: map<string, set<string>>, a: map<string, int>, c: map<string, int>)
  {
    IdField(v).Str? && IdField(v).s in unitLessons
    && v.Obj? && v.fields.Keys == {ID, LESSONS} && v.fields[LESSONS].Arr?
    && LessonsListed(v.fields[LESSONS].items, unitLessons[IdField(v).s], a, c)
  }

  /** The ids of the entries of a unit array, in order. */
  function UnitIds(us: seq<Value>): (r: seq<Value>)
    ensures |r| == |us| && forall k :: 0 <= k < |us| ==> r[k] == IdField(us[k])
  {
    if us == [] then [] else UnitIds(us[..|us| - 1]) + [IdField(us[|us| - 1])]
  }

  /** A unit array lists each unit once, each with its lessons listed, and nothing else. */
  predicate UnitsListed(us: seq<Value>, unitLessons: map<string, set<string>>, a: map<string, int>, c: map<string, int>)
  {
    (forall k :: 0 <= k < |us| ==> UnitEntry(us[k], unitLessons, a, c))
    && (forall u :: u in unitLessons ==> Str(u) in UnitIds(us))
    && (forall i, j :: 0 <= i < j < |us| ==> IdField(us[i]) != IdField(us[j]))
  }

  /** The lesson array of one unit, in the set's iteration order. */
  method LessonArray(lessons: set<string>, a: map<string, int>, c: map<string, int>) returns (arr: seq<Value>)
    ensures LessonsListed(arr, lessons, a, c)
  {
    arr := [];
    var todo := lessons;
    while todo != {}
      invariant todo <= lessons
      invariant LessonsListed(arr, lessons - todo, a, c)
      decreases todo
    {
      var l :| l in todo;
      var v := LessonValue(l, a, c);
      assert IdField(v) == Str(l);
      arr := arr + [v];
      todo := todo - {l};
    }
  }

  /** A unit array under construction: the units in done, each once and with its lessons listed. */
  predicate UnitsListedFor(us: seq<Value>, done: set<string>, unitLessons: map<string, set<string>>, a: map<string, int>, c: map<string, int>)
  {
    (forall k :: 0 <= k < |us| ==> UnitEntry(us[k], unitLessons, a, c) && IdField(us[k]).s in done)
    && (forall u :: u in done ==> Str(u) in UnitIds(us))
    && (forall i, j :: 0 <= i < j < |us| ==> IdField(us[i]) != IdField(us[j]))
  }

  /** Appending the entry of a unit not yet listed lists one more unit. */
  lemma UnitStep(us: seq<Value>, done: set<string>, u: string, unit: Value,
                 unitLessons: map<string, set<string>>, a: map<string, int>, c: map<string, int>)
    requires UnitsListedFor(us, done, unitLessons, a, c) && u !in done
    requires UnitEntry(unit, unitLessons, a, c) && IdField(unit) == Str(u)
    ensures UnitsListedFor(us + [unit], done + {u}, unitLessons, a, c)
  {
    var us' := us + [unit];
    assert UnitIds(us') == UnitIds(us) + [Str(u)];
    forall i, j | 0 <= i < j < |us'| ensures IdField(us'[i]) != IdField(us'[j]) {
      if j == |us| {
        assert IdField(us[i]).s in done;
      }
    }
  }

  /** The unit array, in the map's iteration order. */
  method UnitArray(unitLessons: map<string, set<string>>, a: map<string, int>, c: map<string, int>) returns (arr: seq<Value>)
    ensures UnitsListed(arr, unitLessons, a, c)
  {
    arr := [];
    var todo := unitLessons.Keys;
    while todo != {}
      invariant todo <= unitLessons.Keys
      invariant UnitsListedFor(arr, unitLessons.Keys - todo, unitLessons, a, c)
      decreases todo
    {
      var u :| u in todo;
      var lessonArray := LessonArray(unitLessons[u], a, c);
      var unit := Obj(map[ID := Str(u), LESSONS := Arr(lessonArray)]);
      assert IdField(unit) == Str(u);
      UnitStep(arr, unitLessons.Keys - todo, u, unit, unitLessons, a, c);
      assert (unitLessons.Keys - todo) + {u} == unitLessons.Keys - (todo - {u});
      arr := arr + [unit];
      todo := todo - {u};
    }
    assert unitLessons.Keys - todo == unitLessons.Keys;
  }

  /** The document getCourseVisibleStatistics returns for a course and its counted rows. */
  predicate StatisticsDocument(doc: JsonObject, courseId: string, rows: seq<StatRow>)
  {
    doc.Keys == {COURSE} && doc[COURSE].Obj?
    && doc[COURSE].fields.Keys == {ID, UNITS} && doc[COURSE].fields[ID] == Str(courseId)
    && doc[COURSE].fields[UNITS].Arr?
    && UnitsListed(doc[COURSE].fields[UNITS].items, UnitLessons(rows), AssessmentCountsAsWritten(rows), CollectionCounts(rows))
  }

  /**
   * getCourseVisibleStatistics over the rows of the grouped count query:
   * one pass collects each unit's lessons and each lesson's assessment and
   * collection counts, then the course document is built unit by unit.
   */
  method CourseVisibleStatistics(courseId: string, rows: seq<StatRow>) returns (result: JsonObject)
    ensures StatisticsDocument(result, courseId, rows)
  {
    var unitLessonMap: map<string, set<string>> := map[];
    var collectionCountByLesson: map<string, int> := map[];
    var assessmentCountByLesson: map<string, int> := map[];
    var i := 0;
    while i < |rows|
      invariant 0 <= i <= |rows|
      invariant unitLessonMap == UnitLessons(rows[..i])
      invariant assessmentCountByLesson == PutAssessments(map[], rows[..i])
      invariant collectionCountByLesson == CollectionCounts(rows[..i])
    {
      var row := rows[i];
      assert rows[..i + 1][..i] == rows[..i];
      assert UnitLessons(rows[..i + 1]) == AddLesson(unitLessonMap, row);
      if row.unitId in unitLessonMap {
        unitLessonMap := unitLessonMap[row.unitId := unitLessonMap[row.unitId] + {row.lessonId}];
      } else {
        assert {} + {row.lessonId} == {row.lessonId};
        unitLessonMap := unitLessonMap[row.unitId := {row.lessonId}];
      }
      var count := CountOf(row);
      if AssessmentFormat(row.format) {
        assessmentCountByLesson := assessmentCountByLesson[row.lessonId := count];
      } else if CollectionFormat(row.format) {
        collectionCountByLesson := collectionCountByLesson[row.lessonId := count];
      }
      i := i + 1;
    }
    assert rows[..i] == rows;
    var unitArray := UnitArray(unitLessonMap, assessmentCountByLesson, collectionCountByLesson);
    var course := map[ID := Str(courseId), UNITS := Arr(unitArray)];
    result := map[COURSE := Obj(course)];
  }
}
