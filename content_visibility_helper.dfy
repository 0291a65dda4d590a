/**
 * Merging a class's stored content-visibility document with a request
 * that makes more content visible, and checking that the ids in such a
 * request belong to the class's course.
 */
module ContentVisibilityHelper {
  import opened Common
  import opened Json
  import opened Responses
  import AJEntityClass
  import opened Store

  const DECODE_ERROR: string := "io.vertx.core.json.DecodeException"
  const UNIT_INVALID: string := "content.visibility.unit.course.invalid"
  const LESSON_INVALID: string := "content.visibility.lesson.course.invalid"
  const COLLECTION_INVALID: string := "content.visibility.collection.course.invalid"
  const ERROR_FROM_STORE: string := "error.from.store"

  // ---------------------------------------------------------------------------
  // Merging

  /** An entry of the stored document that the merge looks at: a non-empty key with a non-null value. */
  predicate Considered(key: string, v: Value)
  {
    key != "" && !v.Null?
  }

  /**
   * The merged value of one considered stored entry: the stored value when
   * the request has nothing under the key, the request's array followed by
   * the stored array otherwise; a non-array on either side fails its cast.
   */
  function MergedValue(request: JsonObject, key: string, stored: Value): (r: Throws<Value>)
    ensures r.Thrown? ==> r.message == CLASS_CAST
    ensures GetArray(request, key).Absent? ==> r == Normal(stored)
    ensures GetArray(request, key).Found? && stored.Arr? ==> r == Normal(Arr(GetArray(request, key).value + stored.items))
  {
    match GetArray(request, key)
    case Absent => Normal(stored)
    case CastFailure => Thrown(CLASS_CAST)
    case Found(a) => if stored.Arr? then Normal(Arr(a + stored.items)) else Thrown(CLASS_CAST)
  }

  /** Some considered stored entry cannot be merged. */
  predicate MergeFails(request: JsonObject, existing: JsonObject)
  {
    exists k :: k in existing && Considered(k, existing[k]) && MergedValue(request, k, existing[k]).Thrown?
  }

  /** The keys of a merge: the request's, and the considered keys of the stored document. */
  function MergedKeys(request: JsonObject, existing: JsonObject): set<string>
  {
    request.Keys + set k | k in existing && Considered(k, existing[k])
  }

  /** The value under one key of a merge. */
  function MergedAt(request: JsonObject, existing: JsonObject, k: string): Value
    requires k in MergedKeys(request, existing) && !MergeFails(request, existing)
  {
    if k in existing && Considered(k, existing[k]) then MergedValue(request, k, existing[k]).value else request[k]
  }

  /**
   * mergeContentVisibility as a whole: an empty request gives a copy of the
   * stored document (a null one is dereferenced); a null or empty stored
   * document gives the request; otherwise the key-wise merge.
   */
  function MergeSpec(request: JsonObject, existing: Option<JsonObject>): (r: Throws<JsonObject>)
  {
    if |request| == 0 then
      if existing.None? then Thrown(NULL_REFERENCE) else Normal(existing.value)
    else if existing.None? || |existing.value| == 0 then Normal(request)
    else if MergeFails(request, existing.value) then Thrown(CLASS_CAST)
    else Normal(map k | k in MergedKeys(request, existing.value) :: MergedAt(request, existing.value, k))
  }

  /** The copy of the request once the stored entries under `done` are folded into it. */
  ghost function Folded(request: JsonObject, stored: JsonObject, done: set<string>): JsonObject
    requires done <= stored.Keys
    requires forall k :: k in done && Considered(k, stored[k]) ==> MergedValue(request, k, stored[k]).Normal?
  {
    map k | k in request.Keys + (set j | j in done && Considered(j, stored[j])) ::
      if k in done && Considered(k, stored[k]) then MergedValue(request, k, stored[k]).value else request[k]
  }

  /** Folding one more stored entry puts its merged value, or changes nothing when the entry is not considered. */
  lemma FoldStep(request: JsonObject, stored: JsonObject, done: set<string>, key: string)
    requires done <= stored.Keys && key in stored && key !in done
    requires forall k :: k in done + {key} && Considered(k, stored[k]) ==> MergedValue(request, k, stored[k]).Normal?
    ensures Folded(request, stored, done + {key}) ==
              if Considered(key, stored[key]) then Folded(request, stored, done)[key := MergedValue(request, key, stored[key]).value]
              else Folded(request, stored, done)
  {
    var after := Folded(request, stored, done + {key});
    var before := Folded(request, stored, done);
    if Considered(key, stored[key]) {
      assert after.Keys == before.Keys + {key};
    } else {
      assert after.Keys == before.Keys;
    }
  }

  /** A stored key not yet folded still carries the request's own entry. */
  lemma FoldedUntouched(request: JsonObject, stored: JsonObject, done: set<string>, key: string)
    requires done <= stored.Keys && key !in done
    requires forall k :: k in done && Considered(k, stored[k]) ==> MergedValue(request, k, stored[k]).Normal?
    ensures GetArray(Folded(request, stored, done), key) == GetArray(request, key)
  {
    var f := Folded(request, stored, done);
    assert key in f <==> key in request;
    if key in request {
      assert f[key] == request[key];
    }
  }

  /** Once every stored entry is folded in, the copy is the merge. */
  lemma FoldedAll(request: JsonObject, stored: JsonObject)
    requires forall k :: k in stored.Keys && Considered(k, stored[k]) ==> MergedValue(request, k, stored[k]).Normal?
    ensures !MergeFails(request, stored)
    ensures Folded(request, stored, stored.Keys) == map k | k in MergedKeys(request, stored) :: MergedAt(request, stored, k)
  {
    var f := Folded(request, stored, stored.Keys);
    var m := map k | k in MergedKeys(request, stored) :: MergedAt(request, stored, k);
    assert f.Keys == m.Keys;
  }

  /** One turn of the merge loop: the stored entry under `key` folded into the copy. */
  method FoldEntry(request: JsonObject, stored: JsonObject, ghost done: set<string>, result: JsonObject, key: string)
    returns (r: Throws<JsonObject>)
    requires done <= stored.Keys && key in stored && key !in done
    requires forall k :: k in done && Considered(k, stored[k]) ==> MergedValue(request, k, stored[k]).Normal?
    requires result == Folded(request, stored, done)
    ensures r.Thrown? <==> Considered(key, stored[key]) && MergedValue(request, key, stored[key]).Thrown?
    ensures r.Thrown? ==> r.message == CLASS_CAST
    ensures r.Normal? ==> r.value == Folded(request, stored, done + {key})
  {
    var value := stored[key];
    if key != "" && !value.Null? {
      // The request's entry under `key` is still untouched in `result`.
      FoldedUntouched(request, stored, done, key);
      match GetArray(result, key)
      case Absent =>
        r := Normal(result[key := value]);
      case CastFailure =>
        return Thrown(CLASS_CAST);
      case Found(original) =>
        if !value.Arr? {
          return Thrown(CLASS_CAST);
        }
        r := Normal(result[key := Arr(original + value.items)]);
    } else {
      r := Normal(result);
    }
    FoldStep(request, stored, done, key);
  }

  /**
   * mergeContentVisibility: starts from a copy of the request and folds the
   * stored entries into it one by one.
   */
  method MergeContentVisibility(request: JsonObject, existing: Option<JsonObject>) returns (r: Throws<JsonObject>)
    ensures r == MergeSpec(request, existing)
  {
    if |request| == 0 {
      if existing.None? {
        return Thrown(NULL_REFERENCE);
      }
      return Normal(existing.value);
    }
    if existing.None? || |existing.value| == 0 {
      return Normal(request);
    }
    var stored := existing.value;
    var result := request;
    var todo := stored.Keys;
    assert Folded(request, stored, {}) == request;
    while todo != {}
      invariant todo <= stored.Keys
      invariant forall k :: k in stored.Keys - todo && Considered(k, stored[k]) ==> MergedValue(request, k, stored[k]).Normal?
      invariant result == Folded(request, stored, stored.Keys - todo)
      decreases todo
    {
      var key :| key in todo;
      ghost var done := stored.Keys - todo;
      assert done + {key} == stored.Keys - (todo - {key});
      var folded := FoldEntry(request, stored, done, result, key);
      if folded.Thrown? {
        assert MergeFails(request, stored);
        return Thrown(folded.message);
      }
      result := folded.value;
      todo := todo - {key};
    }
    assert stored.Keys - todo == stored.Keys;
    FoldedAll(request, stored);
    return Normal(result);
  }

  /**
   * What the merge keeps: a key only the request has keeps the request's
   * value, a considered key only the stored document has keeps the stored
   * value, and a key both have holds the request's ids followed by the
   * stored ones, so no id of either side is lost.
   */
  lemma MergeKeepsBothSides(request: JsonObject, existing: JsonObject, k: string)
    requires |request| != 0 && |existing| != 0
    requires MergeSpec(request, Some(existing)).Normal?
    ensures var m := MergeSpec(request, Some(existing)).value;
            (k in request && k !in existing ==> k in m && m[k] == request[k])
            && (k !in request && k in existing && Considered(k, existing[k]) ==> k in m && m[k] == existing[k])
            && (k != "" && k in request && request[k].Arr? && k in existing && existing[k].Arr? ==>
                  k in m && m[k] == Arr(request[k].items + existing[k].items))
            && (k in m <==> k in request || (k in existing && Considered(k, existing[k])))
  {
    var m := MergeSpec(request, Some(existing)).value;
    assert m == map k | k in MergedKeys(request, existing) :: MergedAt(request, existing, k);
    if k in MergedKeys(request, existing) {
      assert m[k] == MergedAt(request, existing, k);
    }
  }

  /** The merge fails exactly when a stored entry meets a non-array under the same key. */
  lemma MergeFailsMeaning(request: JsonObject, existing: JsonObject)
    requires |request| != 0 && |existing| != 0
    ensures MergeSpec(request, Some(existing)).Thrown? <==>
              exists k :: k in existing && Considered(k, existing[k]) && k in request && !request[k].Null?
                          && (!request[k].Arr? || !existing[k].Arr?)
  {
    if MergeSpec(request, Some(existing)).Thrown? {
      var k :| k in existing && Considered(k, existing[k]) && MergedValue(request, k, existing[k]).Thrown?;
      assert k in request && !request[k].Null? && (!request[k].Arr? || !existing[k].Arr?);
    } else {
      forall k | k in existing && Considered(k, existing[k]) && k in request && !request[k].Null?
        ensures request[k].Arr? && existing[k].Arr?
      {
        assert MergedValue(request, k, existing[k]).Normal?;
      }
    }
  }

  /** The stored column as a JSON document: absent or null gives none; a non-object fails to decode. */
  function StoredVisibility(row: AJEntityClass.ClassRow): (r: Throws<Option<JsonObject>>)
    ensures r.Normal? && r.value.Some? <==> AJEntityClass.CONTENT_VISIBILITY in row && row[AJEntityClass.CONTENT_VISIBILITY].Obj?
    ensures r.Normal? && r.value.None? <==> AJEntityClass.CONTENT_VISIBILITY !in row || row[AJEntityClass.CONTENT_VISIBILITY].Null?
  {
    if AJEntityClass.CONTENT_VISIBILITY !in row || row[AJEntityClass.CONTENT_VISIBILITY].Null? then Normal(None)
    else if row[AJEntityClass.CONTENT_VISIBILITY].Obj? then Normal(Some(row[AJEntityClass.CONTENT_VISIBILITY].fields))
    else Thrown(DECODE_ERROR)
  }

  /** updateContentVisibility: decode the stored column, then merge the request into it. */
  method UpdateContentVisibility(request: JsonObject, row: AJEntityClass.ClassRow) returns (r: Throws<JsonObject>)
    ensures StoredVisibility(row).Thrown? ==> r == Thrown(DECODE_ERROR)
    ensures StoredVisibility(row).Normal? ==> r == MergeSpec(request, StoredVisibility(row).value)
  {
    var stored := StoredVisibility(row);
    if stored.Thrown? {
      return Thrown(stored.message);
    }
    r := MergeContentVisibility(request, stored.value);
  }

  // ---------------------------------------------------------------------------
  // Existence checks against the course

  /**
   * validateContentCountInCourse: an absent or empty list passes; otherwise
   * the number of matching live rows must equal the list's length.
   */
  predicate CountMatches(contentIds: seq<Value>, count: nat)
  {
    |contentIds| == 0 || count == |contentIds|
  }

  /** The count of the matching rows of one table, for a course id that may be null. */
  function TableCount(db: Db, op: StoreOp, courseId: Option<string>, ids: seq<string>): nat
    requires op in {CountUnits, CountLessons, CountItems}
  {
    if courseId.None? then 0
    else if op == CountUnits then ContentCount(db.units, courseId.value, ids)
    else if op == CountLessons then ContentCount(db.lessons, courseId.value, ids)
    else ItemCount(db.items, courseId.value, ids)
  }

  /** One existence check: a store error is an internal error, a mismatch an invalid request. */
  function ExistenceCheck(db: Db, faults: set<StoreOp>, op: StoreOp, courseId: Option<string>, contentIds: seq<Value>,
                          invalid: string): (r: ExecutionResult)
    requires op in {CountUnits, CountLessons, CountItems}
    ensures r.IsContinue() <==> |contentIds| == 0 || (op !in faults && CountMatches(contentIds, TableCount(db, op, courseId, Strings(contentIds))))
    ensures !r.IsContinue() ==> r.FailedWith(if op in faults then InternalError else InvalidRequest)
  {
    if |contentIds| == 0 then Continue()
    else if op in faults then Fail(InternalError, ERROR_FROM_STORE)
    else if CountMatches(contentIds, TableCount(db, op, courseId, Strings(contentIds))) then Continue()
    else Fail(InvalidRequest, invalid)
  }

  /** A payload list as validateContentCountInCourse sees it: null and missing are empty. */
  function ListOrEmpty(l: Lookup<seq<Value>>): seq<Value>
  {
    if l.Found? then l.value else []
  }

  /**
   * validatePayloadWithDB: units, then lessons, then collections and
   * assessments together; the first failing check answers. Reading a
   * non-array list fails its cast.
   */
  function ValidatePayloadWithDB(payload: JsonObject, courseId: Option<string>, db: Db, faults: set<StoreOp>): (r: Outcome)
  {
    var units := GetArray(payload, AJEntityClass.CV_UNITS);
    if units.CastFailure? then Threw(CLASS_CAST)
    else
      var u := ExistenceCheck(db, faults, CountUnits, courseId, ListOrEmpty(units), UNIT_INVALID);
      if !u.IsContinue() then Returned(u)
      else
        var lessons := GetArray(payload, AJEntityClass.CV_LESSONS);
        if lessons.CastFailure? then Threw(CLASS_CAST)
        else
          var l := ExistenceCheck(db, faults, CountLessons, courseId, ListOrEmpty(lessons), LESSON_INVALID);
          if !l.IsContinue() then Returned(l)
          else
            var collections := GetArray(payload, AJEntityClass.CV_COLLECTIONS);
            var assessments := GetArray(payload, AJEntityClass.CV_ASSESSMENTS);
            if collections.CastFailure? || assessments.CastFailure? then Threw(CLASS_CAST)
            else Returned(ExistenceCheck(db, faults, CountItems, courseId,
                                         ListOrEmpty(collections) + ListOrEmpty(assessments), COLLECTION_INVALID))
  }

  /**
   * A payload whose lists are all arrays, null or missing passes exactly when
   * every list it names is found in full among the course's live units,
   * lessons and items; a missing or null list counts as empty.
   */
  lemma ValidatePayloadWithDBMeaning(payload: JsonObject, courseId: Option<string>, db: Db, faults: set<StoreOp>)
    requires !GetArray(payload, AJEntityClass.CV_UNITS).CastFailure? && !GetArray(payload, AJEntityClass.CV_LESSONS).CastFailure?
    requires !GetArray(payload, AJEntityClass.CV_COLLECTIONS).CastFailure? && !GetArray(payload, AJEntityClass.CV_ASSESSMENTS).CastFailure?
    ensures var units := ListOrEmpty(GetArray(payload, AJEntityClass.CV_UNITS));
            var lessons := ListOrEmpty(GetArray(payload, AJEntityClass.CV_LESSONS));
            var items := ListOrEmpty(GetArray(payload, AJEntityClass.CV_COLLECTIONS)) + ListOrEmpty(GetArray(payload, AJEntityClass.CV_ASSESSMENTS));
            var r := ValidatePayloadWithDB(payload, courseId, db, faults);
            r.Returned? &&
            (r.result.IsContinue() <==>
               (|units| == 0 || (CountUnits !in faults && TableCount(db, CountUnits, courseId, Strings(units)) == |units|))
               && (|lessons| == 0 || (CountLessons !in faults && TableCount(db, CountLessons, courseId, Strings(lessons)) == |lessons|))
               && (|items| == 0 || (CountItems !in faults && TableCount(db, CountItems, courseId, Strings(items)) == |items|)))
  {
  }

  /** The check throws only on a list that is present but not an array. */
  lemma ValidatePayloadWithDBThrowsOnCast(payload: JsonObject, courseId: Option<string>, db: Db, faults: set<StoreOp>)
    ensures ValidatePayloadWithDB(payload, courseId, db, faults).Threw? ==>
              exists k :: k in {AJEntityClass.CV_UNITS, AJEntityClass.CV_LESSONS, AJEntityClass.CV_COLLECTIONS, AJEntityClass.CV_ASSESSMENTS}
                && GetArray(payload, k).CastFailure?
  {
  }

  // ---------------------------------------------------------------------------
  // Duplicated ids never pass

  /** The ids of a table are unique. */
  predicate UniqueIds(rows: seq<Content>)
  {
    forall i, j :: 0 <= i < j < |rows| ==> rows[i].id != rows[j].id
  }

  function IdSet(rows: seq<Content>): set<string>
  {
    set r | r in rows :: r.id
  }

  lemma {:induction false} IdSetSize(rows: seq<Content>)
    requires UniqueIds(rows)
    ensures |IdSet(rows)| == |rows|
  {
    if |rows| > 0 {
      var tail := rows[1..];
      IdSetSize(tail);
      assert IdSet(rows) == {rows[0].id} + IdSet(tail);
      assert rows[0].id !in IdSet(tail);
    }
  }

  lemma {:induction false} FilterKeepsUniqueIds(rows: seq<Content>, p: Content -> bool)
    requires UniqueIds(rows)
    ensures UniqueIds(Filter(rows, p))
  {
    if |rows| > 0 {
      FilterKeepsUniqueIds(rows[1..], p);
      var rest := Filter(rows[1..], p);
      forall j | 0 <= j < |rest| ensures rest[j].id != rows[0].id {
        assert rest[j] in rest;
        var k :| 0 <= k < |rows[1..]| && rows[1..][k] == rest[j];
        assert rows[k + 1] == rest[j];
      }
    }
  }

  lemma {:induction false} DuplicatesShrinkSet(ids: seq<string>)
    requires exists i, j :: 0 <= i < j < |ids| && ids[i] == ids[j]
    ensures |set x | x in ids| < |ids|
  {
    var i, j :| 0 <= i < j < |ids| && ids[i] == ids[j];
    var rest := ids[..j] + ids[j + 1..];
    assert ids == ids[..j] + [ids[j]] + ids[j + 1..];
    assert (set x | x in ids) == (set x | x in rest) by {
      assert ids[j] == rest[i];
    }
    SetOfSeqBound(rest);
  }

  lemma {:induction false} SetOfSeqBound(s: seq<string>)
    ensures |set x | x in s| <= |s|
  {
    if |s| > 0 {
      SetOfSeqBound(s[1..]);
      assert (set x | x in s) == {s[0]} + (set x | x in s[1..]);
    }
  }

  lemma SubsetSize(a: set<string>, b: set<string>)
    requires a <= b
    ensures |a| <= |b|
  {
    assert b == a + (b - a);
  }

  /**
   * validateContentCountInCourse counts the list's length, duplicates
   * included, against distinct rows: a list naming the same unit or lesson
   * twice is refused even when every id it names exists.
   */
  lemma DuplicatedIdsNeverMatch(rows: seq<Content>, courseId: string, ids: seq<string>)
    requires UniqueIds(rows)
    requires exists i, j :: 0 <= i < j < |ids| && ids[i] == ids[j]
    ensures ContentCount(rows, courseId, ids) < |ids|
  {
    var p := (r: Content) => r.courseId == courseId && r.id in ids && !r.isDeleted;
    var matched := Filter(rows, p);
    FilterKeepsUniqueIds(rows, p);
    IdSetSize(matched);
    assert IdSet(matched) <= set x | x in ids by {
      forall r | r in matched ensures r.id in ids {
        assert p(r);
      }
    }
    SubsetSize(IdSet(matched), set x | x in ids);
    DuplicatesShrinkSet(ids);
    assert ContentCount(rows, courseId, ids) == |matched|;
  }
}
