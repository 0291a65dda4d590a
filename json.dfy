/**
 * JSON values as Vert.x holds them. A JsonObject is a map from keys to
 * values (key order never changes a result in this model); a Java null
 * stored under a key is the value Null.
 */
module Json {
  import opened Common

  datatype Value =
    | Null
    | Bool(b: bool)
    | Num(n: int)
    | Str(s: string)
    | Arr(items: seq<Value>)
    | Obj(fields: map<string, Value>)

  type JsonObject = map<string, Value>

  /**
   * The answer of a typed getter: the key is absent or holds null, the key
   * holds a value of the asked type, or the getter's cast fails
   * (ClassCastException).
   */
  datatype Lookup<T> = Absent | Found(value: T) | CastFailure

  /** JsonObject.getString. */
  function GetString(o: JsonObject, key: string): (r: Lookup<string>)
    ensures r.Found? <==> key in o && o[key].Str?
    ensures r.Found? ==> o[key] == Str(r.value)
    ensures r.Absent? <==> key !in o || o[key].Null?
  {
    if key !in o || o[key].Null? then Absent
    else if o[key].Str? then Found(o[key].s)
    else CastFailure
  }

  /** JsonObject.getJsonArray. */
  function GetArray(o: JsonObject, key: string): (r: Lookup<seq<Value>>)
    ensures r.Found? <==> key in o && o[key].Arr?
    ensures r.Found? ==> o[key] == Arr(r.value)
    ensures r.Absent? <==> key !in o || o[key].Null?
  {
    if key !in o || o[key].Null? then Absent
    else if o[key].Arr? then Found(o[key].items)
    else CastFailure
  }

  /** JsonObject.getJsonObject. */
  function GetObject(o: JsonObject, key: string): (r: Lookup<JsonObject>)
    ensures r.Found? <==> key in o && o[key].Obj?
    ensures r.Found? ==> o[key] == Obj(r.value)
    ensures r.Absent? <==> key !in o || o[key].Null?
  {
    if key !in o || o[key].Null? then Absent
    else if o[key].Obj? then Found(o[key].fields)
    else CastFailure
  }

  /** A getter's answer as a possibly null Java reference, for code that never reaches the cast failure. */
  function OrNull<T>(l: Lookup<T>): Option<T>
  {
    if l.Found? then Some(l.value) else None
  }

  /** The string elements of a JSON array, in order (JsonArray.getList of an id array). */
  function Strings(items: seq<Value>): seq<string>
  {
    if |items| == 0 then []
    else (if items[0].Str? then [items[0].s] else []) + Strings(items[1..])
  }

  /** JSON strings for each element of a list of strings. */
  function StrValues(l: seq<string>): (r: seq<Value>)
    ensures |r| == |l|
    ensures forall i :: 0 <= i < |l| ==> r[i] == Str(l[i])
  {
    seq(|l|, i requires 0 <= i < |l| => Str(l[i]))
  }

  /** A text is among the wrapped values exactly when it is in the list. */
  lemma StrValuesMembership(l: seq<string>)
    ensures forall u :: Str(u) in StrValues(l) <==> u in l
  {
    forall u | Str(u) in StrValues(l) ensures u in l {
      var k :| 0 <= k < |l| && StrValues(l)[k] == Str(u);
    }
    forall u | u in l ensures Str(u) in StrValues(l) {
      var k :| 0 <= k < |l| && l[k] == u;
      assert StrValues(l)[k] == Str(u);
    }
  }

  /**
   * A JsonObject reference whose contents callers can change in place;
   * used where the source mutates an object it was handed.
   */
  class JsonBox {
    var fields: JsonObject

    constructor (init: JsonObject)
      ensures fields == init
    {
      fields := init;
    }

    /** JsonObject.put: adds or overwrites one key. */
    method Put(key: string, v: Value)
      modifies this
      ensures fields == old(fields)[key := v]
    {
      fields := fields[key := v];
    }
  }
}
