/** The persisted form: BSON documents, their values and the typed getters the
    reading converter uses. */
module Bson {
  import opened Wrappers

  /** A store-assigned identifier, treated as opaque. */
  datatype ObjectId = ObjectId(hex: string)

  /** A document value: any JSON-representable value, plus BSON's ObjectId. */
  datatype Value =
    | Null
    | Bool(boolValue: bool)
    | Int(intValue: int)
    | Double(doubleValue: real)
    | Str(text: string)
    | Oid(oid: ObjectId)
    | Array(elements: seq<Value>)
    | Doc(entries: map<string, Value>)

  /** A flat, single-level mapping from field name to value. */
  type Document = map<string, Value>

  /** A typed getter found a value of another type under `key`
      (a ClassCastException in the source). */
  datatype CastError = CastError(key: string)

  /** `document.getObjectId(key)`: absent or null reads as no value. */
  function GetObjectId(d: Document, key: string): (r: Result<Option<ObjectId>, CastError>)
    ensures r.Err? <==> key in d && !d[key].Null? && !d[key].Oid?
    ensures r == Ok(None) <==> key !in d || d[key].Null?
    ensures key in d && d[key].Oid? ==> r == Ok(Some(d[key].oid))
  {
    if key !in d || d[key].Null? then Ok(None)
    else if d[key].Oid? then Ok(Some(d[key].oid))
    else Err(CastError(key))
  }

  /** `document.getString(key)`. */
  function GetString(d: Document, key: string): (r: Result<Option<string>, CastError>)
    ensures r.Err? <==> key in d && !d[key].Null? && !d[key].Str?
    ensures r == Ok(None) <==> key !in d || d[key].Null?
    ensures key in d && d[key].Str? ==> r == Ok(Some(d[key].text))
  {
    if key !in d || d[key].Null? then Ok(None)
    else if d[key].Str? then Ok(Some(d[key].text))
    else Err(CastError(key))
  }

  /** `document.getDouble(key)`: an Int value is a cast error too. */
  function GetDouble(d: Document, key: string): (r: Result<Option<real>, CastError>)
    ensures r.Err? <==> key in d && !d[key].Null? && !d[key].Double?
    ensures r == Ok(None) <==> key !in d || d[key].Null?
    ensures key in d && d[key].Double? ==> r == Ok(Some(d[key].doubleValue))
  {
    if key !in d || d[key].Null? then Ok(None)
    else if d[key].Double? then Ok(Some(d[key].doubleValue))
    else Err(CastError(key))
  }
}
