/** The optional value used wherever a lookup returns a null pointer or a JSON read throws. */
module Options {
  datatype Option<+T> = None | Some(value: T)
}

/**
 * A small JSON value, standing in for the document type the catalog reads and
 * writes, and the typed extraction (`j.at(key).get<T>()`) the variants use to
 * rebuild a record from a document.
 *
 * Objects are string-keyed maps with unique keys. Extraction is conservative:
 * a string field must hold a string, an integer field an integer, a boolean
 * field a boolean; a floating-point field accepts a number or an integer.
 */
module Json {
  import opened Options

  datatype Json =
    | JNull
    | JBool(b: bool)
    | JInt(i: int)
    | JNumber(r: real)
    | JString(s: string)
    | JArray(items: seq<Json>)
    | JObject(fields: map<string, Json>)

  /** The primitive kind a record field is read as. */
  datatype FieldKind = StringKind | IntKind | NumberKind | BoolKind

  /** A field list: the keys a record reads, in order, with their kinds. */
  type Schema = seq<(string, FieldKind)>

  /** `j.contains(key)`: false for anything but an object. */
  predicate Contains(j: Json, key: string)
  {
    j.JObject? && key in j.fields
  }

  /** `j.at(key)`: fails when `j` is not an object or lacks the key. */
  function At(j: Json, key: string): (r: Option<Json>)
    ensures r.Some? <==> Contains(j, key)
    ensures r.Some? ==> r.value == j.fields[key]
  {
    if Contains(j, key) then Some(j.fields[key]) else None
  }

  /** `j.at(key).get<std::string>()`. */
  function GetString(j: Json, key: string): (r: Option<string>)
    ensures r.Some? <==> Contains(j, key) && j.fields[key].JString?
    ensures r.Some? ==> j.fields[key] == JString(r.value)
  {
    match At(j, key)
    case Some(JString(s)) => Some(s)
    case _ => None
  }

  /** `j.at(key).get<int>()`. */
  function GetInt(j: Json, key: string): (r: Option<int>)
    ensures r.Some? <==> Contains(j, key) && j.fields[key].JInt?
    ensures r.Some? ==> j.fields[key] == JInt(r.value)
  {
    match At(j, key)
    case Some(JInt(i)) => Some(i)
    case _ => None
  }

  /** `j.at(key).get<double>()`: an integer is widened to a number. */
  function GetNumber(j: Json, key: string): (r: Option<real>)
    ensures r.Some? <==> Contains(j, key) && (j.fields[key].JNumber? || j.fields[key].JInt?)
    ensures r.Some? && j.fields[key].JNumber? ==> j.fields[key] == JNumber(r.value)
    ensures r.Some? && j.fields[key].JInt? ==> r.value == j.fields[key].i as real
  {
    match At(j, key)
    case Some(JNumber(x)) => Some(x)
    case Some(JInt(i)) => Some(i as real)
    case _ => None
  }

  /** `j.at(key).get<bool>()`. */
  function GetBool(j: Json, key: string): (r: Option<bool>)
    ensures r.Some? <==> Contains(j, key) && j.fields[key].JBool?
    ensures r.Some? ==> j.fields[key] == JBool(r.value)
  {
    match At(j, key)
    case Some(JBool(b)) => Some(b)
    case _ => None
  }

  /** The key is present and its value can be read as `kind`. */
  predicate HasKind(j: Json, key: string, kind: FieldKind)
  {
    match kind
    case StringKind => GetString(j, key).Some?
    case IntKind => GetInt(j, key).Some?
    case NumberKind => GetNumber(j, key).Some?
    case BoolKind => GetBool(j, key).Some?
  }

  /** Every field of the schema is present with its kind. */
  predicate Conforms(j: Json, schema: Schema)
  {
    forall e :: e in schema ==> HasKind(j, e.0, e.1)
  }

  /** The keys a schema names. */
  function Keys(schema: Schema): (ks: set<string>)
    ensures forall e :: e in schema ==> e.0 in ks
    ensures forall k :: k in ks ==> exists e :: e in schema && e.0 == k
  {
    set e | e in schema :: e.0
  }

  /** Two documents agree on every key of the schema. */
  predicate AgreeOn(j: Json, j': Json, schema: Schema)
  {
    forall e :: e in schema ==> At(j, e.0) == At(j', e.0)
  }
}
