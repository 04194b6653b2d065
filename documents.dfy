/**
 * Schema-less documents as the handlers see them: Python dicts from field
 * names to values, and `str_id`, which turns a store document into its
 * client-facing form by replacing the internal `_id` with a string `id`.
 */
module Documents {
  import opened Wrappers
  import opened ObjectIds

  /** A clock reading (`datetime`), kept opaque; `text` is its `str` rendering. */
  datatype Timestamp = Timestamp(text: string)

  /** The values a stored document holds. */
  datatype Value =
    | Null
    | Text(s: string)
    | Int(n: int)
    | Id(oid: ObjectId)
    | Time(t: Timestamp)

  type Dict = map<string, Value>

  /** The exception `dict.pop` raises for a missing key. */
  datatype PyError = KeyError(key: string)

  function DecimalDigits(n: nat): (s: string)
    ensures |s| >= 1
    decreases n
  {
    var d := ('0' as int + n % 10) as char;
    if n < 10 then [d] else DecimalDigits(n / 10) + [d]
  }

  /** Python's `str` of a value. */
  function Str(v: Value): string {
    match v
    case Null => "None"
    case Text(s) => s
    case Int(n) => if n < 0 then "-" + DecimalDigits(-n) else DecimalDigits(n)
    case Id(o) => IdString(o)
    case Time(t) => t.text
  }

  /** Python truthiness of an optional dict: None and {} are falsy. */
  predicate Falsy(doc: Option<Dict>) {
    doc.None? || doc.value == map[]
  }

  /**
   * `str_id`: a falsy document comes back as it is; otherwise `_id` is popped
   * (KeyError when it is missing) and `id` is set to its string form.
   */
  function StrId(doc: Option<Dict>): (r: Result<Option<Dict>, PyError>)
    ensures Falsy(doc) ==> r == Success(doc)
    ensures !Falsy(doc) && "_id" !in doc.value ==> r == Failure(KeyError("_id"))
    ensures !Falsy(doc) && "_id" in doc.value ==>
      r.Success? && r.value.Some? &&
      var d := r.value.value;
      && d.Keys == doc.value.Keys - {"_id"} + {"id"}
      && d["id"] == Text(Str(doc.value["_id"]))
      && (forall k | k in doc.value && k != "_id" && k != "id" :: d[k] == doc.value[k])
  {
    if Falsy(doc) then Success(doc)
    else if "_id" !in doc.value then Failure(KeyError("_id"))
    else
      var d := doc.value;
      Success(Some((d - {"_id"})["id" := Text(Str(d["_id"]))]))
  }
}
