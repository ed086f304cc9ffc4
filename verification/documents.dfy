/**
 * Documents as the store hands them out (maps from field names to values) and
 * `serialize_doc`, which makes them safe to send as JSON.
 */
module Documents {
  import opened Results
  import opened ObjectIds
  import Text

  /** A `datetime`; only its position in time matters to the model. */
  datatype DateTime = DateTime(instant: int)

  /** A calendar `date`. */
  datatype Date = Date(ordinal: int)

  /** The field values documents of this system hold. */
  datatype Value =
    | Null
    | Str(s: string)
    | Int(i: int)
    | Oid(id: ObjectId)
    | Stamp(t: DateTime)
    | Day(d: Date)
    | List(items: seq<Value>)

  type Doc = map<string, Value>

  /**
   * Renderings the handlers take from Python's standard library and does not
   * define itself: `datetime.isoformat()`, and `str()` of the values whose
   * text form is not modelled (datetimes, dates and lists).
   */
  datatype Formats = Formats(isoformat: DateTime -> string, str: Value -> string)

  /** Python truthiness of a value. */
  predicate Truthy(v: Value) {
    match v
    case Null => false
    case Str(s) => |s| > 0
    case Int(i) => i != 0
    case List(items) => |items| > 0
    case _ => true
  }

  /** Python's `str(v)`. */
  function PyStr(v: Value, fmt: Formats): string {
    match v
    case Null => "None"
    case Str(s) => s
    case Int(i) => Text.IntToString(i)
    case Oid(o) => ToString(o)
    case _ => fmt.str(v)
  }

  /** `d.get(k)`: the value under `k`, or `None`. */
  function Get(d: Doc, k: string): Value {
    if k in d then d[k] else Null
  }

  /** The store's equality filter `{k: v}` on a scalar field. */
  predicate Has(d: Doc, k: string, v: Value) {
    k in d && d[k] == v
  }

  /** How `serialize_doc` rewrites one field. */
  function SerializeField(k: string, v: Value, fmt: Formats): Value {
    if k == "_id" && Truthy(v) then Str(PyStr(v, fmt))
    else if v.Stamp? then Str(fmt.isoformat(v.t))
    else v
  }

  /**
   * `serialize_doc`: an empty document is returned as it is; otherwise a truthy
   * `_id` becomes its string form, every datetime becomes its ISO text, and
   * every other field is left alone.
   */
  function Serialize(doc: Doc, fmt: Formats): (r: Doc)
    ensures |doc| == 0 ==> r == doc
    ensures r.Keys == doc.Keys
    ensures "_id" in doc && Truthy(doc["_id"]) ==> r["_id"] == Str(PyStr(doc["_id"], fmt))
    ensures "_id" in doc && !Truthy(doc["_id"]) ==> r["_id"] == doc["_id"]
    ensures forall k :: k in doc && k != "_id" && doc[k].Stamp? ==> r[k] == Str(fmt.isoformat(doc[k].t))
    ensures forall k :: k in doc && k != "_id" && !doc[k].Stamp? ==> r[k] == doc[k]
    ensures forall k :: k in r ==> !r[k].Stamp?
  {
    if |doc| == 0 then doc
    else map k | k in doc :: SerializeField(k, doc[k], fmt)
  }

  /** Serializing a serialized document changes nothing. */
  lemma SerializeIdempotent(doc: Doc, fmt: Formats)
    ensures Serialize(Serialize(doc, fmt), fmt) == Serialize(doc, fmt)
  {
    var once := Serialize(doc, fmt);
    var twice := Serialize(once, fmt);
    forall k | k in once
      ensures twice[k] == once[k]
    {
      if k == "_id" && Truthy(doc[k]) {
        assert once[k] == Str(PyStr(doc[k], fmt));
      }
    }
  }

  /** A stored identifier comes out as a string that parses back to the same identifier. */
  lemma SerializedIdParsesBack(doc: Doc, o: ObjectId, fmt: Formats)
    requires Has(doc, "_id", Oid(o))
    ensures Serialize(doc, fmt)["_id"].Str?
    ensures Parse(Serialize(doc, fmt)["_id"].s) == Some(o)
  {
    ParseToString(o);
  }

  /** `[serialize_doc(x) for x in docs]`. */
  function SerializeAll(docs: seq<Doc>, fmt: Formats): (r: seq<Doc>)
    ensures |r| == |docs|
    ensures forall i :: 0 <= i < |docs| ==> r[i] == Serialize(docs[i], fmt)
  {
    seq(|docs|, i requires 0 <= i < |docs| => Serialize(docs[i], fmt))
  }

  /**
   * `PyObjectId.validate`: accepts an identifier as it is, or a string that
   * is a valid identifier, and rejects everything else with "Invalid ObjectId".
   */
  function ValidateObjectId(v: Value): (r: Result<ObjectId, string>)
    ensures r.Success? <==> v.Oid? || (v.Str? && IsValid(v.s))
    ensures v.Oid? ==> r == Success(v.id)
    ensures r.Success? && v.Str? ==> ToString(r.value) == Text.Lower(v.s)
    ensures r.Failure? ==> r.error == "Invalid ObjectId"
  {
    match v
    case Oid(o) => Success(o)
    case Str(s) =>
      if IsValid(s) then Success(Parse(s).value) else Failure("Invalid ObjectId")
    case _ => Failure("Invalid ObjectId")
  }

  /** The string form of an identifier validates to the identifier itself. */
  lemma ValidateObjectIdOfString(o: ObjectId)
    ensures ValidateObjectId(Str(ToString(o))) == Success(o)
  {
    ParseToString(o);
  }
}
