/** `serializeDoc` / `serializeDocs` of `src/lib/serialize.ts`: making a
    database document safe to hand to the client. Documents are modelled as
    JavaScript values; `String(value)` on a non-string value and
    `Date.prototype.toISOString` are the `toText` and `toIso` parameters, and
    the own enumerable properties of an ObjectId instance are `idProps`. */
module Serialize {
  import opened Strings

  /** The JavaScript values a lean document is made of. */
  datatype Value =
    | Null
    | Undefined
    | Str(s: string)
    | Num(n: int)
    | Bool(b: bool)
    | ObjectId(hex: string)
    | Date(time: int)
    | Arr(items: seq<Value>)
    | Obj(fields: map<string, Value>)

  /** JavaScript truthiness (`!doc` is its negation). */
  predicate Truthy(v: Value) {
    match v
    case Null => false
    case Undefined => false
    case Str(s) => |s| > 0
    case Num(n) => n != 0
    case Bool(b) => b
    case _ => true
  }

  /** `typeof v === "object"`. */
  predicate IsObject(v: Value) {
    v.Null? || v.ObjectId? || v.Date? || v.Arr? || v.Obj?
  }

  /** The keys the serializer rewrites or drops. */
  predicate IsManagedKey(k: string) {
    k == "_id" || k == "createdAt" || k == "updatedAt" || k == "__v"
  }

  /** `{ ...doc }`: the own enumerable properties. A Date has none, an array's
      are its indices written in decimal, an ObjectId's are the library's. */
  function Spread(v: Value, idProps: string -> map<string, Value>): map<string, Value>
    requires IsObject(v) && Truthy(v)
  {
    match v
    case Obj(fields) => fields
    case Date(_) => map[]
    case ObjectId(hex) => idProps(hex)
    case Arr(items) => IndexMap(items)
  }

  /** The array spread: index `i` under the key `NatToDecimal(i)`. */
  function IndexMap(items: seq<Value>): (m: map<string, Value>)
    ensures forall i :: 0 <= i < |items| ==> NatToDecimal(i) in m && m[NatToDecimal(i)] == items[i]
    ensures forall k :: k in m ==> exists i :: 0 <= i < |items| && k == NatToDecimal(i)
  {
    DecimalNamesInjective();
    map i | 0 <= i < |items| :: NatToDecimal(i) := items[i]
  }

  /** Different indices have different decimal names. */
  lemma DecimalNamesInjective()
    ensures forall i: nat, j: nat :: NatToDecimal(i) == NatToDecimal(j) ==> i == j
  {
    forall i: nat, j: nat | NatToDecimal(i) == NatToDecimal(j) ensures i == j {
      DecimalRoundTrip(i);
      DecimalRoundTrip(j);
    }
  }

  /** The rewrites applied to the copy: `_id` to a string, the two timestamps to
      ISO strings, `__v` removed. */
  function Clean(obj: map<string, Value>, toText: Value -> string, toIso: int -> string): (r: map<string, Value>)
    ensures "__v" !in r
    ensures "_id" in r <==> "_id" in obj
    ensures "_id" in obj && obj["_id"].Str? ==> r["_id"] == obj["_id"]
    ensures "_id" in obj && Truthy(obj["_id"]) && !obj["_id"].Str? ==> r["_id"] == Str(toText(obj["_id"]))
    ensures "_id" in obj && !Truthy(obj["_id"]) ==> r["_id"] == obj["_id"]
    ensures forall k :: k == "createdAt" || k == "updatedAt" ==>
              (k in r <==> k in obj)
              && (k in obj && obj[k].Date? ==> r[k] == Str(toIso(obj[k].time)))
              && (k in obj && !obj[k].Date? ==> r[k] == obj[k])
    ensures forall k :: !IsManagedKey(k) ==> (k in r <==> k in obj) && (k in r ==> r[k] == obj[k])
  {
    var withId :=
      if "_id" in obj && Truthy(obj["_id"]) && !obj["_id"].Str? then obj["_id" := Str(toText(obj["_id"]))] else obj;
    var withCreated :=
      if "createdAt" in withId && withId["createdAt"].Date? then withId["createdAt" := Str(toIso(withId["createdAt"].time))] else withId;
    var withUpdated :=
      if "updatedAt" in withCreated && withCreated["updatedAt"].Date? then withCreated["updatedAt" := Str(toIso(withCreated["updatedAt"].time))] else withCreated;
    withUpdated - {"__v"}
  }

  /** `serializeDoc`: falsy values and non-objects come back unchanged; any other
      object becomes a plain object holding its cleaned own properties. */
  function SerializeDoc(doc: Value, toText: Value -> string, toIso: int -> string,
                        idProps: string -> map<string, Value>): (r: Value)
    ensures !Truthy(doc) || !IsObject(doc) ==> r == doc
    ensures Truthy(doc) && IsObject(doc) ==> r.Obj? && "__v" !in r.fields
    ensures doc.Obj? ==> r.Obj? && forall k :: !IsManagedKey(k) ==>
              (k in r.fields <==> k in doc.fields) && (k in r.fields ==> r.fields[k] == doc.fields[k])
  {
    if !Truthy(doc) || !IsObject(doc) then doc
    else Obj(Clean(Spread(doc, idProps), toText, toIso))
  }

  /** Cleaning a cleaned object changes nothing. */
  lemma CleanIdempotent(obj: map<string, Value>, toText: Value -> string, toIso: int -> string)
    ensures Clean(Clean(obj, toText, toIso), toText, toIso) == Clean(obj, toText, toIso)
  {
    var once := Clean(obj, toText, toIso);
    var twice := Clean(once, toText, toIso);
    forall k | k in twice ensures k in once && twice[k] == once[k] {
      if !IsManagedKey(k) {
      } else if k == "_id" {
      } else {
        assert k == "createdAt" || k == "updatedAt";
      }
    }
    assert twice.Keys == once.Keys;
  }

  /** Serializing an already serialized document changes nothing. */
  lemma SerializeIdempotent(doc: Value, toText: Value -> string, toIso: int -> string,
                            idProps: string -> map<string, Value>)
    ensures var once := SerializeDoc(doc, toText, toIso, idProps);
            SerializeDoc(once, toText, toIso, idProps) == once
  {
    if Truthy(doc) && IsObject(doc) {
      CleanIdempotent(Spread(doc, idProps), toText, toIso);
    }
  }

  /** `serializeDocs`: every document serialized, in order. */
  function SerializeDocs(docs: seq<Value>, toText: Value -> string, toIso: int -> string,
                         idProps: string -> map<string, Value>): (r: seq<Value>)
    ensures |r| == |docs|
    ensures forall i :: 0 <= i < |docs| ==> r[i] == SerializeDoc(docs[i], toText, toIso, idProps)
  {
    seq(|docs|, i requires 0 <= i < |docs| => SerializeDoc(docs[i], toText, toIso, idProps))
  }
}
