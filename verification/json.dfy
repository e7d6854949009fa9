/** JSON values as trees, and the field accessors of td's JSON library
    (`get_json_object_field`, `get_json_object_string_field`,
    `get_json_object_bool_field`) that the emulator uses to read requests.
    A number keeps its text, as td's parser does; objects keep their fields
    in order, duplicates included. */
module Json {
  import opened Wrappers

  datatype Json =
    | JNull
    | JBool(b: bool)
    | JNumber(text: string)
    | JString(s: string)
    | JArray(elems: seq<Json>)
    | JObject(fields: seq<(string, Json)>)

  datatype Kind = KindNull | KindBool | KindNumber | KindString | KindArray | KindObject

  function KindOf(j: Json): Kind
  {
    match j
    case JNull => KindNull
    case JBool(_) => KindBool
    case JNumber(_) => KindNumber
    case JString(_) => KindString
    case JArray(_) => KindArray
    case JObject(_) => KindObject
  }

  function KindName(k: Kind): string
  {
    match k
    case KindNull => "Null"
    case KindBool => "Boolean"
    case KindNumber => "Number"
    case KindString => "String"
    case KindArray => "Array"
    case KindObject => "Object"
  }

  /** The position of the first field called `name`: the accessors read the first match. */
  function FieldIndex(fields: seq<(string, Json)>, name: string): (r: Option<nat>)
    ensures r.Some? ==> r.value < |fields| && fields[r.value].0 == name
    ensures r.Some? ==> forall k :: 0 <= k < r.value ==> fields[k].0 != name
    ensures r.None? <==> forall k :: 0 <= k < |fields| ==> fields[k].0 != name
  {
    if |fields| == 0 then None
    else if fields[0].0 == name then Some(0)
    else
      match FieldIndex(fields[1..], name)
      case None => None
      case Some(i) => Some(i + 1)
  }

  /** The first field called `name` is the one read. */
  lemma FirstField(fields: seq<(string, Json)>, name: string, i: nat)
    requires i < |fields| && fields[i].0 == name
    requires forall k :: 0 <= k < i ==> fields[k].0 != name
    ensures FieldIndex(fields, name) == Some(i)
  {
  }

  function MissingField(name: string): string
  {
    "Can't find field \"" + name + "\""
  }

  function WrongKind(name: string, kind: Kind): string
  {
    "Field \"" + name + "\" must be of type " + KindName(kind)
  }

  /** `get_json_object_field(object, name, kind, optional)`: the first field of that
      name, which must be of `kind`; an absent optional field reads as null. */
  function GetField(fields: seq<(string, Json)>, name: string, kind: Kind, optional: bool): (r: Result<Json>)
    ensures r.Ok? <==>
      (FieldIndex(fields, name).Some? && KindOf(fields[FieldIndex(fields, name).value].1) == kind)
      || (FieldIndex(fields, name).None? && optional)
    ensures r.Ok? && FieldIndex(fields, name).Some? ==> r.value == fields[FieldIndex(fields, name).value].1
    ensures r.Ok? && FieldIndex(fields, name).None? ==> r.value == JNull
    ensures r.Ok? && FieldIndex(fields, name).Some? ==> KindOf(r.value) == kind
  {
    match FieldIndex(fields, name)
    case Some(i) =>
      if KindOf(fields[i].1) == kind then Ok(fields[i].1) else Err(WrongKind(name, kind))
    case None =>
      if optional then Ok(JNull) else Err(MissingField(name))
  }

  /** `get_json_object_string_field(object, name, optional)`: an absent optional
      field reads as the empty string. */
  function GetStringField(fields: seq<(string, Json)>, name: string, optional: bool): (r: Result<string>)
    ensures r.Ok? <==>
      (FieldIndex(fields, name).Some? && fields[FieldIndex(fields, name).value].1.JString?)
      || (FieldIndex(fields, name).None? && optional)
    ensures r.Ok? && FieldIndex(fields, name).Some? ==> fields[FieldIndex(fields, name).value].1 == JString(r.value)
    ensures r.Ok? && FieldIndex(fields, name).None? ==> r.value == ""
  {
    match FieldIndex(fields, name)
    case Some(i) =>
      if fields[i].1.JString? then Ok(fields[i].1.s) else Err(WrongKind(name, KindString))
    case None =>
      if optional then Ok("") else Err(MissingField(name))
  }

  /** `get_json_object_bool_field(object, name, false)`: a required boolean. */
  function GetBoolField(fields: seq<(string, Json)>, name: string): (r: Result<bool>)
    ensures r.Ok? <==> FieldIndex(fields, name).Some? && fields[FieldIndex(fields, name).value].1.JBool?
    ensures r.Ok? ==> fields[FieldIndex(fields, name).value].1 == JBool(r.value)
  {
    match FieldIndex(fields, name)
    case Some(i) =>
      if fields[i].1.JBool? then Ok(fields[i].1.b) else Err(WrongKind(name, KindBool))
    case None => Err(MissingField(name))
  }

  /** A field list read back by name: used to state the shape of the responses. */
  function Lookup(j: Json, name: string): Option<Json>
  {
    if !j.JObject? then None
    else
      match FieldIndex(j.fields, name)
      case Some(i) => Some(j.fields[i].1)
      case None => None
  }

  /** The field names of an object, in order. */
  function Keys(j: Json): seq<string>
  {
    if j.JObject? then seq(|j.fields|, i requires 0 <= i < |j.fields| => j.fields[i].0) else []
  }
}
