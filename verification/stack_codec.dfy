/** The stack-value codec of the emulator's JSON interface
    (emulator/emulator-extern.cpp): `from_emulator_api` decodes one JSON stack
    entry, failing closed; `StackEntryJsonable` / `StackJsonable` encode entries
    and stacks, never failing, with an unknown entry kind degraded to a sentinel. */
module StackCodec {
  import opened Wrappers
  import opened Cells
  import opened Foreign
  import opened Json

  /** Entry kinds the VM has but the JSON interface does not carry. */
  datatype OpaqueKind = Builder | Continuation | Box | Atom | Object

  /** `vm::StackEntry`. */
  datatype StackEntry =
    | CellEntry(cell: Cell)
    | SliceEntry(slice: CellSlice)
    | IntEntry(n: Int257)
    | TupleEntry(elems: seq<StackEntry>)
    | NullEntry
    | OpaqueEntry(kind: OpaqueKind)

  const UnsupportedTag: string := "UNSUPPORTED STACK ENTRY TYPE"
  const NotObjectError: string := "Stack entry of object type expected"
  const IntParseError: string := "Error parsing string to int256"

  function UnsupportedTypeError(ty: string): string
  {
    "Unsupported type: " + ty
  }

  /** The `type` string each kind of entry is written with. */
  function TagOf(e: StackEntry): string
  {
    match e
    case CellEntry(_) => "cell"
    case SliceEntry(_) => "cell_slice"
    case IntEntry(_) => "number"
    case TupleEntry(_) => "tuple"
    case NullEntry => "null"
    case OpaqueEntry(_) => UnsupportedTag
  }

  /** The `type` strings the decoder accepts. */
  predicate IsKnownTag(ty: string)
  {
    ty == "cell" || ty == "cell_slice" || ty == "number" || ty == "tuple" || ty == "null"
  }

  /** No opaque entry anywhere inside. */
  predicate Supported(e: StackEntry)
  {
    match e
    case OpaqueEntry(_) => false
    case TupleEntry(xs) => AllSupported(xs)
    case _ => true
  }

  predicate AllSupported(xs: seq<StackEntry>)
  {
    forall i :: 0 <= i < |xs| ==> Supported(xs[i])
  }

  /** Every cell inside serialises: the encoder asserts it (`CHECK(boc.is_ok())`). */
  predicate Encodable(codec: Codec, e: StackEntry)
  {
    match e
    case CellEntry(c) => codec.bocSerialize(c).Ok?
    case SliceEntry(s) => codec.bocSerialize(Materialize(s)).Ok?
    case TupleEntry(xs) => forall i :: 0 <= i < |xs| ==> Encodable(codec, xs[i])
    case _ => true
  }

  /** What the codec can carry of an entry: a slice travels as the cell it still shows. */
  function Canonical(e: StackEntry): StackEntry
  {
    match e
    case SliceEntry(s) => SliceEntry(FullSlice(Materialize(s)))
    case TupleEntry(xs) => TupleEntry(CanonicalList(xs))
    case _ => e
  }

  function CanonicalList(xs: seq<StackEntry>): (r: seq<StackEntry>)
    ensures |r| == |xs| && forall i :: 0 <= i < |xs| ==> r[i] == Canonical(xs[i])
  {
    seq(|xs|, i requires 0 <= i < |xs| => Canonical(xs[i]))
  }

  /** No slice inside is a partial window. */
  predicate FullSlicesOnly(e: StackEntry)
  {
    match e
    case SliceEntry(s) => IsFull(s)
    case TupleEntry(xs) => forall i :: 0 <= i < |xs| ==> FullSlicesOnly(xs[i])
    case _ => true
  }

  // ----- decoding -----

  function DecodeCellValue(codec: Codec, fields: seq<(string, Json)>): Result<Cell>
  {
    var v :- GetField(fields, "value", KindString, false);
    CellFromBase64(codec, v.s)
  }

  /** `from_emulator_api`. */
  function Decode(codec: Codec, j: Json): (r: Result<StackEntry>)
    decreases j, 2
    ensures !j.JObject? ==> r == Err(NotObjectError)
    ensures j.JObject? && GetStringField(j.fields, "type", false).Err? ==> r.Err?
    ensures j.JObject? && GetStringField(j.fields, "type", false).Ok? ==>
      r == DecodeTyped(codec, GetStringField(j.fields, "type", false).value, j.fields)
    ensures r.Ok? ==> Supported(r.value) && FullSlicesOnly(r.value)
  {
    if !j.JObject? then Err(NotObjectError)
    else
      var ty :- GetStringField(j.fields, "type", false);
      DecodeTyped(codec, ty, j.fields)
  }

  /** The branch of `from_emulator_api` for an object whose `type` is `ty`. */
  function DecodeTyped(codec: Codec, ty: string, fields: seq<(string, Json)>): (r: Result<StackEntry>)
    decreases JObject(fields), 1
    ensures !IsKnownTag(ty) ==> r == Err(UnsupportedTypeError(ty))
    ensures ty == "null" ==> r == Ok(NullEntry)
    ensures r.Ok? ==> TagOf(r.value) == ty
    ensures r.Ok? ==> Supported(r.value) && FullSlicesOnly(r.value)
  {
    if ty == "cell" then
      var c :- DecodeCellValue(codec, fields);
      Ok(CellEntry(c))
    else if ty == "cell_slice" then
      var c :- DecodeCellValue(codec, fields);
      Ok(SliceEntry(FullSlice(c)))
    else if ty == "number" then
      var v :- GetField(fields, "value", KindString, false);
      match codec.decToInt(v.s)
      case None => Err(IntParseError)
      case Some(n) => Ok(IntEntry(n))
    else if ty == "tuple" then
      var v :- GetField(fields, "value", KindArray, false);
      var xs :- DecodeList(codec, v.elems);
      Ok(TupleEntry(xs))
    else if ty == "null" then
      Ok(NullEntry)
    else
      Err(UnsupportedTypeError(ty))
  }

  /** Element-wise decoding of an array, in order, stopping at the first failure. */
  function DecodeList(codec: Codec, a: seq<Json>): (r: Result<seq<StackEntry>>)
    decreases a, 0
    ensures r.Ok? <==> forall i :: 0 <= i < |a| ==> Decode(codec, a[i]).Ok?
    ensures r.Ok? ==> |r.value| == |a| && forall i :: 0 <= i < |a| ==> Decode(codec, a[i]) == Ok(r.value[i])
    ensures r.Err? ==>
      exists i :: 0 <= i < |a| && Decode(codec, a[i]) == Err(r.error) && (forall k :: 0 <= k < i ==> Decode(codec, a[k]).Ok?)
  {
    if |a| == 0 then Ok([])
    else
      var x :- Decode(codec, a[0]);
      var xs :- DecodeList(codec, a[1..]);
      assert forall i :: 1 <= i < |a| ==> a[i] == a[1..][i - 1];
      Ok([x] + xs)
  }

  // ----- encoding -----

  function Entry(ty: string, value: Json): Json
  {
    JObject([("type", JString(ty)), ("value", value)])
  }

  function CellText(codec: Codec, c: Cell): string
    requires codec.bocSerialize(c).Ok?
  {
    codec.base64Encode(codec.bocSerialize(c).value)
  }

  /** `StackEntryJsonable::store`: total, always an object `{type, value}`. */
  function Encode(codec: Codec, e: StackEntry): (r: Json)
    requires Encodable(codec, e)
    ensures Keys(r) == ["type", "value"]
    ensures Lookup(r, "type") == Some(JString(TagOf(e)))
    ensures Lookup(r, "value") == Some(JNull) <==> e.NullEntry? || e.OpaqueEntry?
  {
    match e
    case CellEntry(c) => Entry("cell", JString(CellText(codec, c)))
    case SliceEntry(s) => Entry("cell_slice", JString(CellText(codec, Materialize(s))))
    case IntEntry(n) => Entry("number", JString(codec.intToDec(n)))
    case TupleEntry(xs) => Entry("tuple", JArray(EncodeList(codec, xs)))
    case NullEntry => Entry("null", JNull)
    case OpaqueEntry(_) => Entry(UnsupportedTag, JNull)
  }

  /** Entry-wise encoding, preserving order. */
  function EncodeList(codec: Codec, xs: seq<StackEntry>): (r: seq<Json>)
    requires forall i :: 0 <= i < |xs| ==> Encodable(codec, xs[i])
    ensures |r| == |xs|
    ensures forall i :: 0 <= i < |xs| ==> r[i] == Encode(codec, xs[i])
  {
    seq(|xs|, i requires 0 <= i < |xs| => Encode(codec, xs[i]))
  }

  /** `StackJsonable::store`: a stack is an array of encoded entries. */
  function EncodeStack(codec: Codec, stack: seq<StackEntry>): (r: Json)
    requires forall i :: 0 <= i < |stack| ==> Encodable(codec, stack[i])
    ensures r.JArray? && |r.elems| == |stack|
    ensures forall i :: 0 <= i < |stack| ==> r.elems[i] == Encode(codec, stack[i])
  {
    JArray(EncodeList(codec, stack))
  }

  // ----- properties -----

  /** A tuple decodes exactly when its `value` is an array whose elements all
      decode; the tuple then has those elements, in order. */
  lemma DecodeTuple(codec: Codec, fields: seq<(string, Json)>)
    requires GetStringField(fields, "type", false) == Ok("tuple")
    ensures Decode(codec, JObject(fields)).Ok? <==>
      GetField(fields, "value", KindArray, false).Ok?
      && forall i :: 0 <= i < |GetField(fields, "value", KindArray, false).value.elems| ==>
           Decode(codec, GetField(fields, "value", KindArray, false).value.elems[i]).Ok?
    ensures Decode(codec, JObject(fields)).Ok? ==>
      var a := GetField(fields, "value", KindArray, false).value.elems;
      var t := Decode(codec, JObject(fields)).value;
      t.TupleEntry? && |t.elems| == |a| && forall i :: 0 <= i < |a| ==> Decode(codec, a[i]) == Ok(t.elems[i])
  {
  }

  /** A cell or a slice needs a string `value` holding base64 of a bag of cells,
      wherever the fields stand and whatever other fields the object has; the
      cell becomes the entry, or the whole-cell slice over it. Each failure is
      the failing step's own error. */
  lemma DecodeCell(codec: Codec, fields: seq<(string, Json)>, ty: string)
    requires ty == "cell" || ty == "cell_slice"
    requires GetStringField(fields, "type", false) == Ok(ty)
    ensures GetField(fields, "value", KindString, false).Err? ==>
      Decode(codec, JObject(fields)) == Err(GetField(fields, "value", KindString, false).error)
    ensures GetField(fields, "value", KindString, false).Ok? ==>
      var cell := CellFromBase64(codec, GetField(fields, "value", KindString, false).value.s);
      && (cell.Err? ==> Decode(codec, JObject(fields)) == Err(cell.error))
      && (cell.Ok? && ty == "cell" ==> Decode(codec, JObject(fields)) == Ok(CellEntry(cell.value)))
      && (cell.Ok? && ty == "cell_slice" ==> Decode(codec, JObject(fields)) == Ok(SliceEntry(FullSlice(cell.value))))
  {
  }

  /** A number needs a string `value` that parses as a 257-bit integer. */
  lemma DecodeNumber(codec: Codec, fields: seq<(string, Json)>)
    requires GetStringField(fields, "type", false) == Ok("number")
    ensures GetField(fields, "value", KindString, false).Err? ==> Decode(codec, JObject(fields)).Err?
    ensures GetField(fields, "value", KindString, false).Ok? ==>
      var text := GetField(fields, "value", KindString, false).value.s;
      Decode(codec, JObject(fields)) ==
        (if codec.decToInt(text).None? then Err(IntParseError) else Ok(IntEntry(codec.decToInt(text).value)))
  {
  }

  /** The two fields of an encoded entry read back as written. */
  lemma EntryFields(ty: string, value: Json)
    ensures GetStringField(Entry(ty, value).fields, "type", false) == Ok(ty)
    ensures GetField(Entry(ty, value).fields, "value", KindOf(value), false) == Ok(value)
  {
    assert FieldIndex(Entry(ty, value).fields, "type") == Some(0);
    assert FieldIndex(Entry(ty, value).fields, "value") == Some(1);
  }

  lemma RoundTripCell(codec: Codec, c: Cell)
    requires Lawful(codec) && codec.bocSerialize(c).Ok?
    ensures DecodeCellValue(codec, Entry("cell", JString(CellText(codec, c))).fields) == Ok(c)
  {
    var boc := codec.bocSerialize(c).value;
    assert codec.base64Decode(codec.base64Encode(boc)) == Ok(boc);
    EntryFields("cell", JString(CellText(codec, c)));
  }

  lemma RoundTripInt(codec: Codec, n: Int257)
    requires Lawful(codec)
    ensures Decode(codec, Encode(codec, IntEntry(n))) == Ok(IntEntry(n))
  {
    var text := codec.intToDec(n);
    assert codec.decToInt(text) == Some(n);
    EntryFields("number", JString(text));
  }

  lemma RoundTripSlice(codec: Codec, s: CellSlice)
    requires Lawful(codec) && codec.bocSerialize(Materialize(s)).Ok?
    ensures Decode(codec, Encode(codec, SliceEntry(s))) == Ok(SliceEntry(FullSlice(Materialize(s))))
  {
    var m := Materialize(s);
    var j := Entry("cell_slice", JString(CellText(codec, m)));
    EntryFields("cell_slice", JString(CellText(codec, m)));
    RoundTripCell(codec, m);
    assert DecodeCellValue(codec, j.fields) == Ok(m) by {
      EntryFields("cell", JString(CellText(codec, m)));
    }
  }

  lemma RoundTripCellEntry(codec: Codec, c: Cell)
    requires Lawful(codec) && codec.bocSerialize(c).Ok?
    ensures Decode(codec, Encode(codec, CellEntry(c))) == Ok(CellEntry(c))
  {
    EntryFields("cell", JString(CellText(codec, c)));
    RoundTripCell(codec, c);
  }

  lemma {:induction false} RoundTripTuple(codec: Codec, xs: seq<StackEntry>)
    requires Lawful(codec) && forall i :: 0 <= i < |xs| ==> Encodable(codec, xs[i])
    ensures Decode(codec, Encode(codec, TupleEntry(xs))) ==
      (if AllSupported(xs) then Ok(TupleEntry(CanonicalList(xs))) else Err(UnsupportedTypeError(UnsupportedTag)))
    decreases xs, 2
  {
    RoundTripList(codec, xs);
    assert Encode(codec, TupleEntry(xs)) == Entry("tuple", JArray(EncodeList(codec, xs)));
    DecodeTupleEntry(codec, EncodeList(codec, xs));
  }

  lemma DecodeTupleEntry(codec: Codec, a: seq<Json>)
    ensures Decode(codec, Entry("tuple", JArray(a))) ==
      (if DecodeList(codec, a).Err? then Err(DecodeList(codec, a).error) else Ok(TupleEntry(DecodeList(codec, a).value)))
  {
    var j := Entry("tuple", JArray(a));
    EntryFields("tuple", JArray(a));
    assert GetField(j.fields, "value", KindArray, false) == Ok(JArray(a));
  }

  /** Decoding the encoding of an entry recovers what the codec carries of it, and
      fails exactly when an opaque entry is inside. */
  lemma {:induction false} RoundTrip(codec: Codec, e: StackEntry)
    requires Lawful(codec) && Encodable(codec, e)
    ensures Decode(codec, Encode(codec, e)) ==
      (if Supported(e) then Ok(Canonical(e)) else Err(UnsupportedTypeError(UnsupportedTag)))
    decreases e, 1
  {
    match e
    case TupleEntry(xs) =>
      RoundTripTuple(codec, xs);
    case CellEntry(c) =>
      RoundTripCellEntry(codec, c);
    case SliceEntry(s) =>
      RoundTripSlice(codec, s);
    case IntEntry(n) =>
      RoundTripInt(codec, n);
    case NullEntry =>
      EntryFields("null", JNull);
    case OpaqueEntry(_) =>
      EntryFields(UnsupportedTag, JNull);
  }

  lemma {:induction false} RoundTripList(codec: Codec, xs: seq<StackEntry>)
    requires Lawful(codec) && forall i :: 0 <= i < |xs| ==> Encodable(codec, xs[i])
    ensures DecodeList(codec, EncodeList(codec, xs)) ==
      (if AllSupported(xs) then Ok(CanonicalList(xs)) else Err(UnsupportedTypeError(UnsupportedTag)))
    decreases xs, 1
  {
    if |xs| > 0 {
      RoundTripListStep(codec, xs);
    }
  }

  /** A whole stack, printed as `StackJsonable::store` prints it, decodes element by
      element back to what the codec carries of it. */
  lemma StackRoundTrip(codec: Codec, stack: seq<StackEntry>)
    requires Lawful(codec) && forall i :: 0 <= i < |stack| ==> Encodable(codec, stack[i])
    ensures EncodeStack(codec, stack).JArray?
    ensures DecodeList(codec, EncodeStack(codec, stack).elems) ==
      (if AllSupported(stack) then Ok(CanonicalList(stack)) else Err(UnsupportedTypeError(UnsupportedTag)))
  {
    RoundTripList(codec, stack);
  }

  /** The first element and the rest of a non-empty list each round-trip, and so
      does the list. */
  lemma {:induction false} RoundTripListStep(codec: Codec, xs: seq<StackEntry>)
    requires Lawful(codec) && |xs| > 0 && forall i :: 0 <= i < |xs| ==> Encodable(codec, xs[i])
    ensures DecodeList(codec, EncodeList(codec, xs)) ==
      (if AllSupported(xs) then Ok(CanonicalList(xs)) else Err(UnsupportedTypeError(UnsupportedTag)))
    decreases xs, 0
  {
    RoundTrip(codec, xs[0]);
    RoundTripList(codec, xs[1..]);
    var a := EncodeList(codec, xs);
    assert a[0] == Encode(codec, xs[0]);
    EncodeListTail(codec, xs);
    DecodeListCons(codec, a);
    AllSupportedCons(xs);
    if !Supported(xs[0]) {
      assert DecodeList(codec, a) == Err(UnsupportedTypeError(UnsupportedTag));
    } else if !AllSupported(xs[1..]) {
      assert DecodeList(codec, a) == Err(UnsupportedTypeError(UnsupportedTag));
    } else {
      assert DecodeList(codec, a) == Ok([Canonical(xs[0])] + CanonicalList(xs[1..]));
      CanonicalListCons(xs);
    }
  }

  lemma EncodeListTail(codec: Codec, xs: seq<StackEntry>)
    requires |xs| > 0 && forall i :: 0 <= i < |xs| ==> Encodable(codec, xs[i])
    ensures EncodeList(codec, xs)[1..] == EncodeList(codec, xs[1..])
  {
    var a := EncodeList(codec, xs);
    var b := EncodeList(codec, xs[1..]);
    forall i | 0 <= i < |b|
      ensures a[1..][i] == b[i]
    {
      assert xs[1..][i] == xs[i + 1];
    }
  }

  lemma CanonicalListCons(xs: seq<StackEntry>)
    requires |xs| > 0
    ensures CanonicalList(xs) == [Canonical(xs[0])] + CanonicalList(xs[1..])
  {
    var r := [Canonical(xs[0])] + CanonicalList(xs[1..]);
    forall i | 0 <= i < |xs|
      ensures CanonicalList(xs)[i] == r[i]
    {
      if i > 0 {
        assert xs[1..][i - 1] == xs[i];
      }
    }
  }

  lemma DecodeListCons(codec: Codec, a: seq<Json>)
    requires |a| > 0
    ensures DecodeList(codec, a) ==
      if Decode(codec, a[0]).Err? then Err(Decode(codec, a[0]).error)
      else if DecodeList(codec, a[1..]).Err? then Err(DecodeList(codec, a[1..]).error)
      else Ok([Decode(codec, a[0]).value] + DecodeList(codec, a[1..]).value)
  {
  }

  lemma AllSupportedCons(xs: seq<StackEntry>)
    requires |xs| > 0
    ensures AllSupported(xs) <==> Supported(xs[0]) && AllSupported(xs[1..])
  {
    assert forall i :: 0 <= i < |xs| - 1 ==> xs[1..][i] == xs[i + 1];
  }

  lemma {:induction false} CanonicalOfFull(e: StackEntry)
    requires FullSlicesOnly(e)
    ensures Canonical(e) == e
  {
    match e
    case SliceEntry(s) =>
      MaterializeFull(s.cell, s);
    case TupleEntry(xs) =>
      forall i | 0 <= i < |xs| {
        CanonicalOfFull(xs[i]);
      }
      assert Canonical(e).elems == xs;
    case _ =>
  }

  /** For entries without opaque parts or partial slices, decode inverts encode exactly. */
  lemma RoundTripExact(codec: Codec, e: StackEntry)
    requires Lawful(codec) && Encodable(codec, e)
    requires Supported(e) && FullSlicesOnly(e)
    ensures Decode(codec, Encode(codec, e)) == Ok(e)
  {
    RoundTrip(codec, e);
    CanonicalOfFull(e);
  }

  /** What the decoder yields, encoded and decoded again, is itself. */
  lemma DecodeEncodeDecode(codec: Codec, j: Json)
    requires Lawful(codec)
    requires Decode(codec, j).Ok? && Encodable(codec, Decode(codec, j).value)
    ensures Decode(codec, Encode(codec, Decode(codec, j).value)) == Decode(codec, j)
  {
    RoundTripExact(codec, Decode(codec, j).value);
  }
}
