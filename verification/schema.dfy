// schema/schema.go: payloads as a sequence of named fields. The data types of the fields are a parameter.
module SchemaCodec {
  import opened Numerals

  type Bytes = seq<bv8>

  /** A field's data type: its size, and its encoding and decoding, each of which may fail. */
  datatype Codec<!V> = Codec(size: int, encode: V -> Option<Bytes>, decode: Bytes -> Option<V>)

  datatype Field<!V> = Field(name: string, codec: Option<Codec<V>>)

  /** The values decoded so far and the bytes they took. */
  datatype Decoding<!V> = Decoding(values: map<string, V>, offset: nat)

  // ---- the codec as functions ------------------------------------------------------

  function DecodeField<V>(field: Field<V>, payload: Bytes, before: Decoding<V>): Option<Decoding<V>>
  {
    if field.codec.None? || field.codec.value.size <= 0 || before.offset + field.codec.value.size > |payload| then None
    else
      match field.codec.value.decode(payload[before.offset..before.offset + field.codec.value.size])
      case None => None
      case Some(value) => Some(Decoding(before.values[field.name := value], before.offset + field.codec.value.size))
  }

  function Decoded<V>(fields: seq<Field<V>>, payload: Bytes): Option<Decoding<V>>
  {
    if fields == [] then Some(Decoding(map[], 0))
    else
      match Decoded(fields[..|fields| - 1], payload)
      case None => None
      case Some(before) => DecodeField(fields[|fields| - 1], payload, before)
  }

  function EncodeField<V>(field: Field<V>, values: map<string, V>): Option<Bytes>
  {
    if field.codec.None? || field.name !in values then None
    else
      match field.codec.value.encode(values[field.name])
      case None => None
      case Some(encoded) =>
        if field.codec.value.size > 0 && |encoded| != field.codec.value.size then None else Some(encoded)
  }

  function Encoded<V>(fields: seq<Field<V>>, values: map<string, V>): Option<Bytes>
  {
    if fields == [] then Some([])
    else
      match Encoded(fields[..|fields| - 1], values)
      case None => None
      case Some(before) =>
        match EncodeField(fields[|fields| - 1], values)
        case None => None
        case Some(encoded) => Some(before + encoded)
  }

  function Width<V>(field: Field<V>): nat
  {
    if field.codec.Some? && field.codec.value.size > 0 then field.codec.value.size else 0
  }

  function SizeOf<V>(fields: seq<Field<V>>): nat
  {
    if fields == [] then 0 else SizeOf(fields[..|fields| - 1]) + Width(fields[|fields| - 1])
  }

  // ---- the loops ------------------------------------------------------------------------

  lemma {:induction false} DecodeFailureSticks<V>(fields: seq<Field<V>>, payload: Bytes, i: nat)
    requires i <= |fields| && Decoded(fields[..i], payload).None?
    ensures Decoded(fields, payload).None?
  {
    hide DecodeField;
    if i == |fields| {
      assert fields[..i] == fields;
    } else {
      var n := |fields| - 1;
      assert fields[..n][..i] == fields[..i];
      DecodeFailureSticks(fields[..n], payload, i);
    }
  }

  lemma {:induction false} EncodeFailureSticks<V>(fields: seq<Field<V>>, values: map<string, V>, i: nat)
    requires i <= |fields| && Encoded(fields[..i], values).None?
    ensures Encoded(fields, values).None?
  {
    hide EncodeField;
    if i == |fields| {
      assert fields[..i] == fields;
    } else {
      var n := |fields| - 1;
      assert fields[..n][..i] == fields[..i];
      EncodeFailureSticks(fields[..n], values, i);
    }
  }

  lemma PrefixStep<V>(fields: seq<Field<V>>, i: nat)
    requires i < |fields|
    ensures |fields[..i + 1]| == i + 1 && fields[..i + 1][..i] == fields[..i] && fields[..i + 1][i] == fields[i]
  {}

  /** Schema.Decode */
  method Decode<V>(fields: seq<Field<V>>, payload: Bytes) returns (r: Option<map<string, V>>)
    ensures r.Some? <==> Decoded(fields, payload).Some?
    ensures r.Some? ==> r.value == Decoded(fields, payload).value.values
  {
    var values: map<string, V> := map[];
    var offset := 0;
    assert fields[..0] == [];
    for i := 0 to |fields|
      invariant 0 <= offset && Decoded(fields[..i], payload) == Some(Decoding(values, offset))
    {
      var field := fields[i];
      PrefixStep(fields, i);
      if field.codec.None? {
        DecodeFailureSticks(fields, payload, i + 1);
        return None;
      }
      var size := field.codec.value.size;
      if size <= 0 {
        DecodeFailureSticks(fields, payload, i + 1);
        return None;
      }
      if offset + size > |payload| {
        DecodeFailureSticks(fields, payload, i + 1);
        return None;
      }
      var value := field.codec.value.decode(payload[offset..offset + size]);
      if value.None? {
        DecodeFailureSticks(fields, payload, i + 1);
        return None;
      }
      values := values[field.name := value.value];
      offset := offset + size;
    }
    assert fields[..|fields|] == fields;
    return Some(values);
  }

  /** Schema.Encode; no values at all are refused unless there are no fields. */
  method Encode<V>(fields: seq<Field<V>>, supplied: Option<map<string, V>>) returns (r: Option<Bytes>)
    ensures r == if fields == [] then Some([])
                 else if supplied.None? then None
                 else Encoded(fields, supplied.value)
  {
    if |fields| == 0 {
      return Some([]);
    }
    if supplied.None? {
      return None;
    }
    var values := supplied.value;
    var payload: Bytes := [];
    assert fields[..0] == [];
    for i := 0 to |fields|
      invariant Encoded(fields[..i], values) == Some(payload)
    {
      var field := fields[i];
      PrefixStep(fields, i);
      if field.codec.None? {
        EncodeFailureSticks(fields, values, i + 1);
        return None;
      }
      if field.name !in values {
        EncodeFailureSticks(fields, values, i + 1);
        return None;
      }
      var encoded := field.codec.value.encode(values[field.name]);
      if encoded.None? {
        EncodeFailureSticks(fields, values, i + 1);
        return None;
      }
      if field.codec.value.size > 0 && |encoded.value| != field.codec.value.size {
        EncodeFailureSticks(fields, values, i + 1);
        return None;
      }
      payload := payload + encoded.value;
    }
    assert fields[..|fields|] == fields;
    return Some(payload);
  }

  /** Schema.Size */
  method Size<V>(fields: seq<Field<V>>) returns (total: nat)
    ensures total == SizeOf(fields)
  {
    total := 0;
    assert fields[..0] == [];
    for i := 0 to |fields|
      invariant total == SizeOf(fields[..i])
    {
      PrefixStep(fields, i);
      if fields[i].codec.Some? {
        var size := fields[i].codec.value.size;
        if size > 0 {
          total := total + size;
        }
      }
    }
    assert fields[..|fields|] == fields;
  }

  // ---- round trips ------------------------------------------------------------------------

  /** What a field's type encodes it decodes again. */
  ghost predicate Lawful<V(!new)>(field: Field<V>)
  {
    field.codec.Some? ==>
      forall v :: field.codec.value.encode(v).Some? ==>
        field.codec.value.decode(field.codec.value.encode(v).value) == Some(v)
  }

  ghost predicate AllLawful<V(!new)>(fields: seq<Field<V>>)
  {
    forall i :: 0 <= i < |fields| ==> Lawful(fields[i])
  }

  ghost predicate AllSized<V>(fields: seq<Field<V>>)
  {
    forall i :: 0 <= i < |fields| ==> fields[i].codec.Some? && fields[i].codec.value.size > 0
  }

  ghost function Names<V>(fields: seq<Field<V>>): set<string>
  {
    set i | 0 <= i < |fields| :: fields[i].name
  }

  lemma NamesStep<V>(fields: seq<Field<V>>)
    requires fields != []
    ensures Names(fields) == Names(fields[..|fields| - 1]) + {fields[|fields| - 1].name}
  {
    var n := |fields| - 1;
    forall name | name in Names(fields) ensures name in Names(fields[..n]) + {fields[n].name} {
      var i :| 0 <= i < |fields| && fields[i].name == name;
      if i < n { assert fields[..n][i].name == name; }
    }
    forall name | name in Names(fields[..n]) ensures name in Names(fields) {
      var i :| 0 <= i < n && fields[..n][i].name == name;
      assert fields[i].name == name;
    }
  }

  lemma SizedStep<V>(fields: seq<Field<V>>)
    requires fields != []
    ensures AllSized(fields) <==>
      AllSized(fields[..|fields| - 1]) && fields[|fields| - 1].codec.Some? && fields[|fields| - 1].codec.value.size > 0
  {
    var n := |fields| - 1;
    assert forall i :: 0 <= i < n ==> fields[..n][i] == fields[i];
  }

  lemma FieldRoundTrips<V(!new)>(field: Field<V>, values: map<string, V>, head: Bytes, tail: Bytes, before: Decoding<V>)
    requires Lawful(field) && EncodeField(field, values).Some? && before.offset == |head|
    ensures var encoded := EncodeField(field, values).value;
      if field.codec.value.size > 0
      then DecodeField(field, head + encoded + tail, before) ==
             Some(Decoding(before.values[field.name := values[field.name]], |head| + |encoded|))
      else DecodeField(field, head + encoded + tail, before) == None
  {
    var encoded := EncodeField(field, values).value;
    assert (head + encoded + tail)[|head|..|head| + |encoded|] == encoded;
  }

  /** An encoded payload, with anything after it, decodes if and only if every field has a positive size; it then
      gives back exactly the values of the schema's names and takes exactly the encoded bytes. */
  lemma {:induction false} RoundTrip<V(!new)>(fields: seq<Field<V>>, values: map<string, V>, tail: Bytes)
    requires AllLawful(fields) && Encoded(fields, values).Some?
    ensures var payload := Encoded(fields, values).value;
      (Decoded(fields, payload + tail).Some? <==> AllSized(fields)) &&
      (AllSized(fields) ==>
         Names(fields) <= values.Keys && |payload| == SizeOf(fields) &&
         Decoded(fields, payload + tail) ==
           Some(Decoding(map name | name in Names(fields) :: values[name], |payload|)))
  {
    hide EncodeField, DecodeField, Lawful, AllSized, Names;
    if fields == [] {
      NothingToDo<V>();
    } else {
      var n := |fields| - 1;
      var head, encoded := Encoded(fields[..n], values).value, EncodeField(fields[n], values).value;
      assert AllLawful(fields[..n]) by { assert forall i :: 0 <= i < n ==> fields[..n][i] == fields[i]; }
      RoundTrip(fields[..n], values, encoded + tail);
      assert head + encoded + tail == head + (encoded + tail);
      NamesStep(fields);
      SizedStep(fields);
      EncodedField(fields[n], values);
      if AllSized(fields[..n]) {
        var before := Decoded(fields[..n], head + (encoded + tail)).value;
        FieldRoundTrips(fields[n], values, head, tail, before);
        if AllSized(fields) {
          assert before.values[fields[n].name := values[fields[n].name]] == map name | name in Names(fields) :: values[name];
        }
      }
    }
  }

  lemma EncodedField<V>(field: Field<V>, values: map<string, V>)
    requires EncodeField(field, values).Some?
    ensures field.codec.Some? && field.name in values
    ensures field.codec.value.size > 0 ==> |EncodeField(field, values).value| == Width(field)
  {}

  lemma NothingToDo<V>()
    ensures AllSized<V>([]) && Names<V>([]) == {}
  {}

  /** Field types that encode whatever they decode, back into the same bytes. */
  ghost predicate Exact<V(!new)>(field: Field<V>)
  {
    field.codec.Some? ==>
      forall b :: |b| == field.codec.value.size && field.codec.value.decode(b).Some? ==>
        field.codec.value.encode(field.codec.value.decode(b).value) == Some(b)
  }

  ghost predicate DistinctNames<V>(fields: seq<Field<V>>)
  {
    forall i, j :: 0 <= i < j < |fields| ==> fields[i].name != fields[j].name
  }

  lemma FieldTakes<V>(field: Field<V>, payload: Bytes, before: Decoding<V>)
    requires DecodeField(field, payload, before).Some?
    ensures var after := DecodeField(field, payload, before).value;
      after.offset == before.offset + Width(field) && after.offset <= |payload| &&
      after.values.Keys == before.values.Keys + {field.name} &&
      forall name :: name in before.values && name != field.name ==> after.values[name] == before.values[name]
  {}

  lemma FieldComesBack<V(!new)>(field: Field<V>, payload: Bytes, before: Decoding<V>, values: map<string, V>)
    requires Exact(field) && DecodeField(field, payload, before).Some?
    requires var after := DecodeField(field, payload, before).value;
      field.name in values && values[field.name] == after.values[field.name]
    ensures before.offset + Width(field) <= |payload|
    ensures EncodeField(field, values) == Some(payload[before.offset..before.offset + Width(field)])
  {}

  /** Under distinct names, decoded values encode back into exactly the bytes they were decoded from. */
  lemma {:induction false} ReverseTrip<V(!new)>(fields: seq<Field<V>>, payload: Bytes, values: map<string, V>)
    requires (forall i :: 0 <= i < |fields| ==> Exact(fields[i])) && DistinctNames(fields) && Decoded(fields, payload).Some?
    requires forall name :: name in Decoded(fields, payload).value.values ==>
      name in values && values[name] == Decoded(fields, payload).value.values[name]
    ensures var d := Decoded(fields, payload).value;
      d.offset == SizeOf(fields) && d.offset <= |payload| && d.values.Keys == Names(fields) &&
      Encoded(fields, values) == Some(payload[..d.offset])
  {
    hide EncodeField, DecodeField, Exact, Names, Width;
    if fields == [] {
      NothingToDo<V>();
    } else {
      var n := |fields| - 1;
      assert forall i :: 0 <= i < n ==> fields[..n][i] == fields[i];
      var before := Decoded(fields[..n], payload).value;
      FieldTakes(fields[n], payload, before);
      NamesStep(fields);
      BeforeOmitsLast(fields, payload);
      ReverseTrip(fields[..n], payload, values);
      FieldComesBack(fields[n], payload, before, values);
      assert payload[..before.offset] + payload[before.offset..before.offset + Width(fields[n])] ==
             payload[..before.offset + Width(fields[n])];
    }
  }

  lemma {:induction false} DecodedNames<V>(fields: seq<Field<V>>, payload: Bytes)
    requires Decoded(fields, payload).Some?
    ensures Decoded(fields, payload).value.values.Keys == Names(fields)
  {
    hide DecodeField, Names;
    if fields == [] {
      NothingToDo<V>();
    } else {
      var n := |fields| - 1;
      DecodedNames(fields[..n], payload);
      NamesStep(fields);
      FieldTakes(fields[n], payload, Decoded(fields[..n], payload).value);
    }
  }

  lemma BeforeOmitsLast<V>(fields: seq<Field<V>>, payload: Bytes)
    requires fields != [] && DistinctNames(fields) && Decoded(fields[..|fields| - 1], payload).Some?
    ensures fields[|fields| - 1].name !in Decoded(fields[..|fields| - 1], payload).value.values
  {
    var n := |fields| - 1;
    DecodedNames(fields[..n], payload);
    assert forall i :: 0 <= i < n ==> fields[..n][i] == fields[i];
  }

  // ---- when the codec succeeds, and field by field what it does -------------------------------

  /** The field has a value of its name that its type encodes, in its size if it has one. */
  ghost predicate Encodes<V>(field: Field<V>, values: map<string, V>)
  {
    field.codec.Some? && field.name in values &&
    var b := field.codec.value.encode(values[field.name]);
    b.Some? && (field.codec.value.size > 0 ==> |b.value| == field.codec.value.size)
  }

  lemma {:induction false} EncodesExactly<V>(fields: seq<Field<V>>, values: map<string, V>)
    ensures Encoded(fields, values).Some? <==> forall i :: 0 <= i < |fields| ==> Encodes(fields[i], values)
  {
    if fields != [] {
      var n := |fields| - 1;
      EncodesExactly(fields[..n], values);
      assert forall i :: 0 <= i < n ==> fields[..n][i] == fields[i];
    }
  }

  /** An encoded payload is the encodings of its fields one after the other. */
  lemma {:induction false} EncodedInOrder<V>(fields: seq<Field<V>>, values: map<string, V>, i: nat)
    requires i < |fields| && Encoded(fields, values).Some?
    ensures Encodes(fields[i], values) && Encoded(fields[..i], values).Some?
    ensures var start, b := |Encoded(fields[..i], values).value|, fields[i].codec.value.encode(values[fields[i].name]).value;
      start + |b| <= |Encoded(fields, values).value| && Encoded(fields, values).value[start..start + |b|] == b
  {
    EncodesExactly(fields, values);
    var n := |fields| - 1;
    if i < n {
      EncodedInOrder(fields[..n], values, i);
      assert fields[..n][..i] == fields[..i] && fields[..n][i] == fields[i];
    }
  }

  /** Where a field lies: behind the sizes of those before it. */
  ghost function Place<V>(fields: seq<Field<V>>, i: nat): nat
    requires i <= |fields|
  {
    SizeOf(fields[..i])
  }

  /** The field has a positive size, lies inside the payload, and its type decodes what lies there. */
  ghost predicate DecodesAt<V>(field: Field<V>, payload: Bytes, place: nat)
  {
    field.codec.Some? && field.codec.value.size > 0 && place + field.codec.value.size <= |payload| &&
    field.codec.value.decode(payload[place..place + field.codec.value.size]).Some?
  }

  lemma DecodeStep<V>(field: Field<V>, payload: Bytes, before: Decoding<V>)
    ensures DecodeField(field, payload, before).Some? <==> DecodesAt(field, payload, before.offset)
    ensures DecodesAt(field, payload, before.offset) ==>
      var c := field.codec.value;
      var value := c.decode(payload[before.offset..before.offset + c.size]).value;
      DecodeField(field, payload, before) == Some(Decoding(before.values[field.name := value], before.offset + Width(field)))
  {}

  ghost predicate AllDecode<V>(fields: seq<Field<V>>, payload: Bytes)
  {
    forall i :: 0 <= i < |fields| ==> DecodesAt(fields[i], payload, Place(fields, i))
  }

  lemma PlaceInPrefix<V>(fields: seq<Field<V>>, i: nat)
    requires i < |fields|
    ensures var front := fields[..|fields| - 1];
      i < |front| ==> front[i] == fields[i] && Place(front, i) == Place(fields, i)
  {
    hide SizeOf;
    if i < |fields| - 1 { assert fields[..|fields| - 1][..i] == fields[..i]; }
  }

  lemma AllDecodeStep<V>(fields: seq<Field<V>>, payload: Bytes)
    requires fields != []
    ensures var n := |fields| - 1;
      AllDecode(fields, payload) <==> AllDecode(fields[..n], payload) && DecodesAt(fields[n], payload, SizeOf(fields[..n]))
  {
    hide SizeOf, DecodesAt;
    var n := |fields| - 1;
    forall i | 0 <= i < n ensures fields[..n][i] == fields[i] && Place(fields[..n], i) == Place(fields, i) {
      PlaceInPrefix(fields, i);
    }
    assert Place(fields, n) == SizeOf(fields[..n]);
  }

  /** Decoding succeeds exactly when every field decodes at its place. */
  lemma {:induction false} DecodesExactly<V>(fields: seq<Field<V>>, payload: Bytes)
    ensures Decoded(fields, payload).Some? <==> AllDecode(fields, payload)
    ensures Decoded(fields, payload).Some? ==> Decoded(fields, payload).value.offset == SizeOf(fields)
  {
    hide DecodeField, DecodesAt, Width, AllDecode;
    if fields == [] {
      NothingDecodes<V>(payload);
    } else {
      var n := |fields| - 1;
      DecodesExactly(fields[..n], payload);
      AllDecodeStep(fields, payload);
      if Decoded(fields[..n], payload).Some? { DecodeStep(fields[n], payload, Decoded(fields[..n], payload).value); }
    }
  }

  lemma NothingDecodes<V>(payload: Bytes)
    ensures AllDecode<V>([], payload)
  {}

  /** A decoded name has the value of the last field of that name, decoded at its place. */
  lemma {:induction false} LastFieldWins<V>(fields: seq<Field<V>>, payload: Bytes, i: nat)
    requires i < |fields| && Decoded(fields, payload).Some?
    requires forall j :: i < j < |fields| ==> fields[j].name != fields[i].name
    ensures DecodesAt(fields[i], payload, Place(fields, i)) && fields[i].name in Decoded(fields, payload).value.values
    ensures var place, c := Place(fields, i), fields[i].codec.value;
      c.decode(payload[place..place + c.size]) == Some(Decoded(fields, payload).value.values[fields[i].name])
  {
    hide DecodeField, SizeOf, Width;
    var n := |fields| - 1;
    DecodesExactly(fields, payload);
    DecodesExactly(fields[..n], payload);
    PlaceInPrefix(fields, i);
    DecodeStep(fields[n], payload, Decoded(fields[..n], payload).value);
    if i < n {
      assert forall j :: i < j < n ==> fields[..n][j] == fields[j];
      LastFieldWins(fields[..n], payload, i);
    }
  }
}
