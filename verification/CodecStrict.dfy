/** The codec is strict: what decodes is exactly what encoding writes, and only known versions load. */
module CodecStrict {
  import opened Wrappers
  import opened Codec
  import opened CodecLaws

  /** Constructors keep the fields they are given. */
  ghost predicate KeepsFields(lib: Library) {
    forall kind, fields :: lib.construct(kind, fields).Some? ==>
      lib.construct(kind, fields).value == VModel(kind, fields)
  }

  /** Every tagged text is one that showing writes, and every quote states its transport. */
  ghost predicate Written(lib: Library, j: Json)
    decreases j
  {
    match j
    case JList(items) => forall i :: 0 <= i < |items| ==> Written(lib, items[i])
    case JObject(members) =>
      && WrittenHere(lib, members)
      && forall n :: n in members ==> Written(lib, members[n])
    case _ => true
  }

  ghost predicate WrittenHere(lib: Library, members: map<Name, Json>) {
    && (DecimalTag in members && members[DecimalTag].JText? ==>
          forall d :: lib.readDecimal(members[DecimalTag].text) == Some(d) ==>
            lib.showDecimal(d) == members[DecimalTag].text)
    && (DatetimeTag in members && members[DatetimeTag].JText? ==>
          forall t :: lib.readInstant(members[DatetimeTag].text) == Some(t) ==>
            lib.showInstant(t) == members[DatetimeTag].text)
    && (TypeTag in members && members[TypeTag].JText? ==>
          forall k :: lib.readType(members[TypeTag].text) == Some(k) ==>
            && lib.showType(k) == members[TypeTag].text
            && (k == OddsQuote && TRANSPORT in members ==> members[TRANSPORT] != JNull))
  }

  lemma {:induction false} CollectEach(results: seq<Result<Value, CodecError>>)
    requires Collect(results).Ok?
    ensures |Collect(results).value| == |results|
    ensures forall i :: 0 <= i < |results| ==> results[i] == Ok(Collect(results).value[i])
  {
    if |results| > 0 {
      CollectEach(results[..|results| - 1]);
    }
  }

  lemma ModelNotNull(lib: Library, members: map<Name, Json>, decoded: map<FieldName, Result<Value, CodecError>>)
    requires KeepsFields(lib) && TypeTag in members
    ensures DecodeModel(lib, members, decoded) != Ok(VNull)
  {
    hide Schema;
  }

  lemma NullOnly(lib: Library, j: Json)
    requires KeepsFields(lib) && Decode(lib, j) == Ok(VNull)
    ensures j == JNull
  {
    hide DecodeModel, Collect, KeepsFields;
    if j.JObject? && TypeTag in j.members {
      ModelNotNull(lib, j.members, DecodedFields(lib, j.members));
    }
  }

  /** Whatever decodes is the encoding of what it decodes to. */
  lemma {:induction false} DecodedIsEncoded(lib: Library, j: Json, v: Value)
    requires KeepsFields(lib) && Written(lib, j) && Decode(lib, j) == Ok(v)
    ensures Encode(lib, v) == j
    decreases j
  {
    match j {
      case JList(items) => ListIsEncoded(lib, j, v);
      case JObject(members) =>
        if DecimalTag in members || DatetimeTag in members || EnumTag in members {
          ScalarIsEncoded(lib, j, v);
        } else if TupleTag in members {
          TupleIsEncoded(lib, j, v);
        } else {
          ModelIsEncoded(lib, j, v);
        }
      case _ =>
    }
  }

  lemma {:induction false} ListIsEncoded(lib: Library, j: Json, v: Value)
    requires KeepsFields(lib) && j.JList? && Written(lib, j) && Decode(lib, j) == Ok(v)
    ensures Encode(lib, v) == j
    decreases j, 0
  {
    var items := j.items;
    var decoded := seq(|items|, i requires 0 <= i < |items| => Decode(lib, items[i]));
    CollectEach(decoded);
    forall i | 0 <= i < |items|
      ensures Encode(lib, v.items[i]) == items[i]
    {
      DecodedIsEncoded(lib, items[i], v.items[i]);
    }
  }

  lemma ScalarIsEncoded(lib: Library, j: Json, v: Value)
    requires KeepsFields(lib) && j.JObject? && Written(lib, j) && Decode(lib, j) == Ok(v)
    requires DecimalTag in j.members || DatetimeTag in j.members || EnumTag in j.members
    ensures Encode(lib, v) == j
  {
    var members := j.members;
    if DecimalTag in members {
      assert members == map[DecimalTag := members[DecimalTag]];
    } else if DatetimeTag in members {
      assert members == map[DatetimeTag := members[DatetimeTag]];
    } else {
      assert members == map[EnumTag := members[EnumTag], Field(FValue) := members[Field(FValue)]];
    }
  }

  lemma {:induction false} TupleIsEncoded(lib: Library, j: Json, v: Value)
    requires KeepsFields(lib) && j.JObject? && Written(lib, j) && Decode(lib, j) == Ok(v)
    requires DecimalTag !in j.members && DatetimeTag !in j.members && EnumTag !in j.members && TupleTag in j.members
    ensures Encode(lib, v) == j
    decreases j, 0
  {
    var members := j.members;
    var items := members[TupleTag].items;
    assert members[TupleTag] < j && Written(lib, members[TupleTag]);
    var decoded := seq(|items|, i requires 0 <= i < |items| => Decode(lib, items[i]));
    CollectEach(decoded);
    forall i | 0 <= i < |items|
      ensures Encode(lib, v.items[i]) == items[i]
    {
      DecodedIsEncoded(lib, items[i], v.items[i]);
    }
    assert Encode(lib, v).members[TupleTag].items == items;
    assert members == map[TupleTag := JList(items)];
  }

  /** A decoded object with a type tag has exactly the fields of its type. */
  lemma ModelParts(lib: Library, members: map<Name, Json>, v: Value)
    requires KeepsFields(lib) && WrittenHere(lib, members) && TypeTag in members
    requires DecodeModel(lib, members, DecodedFields(lib, members)) == Ok(v)
    ensures v.VModel? && members[TypeTag] == JText(lib.showType(v.kind))
    ensures OnlyFields(members) && FieldsOf(members) == v.fields.Keys == Schema(v.kind)
    ensures forall f :: f in v.fields ==> Field(f) in members && Decode(lib, members[Field(f)]) == Ok(v.fields[f])
  {
    hide Decode, Schema;
    var decoded := DecodedFields(lib, members);
    var fields := map f | f in decoded && decoded[f].Ok? :: decoded[f].value;
    assert decoded.Keys == FieldsOf(members);
    assert fields.Keys == FieldsOf(members);
    if FTransportProviderId in fields && fields[FTransportProviderId] == VNull {
      NullOnly(lib, members[Field(FTransportProviderId)]);
    }
  }

  lemma {:induction false} ModelIsEncoded(lib: Library, j: Json, v: Value)
    requires KeepsFields(lib) && j.JObject? && Written(lib, j) && Decode(lib, j) == Ok(v)
    requires DecimalTag !in j.members && DatetimeTag !in j.members && EnumTag !in j.members && TupleTag !in j.members
    ensures Encode(lib, v) == j
    decreases j, 0
  {
    var members := j.members;
    ModelDecode(lib, members, v);
    ModelParts(lib, members, v);
    forall f | f in v.fields
      ensures Encode(lib, v.fields[f]) == members[Field(f)]
    {
      DecodedIsEncoded(lib, members[Field(f)], v.fields[f]);
    }
    SameMembers(lib, members, v);
  }

  lemma ModelDecode(lib: Library, members: map<Name, Json>, v: Value)
    requires Decode(lib, JObject(members)) == Ok(v)
    requires DecimalTag !in members && DatetimeTag !in members && EnumTag !in members && TupleTag !in members
    ensures TypeTag in members && DecodeModel(lib, members, DecodedFields(lib, members)) == Ok(v)
  {
    hide DecodeModel;
  }

  lemma SameMembers(lib: Library, members: map<Name, Json>, v: Value)
    requires v.VModel? && TypeTag in members && members[TypeTag] == JText(lib.showType(v.kind))
    requires OnlyFields(members) && FieldsOf(members) == v.fields.Keys
    requires forall f :: f in v.fields ==> Field(f) in members && Encode(lib, v.fields[f]) == members[Field(f)]
    ensures Encode(lib, v) == JObject(members)
  {
    var encoded := Encode(lib, VModel(v.kind, v.fields)).members;
    EncodedObject(lib, v.kind, v.fields);
    ModelMembers(lib, v.kind, v.fields);
    forall n
      ensures n in encoded <==> n in members
    {
      if n in members && n.Field? {
        assert n.field in FieldsOf(members);
      }
      if n in encoded && n.Field? {
        assert n.field in FieldsOf(encoded);
      }
    }
    assert encoded == members;
  }

  // ----- Values that cannot be written

  /** A value and everything inside its tuples and models. */
  ghost predicate IsInside(part: Value, v: Value)
    decreases v
  {
    || part == v
    || (v.VTuple? && exists i :: 0 <= i < |v.items| && IsInside(part, v.items[i]))
    || (v.VModel? && exists f :: f in v.fields && IsInside(part, v.fields[f]))
  }

  lemma {:induction false} ListInside(v: Value) returns (part: Value)
    requires !Encodable(v)
    ensures IsInside(part, v) && part.VList?
    decreases v
  {
    part := v;
    if v.VTuple? {
      var i :| 0 <= i < |v.items| && !Encodable(v.items[i]);
      part := ListInside(v.items[i]);
    } else if v.VModel? {
      var f :| f in v.fields && !Encodable(v.fields[f]);
      part := ListInside(v.fields[f]);
    }
  }

  lemma {:induction false} ListFound(v: Value, part: Value)
    requires IsInside(part, v) && part.VList?
    ensures !Encodable(v)
    decreases v
  {
    if part != v {
      if v.VTuple? {
        var i :| 0 <= i < |v.items| && IsInside(part, v.items[i]);
        ListFound(v.items[i], part);
      } else {
        var f :| f in v.fields && IsInside(part, v.fields[f]);
        ListFound(v.fields[f], part);
      }
    }
  }

  /** A value cannot be written exactly when there is a list in it; otherwise its encoding is the payload. */
  lemma DumpsMeans(lib: Library, v: Value)
    ensures Dumps(lib, v).Err? <==> exists part :: IsInside(part, v) && part.VList?
    ensures Dumps(lib, v).Ok? ==>
              Dumps(lib, v).value == JObject(map[SchemaVersion := JInt(3), PayloadKey := Encode(lib, v)])
  {
    hide Encodable, IsInside, Encode;
    if !Encodable(v) {
      var part := ListInside(v);
    }
    if part :| IsInside(part, v) && part.VList? {
      ListFound(v, part);
    }
  }

  // ----- Documents that cannot be migrated

  /** A document and everything inside it. */
  ghost predicate IsPart(part: Json, j: Json)
    decreases j
  {
    || part == j
    || (j.JList? && exists i :: 0 <= i < |j.items| && IsPart(part, j.items[i]))
    || (j.JObject? && exists n :: n in j.members && IsPart(part, j.members[n]))
  }

  /** A quote that states neither its transport nor a provider. */
  predicate LacksProvider(lib: Library, part: Json) {
    && part.JObject? && IsModel(lib, part.members, OddsQuote) && TRANSPORT !in part.members
    && (PROVIDER in part.members ==> part.members[PROVIDER] == JNull)
  }

  lemma {:induction false} Offender(lib: Library, j: Json) returns (part: Json)
    requires Unmigratable(lib, j)
    ensures IsPart(part, j) && LacksProvider(lib, part)
    decreases j
  {
    part := j;
    if j.JList? {
      var i :| 0 <= i < |j.items| && Unmigratable(lib, j.items[i]);
      part := Offender(lib, j.items[i]);
    } else if !LacksProvider(lib, j) {
      var n :| n in j.members && Unmigratable(lib, j.members[n]);
      part := Offender(lib, j.members[n]);
    }
  }

  lemma {:induction false} OffenderFound(lib: Library, j: Json, part: Json)
    requires IsPart(part, j) && LacksProvider(lib, part)
    ensures Unmigratable(lib, j)
    decreases j
  {
    if part != j {
      if j.JList? {
        var i :| 0 <= i < |j.items| && IsPart(part, j.items[i]);
        OffenderFound(lib, j.items[i], part);
      } else {
        var n :| n in j.members && IsPart(part, j.members[n]);
        OffenderFound(lib, j.members[n], part);
      }
    }
  }

  lemma {:induction false} CollectFails(results: seq<Result<Value, CodecError>>)
    ensures Collect(results).Err? ==> Err(Collect(results).error) in results
  {
    if |results| > 0 {
      CollectFails(results[..|results| - 1]);
      assert results == results[..|results| - 1] + [results[|results| - 1]];
    }
  }

  lemma {:induction false} DecodingNeedsNoProvider(lib: Library, j: Json)
    ensures Decode(lib, j) != Err(LegacyQuoteWithoutProvider)
    decreases j
  {
    if j.JList? {
      ItemsNeedNoProvider(lib, j, j.items);
    } else if j.JObject? && TupleTag in j.members && j.members[TupleTag].JList? {
      ItemsNeedNoProvider(lib, j.members[TupleTag], j.members[TupleTag].items);
    }
  }

  lemma {:induction false} ItemsNeedNoProvider(lib: Library, list: Json, items: seq<Json>)
    requires list == JList(items)
    ensures var decoded := Collect(seq(|items|, i requires 0 <= i < |items| => Decode(lib, items[i])));
      decoded != Err(LegacyQuoteWithoutProvider)
    decreases list, 0
  {
    var results := seq(|items|, i requires 0 <= i < |items| => Decode(lib, items[i]));
    CollectFails(results);
    forall i | 0 <= i < |items|
      ensures results[i] != Err(LegacyQuoteWithoutProvider)
    {
      DecodingNeedsNoProvider(lib, items[i]);
    }
  }

  /** A document of the first version is refused for its quotes exactly when one inside it lacks its provider. */
  lemma LegacyRefusedIff(lib: Library, version: Json, payload: Json, expected: ModelType)
    ensures Loads(lib, JObject(map[SchemaVersion := version, PayloadKey := payload]), expected)
            == Err(LegacyQuoteWithoutProvider) <==>
            && version in {JInt(1), JBool(true)}
            && exists part :: IsPart(part, payload) && LacksProvider(lib, part)
  {
    hide Unmigratable, IsPart, LacksProvider, MigrateV1, MigrateV2, Decode;
    DecodingNeedsNoProvider(lib, MigrateV2(lib, MigrateV1(lib, payload)));
    DecodingNeedsNoProvider(lib, MigrateV2(lib, payload));
    DecodingNeedsNoProvider(lib, payload);
    var j := JObject(map[SchemaVersion := version, PayloadKey := payload]);
    assert j.members.Keys == {SchemaVersion, PayloadKey};
    if Unmigratable(lib, payload) {
      var part := Offender(lib, payload);
    }
    if part :| IsPart(part, payload) && LacksProvider(lib, part) {
      OffenderFound(lib, payload, part);
    }
  }

  // ----- Envelopes

  /** The document names version 1, 2 or 3; a true flag counts as 1. */
  predicate KnownVersion(j: Json) { j in {JInt(1), JInt(2), JInt(3), JBool(true)} }

  /** Only a document of a known version with nothing but a payload loads, and as the expected type only. */
  lemma LoadsMeans(lib: Library, j: Json, expected: ModelType)
    ensures var r := Loads(lib, j, expected);
      && (r == Err(BadEnvelope) <== !j.JObject? || j.members.Keys != {SchemaVersion, PayloadKey})
      && (j.JObject? && j.members.Keys == {SchemaVersion, PayloadKey} && !KnownVersion(j.members[SchemaVersion]) ==>
            r == Err(UnsupportedVersion))
      && (r.Ok? ==>
            && j.JObject? && j.members.Keys == {SchemaVersion, PayloadKey} && KnownVersion(j.members[SchemaVersion])
            && r.value.VModel? && r.value.kind == expected)
  {
    hide Decode, MigrateV1, MigrateV2, Unmigratable;
  }

  /** A document of the current version loads only as the value whose encoding it holds. */
  lemma CurrentLoadsStrictly(lib: Library, payload: Json, expected: ModelType)
    requires KeepsFields(lib) && Written(lib, payload)
    ensures var r := Loads(lib, JObject(map[SchemaVersion := JInt(3), PayloadKey := payload]), expected);
      r.Ok? ==> Encode(lib, r.value) == payload
  {
    hide Decode, Encode, Written;
    var j := JObject(map[SchemaVersion := JInt(3), PayloadKey := payload]);
    assert j.members.Keys == {SchemaVersion, PayloadKey};
    if Loads(lib, j, expected).Ok? {
      DecodedIsEncoded(lib, payload, Loads(lib, j, expected).value);
    }
  }
}
