/** Encoding loses nothing, and older payloads decode to the values they stood for. */
module CodecLaws {
  import opened Wrappers
  import opened Codec

  /** A value every part of which a constructor has produced. */
  ghost predicate Canonical(lib: Library, v: Value)
    decreases v
  {
    match v
    case VEnum(e, m) => lib.isMember(e, m)
    case VTuple(items) => forall i :: 0 <= i < |items| ==> Canonical(lib, items[i])
    case VList(_) => false
    case VModel(kind, fields) =>
      && fields.Keys == Schema(kind)
      && Make(lib, kind, fields) == Some(v)
      && forall f :: f in fields ==> Canonical(lib, fields[f])
    case _ => true
  }

  lemma {:induction false} CanonicalEncodable(lib: Library, v: Value)
    requires Canonical(lib, v)
    ensures Encodable(v)
    decreases v
  {
    match v {
      case VTuple(items) =>
        forall i | 0 <= i < |items|
          ensures Encodable(items[i])
        {
          CanonicalEncodable(lib, items[i]);
        }
      case VModel(_, fields) =>
        forall f | f in fields
          ensures Encodable(fields[f])
        {
          CanonicalEncodable(lib, fields[f]);
        }
      case _ =>
    }
  }

  // ----- Round trip

  lemma {:induction false} CollectAll(results: seq<Result<Value, CodecError>>, values: seq<Value>)
    requires |results| == |values| && forall i :: 0 <= i < |values| ==> results[i] == Ok(values[i])
    ensures Collect(results) == Ok(values)
  {
    if |results| == 0 {
      assert values == [];
    } else {
      var n := |results| - 1;
      CollectAll(results[..n], values[..n]);
      assert values == values[..n] + [values[n]];
    }
  }

  lemma ModelMembers(lib: Library, kind: ModelType, fields: map<FieldName, Value>)
    ensures var members := Encode(lib, VModel(kind, fields)).members;
      && TypeTag in members && members[TypeTag] == JText(lib.showType(kind))
      && OnlyFields(members) && FieldsOf(members) == fields.Keys
      && (forall f :: f in fields ==> Field(f) in members && members[Field(f)] == Encode(lib, fields[f]))
  {
    var members := Encode(lib, VModel(kind, fields)).members;
    forall f | f in fields
      ensures Field(f) in members && members[Field(f)] == Encode(lib, fields[f])
    {
      assert Field(f) in MemberNames(fields.Keys);
    }
    forall f
      ensures f in FieldsOf(members) <==> f in fields
    {
      if f in FieldsOf(members) {
        assert Field(f) in MemberNames(fields.Keys);
      }
    }
  }

  /** Decoding an encoded canonical value returns it. */
  lemma {:induction false} RoundTrip(lib: Library, v: Value)
    requires Faithful(lib) && Canonical(lib, v)
    ensures Decode(lib, Encode(lib, v)) == Ok(v)
    decreases v
  {
    match v {
      case VTuple(items) => TupleRoundTrip(lib, v);
      case VModel(_, _) => ModelRoundTrip(lib, v);
      case VEnum(_, _) =>
        assert Encode(lib, v).members.Keys == {EnumTag, Field(FValue)};
      case VDecimal(_) =>
        assert Encode(lib, v).members.Keys == {DecimalTag};
      case VDatetime(_) =>
        assert Encode(lib, v).members.Keys == {DatetimeTag};
      case _ =>
    }
  }

  lemma {:induction false} TupleRoundTrip(lib: Library, v: Value)
    requires Faithful(lib) && v.VTuple? && Canonical(lib, v)
    ensures Decode(lib, Encode(lib, v)) == Ok(v)
    decreases v, 0
  {
    var items, members := v.items, Encode(lib, v).members;
    assert members.Keys == {TupleTag};
    var encoded := members[TupleTag].items;
    var decoded := seq(|encoded|, i requires 0 <= i < |encoded| => Decode(lib, encoded[i]));
    forall i | 0 <= i < |items|
      ensures decoded[i] == Ok(items[i])
    {
      RoundTrip(lib, items[i]);
    }
    CollectAll(decoded, items);
  }

  lemma {:induction false} ModelRoundTrip(lib: Library, v: Value)
    requires Faithful(lib) && v.VModel? && Canonical(lib, v)
    ensures Decode(lib, Encode(lib, v)) == Ok(v)
    decreases v, 0
  {
    hide Encode, Decode, DecodeModel, Make, Schema;
    EncodedObject(lib, v.kind, v.fields);
    var fields, members := v.fields, Encode(lib, v).members;
    ModelMembers(lib, v.kind, fields);
    forall f | f in fields
      ensures Decode(lib, members[Field(f)]) == Ok(fields[f])
    {
      RoundTrip(lib, fields[f]);
    }
    ObjectDecodesAsModel(lib, members);
    ModelDecodes(lib, members, v);
  }

  lemma EncodedObject(lib: Library, kind: ModelType, fields: map<FieldName, Value>)
    ensures Encode(lib, VModel(kind, fields)).JObject?
  {
  }

  function DecodedFields(lib: Library, members: map<Name, Json>): map<FieldName, Result<Value, CodecError>> {
    map f | f in FieldsOf(members) :: Decode(lib, members[Field(f)])
  }

  lemma ObjectDecodesAsModel(lib: Library, members: map<Name, Json>)
    requires TypeTag in members && OnlyFields(members)
    ensures Decode(lib, JObject(members)) == DecodeModel(lib, members, DecodedFields(lib, members))
  {
    hide DecodeModel;
  }

  lemma ModelDecodes(lib: Library, members: map<Name, Json>, v: Value)
    requires Faithful(lib) && v.VModel? && v.fields.Keys == Schema(v.kind) && Make(lib, v.kind, v.fields) == Some(v)
    requires TypeTag in members && members[TypeTag] == JText(lib.showType(v.kind))
    requires OnlyFields(members) && FieldsOf(members) == v.fields.Keys
    requires forall f :: f in v.fields ==> Decode(lib, members[Field(f)]) == Ok(v.fields[f])
    ensures DecodeModel(lib, members, DecodedFields(lib, members)) == Ok(v)
  {
    hide Decode, Make, Schema;
    var decoded := DecodedFields(lib, members);
    assert decoded.Keys == v.fields.Keys;
    assert (map f | f in decoded && decoded[f].Ok? :: decoded[f].value) == v.fields;
    assert lib.readType(lib.showType(v.kind)) == Some(v.kind);
  }

  // ----- Migrations

  /** A member that a first-version payload may leave out: a quote's transport that is its provider. */
  predicate TransportOmissible(lib: Library, members: map<Name, Json>, n: Name) {
    && IsModel(lib, members, OddsQuote) && n == TRANSPORT && n in members
    && PROVIDER in members && members[PROVIDER] == members[n] && members[PROVIDER] != JNull
  }

  /** A member that a second-version payload may leave out: a market's set or subject that is null. */
  predicate MarketOmissible(lib: Library, members: map<Name, Json>, n: Name) {
    IsModel(lib, members, Market) && (n == SET_INDEX || n == SUBJECT) && n in members && members[n] == JNull
  }

  predicate MayOmit(lib: Library, version: int, members: map<Name, Json>, n: Name) {
    (version == 1 && TransportOmissible(lib, members, n)) || (version <= 2 && MarketOmissible(lib, members, n))
  }

  /** Quotes name their transport and markets their set and subject, at every depth. */
  ghost predicate Current(lib: Library, j: Json)
    decreases j
  {
    match j
    case JList(items) => forall i :: 0 <= i < |items| ==> Current(lib, items[i])
    case JObject(members) =>
      && (forall n :: n in members ==> Current(lib, members[n]))
      && (IsModel(lib, members, OddsQuote) ==> TRANSPORT in members)
      && (IsModel(lib, members, Market) ==> SET_INDEX in members && SUBJECT in members)
    case _ => true
  }

  /** `old'` is the payload `now` with some omissible members left out, at any depth. */
  ghost predicate Predates(lib: Library, version: int, old': Json, now: Json)
    decreases old'
  {
    match old'
    case JList(items) =>
      now.JList? && |now.items| == |items| && forall i :: 0 <= i < |items| ==>
        Predates(lib, version, items[i], now.items[i])
    case JObject(members) =>
      && now.JObject? && members.Keys <= now.members.Keys
      && (forall n :: n in members ==> Predates(lib, version, members[n], now.members[n]))
      && (forall n :: n in now.members && n !in members ==> MayOmit(lib, version, now.members, n))
    case _ => old' == now
  }

  lemma {:induction false} PredatesItself(lib: Library, version: int, j: Json)
    ensures Predates(lib, version, j, j)
    decreases j
  {
    match j {
      case JList(items) =>
        forall i | 0 <= i < |items|
          ensures Predates(lib, version, items[i], items[i])
        {
          PredatesItself(lib, version, items[i]);
        }
      case JObject(members) =>
        forall n | n in members
          ensures Predates(lib, version, members[n], members[n])
        {
          PredatesItself(lib, version, members[n]);
        }
      case _ =>
    }
  }

  /** The second-version migration restores exactly what was left out, and changes nothing else. */
  lemma {:induction false} MigrateV2Restores(lib: Library, old': Json, now: Json)
    requires Predates(lib, 2, old', now) && Current(lib, now)
    ensures MigrateV2(lib, old') == now
    decreases old'
  {
    match old' {
      case JList(items) =>
        forall i | 0 <= i < |items|
          ensures MigrateV2(lib, items[i]) == now.items[i]
        {
          MigrateV2Restores(lib, items[i], now.items[i]);
        }
        assert MigrateV2(lib, old').items == now.items;
      case JObject(members) =>
        forall n | n in members
          ensures MigrateV2(lib, members[n]) == now.members[n]
        {
          MigrateV2Restores(lib, members[n], now.members[n]);
        }
        MarketRestored(lib, members, map n | n in members :: MigrateV2(lib, members[n]), now.members);
      case _ =>
    }
  }

  lemma MarketRestored(lib: Library, members: map<Name, Json>, migrated: map<Name, Json>, now: map<Name, Json>)
    requires migrated.Keys == members.Keys <= now.Keys
    requires forall n :: n in members ==> migrated[n] == now[n]
    requires forall n :: n in now && n !in members ==> MayOmit(lib, 2, now, n)
    requires IsModel(lib, members, Market) <==> IsModel(lib, now, Market)
    requires IsModel(lib, now, Market) ==> SET_INDEX in now && SUBJECT in now
    ensures WithMarketFields(lib, migrated) == now
  {
    assert TypeTag in now ==> TypeTag in members;
  }

  /** After the first migration only what the second one restores is missing. */
  lemma {:induction false} MigrateV1Restores(lib: Library, old': Json, now: Json)
    requires Predates(lib, 1, old', now) && Current(lib, now)
    requires lib.showType(OddsQuote) != lib.showType(Market)
    ensures Predates(lib, 2, MigrateV1(lib, old'), now)
    ensures !Unmigratable(lib, old')
    decreases old'
  {
    match old' {
      case JList(items) =>
        forall i | 0 <= i < |items|
          ensures Predates(lib, 2, MigrateV1(lib, items[i]), now.items[i]) && !Unmigratable(lib, items[i])
        {
          MigrateV1Restores(lib, items[i], now.items[i]);
        }
      case JObject(members) =>
        forall n | n in members
          ensures Predates(lib, 2, MigrateV1(lib, members[n]), now.members[n]) && !Unmigratable(lib, members[n])
        {
          MigrateV1Restores(lib, members[n], now.members[n]);
        }
        TransportRestored(lib, members, map n | n in members :: MigrateV1(lib, members[n]), now.members);
      case _ =>
    }
  }

  lemma TransportRestored(lib: Library, members: map<Name, Json>, migrated: map<Name, Json>, now: map<Name, Json>)
    requires migrated.Keys == members.Keys <= now.Keys
    requires forall n :: n in members ==> Predates(lib, 2, migrated[n], now[n]) && Predates(lib, 1, members[n], now[n])
    requires forall n :: n in now && n !in members ==> MayOmit(lib, 1, now, n)
    requires IsModel(lib, members, OddsQuote) <==> IsModel(lib, now, OddsQuote)
    requires IsModel(lib, now, OddsQuote) ==> TRANSPORT in now
    requires lib.showType(OddsQuote) != lib.showType(Market)
    ensures Predates(lib, 2, JObject(WithTransport(lib, migrated)), JObject(now))
    ensures IsModel(lib, members, OddsQuote) && TRANSPORT !in members ==>
      PROVIDER in members && members[PROVIDER] != JNull
  {
    assert TypeTag in now ==> TypeTag in members;
    assert TypeTag in members && members[TypeTag].JText? ==> migrated[TypeTag] == now[TypeTag];
    var restored := WithTransport(lib, migrated);
    forall n | n in now && n !in restored
      ensures MayOmit(lib, 2, now, n)
    {
      assert n !in members;
    }
  }

  lemma {:induction false} MigrateV1KeepsCurrent(lib: Library, j: Json)
    requires Current(lib, j)
    ensures MigrateV1(lib, j) == j && !Unmigratable(lib, j)
    decreases j
  {
    match j {
      case JList(items) =>
        forall i | 0 <= i < |items|
          ensures MigrateV1(lib, items[i]) == items[i] && !Unmigratable(lib, items[i])
        {
          MigrateV1KeepsCurrent(lib, items[i]);
        }
        assert MigrateV1(lib, j).items == items;
      case JObject(members) =>
        forall n | n in members
          ensures MigrateV1(lib, members[n]) == members[n] && !Unmigratable(lib, members[n])
        {
          MigrateV1KeepsCurrent(lib, members[n]);
        }
        assert (map n | n in members :: MigrateV1(lib, members[n])) == members;
      case _ =>
    }
  }

  /** Both migrations leave current payloads exactly as they are. */
  lemma MigrationsKeepCurrent(lib: Library, j: Json)
    requires Current(lib, j)
    ensures MigrateV1(lib, j) == j && MigrateV2(lib, j) == j && !Unmigratable(lib, j)
  {
    MigrateV1KeepsCurrent(lib, j);
    PredatesItself(lib, 2, j);
    MigrateV2Restores(lib, j, j);
  }

  /** Every model inside has exactly the fields of its type. */
  ghost predicate Shaped(v: Value)
    decreases v
  {
    match v
    case VTuple(items) => forall i :: 0 <= i < |items| ==> Shaped(items[i])
    case VList(items) => forall i :: 0 <= i < |items| ==> Shaped(items[i])
    case VModel(kind, fields) => fields.Keys == Schema(kind) && forall f :: f in fields ==> Shaped(fields[f])
    case _ => true
  }

  lemma {:induction false} CanonicalShaped(lib: Library, v: Value)
    requires Canonical(lib, v)
    ensures Shaped(v)
    decreases v
  {
    match v {
      case VTuple(items) =>
        forall i | 0 <= i < |items|
          ensures Shaped(items[i])
        {
          CanonicalShaped(lib, items[i]);
        }
      case VModel(_, fields) =>
        forall f | f in fields
          ensures Shaped(fields[f])
        {
          CanonicalShaped(lib, fields[f]);
        }
      case _ =>
    }
  }

  /** What encodes today is a current payload. */
  lemma {:induction false} EncodesCurrent(lib: Library, v: Value)
    requires Faithful(lib) && Shaped(v)
    ensures Current(lib, Encode(lib, v))
    decreases v
  {
    match v {
      case VTuple(items) =>
        forall i | 0 <= i < |items|
          ensures Current(lib, Encode(lib, items[i]))
        {
          EncodesCurrent(lib, items[i]);
        }
        assert Current(lib, Encode(lib, v).members[TupleTag]);
      case VList(items) =>
        forall i | 0 <= i < |items|
          ensures Current(lib, Encode(lib, items[i]))
        {
          EncodesCurrent(lib, items[i]);
        }
      case VModel(kind, fields) =>
        forall f | f in fields
          ensures Current(lib, Encode(lib, fields[f]))
        {
          EncodesCurrent(lib, fields[f]);
        }
        ModelCurrent(lib, kind, fields);
      case _ =>
    }
  }

  lemma ModelCurrent(lib: Library, kind: ModelType, fields: map<FieldName, Value>)
    requires Faithful(lib) && fields.Keys == Schema(kind)
    requires forall f :: f in fields ==> Current(lib, Encode(lib, fields[f]))
    ensures Current(lib, Encode(lib, VModel(kind, fields)))
  {
    hide Encode, Faithful;
    ModelObject(lib, kind, fields);
    var members := Encode(lib, VModel(kind, fields)).members;
    if IsModel(lib, members, OddsQuote) {
      SameTypeText(lib, kind, OddsQuote);
    }
    if IsModel(lib, members, Market) {
      SameTypeText(lib, kind, Market);
    }
    forall n | n in members
      ensures Current(lib, members[n])
    {
      assert n != TypeTag ==> n.Field? && n.field in fields;
    }
  }

  lemma SameTypeText(lib: Library, a: ModelType, b: ModelType)
    requires Faithful(lib) && lib.showType(a) == lib.showType(b)
    ensures a == b
  {
    assert lib.readType(lib.showType(a)) == Some(a) && lib.readType(lib.showType(b)) == Some(b);
  }

  // ----- Loading

  lemma {:induction false} NothingOmitted(lib: Library, old': Json, now: Json)
    requires Predates(lib, 3, old', now)
    ensures old' == now
    decreases old'
  {
    match old' {
      case JList(items) =>
        forall i | 0 <= i < |items|
          ensures items[i] == now.items[i]
        {
          NothingOmitted(lib, items[i], now.items[i]);
        }
        assert items == now.items;
      case JObject(members) =>
        forall n | n in members
          ensures members[n] == now.members[n]
        {
          NothingOmitted(lib, members[n], now.members[n]);
        }
        assert members == now.members;
      case _ =>
    }
  }

  /**
    A payload of any supported version that says what a canonical value says, with newer
    members left out where that version had none, loads as that value.
   */
  lemma LegacyPayloadLoads(lib: Library, version: int, payload: Json, v: Value)
    requires Faithful(lib) && Canonical(lib, v) && v.VModel?
    requires 1 <= version <= CURRENT_VERSION && Predates(lib, version, payload, Encode(lib, v))
    ensures Loads(lib, Envelope(version, payload), v.kind) == Ok(v)
  {
    hide Encode, Decode, MigrateV1, MigrateV2, Unmigratable, Canonical, Predates, Current, Faithful;
    var now := Encode(lib, v);
    CanonicalShaped(lib, v);
    EncodesCurrent(lib, v);
    RoundTrip(lib, v);
    TypesDiffer(lib);
    if version == 1 {
      MigrateV1Restores(lib, payload, now);
      MigrateV2Restores(lib, MigrateV1(lib, payload), now);
    } else if version == 2 {
      MigrateV2Restores(lib, payload, now);
    } else {
      NothingOmitted(lib, payload, now);
    }
    assert Migrated(lib, version, payload) == Ok(now);
    assert Envelope(version, payload).members.Keys == {SchemaVersion, PayloadKey};
  }

  lemma TypesDiffer(lib: Library)
    requires Faithful(lib)
    ensures lib.showType(OddsQuote) != lib.showType(Market)
  {
    assert lib.readType(lib.showType(OddsQuote)) == Some(OddsQuote)
           && lib.readType(lib.showType(Market)) == Some(Market);
  }

  /** Loading what was dumped returns it. */
  lemma DumpsLoads(lib: Library, v: Value)
    requires Faithful(lib) && Canonical(lib, v) && v.VModel?
    ensures Dumps(lib, v).Ok? && Loads(lib, Dumps(lib, v).value, v.kind) == Ok(v)
  {
    CanonicalEncodable(lib, v);
    PredatesItself(lib, 3, Encode(lib, v));
    LegacyPayloadLoads(lib, 3, Encode(lib, v), v);
  }

  // ----- Dropping the newer fields altogether

  /** The value a payload of the version, without the newer fields, stands for. */
  function Legacy(version: int, v: Value): Value
    decreases v
  {
    match v
    case VTuple(items) => VTuple(seq(|items|, i requires 0 <= i < |items| => Legacy(version, items[i])))
    case VList(items) => VList(seq(|items|, i requires 0 <= i < |items| => Legacy(version, items[i])))
    case VModel(kind, fields) =>
      VModel(kind, map f | f in fields ::
                     if version == 1 && kind == OddsQuote && f == FTransportProviderId && FProviderId in fields
                       then Legacy(version, fields[FProviderId])
                     else if version <= 2 && kind == Market && (f == FSetIndex || f == FSubjectParticipantId) then VNull
                     else Legacy(version, fields[f]))
    case _ => v
  }

  /** What becomes of each field. */
  ghost predicate LegacyOf(version: int, kind: ModelType, fields: map<FieldName, Value>,
                           legacy: map<FieldName, Value>) {
    && legacy.Keys == fields.Keys
    && forall f :: f in fields ==>
         legacy[f] == if version == 1 && kind == OddsQuote && f == FTransportProviderId && FProviderId in fields
           then Legacy(version, fields[FProviderId])
                      else if version <= 2 && kind == Market && (f == FSetIndex || f == FSubjectParticipantId)
                        then VNull
                      else Legacy(version, fields[f])
  }

  lemma LegacyModel(version: int, kind: ModelType, fields: map<FieldName, Value>)
    ensures Legacy(version, VModel(kind, fields)).VModel? && Legacy(version, VModel(kind, fields)).kind == kind
    ensures LegacyOf(version, kind, fields, Legacy(version, VModel(kind, fields)).fields)
    ensures Legacy(version, VModel(kind, fields)).fields.Keys == fields.Keys
  {
  }

  predicate IsNewer(lib: Library, version: int, members: map<Name, Json>, n: Name) {
    || (version == 1 && IsModel(lib, members, OddsQuote) && n == TRANSPORT)
    || (version <= 2 && IsModel(lib, members, Market) && (n == SET_INDEX || n == SUBJECT))
  }

  /** Leaves out every field newer than the version, at every depth. */
  function DropNewer(lib: Library, version: int, j: Json): Json
    decreases j
  {
    match j
    case JList(items) => JList(seq(|items|, i requires 0 <= i < |items| => DropNewer(lib, version, items[i])))
    case JObject(members) => JObject(map n | n in members && !IsNewer(lib, version, members, n) ::
      DropNewer(lib, version, members[n]))
    case _ => j
  }

  /** Every quote inside names its provider. */
  ghost predicate ProvidersNamed(v: Value)
    decreases v
  {
    match v
    case VTuple(items) => forall i :: 0 <= i < |items| ==> ProvidersNamed(items[i])
    case VList(items) => forall i :: 0 <= i < |items| ==> ProvidersNamed(items[i])
    case VModel(kind, fields) =>
      && (kind == OddsQuote ==> FProviderId in fields && fields[FProviderId] != VNull)
      && forall f :: f in fields ==> ProvidersNamed(fields[f])
    case _ => true
  }

  lemma LegacyKeepsNull(lib: Library, version: int, v: Value)
    ensures Encode(lib, Legacy(version, v)) == JNull <==> v == VNull
  {
  }

  /** What is left is a payload of that version of the legacy value. */
  lemma {:induction false} DroppedPredates(lib: Library, version: int, v: Value)
    requires Faithful(lib) && Shaped(v) && (version == 1 ==> ProvidersNamed(v))
    ensures Predates(lib, version, DropNewer(lib, version, Encode(lib, v)), Encode(lib, Legacy(version, v)))
    decreases v
  {
    hide Predates, DropNewer, Encode, Legacy;
    match v {
      case VTuple(items) =>
        forall i | 0 <= i < |items|
          ensures Predates(lib, version, DropNewer(lib, version, Encode(lib, items[i])),
                           Encode(lib, Legacy(version, items[i])))
        {
          DroppedPredates(lib, version, items[i]);
        }
        TupleDropped(lib, version, items);
      case VList(items) =>
        forall i | 0 <= i < |items|
          ensures Predates(lib, version, DropNewer(lib, version, Encode(lib, items[i])),
                           Encode(lib, Legacy(version, items[i])))
        {
          DroppedPredates(lib, version, items[i]);
        }
        ListDropped(lib, version, items);
      case VModel(kind, fields) =>
        forall f | f in fields
          ensures Predates(lib, version, DropNewer(lib, version, Encode(lib, fields[f])),
                           Encode(lib, Legacy(version, fields[f])))
        {
          DroppedPredates(lib, version, fields[f]);
        }
        ModelDropped(lib, version, kind, fields);
      case _ =>
        ScalarDropped(lib, version, v);
    }
  }

  lemma ScalarDropped(lib: Library, version: int, v: Value)
    requires !v.VTuple? && !v.VList? && !v.VModel?
    ensures Predates(lib, version, DropNewer(lib, version, Encode(lib, v)), Encode(lib, Legacy(version, v)))
  {
  }

  lemma ListDropped(lib: Library, version: int, items: seq<Value>)
    requires forall i :: 0 <= i < |items| ==> Predates(lib, version, DropNewer(lib, version, Encode(lib, items[i])),
                                                       Encode(lib, Legacy(version, items[i])))
    ensures Predates(lib, version, DropNewer(lib, version, Encode(lib, VList(items))),
                     Encode(lib, Legacy(version, VList(items))))
  {
  }

  lemma TupleDropped(lib: Library, version: int, items: seq<Value>)
    requires forall i :: 0 <= i < |items| ==> Predates(lib, version, DropNewer(lib, version, Encode(lib, items[i])),
                                                       Encode(lib, Legacy(version, items[i])))
    ensures Predates(lib, version, DropNewer(lib, version, Encode(lib, VTuple(items))),
                     Encode(lib, Legacy(version, VTuple(items))))
  {
    var dropped, now := DropNewer(lib, version, Encode(lib, VTuple(items))),
      Encode(lib, Legacy(version, VTuple(items)));
    assert dropped.members[TupleTag] == DropNewer(lib, version, Encode(lib, VList(items)));
    assert now.members[TupleTag] == Encode(lib, Legacy(version, VList(items)));
    assert Predates(lib, version, dropped.members[TupleTag], now.members[TupleTag]);
  }

  lemma ModelDropped(lib: Library, version: int, kind: ModelType, fields: map<FieldName, Value>)
    requires Faithful(lib) && fields.Keys == Schema(kind)
    requires version == 1 && kind == OddsQuote ==> fields[FProviderId] != VNull
    requires forall f :: f in fields ==> Predates(lib, version, DropNewer(lib, version, Encode(lib, fields[f])),
                                                  Encode(lib, Legacy(version, fields[f])))
    ensures var v := VModel(kind, fields); Predates(lib, version, DropNewer(lib, version, Encode(lib, v)),
                                                    Encode(lib, Legacy(version, v)))
  {
    assert HasNewer(version, kind, fields);
    hide Encode, DropNewer, Predates, Schema, Legacy, LegacyOf, HasNewer, ObjectOf, Faithful;
    var v := VModel(kind, fields);
    LegacyModel(version, kind, fields);
    var legacy := Legacy(version, v).fields;
    assert Legacy(version, v) == VModel(kind, legacy);
    ModelObject(lib, kind, fields);
    ModelObject(lib, kind, legacy);
    DroppedMembers(lib, version, Encode(lib, v), kind);
    LegacyMembers(lib, version, kind, fields, legacy, Encode(lib, v).members, Encode(lib, Legacy(version, v)).members,
                  DropNewer(lib, version, Encode(lib, v)).members);
  }

  /** The newer fields of quotes and markets are there, and a quote has a provider. */
  predicate HasNewer(version: int, kind: ModelType, fields: map<FieldName, Value>) {
    && (kind == OddsQuote ==> FTransportProviderId in fields && FProviderId in fields
                              && (version == 1 ==> fields[FProviderId] != VNull))
    && (kind == Market ==> FSetIndex in fields && FSubjectParticipantId in fields)
  }

  lemma DroppedMembers(lib: Library, version: int, j: Json, kind: ModelType)
    requires Faithful(lib) && j.JObject? && IsModel(lib, j.members, kind)
    ensures DropNewer(lib, version, j).JObject?
    ensures var dropped := DropNewer(lib, version, j).members;
      && (forall n :: n in dropped <==> n in j.members && !NewerIn(version, kind, n))
      && (forall n :: n in dropped ==> dropped[n] == DropNewer(lib, version, j.members[n]))
  {
    assert lib.readType(lib.showType(kind)) == Some(kind);
    assert lib.readType(lib.showType(OddsQuote)) == Some(OddsQuote)
           && lib.readType(lib.showType(Market)) == Some(Market);
  }

  predicate NewerIn(version: int, kind: ModelType, n: Name) {
    (version == 1 && kind == OddsQuote && n == TRANSPORT)
      || (version <= 2 && kind == Market && (n == SET_INDEX || n == SUBJECT))
  }

  /** `members` is the object of a model with these fields. */
  ghost predicate ObjectOf(lib: Library, members: map<Name, Json>, kind: ModelType, fields: map<FieldName, Value>) {
    && TypeTag in members && members[TypeTag] == JText(lib.showType(kind))
    && OnlyFields(members) && FieldsOf(members) == fields.Keys
    && (forall f :: f in fields ==> Field(f) in members && members[Field(f)] == Encode(lib, fields[f]))
  }

  lemma ModelObject(lib: Library, kind: ModelType, fields: map<FieldName, Value>)
    ensures Encode(lib, VModel(kind, fields)).JObject?
    ensures ObjectOf(lib, Encode(lib, VModel(kind, fields)).members, kind, fields)
    ensures IsModel(lib, Encode(lib, VModel(kind, fields)).members, kind)
  {
    EncodedObject(lib, kind, fields);
    ModelMembers(lib, kind, fields);
  }

  lemma LegacyMembers(lib: Library, version: int, kind: ModelType, fields: map<FieldName, Value>,
                      legacy: map<FieldName, Value>, members: map<Name, Json>, now: map<Name, Json>,
                      dropped: map<Name, Json>)
    requires HasNewer(version, kind, fields) && LegacyOf(version, kind, fields, legacy) && legacy.Keys == fields.Keys
    requires ObjectOf(lib, members, kind, fields) && ObjectOf(lib, now, kind, legacy)
    requires forall n :: n in dropped <==> n in members && !NewerIn(version, kind, n)
    requires forall n :: n in dropped ==> dropped[n] == DropNewer(lib, version, members[n])
    requires forall f :: f in fields ==> Predates(lib, version, DropNewer(lib, version, Encode(lib, fields[f])),
                                                  Encode(lib, Legacy(version, fields[f])))
    ensures Predates(lib, version, JObject(dropped), JObject(now))
  {
    hide Encode, Legacy, LegacyOf, DropNewer, HasNewer, Predates, MayOmit;
    forall n | n in dropped
      ensures n in now && Predates(lib, version, dropped[n], now[n])
    {
      KeptMember(lib, version, kind, fields, legacy, members, now, n);
    }
    forall n | n in now && n !in dropped
      ensures MayOmit(lib, version, now, n)
    {
      assert n != TypeTag ==> n.Field? && n.field in fields;
      OmittedMember(lib, version, kind, fields, legacy, now, n);
    }
    ObjectPredates(lib, version, dropped, now);
  }

  lemma ObjectPredates(lib: Library, version: int, members: map<Name, Json>, now: map<Name, Json>)
    requires forall n :: n in members ==> n in now && Predates(lib, version, members[n], now[n])
    requires forall n :: n in now && n !in members ==> MayOmit(lib, version, now, n)
    ensures Predates(lib, version, JObject(members), JObject(now))
  {
    hide MayOmit;
  }

  lemma KeptMember(lib: Library, version: int, kind: ModelType, fields: map<FieldName, Value>,
                   legacy: map<FieldName, Value>, members: map<Name, Json>, now: map<Name, Json>, n: Name)
    requires LegacyOf(version, kind, fields, legacy)
    requires ObjectOf(lib, members, kind, fields) && ObjectOf(lib, now, kind, legacy)
    requires n in members && !NewerIn(version, kind, n)
    requires forall f :: f in fields ==> Predates(lib, version, DropNewer(lib, version, Encode(lib, fields[f])),
                                                  Encode(lib, Legacy(version, fields[f])))
    ensures n in now && Predates(lib, version, DropNewer(lib, version, members[n]), now[n])
  {
    hide Encode, Legacy, Predates, DropNewer;
    if n == TypeTag {
      TextPredates(lib, version, lib.showType(kind));
    } else {
      assert n.Field? && n.field in fields;
      assert legacy[n.field] == Legacy(version, fields[n.field]);
    }
  }

  lemma TextPredates(lib: Library, version: int, text: Id)
    ensures Predates(lib, version, DropNewer(lib, version, JText(text)), JText(text))
  {
  }

  lemma OmittedMember(lib: Library, version: int, kind: ModelType, fields: map<FieldName, Value>,
                      legacy: map<FieldName, Value>, now: map<Name, Json>, n: Name)
    requires HasNewer(version, kind, fields) && LegacyOf(version, kind, fields, legacy)
             && ObjectOf(lib, now, kind, legacy)
    requires n in now && NewerIn(version, kind, n)
    ensures MayOmit(lib, version, now, n)
  {
    hide Encode, Legacy;
    NullEncodes(lib);
    if kind == OddsQuote {
      LegacyKeepsNull(lib, version, fields[FProviderId]);
      assert legacy[FTransportProviderId] == legacy[FProviderId] == Legacy(version, fields[FProviderId]);
    }
  }

  lemma NullEncodes(lib: Library)
    ensures Encode(lib, VNull) == JNull
  {
  }

  /**
    Leaving out of an encoded value, wherever they occur, the fields newer than a version
    gives a payload of that version that loads as the same value with, before the second
    version, each quote carried by its provider and, before the third, no market set or
    subject, if that is a canonical value.
   */
  lemma DroppedLoadsAsLegacy(lib: Library, version: int, v: Value)
    requires Faithful(lib) && Shaped(v) && (version == 1 ==> ProvidersNamed(v)) && v.VModel?
    requires 1 <= version <= CURRENT_VERSION
    requires Canonical(lib, Legacy(version, v))
    ensures Loads(lib, Envelope(version, DropNewer(lib, version, Encode(lib, v))), v.kind) == Ok(Legacy(version, v))
  {
    DroppedPredates(lib, version, v);
    LegacyPayloadLoads(lib, version, DropNewer(lib, version, Encode(lib, v)), Legacy(version, v));
  }

  /** A quote payload with a null transport decodes like one that names the provider as its transport. */
  lemma NullTransportIsProvider(lib: Library, fields: map<FieldName, Value>)
    requires Faithful(lib) && fields.Keys == Schema(OddsQuote) && fields[FTransportProviderId] == VNull
    requires forall f :: f in fields ==> Canonical(lib, fields[f])
    ensures Decode(lib, Encode(lib, VModel(OddsQuote, fields)))
            == (match lib.construct(OddsQuote, fields[FTransportProviderId := fields[FProviderId]])
                case Some(v) => Ok(v)
                case None => Err(InvalidModel))
  {
    hide Encode, Decode, DecodeModel;
    EncodedObject(lib, OddsQuote, fields);
    var members := Encode(lib, VModel(OddsQuote, fields)).members;
    ModelMembers(lib, OddsQuote, fields);
    forall f | f in fields
      ensures Decode(lib, members[Field(f)]) == Ok(fields[f])
    {
      RoundTrip(lib, fields[f]);
    }
    ObjectDecodesAsModel(lib, members);
    QuoteDecodes(lib, members, fields);
  }

  lemma QuoteDecodes(lib: Library, members: map<Name, Json>, fields: map<FieldName, Value>)
    requires Faithful(lib) && fields.Keys == Schema(OddsQuote)
    requires TypeTag in members && members[TypeTag] == JText(lib.showType(OddsQuote))
    requires OnlyFields(members) && FieldsOf(members) == fields.Keys
    requires forall f :: f in fields ==> Decode(lib, members[Field(f)]) == Ok(fields[f])
    ensures DecodeModel(lib, members, DecodedFields(lib, members))
            == (match Make(lib, OddsQuote, fields) case Some(v) => Ok(v) case None => Err(InvalidModel))
  {
    hide Decode, Make, Schema;
    var decoded := DecodedFields(lib, members);
    assert decoded.Keys == fields.Keys;
    assert (map f | f in decoded && decoded[f].Ok? :: decoded[f].value) == fields;
    assert lib.readType(lib.showType(OddsQuote)) == Some(OddsQuote);
  }
}
