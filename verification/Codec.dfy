/** The versioned codec for canonical values: encoding, decoding, and payload migrations. */
module Codec {
  import opened Wrappers
  import Domain

  /** Texts are opaque. */
  type Id = Domain.Id

  datatype ModelType =
    | CompetitionId | ParticipantId | EventId | MarketId | SelectionId | QuoteId | ProviderId
    | OpportunityId | StakePlanId
    | Provider | Competition | Participant | ProviderEventReference | ProviderMarketReference
    | Event | Market | Selection | OddsQuote | Opportunity | StakeAllocation | StakePlan

  datatype FieldName =
    | FValue | FId | FName | FKind | FSport | FRegion | FSeason | FProviderId | FExternalEventId | FExternalMarketId
    | FCompetition | FParticipants | FScheduledStart | FStatus | FProviderReferences | FEventId | FPeriod | FLine
    | FPeriodIndex | FSetIndex | FSubjectParticipantId | FMarketId | FParticipantId | FHandicap | FSelectionId
    | FDecimalPrice | FSourceEventId | FSourceMarketId | FSourceSelectionId | FIngestedAt | FSourceTimestamp | FTraceId
    | FRawSourceReference | FTransportProviderId | FQuoteIds | FImpliedProbabilitySum | FTheoreticalProfitMargin
    | FDetectedAt | FQuoteId | FAmount | FExpectedPayout | FOpportunityId | FCurrency | FBankroll | FAllocations
    | FGuaranteedPayout | FGuaranteedProfit | FCreatedAt | FUnknown(text: Id)

  /** The keys of JSON objects; the tags are spelled with a leading dollar sign. */
  datatype Name =
    | TypeTag | EnumTag | DecimalTag | DatetimeTag | TupleTag | SchemaVersion | PayloadKey
    | Field(field: FieldName)

  datatype Json =
    | JNull | JBool(flag: bool) | JInt(number: int) | JText(text: Id)
    | JList(items: seq<Json>)
    | JObject(members: map<Name, Json>)

  datatype Value =
    | VNull | VBool(flag: bool) | VInt(number: int) | VText(text: Id)
    | VDecimal(decimal: Id) | VDatetime(instant: Id)
    | VEnum(enumeration: Id, member: Id)
    | VTuple(items: seq<Value>)
    | VList(items: seq<Value>)
    | VModel(kind: ModelType, fields: map<FieldName, Value>)

  datatype CodecError =
    | InvalidFields | NotText | InvalidDecimal | InvalidDatetime | InvalidEnum | TupleNotList | UnknownType
    | InvalidModel | NoTag | LegacyQuoteWithoutProvider | BadEnvelope | UnsupportedVersion
    | UnexpectedRoot | Unsupported

  function Schema(kind: ModelType): set<FieldName> {
    match kind
    case Provider => {FId, FName, FKind}
    case Competition => {FId, FSport, FName, FRegion, FSeason}
    case Participant => {FId, FSport, FName, FKind}
    case ProviderEventReference => {FProviderId, FExternalEventId}
    case ProviderMarketReference => {FProviderId, FExternalEventId, FExternalMarketId}
    case Event => {FId, FSport, FCompetition, FParticipants, FScheduledStart, FStatus, FProviderReferences}
    case Market => {FId, FEventId, FKind, FPeriod, FLine, FPeriodIndex, FSetIndex, FSubjectParticipantId,
                    FProviderReferences}
    case Selection => {FId, FMarketId, FKind, FParticipantId, FHandicap}
    case OddsQuote => {FId, FProviderId, FEventId, FMarketId, FSelectionId, FDecimalPrice, FSourceEventId,
                       FSourceMarketId,
                       FSourceSelectionId, FIngestedAt, FStatus, FSourceTimestamp, FTraceId, FRawSourceReference,
                       FTransportProviderId}
    case Opportunity => {FId, FEventId, FMarketId, FQuoteIds, FImpliedProbabilitySum, FTheoreticalProfitMargin,
                         FDetectedAt, FStatus}
    case StakeAllocation => {FQuoteId, FSelectionId, FProviderId, FAmount, FExpectedPayout}
    case StakePlan => {FId, FOpportunityId, FCurrency, FBankroll, FAllocations, FGuaranteedPayout, FGuaranteedProfit,
                       FCreatedAt}
    case _ => {FValue}
  }

  /**
    What the codec takes from elsewhere: the texts of decimals, instants and type names,
    the members of enumerations, and what each constructor makes of its arguments.
   */
  datatype Library = Library(
    showDecimal: Id -> Id,
    readDecimal: Id -> Option<Id>,
    showInstant: Id -> Id,
    readInstant: Id -> Option<Id>,
    showType: ModelType -> Id,
    readType: Id -> Option<ModelType>,
    isMember: (Id, Id) -> bool,
    construct: (ModelType, map<FieldName, Value>) -> Option<Value>)

  /** Reading undoes showing. */
  ghost predicate Faithful(lib: Library) {
    && (forall d :: lib.readDecimal(lib.showDecimal(d)) == Some(d))
    && (forall t :: lib.readInstant(lib.showInstant(t)) == Some(t))
    && (forall k :: lib.readType(lib.showType(k)) == Some(k))
  }

  /** A constructor call; a quote without a transport gets its provider's. */
  function Make(lib: Library, kind: ModelType, fields: map<FieldName, Value>): Option<Value> {
    if kind == OddsQuote && FTransportProviderId in fields && FProviderId in fields
      && fields[FTransportProviderId] == VNull
    then lib.construct(kind, fields[FTransportProviderId := fields[FProviderId]])
    else lib.construct(kind, fields)
  }

  // ----- Encoding

  function MemberNames(fields: set<FieldName>): set<Name> {
    {TypeTag} + set f | f in fields :: Field(f)
  }

  function Encode(lib: Library, v: Value): Json
    decreases v
  {
    match v
    case VNull => JNull
    case VBool(b) => JBool(b)
    case VInt(n) => JInt(n)
    case VText(t) => JText(t)
    case VDecimal(d) => JObject(map[DecimalTag := JText(lib.showDecimal(d))])
    case VDatetime(t) => JObject(map[DatetimeTag := JText(lib.showInstant(t))])
    case VEnum(e, m) => JObject(map[EnumTag := JText(e), Field(FValue) := JText(m)])
    case VTuple(items) =>
      JObject(map[TupleTag := JList(seq(|items|, i requires 0 <= i < |items| => Encode(lib, items[i])))])
    case VList(items) => JList(seq(|items|, i requires 0 <= i < |items| => Encode(lib, items[i])))
    case VModel(kind, fields) =>
      JObject(map n | n in MemberNames(fields.Keys) ::
                if n == TypeTag then JText(lib.showType(kind)) else Encode(lib, fields[n.field]))
  }

  /** No list anywhere: lists are not canonical values and encoding one raises. */
  predicate Encodable(v: Value)
    decreases v
  {
    match v
    case VTuple(items) => forall i :: 0 <= i < |items| ==> Encodable(items[i])
    case VList(_) => false
    case VModel(_, fields) => forall f :: f in fields ==> Encodable(fields[f])
    case _ => true
  }

  // ----- Decoding

  /** The fields of an object, apart from its tags. */
  function FieldsOf(members: map<Name, Json>): set<FieldName> {
    set n | n in members && n.Field? :: n.field
  }

  predicate OnlyFields(members: map<Name, Json>) {
    forall n :: n in members ==> n == TypeTag || n.Field?
  }

  function DecodeModel(lib: Library, members: map<Name, Json>, decoded: map<FieldName, Result<Value, CodecError>>)
    : Result<Value, CodecError>
    requires TypeTag in members
  {
    if !members[TypeTag].JText? then Err(NotText)
    else match lib.readType(members[TypeTag].text)
      case None => Err(UnknownType)
      case Some(kind) =>
        if !OnlyFields(members) || FieldsOf(members) != Schema(kind) then Err(InvalidFields)
        else if exists f :: f in decoded && decoded[f].Err? then Err(InvalidModel)
        else
          match Make(lib, kind, map f | f in decoded && decoded[f].Ok? :: decoded[f].value)
          case Some(v) => Ok(v)
          case None => Err(InvalidModel)
  }

  /** A scalar object: exactly this tag, holding a text. */
  function TaggedText(members: map<Name, Json>, tag: Name): Result<Id, CodecError>
    requires tag in members
  {
    if members.Keys != {tag} then Err(InvalidFields)
    else if !members[tag].JText? then Err(NotText)
    else Ok(members[tag].text)
  }

  function DecodeDecimal(lib: Library, members: map<Name, Json>): Result<Value, CodecError>
    requires DecimalTag in members
  {
    match TaggedText(members, DecimalTag)
    case Err(e) => Err(e)
    case Ok(t) => if lib.readDecimal(t).Some? then Ok(VDecimal(lib.readDecimal(t).value)) else Err(InvalidDecimal)
  }

  function DecodeDatetime(lib: Library, members: map<Name, Json>): Result<Value, CodecError>
    requires DatetimeTag in members
  {
    match TaggedText(members, DatetimeTag)
    case Err(e) => Err(e)
    case Ok(t) => if lib.readInstant(t).Some? then Ok(VDatetime(lib.readInstant(t).value)) else Err(InvalidDatetime)
  }

  function DecodeEnum(lib: Library, members: map<Name, Json>): Result<Value, CodecError>
    requires EnumTag in members
  {
    if members.Keys != {EnumTag, Field(FValue)} then Err(InvalidFields)
    else if !members[EnumTag].JText? || !members[Field(FValue)].JText? then Err(NotText)
    else if !lib.isMember(members[EnumTag].text, members[Field(FValue)].text) then Err(InvalidEnum)
    else Ok(VEnum(members[EnumTag].text, members[Field(FValue)].text))
  }

  /** All items, or the first error. */
  function Collect(items: seq<Result<Value, CodecError>>): Result<seq<Value>, CodecError> {
    if |items| == 0 then Ok([])
    else
      match Collect(items[..|items| - 1])
      case Err(e) => Err(e)
      case Ok(init) => if items[|items| - 1].Ok? then Ok(init + [items[|items| - 1].value])
        else Err(items[|items| - 1].error)
  }

  function Decode(lib: Library, j: Json): Result<Value, CodecError>
    decreases j
  {
    match j
    case JNull => Ok(VNull)
    case JBool(b) => Ok(VBool(b))
    case JInt(n) => Ok(VInt(n))
    case JText(t) => Ok(VText(t))
    case JList(items) =>
      var decoded := Collect(seq(|items|, i requires 0 <= i < |items| => Decode(lib, items[i])));
      if decoded.Ok? then Ok(VList(decoded.value)) else Err(decoded.error)
    case JObject(members) =>
      if DecimalTag in members then DecodeDecimal(lib, members)
      else if DatetimeTag in members then DecodeDatetime(lib, members)
      else if EnumTag in members then DecodeEnum(lib, members)
      else if TupleTag in members then
        if members.Keys != {TupleTag} then Err(InvalidFields)
        else if !members[TupleTag].JList? then Err(TupleNotList)
        else
          var items := members[TupleTag].items;
          assert members[TupleTag] < j;
          var decoded := Collect(seq(|items|, i requires 0 <= i < |items| => Decode(lib, items[i])));
          if decoded.Ok? then Ok(VTuple(decoded.value)) else Err(decoded.error)
      else if TypeTag in members then
        DecodeModel(lib, members, map f | f in FieldsOf(members) :: Decode(lib, members[Field(f)]))
      else Err(NoTag)
  }

  // ----- Migrations

  const TRANSPORT: Name := Field(FTransportProviderId)
  const PROVIDER: Name := Field(FProviderId)
  const SET_INDEX: Name := Field(FSetIndex)
  const SUBJECT: Name := Field(FSubjectParticipantId)

  predicate IsModel(lib: Library, members: map<Name, Json>, kind: ModelType) {
    TypeTag in members && members[TypeTag] == JText(lib.showType(kind))
  }

  /** A first-version quote without a transport was carried by its provider. */
  function WithTransport(lib: Library, members: map<Name, Json>): map<Name, Json> {
    if IsModel(lib, members, OddsQuote) && TRANSPORT !in members && PROVIDER in members
    then members[TRANSPORT := members[PROVIDER]] else members
  }

  function MigrateV1(lib: Library, j: Json): Json
    decreases j
  {
    match j
    case JList(items) => JList(seq(|items|, i requires 0 <= i < |items| => MigrateV1(lib, items[i])))
    case JObject(members) => JObject(WithTransport(lib, map n | n in members :: MigrateV1(lib, members[n])))
    case _ => j
  }

  /** Some first-version quote has neither a transport nor a provider to take it from. */
  predicate Unmigratable(lib: Library, j: Json)
    decreases j
  {
    match j
    case JList(items) => exists i :: 0 <= i < |items| && Unmigratable(lib, items[i])
    case JObject(members) =>
      || (exists n :: n in members && Unmigratable(lib, members[n]))
      || (IsModel(lib, members, OddsQuote) && TRANSPORT !in members
        && (PROVIDER !in members || members[PROVIDER] == JNull))
    case _ => false
  }

  function Defaulted(members: map<Name, Json>, name: Name): map<Name, Json> {
    if name in members then members else members[name := JNull]
  }

  /** A second-version market has no set and no subject. */
  function WithMarketFields(lib: Library, members: map<Name, Json>): map<Name, Json> {
    if IsModel(lib, members, Market) then Defaulted(Defaulted(members, SET_INDEX), SUBJECT) else members
  }

  function MigrateV2(lib: Library, j: Json): Json
    decreases j
  {
    match j
    case JList(items) => JList(seq(|items|, i requires 0 <= i < |items| => MigrateV2(lib, items[i])))
    case JObject(members) => JObject(WithMarketFields(lib, map n | n in members :: MigrateV2(lib, members[n])))
    case _ => j
  }

  // ----- The envelope

  const CURRENT_VERSION := 3

  function Envelope(version: int, payload: Json): Json {
    JObject(map[SchemaVersion := JInt(version), PayloadKey := payload])
  }

  function Dumps(lib: Library, v: Value): Result<Json, CodecError> {
    if Encodable(v) then Ok(Envelope(CURRENT_VERSION, Encode(lib, v))) else Err(Unsupported)
  }

  /** The version an envelope names; `true` counts as one and `false` as zero. */
  function VersionOf(j: Json): Option<int> {
    match j
    case JInt(n) => Some(n)
    case JBool(b) => Some(if b then 1 else 0)
    case _ => None
  }

  function Migrated(lib: Library, version: int, payload: Json): Result<Json, CodecError> {
    if version == 1 then
      if Unmigratable(lib, payload) then Err(LegacyQuoteWithoutProvider)
        else Ok(MigrateV2(lib, MigrateV1(lib, payload)))
    else if version == 2 then Ok(MigrateV2(lib, payload))
    else if version == CURRENT_VERSION then Ok(payload)
    else Err(UnsupportedVersion)
  }

  function Loads(lib: Library, j: Json, expected: ModelType): Result<Value, CodecError> {
    if !j.JObject? || j.members.Keys != {SchemaVersion, PayloadKey} then Err(BadEnvelope)
    else match VersionOf(j.members[SchemaVersion])
      case None => Err(UnsupportedVersion)
      case Some(version) =>
        match Migrated(lib, version, j.members[PayloadKey])
        case Err(e) => Err(e)
        case Ok(payload) =>
          match Decode(lib, payload)
          case Err(e) => Err(e)
          case Ok(v) => if v.VModel? && v.kind == expected then Ok(v) else Err(UnexpectedRoot)
  }
}
