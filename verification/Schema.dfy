/** What a generated ent package knows about one entity, and what the create
    builder does with it: fill in defaults, check, and build the node together
    with the row that will be inserted.

    The generated files of every entity are the same template filled in from a
    table of columns; `Entity` holds the two tables this project reads off the
    generated code, one per struct. */
module Schema {

  import opened Wrappers

  type UUID = nat

  // uuid.Nil, and the zero time.Time.
  const ZERO_UUID: UUID := 0
  const ZERO_TIME := 0

  // The column names of the entities; Other is any name none of them has.
  datatype Column =
    | IdCol
    | ShipmentIdCol
    | TaskIdCol
    | ActorIdCol
    | ActorNameCol
    | EventTypeCol
    | LocationNameCol
    | LatitudeCol
    | LongitudeCol
    | NotesCol
    | PhotoUrlCol
    | SignatureUrlCol
    | TemperatureReadingCol
    | ReceivedQuantityCol
    | ReceivingStaffNameCol
    | OccurredAtCol
    | TenantIdCol
    | TenantSlugCol
    | NameCol
    | TypeCol
    | FleetTypeCol
    | StatusCol
    | MetadataCol
    | CreatedAtCol
    | UpdatedAtCol
    | FleetIdCol
    | UserIdCol
    | DriverCodeCol
    | IdNumberCol
    | LicenseNoCol
    | InviteCodeCol
    | KycSubmittedAtCol
    | ReviewedAtCol
    | ReviewedByCol
    | RejectionReasonCol
    | OnboardingSourceCol
    | IdPassportAttachmentCol
    | RiderPhotoCol
    | VehicleIdCol
    | JoinedAtCol
    | SuspendedAtCol
    | SpecializationTagsCol
    | HasColdStorageCol
    | MaxWeightCapacityKgCol
    | AverageRatingCol
    | TotalRatingsCol
    | PayoutMethodCol
    | PayoutPhoneCol
    | PayoutBankCodeCol
    | PayoutAccountNumberCol
    | PayoutAccountNameCol
    | PayoutRecipientCodeCol
    | PayoutStatusCol
    | VehicleTypeCol
    | MakeCol
    | ModelCol
    | LicensePlateCol
    | CapacityJsonCol
    | ComplianceStatusCol
    | ImageLicensePlateCol
    | ImageSideViewCol
    | InsuranceExpiryCol
    | InsuranceDocumentCol
    | InspectionExpiryCol
    | InspectionDocumentCol
    | Other(name: string)

  datatype Edge = Shipment | FleetEdge | UserEdge

  /** A Go field value. Nil is a nil pointer (a nillable field that is unset) or
      a nil map. Times and JSON documents are opaque. */
  datatype Value =
    | Nil
    | UuidV(u: UUID)
    | TextV(s: string)
    | FloatV(r: real)
    | IntV(i: int)
    | BoolV(b: bool)
    | TimeV(t: int)
    | JsonV(doc: int)

  datatype Error =
    | MissingField(field: Column)
    | InvalidField(field: Column)
    | MissingEdge(edge: Edge)
    | UnknownField(field: Column)
    | UnexpectedType(field: Column)
    | LengthMismatch
    | TooManyColumns
    | NilHook
    | UnexpectedNode
    | ConstraintFailed
    | DriverFailed
    | UnexpectedForeignKey(key: UUID)
    | NotFound
    | NotLoaded
    | NotSingular
    | HookFailed(code: int)

  // The holders database/sql scans into (scanValues creates them).
  datatype HolderKind =
    | UuidHolder
    | ScannerHolder
    | StringHolder
    | FloatHolder
    | IntHolder
    | BoolHolder
    | TimeHolder
    | BytesHolder
    | UnknownHolder

  // The Go type of a struct field: plain value, or pointer (nillable).
  datatype Kind = Uuid | UuidPtr | Text | Float | FloatPtr | Int | IntPtr | Bool | Time | TimePtr | Json

  function Zero(k: Kind): Value {
    match k
    case Uuid => UuidV(ZERO_UUID)
    case Text => TextV("")
    case Float => FloatV(0.0)
    case Int => IntV(0)
    case Bool => BoolV(false)
    case Time => TimeV(ZERO_TIME)
    case _ => Nil
  }

  // The Go compiler guarantees this of every value given to a typed setter.
  predicate Fits(k: Kind, v: Value) {
    match k
    case Uuid => v.UuidV?
    case UuidPtr => v.UuidV?
    case Text => v.TextV?
    case Float => v.FloatV?
    case FloatPtr => v.FloatV?
    case Int => v.IntV?
    case IntPtr => v.IntV?
    case Bool => v.BoolV?
    case Time => v.TimeV?
    case TimePtr => v.TimeV?
    case Json => v.JsonV?
  }

  // The holder that assignValues asserts before it reads a field of this kind.
  function Expected(k: Kind): HolderKind {
    match k
    case Uuid => UuidHolder
    case UuidPtr => ScannerHolder
    case Text => StringHolder
    case Float => FloatHolder
    case FloatPtr => FloatHolder
    case Int => IntHolder
    case IntPtr => IntHolder
    case Bool => BoolHolder
    case Time => TimeHolder
    case TimePtr => TimeHolder
    case Json => BytesHolder
  }

  // The default of one column in defaults(): a constant, or the time of the call.
  datatype Default = Always(col: Column, v: Value) | Clock(col: Column)

  // One test of check().
  datatype Rule =
    | Required(col: Column)
    | NotEmpty(col: Column)
    | OneOf(col: Column, names: seq<string>)
    | RequiredEdge(edge: Edge, key: Column)

  // metadata defaults to an empty map, specialization_tags to an empty list.
  const EMPTY_DOCUMENT := 0
  const EMPTY_LIST := 1

  // The values of the two enums of FleetMember.
  const PAYOUT_METHODS := ["mpesa_b2c", "paystack_bank", "paystack_mobile", "cash", "internal_wallet"]
  const PAYOUT_STATUSES := ["active", "suspended"]

  datatype Entity = Custody | Fleet | Member | Vehicle {

    function Columns(): seq<Column> {
      match this
      case Custody =>
        [IdCol, ShipmentIdCol, TaskIdCol, ActorIdCol, ActorNameCol, EventTypeCol, LocationNameCol, LatitudeCol,
         LongitudeCol, NotesCol, PhotoUrlCol, SignatureUrlCol, TemperatureReadingCol, ReceivedQuantityCol,
         ReceivingStaffNameCol, OccurredAtCol]
      case Fleet =>
        [IdCol, TenantIdCol, TenantSlugCol, NameCol, TypeCol, FleetTypeCol, StatusCol, MetadataCol, CreatedAtCol,
         UpdatedAtCol]
      case Member =>
        [IdCol, TenantIdCol, FleetIdCol, UserIdCol, DriverCodeCol, IdNumberCol, LicenseNoCol, StatusCol,
         InviteCodeCol, KycSubmittedAtCol, ReviewedAtCol, ReviewedByCol, RejectionReasonCol, OnboardingSourceCol,
         IdPassportAttachmentCol, RiderPhotoCol, VehicleIdCol, JoinedAtCol, SuspendedAtCol, MetadataCol,
         SpecializationTagsCol, HasColdStorageCol, MaxWeightCapacityKgCol, AverageRatingCol, TotalRatingsCol,
         CreatedAtCol, UpdatedAtCol, PayoutMethodCol, PayoutPhoneCol, PayoutBankCodeCol, PayoutAccountNumberCol,
         PayoutAccountNameCol, PayoutRecipientCodeCol, PayoutStatusCol]
      case Vehicle =>
        [IdCol, TenantIdCol, FleetIdCol, VehicleTypeCol, MakeCol, ModelCol, LicensePlateCol, CapacityJsonCol,
         StatusCol, ComplianceStatusCol, ImageLicensePlateCol, ImageSideViewCol, InsuranceExpiryCol,
         InsuranceDocumentCol, InspectionExpiryCol, InspectionDocumentCol, MetadataCol, CreatedAtCol, UpdatedAtCol]
    }

    function Defaults(): seq<Default> {
      match this
      case Custody => [Clock(OccurredAtCol)]
      case Fleet =>
        [Always(TypeCol, TextV("internal")), Always(FleetTypeCol, TextV("delivery")),
         Always(StatusCol, TextV("active")), Always(MetadataCol, JsonV(EMPTY_DOCUMENT)),
         Clock(CreatedAtCol), Clock(UpdatedAtCol)]
      case Member =>
        [Always(StatusCol, TextV("invited")), Always(OnboardingSourceCol, TextV("invite")), Clock(JoinedAtCol),
         Always(MetadataCol, JsonV(EMPTY_DOCUMENT)), Always(SpecializationTagsCol, JsonV(EMPTY_LIST)),
         Always(HasColdStorageCol, BoolV(false)), Always(AverageRatingCol, FloatV(0.0)),
         Always(TotalRatingsCol, IntV(0)), Clock(CreatedAtCol), Clock(UpdatedAtCol),
         Always(PayoutMethodCol, TextV("mpesa_b2c")), Always(PayoutStatusCol, TextV("active"))]
      case Vehicle =>
        [Always(StatusCol, TextV("active")), Always(ComplianceStatusCol, TextV("pending")),
         Always(MetadataCol, JsonV(EMPTY_DOCUMENT)), Clock(CreatedAtCol), Clock(UpdatedAtCol)]
    }

    function Rules(): seq<Rule> {
      match this
      case Custody =>
        [Required(ShipmentIdCol), Required(ActorIdCol), Required(ActorNameCol), Required(EventTypeCol),
         Required(OccurredAtCol), RequiredEdge(Shipment, ShipmentIdCol)]
      case Fleet =>
        [Required(TenantIdCol), Required(TenantSlugCol), NotEmpty(TenantSlugCol), Required(NameCol), NotEmpty(NameCol),
         Required(TypeCol), Required(FleetTypeCol), Required(StatusCol), Required(MetadataCol),
         Required(CreatedAtCol), Required(UpdatedAtCol)]
      case Member =>
        [Required(TenantIdCol), Required(FleetIdCol), Required(UserIdCol), Required(StatusCol), Required(JoinedAtCol),
         Required(MetadataCol), Required(SpecializationTagsCol), Required(HasColdStorageCol),
         Required(AverageRatingCol), Required(TotalRatingsCol), Required(CreatedAtCol), Required(UpdatedAtCol),
         OneOf(PayoutMethodCol, PAYOUT_METHODS), Required(PayoutStatusCol), OneOf(PayoutStatusCol, PAYOUT_STATUSES),
         RequiredEdge(FleetEdge, FleetIdCol), RequiredEdge(UserEdge, UserIdCol)]
      case Vehicle =>
        [Required(TenantIdCol), Required(FleetIdCol), Required(VehicleTypeCol), NotEmpty(VehicleTypeCol),
         Required(MakeCol), NotEmpty(MakeCol), Required(ModelCol), NotEmpty(ModelCol), Required(LicensePlateCol),
         NotEmpty(LicensePlateCol), Required(StatusCol), Required(ComplianceStatusCol), Required(MetadataCol),
         Required(CreatedAtCol), Required(UpdatedAtCol), RequiredEdge(FleetEdge, FleetIdCol)]
    }

    // The switch of scanValues.
    function Scan(c: Column): HolderKind {
      match this
      case Custody => (
        match c
        case TaskIdCol => ScannerHolder
        case LatitudeCol | LongitudeCol | TemperatureReadingCol => FloatHolder
        case ReceivedQuantityCol => IntHolder
        case ActorNameCol | EventTypeCol | LocationNameCol | NotesCol | PhotoUrlCol | SignatureUrlCol
             | ReceivingStaffNameCol => StringHolder
        case OccurredAtCol => TimeHolder
        case IdCol | ShipmentIdCol | ActorIdCol => UuidHolder
        case _ => UnknownHolder)
      case Fleet => (
        match c
        case MetadataCol => BytesHolder
        case TenantSlugCol | NameCol | TypeCol | FleetTypeCol | StatusCol => StringHolder
        case CreatedAtCol | UpdatedAtCol => TimeHolder
        case IdCol | TenantIdCol => UuidHolder
        case _ => UnknownHolder)
      case Member => (
        match c
        case VehicleIdCol => ScannerHolder
        case MetadataCol | SpecializationTagsCol => BytesHolder
        case HasColdStorageCol => BoolHolder
        case MaxWeightCapacityKgCol | AverageRatingCol => FloatHolder
        case TotalRatingsCol => IntHolder
        case DriverCodeCol | IdNumberCol | LicenseNoCol | StatusCol | InviteCodeCol | ReviewedByCol
             | RejectionReasonCol | OnboardingSourceCol | IdPassportAttachmentCol | RiderPhotoCol
             | PayoutMethodCol | PayoutPhoneCol | PayoutBankCodeCol | PayoutAccountNumberCol
             | PayoutAccountNameCol | PayoutRecipientCodeCol | PayoutStatusCol => StringHolder
        case KycSubmittedAtCol | ReviewedAtCol | JoinedAtCol | SuspendedAtCol | CreatedAtCol
             | UpdatedAtCol => TimeHolder
        case IdCol | TenantIdCol | FleetIdCol | UserIdCol => UuidHolder
        case _ => UnknownHolder)
      case Vehicle => (
        match c
        case CapacityJsonCol | MetadataCol => BytesHolder
        case VehicleTypeCol | MakeCol | ModelCol | LicensePlateCol | StatusCol | ComplianceStatusCol
             | ImageLicensePlateCol | ImageSideViewCol | InsuranceDocumentCol | InspectionDocumentCol => StringHolder
        case InsuranceExpiryCol | InspectionExpiryCol | CreatedAtCol | UpdatedAtCol => TimeHolder
        case IdCol | TenantIdCol | FleetIdCol => UuidHolder
        case _ => UnknownHolder)
    }

    // The switch of assignValues: the field each column goes to, None for default.
    function Field(c: Column): Option<Kind> {
      match this
      case Custody => (
        match c
        case IdCol => Some(Uuid)
        case ShipmentIdCol => Some(Uuid)
        case TaskIdCol => Some(UuidPtr)
        case ActorIdCol => Some(Uuid)
        case ActorNameCol => Some(Text)
        case EventTypeCol => Some(Text)
        case LocationNameCol => Some(Text)
        case LatitudeCol => Some(FloatPtr)
        case LongitudeCol => Some(FloatPtr)
        case NotesCol => Some(Text)
        case PhotoUrlCol => Some(Text)
        case SignatureUrlCol => Some(Text)
        case TemperatureReadingCol => Some(FloatPtr)
        case ReceivedQuantityCol => Some(IntPtr)
        case ReceivingStaffNameCol => Some(Text)
        case OccurredAtCol => Some(Time)
        case _ => None)
      case Fleet => (
        match c
        case IdCol => Some(Uuid)
        case TenantIdCol => Some(Uuid)
        case TenantSlugCol => Some(Text)
        case NameCol => Some(Text)
        case TypeCol => Some(Text)
        case FleetTypeCol => Some(Text)
        case StatusCol => Some(Text)
        case MetadataCol => Some(Json)
        case CreatedAtCol => Some(Time)
        case UpdatedAtCol => Some(Time)
        case _ => None)
      case Member => (
        match c
        case IdCol => Some(Uuid)
        case TenantIdCol => Some(Uuid)
        case FleetIdCol => Some(Uuid)
        case UserIdCol => Some(Uuid)
        case DriverCodeCol => Some(Text)
        case IdNumberCol => Some(Text)
        case LicenseNoCol => Some(Text)
        case StatusCol => Some(Text)
        case InviteCodeCol => Some(Text)
        case KycSubmittedAtCol => Some(TimePtr)
        case ReviewedAtCol => Some(TimePtr)
        case ReviewedByCol => Some(Text)
        case RejectionReasonCol => Some(Text)
        case OnboardingSourceCol => Some(Text)
        case IdPassportAttachmentCol => Some(Text)
        case RiderPhotoCol => Some(Text)
        case VehicleIdCol => Some(UuidPtr)
        case JoinedAtCol => Some(Time)
        case SuspendedAtCol => Some(TimePtr)
        case MetadataCol => Some(Json)
        case SpecializationTagsCol => Some(Json)
        case HasColdStorageCol => Some(Bool)
        case MaxWeightCapacityKgCol => Some(FloatPtr)
        case AverageRatingCol => Some(Float)
        case TotalRatingsCol => Some(Int)
        case CreatedAtCol => Some(Time)
        case UpdatedAtCol => Some(Time)
        case PayoutMethodCol => Some(Text)
        case PayoutPhoneCol => Some(Text)
        case PayoutBankCodeCol => Some(Text)
        case PayoutAccountNumberCol => Some(Text)
        case PayoutAccountNameCol => Some(Text)
        case PayoutRecipientCodeCol => Some(Text)
        case PayoutStatusCol => Some(Text)
        case _ => None)
      case Vehicle => (
        match c
        case IdCol => Some(Uuid)
        case TenantIdCol => Some(Uuid)
        case FleetIdCol => Some(Uuid)
        case VehicleTypeCol => Some(Text)
        case MakeCol => Some(Text)
        case ModelCol => Some(Text)
        case LicensePlateCol => Some(Text)
        case CapacityJsonCol => Some(Json)
        case StatusCol => Some(Text)
        case ComplianceStatusCol => Some(Text)
        case ImageLicensePlateCol => Some(Text)
        case ImageSideViewCol => Some(Text)
        case InsuranceExpiryCol => Some(TimePtr)
        case InsuranceDocumentCol => Some(Text)
        case InspectionExpiryCol => Some(TimePtr)
        case InspectionDocumentCol => Some(Text)
        case MetadataCol => Some(Json)
        case CreatedAtCol => Some(Time)
        case UpdatedAtCol => Some(Time)
        case _ => None)
    }
  }

  // ent.Mutation during a create: the fields that were set, with their values.
  datatype Draft = Draft(id: Option<UUID>, fields: map<Column, Value>)

  // What the typed setters of a builder can produce.
  ghost predicate Typed(e: Entity, d: Draft) {
    forall c :: c in d.fields ==> c != IdCol && e.Field(c).Some? && Fits(e.Field(c).value, d.fields[c])
  }

  /** A generated struct: its ID, one value for every other column, and the
      values of columns the entity does not know (selectValues). */
  datatype Node = Node(id: UUID, fields: map<Column, Value>, selected: map<Column, Holder>)

  datatype Holder = Holder(kind: HolderKind, content: Value)

  // A stored row. A column missing from cells is NULL.
  datatype Row = Row(id: UUID, cells: map<Column, Value>)

  // sqlgraph.CreateSpec: a row on its way to the database.
  datatype Spec = Spec(id: Option<UUID>, cells: map<Column, Value>)

  function ZeroNode(e: Entity): Node {
    Node(ZERO_UUID, map c | c in e.Columns() && e.Field(c).Some? && c != IdCol :: Zero(e.Field(c).value), map[])
  }

  /** defaults(): only unset fields are filled in; `clock` is what
      time.Now returns when it is read for a column, `newId` what uuid.New does. */
  function Defaulted(e: Entity, d: Draft, clock: Column -> int, newId: UUID): Draft {
    Draft(
      if d.id.Some? then d.id else Some(newId),
      DefaultFields(e.Defaults(), d.fields, clock))
  }

  function DefaultFields(defaults: seq<Default>, fields: map<Column, Value>, clock: Column -> int)
    : (r: map<Column, Value>)
    ensures forall c :: c in fields ==> c in r && r[c] == fields[c]
  {
    if defaults == [] then fields
    else
      var rest := DefaultFields(defaults[..|defaults| - 1], fields, clock);
      var last := defaults[|defaults| - 1];
      if last.col in rest then rest
      else rest[last.col := if last.Always? then last.v else TimeV(clock(last.col))]
  }

  function Violation(r: Rule, d: Draft): Option<Error> {
    match r
    case Required(col) =>
      if col in d.fields then None else Some(MissingField(col))
    case NotEmpty(col) =>
      if col in d.fields && d.fields[col] == TextV("") then Some(InvalidField(col)) else None
    case OneOf(col, names) =>
      if col in d.fields && !(d.fields[col].TextV? && d.fields[col].s in names) then Some(InvalidField(col)) else None
    case RequiredEdge(edge, key) =>
      if key in d.fields then None else Some(MissingEdge(edge))
  }

  // check(): the first rule that is violated, in the generated order.
  function CheckRules(rules: seq<Rule>, d: Draft): Option<Error> {
    if rules == [] then None
    else if Violation(rules[0], d).Some? then Violation(rules[0], d)
    else CheckRules(rules[1..], d)
  }

  function Check(e: Entity, d: Draft): Option<Error> {
    CheckRules(e.Rules(), d)
  }

  // createSpec(), first result: the node handed back to the caller.
  function CreateNode(e: Entity, d: Draft): Node {
    Node(
      if d.id.Some? then d.id.value else ZERO_UUID,
      map c | c in e.Columns() && e.Field(c).Some? && c != IdCol ::
        if c in d.fields then d.fields[c] else Zero(e.Field(c).value),
      map[])
  }

  // createSpec(), second result: what is sent to the database. No ID is sent for a
  // mutation without one.
  function CreateSpec(e: Entity, d: Draft): Spec {
    Spec(d.id, map c | c in d.fields && e.Field(c).Some? && c != IdCol :: d.fields[c])
  }

  // The row that an accepted spec becomes; the database accepts none without an ID.
  function Stored(s: Spec): Row {
    Row(if s.id.Some? then s.id.value else ZERO_UUID, s.cells)
  }

  // scanValues and assignValues name the same columns, with the same types, and
  // these are the columns of the table.
  lemma SwitchesAgree(e: Entity, c: Column)
    ensures e.Field(c).Some? <==> c in e.Columns()
    ensures e.Scan(c) == if e.Field(c).Some? then Expected(e.Field(c).value) else UnknownHolder
    ensures e.Field(IdCol) == Some(Uuid)
  {
    hide Entity.Field, Entity.Scan, Entity.Columns;
    ScanMatchesField(e, c);
    if c in e.Columns() {
      ColumnsHaveFields(e, c);
    }
    if e.Field(c).Some? {
      assert e.Columns()[Position(e, c)] == c;
    }
  }

  lemma ScanMatchesField(e: Entity, c: Column)
    ensures e.Field(IdCol) == Some(Uuid)
    ensures e.Scan(c) == if e.Field(c).Some? then Expected(e.Field(c).value) else UnknownHolder
  {
    match e
    case Custody =>
    case Fleet =>
    case Member => MemberScanMatchesField(c);
    case Vehicle => VehicleScanMatchesField(c);
  }

  lemma MemberScanMatchesField(c: Column)
    ensures Member.Scan(c) == if Member.Field(c).Some? then Expected(Member.Field(c).value) else UnknownHolder
  {
  }

  lemma VehicleScanMatchesField(c: Column)
    ensures Vehicle.Scan(c) == if Vehicle.Field(c).Some? then Expected(Vehicle.Field(c).value) else UnknownHolder
  {
  }

  lemma ColumnsHaveFields(e: Entity, c: Column)
    requires c in e.Columns()
    ensures e.Field(c).Some?
  {
    hide Entity.Field;
    var k :| 0 <= k < |e.Columns()| && e.Columns()[k] == c;
    FieldOfColumn(e, k);
  }

  lemma FieldOfColumn(e: Entity, k: nat)
    requires k < |e.Columns()|
    ensures e.Field(e.Columns()[k]).Some?
  {
    match e
    case Custody =>
    case Fleet =>
    case Member => FieldOfMemberColumn(k);
    case Vehicle => FieldOfVehicleColumn(k);
  }

  lemma FieldOfMemberColumn(k: nat)
    requires k < |Member.Columns()|
    ensures Member.Field(Member.Columns()[k]).Some?
  {
  }

  lemma FieldOfVehicleColumn(k: nat)
    requires k < |Vehicle.Columns()|
    ensures Vehicle.Field(Vehicle.Columns()[k]).Some?
  {
  }

  function Position(e: Entity, c: Column): (k: nat)
    requires e.Field(c).Some?
    ensures k < |e.Columns()| && e.Columns()[k] == c
  {
    match e
    case Custody => CustodyPosition(c)
    case Fleet => FleetPosition(c)
    case Member => MemberPosition(c)
    case Vehicle => VehiclePosition(c)
  }

  function CustodyPosition(c: Column): (k: nat)
    requires Custody.Field(c).Some?
    ensures k < |Custody.Columns()| && Custody.Columns()[k] == c
  {
    match c
    case IdCol => 0
    case ShipmentIdCol => 1
    case TaskIdCol => 2
    case ActorIdCol => 3
    case ActorNameCol => 4
    case EventTypeCol => 5
    case LocationNameCol => 6
    case LatitudeCol => 7
    case LongitudeCol => 8
    case NotesCol => 9
    case PhotoUrlCol => 10
    case SignatureUrlCol => 11
    case TemperatureReadingCol => 12
    case ReceivedQuantityCol => 13
    case ReceivingStaffNameCol => 14
    case OccurredAtCol => 15
  }

  function FleetPosition(c: Column): (k: nat)
    requires Fleet.Field(c).Some?
    ensures k < |Fleet.Columns()| && Fleet.Columns()[k] == c
  {
    match c
    case IdCol => 0
    case TenantIdCol => 1
    case TenantSlugCol => 2
    case NameCol => 3
    case TypeCol => 4
    case FleetTypeCol => 5
    case StatusCol => 6
    case MetadataCol => 7
    case CreatedAtCol => 8
    case UpdatedAtCol => 9
  }

  function MemberPosition(c: Column): (k: nat)
    requires Member.Field(c).Some?
    ensures k < |Member.Columns()| && Member.Columns()[k] == c
  {
    match c
    case IdCol => 0
    case TenantIdCol => 1
    case FleetIdCol => 2
    case UserIdCol => 3
    case DriverCodeCol => 4
    case IdNumberCol => 5
    case LicenseNoCol => 6
    case StatusCol => 7
    case InviteCodeCol => 8
    case KycSubmittedAtCol => 9
    case ReviewedAtCol => 10
    case ReviewedByCol => 11
    case RejectionReasonCol => 12
    case OnboardingSourceCol => 13
    case IdPassportAttachmentCol => 14
    case RiderPhotoCol => 15
    case VehicleIdCol => 16
    case JoinedAtCol => 17
    case SuspendedAtCol => 18
    case MetadataCol => 19
    case SpecializationTagsCol => 20
    case HasColdStorageCol => 21
    case MaxWeightCapacityKgCol => 22
    case AverageRatingCol => 23
    case TotalRatingsCol => 24
    case CreatedAtCol => 25
    case UpdatedAtCol => 26
    case PayoutMethodCol => 27
    case PayoutPhoneCol => 28
    case PayoutBankCodeCol => 29
    case PayoutAccountNumberCol => 30
    case PayoutAccountNameCol => 31
    case PayoutRecipientCodeCol => 32
    case PayoutStatusCol => 33
  }

  function VehiclePosition(c: Column): (k: nat)
    requires Vehicle.Field(c).Some?
    ensures k < |Vehicle.Columns()| && Vehicle.Columns()[k] == c
  {
    match c
    case IdCol => 0
    case TenantIdCol => 1
    case FleetIdCol => 2
    case VehicleTypeCol => 3
    case MakeCol => 4
    case ModelCol => 5
    case LicensePlateCol => 6
    case CapacityJsonCol => 7
    case StatusCol => 8
    case ComplianceStatusCol => 9
    case ImageLicensePlateCol => 10
    case ImageSideViewCol => 11
    case InsuranceExpiryCol => 12
    case InsuranceDocumentCol => 13
    case InspectionExpiryCol => 14
    case InspectionDocumentCol => 15
    case MetadataCol => 16
    case CreatedAtCol => 17
    case UpdatedAtCol => 18
  }

  // A check passes exactly when no rule is violated, and otherwise it reports
  // the violated rule that comes first.
  lemma {:induction false} CheckFindsFirst(rules: seq<Rule>, d: Draft)
    ensures CheckRules(rules, d).None? <==> forall k :: 0 <= k < |rules| ==> Violation(rules[k], d).None?
    ensures CheckRules(rules, d).Some? ==>
              exists k :: 0 <= k < |rules| && CheckRules(rules, d) == Violation(rules[k], d)
                       && forall j :: 0 <= j < k ==> Violation(rules[j], d).None?
  {
    if rules != [] {
      if Violation(rules[0], d).None? {
        CheckFindsFirst(rules[1..], d);
        assert forall k :: 1 <= k < |rules| ==> rules[k] == rules[1..][k - 1];
        if CheckRules(rules, d).Some? {
          var k :| 0 <= k < |rules[1..]| && CheckRules(rules[1..], d) == Violation(rules[1..][k], d)
                   && forall j :: 0 <= j < k ==> Violation(rules[1..][j], d).None?;
          assert rules[k + 1] == rules[1..][k];
        }
      }
    }
  }

  // The missing-field check for the key of a required edge comes before the edge's.
  lemma KeyIsRequired(e: Entity, k: nat) returns (j: nat)
    requires k < |e.Rules()| && e.Rules()[k].RequiredEdge?
    ensures j < k && e.Rules()[j] == Required(e.Rules()[k].key)
  {
    j := if e.Vehicle? || (e.Member? && k == 15) then 1 else if e.Member? then 2 else 0;
  }

  lemma KeyIsAskedFirst(e: Entity, k: nat, d: Draft)
    requires k < |e.Rules()| && e.Rules()[k].RequiredEdge? && Violation(e.Rules()[k], d).Some?
    ensures exists j :: 0 <= j < k && Violation(e.Rules()[j], d).Some?
  {
    hide Entity.Rules;
    var j := KeyIsRequired(e, k);
    assert Violation(e.Rules()[j], d).Some?;
  }

  /** No check for a required edge can fail: the check for the missing field in front
      of it asks the same. */
  lemma RequiredEdgeIsUnreachable(e: Entity, d: Draft, edge: Edge)
    ensures Check(e, d) != Some(MissingEdge(edge))
  {
    hide Entity.Rules, CheckRules;
    var rules := e.Rules();
    CheckFindsFirst(rules, d);
    if Check(e, d) == Some(MissingEdge(edge)) {
      var k :| 0 <= k < |rules| && CheckRules(rules, d) == Violation(rules[k], d)
               && forall j :: 0 <= j < k ==> Violation(rules[j], d).None?;
      KeyIsAskedFirst(e, k, d);
    }
  }
}
