/**
 * The shipment record: the Mongoose schema's field constraints as a raw
 * input document, the setters and defaults Mongoose applies to it, and the
 * validation that decides whether it may be stored.
 */
module Shipments {
  import opened Wrappers
  import opened Text

  /** The six values the schema's `status` enum admits. */
  datatype Status = Pending | Assigned | InTransit | Delivered | Cancelled | Returned

  /** The string stored for each status. */
  function StatusName(st: Status): string {
    match st
    case Pending => "pending"
    case Assigned => "assigned"
    case InTransit => "in-transit"
    case Delivered => "delivered"
    case Cancelled => "cancelled"
    case Returned => "returned"
  }

  /** The enum check: a string names a status exactly when it is one of the six names. */
  function ParseStatus(name: string): (r: Option<Status>)
    ensures r.Some? ==> StatusName(r.value) == name
    ensures r.None? ==> forall st :: StatusName(st) != name
  {
    if name == "pending" then Some(Pending)
    else if name == "assigned" then Some(Assigned)
    else if name == "in-transit" then Some(InTransit)
    else if name == "delivered" then Some(Delivered)
    else if name == "cancelled" then Some(Cancelled)
    else if name == "returned" then Some(Returned)
    else None
  }

  lemma ParseStatusName(st: Status)
    ensures ParseStatus(StatusName(st)) == Some(st)
  {
  }

  /** The status a shipment gets when none is given. */
  const DefaultStatus: Status := Pending

  /** A document as a caller hands it to the model: every field may be absent. */
  datatype PersonnelInput = PersonnelInput(id: Option<string>, fullName: Option<string>, email: Option<string>)

  datatype MarkerInput = MarkerInput(name: Option<string>, email: Option<string>, role: Option<string>)

  datatype ShipmentInput = ShipmentInput(
    productId: Option<string>,
    productName: Option<string>,
    productImage: Option<string>,
    quantity: Option<int>,
    deliveryPersonnel: PersonnelInput,
    destination: Option<string>,
    note: Option<string>,
    message: Option<string>,
    status: Option<string>,
    markedBy: MarkerInput)

  /** A stored shipment. */
  datatype Personnel = Personnel(id: string, fullName: string, email: string)

  datatype Marker = Marker(name: string, email: string, role: string)

  datatype Shipment = Shipment(
    productId: string,
    productName: string,
    productImage: Option<string>,
    quantity: int,
    deliveryPersonnel: Personnel,
    destination: string,
    note: string,
    message: string,
    status: Status,
    markedBy: Marker)

  /** The schema's validation failures, one per validator. */
  datatype Violation =
    | ProductIdRequired
    | ProductNameRequired
    | QuantityRequired
    | QuantityBelowMin
    | PersonnelIdRequired
    | PersonnelNameRequired
    | PersonnelEmailRequired
    | DestinationRequired
    | StatusNotInEnum
    | MarkerNameRequired
    | MarkerEmailRequired
    | MarkerRoleRequired

  /** The smallest quantity the schema accepts. */
  const MinQuantity := 1

  function TrimOpt(o: Option<string>): Option<string> {
    match o
    case None => None
    case Some(s) => Some(Trim(s))
  }

  function LowerOpt(o: Option<string>): Option<string> {
    match o
    case None => None
    case Some(s) => Some(Lower(s))
  }

  function DefaultOpt(o: Option<string>, d: string): string {
    match o
    case None => d
    case Some(s) => s
  }

  /**
   * The document after Mongoose's setters (`trim`, `lowercase`) and
   * defaults (`note`, `message`, `status`) have run.
   */
  function Prepare(i: ShipmentInput): (p: ShipmentInput)
    ensures p.note.Some? && p.message.Some? && p.status.Some?
  {
    i.(productName := TrimOpt(i.productName),
       productImage := TrimOpt(i.productImage),
       deliveryPersonnel := i.deliveryPersonnel.(
         fullName := TrimOpt(i.deliveryPersonnel.fullName),
         email := LowerOpt(TrimOpt(i.deliveryPersonnel.email))),
       destination := TrimOpt(i.destination),
       note := Some(Trim(DefaultOpt(i.note, ""))),
       message := Some(Trim(DefaultOpt(i.message, ""))),
       status := Some(DefaultOpt(i.status, StatusName(DefaultStatus))),
       markedBy := MarkerInput(TrimOpt(i.markedBy.name), TrimOpt(i.markedBy.email), TrimOpt(i.markedBy.role)))
  }

  /** Mongoose's `required` for a string path: present and not the empty string. */
  predicate RequiredString(o: Option<string>) {
    o.Some? && o.value != ""
  }

  /** The validator behind `v` fails on the prepared document `p`. */
  predicate Fails(p: ShipmentInput, v: Violation) {
    match v
    case ProductIdRequired => p.productId.None?
    case ProductNameRequired => !RequiredString(p.productName)
    case QuantityRequired => p.quantity.None?
    case QuantityBelowMin => p.quantity.Some? && p.quantity.value < MinQuantity
    case PersonnelIdRequired => !RequiredString(p.deliveryPersonnel.id)
    case PersonnelNameRequired => !RequiredString(p.deliveryPersonnel.fullName)
    case PersonnelEmailRequired => !RequiredString(p.deliveryPersonnel.email)
    case DestinationRequired => !RequiredString(p.destination)
    case StatusNotInEnum => p.status.Some? && ParseStatus(p.status.value).None?
    case MarkerNameRequired => !RequiredString(p.markedBy.name)
    case MarkerEmailRequired => !RequiredString(p.markedBy.email)
    case MarkerRoleRequired => !RequiredString(p.markedBy.role)
  }

  const AllViolations: set<Violation> := {
    ProductIdRequired, ProductNameRequired, QuantityRequired, QuantityBelowMin,
    PersonnelIdRequired, PersonnelNameRequired, PersonnelEmailRequired, DestinationRequired,
    StatusNotInEnum, MarkerNameRequired, MarkerEmailRequired, MarkerRoleRequired}

  /** Mongoose runs every validator and reports each one that fails. */
  function Violations(p: ShipmentInput): (vs: set<Violation>)
    ensures forall v :: v in vs <==> Fails(p, v)
  {
    EveryViolationListed();
    set v | v in AllViolations && Fails(p, v)
  }

  lemma EveryViolationListed()
    ensures forall v :: v in AllViolations
  {
    forall v ensures v in AllViolations {
      match v
      case ProductIdRequired =>
      case ProductNameRequired =>
      case QuantityRequired =>
      case QuantityBelowMin =>
      case PersonnelIdRequired =>
      case PersonnelNameRequired =>
      case PersonnelEmailRequired =>
      case DestinationRequired =>
      case StatusNotInEnum =>
      case MarkerNameRequired =>
      case MarkerEmailRequired =>
      case MarkerRoleRequired =>
    }
  }

  /**
   * What a stored shipment always satisfies: quantity at least 1, required
   * strings present, trimmed strings trimmed, the driver's email lowercased.
   */
  predicate WellFormed(s: Shipment) {
    && s.quantity >= MinQuantity
    && s.productName != "" && IsTrimmed(s.productName)
    && (s.productImage.Some? ==> IsTrimmed(s.productImage.value))
    && s.deliveryPersonnel.id != ""
    && s.deliveryPersonnel.fullName != "" && IsTrimmed(s.deliveryPersonnel.fullName)
    && s.deliveryPersonnel.email != "" && IsTrimmed(s.deliveryPersonnel.email) && IsLower(s.deliveryPersonnel.email)
    && s.destination != "" && IsTrimmed(s.destination)
    && IsTrimmed(s.note) && IsTrimmed(s.message)
    && s.markedBy.name != "" && IsTrimmed(s.markedBy.name)
    && s.markedBy.email != "" && IsTrimmed(s.markedBy.email)
    && s.markedBy.role != "" && IsTrimmed(s.markedBy.role)
  }

  /** Every path the record needs is present. */
  predicate Complete(p: ShipmentInput) {
    && p.productId.Some? && p.productName.Some? && p.quantity.Some?
    && p.deliveryPersonnel.id.Some? && p.deliveryPersonnel.fullName.Some? && p.deliveryPersonnel.email.Some?
    && p.destination.Some? && p.note.Some? && p.message.Some?
    && p.status.Some? && ParseStatus(p.status.value).Some?
    && p.markedBy.name.Some? && p.markedBy.email.Some? && p.markedBy.role.Some?
  }

  /** Builds the stored record from a complete prepared document. */
  function Build(p: ShipmentInput): Shipment
    requires Complete(p)
  {
    Shipment(
      p.productId.value, p.productName.value, p.productImage, p.quantity.value,
      Personnel(p.deliveryPersonnel.id.value, p.deliveryPersonnel.fullName.value, p.deliveryPersonnel.email.value),
      p.destination.value, p.note.value, p.message.value, ParseStatus(p.status.value).value,
      Marker(p.markedBy.name.value, p.markedBy.email.value, p.markedBy.role.value))
  }

  lemma PassingIsComplete(p: ShipmentInput)
    requires Violations(p) == {}
    requires p.note.Some? && p.message.Some? && p.status.Some?
    ensures Complete(p)
    ensures p.quantity.value >= MinQuantity
    ensures RequiredString(p.productName) && RequiredString(p.deliveryPersonnel.id)
    ensures RequiredString(p.deliveryPersonnel.fullName) && RequiredString(p.deliveryPersonnel.email)
    ensures RequiredString(p.destination) && RequiredString(p.markedBy.name)
    ensures RequiredString(p.markedBy.email) && RequiredString(p.markedBy.role)
  {
    assert !Fails(p, ProductIdRequired) && !Fails(p, ProductNameRequired) && !Fails(p, QuantityRequired);
    assert !Fails(p, QuantityBelowMin);
    assert !Fails(p, PersonnelIdRequired) && !Fails(p, PersonnelNameRequired) && !Fails(p, PersonnelEmailRequired);
    assert !Fails(p, DestinationRequired) && !Fails(p, StatusNotInEnum);
    assert !Fails(p, MarkerNameRequired) && !Fails(p, MarkerEmailRequired) && !Fails(p, MarkerRoleRequired);
  }

  /**
   * Creating a shipment document: setters and defaults, then every
   * validator. A rejected document carries at least one reason; an accepted
   * one is well formed.
   */
  function Validate(i: ShipmentInput): (r: Result<Shipment, set<Violation>>)
    ensures r.Err? ==> r.error != {}
    ensures r.Ok? ==> WellFormed(r.value)
  {
    var p := Prepare(i);
    var vs := Violations(p);
    if vs == {} then
      PassingIsComplete(p);
      BuildWellFormed(i);
      Ok(Build(p))
    else
      Err(vs)
  }

  lemma BuildWellFormed(i: ShipmentInput)
    requires Violations(Prepare(i)) == {}
    ensures Complete(Prepare(i)) && WellFormed(Build(Prepare(i)))
  {
    var p := Prepare(i);
    PassingIsComplete(p);
    var s := Build(p);
    var e := i.deliveryPersonnel.email.value;
    LowerIsLower(Trim(e));
    TrimLowerCommute(e);
    assert IsTrimmed(Trim(Lower(e)));
    assert WellFormed(s);
  }

  /**
   * The stored fields are the input's: the ids as given, the strings
   * trimmed, the driver's email also
   * lowercased, the marker's email trimmed only, "" for a missing note or
   * message and "pending" for a missing status.
   */
  lemma ValidateStoresNormalised(i: ShipmentInput)
    requires Validate(i).Ok?
    ensures var s := Validate(i).value;
      && i.productId == Some(s.productId)
      && i.quantity == Some(s.quantity)
      && i.productName.Some? && s.productName == Trim(i.productName.value)
      && s.productImage == TrimOpt(i.productImage)
      && i.deliveryPersonnel.id == Some(s.deliveryPersonnel.id)
      && i.deliveryPersonnel.fullName.Some? && s.deliveryPersonnel.fullName == Trim(i.deliveryPersonnel.fullName.value)
      && i.deliveryPersonnel.email.Some? && s.deliveryPersonnel.email == Lower(Trim(i.deliveryPersonnel.email.value))
      && i.destination.Some? && s.destination == Trim(i.destination.value)
      && i.markedBy.name.Some? && s.markedBy.name == Trim(i.markedBy.name.value)
      && i.markedBy.email.Some? && s.markedBy.email == Trim(i.markedBy.email.value)
      && i.markedBy.role.Some? && s.markedBy.role == Trim(i.markedBy.role.value)
      && s.note == (if i.note.None? then "" else Trim(i.note.value))
      && s.message == (if i.message.None? then "" else Trim(i.message.value))
      && (i.status.Some? ==> ParseStatus(i.status.value).Some?)
      && s.status == (if i.status.None? then Pending else ParseStatus(i.status.value).value)
  {
    ValidateIsBuild(i);
  }

  lemma ValidateIsBuild(i: ShipmentInput)
    requires Validate(i).Ok?
    ensures Complete(Prepare(i)) && Validate(i).value == Build(Prepare(i))
  {
    var p := Prepare(i);
    assert Violations(p) == {};
    PassingIsComplete(p);
  }

  /**
   * A raw document breaks a validator, stated on the document as given
   * (before any setter): a trimmed required string is missing exactly when
   * it was absent or all white space.
   */
  predicate Breaks(i: ShipmentInput, v: Violation) {
    match v
    case ProductIdRequired => i.productId.None?
    case ProductNameRequired => i.productName.None? || AllSpace(i.productName.value)
    case QuantityRequired => i.quantity.None?
    case QuantityBelowMin => i.quantity.Some? && i.quantity.value < 1
    case PersonnelIdRequired => i.deliveryPersonnel.id.None? || i.deliveryPersonnel.id.value == ""
    case PersonnelNameRequired => i.deliveryPersonnel.fullName.None? || AllSpace(i.deliveryPersonnel.fullName.value)
    case PersonnelEmailRequired => i.deliveryPersonnel.email.None? || AllSpace(i.deliveryPersonnel.email.value)
    case DestinationRequired => i.destination.None? || AllSpace(i.destination.value)
    case StatusNotInEnum => i.status.Some? && forall st :: StatusName(st) != i.status.value
    case MarkerNameRequired => i.markedBy.name.None? || AllSpace(i.markedBy.name.value)
    case MarkerEmailRequired => i.markedBy.email.None? || AllSpace(i.markedBy.email.value)
    case MarkerRoleRequired => i.markedBy.role.None? || AllSpace(i.markedBy.role.value)
  }

  /**
   * The rejection reasons are exactly the validators the raw document
   * breaks, and a document is accepted exactly when it breaks none.
   */
  lemma ValidateReportsExactly(i: ShipmentInput)
    ensures Validate(i).Ok? <==> forall v :: !Breaks(i, v)
    ensures Validate(i).Err? ==> forall v :: v in Validate(i).error <==> Breaks(i, v)
  {
    var p := Prepare(i);
    forall v ensures Fails(p, v) <==> Breaks(i, v) {
      FailsIffBreaks(i, v);
    }
  }

  lemma FailsIffBreaks(i: ShipmentInput, v: Violation)
    ensures Fails(Prepare(i), v) <==> Breaks(i, v)
  {
    match v
    case ProductNameRequired => if i.productName.Some? { TrimEmptyIff(i.productName.value); }
    case PersonnelNameRequired =>
      if i.deliveryPersonnel.fullName.Some? { TrimEmptyIff(i.deliveryPersonnel.fullName.value); }
    case PersonnelEmailRequired =>
      if i.deliveryPersonnel.email.Some? { TrimEmptyIff(i.deliveryPersonnel.email.value); }
    case DestinationRequired => if i.destination.Some? { TrimEmptyIff(i.destination.value); }
    case StatusNotInEnum =>
      if i.status.Some? && ParseStatus(i.status.value).Some? {
        assert StatusName(ParseStatus(i.status.value).value) == i.status.value;
      }
    case MarkerNameRequired => if i.markedBy.name.Some? { TrimEmptyIff(i.markedBy.name.value); }
    case MarkerEmailRequired => if i.markedBy.email.Some? { TrimEmptyIff(i.markedBy.email.value); }
    case MarkerRoleRequired => if i.markedBy.role.Some? { TrimEmptyIff(i.markedBy.role.value); }
    case _ =>
  }

  /** A quantity below 1 is always among the reasons a document is rejected. */
  lemma QuantityBelowOneRejected(i: ShipmentInput)
    requires i.quantity.Some? && i.quantity.value < 1
    ensures Validate(i).Err? && QuantityBelowMin in Validate(i).error
  {
    assert Fails(Prepare(i), QuantityBelowMin);
  }

  /** The document a stored shipment reads back as. */
  function Stored(s: Shipment): ShipmentInput {
    ShipmentInput(
      Some(s.productId), Some(s.productName), s.productImage, Some(s.quantity),
      PersonnelInput(Some(s.deliveryPersonnel.id), Some(s.deliveryPersonnel.fullName), Some(s.deliveryPersonnel.email)),
      Some(s.destination), Some(s.note), Some(s.message), Some(StatusName(s.status)),
      MarkerInput(Some(s.markedBy.name), Some(s.markedBy.email), Some(s.markedBy.role)))
  }

  /** Every well-formed shipment passes validation again unchanged. */
  lemma WellFormedIsFixedPoint(s: Shipment)
    requires WellFormed(s)
    ensures Validate(Stored(s)) == Ok(s)
  {
    var p := Stored(s);
    PrepareStoredIsIdentity(s);
    forall v ensures !Fails(p, v) {
      match v
      case StatusNotInEnum => ParseStatusName(s.status);
      case _ =>
    }
    assert Violations(p) == {};
    ParseStatusName(s.status);
    assert Build(p) == s;
  }

  lemma PrepareStoredIsIdentity(s: Shipment)
    requires WellFormed(s)
    ensures Prepare(Stored(s)) == Stored(s)
  {
    TrimOfTrimmed(s.productName);
    if s.productImage.Some? { TrimOfTrimmed(s.productImage.value); }
    TrimOfTrimmed(s.deliveryPersonnel.fullName);
    TrimOfTrimmed(s.deliveryPersonnel.email);
    LowerIsLower(s.deliveryPersonnel.email);
    TrimOfTrimmed(s.destination);
    TrimOfTrimmed(s.note);
    TrimOfTrimmed(s.message);
    TrimOfTrimmed(s.markedBy.name);
    TrimOfTrimmed(s.markedBy.email);
    TrimOfTrimmed(s.markedBy.role);
    var p := Stored(s);
    var q := Prepare(p);
    assert q.productName == p.productName && q.productImage == p.productImage;
    assert q.deliveryPersonnel == p.deliveryPersonnel;
    assert q.destination == p.destination && q.note == p.note && q.message == p.message;
    assert q.status == p.status && q.markedBy == p.markedBy;
  }

  /** Saving a shipment that was loaded from the store leaves it as it was. */
  lemma RevalidateIsIdentity(i: ShipmentInput)
    requires Validate(i).Ok?
    ensures Validate(Stored(Validate(i).value)) == Validate(i)
  {
    WellFormedIsFixedPoint(Validate(i).value);
  }
}
