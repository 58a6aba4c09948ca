/**
 * The three records of the booking domain (Event, TicketType, Registration),
 * their field defaults, and the data-annotation rules that form validation
 * applies to them. Validation reports the violated rules one field at a
 * time, in declaration order; a blank required field reports only that it is
 * required, as the data-annotation validator skips a field's other rules
 * once its [Required] rule fails.
 */
module Models {
  import opened Wrappers

  const Int32Max: int := 0x7FFF_FFFF
  const Int32Min: int := -0x8000_0000

  /** The range of a C# `int`. */
  predicate IsInt32(x: int) {
    Int32Min <= x <= Int32Max
  }

  /** A point in time. The model only compares instants; it never reads a clock. */
  type Instant = int

  /** The status values named beside Registration.Status; only Confirmed is ever compared against. */
  const Pending: string := "Pending"
  const Confirmed: string := "Confirmed"
  const Canceled: string := "Canceled"

  /** The longest name, attendee name, e-mail and location a form accepts. */
  const ShortTextMax: nat := 100
  /** The longest event description a form accepts. */
  const DescriptionMax: nat := 500

  /** An event; `ticketTypes` is the navigation collection filled when an event is read with its ticket types. */
  datatype Event = Event(
    id: int,
    name: string,
    description: Option<string>,
    startDate: Instant,
    endDate: Instant,
    location: Option<string>,
    maxCapacity: int,
    ticketTypes: seq<TicketType>)

  /** A priced, quota-bounded kind of admission to one event. The price is held in cents (two decimal places). */
  datatype TicketType = TicketType(
    id: int,
    eventId: int,
    name: string,
    priceCents: int,
    quota: int)

  /** One attendee's claim on `quantity` tickets of one ticket type; it carries both foreign keys. */
  datatype Registration = Registration(
    id: int,
    ticketTypeId: int,
    eventId: int,
    fullName: string,
    email: string,
    quantity: int,
    registrationDate: Instant,
    status: string)

  /** A new Event object; the two dates stand for the clock-derived defaults. */
  function NewEvent(startDate: Instant, endDate: Instant): (e: Event)
    ensures e.ticketTypes == []
    ensures e.name == "" && e.description == None && e.location == None
    ensures e.id == 0 && e.maxCapacity == 0
    ensures e.startDate == startDate && e.endDate == endDate
  {
    Event(0, "", None, startDate, endDate, None, 0, [])
  }

  /** A new TicketType object. */
  function NewTicketType(): (t: TicketType)
    ensures t.name == "" && t.priceCents == 0 && t.quota == 0
    ensures t.id == 0 && t.eventId == 0
  {
    TicketType(0, 0, "", 0, 0)
  }

  /** A new Registration object; `now` stands for the clock reading that the registration date defaults to. */
  function NewRegistration(now: Instant): (r: Registration)
    ensures r.status == Confirmed
    ensures r.registrationDate == now
    ensures r.fullName == "" && r.email == "" && r.quantity == 0
    ensures r.id == 0 && r.ticketTypeId == 0 && r.eventId == 0
  {
    Registration(0, 0, 0, "", "", 0, now, Confirmed)
  }

  /** The characters .NET classifies as white space. */
  predicate IsWhiteSpace(c: char) {
    var n := c as int;
    (0x09 <= n <= 0x0D) || n == 0x20 || n == 0x85 || n == 0xA0 || n == 0x1680
    || (0x2000 <= n <= 0x200A) || n == 0x2028 || n == 0x2029 || n == 0x202F
    || n == 0x205F || n == 0x3000
  }

  /** Empty or nothing but white space: what [Required] rejects in a string. */
  predicate IsBlank(s: string) {
    forall i :: 0 <= i < |s| ==> IsWhiteSpace(s[i])
  }

  datatype Field =
    | EventName | EventDescription | EventLocation
    | TicketTypeName | TicketTypePrice | TicketTypeQuota
    | FullName | Email | Quantity

  /** A broken validation rule and the field it was found on. */
  datatype Violation =
    | Required(field: Field)
    | TooLong(field: Field, maxLength: nat)
    | OutOfRange(field: Field)
    | InvalidEmail(field: Field)

  /** A [Required] string field followed by a length limit. */
  function RequiredText(field: Field, s: string, maxLength: nat): (errs: seq<Violation>)
    ensures (errs == []) == (!IsBlank(s) && |s| <= maxLength)
    ensures Required(field) in errs <==> IsBlank(s)
    ensures TooLong(field, maxLength) in errs <==> !IsBlank(s) && |s| > maxLength
    ensures forall v :: v in errs ==> v.field == field
  {
    if IsBlank(s) then [Required(field)]
    else if |s| > maxLength then [TooLong(field, maxLength)]
    else []
  }

  /** An optional string field with a length limit; a missing value passes. */
  function OptionalText(field: Field, s: Option<string>, maxLength: nat): (errs: seq<Violation>)
    ensures (errs == []) == (s.None? || |s.value| <= maxLength)
    ensures forall v :: v in errs <==> v == TooLong(field, maxLength) && s.Some? && |s.value| > maxLength
  {
    if s.Some? && |s.value| > maxLength then [TooLong(field, maxLength)] else []
  }

  /** [Range(1, int.MaxValue)] on an int field. */
  function PositiveInt32(field: Field, x: int): (errs: seq<Violation>)
    ensures (errs == []) == (1 <= x <= Int32Max)
    ensures forall v :: v in errs <==> v == OutOfRange(field) && !(1 <= x <= Int32Max)
  {
    if 1 <= x <= Int32Max then [] else [OutOfRange(field)]
  }

  /** [Required], [EmailAddress] and a length limit on the e-mail field; both later rules report when the value is not blank. */
  function EmailText(s: string, isEmail: string -> bool): (errs: seq<Violation>)
    ensures (errs == []) == (!IsBlank(s) && isEmail(s) && |s| <= ShortTextMax)
    ensures Required(Email) in errs <==> IsBlank(s)
    ensures InvalidEmail(Email) in errs <==> !IsBlank(s) && !isEmail(s)
    ensures TooLong(Email, ShortTextMax) in errs <==> !IsBlank(s) && |s| > ShortTextMax
    ensures forall v :: v in errs ==> v.field == Email
  {
    if IsBlank(s) then [Required(Email)]
    else
      var format := if isEmail(s) then [] else [InvalidEmail(Email)];
      var length := if |s| <= ShortTextMax then [] else [TooLong(Email, ShortTextMax)];
      format + length
  }

  /** The rules on Event: a required name, an optional description and location, each length-limited. */
  function ValidateEvent(e: Event): (errs: seq<Violation>)
    ensures (errs == []) ==
      (!IsBlank(e.name) && |e.name| <= ShortTextMax
       && (e.description.None? || |e.description.value| <= DescriptionMax)
       && (e.location.None? || |e.location.value| <= ShortTextMax))
    ensures Required(EventName) in errs <==> IsBlank(e.name)
    ensures forall v :: v in errs ==> v.field in {EventName, EventDescription, EventLocation}
  {
    RequiredText(EventName, e.name, ShortTextMax)
    + OptionalText(EventDescription, e.description, DescriptionMax)
    + OptionalText(EventLocation, e.location, ShortTextMax)
  }

  /** The rules on TicketType: a required, length-limited name, a price of at least zero, a quota of at least one. */
  function ValidateTicketType(t: TicketType): (errs: seq<Violation>)
    ensures (errs == []) ==
      (!IsBlank(t.name) && |t.name| <= ShortTextMax && t.priceCents >= 0 && 1 <= t.quota <= Int32Max)
    ensures OutOfRange(TicketTypePrice) in errs <==> t.priceCents < 0
    ensures OutOfRange(TicketTypeQuota) in errs <==> !(1 <= t.quota <= Int32Max)
  {
    RequiredText(TicketTypeName, t.name, ShortTextMax)
    + (if t.priceCents >= 0 then [] else [OutOfRange(TicketTypePrice)])
    + PositiveInt32(TicketTypeQuota, t.quota)
  }

  /**
   * The rules on Registration: required, length-limited attendee name and
   * e-mail, the e-mail in a valid format (`isEmail` stands for the
   * framework's format check), and a quantity of at least one.
   * Neither the status nor the foreign keys are validated.
   */
  function ValidateRegistration(r: Registration, isEmail: string -> bool): (errs: seq<Violation>)
    ensures (errs == []) ==
      (!IsBlank(r.fullName) && |r.fullName| <= ShortTextMax
       && !IsBlank(r.email) && isEmail(r.email) && |r.email| <= ShortTextMax
       && 1 <= r.quantity <= Int32Max)
    ensures Required(FullName) in errs <==> IsBlank(r.fullName)
    ensures Required(Email) in errs <==> IsBlank(r.email)
    ensures InvalidEmail(Email) in errs <==> !IsBlank(r.email) && !isEmail(r.email)
    ensures OutOfRange(Quantity) in errs <==> !(1 <= r.quantity <= Int32Max)
  {
    RequiredText(FullName, r.fullName, ShortTextMax)
    + EmailText(r.email, isEmail)
    + PositiveInt32(Quantity, r.quantity)
  }

  /** A form left at its defaults is rejected: an event needs a name. */
  lemma NewEventNeedsName(startDate: Instant, endDate: Instant)
    ensures ValidateEvent(NewEvent(startDate, endDate)) == [Required(EventName)]
  {
  }

  /** A ticket type left at its defaults needs a name and a quota of at least one; a zero price is allowed. */
  lemma NewTicketTypeNeedsNameAndQuota()
    ensures ValidateTicketType(NewTicketType()) == [Required(TicketTypeName), OutOfRange(TicketTypeQuota)]
  {
  }

  /** A registration left at its defaults needs a name, an e-mail and a quantity of at least one. */
  lemma NewRegistrationNeedsAttendeeAndQuantity(now: Instant, isEmail: string -> bool)
    ensures ValidateRegistration(NewRegistration(now), isEmail)
      == [Required(FullName), Required(Email), OutOfRange(Quantity)]
  {
  }
}
