# Event booking: quota-checked registration

A model of the core of an event-ticketing application. Organizers create
events, and each event has ticket types with a price and a quota. Attendees
register for some quantity of one ticket type. The logic that matters is in
the event service. It reports how many tickets of a type are sold. It
registers one attendee after an availability check. It registers a batch all
or nothing, after a quota check on every entry. It also lists events and
looks them up by id.

The model keeps the database context in memory as three tables (events,
ticket types, registrations). Each table is a sequence that the writing
operations extend in place. Exceptions become values of a `Result` or
`Outcome` type.

- `Wrappers.dfy`: `Option`, `Result`, `Outcome`.
- `Tables.dfy`: lookup by primary key, the first row whose key is the id. Both
  the event table and the ticket-type table are searched this way.
- `Models.dfy`: the records `Event`, `TicketType` and `Registration`, their
  field defaults, and their data-annotation rules. The rules are a
  validation function that lists the rules a record breaks, field by field.
- `Sales.dfy`: the tickets-sold figure, the single-registration gate and the
  batch check. They are pure functions of the ticket-type and registration
  tables, with the lemmas about them.
- `Catalog.dfy`: how a new event and its ticket types are stored, and the
  two catalog reads with ticket types loaded (`Include`).
- `EventService.dfy`: the class `EventService`, with the tables as fields.
  `CreateEvent`, `CreateRegistration` and `AddRegistrations` change them;
  `ValidateEntries` is the validation loop of the batch path. The reads are
  functions. Each writing method is proved equal to the matching function of
  `Sales` or `Catalog`, and it keeps the foreign-key invariant `Valid()`.

Two behaviours of the code are worth stating outright:

- A batch of two one-ticket entries against a quota of 1 is accepted
  (`Sales.BatchOvershootExample`).
- Only the single path takes EventId from the ticket type. The batch path
  stores the caller's value (`Service.BatchKeepsCallerEventId`).

A quantity is not checked against the validation rules anywhere in the
service. The registration operations accept any quantity, including zero or
a negative one. Form validation is a separate function that the service never
calls, just as in the source.

## Model

| member | source | states |
|---|---|---|
| `Models.NewEvent` | EventBookingSystem/Models/Event.cs:8-27 | a new event has an empty ticket-type collection, an empty name, no description or location and capacity 0; its dates are the given instants |
| `Models.NewTicketType` | EventBookingSystem/Models/TicketType.cs:9-22 | a new ticket type has an empty name, price 0 and quota 0 |
| `Models.NewRegistration` | EventBookingSystem/Models/Registration.cs:9-38 | a new registration has status "Confirmed", its date is the clock reading, and its name, e-mail and quantity are empty or 0 |
| `Models.IsBlank` | EventBookingSystem/Models/Registration.cs:22-24 | empty or made only of characters .NET counts as white space: the values `[Required]` rejects |
| `Models.RequiredText` | EventBookingSystem/Models/Registration.cs:22-24 | a required, length-limited string passes exactly when not blank and within the limit; blank reports only Required |
| `Models.EmailText` | EventBookingSystem/Models/Registration.cs:26-29 | the e-mail passes exactly when not blank, in valid format and at most 100 characters; format and length are reported only for a non-blank value |
| `Models.OptionalText` | EventBookingSystem/Models/Event.cs:14-15 | an optional string passes exactly when absent or within its limit |
| `Models.PositiveInt32` | EventBookingSystem/Models/Registration.cs:32-33 | an int passes exactly when it lies in 1..int.MaxValue |
| `Models.ValidateEvent` | EventBookingSystem/Models/Event.cs:10-21 | an event is valid exactly when its name is non-blank and at most 100 characters, its description absent or at most 500, its location absent or at most 100 |
| `Models.ValidateTicketType` | EventBookingSystem/Models/TicketType.cs:14-22 | a ticket type is valid exactly when its name is non-blank and at most 100 characters, its price at least 0 cents and its quota in 1..int.MaxValue |
| `Models.ValidateRegistration` | EventBookingSystem/Models/Registration.cs:21-33 | a registration is valid exactly when its full name and e-mail are non-blank and at most 100 characters, the e-mail is well formed and the quantity is in 1..int.MaxValue; status and foreign keys are not checked |
| `Models.NewEventNeedsName` | EventBookingSystem/Models/Event.cs:10-12 | an event left at its defaults fails only because the name is required |
| `Models.NewTicketTypeNeedsNameAndQuota` | EventBookingSystem/Models/TicketType.cs:14-22 | a ticket type left at its defaults fails on its name and quota, not on its zero price |
| `Models.NewRegistrationNeedsAttendeeAndQuantity` | EventBookingSystem/Models/Registration.cs:22-33 | a registration left at its defaults fails on full name, e-mail and quantity |
| `Sales.ConfirmedFor` | EventBookingSystem/Data/EventService.cs:55-56 | a stored row is kept exactly when it has this ticket type and status "Confirmed"; no more rows than the table holds |
| `Sales.ConfirmedForMultiplicity` | EventBookingSystem/Data/EventService.cs:55-56 | each counting row is kept as many times as the table holds it, and every other row not at all |
| `Sales.SoldCount` | EventBookingSystem/Data/EventService.cs:53-57 | the sum of the quantities of the rows `Sales.ConfirmedFor` keeps; characterised by `Sales.SoldCountSingle`, `Sales.SoldCountAppend`, `Sales.SoldCountNoMatch`, `Sales.UnconfirmedNeverCounts` and `Sales.SoldCountBounds` |
| `Sales.SoldCountSingle` | EventBookingSystem/Data/EventService.cs:53-57 | one row adds its quantity exactly when it is Confirmed and of this ticket type |
| `Sales.SoldCountAppend` | EventBookingSystem/Data/EventService.cs:53-57 | the figure is additive over the table |
| `Sales.SoldCountNoMatch` | EventBookingSystem/Data/EventService.cs:53-57 | with no Confirmed row for the ticket type, the figure is 0 |
| `Sales.UnconfirmedNeverCounts` | EventBookingSystem/Data/EventService.cs:56 | a Pending, Canceled or any other non-Confirmed row never changes the figure, wherever it stands |
| `Sales.PendingAndCanceledNeverCount` | EventBookingSystem/Models/Registration.cs:37-38 | a row with status "Pending" or "Canceled" adds nothing to the figure, wherever it stands |
| `Sales.SoldCountBounds` | EventBookingSystem/Data/EventService.cs:53-57 | with no negative quantity stored, the figure is at least 0 and at least the quantity of each row it counts |
| `Tables.FirstIndex` | EventBookingSystem/Data/EventService.cs:45-47 | the position found holds the first row whose key is the id, or is the table's length when no row has it |
| `Tables.FindFirst` | EventBookingSystem/Data/EventService.cs:65-67 | none exactly when no row has the id as its key; otherwise the first row that has it |
| `Tables.FindFirstAppend` | EventBookingSystem/Data/EventService.cs:65-67 | appending rows does not change which row an id finds |
| `Sales.FindTicketType` | EventBookingSystem/Data/EventService.cs:65-67 | none exactly when no ticket type has the id; otherwise the first one with that id |
| `Sales.RegisterOne` | EventBookingSystem/Data/EventService.cs:63-83 | the single-registration verdict; characterised by `Sales.RegisterOneNotFound`, `Sales.RegisterOneSoldOut`, `Sales.RegisterOneIgnoresQuantity`, `Sales.RegisterOneSuccess` and `Sales.RegisterOneSoldAfter` |
| `Sales.RegisterOneNotFound` | EventBookingSystem/Data/EventService.cs:65-70 | single registration fails with "not found" exactly when no ticket type has the id |
| `Sales.RegisterOneSoldOut` | EventBookingSystem/Data/EventService.cs:72-75 | single registration is sold out exactly when the ticket type exists and sold >= quota |
| `Sales.RegisterOneIgnoresQuantity` | EventBookingSystem/Data/EventService.cs:74-75 | the single-registration verdict is the same for every requested quantity |
| `Sales.RegisterOneSuccess` | EventBookingSystem/Data/EventService.cs:74-82 | single registration succeeds exactly when the ticket type exists and sold < quota; the stored row is the caller's with EventId set to the ticket type's event |
| `Sales.RegisterOneSoldAfter` | EventBookingSystem/Data/EventService.cs:72-82 | after success the figure grows by the quantity if Confirmed and other types are untouched; it ends at or under quota exactly when the quantity fits the remaining stock, so a large quantity oversells |
| `Sales.ConferenceScenario` | EventBookingSystem/Data/EventService.cs:63-83 | with a VIP quota of 2, two one-ticket registrations succeed and the third is sold out; one five-ticket registration on the fresh type succeeds and leaves 5 sold |
| `Sales.EntryError` | EventBookingSystem/Data/EventService.cs:95-107 | a batch entry passes exactly when its ticket type exists and sold + quantity <= quota; it reports "not found" exactly when the type is missing |
| `Sales.FirstEntryError` | EventBookingSystem/Data/EventService.cs:93-108 | the error of the first failing entry in list order; characterised by `Sales.FirstEntryErrorNone` and `Sales.FirstEntryErrorIsFirst` |
| `Sales.FirstEntryErrorNone` | EventBookingSystem/Data/EventService.cs:93-108 | the validation loop gives no error exactly when every entry passes |
| `Sales.FirstEntryErrorIsFirst` | EventBookingSystem/Data/EventService.cs:93-108 | an error the validation loop gives is that of an entry preceded only by passing entries |
| `Sales.RegisterBatch` | EventBookingSystem/Data/EventService.cs:88-111 | the batch verdict; characterised by `Sales.RegisterBatchEmpty`, `Sales.RegisterBatchPass` and `Sales.RegisterBatchBlindToSiblings` |
| `Sales.RegisterBatchEmpty` | EventBookingSystem/Data/EventService.cs:90-91 | an empty batch is an argument error |
| `Sales.RegisterBatchPass` | EventBookingSystem/Data/EventService.cs:88-111 | a batch passes exactly when it is non-empty and every entry passes against the pre-batch table; a failing batch reports the first failing entry |
| `Sales.RegisterBatchBlindToSiblings` | EventBookingSystem/Data/EventService.cs:102-107 | a batch passes exactly when each of its entries passes as a batch of one; no entry sees the others |
| `Sales.BatchOvershootExample` | EventBookingSystem/Data/EventService.cs:102-111 | two one-ticket entries against quota 1 with nothing sold are accepted and leave 2 sold |
| `Sales.SoldCountDistinct` | EventBookingSystem/Data/EventService.cs:102-104 | in a batch with one entry per ticket type, an entry's type is sold only by that entry |
| `Sales.BatchKeepsQuotaForDistinct` | EventBookingSystem/Data/EventService.cs:102-111 | an accepted batch with one entry per type and no negative quantity leaves every type it names at or under quota |
| `Sales.Wrap32` | EventBookingSystem/Data/EventService.cs:106 | the result of unchecked C# int addition: in the int range, equal modulo 2^32, unchanged when no overflow |
| `Sales.EntryErrorAsWritten` | EventBookingSystem/Data/EventService.cs:106-107 | the entry check with 32-bit wrap-around passes only entries whose ticket type exists |
| `Sales.EntryCheckAgreesWithoutOverflow` | EventBookingSystem/Data/EventService.cs:106 | without overflow, the check with wrap-around and the check on integers agree |
| `Sales.OverflowAdmitsOverQuota` | EventBookingSystem/Data/EventService.cs:106-107 | with one ticket sold and quota 10, a valid entry for int.MaxValue tickets passes the wrapping check and oversells; the integer check rejects it |
| `Sales.EntryWithinQuota` | EventBookingSystem/Data/EventService.cs:106-107 | an entry the integer check accepts, with quantity >= 0, leaves its type at or under quota |
| `Catalog.StoredRow` | EventBookingSystem/Data/EventService.cs:24 | the events-table row has an empty collection, yet loading its ticket types from any table gives the same event as loading them for the original |
| `Catalog.OwnedTicketTypes` | EventBookingSystem/Models/TicketType.cs:11-12 | the ticket types attached to a new event all belong to it: loading that event's ticket types from them gives all of them back, in order; each keeps every field but EventId |
| `Catalog.TicketTypesOf` | EventBookingSystem/Data/EventService.cs:35 | the loaded collection holds exactly the ticket types whose EventId is the event's |
| `Catalog.Populate` | EventBookingSystem/Data/EventService.cs:46 | an event read with its ticket types differs from its row only in the collection, which holds exactly its ticket types |
| `Catalog.FindEvent` | EventBookingSystem/Data/EventService.cs:45-47 | none exactly when no event has the id; otherwise the first one with that id |
| `Catalog.InsertByStart` | EventBookingSystem/Data/EventService.cs:36 | inserting into a start-date-sorted list keeps it sorted and adds exactly that event |
| `Catalog.InsertKeepsSorted` | EventBookingSystem/Data/EventService.cs:36 | an event starting no later than all the others can go first in a sorted list |
| `Catalog.SortByStart` | EventBookingSystem/Data/EventService.cs:36 | the result is sorted ascending by start date and is a permutation of the input |
| `Catalog.CreatedEventIsFound` | EventBookingSystem/Data/EventService.cs:22-48 | an event saved with a fresh id is found again by id, with exactly its attached ticket types in order |
| `Service.KeysResolve` | EventBookingSystem/Data/ApplicationDbContext.cs:27-38 | every ticket type names a stored event and every registration a stored ticket type: the required relationships of the mapping |
| `Service.EventService.Valid` | EventBookingSystem/Data/ApplicationDbContext.cs:27-38 | the service's tables satisfy `Service.KeysResolve`; every writing method keeps it |
| `Service.DerivedEventIdsResolve` | EventBookingSystem/Models/Registration.cs:11-19 | where each registration's EventId comes from its ticket type, it names a stored event |
| `Service.BatchKeepsCallerEventId` | EventBookingSystem/Data/EventService.cs:110 | a batch entry with an EventId other than its ticket type's event is accepted and stored as given |
| `Service.MaxCapacityNotEnforced` | EventBookingSystem/Models/Event.cs:23-24 | with a capacity of 1, three tickets are accepted by both registration paths |
| `Service.SaveEventKeepsKeys` | EventBookingSystem/Data/ApplicationDbContext.cs:27-31 | saving an event and its attached ticket types keeps every ticket type pointing at a stored event and every registration at a stored ticket type |
| `Service.SaveEventKeepsDerived` | EventBookingSystem/Data/EventService.cs:22-27 | saving ticket types changes no registration's ticket type, so derived EventIds stay derived |
| `Service.AppendRegistrationKeepsKeys` | EventBookingSystem/Data/ApplicationDbContext.cs:34-38 | appending a registration whose ticket type is stored keeps the foreign keys |
| `Service.AppendRegistrationKeepsDerived` | EventBookingSystem/Data/EventService.cs:77-79 | appending a registration that carries its ticket type's EventId keeps every EventId derived |
| `Service.SavedEventIsRead` | EventBookingSystem/Data/EventService.cs:22-48 | after an event is saved with a fresh id, the lookup by id returns it with its ticket types and the listing contains it |
| `Service.EventService.constructor` | EventBookingSystem/Data/EventService.cs:14-17 | the service works on the tables it is given |
| `Service.EventService.CreateEvent` | EventBookingSystem/Data/EventService.cs:22-27 | appends the event row and its attached ticket types, now carrying its id, and returns the event; registrations are untouched and the key invariants are kept; with a fresh id the event is then found by id and listed |
| `Service.EventService.GetEvents` | EventBookingSystem/Data/EventService.cs:32-38 | as many events as the table holds, each with its ticket types loaded (`Catalog.PopulateAll`), sorted ascending by start date, and a permutation of the loaded table |
| `Service.EventService.GetEventById` | EventBookingSystem/Data/EventService.cs:43-48 | none exactly when no event has the id; otherwise the first such event with exactly its ticket types |
| `Service.EventService.TicketsSold` | EventBookingSystem/Data/EventService.cs:53-58 | the table's sold figure (`Sales.SoldCount`): 0 when no row counts, and with no negative quantity at least 0 and at least each counting row's quantity |
| `Service.EventService.CreateRegistration` | EventBookingSystem/Data/EventService.cs:63-83 | the result is the single-registration verdict on the old tables; on success exactly the returned row is appended, otherwise nothing changes; the key invariants and derived EventIds are kept, and where both hold every registration's EventId names a stored event |
| `Service.EventService.ValidateEntries` | EventBookingSystem/Data/EventService.cs:93-108 | the loop stops at the first failing entry and reports its error; none exactly when every entry passes |
| `Service.EventService.AddRegistrations` | EventBookingSystem/Data/EventService.cs:88-112 | the result is the batch verdict on the old tables; on success the batch is appended in order as given, otherwise nothing changes; the key invariant is kept |

## Left out

- Host setup, dependency injection, the web UI and the SQLite connection (`EventBookingSystem/Program.cs`) are plumbing with no logic to model.
- The EF Core mapping is kept only for its facts: the required event of a ticket type, the two registration foreign keys and 2-place prices. Delete behaviours are left out because nothing in the core deletes.
- Asynchrony and `SaveChangesAsync` failures are left out: each operation is one atomic step, and persistence errors are not modelled.
- The race between reading the sold figure and writing the row is left out: two concurrent requests can both pass the check, but the model is sequential.
- The database does not assign identities: ids are whatever the caller supplies, and a returned registration or event keeps that id.
- `DateTime.Now` defaults become parameters of `NewEvent` and `NewRegistration`; dates are plain integers that are only compared.
- The `[EmailAddress]` format check is the parameter `isEmail`, since its code belongs to the framework.
- Prices are whole cents, so a decimal with more than two places cannot be stated.
- String lengths count Unicode scalar values, where .NET counts UTF-16 code units.
- The sold figure is an unbounded mathematical sum. The database's `SUM` and its conversion to a 32-bit int, with any overflow there, are not modelled.
- The operations change copies of the caller's objects, not the objects themselves, so in-place updates and aliasing are not modelled:
  - `CreateRegistration` returns the registration with its new EventId; the source changes the caller's object.
  - `CreateEvent` returns the saved event with its attached ticket types carrying its id; the source gives the caller's `Event` its id and fixes up each attached `TicketType`'s EventId in place.
  - `AddRegistrations` appends every entry of the batch; when the source's list holds the same `Registration` object twice, `AddRange` tracks it, and inserts it, only once.
- Service.EventService.ValidateEntries: adds `ticketsSold + reg.Quantity` as unbounded integers (the corrected check, see Findings), where the source adds two 32-bit ints that wrap around; an entry whose sum overflows is rejected here but passes in the source.
- Service.EventService.AddRegistrations: rests on the same corrected entry check, so it rejects a batch whose sum overflows, which the source stores.
- A null batch list has no counterpart: the empty sequence stands for both, and both give the same argument error.
- The database's foreign-key check at save time is not modelled. A batch entry whose EventId names no event would make the save fail in the database; the model stores it.
- Navigation properties (`Registration.TicketType`, `Registration.Event`, `TicketType.Event`, `TicketType.Registrations`) are not modelled; only the key fields are, plus an event's loaded ticket types.
- Service.EventService.GetEvents: leaves the order of events with equal start dates unspecified; the contract admits any such order, and the function returns one of them.
- Service.EventService.GetEventById: an unordered `FirstOrDefault` is modelled as the first match in table order.

## Findings

| source | as written | input that shows it | evidently intended | confidence | as-written member | corrected member |
|---|---|---|---|---|---|---|
| EventBookingSystem/Data/EventService.cs:106 | `ticketsSold + reg.Quantity > ticketType.Quota` is unchecked 32-bit `int` addition | one Confirmed ticket sold, quota 10, a batch entry with `Quantity = 2147483647`, which the `Range(1, int.MaxValue)` rule allows: the sum wraps to -2147483648 and the entry passes | the sum is compared without wrap-around, so the entry fails with "quota exceeded" | not executed; assumes the default unchecked build | `Sales.OverflowAdmitsOverQuota` | `Sales.EntryWithinQuota` |

Everything else in the model uses the corrected check (`Sales.EntryError`).
`Sales.EntryCheckAgreesWithoutOverflow` shows that the two checks agree
whenever the sum fits in an `int`.
