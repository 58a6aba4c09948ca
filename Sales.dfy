/**
 * The quota rules of the registration service, stated over the rows of the
 * ticket-type and registration tables as they stand before the call:
 * the tickets-sold figure, the single-registration gate and the batch
 * validation. The service class in module Service performs these steps
 * on its tables and is proved to agree with the functions here.
 */
module Sales {
  import opened Wrappers
  import opened Models
  import opened Tables

  /** The exceptions the registration operations throw. */
  datatype Error =
    | TicketTypeMissing                       // single registration: "Ticket type not found."
    | TicketTypeIdMissing(ticketTypeId: int)  // batch: "Ticket type with ID … not found."
    | SoldOut(ticketName: string)             // single registration: "The ticket '…' is sold out."
    | QuotaExceeded(ticketName: string)       // batch: "Quota exceeded for ticket type '…'."
    | NoRegistrations                         // batch: the argument error for a null or empty list

  // ---------------------------------------------------------------------------
  // Tickets sold
  // ---------------------------------------------------------------------------

  /** A row that the tickets-sold figure of ticket type `ticketTypeId` adds up. */
  predicate Counts(r: Registration, ticketTypeId: int) {
    r.ticketTypeId == ticketTypeId && r.status == Confirmed
  }

  /** The registrations that count toward `ticketTypeId`, in table order. */
  function ConfirmedFor(regs: seq<Registration>, ticketTypeId: int): (r: seq<Registration>)
    ensures |r| <= |regs|
    ensures forall x :: x in r <==> x in regs && Counts(x, ticketTypeId)
  {
    if regs == [] then []
    else (if Counts(regs[0], ticketTypeId) then [regs[0]] else []) + ConfirmedFor(regs[1..], ticketTypeId)
  }

  /** Each row is kept as many times as the table holds it when it counts, and dropped otherwise. */
  lemma {:induction false} ConfirmedForMultiplicity(regs: seq<Registration>, ticketTypeId: int)
    ensures forall x :: multiset(ConfirmedFor(regs, ticketTypeId))[x] == if Counts(x, ticketTypeId) then multiset(regs)[x] else 0
  {
    if regs != [] {
      ConfirmedForMultiplicity(regs[1..], ticketTypeId);
      assert regs == [regs[0]] + regs[1..];
    }
  }

  /** The sum of the quantities of `regs`. */
  function TotalQuantity(regs: seq<Registration>): int {
    if regs == [] then 0 else regs[0].quantity + TotalQuantity(regs[1..])
  }

  /** Tickets sold for a ticket type: the quantities of its Confirmed registrations, added up. */
  function SoldCount(regs: seq<Registration>, ticketTypeId: int): int {
    TotalQuantity(ConfirmedFor(regs, ticketTypeId))
  }

  lemma {:induction false} ConfirmedForAppend(a: seq<Registration>, b: seq<Registration>, ticketTypeId: int)
    ensures ConfirmedFor(a + b, ticketTypeId) == ConfirmedFor(a, ticketTypeId) + ConfirmedFor(b, ticketTypeId)
  {
    if a != [] {
      assert (a + b)[1..] == a[1..] + b;
      ConfirmedForAppend(a[1..], b, ticketTypeId);
    } else {
      assert a + b == b;
    }
  }

  lemma {:induction false} TotalQuantityAppend(a: seq<Registration>, b: seq<Registration>)
    ensures TotalQuantity(a + b) == TotalQuantity(a) + TotalQuantity(b)
  {
    if a != [] {
      assert (a + b)[1..] == a[1..] + b;
      TotalQuantityAppend(a[1..], b);
    } else {
      assert a + b == b;
    }
  }

  /** Tickets sold over two stretches of the table is the sum of the two figures. */
  lemma SoldCountAppend(a: seq<Registration>, b: seq<Registration>, ticketTypeId: int)
    ensures SoldCount(a + b, ticketTypeId) == SoldCount(a, ticketTypeId) + SoldCount(b, ticketTypeId)
  {
    ConfirmedForAppend(a, b, ticketTypeId);
    TotalQuantityAppend(ConfirmedFor(a, ticketTypeId), ConfirmedFor(b, ticketTypeId));
  }

  /** One row adds its quantity when it is Confirmed and for this ticket type, and nothing otherwise. */
  lemma SoldCountSingle(r: Registration, ticketTypeId: int)
    ensures SoldCount([r], ticketTypeId) == if Counts(r, ticketTypeId) then r.quantity else 0
  {
    assert [r][1..] == [];
    assert ConfirmedFor([r], ticketTypeId) == if Counts(r, ticketTypeId) then [r] else [];
    assert TotalQuantity([r]) == r.quantity + TotalQuantity([]);
  }

  /** With no Confirmed row for the ticket type, nothing is sold. */
  lemma {:induction false} SoldCountNoMatch(regs: seq<Registration>, ticketTypeId: int)
    requires forall k :: 0 <= k < |regs| ==> !Counts(regs[k], ticketTypeId)
    ensures SoldCount(regs, ticketTypeId) == 0
  {
    if regs != [] {
      SoldCountNoMatch(regs[1..], ticketTypeId);
      assert ConfirmedFor(regs, ticketTypeId) == ConfirmedFor(regs[1..], ticketTypeId);
    }
  }

  /** A row that is not Confirmed (Pending, Canceled or anything else) never changes the figure, wherever it stands. */
  lemma UnconfirmedNeverCounts(a: seq<Registration>, r: Registration, b: seq<Registration>, ticketTypeId: int)
    requires r.status != Confirmed
    ensures SoldCount(a + [r] + b, ticketTypeId) == SoldCount(a + b, ticketTypeId)
  {
    SoldCountAppend(a + [r], b, ticketTypeId);
    SoldCountAppend(a, [r], ticketTypeId);
    SoldCountSingle(r, ticketTypeId);
    SoldCountAppend(a, b, ticketTypeId);
  }

  /** Pending and Canceled rows, the other two statuses a registration carries, add nothing to the figure. */
  lemma PendingAndCanceledNeverCount(a: seq<Registration>, r: Registration, b: seq<Registration>, ticketTypeId: int)
    requires r.status == Pending || r.status == Canceled
    ensures SoldCount(a + [r] + b, ticketTypeId) == SoldCount(a + b, ticketTypeId)
  {
    assert Pending[0] != Confirmed[0] && Canceled[1] != Confirmed[1];
    UnconfirmedNeverCounts(a, r, b, ticketTypeId);
  }

  /** When every stored quantity is at least zero, so is the figure, and it is at least the quantity of any row it adds up. */
  lemma {:induction false} SoldCountBounds(regs: seq<Registration>, ticketTypeId: int)
    requires forall k :: 0 <= k < |regs| ==> regs[k].quantity >= 0
    ensures SoldCount(regs, ticketTypeId) >= 0
    ensures forall k :: 0 <= k < |regs| && Counts(regs[k], ticketTypeId) ==> SoldCount(regs, ticketTypeId) >= regs[k].quantity
  {
    if regs != [] {
      SoldCountBounds(regs[1..], ticketTypeId);
      assert regs == [regs[0]] + regs[1..];
      SoldCountAppend([regs[0]], regs[1..], ticketTypeId);
      SoldCountSingle(regs[0], ticketTypeId);
      forall k | 0 <= k < |regs| && Counts(regs[k], ticketTypeId)
        ensures SoldCount(regs, ticketTypeId) >= regs[k].quantity
      {
        if k > 0 {
          assert regs[k] == regs[1..][k - 1];
        }
      }
    }
  }

  // ---------------------------------------------------------------------------
  // Ticket type lookup
  // ---------------------------------------------------------------------------

  /** The primary key of a ticket type. */
  function TicketTypeKey(t: TicketType): int {
    t.id
  }

  /** The first ticket type with the given id, in table order, or None. */
  function FindTicketType(tts: seq<TicketType>, id: int): (r: Option<TicketType>)
    ensures r.None? <==> forall k :: 0 <= k < |tts| ==> tts[k].id != id
    ensures r.Some? ==> r.value in tts && r.value.id == id
    ensures forall k :: 0 <= k < |tts| && tts[k].id == id && (forall j :: 0 <= j < k ==> tts[j].id != id)
              ==> r == Some(tts[k])
  {
    FindFirst(tts, TicketTypeKey, id)
  }

  // ---------------------------------------------------------------------------
  // Single registration
  // ---------------------------------------------------------------------------

  /**
   * The result of registering `reg` against the tables `tts` and `regs`:
   * a missing ticket type fails, a ticket type whose sold figure has
   * reached its quota is sold out, and otherwise the registration is
   * stored with the event of its ticket type in place of its own.
   */
  function RegisterOne(tts: seq<TicketType>, regs: seq<Registration>, reg: Registration): (out: Result<Registration, Error>)
  {
    match FindTicketType(tts, reg.ticketTypeId)
    case None => Failure(TicketTypeMissing)
    case Some(tt) =>
      if SoldCount(regs, reg.ticketTypeId) >= tt.quota then Failure(SoldOut(tt.name))
      else Success(reg.(eventId := tt.eventId))
  }

  /** An unknown ticket type, and only that, gives "not found". */
  lemma RegisterOneNotFound(tts: seq<TicketType>, regs: seq<Registration>, reg: Registration)
    ensures RegisterOne(tts, regs, reg) == Failure(TicketTypeMissing)
        <==> forall k :: 0 <= k < |tts| ==> tts[k].id != reg.ticketTypeId
  {
  }

  /** "Sold out" exactly when the ticket type exists and its sold figure is at least its quota. */
  lemma RegisterOneSoldOut(tts: seq<TicketType>, regs: seq<Registration>, reg: Registration)
    ensures RegisterOne(tts, regs, reg).Failure? && RegisterOne(tts, regs, reg).error.SoldOut?
        <==> FindTicketType(tts, reg.ticketTypeId).Some?
             && SoldCount(regs, reg.ticketTypeId) >= FindTicketType(tts, reg.ticketTypeId).value.quota
  {
  }

  /**
   * The gate does not look at the requested quantity: any other quantity
   * gets the same verdict, and the same stored row up to that field.
   */
  lemma RegisterOneIgnoresQuantity(tts: seq<TicketType>, regs: seq<Registration>, reg: Registration, quantity: int)
    ensures RegisterOne(tts, regs, reg.(quantity := quantity)).Success? == RegisterOne(tts, regs, reg).Success?
    ensures RegisterOne(tts, regs, reg).Failure? ==>
              RegisterOne(tts, regs, reg.(quantity := quantity)) == RegisterOne(tts, regs, reg)
    ensures RegisterOne(tts, regs, reg).Success? ==>
              RegisterOne(tts, regs, reg.(quantity := quantity)).value == RegisterOne(tts, regs, reg).value.(quantity := quantity)
  {
  }

  /**
   * Success happens exactly when the ticket type exists and sold < quota.
   * The stored row is the caller's with EventId replaced by the ticket
   * type's event.
   */
  lemma RegisterOneSuccess(tts: seq<TicketType>, regs: seq<Registration>, reg: Registration)
    ensures var found := FindTicketType(tts, reg.ticketTypeId);
      (RegisterOne(tts, regs, reg).Success?
       <==> found.Some? && SoldCount(regs, reg.ticketTypeId) < found.value.quota)
    ensures var found := FindTicketType(tts, reg.ticketTypeId);
      RegisterOne(tts, regs, reg).Success? ==>
        && RegisterOne(tts, regs, reg).value.eventId == found.value.eventId
        && RegisterOne(tts, regs, reg).value == reg.(eventId := found.value.eventId)
  {
  }

  /**
   * After a successful registration the sold figure of its ticket type grows
   * by the requested quantity when the row is Confirmed, and stays put
   * otherwise; the figures of other ticket types do not move.
   * Since the gate demands only sold < quota, a Confirmed quantity larger than
   * the remaining stock pushes the figure past the quota, and a quantity
   * within it keeps the figure at or under the quota.
   */
  lemma RegisterOneSoldAfter(tts: seq<TicketType>, regs: seq<Registration>, reg: Registration, other: int)
    requires RegisterOne(tts, regs, reg).Success?
    requires other != reg.ticketTypeId
    ensures var stored := RegisterOne(tts, regs, reg).value;
      var sold := SoldCount(regs, reg.ticketTypeId);
      && SoldCount(regs + [stored], reg.ticketTypeId) == sold + (if reg.status == Confirmed then reg.quantity else 0)
      && SoldCount(regs + [stored], other) == SoldCount(regs, other)
    ensures var stored := RegisterOne(tts, regs, reg).value;
      var quota := FindTicketType(tts, reg.ticketTypeId).value.quota;
      var sold := SoldCount(regs, reg.ticketTypeId);
      (SoldCount(regs + [stored], reg.ticketTypeId) <= quota
       <==> reg.status != Confirmed || reg.quantity <= quota - sold)
  {
    var stored := RegisterOne(tts, regs, reg).value;
    RegisterOneSuccess(tts, regs, reg);
    assert stored.ticketTypeId == reg.ticketTypeId && stored.status == reg.status && stored.quantity == reg.quantity;
    SoldCountAppend(regs, [stored], reg.ticketTypeId);
    SoldCountSingle(stored, reg.ticketTypeId);
    SoldCountAppend(regs, [stored], other);
    SoldCountSingle(stored, other);
  }

  /**
   * A conference with a VIP ticket of quota 2: two single registrations
   * of one ticket each succeed, and the third is sold out. A single
   * registration of 5 tickets against the fresh type also succeeds,
   * leaving 5 sold against a quota of 2.
   */
  lemma ConferenceScenario(r1: Registration, r2: Registration, r3: Registration)
    requires r1.ticketTypeId == 7 && r2.ticketTypeId == 7 && r3.ticketTypeId == 7
    requires r1.quantity == 1 && r2.quantity == 1 && r3.quantity == 1
    requires r1.status == Confirmed && r2.status == Confirmed
    ensures var vip := [TicketType(7, 1, "VIP", 50000, 2)];
      && RegisterOne(vip, [], r1) == Success(r1.(eventId := 1))
      && RegisterOne(vip, [r1.(eventId := 1)], r2) == Success(r2.(eventId := 1))
      && RegisterOne(vip, [r1.(eventId := 1), r2.(eventId := 1)], r3) == Failure(SoldOut("VIP"))
      && RegisterOne(vip, [], r1.(quantity := 5)).Success?
      && SoldCount([RegisterOne(vip, [], r1.(quantity := 5)).value], 7) == 5
  {
    var vip := [TicketType(7, 1, "VIP", 50000, 2)];
    SoldCountSingle(r1.(eventId := 1), 7);
    SoldCountAppend([r1.(eventId := 1)], [r2.(eventId := 1)], 7);
    SoldCountSingle(r2.(eventId := 1), 7);
    SoldCountSingle(r1.(quantity := 5).(eventId := 1), 7);
    assert [] + [r1.(eventId := 1)] == [r1.(eventId := 1)];
  }

  // ---------------------------------------------------------------------------
  // Batch registration
  // ---------------------------------------------------------------------------

  /**
   * The check made on one batch entry, against the table as it stood before
   * the batch: its ticket type must exist and its quantity must fit on top
   * of what is already sold.
   */
  function EntryError(tts: seq<TicketType>, regs: seq<Registration>, reg: Registration): (e: Option<Error>)
    ensures e.None? <==>
      (FindTicketType(tts, reg.ticketTypeId).Some?
       && SoldCount(regs, reg.ticketTypeId) + reg.quantity <= FindTicketType(tts, reg.ticketTypeId).value.quota)
    ensures e == Some(TicketTypeIdMissing(reg.ticketTypeId)) <==> FindTicketType(tts, reg.ticketTypeId).None?
  {
    match FindTicketType(tts, reg.ticketTypeId)
    case None => Some(TicketTypeIdMissing(reg.ticketTypeId))
    case Some(tt) =>
      if SoldCount(regs, reg.ticketTypeId) + reg.quantity > tt.quota then Some(QuotaExceeded(tt.name))
      else None
  }

  /** The error of the first entry, in list order, that fails its check; None when all pass. */
  function FirstEntryError(tts: seq<TicketType>, regs: seq<Registration>, batch: seq<Registration>): Option<Error> {
    if batch == [] then None
    else match EntryError(tts, regs, batch[0])
      case Some(e) => Some(e)
      case None => FirstEntryError(tts, regs, batch[1..])
  }

  /** The verdict on a batch: an empty list is an argument error, otherwise the first failing entry's error, else success. */
  function RegisterBatch(tts: seq<TicketType>, regs: seq<Registration>, batch: seq<Registration>): (out: Outcome<Error>)
  {
    if |batch| == 0 then Fail(NoRegistrations)
    else match FirstEntryError(tts, regs, batch)
      case Some(e) => Fail(e)
      case None => Pass
  }

  /** The validation loop finds no error exactly when every entry passes its check. */
  lemma {:induction false} FirstEntryErrorNone(tts: seq<TicketType>, regs: seq<Registration>, batch: seq<Registration>)
    ensures FirstEntryError(tts, regs, batch).None? <==> forall k :: 0 <= k < |batch| ==> EntryError(tts, regs, batch[k]).None?
  {
    if batch != [] {
      var head, rest := EntryError(tts, regs, batch[0]), FirstEntryError(tts, regs, batch[1..]);
      assert FirstEntryError(tts, regs, batch) == if head.Some? then head else rest;
      FirstEntryErrorNone(tts, regs, batch[1..]);
      assert forall k :: 1 <= k < |batch| ==> batch[k] == batch[1..][k - 1];
    }
  }

  /** The first failing entry: its error is reported and every entry before it passed. */
  lemma {:induction false} FirstEntryErrorIsFirst(tts: seq<TicketType>, regs: seq<Registration>, batch: seq<Registration>)
    ensures FirstEntryError(tts, regs, batch).Some? ==>
      exists k :: 0 <= k < |batch| && EntryError(tts, regs, batch[k]) == FirstEntryError(tts, regs, batch)
        && forall j :: 0 <= j < k ==> EntryError(tts, regs, batch[j]).None?
  {
    if batch != [] {
      var head, rest := EntryError(tts, regs, batch[0]), FirstEntryError(tts, regs, batch[1..]);
      assert FirstEntryError(tts, regs, batch) == if head.Some? then head else rest;
      if head.None? && rest.Some? {
        FirstEntryErrorIsFirst(tts, regs, batch[1..]);
        var k :| 0 <= k < |batch[1..]| && EntryError(tts, regs, batch[1..][k]) == rest
          && forall j :: 0 <= j < k ==> EntryError(tts, regs, batch[1..][j]).None?;
        assert batch[k + 1] == batch[1..][k];
        assert forall j :: 1 <= j < k + 1 ==> batch[j] == batch[1..][j - 1];
      }
    }
  }

  /** An empty batch is an argument error, whatever the tables hold. */
  lemma RegisterBatchEmpty(tts: seq<TicketType>, regs: seq<Registration>)
    ensures RegisterBatch(tts, regs, []) == Fail(NoRegistrations)
  {
  }

  /**
   * A non-empty batch passes exactly when every entry, checked on its own
   * against the pre-batch table, passes; so one entry with a missing ticket
   * type or an overshooting quantity fails the whole batch with the error of
   * the first such entry.
   */
  lemma RegisterBatchPass(tts: seq<TicketType>, regs: seq<Registration>, batch: seq<Registration>)
    ensures RegisterBatch(tts, regs, batch) == Pass
        <==> |batch| > 0 && forall k :: 0 <= k < |batch| ==> EntryError(tts, regs, batch[k]).None?
    ensures RegisterBatch(tts, regs, batch).Fail? && |batch| > 0 ==>
      exists k :: 0 <= k < |batch| && EntryError(tts, regs, batch[k]) == Some(RegisterBatch(tts, regs, batch).error)
        && forall j :: 0 <= j < k ==> EntryError(tts, regs, batch[j]).None?
  {
    FirstEntryErrorNone(tts, regs, batch);
    FirstEntryErrorIsFirst(tts, regs, batch);
  }

  /**
   * The other entries of a batch do not take part in an entry's check: a
   * batch passes exactly when each of its entries would pass as a batch of
   * one.
   */
  lemma RegisterBatchBlindToSiblings(tts: seq<TicketType>, regs: seq<Registration>, batch: seq<Registration>)
    requires |batch| > 0
    ensures RegisterBatch(tts, regs, batch) == Pass
        <==> forall k :: 0 <= k < |batch| ==> RegisterBatch(tts, regs, [batch[k]]) == Pass
  {
    RegisterBatchPass(tts, regs, batch);
    forall k | 0 <= k < |batch|
      ensures RegisterBatch(tts, regs, [batch[k]]) == Pass <==> EntryError(tts, regs, batch[k]).None?
    {
      RegisterBatchPass(tts, regs, [batch[k]]);
    }
  }

  /**
   * Two Confirmed entries of one ticket each, against a quota of 1 with
   * nothing sold, are both accepted, and leave 2 sold against that quota.
   */
  lemma BatchOvershootExample(a: Registration, b: Registration)
    requires a.ticketTypeId == 3 && b.ticketTypeId == 3
    requires a.quantity == 1 && b.quantity == 1
    requires a.status == Confirmed && b.status == Confirmed
    ensures var tts := [TicketType(3, 1, "Early bird", 0, 1)];
      && RegisterBatch(tts, [], [a, b]) == Pass
      && SoldCount([] + [a, b], 3) == 2 > tts[0].quota
  {
    var tts := [TicketType(3, 1, "Early bird", 0, 1)];
    assert FindTicketType(tts, 3) == Some(tts[0]);
    SoldCountNoMatch([], 3);
    assert EntryError(tts, [], a).None? && EntryError(tts, [], b).None?;
    RegisterBatchPass(tts, [], [a, b]);
    assert [a, b] == [a] + [b];
    SoldCountAppend([a], [b], 3);
    SoldCountSingle(a, 3);
    SoldCountSingle(b, 3);
    assert [a, b][1..] == [b];
    assert [] + [a, b] == [a, b];
  }

  /** No two entries of the batch name the same ticket type. */
  predicate DistinctTicketTypes(batch: seq<Registration>) {
    forall j, k :: 0 <= j < k < |batch| ==> batch[j].ticketTypeId != batch[k].ticketTypeId
  }

  /** In a batch with one entry per ticket type, an entry's ticket type is sold only by that entry. */
  lemma {:induction false} SoldCountDistinct(batch: seq<Registration>, k: nat)
    requires DistinctTicketTypes(batch)
    requires k < |batch|
    ensures SoldCount(batch, batch[k].ticketTypeId)
         == if batch[k].status == Confirmed then batch[k].quantity else 0
  {
    var id := batch[k].ticketTypeId;
    assert batch == batch[..k] + [batch[k]] + batch[k + 1..];
    SoldCountAppend(batch[..k] + [batch[k]], batch[k + 1..], id);
    SoldCountAppend(batch[..k], [batch[k]], id);
    SoldCountSingle(batch[k], id);
    SoldCountNoMatch(batch[..k], id);
    SoldCountNoMatch(batch[k + 1..], id);
  }

  /**
   * What the batch check does guarantee: when the batch passes, every entry
   * has a ticket type, its quantity fits on top of the pre-batch figure, and,
   * with one entry per ticket type and no negative quantity in the batch,
   * no ticket type named in the batch ends above its quota.
   */
  lemma BatchKeepsQuotaForDistinct(tts: seq<TicketType>, regs: seq<Registration>, batch: seq<Registration>, k: nat)
    requires RegisterBatch(tts, regs, batch) == Pass
    requires DistinctTicketTypes(batch)
    requires forall j :: 0 <= j < |batch| ==> batch[j].quantity >= 0
    requires k < |batch|
    ensures FindTicketType(tts, batch[k].ticketTypeId).Some?
    ensures SoldCount(regs + batch, batch[k].ticketTypeId) <= FindTicketType(tts, batch[k].ticketTypeId).value.quota
  {
    RegisterBatchPass(tts, regs, batch);
    assert EntryError(tts, regs, batch[k]).None?;
    SoldCountAppend(regs, batch, batch[k].ticketTypeId);
    SoldCountDistinct(batch, k);
  }

  // ---------------------------------------------------------------------------
  // The batch check as written: 32-bit addition
  // ---------------------------------------------------------------------------

  /** The C# `int` that an unchecked addition with result `x` produces: `x` reduced modulo 2^32 into the int range. */
  function Wrap32(x: int): (w: int)
    ensures IsInt32(w)
    ensures IsInt32(x) ==> w == x
    ensures (w - x) % 0x1_0000_0000 == 0
  {
    (x - Int32Min) % 0x1_0000_0000 + Int32Min
  }

  /**
   * The entry check with `ticketsSold + reg.Quantity` evaluated in unchecked
   * 32-bit arithmetic, as the batch validation computes it.
   */
  function EntryErrorAsWritten(tts: seq<TicketType>, regs: seq<Registration>, reg: Registration): (e: Option<Error>)
    ensures e.None? ==> FindTicketType(tts, reg.ticketTypeId).Some?
  {
    match FindTicketType(tts, reg.ticketTypeId)
    case None => Some(TicketTypeIdMissing(reg.ticketTypeId))
    case Some(tt) =>
      if Wrap32(SoldCount(regs, reg.ticketTypeId) + reg.quantity) > tt.quota then Some(QuotaExceeded(tt.name))
      else None
  }

  /** Without overflow the two checks agree. */
  lemma EntryCheckAgreesWithoutOverflow(tts: seq<TicketType>, regs: seq<Registration>, reg: Registration)
    requires IsInt32(SoldCount(regs, reg.ticketTypeId) + reg.quantity)
    ensures EntryErrorAsWritten(tts, regs, reg) == EntryError(tts, regs, reg)
  {
  }

  /**
   * With one ticket already sold, a valid entry asking for int.MaxValue
   * tickets makes the 32-bit sum wrap to int.MinValue, so the check as
   * written lets it through and the ticket type ends far over its quota;
   * the corrected check rejects it.
   */
  lemma OverflowAdmitsOverQuota(first: Registration, entry: Registration, isEmail: string -> bool)
    requires first.ticketTypeId == 5 && first.quantity == 1 && first.status == Confirmed
    requires entry.ticketTypeId == 5 && entry.quantity == Int32Max && entry.status == Confirmed
    requires ValidateRegistration(entry, isEmail) == []
    ensures var tts := [TicketType(5, 2, "General", 2500, 10)];
      && EntryErrorAsWritten(tts, [first], entry).None?
      && SoldCount([first, entry], 5) > tts[0].quota
      && EntryError(tts, [first], entry) == Some(QuotaExceeded("General"))
  {
    SoldCountSingle(first, 5);
    SoldCountSingle(entry, 5);
    assert [first, entry] == [first] + [entry];
    SoldCountAppend([first], [entry], 5);
    assert Wrap32(1 + Int32Max) == Int32Min;
  }

  /**
   * The corrected check keeps its promise: an entry it accepts, with a
   * quantity of at least zero, leaves its ticket type at or under quota
   * once stored on its own.
   */
  lemma EntryWithinQuota(tts: seq<TicketType>, regs: seq<Registration>, reg: Registration)
    requires EntryError(tts, regs, reg).None?
    requires reg.quantity >= 0
    ensures FindTicketType(tts, reg.ticketTypeId).Some?
    ensures SoldCount(regs + [reg], reg.ticketTypeId) <= FindTicketType(tts, reg.ticketTypeId).value.quota
  {
    SoldCountAppend(regs, [reg], reg.ticketTypeId);
    SoldCountSingle(reg, reg.ticketTypeId);
  }
}
