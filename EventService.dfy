/**
 * The event service over an in-memory copy of its database context: three
 * tables (events, ticket types, registrations) held as sequences that the
 * writing operations extend in place. Each operation is one atomic step;
 * the registration operations are proved to do what the functions of
 * module Sales say.
 */
module Service {
  import opened Wrappers
  import opened Models
  import opened Catalog
  import opened Sales
  import opened Tables

  /** The required foreign keys: every ticket type names a stored event, every registration a stored ticket type. */
  predicate KeysResolve(es: seq<Event>, tts: seq<TicketType>, regs: seq<Registration>) {
    && (forall k :: 0 <= k < |tts| ==> FindEvent(es, tts[k].eventId).Some?)
    && (forall k :: 0 <= k < |regs| ==> FindTicketType(tts, regs[k].ticketTypeId).Some?)
  }

  /** Every registration's EventId is the event of its ticket type. */
  predicate EventIdsDerived(tts: seq<TicketType>, regs: seq<Registration>) {
    forall k :: 0 <= k < |regs| ==>
      FindTicketType(tts, regs[k].ticketTypeId).Some?
      && regs[k].eventId == FindTicketType(tts, regs[k].ticketTypeId).value.eventId
  }

  /** Where EventIds are derived, each registration's EventId names a stored event. */
  lemma DerivedEventIdsResolve(es: seq<Event>, tts: seq<TicketType>, regs: seq<Registration>)
    requires KeysResolve(es, tts, regs) && EventIdsDerived(tts, regs)
    ensures forall k :: 0 <= k < |regs| ==> FindEvent(es, regs[k].eventId).Some?
  {
  }

  /**
   * The batch path keeps the caller's EventId: an accepted entry whose
   * EventId differs from its ticket type's event is stored as it came.
   */
  lemma BatchKeepsCallerEventId(entry: Registration)
    requires entry.ticketTypeId == 3 && entry.quantity == 1 && entry.eventId == 99
    ensures var tts := [TicketType(3, 1, "Standard", 1000, 10)];
      && RegisterBatch(tts, [], [entry]) == Pass
      && !EventIdsDerived(tts, [] + [entry])
  {
    var tts := [TicketType(3, 1, "Standard", 1000, 10)];
    SoldCountNoMatch([], 3);
    assert FindTicketType(tts, 3) == Some(tts[0]);
    assert EntryError(tts, [], entry).None?;
    RegisterBatchPass(tts, [], [entry]);
    assert [] + [entry] == [entry];
  }

  /**
   * An event's MaxCapacity is not consulted by either registration path:
   * with a capacity of 1, a registration of 3 tickets is accepted and the
   * event's one ticket type ends with 3 sold.
   */
  lemma MaxCapacityNotEnforced(reg: Registration)
    requires reg.ticketTypeId == 4 && reg.quantity == 3 && reg.status == Confirmed
    ensures var meetup := Event(1, "Meetup", None, 0, 0, None, 1, []);
      var tts := [TicketType(4, meetup.id, "Entry", 0, 5)];
      && RegisterOne(tts, [], reg) == Success(reg.(eventId := meetup.id))
      && RegisterBatch(tts, [], [reg]) == Pass
      && SoldCount([reg.(eventId := meetup.id)], 4) > meetup.maxCapacity
  {
    var tts := [TicketType(4, 1, "Entry", 0, 5)];
    SoldCountNoMatch([], 4);
    assert FindTicketType(tts, 4) == Some(tts[0]);
    assert EntryError(tts, [], reg).None?;
    RegisterBatchPass(tts, [], [reg]);
    SoldCountSingle(reg.(eventId := 1), 4);
  }

  /** Saving an event keeps the required foreign keys. */
  lemma SaveEventKeepsKeys(es: seq<Event>, tts: seq<TicketType>, regs: seq<Registration>, e: Event)
    requires KeysResolve(es, tts, regs)
    ensures KeysResolve(es + [StoredRow(e)], tts + OwnedTicketTypes(e), regs)
  {
    var es', tts' := es + [StoredRow(e)], tts + OwnedTicketTypes(e);
    assert es'[|es|] == StoredRow(e);
    forall k | 0 <= k < |tts'| ensures FindEvent(es', tts'[k].eventId).Some? {
      if k < |tts| {
        assert tts'[k] == tts[k];
        FindFirstAppend(es, [StoredRow(e)], EventKey, tts[k].eventId);
      }
    }
    forall k | 0 <= k < |regs| ensures FindTicketType(tts', regs[k].ticketTypeId).Some? {
      FindFirstAppend(tts, OwnedTicketTypes(e), TicketTypeKey, regs[k].ticketTypeId);
    }
  }

  /** Appending ticket types leaves every registration's ticket type, and so its derived EventId, as it was. */
  lemma SaveEventKeepsDerived(tts: seq<TicketType>, regs: seq<Registration>, more: seq<TicketType>)
    requires EventIdsDerived(tts, regs)
    ensures EventIdsDerived(tts + more, regs)
  {
    forall k | 0 <= k < |regs|
      ensures FindTicketType(tts + more, regs[k].ticketTypeId) == FindTicketType(tts, regs[k].ticketTypeId)
    {
      FindFirstAppend(tts, more, TicketTypeKey, regs[k].ticketTypeId);
    }
  }

  /** Appending a registration whose ticket type is stored keeps the foreign keys. */
  lemma AppendRegistrationKeepsKeys(es: seq<Event>, tts: seq<TicketType>, regs: seq<Registration>, r: Registration)
    requires KeysResolve(es, tts, regs)
    requires FindTicketType(tts, r.ticketTypeId).Some?
    ensures KeysResolve(es, tts, regs + [r])
  {
    var regs' := regs + [r];
    forall k | 0 <= k < |regs'| ensures FindTicketType(tts, regs'[k].ticketTypeId).Some? {
      if k < |regs| {
        assert regs'[k] == regs[k];
      }
    }
  }

  /** Appending a registration that carries its ticket type's EventId keeps every EventId derived. */
  lemma AppendRegistrationKeepsDerived(tts: seq<TicketType>, regs: seq<Registration>, r: Registration)
    requires EventIdsDerived(tts, regs)
    requires FindTicketType(tts, r.ticketTypeId).Some? && r.eventId == FindTicketType(tts, r.ticketTypeId).value.eventId
    ensures EventIdsDerived(tts, regs + [r])
  {
    var regs' := regs + [r];
    forall k | 0 <= k < |regs'|
      ensures FindTicketType(tts, regs'[k].ticketTypeId).Some?
      ensures regs'[k].eventId == FindTicketType(tts, regs'[k].ticketTypeId).value.eventId
    {
      if k < |regs| {
        assert regs'[k] == regs[k];
      }
    }
  }

  /** An event saved with a fresh id is read back by id and is among the listed events. */
  lemma SavedEventIsRead(es: seq<Event>, tts: seq<TicketType>, regs: seq<Registration>, e: Event)
    requires KeysResolve(es, tts, regs)
    requires forall k :: 0 <= k < |es| ==> es[k].id != e.id
    ensures var es', tts' := es + [StoredRow(e)], tts + OwnedTicketTypes(e);
      && FindEvent(es', e.id) == Some(StoredRow(e))
      && Populate(StoredRow(e), tts') == e.(ticketTypes := OwnedTicketTypes(e))
      && e.(ticketTypes := OwnedTicketTypes(e)) in PopulateAll(es', tts')
  {
    var es', tts' := es + [StoredRow(e)], tts + OwnedTicketTypes(e);
    forall k | 0 <= k < |tts| ensures tts[k].eventId != e.id {
      var found := FindEvent(es, tts[k].eventId).value;
      var i :| 0 <= i < |es| && es[i] == found;
    }
    CreatedEventIsFound(es, tts, e);
    assert PopulateAll(es', tts')[|es|] == Populate(StoredRow(e), tts');
  }

  class EventService {
    var events: seq<Event>
    var ticketTypes: seq<TicketType>
    var registrations: seq<Registration>

    /** A service over a context whose tables hold the given rows. */
    constructor (events: seq<Event>, ticketTypes: seq<TicketType>, registrations: seq<Registration>)
      ensures this.events == events && this.ticketTypes == ticketTypes && this.registrations == registrations
    {
      this.events := events;
      this.ticketTypes := ticketTypes;
      this.registrations := registrations;
    }

    predicate Valid()
      reads this
    {
      KeysResolve(events, ticketTypes, registrations)
    }

    /**
     * Saves a new event together with the ticket types attached to it, which
     * take the event's id as their EventId, and returns the saved event.
     */
    method CreateEvent(eventData: Event) returns (saved: Event)
      modifies this
      ensures saved == eventData.(ticketTypes := OwnedTicketTypes(eventData))
      ensures events == old(events) + [StoredRow(eventData)]
      ensures ticketTypes == old(ticketTypes) + OwnedTicketTypes(eventData)
      ensures registrations == old(registrations)
      ensures old(Valid()) ==> Valid()
      ensures old(EventIdsDerived(ticketTypes, registrations)) ==> EventIdsDerived(ticketTypes, registrations)
      ensures old(Valid()) && (forall k :: 0 <= k < |old(events)| ==> old(events)[k].id != eventData.id) ==>
                GetEventById(eventData.id) == Some(saved) && saved in GetEvents()
    {
      ghost var es, tts := events, ticketTypes;
      var owned := OwnedTicketTypes(eventData);
      events := events + [StoredRow(eventData)];
      ticketTypes := ticketTypes + owned;
      saved := eventData.(ticketTypes := owned);
      if KeysResolve(es, tts, registrations) {
        SaveEventKeepsKeys(es, tts, registrations, eventData);
      }
      if EventIdsDerived(tts, registrations) {
        SaveEventKeepsDerived(tts, registrations, owned);
      }
      if KeysResolve(es, tts, registrations) && (forall k :: 0 <= k < |es| ==> es[k].id != eventData.id) {
        SavedEventIsRead(es, tts, registrations, eventData);
      }
    }

    /** All events with their ticket types, ordered by start date. */
    function GetEvents(): (r: seq<Event>)
      reads this
      ensures SortedByStart(r)
      ensures multiset(r) == multiset(PopulateAll(events, ticketTypes))
      ensures |r| == |events|
      ensures forall k :: 0 <= k < |events| ==> Populate(events[k], ticketTypes) in r
    {
      var all := PopulateAll(events, ticketTypes);
      var r := SortByStart(all);
      assert forall k :: 0 <= k < |events| ==> all[k] in multiset(r);
      assert |r| == |multiset(r)| == |all|;
      r
    }

    /** The first event with this id, with its ticket types, or none. */
    function GetEventById(id: int): (r: Option<Event>)
      reads this
      ensures r.None? <==> forall k :: 0 <= k < |events| ==> events[k].id != id
      ensures r.Some? ==>
        (r.value.id == id && forall t :: t in r.value.ticketTypes <==> t in ticketTypes && t.eventId == id)
      ensures forall k :: 0 <= k < |events| && events[k].id == id && (forall j :: 0 <= j < k ==> events[j].id != id)
                ==> r == Some(Populate(events[k], ticketTypes))
    {
      match FindEvent(events, id)
      case None => None
      case Some(e) => Some(Populate(e, ticketTypes))
    }

    /** Tickets sold for a ticket type: the quantities of its Confirmed registrations, added up. */
    function TicketsSold(ticketTypeId: int): (n: int)
      reads this
      ensures n == SoldCount(registrations, ticketTypeId)
      ensures (forall k :: 0 <= k < |registrations| ==> !Counts(registrations[k], ticketTypeId)) ==> n == 0
      ensures (forall k :: 0 <= k < |registrations| ==> registrations[k].quantity >= 0) ==>
        n >= 0 && forall k :: 0 <= k < |registrations| && Counts(registrations[k], ticketTypeId) ==> n >= registrations[k].quantity
    {
      var n := SoldCount(registrations, ticketTypeId);
      assert (forall k :: 0 <= k < |registrations| ==> !Counts(registrations[k], ticketTypeId)) ==> n == 0 by {
        if forall k :: 0 <= k < |registrations| ==> !Counts(registrations[k], ticketTypeId) {
          SoldCountNoMatch(registrations, ticketTypeId);
        }
      }
      assert (forall k :: 0 <= k < |registrations| ==> registrations[k].quantity >= 0) ==>
        n >= 0 && forall k :: 0 <= k < |registrations| && Counts(registrations[k], ticketTypeId) ==> n >= registrations[k].quantity
      by {
        if forall k :: 0 <= k < |registrations| ==> registrations[k].quantity >= 0 {
          SoldCountBounds(registrations, ticketTypeId);
        }
      }
      n
    }

    /**
     * Registers one attendee after the availability check: fails when the
     * ticket type is missing or sold out; otherwise sets the registration's
     * EventId from its ticket type, appends it and returns it.
     */
    method CreateRegistration(registration: Registration) returns (res: Result<Registration, Error>)
      modifies this
      ensures res == RegisterOne(old(ticketTypes), old(registrations), registration)
      ensures registrations == if res.Success? then old(registrations) + [res.value] else old(registrations)
      ensures events == old(events) && ticketTypes == old(ticketTypes)
      ensures old(Valid()) ==> Valid()
      ensures old(EventIdsDerived(ticketTypes, registrations)) ==> EventIdsDerived(ticketTypes, registrations)
      ensures Valid() && EventIdsDerived(ticketTypes, registrations) ==>
        forall k :: 0 <= k < |registrations| ==> FindEvent(events, registrations[k].eventId).Some?
    {
      ghost var outcome := RegisterOne(ticketTypes, registrations, registration);
      var ticketType := FindTicketType(ticketTypes, registration.ticketTypeId);
      if ticketType.None? {
        res := Failure(TicketTypeMissing);
      } else if TicketsSold(registration.ticketTypeId) >= ticketType.value.quota {
        res := Failure(SoldOut(ticketType.value.name));
      } else {
        assert outcome == Success(registration.(eventId := ticketType.value.eventId));
        var stored := registration.(eventId := ticketType.value.eventId);
        if Valid() {
          AppendRegistrationKeepsKeys(events, ticketTypes, registrations, stored);
        }
        if EventIdsDerived(ticketTypes, registrations) {
          AppendRegistrationKeepsDerived(ticketTypes, registrations, stored);
        }
        registrations := registrations + [stored];
        res := Success(stored);
      }
      if Valid() && EventIdsDerived(ticketTypes, registrations) {
        DerivedEventIdsResolve(events, ticketTypes, registrations);
      }
    }

    /**
     * Checks each entry of a batch in order against the tables as they
     * stand, stopping at the first that fails: a missing ticket type, or a
     * quantity that does not fit on top of what is already sold.
     */
    method ValidateEntries(batch: seq<Registration>) returns (failure: Option<Error>)
      ensures failure == FirstEntryError(ticketTypes, registrations, batch)
      ensures failure.None? <==> forall k :: 0 <= k < |batch| ==> EntryError(ticketTypes, registrations, batch[k]).None?
    {
      FirstEntryErrorNone(ticketTypes, registrations, batch);
      var i := 0;
      while i < |batch|
        invariant 0 <= i <= |batch|
        invariant FirstEntryError(ticketTypes, registrations, batch) == FirstEntryError(ticketTypes, registrations, batch[i..])
      {
        var reg := batch[i];
        assert batch[i..][1..] == batch[i + 1..];
        var ticketType := FindTicketType(ticketTypes, reg.ticketTypeId);
        if ticketType.None? {
          return Some(TicketTypeIdMissing(reg.ticketTypeId));
        }
        var ticketsSold := SoldCount(registrations, reg.ticketTypeId);
        if ticketsSold + reg.quantity > ticketType.value.quota {
          return Some(QuotaExceeded(ticketType.value.name));
        }
        i := i + 1;
      }
      return None;
    }

    /**
     * Registers a batch all or nothing: an empty batch is an argument error;
     * otherwise every entry is checked first, and only when all pass are
     * they appended, in order and as given (their EventIds untouched).
     */
    method AddRegistrations(batch: seq<Registration>) returns (res: Outcome<Error>)
      modifies this
      ensures res == RegisterBatch(old(ticketTypes), old(registrations), batch)
      ensures registrations == if res.Pass? then old(registrations) + batch else old(registrations)
      ensures events == old(events) && ticketTypes == old(ticketTypes)
      ensures old(Valid()) ==> Valid()
    {
      if |batch| == 0 {
        return Fail(NoRegistrations);
      }
      var failure := ValidateEntries(batch);
      if failure.Some? {
        return Fail(failure.value);
      }
      ghost var before := registrations;
      registrations := registrations + batch;
      res := Pass;
      forall k | |before| <= k < |registrations|
        ensures FindTicketType(ticketTypes, registrations[k].ticketTypeId).Some?
      {
        assert registrations[k] == batch[k - |before|];
        assert EntryError(ticketTypes, before, batch[k - |before|]).None?;
      }
    }
  }
}
