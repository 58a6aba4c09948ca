/**
 * The catalog side of the event service: how an event and the ticket types
 * attached to it are stored, and the two reads (all events by start date,
 * one event by id), each returning events with their ticket types filled
 * in from the ticket-type table.
 */
module Catalog {
  import opened Wrappers
  import opened Models
  import opened Tables

  /** The events-table row of an event: its ticket types live in their own table. */
  function StoredRow(e: Event): (row: Event)
    ensures row.ticketTypes == []
    ensures forall tts :: Populate(row, tts) == Populate(e, tts)
  {
    e.(ticketTypes := [])
  }

  /**
   * The ticket types attached to a new event, as saving the event stores
   * them: each keeps everything but its EventId, which becomes the event's id.
   */
  function OwnedTicketTypes(e: Event): (r: seq<TicketType>)
    ensures |r| == |e.ticketTypes|
    ensures TicketTypesOf(r, e.id) == r
    ensures forall k :: 0 <= k < |r| ==> r[k].(eventId := e.ticketTypes[k].eventId) == e.ticketTypes[k]
  {
    var r := seq(|e.ticketTypes|, k requires 0 <= k < |e.ticketTypes| => e.ticketTypes[k].(eventId := e.id));
    TicketTypesOfAll(r, e.id);
    r
  }

  /** The ticket types of event `eventId`, in table order. */
  function TicketTypesOf(tts: seq<TicketType>, eventId: int): (r: seq<TicketType>)
    ensures |r| <= |tts|
    ensures forall t :: t in r <==> t in tts && t.eventId == eventId
  {
    if tts == [] then []
    else (if tts[0].eventId == eventId then [tts[0]] else []) + TicketTypesOf(tts[1..], eventId)
  }

  /** An event row with its ticket-type collection loaded from the table. */
  function Populate(e: Event, tts: seq<TicketType>): (r: Event)
    ensures r.(ticketTypes := e.ticketTypes) == e
    ensures forall t :: t in r.ticketTypes <==> t in tts && t.eventId == e.id
  {
    e.(ticketTypes := TicketTypesOf(tts, e.id))
  }

  /** Every event row, in table order, with its ticket types loaded. */
  function PopulateAll(es: seq<Event>, tts: seq<TicketType>): (r: seq<Event>)
    ensures |r| == |es|
    ensures forall k :: 0 <= k < |r| ==> r[k] == Populate(es[k], tts)
  {
    seq(|es|, k requires 0 <= k < |es| => Populate(es[k], tts))
  }

  /** The primary key of an event. */
  function EventKey(e: Event): int {
    e.id
  }

  /** The first event with the given id, in table order, or None. */
  function FindEvent(es: seq<Event>, id: int): (r: Option<Event>)
    ensures r.None? <==> forall k :: 0 <= k < |es| ==> es[k].id != id
    ensures r.Some? ==> r.value in es && r.value.id == id
    ensures forall k :: 0 <= k < |es| && es[k].id == id && (forall j :: 0 <= j < k ==> es[j].id != id)
              ==> r == Some(es[k])
  {
    FindFirst(es, EventKey, id)
  }

  /** Events in ascending order of start date. */
  predicate SortedByStart(es: seq<Event>) {
    forall i, j :: 0 <= i < j < |es| ==> es[i].startDate <= es[j].startDate
  }

  /** `e` placed into a start-date-sorted list, after the events that start no later. */
  function InsertByStart(e: Event, es: seq<Event>): (r: seq<Event>)
    requires SortedByStart(es)
    ensures SortedByStart(r)
    ensures multiset(r) == multiset(es) + multiset{e}
  {
    if es == [] then [e]
    else if e.startDate < es[0].startDate then [e] + es
    else
      var rest := InsertByStart(e, es[1..]);
      InsertKeepsSorted(es[0], e, es[1..], rest);
      assert es == [es[0]] + es[1..];
      [es[0]] + rest
  }

  /** Putting `first` ahead of a sorted list that holds `tail` plus `e` keeps it sorted when `first` starts no later than any of them. */
  lemma InsertKeepsSorted(first: Event, e: Event, tail: seq<Event>, rest: seq<Event>)
    requires SortedByStart([first] + tail)
    requires first.startDate <= e.startDate
    requires SortedByStart(rest)
    requires multiset(rest) == multiset(tail) + multiset{e}
    ensures SortedByStart([first] + rest)
  {
    forall x | x in rest ensures first.startDate <= x.startDate {
      assert x in multiset(rest);
      if x != e {
        assert x in multiset(tail);
        assert x in tail;
        var k :| 0 <= k < |tail| && tail[k] == x;
        var s := [first] + tail;
        assert s[0] == first && s[k + 1] == x;
        assert s[0].startDate <= s[k + 1].startDate;
      }
    }
    var s := [first] + rest;
    forall i, j | 0 <= i < j < |s| ensures s[i].startDate <= s[j].startDate {
      if i == 0 {
        assert s[j] in rest;
      } else {
        assert s[i] == rest[i - 1] && s[j] == rest[j - 1];
      }
    }
  }

  /** The events ordered by start date. */
  function SortByStart(es: seq<Event>): (r: seq<Event>)
    ensures SortedByStart(r)
    ensures multiset(r) == multiset(es)
  {
    if es == [] then []
    else
      assert es == [es[0]] + es[1..];
      InsertByStart(es[0], SortByStart(es[1..]))
  }

  lemma {:induction false} TicketTypesOfAppend(a: seq<TicketType>, b: seq<TicketType>, eventId: int)
    ensures TicketTypesOf(a + b, eventId) == TicketTypesOf(a, eventId) + TicketTypesOf(b, eventId)
  {
    if a != [] {
      assert (a + b)[1..] == a[1..] + b;
      TicketTypesOfAppend(a[1..], b, eventId);
    } else {
      assert a + b == b;
    }
  }

  /** An event no ticket type points at has an empty collection. */
  lemma {:induction false} TicketTypesOfNone(tts: seq<TicketType>, eventId: int)
    requires forall k :: 0 <= k < |tts| ==> tts[k].eventId != eventId
    ensures TicketTypesOf(tts, eventId) == []
  {
    if tts != [] {
      TicketTypesOfNone(tts[1..], eventId);
    }
  }

  /** A list whose ticket types all point at one event is entirely that event's. */
  lemma {:induction false} TicketTypesOfAll(tts: seq<TicketType>, eventId: int)
    requires forall k :: 0 <= k < |tts| ==> tts[k].eventId == eventId
    ensures TicketTypesOf(tts, eventId) == tts
  {
    if tts != [] {
      TicketTypesOfAll(tts[1..], eventId);
      assert tts == [tts[0]] + tts[1..];
    }
  }

  /**
   * Saving an event with an id no stored event or ticket type uses and
   * reading it back by id gives the saved event, whose collection is exactly
   * the ticket types attached to it, in the order given.
   */
  lemma CreatedEventIsFound(es: seq<Event>, tts: seq<TicketType>, e: Event)
    requires forall k :: 0 <= k < |es| ==> es[k].id != e.id
    requires forall k :: 0 <= k < |tts| ==> tts[k].eventId != e.id
    ensures FindEvent(es + [StoredRow(e)], e.id) == Some(StoredRow(e))
    ensures Populate(StoredRow(e), tts + OwnedTicketTypes(e)) == e.(ticketTypes := OwnedTicketTypes(e))
  {
    var es' := es + [StoredRow(e)];
    assert es'[|es|] == StoredRow(e);
    assert forall j :: 0 <= j < |es| ==> es'[j].id != e.id;
    TicketTypesOfAppend(tts, OwnedTicketTypes(e), e.id);
    TicketTypesOfNone(tts, e.id);
  }
}
