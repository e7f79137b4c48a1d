/** The event queries and writes of src/services/event.py. */
module EventService {
  import opened Errors
  import opened Schemas
  import opened Tables
  import Query
  import opened Database

  /** `get_all_event`: every event row, in storage order. */
  function GetAllEvent(events: seq<EventAttribute>): (r: seq<EventAttribute>)
    ensures |r| == |events| && forall i :: 0 <= i < |events| ==> r[i] == events[i]
  {
    events
  }

  function EventIs(id: int): EventAttribute -> bool {
    (e: EventAttribute) => e.id == id
  }

  /** `get_event_by_id(db, id)`: the event with that id, or NotFoundException. A None id
      compares as `IS NULL`, which no row's primary key satisfies. */
  function GetEventById(events: seq<EventAttribute>, id: Option<int>): (r: Result<EventAttribute>)
    ensures r.Err? <==> id.None? || id.value !in Keys(events, EventKey)
    ensures r.Err? ==> r.error == NotFound
    ensures r.Ok? ==> r.value in events && r.value.id == id.value
  {
    if id.None? then Err(NotFound)
    else match Query.First(events, EventIs(id.value))
      case None =>
        assert forall i :: 0 <= i < |events| ==> EventKey(events[i]) != id.value;
        Err(NotFound)
      case Some(e) => Ok(e)
  }

  /** With `id` the primary key, the event at a present id is the answer. */
  lemma GetEventByIdOfRow(events: seq<EventAttribute>, k: nat)
    requires KeysUnique(events, EventKey) && k < |events|
    ensures GetEventById(events, Some(events[k].id)) == Ok(events[k])
  {
    var p := EventIs(events[k].id);
    forall j | 0 <= j < |events| && j != k ensures !p(events[j]) {
      if j < k { assert EventKey(events[j]) != EventKey(events[k]); }
      else { assert EventKey(events[k]) != EventKey(events[j]); }
    }
    Query.FirstOfOnly(events, p, k);
  }

  /** `get_organizer_by_id(db, id)`: the organizer of that event; NotFoundException
      propagates. */
  function GetOrganizerById(events: seq<EventAttribute>, id: int): (r: Result<int>)
    ensures r.Err? <==> id !in Keys(events, EventKey)
    ensures r.Err? ==> r.error == NotFound
    ensures r.Ok? ==> exists i :: 0 <= i < |events| && events[i].id == id && events[i].organizerId == r.value
  {
    match GetEventById(events, Some(id))
    case Err(e) => Err(e)
    case Ok(e) => Ok(e.organizerId)
  }

  const ORGANIZER_FKEY := "events_organizer_id_fkey"

  /** `create_new_event(db, event_data)`: insert the event under the next id and answer
      the row read back: the input plus a fresh id. The foreign key refuses an organizer
      that is not an organization. */
  method CreateNewEvent(db: Session, data: EventMid) returns (r: Result<EventAttribute>)
    requires db.Valid()
    modifies db`events, db`nextEventId
    ensures db.Valid()
    ensures data.organizerId !in Keys(db.organizations, OrganizationKey) ==>
              r == Err(Integrity(ORGANIZER_FKEY)) && db.events == old(db.events) && db.nextEventId == old(db.nextEventId)
    ensures data.organizerId in Keys(db.organizations, OrganizationKey) ==>
              && r == Ok(EventAttribute(old(db.nextEventId), data.organizerId, data.attributes))
              && r.value.id !in Keys(old(db.events), EventKey)
              && db.events == old(db.events) + [r.value]
              && db.nextEventId == old(db.nextEventId) + 1
  {
    if data.organizerId !in Keys(db.organizations, OrganizationKey) {
      return Err(Integrity(ORGANIZER_FKEY));
    }
    var row := EventAttribute(db.nextEventId, data.organizerId, data.attributes);
    NextNotPresent(db.events, EventKey, db.nextEventId);
    SerialAppend(db.events, row, EventKey, db.nextEventId);
    KeysAppend(db.events, row, EventKey);
    ReferencesWiden(db.applications, ApplicationEvent, Keys(db.events, EventKey), Keys(db.events + [row], EventKey));
    db.events := db.events + [row];
    db.nextEventId := db.nextEventId + 1;
    GetEventByIdOfRow(db.events, |db.events| - 1);
    r := GetEventById(db.events, Some(row.id));
  }

  function WithAttributes(data: EventIn): EventAttribute -> EventAttribute {
    (e: EventAttribute) => e.(attributes := data)
  }

  /** What `RETURNING id` yields through `.scalar()`: the id when a row has it, else None. */
  function UpdatedId(events: seq<EventAttribute>, eventId: int): (r: Option<int>)
    ensures r.Some? <==> eventId in Keys(events, EventKey)
    ensures r.Some? ==> r.value == eventId
  {
    if eventId in Keys(events, EventKey) then Some(eventId) else None
  }

  /** Replacing one event's attributes keeps the key and the organizer foreign key. */
  lemma EventUpdateValid(db: Session, eventId: int, data: EventIn)
    requires db.Valid()
    ensures var after := Query.UpdateWhere(db.events, EventIs(eventId), WithAttributes(data));
      && Serial(after, EventKey, db.nextEventId)
      && Keys(after, EventKey) == Keys(db.events, EventKey)
      && References(after, EventOwner, Keys(db.organizations, OrganizationKey))
  {
    var p, f := EventIs(eventId), WithAttributes(data);
    KeysUpdate(db.events, p, f, EventKey);
    ReferencesUpdate(db.events, p, f, EventOwner, Keys(db.organizations, OrganizationKey));
  }

  /** The event read back after the update: the updated row for a present id, with its
      organizer kept, and NotFoundException for an unknown one. */
  lemma UpdateEventAnswer(events: seq<EventAttribute>, eventId: int, data: EventIn)
    requires KeysUnique(events, EventKey)
    ensures var after := Query.UpdateWhere(events, EventIs(eventId), WithAttributes(data));
            var r := GetEventById(after, UpdatedId(after, eventId));
            && (eventId !in Keys(events, EventKey) ==> r == Err(NotFound))
            && (eventId in Keys(events, EventKey) ==>
                  exists k :: 0 <= k < |events| && events[k].id == eventId &&
                              r == Ok(EventAttribute(eventId, events[k].organizerId, data)))
  {
    var p, f := EventIs(eventId), WithAttributes(data);
    var after := Query.UpdateWhere(events, p, f);
    KeysUpdate(events, p, f, EventKey);
    if eventId in Keys(events, EventKey) {
      var k :| 0 <= k < |events| && EventKey(events[k]) == eventId;
      assert after[k] == EventAttribute(eventId, events[k].organizerId, data);
      GetEventByIdOfRow(after, k);
    }
  }

  /** `update_event(db, event_id, event_data)`: every attribute the request carries
      replaces that event's, its id and organizer stay, and no other event changes. The
      answer is the event read back, or NotFoundException for an unknown id. */
  method UpdateEvent(db: Session, eventId: int, data: EventIn) returns (r: Result<EventAttribute>)
    requires db.Valid()
    modifies db`events
    ensures db.Valid()
    ensures |db.events| == |old(db.events)|
    ensures forall i :: 0 <= i < |db.events| ==>
              db.events[i] == if old(db.events)[i].id == eventId then old(db.events)[i].(attributes := data) else old(db.events)[i]
    ensures eventId !in Keys(old(db.events), EventKey) ==> r == Err(NotFound)
    ensures eventId in Keys(old(db.events), EventKey) ==>
              exists k :: 0 <= k < |old(db.events)| && old(db.events)[k].id == eventId &&
                          r == Ok(EventAttribute(eventId, old(db.events)[k].organizerId, data))
  {
    EventUpdateValid(db, eventId, data);
    UpdateEventAnswer(db.events, eventId, data);
    db.events := Query.UpdateWhere(db.events, EventIs(eventId), WithAttributes(data));
    var updatedId := UpdatedId(db.events, eventId);
    r := GetEventById(db.events, updatedId);
  }
}
