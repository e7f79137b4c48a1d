/** The guarded event writes of src/endpoints/event.py. */
module EventEndpoint {
  import opened Errors
  import opened Schemas
  import opened Tables
  import opened Database
  import EventService
  import CurrentUser
  import Config
  import JoseCodec

  const NO_ORGANIZATION := BadRequest("You must be in an organization to create an event")
  const NOT_ORGANIZER := BadRequest("User are not the organizer of the event")

  /** `POST /event/`: a caller in an organization creates an event organized by it, and
      the transaction is committed; the guard's refusal and a failed insert commit
      nothing. */
  method CreateEvent(db: Session, currentUser: UserDetail, data: EventIn) returns (r: Result<EventAttribute>)
    requires db.Valid()
    modifies db`events, db`nextEventId, db`commits
    ensures db.Valid()
    ensures currentUser.organizationId.None? ==>
              r == Err(NO_ORGANIZATION) && db.events == old(db.events) && db.commits == old(db.commits)
    ensures currentUser.organizationId.Some? && currentUser.organizationId.value !in Keys(db.organizations, OrganizationKey) ==>
              r == Err(Integrity(EventService.ORGANIZER_FKEY)) && db.events == old(db.events) && db.commits == old(db.commits)
    ensures currentUser.organizationId.Some? && currentUser.organizationId.value in Keys(db.organizations, OrganizationKey) ==>
              && r == Ok(EventAttribute(old(db.nextEventId), currentUser.organizationId.value, data))
              && db.events == old(db.events) + [r.value]
              && db.commits == old(db.commits) + 1
  {
    if currentUser.organizationId.None? {
      return Err(NO_ORGANIZATION);
    }
    var eventData := EventMid(currentUser.organizationId.value, data);
    r := EventService.CreateNewEvent(db, eventData);
    if r.Err? {
      return;
    }
    db.Commit();
  }

  /** `PUT /event/{event_id}`: only a caller whose organization organizes the event may
      update it; the update is then committed. An unknown event is NotFoundException, and
      neither refusal changes or commits anything. */
  method UpdateEventEndpoint(db: Session, currentUser: UserDetail, eventId: int, data: EventIn) returns (r: Result<EventAttribute>)
    requires db.Valid()
    modifies db`events, db`commits
    ensures db.Valid()
    ensures eventId !in Keys(old(db.events), EventKey) ==>
              r == Err(NotFound) && db.events == old(db.events) && db.commits == old(db.commits)
    ensures eventId in Keys(old(db.events), EventKey) ==>
              var organizer := EventService.GetOrganizerById(old(db.events), eventId).value;
              && (currentUser.organizationId != Some(organizer) ==>
                    r == Err(NOT_ORGANIZER) && db.events == old(db.events) && db.commits == old(db.commits))
              && (currentUser.organizationId == Some(organizer) ==>
                    && r == Ok(EventAttribute(eventId, organizer, data))
                    && |db.events| == |old(db.events)|
                    && (forall i :: 0 <= i < |db.events| ==>
                          db.events[i] == if old(db.events)[i].id == eventId then old(db.events)[i].(attributes := data) else old(db.events)[i])
                    && db.commits == old(db.commits) + 1)
  {
    var organizer := EventService.GetOrganizerById(db.events, eventId);
    if organizer.Err? {
      return Err(organizer.error);
    }
    if currentUser.organizationId != Some(organizer.value) {
      return Err(NOT_ORGANIZER);
    }
    r := EventService.UpdateEvent(db, eventId, data);
    ghost var k :| 0 <= k < |old(db.events)| && old(db.events)[k].id == eventId && r == Ok(EventAttribute(eventId, old(db.events)[k].organizerId, data));
    assert EventKey(old(db.events)[k]) == eventId;
    EventService.GetEventByIdOfRow(old(db.events), k);
    db.Commit();
  }

  /** The caller `get_current_user` resolves carries no organization: its lookup selects
      from a users table without one. So through that dependency `POST /event/` always
      refuses, and `PUT /event/{event_id}` refuses every existing event. */
  lemma ResolvedCallerHasNoOrganization(token: JoseCodec.Token, users: seq<User>, settings: Config.Settings, now: int)
    ensures CurrentUser.GetCurrentUser(token, users, settings, now).Ok? ==>
              CurrentUser.GetCurrentUser(token, users, settings, now).value.organizationId.None?
  {
  }
}
