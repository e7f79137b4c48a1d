/** The event applications of src/services/application.py. An answer row stands for the
    joined `EventApplication` record by its `event_applications` row: under the foreign
    keys the joins to the applicant organization and the event always find a partner. */
module ApplicationService {
  import opened Errors
  import opened Schemas
  import opened Tables
  import Query
  import opened Database

  /** The filter `build_application_query` composes: each argument that is not None adds
      one equality, and the query's `where` calls conjoin them. */
  function ApplicationFilter(applicationId: Option<int>, eventId: Option<int>, orgId: Option<int>): Application -> bool {
    (a: Application) =>
      && (applicationId.None? || a.id == applicationId.value)
      && (eventId.None? || a.eventId == eventId.value)
      && (orgId.None? || a.applicantId == orgId.value)
  }

  /** The rows `build_application_query(application_id, event_id, org_id)` selects, in
      storage order. */
  function ApplicationQuery(applications: seq<Application>, applicationId: Option<int>, eventId: Option<int>, orgId: Option<int>): (r: seq<Application>)
    ensures forall a :: a in r <==>
              && a in applications
              && (applicationId.Some? ==> a.id == applicationId.value)
              && (eventId.Some? ==> a.eventId == eventId.value)
              && (orgId.Some? ==> a.applicantId == orgId.value)
  {
    Query.Where(applications, ApplicationFilter(applicationId, eventId, orgId))
  }

  /** With no argument the query applies no filter. */
  lemma NoFilterSelectsAll(applications: seq<Application>)
    ensures ApplicationQuery(applications, None, None, None) == applications
  {
    Query.WhereAll(applications, ApplicationFilter(None, None, None));
  }

  /** On the serial key, an id filter selects exactly the row with that id. */
  lemma IdFilterSelectsRow(applications: seq<Application>, k: nat)
    requires KeysUnique(applications, ApplicationKey) && k < |applications|
    ensures ApplicationQuery(applications, Some(applications[k].id), None, None) == [applications[k]]
  {
    var p := ApplicationFilter(Some(applications[k].id), None, None);
    forall j | 0 <= j < |applications| && j != k ensures !p(applications[j]) {
      if j < k { assert ApplicationKey(applications[j]) != ApplicationKey(applications[k]); }
      else { assert ApplicationKey(applications[k]) != ApplicationKey(applications[j]); }
    }
    Query.WhereOnly(applications, p, k);
  }

  /** `get_application_by_id(db, application_id)`: the first row of the query. With no
      row, Python reads `_mapping` from None and raises AttributeError. A None id applies
      no filter, so the answer is then the table's first row. */
  function GetApplicationById(applications: seq<Application>, applicationId: Option<int>): (r: Result<Application>)
    ensures r.Err? <==> |ApplicationQuery(applications, applicationId, None, None)| == 0
    ensures r.Err? ==> r.error == AttributeError("_mapping")
    ensures r.Ok? ==> r.value in applications && (applicationId.Some? ==> r.value.id == applicationId.value)
    ensures applicationId.None? ==> r == if |applications| == 0 then Err(AttributeError("_mapping")) else Ok(applications[0])
  {
    var rows := ApplicationQuery(applications, applicationId, None, None);
    if applicationId.None? then
      NoFilterSelectsAll(applications);
      if |rows| == 0 then Err(AttributeError("_mapping")) else Ok(rows[0])
    else if |rows| == 0 then Err(AttributeError("_mapping"))
    else Ok(rows[0])
  }

  /** `.one_or_none() is not None`: no row answers false, one row true, and several rows
      make SQLAlchemy raise MultipleResultsFound. */
  function OneOrNone(rows: seq<Application>): (r: Result<bool>)
    ensures r == Ok(false) <==> |rows| == 0
    ensures r == Ok(true) <==> |rows| == 1
    ensures r == Err(MultipleResults) <==> |rows| >= 2
  {
    if |rows| == 0 then Ok(false) else if |rows| == 1 then Ok(true) else Err(MultipleResults)
  }

  /** The `(event, applicant)` pair of an application. */
  function ApplicationPair(a: Application): (int, int) { (a.eventId, a.applicantId) }

  /** `existing_application(db, event_id, applicant_id)` as written. The two comparisons
      are joined with Python `and`, which tests the first one's truth value; SQLAlchemy
      answers False for a column compared with a parameter, so `and` hands `where` the
      event comparison alone. The applicant plays no part. */
  function ExistingApplication(applications: seq<Application>, eventId: int, applicantId: int): (r: Result<bool>)
    ensures r == Ok(false) <==> forall i :: 0 <= i < |applications| ==> applications[i].eventId != eventId
    ensures r == Err(MultipleResults) <==>
              exists i, j :: 0 <= i < j < |applications| && applications[i].eventId == eventId && applications[j].eventId == eventId
    ensures r.Ok? || r == Err(MultipleResults)
  {
    var p := ApplicationFilter(None, Some(eventId), None);
    Query.WhereEmpty(applications, p);
    Query.WhereAtLeastTwo(applications, p);
    OneOrNone(ApplicationQuery(applications, None, Some(eventId), None))
  }

  /** `existing_application` as intended: both conditions filter, so the answer is about
      this applicant's application to this event. */
  function ExistingApplicationIntended(applications: seq<Application>, eventId: int, applicantId: int): (r: Result<bool>)
    ensures r == Ok(false) <==> (eventId, applicantId) !in Keys(applications, ApplicationPair)
    ensures r == Err(MultipleResults) <==>
              exists i, j :: 0 <= i < j < |applications| && ApplicationPair(applications[i]) == (eventId, applicantId)
                                                         && ApplicationPair(applications[j]) == (eventId, applicantId)
    ensures KeysUnique(applications, ApplicationPair) ==>
              r == Ok((eventId, applicantId) in Keys(applications, ApplicationPair))
  {
    var p := ApplicationFilter(None, Some(eventId), Some(applicantId));
    PairFilter(applications, eventId, applicantId);
    Query.WhereEmpty(applications, p);
    Query.WhereAtLeastTwo(applications, p);
    OneOrNone(ApplicationQuery(applications, None, Some(eventId), Some(applicantId)))
  }

  /** The event-and-applicant filter passes exactly the rows of that pair; with one row
      per pair, at most one passes. */
  lemma PairFilter(applications: seq<Application>, eventId: int, applicantId: int)
    ensures (eventId, applicantId) !in Keys(applications, ApplicationPair) <==>
              forall i :: 0 <= i < |applications| ==> !ApplicationFilter(None, Some(eventId), Some(applicantId))(applications[i])
    ensures KeysUnique(applications, ApplicationPair) ==> !Query.TwoPass(applications, ApplicationFilter(None, Some(eventId), Some(applicantId)))
  {
    assert forall i :: 0 <= i < |applications| ==> ApplicationPair(applications[i]) in Keys(applications, ApplicationPair);
  }

  /** The check as written refuses a second organization's application to an event, and
      fails outright once an event has two applications; the intended check admits the
      first and answers the second. */
  lemma ExistingApplicationCounterexample(eventId: int, first: int, second: int)
    requires first != second
    ensures var one := [Application(1, eventId, first, "", InProgress, Some(first))];
            ExistingApplication(one, eventId, second) == Ok(true) && ExistingApplicationIntended(one, eventId, second) == Ok(false)
    ensures var two := [Application(1, eventId, first, "", InProgress, Some(first)),
                        Application(2, eventId, second, "", InProgress, Some(second))];
            ExistingApplication(two, eventId, second) == Err(MultipleResults) && ExistingApplicationIntended(two, eventId, second) == Ok(true)
  {
    var one := [Application(1, eventId, first, "", InProgress, Some(first))];
    assert ApplicationPair(one[0]) != (eventId, second);
    var two := [Application(1, eventId, first, "", InProgress, Some(first)),
                Application(2, eventId, second, "", InProgress, Some(second))];
    assert ApplicationPair(two[1]) in Keys(two, ApplicationPair);
  }

  const APPLICATION_EXISTS := BadRequest("Application exists please update it")
  const EVENT_FKEY := "event_applications_event_id_fkey"
  const APPLICANT_FKEY := "event_applications_applicant_id_fkey"

  /** The row `add_new_application` inserts: in progress, applied and last updated by the
      applicant organization. */
  function NewApplication(id: int, eventId: int, orgId: int, applicationData: string): Application {
    Application(id, eventId, orgId, applicationData, InProgress, Some(orgId))
  }

  /** `add_new_application(db, event_id, org_id, event_data)` as written: the check is
      `existing_application` as written, so an organization is refused once any
      application to the event exists, whoever made it, and every applicant fails with
      MultipleResultsFound once the event has two. Otherwise the row is inserted. */
  method AddNewApplication(db: Session, eventId: int, orgId: int, applicationData: string) returns (r: Result<Application>)
    requires db.Valid()
    modifies db`applications, db`nextApplicationId
    ensures db.Valid()
    ensures KeysUnique(old(db.applications), ApplicationPair) ==> KeysUnique(db.applications, ApplicationPair)
    ensures ExistingApplication(old(db.applications), eventId, orgId) == Ok(true) ==>
              r == Err(APPLICATION_EXISTS) && db.applications == old(db.applications)
    ensures ExistingApplication(old(db.applications), eventId, orgId) == Err(MultipleResults) ==>
              r == Err(MultipleResults) && db.applications == old(db.applications)
    ensures ExistingApplication(old(db.applications), eventId, orgId) == Ok(false) ==>
              && (forall i :: 0 <= i < |old(db.applications)| ==> old(db.applications)[i].eventId != eventId)
              && InsertedApplication(db, old(db.applications), old(db.nextApplicationId), eventId, orgId, applicationData, r)
  {
    var existing := ExistingApplication(db.applications, eventId, orgId);
    if existing.Err? {
      return Err(existing.error);
    }
    if existing.value {
      return Err(APPLICATION_EXISTS);
    }
    assert (eventId, orgId) !in Keys(db.applications, ApplicationPair);
    r := InsertApplication(db, eventId, orgId, applicationData);
  }

  /** `add_new_application` as intended: only this organization's own application to the
      event refuses it, so every organization may apply once to each event. */
  method AddNewApplicationIntended(db: Session, eventId: int, orgId: int, applicationData: string) returns (r: Result<Application>)
    requires db.Valid()
    modifies db`applications, db`nextApplicationId
    ensures db.Valid()
    ensures KeysUnique(old(db.applications), ApplicationPair) ==> KeysUnique(db.applications, ApplicationPair)
    ensures ExistingApplicationIntended(old(db.applications), eventId, orgId) == Ok(true) ==>
              r == Err(APPLICATION_EXISTS) && db.applications == old(db.applications)
    ensures ExistingApplicationIntended(old(db.applications), eventId, orgId) == Err(MultipleResults) ==>
              r == Err(MultipleResults) && db.applications == old(db.applications)
    ensures ExistingApplicationIntended(old(db.applications), eventId, orgId) == Ok(false) ==>
              InsertedApplication(db, old(db.applications), old(db.nextApplicationId), eventId, orgId, applicationData, r)
  {
    var existing := ExistingApplicationIntended(db.applications, eventId, orgId);
    if existing.Err? {
      return Err(existing.error);
    }
    if existing.value {
      return Err(APPLICATION_EXISTS);
    }
    r := InsertApplication(db, eventId, orgId, applicationData);
  }

  /** The outcome of the insert once the existence check passed: the foreign keys refuse
      an unknown event, then an unknown applicant, leaving the table as it was; otherwise
      the in-progress row is appended under the next id and answered. */
  ghost predicate InsertedApplication(db: Session, before: seq<Application>, nextId: int, eventId: int, orgId: int,
                                      applicationData: string, r: Result<Application>)
    reads db
  {
    && (eventId !in Keys(db.events, EventKey) ==>
          r == Err(Integrity(EVENT_FKEY)) && db.applications == before)
    && (eventId in Keys(db.events, EventKey) && orgId !in Keys(db.organizations, OrganizationKey) ==>
          r == Err(Integrity(APPLICANT_FKEY)) && db.applications == before)
    && (eventId in Keys(db.events, EventKey) && orgId in Keys(db.organizations, OrganizationKey) ==>
          && db.applications == before + [NewApplication(nextId, eventId, orgId, applicationData)]
          && db.nextApplicationId == nextId + 1
          && r == Ok(NewApplication(nextId, eventId, orgId, applicationData)))
  }

  /** The insert of `add_new_application` once the existence check passed: the foreign
      keys decide, then the row is read back by its id. */
  method InsertApplication(db: Session, eventId: int, orgId: int, applicationData: string) returns (r: Result<Application>)
    requires db.Valid()
    requires (eventId, orgId) !in Keys(db.applications, ApplicationPair)
    modifies db`applications, db`nextApplicationId
    ensures db.Valid()
    ensures KeysUnique(old(db.applications), ApplicationPair) ==> KeysUnique(db.applications, ApplicationPair)
    ensures InsertedApplication(db, old(db.applications), old(db.nextApplicationId), eventId, orgId, applicationData, r)
  {
    if eventId !in Keys(db.events, EventKey) {
      return Err(Integrity(EVENT_FKEY));
    }
    if orgId !in Keys(db.organizations, OrganizationKey) {
      return Err(Integrity(APPLICANT_FKEY));
    }
    var row := NewApplication(db.nextApplicationId, eventId, orgId, applicationData);
    AppendApplicationValid(db, row);
    db.applications := db.applications + [row];
    db.nextApplicationId := db.nextApplicationId + 1;
    r := GetApplicationById(db.applications, Some(row.id));
  }

  /** Appending an application with the next id, to an existing event and by an existing
      organization, keeps every constraint, and the read-back by its id finds it. */
  lemma AppendApplicationValid(db: Session, row: Application)
    requires db.Valid() && row.id == db.nextApplicationId
    requires row.eventId in Keys(db.events, EventKey) && row.applicantId in Keys(db.organizations, OrganizationKey)
    requires ApplicationPair(row) !in Keys(db.applications, ApplicationPair)
    ensures var after := db.applications + [row];
      && Serial(after, ApplicationKey, db.nextApplicationId + 1)
      && References(after, ApplicationEvent, Keys(db.events, EventKey))
      && References(after, ApplicationApplicant, Keys(db.organizations, OrganizationKey))
      && References(db.applicationDocuments, AppDocApplication, Keys(after, ApplicationKey))
      && (KeysUnique(db.applications, ApplicationPair) ==> KeysUnique(after, ApplicationPair))
      && GetApplicationById(after, Some(row.id)) == Ok(row)
  {
    var after := db.applications + [row];
    SerialAppend(db.applications, row, ApplicationKey, db.nextApplicationId);
    KeysAppend(db.applications, row, ApplicationKey);
    ReferencesWiden(db.applicationDocuments, AppDocApplication, Keys(db.applications, ApplicationKey), Keys(after, ApplicationKey));
    if KeysUnique(db.applications, ApplicationPair) {
      UniqueAppend(db.applications, row, ApplicationPair);
    }
    IdFilterSelectsRow(after, |after| - 1);
  }

  function HasApplicationId(applicationId: int): Application -> bool {
    (a: Application) => a.id == applicationId
  }

  function WithStatus(status: ApplicationStatus): Application -> Application {
    (a: Application) => a.(status := status)
  }

  /** What `RETURNING id` yields through `.scalar()`: the id when a row has it, else None. */
  function UpdatedId(applications: seq<Application>, applicationId: int): (r: Option<int>)
    ensures r.Some? <==> applicationId in Keys(applications, ApplicationKey)
    ensures r.Some? ==> r.value == applicationId
  {
    if applicationId in Keys(applications, ApplicationKey) then Some(applicationId) else None
  }

  /** Setting a status keeps the keys and foreign keys of the table. */
  lemma StatusUpdateValid(db: Session, applicationId: int, status: ApplicationStatus)
    requires db.Valid()
    ensures var after := Query.UpdateWhere(db.applications, HasApplicationId(applicationId), WithStatus(status));
      && Serial(after, ApplicationKey, db.nextApplicationId)
      && Keys(after, ApplicationKey) == Keys(db.applications, ApplicationKey)
      && References(after, ApplicationEvent, Keys(db.events, EventKey))
      && References(after, ApplicationApplicant, Keys(db.organizations, OrganizationKey))
  {
    var p, f := HasApplicationId(applicationId), WithStatus(status);
    KeysUpdate(db.applications, p, f, ApplicationKey);
    ReferencesUpdate(db.applications, p, f, ApplicationEvent, Keys(db.events, EventKey));
    ReferencesUpdate(db.applications, p, f, ApplicationApplicant, Keys(db.organizations, OrganizationKey));
  }

  /** `update_status(db, event_id, application_id, status)` as written: only that
      application's status changes, and `event_id` is not used. The answer is read back
      by the returned id; for an unknown id that is None, the lookup then applies no
      filter and answers the table's first application. */
  method UpdateStatus(db: Session, eventId: int, applicationId: int, status: ApplicationStatus) returns (r: Result<Application>)
    requires db.Valid()
    modifies db`applications
    ensures db.Valid()
    ensures |db.applications| == |old(db.applications)|
    ensures forall i :: 0 <= i < |db.applications| ==>
              db.applications[i] == if old(db.applications)[i].id == applicationId
                                    then old(db.applications)[i].(status := status) else old(db.applications)[i]
    ensures r == GetApplicationById(db.applications, UpdatedId(db.applications, applicationId))
  {
    StatusUpdateValid(db, applicationId, status);
    db.applications := Query.UpdateWhere(db.applications, HasApplicationId(applicationId), WithStatus(status));
    var updatedId := UpdatedId(db.applications, applicationId);
    r := GetApplicationById(db.applications, updatedId);
  }

  /** For a present id the answer is that application with its new status. */
  lemma UpdateStatusAnswer(applications: seq<Application>, k: nat, status: ApplicationStatus)
    requires KeysUnique(applications, ApplicationKey) && k < |applications|
    ensures var after := Query.UpdateWhere(applications, HasApplicationId(applications[k].id), WithStatus(status));
            GetApplicationById(after, UpdatedId(after, applications[k].id)) == Ok(applications[k].(status := status))
  {
    var id := applications[k].id;
    var after := Query.UpdateWhere(applications, HasApplicationId(id), WithStatus(status));
    KeysUpdate(applications, HasApplicationId(id), WithStatus(status), ApplicationKey);
    assert ApplicationKey(after[k]) in Keys(after, ApplicationKey);
    IdFilterSelectsRow(after, k);
  }

  /** As written, an unknown id updates nothing and answers an unrelated application. */
  lemma UpdateStatusUnknownIdCounterexample(status: ApplicationStatus)
    ensures var apps := [Application(1, 1, 1, "", InProgress, Some(1))];
            var after := Query.UpdateWhere(apps, HasApplicationId(2), WithStatus(status));
            && after == apps
            && GetApplicationById(after, UpdatedId(after, 2)) == Ok(apps[0])
            && apps[0].id != 2
  {
    var apps := [Application(1, 1, 1, "", InProgress, Some(1))];
    var after := Query.UpdateWhere(apps, HasApplicationId(2), WithStatus(status));
    assert after[0] == apps[0];
    assert 2 !in Keys(after, ApplicationKey);
  }

  /** `update_status` as intended: the same update, and NotFoundException for an id no
      application has. */
  method UpdateStatusIntended(db: Session, eventId: int, applicationId: int, status: ApplicationStatus) returns (r: Result<Application>)
    requires db.Valid()
    modifies db`applications
    ensures db.Valid()
    ensures |db.applications| == |old(db.applications)|
    ensures forall i :: 0 <= i < |db.applications| ==>
              db.applications[i] == if old(db.applications)[i].id == applicationId
                                    then old(db.applications)[i].(status := status) else old(db.applications)[i]
    ensures applicationId !in Keys(old(db.applications), ApplicationKey) ==> r == Err(NotFound)
    ensures applicationId in Keys(old(db.applications), ApplicationKey) ==>
              r.Ok? && r.value.id == applicationId && r.value.status == status && r.value in db.applications
  {
    StatusUpdateValid(db, applicationId, status);
    db.applications := Query.UpdateWhere(db.applications, HasApplicationId(applicationId), WithStatus(status));
    var updatedId := UpdatedId(db.applications, applicationId);
    if updatedId.None? {
      return Err(NotFound);
    }
    var k :| 0 <= k < |db.applications| && db.applications[k].id == applicationId;
    IdFilterSelectsRow(db.applications, k);
    r := GetApplicationById(db.applications, updatedId);
  }
}
