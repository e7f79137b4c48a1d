/** The organization endpoints of src/endpoints/organization.py. */
module OrganizationEndpoint {
  import opened Errors
  import opened Schemas
  import opened Tables
  import opened Database
  import OrganizationService
  import DocumentService

  const ALREADY_IN_ORGANIZATION := BadRequest("User already has an organization")
  const OTHER_ORGANIZATION := BadRequest("User can only add member to your organization")
  const NOT_AN_ADMIN := BadRequest("Only user could add member to an organization")

  /** `GET /org/`: the organization of the current user. */
  function UserOrg(members: seq<Membership>, organizations: seq<Organization>, currentUser: UserDetail): (r: Result<Organization>)
    ensures r.Ok? ==> r.value in organizations &&
                      exists i :: 0 <= i < |members| && members[i] == Membership(currentUser.id, r.value.id, members[i].role)
    ensures r.Err? ==> r.error == NotFound
  {
    OrganizationService.OrganizationByUserData(members, organizations, currentUser.id)
  }

  /** The first two steps of `POST /org/`: insert the organization and make the user
      its admin. */
  method AdminOrganization(db: Session, userId: int, data: OrganizationIn) returns (r: Result<Organization>)
    requires db.Valid()
    modifies db`organizations, db`nextOrganizationId, db`orgTags, db`members
    ensures db.Valid()
    ensures userId !in Keys(db.users, UserKey) ==>
              && r == Err(Integrity(OrganizationService.MEMBER_USER_FKEY))
              && db.organizations == old(db.organizations) + [Organization(old(db.nextOrganizationId), data.attributes)]
              && db.members == old(db.members)
    ensures userId in Keys(db.users, UserKey) ==>
              var created := Organization(old(db.nextOrganizationId), data.attributes);
              && r == Ok(created)
              && db.organizations == old(db.organizations) + [created]
              && db.members == OrganizationService.UpsertMember(old(db.members), Membership(userId, created.id, Admin))
              && Membership(userId, created.id, Admin) in db.members
              && db.orgTags == old(db.orgTags)
  {
    var created := OrganizationService.NewOrganizationIntended(db, data);
    var newOrganization := created.value;
    assert OrganizationKey(db.organizations[|db.organizations| - 1]) == newOrganization.id;
    var admin := Membership(userId, newOrganization.id, Admin);
    ghost var members0 := db.members;
    var added := OrganizationService.AddEmployee(db, admin);
    if added.Err? {
      return Err(added.error);
    }
    OrganizationService.UpsertMemberSpec(members0, admin);
    assert MemberKey(admin) in Keys(db.members, MemberKey);
    r := Ok(newOrganization);
  }

  /** The body of `POST /org/` after its guard, up to the commit: the organization and its
      admin, then the documents filed under it. An empty document list is refused by the
      documents insert after the organization and its admin were written. */
  method FoundOrganization(db: Session, userId: int, data: OrganizationIn) returns (r: Result<Organization>)
    requires db.Valid()
    modifies db`organizations, db`nextOrganizationId, db`orgTags, db`members, db`documents, db`nextDocumentId
    ensures db.Valid()
    ensures userId !in Keys(db.users, UserKey) ==>
              && r == Err(Integrity(OrganizationService.MEMBER_USER_FKEY))
              && db.organizations == old(db.organizations) + [Organization(old(db.nextOrganizationId), data.attributes)]
              && db.members == old(db.members) && db.documents == old(db.documents)
    ensures userId in Keys(db.users, UserKey) ==>
              var created := Organization(old(db.nextOrganizationId), data.attributes);
              && db.organizations == old(db.organizations) + [created]
              && db.members == OrganizationService.UpsertMember(old(db.members), Membership(userId, created.id, Admin))
              && Membership(userId, created.id, Admin) in db.members
              && db.orgTags == old(db.orgTags)
              && (data.documents.None? ==> r == Ok(created) && db.documents == old(db.documents))
              && (data.documents == Some([]) ==>
                    r == Err(Integrity(DocumentService.FILE_URL_NOT_NULL)) && db.documents == old(db.documents))
              && (data.documents.Some? && |data.documents.value| > 0 ==>
                    && r == Ok(created)
                    && db.documents == old(db.documents) + DocumentService.DocumentRows(old(db.nextDocumentId), created.id, data.documents.value))
  {
    r := AdminOrganization(db, userId, data);
    if r.Err? {
      return;
    }
    ghost var members1, organizations1, orgTags1 := db.members, db.organizations, db.orgTags;
    assert OrganizationKey(db.organizations[|db.organizations| - 1]) == r.value.id;
    var filed := DocumentService.AddDocuments(db, r.value.id, data.documents);
    assert db.members == members1 && db.organizations == organizations1 && db.orgTags == orgTags1;
    if filed.Err? {
      r := Err(filed.error);
    }
  }

  /** `POST /org/`: a user without an organization creates one, becomes its admin, and the
      documents are filed under it, all in one transaction. An error raised on the way
      leaves the transaction uncommitted. */
  method CreateOrg(db: Session, currentUser: UserDetail, data: OrganizationIn) returns (r: Result<Organization>)
    requires db.Valid()
    modifies db`organizations, db`nextOrganizationId, db`orgTags, db`members, db`documents, db`nextDocumentId, db`commits
    ensures db.Valid()
    ensures currentUser.organizationId.Some? ==>
              && r == Err(ALREADY_IN_ORGANIZATION)
              && db.organizations == old(db.organizations) && db.members == old(db.members)
              && db.documents == old(db.documents) && db.commits == old(db.commits)
    ensures currentUser.organizationId.None? && currentUser.id !in Keys(db.users, UserKey) ==>
              && r == Err(Integrity(OrganizationService.MEMBER_USER_FKEY))
              && db.organizations == old(db.organizations) + [Organization(old(db.nextOrganizationId), data.attributes)]
              && db.members == old(db.members) && db.documents == old(db.documents)
              && db.commits == old(db.commits)
    ensures currentUser.organizationId.None? && currentUser.id in Keys(db.users, UserKey) ==>
              var created := Organization(old(db.nextOrganizationId), data.attributes);
              && db.organizations == old(db.organizations) + [created]
              && db.members == OrganizationService.UpsertMember(old(db.members), Membership(currentUser.id, created.id, Admin))
              && Membership(currentUser.id, created.id, Admin) in db.members
              && db.orgTags == old(db.orgTags)
              && (data.documents.None? ==>
                    r == Ok(created) && db.documents == old(db.documents) && db.commits == old(db.commits) + 1)
              && (data.documents == Some([]) ==>
                    && r == Err(Integrity(DocumentService.FILE_URL_NOT_NULL))
                    && db.documents == old(db.documents) && db.commits == old(db.commits))
              && (data.documents.Some? && |data.documents.value| > 0 ==>
                    && r == Ok(created)
                    && db.documents == old(db.documents) + DocumentService.DocumentRows(old(db.nextDocumentId), created.id, data.documents.value)
                    && db.commits == old(db.commits) + 1)
  {
    if currentUser.organizationId.Some? {
      return Err(ALREADY_IN_ORGANIZATION);
    }
    r := FoundOrganization(db, currentUser.id, data);
    if r.Err? {
      return;
    }
    db.Commit();
  }

  /** `POST /org/add_employee` as written: the membership lookup is called without the
      database session, so Python raises TypeError before anything runs. */
  function AddEmployeeEndpoint(members: seq<Membership>, currentUser: UserDetail, data: Membership): (r: Result<Membership>)
    ensures r.Err? && r.error.TypeError?
  {
    Err(TypeError("get_membership_by_user_id() missing 1 required positional argument: 'user_id'"))
  }

  /** Who may add a member, as the endpoint intends: the caller's first membership must
      be an admin membership of the target organization. */
  function AddEmployeeGuard(members: seq<Membership>, currentUser: UserDetail, data: Membership): (r: Result<()>)
    ensures r.Ok? ==> Membership(currentUser.id, data.organizationId, Admin) in members
    ensures (forall i :: 0 <= i < |members| ==> members[i].userId != currentUser.id) ==> r == Err(NotFound)
    ensures var m := OrganizationService.GetMembershipByUserId(members, currentUser.id);
            m.Ok? && m.value.organizationId != data.organizationId ==> r == Err(OTHER_ORGANIZATION)
    ensures var m := OrganizationService.GetMembershipByUserId(members, currentUser.id);
            m.Ok? && m.value.organizationId == data.organizationId && m.value.role != Admin ==> r == Err(NOT_AN_ADMIN)
    ensures r == Ok(()) <==>
              OrganizationService.GetMembershipByUserId(members, currentUser.id) == Ok(Membership(currentUser.id, data.organizationId, Admin))
  {
    match OrganizationService.GetMembershipByUserId(members, currentUser.id)
    case Err(e) => Err(e)
    case Ok(m) =>
      if m.organizationId != data.organizationId then Err(OTHER_ORGANIZATION)
      else if m.role != Admin then Err(NOT_AN_ADMIN)
      else Ok(())
  }

  /** The guard admits an admin whose only membership is the target organization's, and
      refuses a staff member and anyone whose membership is another organization's. */
  lemma AddEmployeeGuardCases(currentUser: UserDetail, data: Membership, other: int)
    requires other != data.organizationId
    ensures AddEmployeeGuard([Membership(currentUser.id, data.organizationId, Admin)], currentUser, data) == Ok(())
    ensures AddEmployeeGuard([Membership(currentUser.id, data.organizationId, Staff)], currentUser, data) == Err(NOT_AN_ADMIN)
    ensures AddEmployeeGuard([Membership(currentUser.id, other, Admin)], currentUser, data) == Err(OTHER_ORGANIZATION)
  {
    var admin := [Membership(currentUser.id, data.organizationId, Admin)];
    assert OrganizationService.MemberOf(currentUser.id)(admin[0]);
    var staff := [Membership(currentUser.id, data.organizationId, Staff)];
    assert OrganizationService.MemberOf(currentUser.id)(staff[0]);
    var elsewhere := [Membership(currentUser.id, other, Admin)];
    assert OrganizationService.MemberOf(currentUser.id)(elsewhere[0]);
  }

  /** The endpoint as written refuses even the admin the intended guard admits. */
  lemma AddEmployeeEndpointRefusesAdmin(currentUser: UserDetail, data: Membership)
    ensures var members := [Membership(currentUser.id, data.organizationId, Admin)];
            AddEmployeeGuard(members, currentUser, data).Ok? && AddEmployeeEndpoint(members, currentUser, data).Err?
  {
    AddEmployeeGuardCases(currentUser, data, data.organizationId + 1);
  }

  /** `POST /org/add_employee` with the session passed: the guard, then the upsert. The
      endpoint does not commit, so the change lives only as long as the request's
      session. */
  method AddEmployeeEndpointIntended(db: Session, currentUser: UserDetail, data: Membership) returns (r: Result<Membership>)
    requires db.Valid()
    modifies db`members
    ensures db.Valid()
    ensures db.commits == old(db.commits)
    ensures AddEmployeeGuard(old(db.members), currentUser, data).Err? ==>
              r == Err(AddEmployeeGuard(old(db.members), currentUser, data).error) && db.members == old(db.members)
    ensures AddEmployeeGuard(old(db.members), currentUser, data).Ok? ==>
              && data.organizationId in Keys(db.organizations, OrganizationKey)
              && (data.userId in Keys(db.users, UserKey) ==>
                    && db.members == OrganizationService.UpsertMember(old(db.members), data)
                    && r.Ok? && r.value.userId == data.userId)
              && (data.userId !in Keys(db.users, UserKey) ==>
                    r == Err(Integrity(OrganizationService.MEMBER_USER_FKEY)) && db.members == old(db.members))
  {
    var guard := AddEmployeeGuard(db.members, currentUser, data);
    if guard.Err? {
      return Err(guard.error);
    }
    GuardedOrganizationExists(db.members, Keys(db.organizations, OrganizationKey), currentUser, data);
    r := OrganizationService.AddEmployee(db, data);
  }

  /** Under the membership foreign key, the organization the guard admits exists. */
  lemma GuardedOrganizationExists(members: seq<Membership>, organizationIds: set<int>, currentUser: UserDetail, data: Membership)
    requires References(members, MemberOrganization, organizationIds)
    requires AddEmployeeGuard(members, currentUser, data).Ok?
    ensures data.organizationId in organizationIds
  {
    var k :| 0 <= k < |members| && members[k] == Membership(currentUser.id, data.organizationId, Admin);
    assert MemberOrganization(members[k]) in organizationIds;
  }
}
