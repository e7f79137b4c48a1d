/** The organization queries and inserts of src/services/organization.py. The tag list an
    organization query aggregates is dropped by the `Organization` schema, which has no
    field for it, so an organization is its id and attributes. */
module OrganizationService {
  import opened Errors
  import opened Schemas
  import opened Tables
  import Query
  import opened Database

  function OrganizationIs(id: int): Organization -> bool {
    (o: Organization) => o.id == id
  }

  /** `organization_by_id`: the organization with that id, or NotFoundException. */
  function OrganizationById(organizations: seq<Organization>, id: int): (r: Result<Organization>)
    ensures r.Err? <==> id !in Keys(organizations, OrganizationKey)
    ensures r.Err? ==> r.error == NotFound
    ensures r.Ok? ==> r.value in organizations && r.value.id == id
  {
    match Query.First(organizations, OrganizationIs(id))
    case None =>
      assert forall i :: 0 <= i < |organizations| ==> OrganizationKey(organizations[i]) != id;
      Err(NotFound)
    case Some(o) => Ok(o)
  }

  /** With `id` the primary key, the organization at a present id is the answer. */
  lemma OrganizationByIdOfRow(organizations: seq<Organization>, k: nat)
    requires KeysUnique(organizations, OrganizationKey) && k < |organizations|
    ensures OrganizationById(organizations, organizations[k].id) == Ok(organizations[k])
  {
    var p := OrganizationIs(organizations[k].id);
    forall j | 0 <= j < |organizations| && j != k ensures !p(organizations[j]) {
      if j < k { assert OrganizationKey(organizations[j]) != OrganizationKey(organizations[k]); }
      else { assert OrganizationKey(organizations[k]) != OrganizationKey(organizations[j]); }
    }
    Query.FirstOfOnly(organizations, p, k);
  }

  /** The `org_tags` rows for a tag list. */
  function TagRows(orgId: int, tags: seq<int>): (rows: seq<OrgTag>)
    ensures |rows| == |tags|
    ensures forall i :: 0 <= i < |tags| ==> rows[i] == OrgTag(orgId, tags[i])
  {
    seq(|tags|, i requires 0 <= i < |tags| => OrgTag(orgId, tags[i]))
  }

  /** The tag column an insert without tag values leaves empty. */
  const TAG_NOT_NULL := "org_tags.tag_id"

  /** `add_tags_to_org(db, org_id, tags)`: None changes nothing; a non-empty list adds one
      row per listed tag, in list order. An empty list is executed as a single insert of
      `organization_id` alone, which the tag column, part of the tag link, refuses. */
  method AddTagsToOrg(db: Session, orgId: int, tags: Option<seq<int>>) returns (r: Result<()>)
    requires db.Valid()
    modifies db`orgTags
    ensures db.Valid()
    ensures tags.None? ==> r == Ok(()) && db.orgTags == old(db.orgTags)
    ensures tags == Some([]) ==> r == Err(Integrity(TAG_NOT_NULL)) && db.orgTags == old(db.orgTags)
    ensures tags.Some? && |tags.value| > 0 ==> r == Ok(()) && db.orgTags == old(db.orgTags) + TagRows(orgId, tags.value)
  {
    if tags.None? {
      return Ok(());
    }
    if |tags.value| == 0 {
      return Err(Integrity(TAG_NOT_NULL));
    }
    db.orgTags := db.orgTags + TagRows(orgId, tags.value);
    r := Ok(());
  }

  /** Appending an organization with the next id keeps every constraint. */
  lemma AppendOrganizationValid(db: Session, o: Organization)
    requires db.Valid() && o.id == db.nextOrganizationId
    ensures var orgs := db.organizations + [o];
      && Serial(orgs, OrganizationKey, db.nextOrganizationId + 1)
      && Keys(orgs, OrganizationKey) == Keys(db.organizations, OrganizationKey) + {o.id}
      && References(db.members, MemberOrganization, Keys(orgs, OrganizationKey))
      && References(db.documents, DocumentUploader, Keys(orgs, OrganizationKey))
      && References(db.events, EventOwner, Keys(orgs, OrganizationKey))
      && References(db.applications, ApplicationApplicant, Keys(orgs, OrganizationKey))
  {
    KeysAppend(db.organizations, o, OrganizationKey);
    SerialAppend(db.organizations, o, OrganizationKey, db.nextOrganizationId);
  }

  /** The insert both versions of `new_organization` start with: the attributes, without
      documents or tags, under the next id. */
  method InsertOrganization(db: Session, attributes: OrganizationAttributes) returns (insertedId: int)
    requires db.Valid()
    modifies db`organizations, db`nextOrganizationId
    ensures db.Valid()
    ensures insertedId == old(db.nextOrganizationId)
    ensures db.organizations == old(db.organizations) + [Organization(insertedId, attributes)]
    ensures db.nextOrganizationId == old(db.nextOrganizationId) + 1
  {
    insertedId := db.nextOrganizationId;
    var o := Organization(insertedId, attributes);
    AppendOrganizationValid(db, o);
    db.organizations := db.organizations + [o];
    db.nextOrganizationId := db.nextOrganizationId + 1;
  }

  /** `new_organization` as written: after the insert it reads `.tags` from an
      `OrganizationIn`, which has no such field, and raises AttributeError. */
  method NewOrganization(db: Session, data: OrganizationIn) returns (r: Result<Organization>)
    requires db.Valid()
    modifies db`organizations, db`nextOrganizationId
    ensures db.Valid()
    ensures db.organizations == old(db.organizations) + [Organization(old(db.nextOrganizationId), data.attributes)]
    ensures r == Err(AttributeError("tags"))
  {
    var insertedId := InsertOrganization(db, data.attributes);
    return Err(AttributeError("tags"));
  }

  /** `new_organization` as intended: the schema carries no tags, so none are added, and
      the answer is the organization found at the inserted id. */
  method NewOrganizationIntended(db: Session, data: OrganizationIn) returns (r: Result<Organization>)
    requires db.Valid()
    modifies db`organizations, db`nextOrganizationId, db`orgTags
    ensures db.Valid()
    ensures db.organizations == old(db.organizations) + [Organization(old(db.nextOrganizationId), data.attributes)]
    ensures db.nextOrganizationId == old(db.nextOrganizationId) + 1
    ensures db.orgTags == old(db.orgTags)
    ensures r == Ok(Organization(old(db.nextOrganizationId), data.attributes))
  {
    var insertedId := InsertOrganization(db, data.attributes);
    var tagged := AddTagsToOrg(db, insertedId, None);
    OrganizationByIdOfRow(db.organizations, |db.organizations| - 1);
    r := OrganizationById(db.organizations, insertedId);
  }

  function MemberOf(userId: int): Membership -> bool {
    (m: Membership) => m.userId == userId
  }

  /** `get_membership_by_user_id`: the user's first membership, or NotFoundException. */
  function GetMembershipByUserId(members: seq<Membership>, userId: int): (r: Result<Membership>)
    ensures r.Err? <==> forall i :: 0 <= i < |members| ==> members[i].userId != userId
    ensures r.Err? ==> r.error == NotFound
    ensures r.Ok? ==> exists i :: 0 <= i < |members| && members[i] == r.value && members[i].userId == userId &&
                        forall j :: 0 <= j < i ==> members[j].userId != userId
  {
    match Query.FirstIndex(members, MemberOf(userId))
    case None => Err(NotFound)
    case Some(k) => Ok(members[k])
  }

  function InExistingOrganization(userId: int, organizations: seq<Organization>): Membership -> bool {
    (m: Membership) => m.userId == userId && m.organizationId in Keys(organizations, OrganizationKey)
  }

  /** `organization_by_user_data`: the organization of the user's first membership found
      through the join, or NotFoundException. */
  function OrganizationByUserData(members: seq<Membership>, organizations: seq<Organization>, userId: int): (r: Result<Organization>)
    ensures r.Err? <==> forall i :: 0 <= i < |members| && members[i].userId == userId ==>
                          members[i].organizationId !in Keys(organizations, OrganizationKey)
    ensures r.Err? ==> r.error == NotFound
    ensures r.Ok? ==> r.value in organizations &&
                      exists i :: 0 <= i < |members| && members[i].userId == userId && members[i].organizationId == r.value.id
  {
    match Query.First(members, InExistingOrganization(userId, organizations))
    case None => Err(NotFound)
    case Some(m) => OrganizationById(organizations, m.organizationId)
  }

  /** Under the membership foreign key, a user with a membership has an organization. */
  lemma MemberHasOrganization(members: seq<Membership>, organizations: seq<Organization>, k: nat)
    requires References(members, MemberOrganization, Keys(organizations, OrganizationKey)) && k < |members|
    ensures OrganizationByUserData(members, organizations, members[k].userId).Ok?
  {
    assert MemberOrganization(members[k]) in Keys(organizations, OrganizationKey);
  }

  function MemberKeyIs(organizationId: int, userId: int): Membership -> bool {
    (m: Membership) => m.organizationId == organizationId && m.userId == userId
  }

  function WithRole(role: OrganizationRole): Membership -> Membership {
    (m: Membership) => m.(role := role)
  }

  /** The members table after the upsert on `organization_members_pk`: a new pair is
      added with its role, an existing pair only has its role replaced. */
  function UpsertMember(members: seq<Membership>, data: Membership): (r: seq<Membership>)
    ensures Keys(r, MemberKey) == Keys(members, MemberKey) + {MemberKey(data)}
    ensures |members| <= |r| <= |members| + 1
    ensures forall i :: 0 <= i < |members| && MemberKey(members[i]) != MemberKey(data) ==> r[i] == members[i]
  {
    if MemberKey(data) in Keys(members, MemberKey) then
      KeysUpdate(members, MemberKeyIs(data.organizationId, data.userId), WithRole(data.role), MemberKey);
      Query.UpdateWhere(members, MemberKeyIs(data.organizationId, data.userId), WithRole(data.role))
    else
      KeysAppend(members, data, MemberKey);
      members + [data]
  }

  /** The upsert keeps one row per pair, and afterwards the pair holds the new role. */
  lemma UpsertMemberSpec(members: seq<Membership>, data: Membership)
    requires KeysUnique(members, MemberKey)
    ensures var after := UpsertMember(members, data);
      && KeysUnique(after, MemberKey)
      && Keys(after, MemberKey) == Keys(members, MemberKey) + {MemberKey(data)}
      && (forall i :: 0 <= i < |after| && MemberKey(after[i]) == MemberKey(data) ==> after[i] == data)
      && (forall i :: 0 <= i < |members| && MemberKey(members[i]) != MemberKey(data) ==> after[i] == members[i])
  {
    var after := UpsertMember(members, data);
    if MemberKey(data) in Keys(members, MemberKey) {
      KeysUpdate(members, MemberKeyIs(data.organizationId, data.userId), WithRole(data.role), MemberKey);
    } else {
      UniqueAppend(members, data, MemberKey);
      KeysAppend(members, data, MemberKey);
      assert forall i :: 0 <= i < |members| ==> MemberKey(members[i]) in Keys(members, MemberKey);
    }
  }

  /** The upsert keeps the membership foreign keys when the new pair's organization and
      user exist. */
  lemma UpsertMemberReferences(members: seq<Membership>, data: Membership, organizationIds: set<int>, userIds: set<int>)
    requires References(members, MemberOrganization, organizationIds) && References(members, MemberUser, userIds)
    requires data.organizationId in organizationIds && data.userId in userIds
    ensures References(UpsertMember(members, data), MemberOrganization, organizationIds)
    ensures References(UpsertMember(members, data), MemberUser, userIds)
  {
    var after := UpsertMember(members, data);
    if MemberKey(data) in Keys(members, MemberKey) {
      assert forall i :: 0 <= i < |after| ==> MemberKey(after[i]) == MemberKey(members[i]);
      assert forall i :: 0 <= i < |after| ==> MemberOrganization(members[i]) in organizationIds;
      assert forall i :: 0 <= i < |after| ==> MemberUser(members[i]) in userIds;
    } else {
      assert forall i :: 0 <= i < |members| ==> after[i] == members[i];
    }
  }

  const MEMBER_ORGANIZATION_FKEY := "organization_members_organization_id_fkey"
  const MEMBER_USER_FKEY := "organization_members_user_id_fkey"

  /** `add_employee(db, data)`: upsert the membership, then answer the user's first
      membership (which is another organization's when the user already had one). The
      foreign keys refuse an unknown organization or user. */
  method AddEmployee(db: Session, data: Membership) returns (r: Result<Membership>)
    requires db.Valid()
    modifies db`members
    ensures db.Valid()
    ensures data.organizationId !in Keys(db.organizations, OrganizationKey) ==>
              r == Err(Integrity(MEMBER_ORGANIZATION_FKEY)) && db.members == old(db.members)
    ensures data.organizationId in Keys(db.organizations, OrganizationKey) && data.userId !in Keys(db.users, UserKey) ==>
              r == Err(Integrity(MEMBER_USER_FKEY)) && db.members == old(db.members)
    ensures data.organizationId in Keys(db.organizations, OrganizationKey) && data.userId in Keys(db.users, UserKey) ==>
              && db.members == UpsertMember(old(db.members), data)
              && r == GetMembershipByUserId(db.members, data.userId)
              && r.Ok? && r.value.userId == data.userId
  {
    if data.organizationId !in Keys(db.organizations, OrganizationKey) {
      return Err(Integrity(MEMBER_ORGANIZATION_FKEY));
    }
    if data.userId !in Keys(db.users, UserKey) {
      return Err(Integrity(MEMBER_USER_FKEY));
    }
    UpsertMemberSpec(db.members, data);
    UpsertMemberReferences(db.members, data, Keys(db.organizations, OrganizationKey), Keys(db.users, UserKey));
    var after := UpsertMember(db.members, data);
    db.members := after;
    assert MemberKey(data) in Keys(db.members, MemberKey);
    r := GetMembershipByUserId(db.members, data.userId);
  }

  /** For a user with no membership yet, `add_employee` answers the new membership. */
  lemma AddEmployeeFirstMembership(members: seq<Membership>, data: Membership)
    requires KeysUnique(members, MemberKey)
    requires forall i :: 0 <= i < |members| ==> members[i].userId != data.userId
    ensures GetMembershipByUserId(UpsertMember(members, data), data.userId) == Ok(data)
  {
    assert MemberKey(data) !in Keys(members, MemberKey);
    var after := members + [data];
    assert after[|members|] == data;
    forall j | 0 <= j < |members| ensures !MemberOf(data.userId)(after[j]) {
      assert after[j] == members[j];
    }
  }
}
