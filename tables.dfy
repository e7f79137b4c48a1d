/** The tables of src/db_tables.py (and the tables the services use beyond it) as row
    datatypes, with their primary keys, foreign keys and nullable columns stated as
    predicates over a table held as a sequence of rows. */
module Tables {
  import opened Errors
  import opened Schemas
  import Hashing
  import Query

  // ---------------------------------------------------------------- rows

  /** A `users` row. `password` is nullable: federated accounts have none. `email` is
      indexed but not unique. The remaining columns are the ones the services read and
      write; `rank` stands for the value of the rank enumeration. */
  datatype User = User(
    id: int, email: string, password: Option<Hashing.Digest>, fullName: string,
    points: int, totalPoints: int, city: string, country: string, rank: int)

  /** Server defaults of the columns an insert into `users` leaves out. */
  const NEW_USER_POINTS := 0
  const NEW_USER_RANK := 0

  /** A `user_google_id` row: Google subject (primary key) to user. */
  datatype GoogleLink = GoogleLink(googleId: string, userId: int)

  /** A `documents` row. */
  datatype Document = Document(id: int, uploaderId: int, attributes: DocumentAttribute)

  /** An `event_applications` row; `application_data` stands for its JSON document. */
  datatype Application = Application(
    id: int, eventId: int, applicantId: int, applicationData: string,
    status: ApplicationStatus, updatedBy: Option<int>)

  /** An `application_document` row. */
  datatype ApplicationDocumentLink = ApplicationDocumentLink(applicationId: int, documentId: int)

  datatype Country = Country(id: int, caption: string)

  datatype City = City(id: int, caption: string, country: int)

  /** A `user_inventory` row, keyed by `(user_id, item_id)` ("inventory_pk"). */
  datatype InventoryRow = InventoryRow(userId: int, itemId: int, quantity: int)

  /** A `user_point_gain` log row. */
  datatype PointGain = PointGain(userId: int, point: int)

  /** An `org_tags` row. */
  datatype OrgTag = OrgTag(organizationId: int, tagId: int)

  /** The `UserResponse` a user query builds: the selected columns (all but the password);
      `organization_id` is not selected, so it takes its default, None. */
  function DetailOf(u: User): (d: UserDetail)
    ensures d.id == u.id && d.email == u.email && d.fullName == u.fullName && d.points == u.points
    ensures d.totalPoints == u.totalPoints && d.city == u.city && d.country == u.country && d.rank == u.rank
    ensures d.organizationId.None?
  {
    UserDetail(u.id, u.email, u.fullName, u.points, u.totalPoints, u.city, u.country, u.rank, None)
  }

  // ---------------------------------------------------------------- key functions

  function UserKey(u: User): int { u.id }
  function GoogleKey(l: GoogleLink): string { l.googleId }
  function LinkUser(l: GoogleLink): int { l.userId }
  function OrganizationKey(o: Organization): int { o.id }
  function MemberKey(m: Membership): (int, int) { (m.organizationId, m.userId) }
  function MemberOrganization(m: Membership): int { m.organizationId }
  function MemberUser(m: Membership): int { m.userId }
  function DocumentKey(d: Document): int { d.id }
  function DocumentUploader(d: Document): int { d.uploaderId }
  function EventKey(e: EventAttribute): int { e.id }
  function EventOwner(e: EventAttribute): int { e.organizerId }
  function ApplicationKey(a: Application): int { a.id }
  function ApplicationEvent(a: Application): int { a.eventId }
  function ApplicationApplicant(a: Application): int { a.applicantId }
  function AppDocKey(l: ApplicationDocumentLink): (int, int) { (l.applicationId, l.documentId) }
  function AppDocApplication(l: ApplicationDocumentLink): int { l.applicationId }
  function AppDocDocument(l: ApplicationDocumentLink): int { l.documentId }
  function CountryKey(c: Country): int { c.id }
  function CityKey(c: City): int { c.id }
  function CityCountry(c: City): int { c.country }
  function ShopItemKey(i: ShopItem): int { i.id }
  function InventoryKey(r: InventoryRow): (int, int) { (r.userId, r.itemId) }

  // ---------------------------------------------------------------- constraints

  /** A primary key: no two rows share a key. */
  predicate KeysUnique<T, K(==)>(rows: seq<T>, key: T -> K) {
    forall i, j :: 0 <= i < j < |rows| ==> key(rows[i]) != key(rows[j])
  }

  /** Every key lies below the next value of the table's serial sequence. */
  predicate KeysBelow<T>(rows: seq<T>, key: T -> int, next: int) {
    forall i :: 0 <= i < |rows| ==> key(rows[i]) < next
  }

  /** The set of keys present in a table. */
  function Keys<T, K>(rows: seq<T>, key: T -> K): set<K> {
    set i | 0 <= i < |rows| :: key(rows[i])
  }

  /** A foreign key: every row's reference names a key present in the target table. */
  predicate References<T, K>(rows: seq<T>, fk: T -> K, targets: set<K>) {
    forall i :: 0 <= i < |rows| ==> fk(rows[i]) in targets
  }

  /** A serial primary key: unique and below the sequence. */
  predicate Serial<T>(rows: seq<T>, key: T -> int, next: int) {
    KeysUnique(rows, key) && KeysBelow(rows, key, next)
  }

  /** A foreign key stays satisfied when the target table gains keys. */
  lemma ReferencesWiden<T, K>(rows: seq<T>, fk: T -> K, targets: set<K>, more: set<K>)
    requires References(rows, fk, targets) && targets <= more
    ensures References(rows, fk, more)
  {
  }

  lemma KeysAppend<T, K>(rows: seq<T>, x: T, key: T -> K)
    ensures Keys(rows + [x], key) == Keys(rows, key) + {key(x)}
  {
    var all := rows + [x];
    assert all[|rows|] == x;
    forall k | k in Keys(rows, key) ensures k in Keys(all, key) {
      var i :| 0 <= i < |rows| && key(rows[i]) == k;
      assert all[i] == rows[i];
    }
  }

  /** Appending a row with the next serial value keeps the key serial. */
  lemma SerialAppend<T>(rows: seq<T>, x: T, key: T -> int, next: int)
    requires Serial(rows, key, next) && key(x) == next
    ensures Serial(rows + [x], key, next + 1)
  {
  }

  /** Appending a row whose key is not yet present keeps the key unique. */
  lemma UniqueAppend<T, K>(rows: seq<T>, x: T, key: T -> K)
    requires KeysUnique(rows, key) && key(x) !in Keys(rows, key)
    ensures KeysUnique(rows + [x], key)
  {
    var all := rows + [x];
    forall i, j | 0 <= i < j < |all| ensures key(all[i]) != key(all[j]) {
      if j == |rows| {
        assert all[i] == rows[i];
        assert key(rows[i]) in Keys(rows, key);
      } else {
        assert all[i] == rows[i] && all[j] == rows[j];
      }
    }
  }

  /** The next serial value is not yet a key. */
  lemma NextNotPresent<T>(rows: seq<T>, key: T -> int, next: int)
    requires KeysBelow(rows, key, next)
    ensures next !in Keys(rows, key)
  {
  }

  /** In a table with a primary key, the row holding a present key is the only match. */
  lemma UniqueKeyRow<T, K>(rows: seq<T>, key: T -> K, i: nat, j: nat)
    requires KeysUnique(rows, key) && i < |rows| && j < |rows| && key(rows[i]) == key(rows[j])
    ensures i == j
  {
  }

  /** An update that keeps every row's key keeps the table's key set, and so its primary
      key, its serial bound and every foreign key into it. */
  lemma KeysUpdate<T, K>(rows: seq<T>, p: T -> bool, f: T -> T, key: T -> K)
    requires forall x :: key(f(x)) == key(x)
    ensures Keys(Query.UpdateWhere(rows, p, f), key) == Keys(rows, key)
    ensures KeysUnique(rows, key) ==> KeysUnique(Query.UpdateWhere(rows, p, f), key)
  {
    var r := Query.UpdateWhere(rows, p, f);
    assert forall i :: 0 <= i < |rows| ==> key(r[i]) == key(rows[i]);
    forall k | k in Keys(rows, key) ensures k in Keys(r, key) {
      var i :| 0 <= i < |rows| && key(rows[i]) == k;
      assert key(r[i]) == k;
    }
  }

  /** An update that keeps every row's reference keeps the foreign key. */
  lemma ReferencesUpdate<T, K>(rows: seq<T>, p: T -> bool, f: T -> T, fk: T -> K, targets: set<K>)
    requires forall x :: fk(f(x)) == fk(x)
    requires References(rows, fk, targets)
    ensures References(Query.UpdateWhere(rows, p, f), fk, targets)
  {
    var r := Query.UpdateWhere(rows, p, f);
    assert forall i :: 0 <= i < |rows| ==> fk(r[i]) == fk(rows[i]);
  }

  /** `users.email` is not declared unique: two users may share an address. */
  lemma {:induction false} EmailNotUnique()
    ensures var two := [User(1, "a@x.com", None, "A", 0, 0, "", "", 0),
                        User(2, "a@x.com", None, "B", 0, 0, "", "", 0)];
            Serial(two, UserKey, 3) && two[0].email == two[1].email
  {
  }
}
