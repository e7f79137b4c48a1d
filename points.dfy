/** Point accrual and the country leaderboard of src/services/points.py. */
module Points {
  import opened Errors
  import opened Schemas
  import opened Tables
  import Query
  import opened Database
  import UserService

  const LEADERBOARD_SIZE := 10

  /** The user row with `point` more points, now spendable and all-time. */
  function Credited(u: User, point: int): User {
    u.(points := u.points + point, totalPoints := u.totalPoints + point)
  }

  function Credit(point: int): User -> User {
    (u: User) => Credited(u, point)
  }

  /** `add_point_for_user(db, point, user_id)`: log the gain, credit that user, and answer
      the updated user (NotFoundException for an unknown id; the log row is written
      regardless). */
  method AddPointForUser(db: Session, point: int, userId: int) returns (r: Result<UserDetail>)
    requires db.Valid()
    modifies db`pointLog, db`users
    ensures db.Valid()
    ensures db.pointLog == old(db.pointLog) + [PointGain(userId, point)]
    ensures |db.users| == |old(db.users)|
    ensures forall i :: 0 <= i < |db.users| ==>
              db.users[i] == if old(db.users)[i].id == userId then Credited(old(db.users)[i], point) else old(db.users)[i]
    ensures r == UserService.UserById(db.users, userId)
  {
    db.pointLog := db.pointLog + [PointGain(userId, point)];
    KeysUpdate(db.users, UserService.HasId(userId), Credit(point), UserKey);
    db.users := Query.UpdateWhere(db.users, UserService.HasId(userId), Credit(point));
    r := UserService.UserById(db.users, userId);
  }

  /** The answer of `add_point_for_user` for a known user carries both counters raised by
      exactly `point`. */
  lemma AddPointAnswer(users: seq<User>, i: nat, point: int)
    requires KeysUnique(users, UserKey) && i < |users|
    ensures var after := Query.UpdateWhere(users, UserService.HasId(users[i].id), Credit(point));
            var r := UserService.UserById(after, users[i].id);
            && r.Ok?
            && r.value.points == users[i].points + point
            && r.value.totalPoints == users[i].totalPoints + point
            && r.value.id == users[i].id
  {
    var after := Query.UpdateWhere(users, UserService.HasId(users[i].id), Credit(point));
    KeysUpdate(users, UserService.HasId(users[i].id), Credit(point), UserKey);
    assert after[i] == Credited(users[i], point);
    UserService.UserByIdOfRow(after, i);
  }

  // ---------------------------------------------------------------- leaderboard

  predicate SortedByTotalDesc(s: seq<User>) {
    forall i, j :: 0 <= i < j < |s| ==> s[i].totalPoints >= s[j].totalPoints
  }

  /** Insert a row into a sequence sorted by decreasing total points. */
  function InsertByTotal(x: User, s: seq<User>): (r: seq<User>)
    requires SortedByTotalDesc(s)
    ensures SortedByTotalDesc(r)
    ensures multiset(r) == multiset(s) + multiset{x}
    ensures |r| == |s| + 1
    ensures r[0] == x || (|s| > 0 && r[0] == s[0])
  {
    if |s| == 0 then [x]
    else if x.totalPoints >= s[0].totalPoints then [x] + s
    else
      var rest := InsertByTotal(x, s[1..]);
      assert s == [s[0]] + s[1..];
      [s[0]] + rest
  }

  /** `ORDER BY total_points DESC`, as insertion sort. */
  function SortByTotal(s: seq<User>): (r: seq<User>)
    ensures SortedByTotalDesc(r)
    ensures multiset(r) == multiset(s)
    ensures |r| == |s|
  {
    if |s| == 0 then []
    else
      assert s == [s[0]] + s[1..];
      InsertByTotal(s[0], SortByTotal(s[1..]))
  }

  function InCountry(country: string): User -> bool {
    (u: User) => u.country == country
  }

  /** The rows the leaderboard query returns: users of `country`, by decreasing total
      points, at most ten. */
  function LeaderboardRows(users: seq<User>, country: string): (r: seq<User>)
    ensures |r| <= LEADERBOARD_SIZE
    ensures SortedByTotalDesc(r)
    ensures |r| == |Query.Where(users, InCountry(country))| || |r| == LEADERBOARD_SIZE
  {
    var sorted := SortByTotal(Query.Where(users, InCountry(country)));
    if |sorted| <= LEADERBOARD_SIZE then sorted else sorted[..LEADERBOARD_SIZE]
  }

  function EntryOf(u: User): LeaderboardEntry {
    LeaderboardEntry(u.fullName, u.totalPoints, u.rank, u.id)
  }

  /** `leaderboard_of_country(db, country)`. */
  function LeaderboardOfCountry(users: seq<User>, country: string): (r: seq<LeaderboardEntry>)
    ensures |r| == |LeaderboardRows(users, country)|
    ensures forall i :: 0 <= i < |r| ==> r[i] == EntryOf(LeaderboardRows(users, country)[i])
  {
    var rows := LeaderboardRows(users, country);
    seq(|rows|, i requires 0 <= i < |rows| => EntryOf(rows[i]))
  }

  /** A row of a sequence is a row of any sequence with the same multiset. */
  lemma SameMultisetMember(a: seq<User>, b: seq<User>, i: nat)
    requires multiset(a) == multiset(b) && i < |a|
    ensures a[i] in b
  {
    assert a[i] in multiset(a);
  }

  /** In a sorted sequence, a row outside the first `n` comes after them and has no more
      total points than the n-th. */
  lemma OutsidePrefix(sorted: seq<User>, n: nat, k: nat)
    requires SortedByTotalDesc(sorted) && 0 < n <= k < |sorted|
    ensures sorted[k].totalPoints <= sorted[n - 1].totalPoints
  {
  }

  /** Leaderboard rows are users of `country` from the table, each listed at most as
      often as the table holds it, by non-increasing total points, at most ten. */
  lemma LeaderboardMembers(users: seq<User>, country: string)
    ensures var rows := LeaderboardRows(users, country);
      && |rows| <= LEADERBOARD_SIZE
      && SortedByTotalDesc(rows)
      && (forall i :: 0 <= i < |rows| ==> rows[i] in users && rows[i].country == country)
      && multiset(rows) <= multiset(Query.Where(users, InCountry(country)))
  {
    var filtered := Query.Where(users, InCountry(country));
    var sorted := SortByTotal(filtered);
    var rows := LeaderboardRows(users, country);
    assert sorted == rows + sorted[|rows|..];
    forall i | 0 <= i < |rows| ensures rows[i] in users && rows[i].country == country {
      assert rows[i] == sorted[i];
      SameMultisetMember(sorted, filtered, i);
    }
  }

  /** No user of the country left off the board has more total points than the last
      entry, and the board is full whenever one is left off. */
  lemma LeaderboardOmitted(users: seq<User>, country: string, j: nat)
    requires j < |users| && users[j].country == country && users[j] !in LeaderboardRows(users, country)
    ensures var rows := LeaderboardRows(users, country);
            |rows| == LEADERBOARD_SIZE && users[j].totalPoints <= rows[|rows| - 1].totalPoints
  {
    var filtered := Query.Where(users, InCountry(country));
    var sorted := SortByTotal(filtered);
    var rows := LeaderboardRows(users, country);
    assert InCountry(country)(users[j]);
    assert users[j] in filtered;
    var f :| 0 <= f < |filtered| && filtered[f] == users[j];
    SameMultisetMember(filtered, sorted, f);
    var k :| 0 <= k < |sorted| && sorted[k] == users[j];
    forall m | 0 <= m < |rows| ensures sorted[m] in rows {
      assert rows[m] == sorted[m];
    }
    assert k >= |rows|;
    assert |sorted| > LEADERBOARD_SIZE;
    OutsidePrefix(sorted, LEADERBOARD_SIZE, k);
  }

  /** Every user of the country is on the board when the country has at most ten. */
  lemma SmallCountryFullyListed(users: seq<User>, country: string)
    requires |Query.Where(users, InCountry(country))| <= LEADERBOARD_SIZE
    ensures multiset(LeaderboardRows(users, country)) == multiset(Query.Where(users, InCountry(country)))
  {
  }
}
