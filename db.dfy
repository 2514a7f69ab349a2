/**
 * The database helper of `src/lib/db.ts`: the `users` and `user_roles`
 * tables are the fields of one `Database` object, and each helper is a
 * method that reads or rewrites them as its SQL statement does. The md5
 * digest and `NOW()` are parameters.
 */
module Db {
  import opened JsText

  /** A row of `users`, with the columns the helpers write. */
  datatype User = User(
    id: int, username: string, oauthId: string, apiKey: string, clientId: string,
    created: int, lastActive: int, kudos: int, monthlyKudos: int, evaluatingKudos: int,
    usageMultiplier: int, workerInvited: int, publicWorkers: bool, concurrency: int)

  /** A row of `user_roles`. */
  datatype RoleRow = RoleRow(userId: int, role: string, value: bool)

  // ---------------------------------------------------------------------
  // Role values
  // ---------------------------------------------------------------------

  /** How `addUserRole` turns its `value` text into a boolean. */
  function ParseRoleValue(value: string): (b: bool)
    ensures ToUpper(value) == "TRUE" ==> b
    ensures ToUpper(value) == "FALSE" ==> !b
  {
    if ToUpper(value) == "TRUE" then true
    else if ToUpper(value) == "FALSE" then false
    else value == "true" || value == "t" || value == "1"
  }

  lemma UpperOfLowerTrue()
    ensures ToUpper("true") == "TRUE"
  {
    var s := ToUpper("true");
    assert s[0] == 'T' && s[1] == 'R' && s[2] == 'U' && s[3] == 'E';
  }

  /** `"true"` is caught by the upper-case test, so the last branch never sees it. */
  lemma LowerTrueIsCaughtFirst(value: string)
    requires ToUpper(value) != "TRUE"
    ensures value != "true"
  {
    UpperOfLowerTrue();
  }

  /**
   * The whole rule: a value is true exactly when it spells `true` in any
   * case, or is `t` or `1`.
   */
  lemma ParseRoleValueSpec(value: string)
    ensures ParseRoleValue(value) <==> ToUpper(value) == "TRUE" || value == "t" || value == "1"
  {
    if ToUpper(value) != "TRUE" {
      LowerTrueIsCaughtFirst(value);
      if value == "t" || value == "1" {
        assert |ToUpper(value)| == 1;
      }
    }
  }

  /** The default argument: `addUserRole(u, r)` stores true. */
  function RoleValueOf(value: Option<string>): bool {
    ParseRoleValue(if value.Some? then value.value else "TRUE")
  }

  lemma DefaultRoleValueIsTrue()
    ensures RoleValueOf(None)
  {
    assert ToUpper("TRUE") == "TRUE";
  }

  // ---------------------------------------------------------------------
  // Specifications of the table operations
  // ---------------------------------------------------------------------

  /** `rows[0]` of `SELECT * FROM users WHERE oauth_id = $1`, or null. */
  function FirstWithOAuthId(users: seq<User>, oauthId: string): (u: Option<User>)
    ensures u.Some? ==> u.value in users && u.value.oauthId == oauthId
    ensures u.None? <==> forall k :: 0 <= k < |users| ==> users[k].oauthId != oauthId
  {
    if users == [] then None
    else if users[0].oauthId == oauthId then Some(users[0])
    else FirstWithOAuthId(users[1..], oauthId)
  }

  /** The row found is the first match: no earlier row has the same OAuth id. */
  lemma {:induction false} FirstWithOAuthIdIsFirst(users: seq<User>, oauthId: string)
    requires FirstWithOAuthId(users, oauthId).Some?
    ensures exists k :: (0 <= k < |users| && users[k] == FirstWithOAuthId(users, oauthId).value
                         && forall j :: 0 <= j < k ==> users[j].oauthId != oauthId)
  {
    if users[0].oauthId != oauthId {
      FirstWithOAuthIdIsFirst(users[1..], oauthId);
      var k :| 0 <= k < |users[1..]| && users[1..][k] == FirstWithOAuthId(users[1..], oauthId).value
        && forall j :: 0 <= j < k ==> users[1..][j].oauthId != oauthId;
      assert users[k + 1] == FirstWithOAuthId(users, oauthId).value;
      assert forall j :: 0 <= j < k + 1 ==> users[j].oauthId != oauthId by {
        forall j | 0 <= j < k + 1
          ensures users[j].oauthId != oauthId
        {
          if j > 0 {
            assert users[j] == users[1..][j - 1];
          }
        }
      }
    } else {
      assert users[0] == FirstWithOAuthId(users, oauthId).value;
    }
  }

  /** The row `createUser` inserts. */
  function NewUser(id: int, username: string, oauthId: string, apiKey: string,
                   digest: string -> string, now: int): User {
    User(id, username, oauthId, apiKey, digest(oauthId), now, now, 100, 0, 0, 1, 0, false, 30)
  }

  /** `UPDATE users SET api_key = $1, last_active = NOW() WHERE id = $2`. */
  function SetApiKey(users: seq<User>, userId: int, apiKey: string, now: int): (r: seq<User>)
    ensures |r| == |users|
    ensures forall k :: 0 <= k < |users| ==>
      r[k] == if users[k].id == userId then users[k].(apiKey := apiKey, lastActive := now) else users[k]
  {
    seq(|users|, k requires 0 <= k < |users| =>
      if users[k].id == userId then users[k].(apiKey := apiKey, lastActive := now) else users[k])
  }

  /** The first row with the given id, as `RETURNING *` and `rows[0]` give it. */
  function FirstWithId(users: seq<User>, userId: int): (u: Option<User>)
    ensures u.Some? ==> u.value in users && u.value.id == userId
    ensures u.None? <==> forall k :: 0 <= k < |users| ==> users[k].id != userId
  {
    if users == [] then None
    else if users[0].id == userId then Some(users[0])
    else FirstWithId(users[1..], userId)
  }

  predicate Matches(row: RoleRow, userId: int, role: string) {
    row.userId == userId && row.role == role
  }

  predicate HasRole(rows: seq<RoleRow>, userId: int, role: string) {
    exists k :: 0 <= k < |rows| && Matches(rows[k], userId, role)
  }

  /** `UPDATE user_roles SET value = $3 WHERE user_id = $1 AND user_role = $2`. */
  function SetRoleValue(rows: seq<RoleRow>, userId: int, role: string, value: bool): (r: seq<RoleRow>)
    ensures |r| == |rows|
    ensures forall k :: 0 <= k < |rows| ==>
      r[k] == if Matches(rows[k], userId, role) then rows[k].(value := value) else rows[k]
  {
    seq(|rows|, k requires 0 <= k < |rows| =>
      if Matches(rows[k], userId, role) then rows[k].(value := value) else rows[k])
  }

  /** The `user_roles` table after `addUserRole(userId, role, …)` with the parsed `value`. */
  function AfterAddRole(rows: seq<RoleRow>, userId: int, role: string, value: bool): seq<RoleRow> {
    if HasRole(rows, userId, role) then SetRoleValue(rows, userId, role, value)
    else rows + [RoleRow(userId, role, value)]
  }

  /** An existing `(user_id, user_role)` pair is updated in place and no row is added. */
  lemma AddRoleUpdates(rows: seq<RoleRow>, userId: int, role: string, value: bool)
    requires HasRole(rows, userId, role)
    ensures var after := AfterAddRole(rows, userId, role, value);
      && |after| == |rows|
      && forall k :: 0 <= k < |rows| ==>
           after[k].userId == rows[k].userId && after[k].role == rows[k].role
           && after[k].value == (if Matches(rows[k], userId, role) then value else rows[k].value)
  {
  }

  /** A new pair is appended as exactly one row at the end; nothing else changes. */
  lemma AddRoleInserts(rows: seq<RoleRow>, userId: int, role: string, value: bool)
    requires !HasRole(rows, userId, role)
    ensures AfterAddRole(rows, userId, role, value) == rows + [RoleRow(userId, role, value)]
  {
  }

  /** Afterwards the pair is present and every row of it holds the new value. */
  lemma AddRoleHolds(rows: seq<RoleRow>, userId: int, role: string, value: bool)
    ensures var after := AfterAddRole(rows, userId, role, value);
      && HasRole(after, userId, role)
      && forall k :: 0 <= k < |after| && Matches(after[k], userId, role) ==> after[k].value == value
  {
    var after := AfterAddRole(rows, userId, role, value);
    if HasRole(rows, userId, role) {
      var k :| 0 <= k < |rows| && Matches(rows[k], userId, role);
      assert Matches(after[k], userId, role);
    } else {
      assert Matches(after[|rows|], userId, role);
    }
  }

  /** No `(user_id, user_role)` pair occurs twice. */
  predicate UniqueRoles(rows: seq<RoleRow>) {
    forall i, j :: 0 <= i < j < |rows| ==> !Matches(rows[j], rows[i].userId, rows[i].role)
  }

  /** Select-then-update-or-insert never creates a duplicate pair. */
  lemma AddRoleKeepsUnique(rows: seq<RoleRow>, userId: int, role: string, value: bool)
    requires UniqueRoles(rows)
    ensures UniqueRoles(AfterAddRole(rows, userId, role, value))
  {
    var after := AfterAddRole(rows, userId, role, value);
    if !HasRole(rows, userId, role) {
      forall i, j | 0 <= i < j < |after|
        ensures !Matches(after[j], after[i].userId, after[i].role)
      {
        if j == |rows| {
          assert !Matches(rows[i], userId, role);
        }
      }
    }
  }

  /** Adding the same role with the same value twice is the same as adding it once. */
  lemma AddRoleIdempotent(rows: seq<RoleRow>, userId: int, role: string, value: bool)
    ensures var once := AfterAddRole(rows, userId, role, value);
      AfterAddRole(once, userId, role, value) == once
  {
    var once := AfterAddRole(rows, userId, role, value);
    AddRoleHolds(rows, userId, role, value);
    var twice := AfterAddRole(once, userId, role, value);
    assert |twice| == |once|;
    forall k | 0 <= k < |once|
      ensures twice[k] == once[k]
    {
    }
  }

  /** `SELECT * FROM user_roles WHERE user_id = $1`, in table order. */
  function RolesOf(rows: seq<RoleRow>, userId: int): (r: seq<RoleRow>)
    ensures |r| <= |rows|
    ensures forall x :: x in r <==> x in rows && x.userId == userId
  {
    if rows == [] then []
    else (if rows[0].userId == userId then [rows[0]] else []) + RolesOf(rows[1..], userId)
  }

  // ---------------------------------------------------------------------
  // The tables
  // ---------------------------------------------------------------------

  class Database {
    var users: seq<User>
    var roles: seq<RoleRow>
    /** The next value of the `users.id` serial. */
    var nextUserId: int

    /** The `users.id` serial: every stored id is distinct and below the next value it hands out. */
    ghost predicate Valid()
      reads this
    {
      && (forall i, j :: 0 <= i < j < |users| ==> users[i].id != users[j].id)
      && (forall k :: 0 <= k < |users| ==> users[k].id < nextUserId)
    }

    constructor (users0: seq<User>, roles0: seq<RoleRow>, nextUserId0: int)
      requires forall i, j :: 0 <= i < j < |users0| ==> users0[i].id != users0[j].id
      requires forall k :: 0 <= k < |users0| ==> users0[k].id < nextUserId0
      ensures Valid()
      ensures users == users0 && roles == roles0 && nextUserId == nextUserId0
    {
      users := users0;
      roles := roles0;
      nextUserId := nextUserId0;
    }

    /** `getUserByOAuthId`: the first row with that OAuth id, or none. */
    method GetUserByOAuthId(oauthId: string) returns (user: Option<User>)
      ensures user == FirstWithOAuthId(users, oauthId)
    {
      var i := 0;
      while i < |users|
        invariant 0 <= i <= |users|
        invariant FirstWithOAuthId(users[i..], oauthId) == FirstWithOAuthId(users, oauthId)
      {
        if users[i].oauthId == oauthId {
          return Some(users[i]);
        }
        assert users[i..][1..] == users[i + 1..];
        i := i + 1;
      }
      return None;
    }

    /**
     * `createUser`: one new row at the end, whose `client_id` is the digest
     * of the OAuth id (the same OAuth id always gives the same client id)
     * and whose counters start at their defaults.
     */
    method CreateUser(username: string, oauthId: string, apiKey: string,
                      digest: string -> string, now: int) returns (user: User)
      requires Valid()
      modifies this
      ensures Valid()
      ensures forall k :: 0 <= k < |old(users)| ==> old(users)[k].id != user.id
      ensures user == NewUser(old(nextUserId), username, oauthId, apiKey, digest, now)
      ensures user.clientId == digest(oauthId)
      ensures user.kudos == 100 && user.monthlyKudos == 0 && user.evaluatingKudos == 0
      ensures user.usageMultiplier == 1 && user.workerInvited == 0
      ensures !user.publicWorkers && user.concurrency == 30
      ensures user.created == user.lastActive == now
      ensures users == old(users) + [user] && roles == old(roles) && nextUserId == old(nextUserId) + 1
    {
      var clientId := digest(oauthId);
      user := User(nextUserId, username, oauthId, apiKey, clientId, now, now, 100, 0, 0, 1, 0, false, 30);
      users := users + [user];
      nextUserId := nextUserId + 1;
    }

    /** `updateUserApiKey`: rewrites the key and activity time of that user's rows. */
    method UpdateUserApiKey(userId: int, apiKey: string, now: int) returns (user: Option<User>)
      requires Valid()
      modifies this
      ensures Valid()
      ensures users == SetApiKey(old(users), userId, apiKey, now)
      ensures user == FirstWithId(users, userId)
      ensures roles == old(roles) && nextUserId == old(nextUserId)
    {
      users := SetApiKey(users, userId, apiKey, now);
      user := FirstWithId(users, userId);
    }

    /**
     * `addUserRole`: looks the pair up, then updates the rows it found or
     * inserts one row; the stored value is the parsed `value` (default
     * `TRUE`).
     */
    method AddUserRole(userId: int, role: string, value: Option<string>) returns (row: RoleRow)
      requires Valid()
      modifies this
      ensures Valid()
      ensures roles == AfterAddRole(old(roles), userId, role, RoleValueOf(value))
      ensures row == RoleRow(userId, role, RoleValueOf(value))
      ensures users == old(users) && nextUserId == old(nextUserId)
    {
      var text := if value.Some? then value.value else "TRUE";
      var boolValue := ParseRoleValue(text);
      var existing := false;
      var i := 0;
      while i < |roles|
        invariant 0 <= i <= |roles|
        invariant existing <==> exists k :: 0 <= k < i && Matches(roles[k], userId, role)
      {
        if Matches(roles[i], userId, role) {
          existing := true;
        }
        i := i + 1;
      }
      if existing {
        roles := SetRoleValue(roles, userId, role, boolValue);
      } else {
        roles := roles + [RoleRow(userId, role, boolValue)];
      }
      row := RoleRow(userId, role, boolValue);
    }

    /** `getUserRoles`: that user's role rows. */
    method GetUserRoles(userId: int) returns (rows: seq<RoleRow>)
      ensures rows == RolesOf(roles, userId)
    {
      rows := RolesOf(roles, userId);
    }
  }
}
