/**
 * `POST /api/update-username`: lets a signed-in user rename themselves. A
 * chain of early returns checks the session, the user row, the body field,
 * the trimmed name's format, sameness with the current name, and
 * availability, and only then stores the trimmed name.
 */
module UpdateUsername {
  import opened JsText
  import Db

  /** `session.user.id`, each level possibly missing. */
  datatype SessionUser = SessionUser(id: Option<string>)
  datatype Session = Session(user: Option<SessionUser>)

  /**
   * The body's `username` field. A body that is not JSON parses as `{}`
   * and so gives `Absent`; `NotText` is any value that is not a string.
   */
  datatype UsernameField = Absent | Text(s: string) | NotText

  datatype Validation = Valid | Invalid(error: string)

  datatype UsernameResponse =
    | JsonError(status: int, error: string)
    | Renamed(username: string, message: string)

  const AUTH_REQUIRED := JsonError(401, "Authentication required")
  const USER_NOT_FOUND := JsonError(404, "User not found")
  const USERNAME_REQUIRED := JsonError(400, "Username is required")
  const SAME_USERNAME := JsonError(400, "This is already your current username")
  const USERNAME_TAKEN := JsonError(409, "Username is already taken")
  const UPDATED_MESSAGE := "Username updated successfully"

  const TOO_SHORT := "Username must be at least 3 characters long"
  const TOO_LONG := "Username must be at most 100 characters long"
  const BAD_CHARACTERS := "Username can only contain letters, numbers, underscores, and hyphens"

  /** `getStableId`: the session's user id when it is present and not empty; both branches return it. */
  function GetStableId(session: Session): (id: Option<string>)
    ensures id.None? <==> session.user.None? || session.user.value.id.None? || session.user.value.id.value == ""
    ensures id.Some? ==> id == session.user.value.id
  {
    if session.user.None? || session.user.value.id.None? || session.user.value.id.value == "" then None
    else
      var userId := session.user.value.id.value;
      if Includes(userId, "_") then Some(userId) else Some(userId)
  }

  /** A character of `[a-zA-Z0-9_-]`. */
  predicate UsernameChar(c: char) {
    'a' <= c <= 'z' || 'A' <= c <= 'Z' || '0' <= c <= '9' || c == '_' || c == '-'
  }

  /** `/^[a-zA-Z0-9_-]+$/.test(name)`. */
  predicate MatchesUsernamePattern(name: string) {
    |name| > 0 && forall i :: 0 <= i < |name| ==> UsernameChar(name[i])
  }

  /** `validateUsername`: the length checks first, then the characters, reporting only the first failure. */
  function ValidateUsername(name: string): (v: Validation)
    ensures v.Valid? <==> 3 <= |name| <= 100 && forall i :: 0 <= i < |name| ==> UsernameChar(name[i])
    ensures |name| < 3 ==> v == Invalid(TOO_SHORT)
    ensures |name| > 100 ==> v == Invalid(TOO_LONG)
    ensures 3 <= |name| <= 100 && v.Invalid? ==>
      v.error == BAD_CHARACTERS && exists i :: 0 <= i < |name| && !UsernameChar(name[i])
  {
    if |name| < 3 then Invalid(TOO_SHORT)
    else if |name| > 100 then Invalid(TOO_LONG)
    else if !MatchesUsernamePattern(name) then Invalid(BAD_CHARACTERS)
    else Valid
  }

  /** A valid name has nothing for `trim` to remove, so trimming it again changes nothing. */
  lemma ValidNameIsTrimmed(name: string)
    requires ValidateUsername(name).Valid?
    ensures Trim(name) == name
  {
    assert !IsWhitespace(name[0]) && !IsWhitespace(name[|name| - 1]);
    TrimSolid(name);
  }

  /** The user row the session belongs to, as `getUserByOAuthId(getStableId(session))` finds it. */
  function SignedInUser(session: Option<Session>, users: seq<Db.User>): Option<Db.User> {
    if session.None? || GetStableId(session.value).None? then None
    else Db.FirstWithOAuthId(users, GetStableId(session.value).value)
  }

  /** The response and the `updateUsername(userId, name)` call made, if any. */
  datatype Outcome = Outcome(response: UsernameResponse, update: Option<(int, string)>)

  /**
   * `POST`, given the `users` table that `getUserByOAuthId` reads and the
   * body field. `isAvailable` stands for `isUsernameAvailable(name, userId)`
   * and `storedName` for the username of the row `updateUsername(userId,
   * name)` returns; those two helpers are not part of this model.
   */
  function HandlePost(session: Option<Session>, users: seq<Db.User>, field: UsernameField,
                      isAvailable: (string, int) -> bool, storedName: (int, string) -> string): (o: Outcome)
    ensures session.None? || GetStableId(session.value).None? ==> o == Outcome(AUTH_REQUIRED, None)
    ensures session.Some? && GetStableId(session.value).Some? && SignedInUser(session, users).None? ==>
      o == Outcome(USER_NOT_FOUND, None)
    ensures SignedInUser(session, users).Some? && (!field.Text? || field.s == "") ==>
      o == Outcome(USERNAME_REQUIRED, None)
    ensures SignedInUser(session, users).Some? && field.Text? && field.s != "" ==>
      var user := SignedInUser(session, users).value;
      var name := Trim(field.s);
      && (ValidateUsername(name).Invalid? ==> o == Outcome(JsonError(400, ValidateUsername(name).error), None))
      && (ValidateUsername(name).Valid? && ToLower(user.username) == ToLower(name) ==>
            o == Outcome(SAME_USERNAME, None))
      && (ValidateUsername(name).Valid? && ToLower(user.username) != ToLower(name) && !isAvailable(name, user.id) ==>
            o == Outcome(USERNAME_TAKEN, None))
    // The name is stored, trimmed, exactly when every check passes.
    ensures o.update.Some? <==>
      && SignedInUser(session, users).Some? && field.Text? && field.s != ""
      && ValidateUsername(Trim(field.s)).Valid?
      && ToLower(SignedInUser(session, users).value.username) != ToLower(Trim(field.s))
      && isAvailable(Trim(field.s), SignedInUser(session, users).value.id)
    ensures o.update.Some? ==>
      var user := SignedInUser(session, users).value;
      && o.update == Some((user.id, Trim(field.s)))
      && o.response == Renamed(storedName(user.id, Trim(field.s)), UPDATED_MESSAGE)
  {
    if session.None? then Outcome(AUTH_REQUIRED, None)
    else
      var oauthId := GetStableId(session.value);
      if oauthId.None? then Outcome(AUTH_REQUIRED, None)
      else
        var user := Db.FirstWithOAuthId(users, oauthId.value);
        if user.None? then Outcome(USER_NOT_FOUND, None)
        else if !field.Text? || field.s == "" then Outcome(USERNAME_REQUIRED, None)
        else
          var trimmedUsername := Trim(field.s);
          var validation := ValidateUsername(trimmedUsername);
          if validation.Invalid? then Outcome(JsonError(400, validation.error), None)
          else if ToLower(user.value.username) == ToLower(trimmedUsername) then Outcome(SAME_USERNAME, None)
          else if !isAvailable(trimmedUsername, user.value.id) then Outcome(USERNAME_TAKEN, None)
          else Outcome(Renamed(storedName(user.value.id, trimmedUsername), UPDATED_MESSAGE),
                       Some((user.value.id, trimmedUsername)))
  }

  /** A name that differs from the current one only in letter case is refused whatever its availability. */
  lemma CaseChangeRefused(session: Option<Session>, users: seq<Db.User>, name: string,
                          isAvailable: (string, int) -> bool, storedName: (int, string) -> string)
    requires SignedInUser(session, users).Some?
    requires ValidateUsername(name).Valid?
    requires ToLower(name) == ToLower(SignedInUser(session, users).value.username)
    ensures HandlePost(session, users, Text(name), isAvailable, storedName) == Outcome(SAME_USERNAME, None)
  {
    ValidNameIsTrimmed(name);
  }

  /** Padding around a valid new name is dropped before it is stored. */
  lemma PaddedNameStoredTrimmed(session: Option<Session>, users: seq<Db.User>, pre: string, name: string, post: string,
                                isAvailable: (string, int) -> bool, storedName: (int, string) -> string)
    requires SignedInUser(session, users).Some?
    requires AllWhitespace(pre) && AllWhitespace(post)
    requires ValidateUsername(name).Valid?
    requires ToLower(name) != ToLower(SignedInUser(session, users).value.username)
    requires isAvailable(name, SignedInUser(session, users).value.id)
    ensures HandlePost(session, users, Text(pre + name + post), isAvailable, storedName).update
      == Some((SignedInUser(session, users).value.id, name))
  {
    TrimPadded(pre, name, post);
    assert pre + name + post != "";
  }
}
