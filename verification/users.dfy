/** The user endpoints: listing and deleting users, updating a profile
    (one's own, or anyone's as an administrator), changing the password,
    and the club endpoints that turn the table operations' results into
    HTTP answers. The requesting user is given by id, as authentication
    leaves it. */
module UserEndpoints {
  import opened Numeric
  import opened Text
  import opened GolfDb
  import opened RoundLifecycle
  import opened UserDb

  /** search_user: every user, or 404 when there are none. */
  function SearchUsers(users: seq<User>): (r: Response<seq<User>>)
    ensures r.Ok? <==> |users| > 0
    ensures r.Ok? ==> r.value == users
    ensures r.HttpError? ==> r == HttpError(404, "No users found")
  {
    var all := AllUsers(users);
    if all.None? then HttpError(404, "No users found") else Ok(all.value)
  }

  /** delete_user: the requesting user's row (and clubs) deleted, or 404. */
  method DeleteUserEndpoint(db: Db, userId: nat) returns (r: Response<string>)
    modifies db`users, db`clubs
    ensures r.Ok? <==> UserExists(old(db.users), userId)
    ensures r.HttpError? ==> r == HttpError(404, "User not found or could not be deleted")
                             && db.users == old(db.users) && db.clubs == old(db.clubs)
    ensures r.Ok? ==> r.value == "User has been deleted"
                      && db.users == UsersWithout(old(db.users), userId)
                      && db.clubs == ClubsWithout(old(db.clubs), userId)
  {
    var deleted := DeleteUser(db, userId);
    if !deleted {
      return HttpError(404, "User not found or could not be deleted");
    }
    r := Ok("User has been deleted");
  }

  // ---------------------------------------------------------------- profiles

  /** A field of a partial update: left out of the request, or sent with
      a value (possibly null). */
  datatype Field<T> = Unset | Given(value: Option<T>)

  /** UserUpdateSchema. */
  datatype ProfileUpdate = ProfileUpdate(firstName: Field<string>, lastName: Field<string>)

  /** AdminUpdateSchema. */
  datatype AdminUpdate = AdminUpdate(firstName: Field<string>, lastName: Field<string>,
                                     email: Field<string>, isAdmin: Field<bool>)

  /** A text field after the merge: written when sent and not "", which
      includes writing null. */
  function MergeText(current: Option<string>, f: Field<string>): Option<string> {
    if f.Given? && f.value != Some("") then f.value else current
  }

  /** A flag after the merge: a boolean is never "", so a sent flag is
      always written. */
  function MergeFlag(current: Option<bool>, f: Field<bool>): Option<bool> {
    if f.Given? then f.value else current
  }

  /** The user after a profile update. */
  function ApplyProfile(u: User, upd: ProfileUpdate): (r: User)
    ensures r.(firstName := u.firstName, lastName := u.lastName) == u
    ensures upd.firstName.Unset? || upd.firstName.value == Some("") ==> r.firstName == u.firstName
    ensures upd.firstName.Given? && upd.firstName.value != Some("") ==> r.firstName == upd.firstName.value
    ensures upd.lastName.Unset? || upd.lastName.value == Some("") ==> r.lastName == u.lastName
    ensures upd.lastName.Given? && upd.lastName.value != Some("") ==> r.lastName == upd.lastName.value
  {
    u.(firstName := MergeText(u.firstName, upd.firstName), lastName := MergeText(u.lastName, upd.lastName))
  }

  /** The user after an administrator's update. */
  function ApplyAdmin(u: User, upd: AdminUpdate): (r: User)
    ensures r.(firstName := u.firstName, lastName := u.lastName, email := u.email, isAdmin := u.isAdmin) == u
    ensures r.firstName == MergeText(u.firstName, upd.firstName) && r.lastName == MergeText(u.lastName, upd.lastName)
    ensures r.email == MergeText(u.email, upd.email)
    ensures upd.isAdmin.Unset? ==> r.isAdmin == u.isAdmin
    ensures upd.isAdmin.Given? ==> r.isAdmin == upd.isAdmin.value
  {
    u.(firstName := MergeText(u.firstName, upd.firstName), lastName := MergeText(u.lastName, upd.lastName),
       email := MergeText(u.email, upd.email), isAdmin := MergeFlag(u.isAdmin, upd.isAdmin))
  }

  /** Sending the same update twice changes nothing more. */
  lemma ProfileUpdateIdempotent(u: User, upd: ProfileUpdate, adm: AdminUpdate)
    ensures ApplyProfile(ApplyProfile(u, upd), upd) == ApplyProfile(u, upd)
    ensures ApplyAdmin(ApplyAdmin(u, adm), adm) == ApplyAdmin(u, adm)
  {
  }

  /** update_user_profile: the requesting user's row merged with the
      update. */
  method UpdateUserProfile(db: Db, userId: nat, upd: ProfileUpdate) returns (r: User)
    requires UserExists(db.users, userId)
    modifies db`users
    ensures var i := FindUser(old(db.users), userId).value;
            db.users == old(db.users)[i := ApplyProfile(old(db.users)[i], upd)] && r == db.users[i]
  {
    var i := FindUser(db.users, userId).value;
    db.users := db.users[i := ApplyProfile(db.users[i], upd)];
    r := db.users[i];
  }

  /** update_admin_profile: 401 unless the requester is an administrator;
      a target id with no user makes the handler fail (500); otherwise the
      target's row is merged with the update. */
  method UpdateAdminProfile(db: Db, requester: User, targetId: nat, upd: AdminUpdate) returns (r: Response<User>)
    modifies db`users
    ensures requester.isAdmin != Some(true) ==> r == HttpError(401, "Not an admin") && db.users == old(db.users)
    ensures requester.isAdmin == Some(true) && !UserExists(old(db.users), targetId) ==>
              r == HttpError(500, "Internal Server Error") && db.users == old(db.users)
    ensures requester.isAdmin == Some(true) && UserExists(old(db.users), targetId) ==>
              var i := FindUser(old(db.users), targetId).value;
              db.users == old(db.users)[i := ApplyAdmin(old(db.users)[i], upd)] && r == Ok(db.users[i])
  {
    if requester.isAdmin != Some(true) {
      return HttpError(401, "Not an admin");
    }
    var found := FindUser(db.users, targetId);
    if found.None? {
      return HttpError(500, "Internal Server Error");
    }
    var i := found.value;
    db.users := db.users[i := ApplyAdmin(db.users[i], upd)];
    r := Ok(db.users[i]);
  }

  // ---------------------------------------------------------------- passwords

  /** The first check change_password fails, as its 400 detail; None when
      all pass. The length check comes before either hash verification. */
  function PasswordProblem(currentPassword: string, newPassword: string, storedHash: string,
                           verify: (string, string) -> bool): (r: Option<string>)
    ensures r.None? <==> currentPassword != "" && |newPassword| >= 8
                         && verify(currentPassword, storedHash) && !verify(newPassword, storedHash)
  {
    if currentPassword == "" || newPassword == "" then Some("Both current and new passwords are required")
    else if |newPassword| < 8 then Some("New password must be at least 8 characters long")
    else if !verify(currentPassword, storedHash) then Some("Current password is incorrect")
    else if verify(newPassword, storedHash) then Some("New password must be different from the current password")
    else None
  }

  /** A short new password is refused whatever the hashes say. */
  lemma ShortPasswordRefusedBeforeVerification(currentPassword: string, newPassword: string, storedHash: string,
                                               verify: (string, string) -> bool)
    requires currentPassword != "" && 0 < |newPassword| < 8
    ensures PasswordProblem(currentPassword, newPassword, storedHash, verify)
            == Some("New password must be at least 8 characters long")
  {
  }

  /** change_password: the guards in order; then the requester's row gets
      the hash of the new password. A missing row raises a 404 inside the
      handler's try block, which its except clause turns into a 500. */
  method ChangePassword(db: Db, requester: User, currentPassword: string, newPassword: string,
                        verify: (string, string) -> bool, hash: string -> string) returns (r: Response<string>)
    modifies db`users
    ensures var problem := PasswordProblem(currentPassword, newPassword, requester.hashedPassword, verify);
            problem.Some? ==> r == HttpError(400, problem.value) && db.users == old(db.users)
    ensures PasswordProblem(currentPassword, newPassword, requester.hashedPassword, verify).None? &&
            !UserExists(old(db.users), requester.id) ==>
              r == HttpError(500, "Failed to update password: 404: User not found") && db.users == old(db.users)
    ensures PasswordProblem(currentPassword, newPassword, requester.hashedPassword, verify).None? &&
            UserExists(old(db.users), requester.id) ==>
              var i := FindUser(old(db.users), requester.id).value;
              r == Ok("Password updated successfully")
              && db.users == old(db.users)[i := old(db.users)[i].(hashedPassword := hash(newPassword))]
  {
    var problem := PasswordProblem(currentPassword, newPassword, requester.hashedPassword, verify);
    if problem.Some? {
      return HttpError(400, problem.value);
    }
    var found := FindUser(db.users, requester.id);
    if found.None? {
      return HttpError(500, "Failed to update password: 404: User not found");
    }
    var i := found.value;
    db.users := db.users[i := db.users[i].(hashedPassword := hash(newPassword))];
    r := Ok("Password updated successfully");
  }

  // ---------------------------------------------------------------- clubs

  /** add_multiple_clubs: the clubs added, or 404. An empty list of clubs
      is a falsy result, so it is answered like an unknown user. */
  method AddClubsEndpoint(db: Db, userId: nat, inputs: seq<ClubInput>) returns (r: Response<string>)
    modifies db`clubs, db`nextClubId
    ensures r.HttpError? <==> !UserExists(db.users, userId) || inputs == []
    ensures r.HttpError? ==> r == HttpError(404, "User not found")
                             && db.clubs == old(db.clubs) && db.nextClubId == old(db.nextClubId)
    ensures r.Ok? ==> r.value == "Successfully added " + IntToString(|inputs|) + " clubs"
                      && db.clubs == old(db.clubs) + NewClubs(old(db.nextClubId), userId, inputs)
  {
    var added := AddMultipleClubs(db, userId, inputs);
    if added.None? || |added.value| == 0 {
      return HttpError(404, "User not found");
    }
    r := Ok("Successfully added " + IntToString(|added.value|) + " clubs");
  }

  /** get_user_clubs: 404 for an unknown user, else the user's clubs (an
      empty list as []). */
  function ClubListing(users: seq<User>, clubs: seq<Club>, userId: nat): (r: Response<seq<Club>>)
    ensures r.HttpError? <==> !UserExists(users, userId)
    ensures r.HttpError? ==> r == HttpError(404, "User not found")
    ensures r.Ok? ==> r.value == GetUserClubs(users, clubs, userId).value
  {
    var found := GetUserClubs(users, clubs, userId);
    if found.None? then HttpError(404, "User not found")
    else if found.value == [] then Ok([])
    else Ok(found.value)
  }

  /** update_club: the updated club, or 404. */
  method UpdateClubEndpoint(db: Db, name: string, userId: nat, data: ClubUpdate) returns (r: Response<Club>)
    modifies db`clubs
    ensures r.HttpError? <==> FindClub(old(db.clubs), name, userId).None?
    ensures r.HttpError? ==> r == HttpError(404, "Club not found or you don't have permission to update it")
                             && db.clubs == old(db.clubs)
    ensures r.Ok? ==> var i := FindClub(old(db.clubs), name, userId).value;
                      db.clubs == old(db.clubs)[i := Updated(old(db.clubs)[i], data)] && r.value == db.clubs[i]
  {
    var updated := UpdateClub(db, name, userId, data);
    if updated.None? {
      return HttpError(404, "Club not found or you don't have permission to update it");
    }
    r := Ok(updated.value);
  }

  /** delete_club: a confirmation naming the club, or 404. */
  method DeleteClubEndpoint(db: Db, name: string, userId: nat) returns (r: Response<string>)
    modifies db`clubs
    ensures r.HttpError? <==> FindClub(old(db.clubs), name, userId).None?
    ensures r.HttpError? ==> r == HttpError(404, "Club not found or you don't have permission to delete it")
                             && db.clubs == old(db.clubs)
    ensures r.Ok? ==> var i := FindClub(old(db.clubs), name, userId).value;
                      r.value == "Successfully deleted club: " + name
                      && db.clubs == old(db.clubs)[..i] + old(db.clubs)[i + 1..]
  {
    var deleted := DeleteClub(db, name, userId);
    if !deleted {
      return HttpError(404, "Club not found or you don't have permission to delete it");
    }
    r := Ok("Successfully deleted club: " + name);
  }
}
