/** The user and club tables behind the user endpoints: listing and
    deleting users, and adding, listing, updating and deleting the clubs a
    user carries. A club is addressed by its name within one user's bag. */
module UserDb {
  import opened Numeric
  import opened Seqs
  import opened GolfDb

  /** ClubSchema: a club as a client submits it. */
  datatype ClubInput = ClubInput(club: string, distanceMeter: real, preferredClub: bool)

  /** UpdateClubSchema: every field optional; an omitted field is None. */
  datatype ClubUpdate = ClubUpdate(club: Option<string>, distanceMeter: Option<real>, preferredClub: Option<bool>)

  predicate UserExists(users: seq<User>, userId: nat) {
    FindUser(users, userId).Some?
  }

  /** get_user_db: every user, or None when the table is empty (the
      endpoint answers 404 "No users found"). */
  function AllUsers(users: seq<User>): (r: Option<seq<User>>)
    ensures r.None? <==> |users| == 0
    ensures r.Some? ==> r.value == users
  {
    if |users| == 0 then None else Some(users)
  }

  /** The clubs of one user, in table order. */
  function ClubsOf(clubs: seq<Club>, userId: nat): (r: seq<Club>)
    ensures forall k :: 0 <= k < |r| ==> r[k] in clubs && r[k].userId == userId
    ensures forall c :: c in clubs && c.userId == userId ==> c in r
    ensures forall c :: multiset(r)[c] == if c.userId == userId then multiset(clubs)[c] else 0
  {
    var p := (c: Club) => c.userId == userId;
    assert forall c :: multiset(Filter(clubs, p))[c] == if c.userId == userId then multiset(clubs)[c] else 0 by {
      forall c ensures multiset(Filter(clubs, p))[c] == if p(c) then multiset(clubs)[c] else 0 {
        FilterMultiset(clubs, p, c);
      }
    }
    Filter(clubs, p)
  }

  /** The users table without the rows of that id. */
  function UsersWithout(users: seq<User>, userId: nat): (r: seq<User>)
    ensures forall k :: 0 <= k < |r| ==> r[k] in users && r[k].id != userId
    ensures forall u :: u in users && u.id != userId ==> u in r
  {
    Filter(users, (u: User) => u.id != userId)
  }

  /** The clubs table without the clubs of that user. */
  function ClubsWithout(clubs: seq<Club>, userId: nat): (r: seq<Club>)
    ensures forall k :: 0 <= k < |r| ==> r[k] in clubs && r[k].userId != userId
    ensures forall c :: c in clubs && c.userId != userId ==> c in r
  {
    Filter(clubs, (c: Club) => c.userId != userId)
  }

  /** delete_user_db: False for an unknown id; otherwise the user row is
      deleted and, by the cascading foreign key, the user's clubs with it. */
  method DeleteUser(db: Db, userId: nat) returns (deleted: bool)
    modifies db`users, db`clubs
    ensures deleted <==> UserExists(old(db.users), userId)
    ensures !deleted ==> db.users == old(db.users) && db.clubs == old(db.clubs)
    ensures deleted ==> db.users == UsersWithout(old(db.users), userId)
    ensures deleted ==> db.clubs == ClubsWithout(old(db.clubs), userId)
  {
    if FindUser(db.users, userId).None? {
      return false;
    }
    db.users := UsersWithout(db.users, userId);
    db.clubs := ClubsWithout(db.clubs, userId);
    deleted := true;
  }

  /** The rows add_multiple_clubs_db creates: one per input, in order,
      each owned by the user, with consecutive fresh ids. */
  function NewClubs(firstId: nat, userId: nat, inputs: seq<ClubInput>): (r: seq<Club>)
    ensures |r| == |inputs|
    ensures forall k :: 0 <= k < |r| ==>
              && r[k].id == firstId + k && r[k].userId == userId
              && r[k].club == Some(inputs[k].club)
              && r[k].distanceMeter == Some(inputs[k].distanceMeter)
              && r[k].preferredClub == Some(inputs[k].preferredClub)
  {
    if inputs == [] then []
    else
      var n := |inputs| - 1;
      NewClubs(firstId, userId, inputs[..n])
        + [Club(firstId + n, Some(inputs[n].club), Some(inputs[n].distanceMeter), Some(inputs[n].preferredClub), userId)]
  }

  /** The loop of add_multiple_clubs_db: one club per input, numbered on
      from firstId. */
  method BuildClubs(firstId: nat, userId: nat, inputs: seq<ClubInput>) returns (newClubs: seq<Club>)
    ensures newClubs == NewClubs(firstId, userId, inputs)
  {
    newClubs := [];
    var i := 0;
    while i < |inputs|
      invariant 0 <= i <= |inputs|
      invariant newClubs == NewClubs(firstId, userId, inputs[..i])
    {
      var input := inputs[i];
      assert inputs[..i + 1][..i] == inputs[..i] && inputs[..i + 1][i] == input;
      newClubs := newClubs + [Club(firstId + i, Some(input.club), Some(input.distanceMeter), Some(input.preferredClub), userId)];
      i := i + 1;
    }
    assert inputs[..i] == inputs;
  }

  /** add_multiple_clubs_db: False (here None) for an unknown user;
      otherwise one club per input is built in a loop and all are added. */
  method AddMultipleClubs(db: Db, userId: nat, inputs: seq<ClubInput>) returns (r: Option<seq<Club>>)
    modifies db`clubs, db`nextClubId
    ensures r.None? <==> !UserExists(db.users, userId)
    ensures r.None? ==> db.clubs == old(db.clubs) && db.nextClubId == old(db.nextClubId)
    ensures r.Some? ==> r.value == NewClubs(old(db.nextClubId), userId, inputs)
    ensures r.Some? ==> db.clubs == old(db.clubs) + r.value && db.nextClubId == old(db.nextClubId) + |inputs|
  {
    if FindUser(db.users, userId).None? {
      return None;
    }
    var newClubs := BuildClubs(db.nextClubId, userId, inputs);
    db.clubs := db.clubs + newClubs;
    db.nextClubId := db.nextClubId + |inputs|;
    r := Some(newClubs);
  }

  /** After an addition the user's club list is the old list followed by
      the new clubs in input order; other users' lists are unchanged. */
  lemma {:induction false} AddedClubsListed(clubs: seq<Club>, firstId: nat, userId: nat, inputs: seq<ClubInput>, other: nat)
    ensures ClubsOf(clubs + NewClubs(firstId, userId, inputs), userId) == ClubsOf(clubs, userId) + NewClubs(firstId, userId, inputs)
    ensures other != userId ==> ClubsOf(clubs + NewClubs(firstId, userId, inputs), other) == ClubsOf(clubs, other)
  {
    var added := NewClubs(firstId, userId, inputs);
    FilterAppend(clubs, added, (c: Club) => c.userId == userId);
    FilterAll(added, (c: Club) => c.userId == userId);
    FilterAppend(clubs, added, (c: Club) => c.userId == other);
    if other != userId {
      NoneKept(added, (c: Club) => c.userId == other);
    }
  }

  /** get_user_clubs_db: None for an unknown user, else that user's clubs. */
  function GetUserClubs(users: seq<User>, clubs: seq<Club>, userId: nat): (r: Option<seq<Club>>)
    ensures r.None? <==> !UserExists(users, userId)
    ensures r.Some? ==> forall k :: 0 <= k < |r.value| ==> r.value[k] in clubs && r.value[k].userId == userId
    ensures r.Some? ==> forall c :: c in clubs && c.userId == userId ==> c in r.value
    ensures r.Some? ==> r.value == ClubsOf(clubs, userId)
  {
    if FindUser(users, userId).None? then None else Some(ClubsOf(clubs, userId))
  }

  /** The first club of that name owned by that user. A row whose name is
      NULL matches no name. */
  function FindClub(clubs: seq<Club>, name: string, userId: nat): (r: Option<nat>)
    ensures r.Some? ==> r.value < |clubs| && clubs[r.value].club == Some(name) && clubs[r.value].userId == userId
    ensures r.None? <==> forall j :: 0 <= j < |clubs| ==> clubs[j].club != Some(name) || clubs[j].userId != userId
  {
    FirstIndex(clubs, (c: Club) => c.club == Some(name) && c.userId == userId)
  }

  /** The club after update_club_db: every schema field overwritten, an
      omitted one with None; id and owner kept. */
  function Updated(c: Club, data: ClubUpdate): (r: Club)
    ensures r.id == c.id && r.userId == c.userId
    ensures r.club == data.club && r.distanceMeter == data.distanceMeter && r.preferredClub == data.preferredClub
  {
    c.(club := data.club, distanceMeter := data.distanceMeter, preferredClub := data.preferredClub)
  }

  /** update_club_db: None when the user has no club of that name;
      otherwise that club is overwritten and returned. */
  method UpdateClub(db: Db, name: string, userId: nat, data: ClubUpdate) returns (r: Option<Club>)
    modifies db`clubs
    ensures r.None? <==> FindClub(old(db.clubs), name, userId).None?
    ensures r.None? ==> db.clubs == old(db.clubs)
    ensures r.Some? ==> var i := FindClub(old(db.clubs), name, userId).value;
                        db.clubs == old(db.clubs)[i := Updated(old(db.clubs)[i], data)] && r.value == db.clubs[i]
  {
    var found := FindClub(db.clubs, name, userId);
    if found.None? {
      return None;
    }
    var i := found.value;
    db.clubs := db.clubs[i := Updated(db.clubs[i], data)];
    r := Some(db.clubs[i]);
  }

  /** delete_club_db: None when the user has no club of that name;
      otherwise the first such club is deleted. */
  method DeleteClub(db: Db, name: string, userId: nat) returns (deleted: bool)
    modifies db`clubs
    ensures deleted <==> FindClub(old(db.clubs), name, userId).Some?
    ensures !deleted ==> db.clubs == old(db.clubs)
    ensures deleted ==> var i := FindClub(old(db.clubs), name, userId).value;
                        db.clubs == old(db.clubs)[..i] + old(db.clubs)[i + 1..]
  {
    var found := FindClub(db.clubs, name, userId);
    if found.None? {
      return false;
    }
    var i := found.value;
    db.clubs := db.clubs[..i] + db.clubs[i + 1..];
    deleted := true;
  }

  /** Deleting a club leaves every other user's club list as it was, and
      the owner's list loses exactly one club. */
  lemma DeleteClubScope(clubs: seq<Club>, name: string, userId: nat, other: nat)
    requires FindClub(clubs, name, userId).Some?
    ensures var i := FindClub(clubs, name, userId).value;
            var rest := clubs[..i] + clubs[i + 1..];
            && (other != userId ==> ClubsOf(rest, other) == ClubsOf(clubs, other))
            && |ClubsOf(rest, userId)| + 1 == |ClubsOf(clubs, userId)|
  {
    var i := FindClub(clubs, name, userId).value;
    assert clubs == clubs[..i] + [clubs[i]] + clubs[i + 1..];
    FilterRemove(clubs[..i], clubs[i], clubs[i + 1..], (c: Club) => c.userId == other);
    FilterRemove(clubs[..i], clubs[i], clubs[i + 1..], (c: Club) => c.userId == userId);
  }
}
