/** The rounds router of the course catalog: a round is started from a
    course and one of its tees, takes its par from the tee and one score
    row per tee hole, and completing it computes the round's score
    differential and the user's new handicap index. History lists only
    completed rounds. */
module CourseRounds {
  import opened Numeric
  import opened Seqs
  import opened Sorting
  import opened GolfDb
  import opened RoundLifecycle
  import opened Handicap

  /** The hole specs a tee's holes give: number and par of each, in order. */
  function TeeHoleSpecs(holes: seq<CourseHole>): (r: seq<HoleSpec>)
    ensures |r| == |holes|
    ensures forall k :: 0 <= k < |r| ==> r[k] == HoleSpec(holes[k].holeNumber, holes[k].par)
  {
    if holes == [] then [] else [HoleSpec(holes[0].holeNumber, holes[0].par)] + TeeHoleSpecs(holes[1..])
  }

  const ActiveRoundDetail := "You already have an active round. Please complete it first."

  /** start_round: refused while the user has an unfinished round, or
      when the course or the tee (among that course's tees) is unknown;
      otherwise the new round is the user's active round, with the
      course's hole count, the tee's par, no shots, and one zero-shot
      score row per tee hole. */
  method StartRound(db: Db, userId: nat, courseId: nat, teeId: nat, now: int) returns (r: Response<Round>)
    requires db.Valid()
    modifies db`rounds, db`holeScores, db`nextRoundId
    ensures db.Valid()
    ensures r.HttpError? ==> db.rounds == old(db.rounds) && db.holeScores == old(db.holeScores)
    ensures HasActiveRound(old(db.rounds), userId) ==> r == HttpError(400, ActiveRoundDetail)
    ensures !HasActiveRound(old(db.rounds), userId) && FindCourse(db.courses, courseId).None? ==>
              r == HttpError(404, "Course not found")
    ensures var ci := FindCourse(db.courses, courseId);
            !HasActiveRound(old(db.rounds), userId) && ci.Some? ==>
              var course := db.courses[ci.value];
              var ti := FindTeeOfCourse(course, teeId);
              if ti.None? then r == HttpError(404, "Tee not found")
              else
                var tee := course.tees[ti.value];
                && r == Ok(FreshRound(old(db.nextRoundId), userId, course.courseName, Some(courseId), Some(teeId),
                                      course.totalHoles, tee.totalPar, now))
                && db.rounds == old(db.rounds) + [r.value]
                && db.holeScores == old(db.holeScores) + NewHoleScores(r.value.id, TeeHoleSpecs(tee.holes))
                && GetActiveRound(db.rounds, userId) == Some(r.value)
  {
    if ActiveRound(db.rounds, userId).Some? {
      return HttpError(400, ActiveRoundDetail);
    }
    var ci := FindCourse(db.courses, courseId);
    if ci.None? {
      return HttpError(404, "Course not found");
    }
    var course := db.courses[ci.value];
    var ti := FindTeeOfCourse(course, teeId);
    if ti.None? {
      return HttpError(404, "Tee not found");
    }
    var tee := course.tees[ti.value];
    var round := CreateRound(db, userId, course.courseName, Some(course.id), Some(tee.id),
                             course.totalHoles, tee.totalPar, TeeHoleSpecs(tee.holes), now);
    ActiveRoundIsUnique(db.rounds, userId, |db.rounds| - 1);
    r := Ok(round);
  }

  /** The two handicap updates complete_round runs: the round's own
      differential, then the user's index computed over the rounds as they
      are once that differential is written. */
  method UpdateHandicaps(db: Db, ri: nat, userId: nat, now: int)
    requires db.Valid() && ri < |db.rounds|
    requires FindUser(db.users, userId).Some?
    modifies db`rounds, db`users
    ensures db.Valid()
    ensures (db.users, db.rounds) == HandicapEffect(old(db.users), WithDifferential(db.courses, old(db.rounds), ri), userId, now)
    ensures ScoredAndKept(old(db.users), old(db.rounds), db.courses, ri, userId, db.users, db.rounds)
  {
    ghost var users0, rows0 := db.users, db.rounds;
    UpdateRoundHandicapData(db, ri);
    UpdateUserHandicap(db, userId, now);
    ScoredEffect(users0, rows0, db.courses, ri, userId, now, db.users, db.rounds);
  }

  /** The tables after scoring round ri for a user keep their sizes, the
      round changes only in its differential, which comes from its tee,
      and in its inclusion flag, and every other user is as before. */
  ghost predicate ScoredAndKept(users0: seq<User>, rounds0: seq<Round>, courses: seq<Course>, ri: nat, userId: nat,
                                users: seq<User>, rounds: seq<Round>)
  {
    && NonZeroSlopes(courses) && ri < |rounds0|
    && |rounds| == |rounds0| && |users| == |users0|
    && rounds[ri] == rounds0[ri].(scoreDifferential := DifferentialFor(courses, rounds0[ri]),
                                  includedInHandicap := rounds[ri].includedInHandicap)
    && forall i :: 0 <= i < |users0| && users0[i].id != userId ==> users[i] == users0[i]
  }

  /** What the handicap updates leave of the users and of the scored round. */
  lemma ScoredEffect(users: seq<User>, rounds: seq<Round>, courses: seq<Course>, ri: nat, userId: nat, now: int,
                     users': seq<User>, rounds': seq<Round>)
    requires NonZeroSlopes(courses) && ri < |rounds| && FindUser(users, userId).Some?
    requires (users', rounds') == HandicapEffect(users, WithDifferential(courses, rounds, ri), userId, now)
    ensures ScoredAndKept(users, rounds, courses, ri, userId, users', rounds')
  {
    var scored := WithDifferential(courses, rounds, ri);
    assert rounds'[ri].(includedInHandicap := scored[ri].includedInHandicap) == scored[ri];
  }

  /** complete_round: refused for a round the user does not own (404) or
      one already completed (400); otherwise the round is completed with
      the notes, gets its differential from its tee, and the user's
      handicap is updated from the rounds as they then are: HandicapEffect
      gives the user and round tables afterwards. */
  method CompleteRound(db: Db, userId: nat, roundId: nat, notes: Option<string>, now: int) returns (r: Response<Round>)
    requires db.Valid()
    requires FindUser(db.users, userId).Some?
    modifies db`rounds, db`users
    ensures db.Valid()
    ensures |db.rounds| == |old(db.rounds)|
    ensures var ri := FindOwnedRound(old(db.rounds), roundId, userId);
            if ri.None? then
              r == HttpError(404, "Round not found") && db.rounds == old(db.rounds) && db.users == old(db.users)
            else if old(db.rounds)[ri.value].isCompleted then
              r == HttpError(400, "Round is already completed") && db.rounds == old(db.rounds) && db.users == old(db.users)
            else
              var done := Completed(old(db.rounds)[ri.value], notes, now);
              var scored := old(db.rounds)[ri.value := done.(scoreDifferential := DifferentialFor(db.courses, done))];
              && (db.users, db.rounds) == HandicapEffect(old(db.users), scored, userId, now)
              && r == Ok(db.rounds[ri.value])
              && r.value == done.(scoreDifferential := DifferentialFor(db.courses, done),
                                  includedInHandicap := r.value.includedInHandicap)
    ensures |db.users| == |old(db.users)|
    ensures forall i :: 0 <= i < |db.users| && old(db.users)[i].id != userId ==> db.users[i] == old(db.users)[i]
  {
    var ri := FindOwnedRound(db.rounds, roundId, userId);
    if ri.None? {
      return HttpError(404, "Round not found");
    }
    var round := db.rounds[ri.value];
    if round.isCompleted {
      return HttpError(400, "Round is already completed");
    }
    ghost var done := Completed(round, notes, now);
    ghost var scored := db.rounds[ri.value := done.(scoreDifferential := DifferentialFor(db.courses, done))];
    CloseRound(db, ri.value, notes, now);
    assert db.rounds[ri.value := db.rounds[ri.value].(scoreDifferential := DifferentialFor(db.courses, db.rounds[ri.value]))]
        == scored;
    UpdateHandicaps(db, ri.value, userId, now);
    assert db.rounds[ri.value].(includedInHandicap := scored[ri.value].includedInHandicap) == scored[ri.value];
    r := Ok(db.rounds[ri.value]);
  }

  /** The rounds this router's history lists: the user's completed ones. */
  function CompletedOf(userId: nat): Round -> bool {
    (x: Round) => x.userId == userId && x.isCompleted
  }

  /** get_round_history: the user's completed rounds, newest start first,
      the page at `offset` of as many as there are up to `limit`. */
  function GetRoundHistory(rounds: seq<Round>, userId: nat, limit: int, offset: int): (r: Response<seq<Round>>)
    ensures r.HttpError? <==> limit < 1 || limit > 50 || offset < 0
    ensures r.Ok? ==> var n := |Filter(rounds, CompletedOf(userId))|;
              |r.value| == if offset >= n then 0 else if limit <= n - offset then limit else n - offset
    ensures r.Ok? ==> r.value == Page(History(rounds, CompletedOf(userId)), offset as nat, limit as nat)
    ensures r.Ok? ==> forall k :: 0 <= k < |r.value| ==>
              r.value[k] in rounds && r.value[k].userId == userId && r.value[k].isCompleted
  {
    HistoryPage(rounds, CompletedOf(userId), limit, offset)
  }
}
