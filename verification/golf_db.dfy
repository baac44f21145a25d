/** The backend's database as an in-memory store: the tables the round,
    handicap and user endpoints read and write (users, clubs, golf courses
    with their tees and holes, rounds and hole scores), and the queries
    they run against them. Each table is a sequence of rows in insertion
    order; an autoincrement counter hands out new ids. */
module GolfDb {
  import opened Numeric
  import opened Seqs

  /** CourseHoles row. */
  datatype CourseHole = CourseHole(holeNumber: int, distanceYards: Option<int>, par: int, handicap: Option<int>)

  /** CourseTees row with its holes (the `holes` relationship). */
  datatype Tee = Tee(
    id: nat, teeName: string,
    mensRating: real, mensSlope: real,
    womensRating: Option<real>, womensSlope: Option<real>,
    totalDistance: Option<int>, totalPar: int,
    holes: seq<CourseHole>)

  /** GolfCourses row with its tees (the `tees` relationship). */
  datatype Course = Course(id: nat, courseName: string, location: string, totalHoles: int, tees: seq<Tee>)

  /** Users row. The profile columns are optional because the profile
      endpoints may write None into them. */
  datatype User = User(
    id: nat,
    firstName: Option<string>, lastName: Option<string>, email: Option<string>,
    isAdmin: Option<bool>,
    hashedPassword: string,
    handicapIndex: Option<real>, lastHandicapUpdate: Option<int>)

  /** Clubs row. */
  datatype Club = Club(id: nat, club: Option<string>, distanceMeter: Option<real>, preferredClub: Option<bool>, userId: nat)

  /** Rounds row. */
  datatype Round = Round(
    id: nat, userId: nat, courseName: string,
    courseId: Option<nat>, teeId: Option<nat>,
    totalHoles: int, startTime: int, endTime: Option<int>,
    totalPar: int, totalShots: int, scoreRelativeToPar: int,
    isCompleted: bool, notes: Option<string>,
    scoreDifferential: Option<real>, includedInHandicap: bool)

  /** HoleScores row. */
  datatype HoleScore = HoleScore(
    roundId: nat, holeNumber: int, par: int, shots: int,
    scoreRelativeToPar: int, notes: Option<string>, completedAt: Option<int>)

  class Db {
    var users: seq<User>
    var clubs: seq<Club>
    var nextClubId: nat
    var courses: seq<Course>
    var rounds: seq<Round>
    var holeScores: seq<HoleScore>
    var nextRoundId: nat

    /** Round ids are unique and below the counter (as are the round ids
        hole scores refer to), no user has two unfinished rounds, and every
        tee has a non-zero slope rating. */
    ghost predicate Valid()
      reads this`rounds, this`holeScores, this`nextRoundId, this`courses
    {
      && UniqueRoundIds(rounds)
      && (forall i :: 0 <= i < |rounds| ==> rounds[i].id < nextRoundId)
      && (forall k :: 0 <= k < |holeScores| ==> holeScores[k].roundId < nextRoundId)
      && AtMostOneActive(rounds)
      && NonZeroSlopes(courses)
    }

    constructor (courses: seq<Course>)
      requires NonZeroSlopes(courses)
      ensures Valid()
      ensures this.courses == courses
      ensures users == [] && clubs == [] && rounds == [] && holeScores == []
    {
      this.courses := courses;
      users, clubs, rounds, holeScores := [], [], [], [];
      nextClubId, nextRoundId := 0, 0;
    }
  }

  ghost predicate UniqueRoundIds(rounds: seq<Round>) {
    forall i, j :: 0 <= i < j < |rounds| ==> rounds[i].id != rounds[j].id
  }

  /** At most one non-completed round per user. */
  ghost predicate AtMostOneActive(rounds: seq<Round>) {
    forall i, j :: 0 <= i < j < |rounds| && rounds[i].userId == rounds[j].userId ==>
      rounds[i].isCompleted || rounds[j].isCompleted
  }

  ghost predicate NonZeroSlopes(courses: seq<Course>) {
    forall i, t :: 0 <= i < |courses| && t in courses[i].tees ==> t.mensSlope != 0.0
  }

  predicate HasActiveRound(rounds: seq<Round>, userId: nat) {
    exists i :: 0 <= i < |rounds| && IsActiveOf(rounds[i], userId)
  }

  predicate IsActiveOf(r: Round, userId: nat) {
    r.userId == userId && !r.isCompleted
  }

  /** `Rounds.user_id == user AND NOT is_completed` ... `.first()` */
  function ActiveRound(rounds: seq<Round>, userId: nat): (r: Option<nat>)
    ensures r.Some? <==> HasActiveRound(rounds, userId)
    ensures r.Some? ==> r.value < |rounds| && IsActiveOf(rounds[r.value], userId)
  {
    FirstIndex(rounds, (x: Round) => IsActiveOf(x, userId))
  }

  /** `Rounds.id == round_id AND Rounds.user_id == user` ... `.first()` */
  function FindOwnedRound(rounds: seq<Round>, roundId: nat, userId: nat): (r: Option<nat>)
    ensures r.Some? ==> r.value < |rounds| && rounds[r.value].id == roundId && rounds[r.value].userId == userId
    ensures r.None? <==> forall j :: 0 <= j < |rounds| ==> rounds[j].id != roundId || rounds[j].userId != userId
  {
    FirstIndex(rounds, (x: Round) => x.id == roundId && x.userId == userId)
  }

  function FindRoundById(rounds: seq<Round>, roundId: nat): (r: Option<nat>)
    ensures r.Some? ==> r.value < |rounds| && rounds[r.value].id == roundId
    ensures r.None? <==> forall j :: 0 <= j < |rounds| ==> rounds[j].id != roundId
  {
    FirstIndex(rounds, (x: Round) => x.id == roundId)
  }

  /** `HoleScores.round_id == round_id AND hole_number == n` ... `.first()` */
  function FindHole(holes: seq<HoleScore>, roundId: nat, holeNumber: int): (r: Option<nat>)
    ensures r.Some? ==> r.value < |holes| && holes[r.value].roundId == roundId && holes[r.value].holeNumber == holeNumber
    ensures r.None? <==> forall j :: 0 <= j < |holes| ==> holes[j].roundId != roundId || holes[j].holeNumber != holeNumber
  {
    FirstIndex(holes, (h: HoleScore) => h.roundId == roundId && h.holeNumber == holeNumber)
  }

  function FindUser(users: seq<User>, userId: nat): (r: Option<nat>)
    ensures r.Some? ==> r.value < |users| && users[r.value].id == userId
    ensures r.None? <==> forall j :: 0 <= j < |users| ==> users[j].id != userId
  {
    FirstIndex(users, (u: User) => u.id == userId)
  }

  function FindCourse(courses: seq<Course>, courseId: nat): (r: Option<nat>)
    ensures r.Some? ==> r.value < |courses| && courses[r.value].id == courseId
    ensures r.None? <==> forall j :: 0 <= j < |courses| ==> courses[j].id != courseId
  {
    FirstIndex(courses, (c: Course) => c.id == courseId)
  }

  /** `CourseTees.id == tee_id AND CourseTees.course_id == course_id`: the
      tee of that id among the course's own tees. */
  function FindTeeOfCourse(course: Course, teeId: nat): (r: Option<nat>)
    ensures r.Some? ==> r.value < |course.tees| && course.tees[r.value].id == teeId
    ensures r.None? <==> forall j :: 0 <= j < |course.tees| ==> course.tees[j].id != teeId
  {
    FirstIndex(course.tees, (t: Tee) => t.id == teeId)
  }

  /** The `round.tee` relationship: the first tee with that id in the catalog. */
  function FindTee(courses: seq<Course>, teeId: nat): (r: Option<Tee>)
    ensures r.Some? ==> r.value.id == teeId
    ensures r.Some? ==> exists i :: 0 <= i < |courses| && r.value in courses[i].tees
    ensures r.None? ==> forall i, t :: 0 <= i < |courses| && t in courses[i].tees ==> t.id != teeId
  {
    if courses == [] then None
    else
      var k := FindTeeOfCourse(courses[0], teeId);
      if k.Some? then Some(courses[0].tees[k.value])
      else
        var r := FindTee(courses[1..], teeId);
        if r.Some? then
          var i :| 0 <= i < |courses[1..]| && r.value in courses[1..][i].tees;
          assert r.value in courses[i + 1].tees;
          r
        else
          assert forall i :: 1 <= i < |courses| ==> courses[i] == courses[1..][i - 1];
          None
  }

  /** All hole scores of a round, in table order. */
  function HolesOf(holes: seq<HoleScore>, roundId: nat): seq<HoleScore> {
    Filter(holes, (h: HoleScore) => h.roundId == roundId)
  }

  /** Every hole score except those of a round, in table order. */
  function HolesNotOf(holes: seq<HoleScore>, roundId: nat): seq<HoleScore> {
    Filter(holes, (h: HoleScore) => h.roundId != roundId)
  }

  /** `sum(hs.shots for hs in all_hole_scores)` */
  function TotalShots(holes: seq<HoleScore>, roundId: nat): int {
    if holes == [] then 0
    else TotalShots(holes[..|holes| - 1], roundId)
         + (if holes[|holes| - 1].roundId == roundId then holes[|holes| - 1].shots else 0)
  }

  /** `sum(hs.par for hs in all_hole_scores)` */
  function TotalPar(holes: seq<HoleScore>, roundId: nat): int {
    if holes == [] then 0
    else TotalPar(holes[..|holes| - 1], roundId)
         + (if holes[|holes| - 1].roundId == roundId then holes[|holes| - 1].par else 0)
  }

  /** Replacing one hole score of a round changes that round's totals by
      the difference of shots and of par, and leaves every other round's
      totals alone. */
  lemma {:induction false} TotalsAfterReplace(holes: seq<HoleScore>, k: nat, h: HoleScore, rid: nat)
    requires k < |holes| && h.roundId == holes[k].roundId
    ensures TotalShots(holes[k := h], rid)
         == TotalShots(holes, rid) + (if h.roundId == rid then h.shots - holes[k].shots else 0)
    ensures TotalPar(holes[k := h], rid)
         == TotalPar(holes, rid) + (if h.roundId == rid then h.par - holes[k].par else 0)
  {
    var n := |holes| - 1;
    var holes' := holes[k := h];
    if k < n {
      assert holes'[..n] == holes[..n][k := h];
      TotalsAfterReplace(holes[..n], k, h, rid);
    } else {
      assert holes'[..n] == holes[..n];
    }
  }

  /** Appending rows of another round leaves a round's totals unchanged. */
  lemma {:induction false} TotalsIgnoreOtherRounds(holes: seq<HoleScore>, extra: seq<HoleScore>, rid: nat)
    requires forall k :: 0 <= k < |extra| ==> extra[k].roundId != rid
    ensures TotalShots(holes + extra, rid) == TotalShots(holes, rid)
    ensures TotalPar(holes + extra, rid) == TotalPar(holes, rid)
  {
    if extra == [] {
      assert holes + extra == holes;
    } else {
      var n := |extra| - 1;
      var all := holes + extra;
      assert all[..|all| - 1] == holes + extra[..n];
      assert all[|all| - 1] == extra[n];
      TotalsIgnoreOtherRounds(holes, extra[..n], rid);
    }
  }
}
