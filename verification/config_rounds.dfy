/** The rounds router that takes the course layout from the request: the
    client sends a course name, a hole count and a per-hole configuration
    of numbers and pars. Starting checks that the configuration has one
    entry per hole and that its hole numbers are exactly 1..n, and the par
    total is the sum of the configured pars. Completing a round only marks
    it; history lists every round of the user. */
module ConfigRounds {
  import opened Numeric
  import opened Text
  import opened Seqs
  import opened Sorting
  import opened GolfDb
  import opened RoundLifecycle

  /** `list(range(1, n + 1))` */
  function OneTo(n: int): (r: seq<int>)
    ensures |r| == if n < 0 then 0 else n
    ensures forall k :: 0 <= k < |r| ==> r[k] == k + 1
  {
    if n <= 0 then [] else OneTo(n - 1) + [n]
  }

  function HoleNumbers(cfg: seq<HoleSpec>): (r: seq<int>)
    ensures |r| == |cfg|
    ensures forall k :: 0 <= k < |r| ==> r[k] == cfg[k].holeNumber
  {
    if cfg == [] then [] else [cfg[0].holeNumber] + HoleNumbers(cfg[1..])
  }

  lemma IntKeyInjective()
    ensures Injective(IntKey)
  {
  }

  /** `sorted(hole_numbers) != expected_holes` rejects exactly the hole
      numbers that are not a permutation of 1..n. */
  lemma SequentialCheckIsPermutation(nums: seq<int>, n: int)
    ensures SortBy(nums, IntKey) == OneTo(n) <==> multiset(nums) == multiset(OneTo(n))
  {
    var sorted := SortBy(nums, IntKey);
    if multiset(nums) == multiset(OneTo(n)) {
      IntKeyInjective();
      assert SortedBy(OneTo(n), IntKey);
      SortedPermutationUnique(sorted, OneTo(n), IntKey);
    }
  }

  /** In a permutation of 1..n every hole number from 1 to n occurs
      exactly once, and no other number occurs. */
  lemma PermutationCoversEachHoleOnce(nums: seq<int>, n: int, h: int)
    requires multiset(nums) == multiset(OneTo(n))
    ensures multiset(nums)[h] == if 1 <= h <= n then 1 else 0
  {
    OneToCount(n, h);
  }

  lemma {:induction false} OneToCount(n: int, h: int)
    ensures multiset(OneTo(n))[h] == if 1 <= h <= n then 1 else 0
  {
    if n > 0 {
      var prev := OneTo(n - 1);
      OneToCount(n - 1, h);
      assert OneTo(n) == prev + [n];
      CountSnoc(prev, n, h);
    }
  }

  lemma CountSnoc(s: seq<int>, x: int, h: int)
    ensures multiset(s + [x])[h] == multiset(s)[h] + if x == h then 1 else 0
  {
  }

  const ActiveRoundDetail := "You already have an active round. Please complete it first."
  const SequentialDetail := "Hole numbers must be sequential from 1 to total_holes"

  function CountMismatchDetail(configured: nat, totalHoles: int): string {
    "Number of holes in config (" + NatToString(configured) + ") doesn't match total_holes ("
      + IntToString(totalHoles) + ")"
  }

  /** The round a valid configuration is accepted with. */
  predicate ValidConfig(cfg: seq<HoleSpec>, totalHoles: int) {
    |cfg| == totalHoles && multiset(HoleNumbers(cfg)) == multiset(OneTo(totalHoles))
  }

  /** The two holes_config checks of start_round, in order: the detail of
      the 400 they raise, or None when the configuration is accepted. */
  function ConfigError(cfg: seq<HoleSpec>, totalHoles: int): (r: Option<string>)
    ensures r.None? <==> ValidConfig(cfg, totalHoles)
    ensures |cfg| != totalHoles ==> r == Some(CountMismatchDetail(|cfg|, totalHoles))
    ensures |cfg| == totalHoles && r.Some? ==> r == Some(SequentialDetail)
  {
    if |cfg| != totalHoles then Some(CountMismatchDetail(|cfg|, totalHoles))
    else
      SequentialCheckIsPermutation(HoleNumbers(cfg), totalHoles);
      if SortBy(HoleNumbers(cfg), IntKey) != OneTo(totalHoles) then Some(SequentialDetail)
      else None
  }

  /** start_round: refused while the user has an unfinished round, when the
      configuration's length differs from the hole count, or when its hole
      numbers are not 1..n in some order; otherwise the new round has the
      configured pars' sum as its par, no shots, and one zero-shot score
      row per configured hole, so its shot and par totals agree with its
      hole scores (its relative score starts at 0, not at the -par the
      hole rows start with). */
  method StartRound(db: Db, userId: nat, courseName: string, totalHoles: int, cfg: seq<HoleSpec>, now: int)
    returns (r: Response<Round>)
    requires db.Valid()
    modifies db`rounds, db`holeScores, db`nextRoundId
    ensures db.Valid()
    ensures r.HttpError? ==> db.rounds == old(db.rounds) && db.holeScores == old(db.holeScores)
    ensures HasActiveRound(old(db.rounds), userId) ==> r == HttpError(400, ActiveRoundDetail)
    ensures !HasActiveRound(old(db.rounds), userId) && ConfigError(cfg, totalHoles).Some? ==>
              r == HttpError(400, ConfigError(cfg, totalHoles).value)
    ensures r.Ok? <==> !HasActiveRound(old(db.rounds), userId) && ValidConfig(cfg, totalHoles)
    ensures r.Ok? ==>
              && r.value == FreshRound(old(db.nextRoundId), userId, courseName, None, None, totalHoles, SumPars(cfg), now)
              && db.rounds == old(db.rounds) + [r.value]
              && db.holeScores == old(db.holeScores) + NewHoleScores(r.value.id, cfg)
              && r.value.totalPar == TotalPar(db.holeScores, r.value.id)
              && r.value.totalShots == TotalShots(db.holeScores, r.value.id) == 0
              && r.value.scoreRelativeToPar == 0
  {
    if ActiveRound(db.rounds, userId).Some? {
      return HttpError(400, ActiveRoundDetail);
    }
    var error := ConfigError(cfg, totalHoles);
    if error.Some? {
      return HttpError(400, error.value);
    }
    var totalPar := SumPars(cfg);
    var round := CreateRound(db, userId, courseName, None, None, totalHoles, totalPar, cfg, now);
    r := Ok(round);
  }

  /** complete_round: refused for a round the user does not own (404) or
      one already completed (400); otherwise the round is marked completed
      with the notes, and nothing else changes. */
  method CompleteRound(db: Db, userId: nat, roundId: nat, notes: Option<string>, now: int) returns (r: Response<Round>)
    requires db.Valid()
    modifies db`rounds
    ensures db.Valid()
    ensures var ri := FindOwnedRound(old(db.rounds), roundId, userId);
            if ri.None? then
              r == HttpError(404, "Round not found") && db.rounds == old(db.rounds)
            else if old(db.rounds)[ri.value].isCompleted then
              r == HttpError(400, "Round is already completed") && db.rounds == old(db.rounds)
            else
              && r == Ok(Completed(old(db.rounds)[ri.value], notes, now))
              && db.rounds == old(db.rounds)[ri.value := r.value]
  {
    var ri := FindOwnedRound(db.rounds, roundId, userId);
    if ri.None? {
      return HttpError(404, "Round not found");
    }
    if db.rounds[ri.value].isCompleted {
      return HttpError(400, "Round is already completed");
    }
    CloseRound(db, ri.value, notes, now);
    r := Ok(db.rounds[ri.value]);
  }

  /** A round can be completed once: completing it again is refused and
      changes nothing. */
  lemma CompleteOnce(rounds: seq<Round>, roundId: nat, userId: nat, notes: Option<string>, now: int)
    requires UniqueRoundIds(rounds)
    requires FindOwnedRound(rounds, roundId, userId).Some?
    ensures var ri := FindOwnedRound(rounds, roundId, userId).value;
            var after := rounds[ri := Completed(rounds[ri], notes, now)];
            FindOwnedRound(after, roundId, userId) == Some(ri) && after[ri].isCompleted
  {
    var ri := FindOwnedRound(rounds, roundId, userId).value;
    var after := rounds[ri := Completed(rounds[ri], notes, now)];
    assert after[ri].id == roundId && after[ri].userId == userId;
    var rj := FindOwnedRound(after, roundId, userId).value;
    assert after[rj].id == roundId;
  }

  /** The rounds this router's history lists: every round of the user. */
  function OwnedBy(userId: nat): Round -> bool {
    (x: Round) => x.userId == userId
  }

  /** get_round_history: every round of the user, finished or not, newest
      start first, the page at `offset` of as many as there are up to
      `limit`. */
  function GetRoundHistory(rounds: seq<Round>, userId: nat, limit: int, offset: int): (r: Response<seq<Round>>)
    ensures r.HttpError? <==> limit < 1 || limit > 50 || offset < 0
    ensures r.Ok? ==> var n := |Filter(rounds, OwnedBy(userId))|;
              |r.value| == if offset >= n then 0 else if limit <= n - offset then limit else n - offset
    ensures r.Ok? ==> r.value == Page(History(rounds, OwnedBy(userId)), offset as nat, limit as nat)
    ensures r.Ok? ==> forall k :: 0 <= k < |r.value| ==> r.value[k] in rounds && r.value[k].userId == userId
  {
    HistoryPage(rounds, OwnedBy(userId), limit, offset)
  }
}
