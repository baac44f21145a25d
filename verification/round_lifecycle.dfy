/** The round lifecycle shared by the two rounds routers: opening a round
    with one zero-shot score row per hole, reading the active round and a
    round's details, recording a hole score with the round totals
    recomputed from all of its holes, listing history pages, and deleting
    a round with its hole scores. Every operation only reaches rounds the
    requesting user owns. */
module RoundLifecycle {
  import opened Numeric
  import opened Seqs
  import opened Sorting
  import opened GolfDb

  /** An endpoint's answer: a value, or an HTTPException's status code and
      detail text. */
  datatype Response<T> = Ok(value: T) | HttpError(status: int, detail: string)

  /** The number and par of a hole to create a score row for. */
  datatype HoleSpec = HoleSpec(holeNumber: int, par: int)

  /** The score row a new round starts with: no shots yet, so its score
      relative to par is -par. */
  function NewHoleScore(roundId: nat, h: HoleSpec): HoleScore {
    HoleScore(roundId, h.holeNumber, h.par, 0, -h.par, None, None)
  }

  /** One new score row per hole, in the order given. */
  function NewHoleScores(roundId: nat, holes: seq<HoleSpec>): (r: seq<HoleScore>)
    ensures |r| == |holes|
    ensures forall k :: 0 <= k < |r| ==> r[k] == NewHoleScore(roundId, holes[k])
  {
    if holes == [] then []
    else NewHoleScores(roundId, holes[..|holes| - 1]) + [NewHoleScore(roundId, holes[|holes| - 1])]
  }

  /** `sum(hole.par for hole in ...)` */
  function SumPars(holes: seq<HoleSpec>): int {
    if holes == [] then 0 else SumPars(holes[..|holes| - 1]) + holes[|holes| - 1].par
  }

  /** A round with no score rows yet gets, from its new rows, a shot total
      of 0 and a par total equal to the sum of the holes' pars. */
  lemma {:induction false} TotalsOfNewRound(prev: seq<HoleScore>, rid: nat, holes: seq<HoleSpec>)
    requires forall k :: 0 <= k < |prev| ==> prev[k].roundId != rid
    ensures TotalShots(prev + NewHoleScores(rid, holes), rid) == 0
    ensures TotalPar(prev + NewHoleScores(rid, holes), rid) == SumPars(holes)
  {
    var all := prev + NewHoleScores(rid, holes);
    if holes == [] {
      assert all == [] + prev;
      TotalsIgnoreOtherRounds([], prev, rid);
    } else {
      var n := |holes| - 1;
      assert all[..|all| - 1] == prev + NewHoleScores(rid, holes[..n]);
      assert all[|all| - 1] == NewHoleScore(rid, holes[n]);
      TotalsOfNewRound(prev, rid, holes[..n]);
    }
  }

  /** The round row `Rounds(...)` builds before the flush assigns its id. */
  function FreshRound(id: nat, userId: nat, courseName: string, courseId: Option<nat>, teeId: Option<nat>,
                      totalHoles: int, totalPar: int, now: int): Round {
    Round(id, userId, courseName, courseId, teeId, totalHoles, now, None,
          totalPar, 0, 0, false, None, None, false)
  }

  /** Adds the new round (its id from the autoincrement counter) and then,
      hole by hole, its score rows. */
  method CreateRound(db: Db, userId: nat, courseName: string, courseId: Option<nat>, teeId: Option<nat>,
                     totalHoles: int, totalPar: int, holes: seq<HoleSpec>, now: int)
    returns (r: Round)
    requires db.Valid() && !HasActiveRound(db.rounds, userId)
    modifies db`rounds, db`holeScores, db`nextRoundId
    ensures db.Valid()
    ensures r == FreshRound(old(db.nextRoundId), userId, courseName, courseId, teeId, totalHoles, totalPar, now)
    ensures db.nextRoundId == old(db.nextRoundId) + 1
    ensures db.rounds == old(db.rounds) + [r]
    ensures db.holeScores == old(db.holeScores) + NewHoleScores(r.id, holes)
    ensures TotalShots(db.holeScores, r.id) == 0 && TotalPar(db.holeScores, r.id) == SumPars(holes)
  {
    r := FreshRound(db.nextRoundId, userId, courseName, courseId, teeId, totalHoles, totalPar, now);
    db.rounds := db.rounds + [r];
    db.nextRoundId := db.nextRoundId + 1;
    assert db.Valid();
    ghost var hs0 := db.holeScores;
    var j := 0;
    while j < |holes|
      invariant 0 <= j <= |holes|
      invariant db.Valid()
      invariant db.rounds == old(db.rounds) + [r] && db.nextRoundId == r.id + 1
      invariant db.holeScores == hs0 + NewHoleScores(r.id, holes[..j])
    {
      assert holes[..j + 1][..j] == holes[..j];
      db.holeScores := db.holeScores + [NewHoleScore(r.id, holes[j])];
      j := j + 1;
    }
    assert holes[..j] == holes;
    TotalsOfNewRound(hs0, r.id, holes);
  }

  /** get_active_round: the user's unfinished round, if any. */
  function GetActiveRound(rounds: seq<Round>, userId: nat): (r: Option<Round>)
    ensures r.Some? <==> HasActiveRound(rounds, userId)
    ensures r.Some? ==> r.value in rounds && IsActiveOf(r.value, userId)
  {
    var i := ActiveRound(rounds, userId);
    if i.Some? then Some(rounds[i.value]) else None
  }

  /** With at most one unfinished round per user, the active round is the
      only unfinished round of its user. */
  lemma ActiveRoundIsUnique(rounds: seq<Round>, userId: nat, j: nat)
    requires AtMostOneActive(rounds)
    requires j < |rounds| && IsActiveOf(rounds[j], userId)
    ensures ActiveRound(rounds, userId) == Some(j)
  {
    var i := ActiveRound(rounds, userId).value;
    if i < j {
      assert false;
    }
  }

  /** get_round_details: the round with that id, if the user owns it. */
  function GetRoundDetails(rounds: seq<Round>, userId: nat, roundId: nat): (r: Response<Round>)
    ensures r.HttpError? <==> forall j :: 0 <= j < |rounds| ==> rounds[j].id != roundId || rounds[j].userId != userId
    ensures r.HttpError? ==> r == HttpError(404, "Round not found")
    ensures r.Ok? ==> r.value in rounds && r.value.id == roundId && r.value.userId == userId
  {
    var i := FindOwnedRound(rounds, roundId, userId);
    if i.None? then HttpError(404, "Round not found") else Ok(rounds[i.value])
  }

  /** Sort key for `ORDER BY start_time DESC`. */
  function StartTimeDesc(r: Round): real {
    -(r.startTime as real)
  }

  /** The rounds satisfying `keep`, most recently started first. */
  function History(rounds: seq<Round>, keep: Round -> bool): (s: seq<Round>)
    ensures |s| == |Filter(rounds, keep)| && multiset(s) == multiset(Filter(rounds, keep))
    ensures forall k :: 0 <= k < |s| ==> s[k] in rounds && keep(s[k])
    ensures SortedBy(s, StartTimeDesc)
  {
    var sorted := SortBy(Filter(rounds, keep), StartTimeDesc);
    forall k | 0 <= k < |sorted| ensures sorted[k] in rounds && keep(sorted[k]) {
      assert sorted[k] in multiset(Filter(rounds, keep));
    }
    sorted
  }

  /** A history page: the kept rounds, most recently started first, after
      skipping `offset` of them and taking as many as there are up to
      `limit`; a limit outside 1..50 or a negative offset is refused by
      request validation (422). */
  function HistoryPage(rounds: seq<Round>, keep: Round -> bool, limit: int, offset: int): (r: Response<seq<Round>>)
    ensures r.HttpError? <==> limit < 1 || limit > 50 || offset < 0
    ensures r.HttpError? ==> r.status == 422
    ensures r.Ok? ==> var n := |Filter(rounds, keep)|;
              |r.value| == if offset >= n then 0 else if limit <= n - offset then limit else n - offset
    ensures r.Ok? ==> r.value == Page(History(rounds, keep), offset as nat, limit as nat)
    ensures r.Ok? ==> forall k :: 0 <= k < |r.value| ==> r.value[k] in rounds && keep(r.value[k])
    ensures r.Ok? ==> SortedBy(r.value, StartTimeDesc)
  {
    if limit < 1 || limit > 50 || offset < 0 then HttpError(422, "")
    else
      var all := History(rounds, keep);
      var page := Page(all, offset as nat, limit as nat);
      PageSorted(all, StartTimeDesc, offset as nat, limit as nat);
      Ok(page)
  }

  /** The first page holds the most recently started kept rounds: as many
      as the limit allows, and no kept round left off it started later than
      one on it. */
  lemma FirstPageIsMostRecent(rounds: seq<Round>, keep: Round -> bool, limit: int)
    requires 1 <= limit <= 50
    ensures var page := HistoryPage(rounds, keep, limit, 0).value;
            var all := History(rounds, keep);
            |page| == (if |all| <= limit then |all| else limit) &&
            page == all[..|page|] &&
            forall i, j :: 0 <= i < |page| <= j < |all| ==> all[j].startTime <= page[i].startTime
  {
    var page := HistoryPage(rounds, keep, limit, 0).value;
    var all := History(rounds, keep);
    assert page == all[..|page|];
    forall i, j | 0 <= i < |page| <= j < |all|
      ensures all[j].startTime <= page[i].startTime
    {
      assert StartTimeDesc(all[i]) <= StartTimeDesc(all[j]);
    }
  }

  /** Reading the history page by page misses and repeats nothing: two
      consecutive pages hold exactly the rounds of the page spanning both. */
  lemma ConsecutiveHistoryPages(rounds: seq<Round>, keep: Round -> bool, offset: int, a: int, b: int)
    requires offset >= 0 && 1 <= a && 1 <= b && a + b <= 50
    ensures HistoryPage(rounds, keep, a, offset).value + HistoryPage(rounds, keep, b, offset + a).value
         == HistoryPage(rounds, keep, a + b, offset).value
  {
    PagesAreConsecutive(History(rounds, keep), offset, a, b);
  }

  /** update_hole_score: the owner's unfinished round gets the hole's new
      shots, par and notes, and its totals are recomputed from all of its
      hole scores. */
  method UpdateHoleScore(db: Db, userId: nat, roundId: nat, holeNumber: int,
                         shots: int, par: int, notes: Option<string>, now: int)
    returns (r: Response<HoleScore>)
    requires db.Valid()
    modifies db`rounds, db`holeScores
    ensures db.Valid()
    ensures var ri := FindOwnedRound(old(db.rounds), roundId, userId);
            var hk := FindHole(old(db.holeScores), roundId, holeNumber);
            if ri.None? then
              r == HttpError(404, "Round not found") && db.rounds == old(db.rounds) && db.holeScores == old(db.holeScores)
            else if old(db.rounds)[ri.value].isCompleted then
              r == HttpError(400, "Cannot update completed round") && db.rounds == old(db.rounds) && db.holeScores == old(db.holeScores)
            else if hk.None? then
              r == HttpError(404, "Hole not found") && db.rounds == old(db.rounds) && db.holeScores == old(db.holeScores)
            else
              var h := HoleScore(roundId, holeNumber, par, shots, shots - par, notes, Some(now));
              && r == Ok(h)
              && db.holeScores == old(db.holeScores)[hk.value := h]
              && (var total := TotalShots(db.holeScores, roundId);
                  var totalPar := TotalPar(db.holeScores, roundId);
                  && db.rounds == old(db.rounds)[ri.value := old(db.rounds)[ri.value].(
                       totalShots := total, totalPar := totalPar, scoreRelativeToPar := total - totalPar)]
                  && total == TotalShots(old(db.holeScores), roundId) + shots - old(db.holeScores)[hk.value].shots
                  && totalPar == TotalPar(old(db.holeScores), roundId) + par - old(db.holeScores)[hk.value].par)
    ensures forall rid :: rid != roundId ==>
              TotalShots(db.holeScores, rid) == TotalShots(old(db.holeScores), rid) &&
              TotalPar(db.holeScores, rid) == TotalPar(old(db.holeScores), rid)
  {
    var ri := FindOwnedRound(db.rounds, roundId, userId);
    if ri.None? {
      return HttpError(404, "Round not found");
    }
    var round := db.rounds[ri.value];
    if round.isCompleted {
      return HttpError(400, "Cannot update completed round");
    }
    var hk := FindHole(db.holeScores, roundId, holeNumber);
    if hk.None? {
      return HttpError(404, "Hole not found");
    }
    var h := HoleScore(roundId, holeNumber, par, shots, shots - par, notes, Some(now));
    RecordHoleScore(db, ri.value, hk.value, h);
    r := Ok(h);
  }

  /** The writes of update_hole_score: the hole score row is replaced, and
      the round's totals are recomputed from the round's hole scores. The
      totals move by the change of the one row; no other round's totals
      move. */
  method RecordHoleScore(db: Db, ri: nat, hk: nat, h: HoleScore)
    requires db.Valid() && ri < |db.rounds| && hk < |db.holeScores|
    requires h.roundId == db.holeScores[hk].roundId
    modifies db`rounds, db`holeScores
    ensures db.Valid()
    ensures db.holeScores == old(db.holeScores)[hk := h]
    ensures var total := TotalShots(db.holeScores, h.roundId);
            var totalPar := TotalPar(db.holeScores, h.roundId);
            && db.rounds == old(db.rounds)[ri := old(db.rounds)[ri].(
                 totalShots := total, totalPar := totalPar, scoreRelativeToPar := total - totalPar)]
            && total == TotalShots(old(db.holeScores), h.roundId) + h.shots - old(db.holeScores)[hk].shots
            && totalPar == TotalPar(old(db.holeScores), h.roundId) + h.par - old(db.holeScores)[hk].par
    ensures forall rid :: rid != h.roundId ==>
              TotalShots(db.holeScores, rid) == TotalShots(old(db.holeScores), rid) &&
              TotalPar(db.holeScores, rid) == TotalPar(old(db.holeScores), rid)
  {
    ghost var hs0 := db.holeScores;
    db.holeScores := db.holeScores[hk := h];
    TotalsAfterReplace(hs0, hk, h, h.roundId);
    forall rid | rid != h.roundId
      ensures TotalShots(db.holeScores, rid) == TotalShots(hs0, rid)
      ensures TotalPar(db.holeScores, rid) == TotalPar(hs0, rid)
    {
      TotalsAfterReplace(hs0, hk, h, rid);
    }
    var round := db.rounds[ri];
    var total := TotalShots(db.holeScores, h.roundId);
    var totalPar := TotalPar(db.holeScores, h.roundId);
    db.rounds := db.rounds[ri := round.(totalShots := total, totalPar := totalPar,
                                        scoreRelativeToPar := total - totalPar)];
  }

  /** A round as complete_round marks it: completed now, with the notes
      given. */
  function Completed(round: Round, notes: Option<string>, now: int): Round {
    round.(isCompleted := true, endTime := Some(now), notes := notes)
  }

  /** Marks a round completed; finishing a round never breaks the
      one-active-round rule. */
  method CloseRound(db: Db, ri: nat, notes: Option<string>, now: int)
    requires db.Valid() && ri < |db.rounds|
    modifies db`rounds
    ensures db.Valid()
    ensures db.rounds == old(db.rounds)[ri := Completed(old(db.rounds)[ri], notes, now)]
  {
    db.rounds := db.rounds[ri := Completed(db.rounds[ri], notes, now)];
  }

  /** Removing one row keeps round ids unique, below the bound, and keeps
      at most one unfinished round per user. */
  lemma RemoveKeepsInvariants(rows: seq<Round>, i: nat, bound: nat)
    requires i < |rows|
    requires UniqueRoundIds(rows) && AtMostOneActive(rows)
    requires forall k :: 0 <= k < |rows| ==> rows[k].id < bound
    ensures var rest := rows[..i] + rows[i + 1..];
            UniqueRoundIds(rest) && AtMostOneActive(rest) && forall k :: 0 <= k < |rest| ==> rest[k].id < bound
  {
    var rest := rows[..i] + rows[i + 1..];
    assert forall k :: 0 <= k < |rest| ==> rest[k] == rows[if k < i then k else k + 1];
  }

  /** delete_round: the owner's round goes, and with it exactly the hole
      scores that refer to it. */
  method DeleteRound(db: Db, userId: nat, roundId: nat) returns (r: Response<string>)
    requires db.Valid()
    modifies db`rounds, db`holeScores
    ensures db.Valid()
    ensures var ri := FindOwnedRound(old(db.rounds), roundId, userId);
            if ri.None? then
              r == HttpError(404, "Round not found") && db.rounds == old(db.rounds) && db.holeScores == old(db.holeScores)
            else
              && r == Ok("Round deleted successfully")
              && db.rounds == old(db.rounds)[..ri.value] + old(db.rounds)[ri.value + 1..]
              && db.holeScores == HolesNotOf(old(db.holeScores), roundId)
              && (forall k :: 0 <= k < |db.holeScores| ==> db.holeScores[k] in old(db.holeScores) && db.holeScores[k].roundId != roundId)
              && (forall k :: 0 <= k < |old(db.holeScores)| && old(db.holeScores)[k].roundId != roundId ==>
                    old(db.holeScores)[k] in db.holeScores)
  {
    var ri := FindOwnedRound(db.rounds, roundId, userId);
    if ri.None? {
      return HttpError(404, "Round not found");
    }
    RemoveKeepsInvariants(db.rounds, ri.value, db.nextRoundId);
    db.holeScores := HolesNotOf(db.holeScores, roundId);
    db.rounds := db.rounds[..ri.value] + db.rounds[ri.value + 1..];
    r := Ok("Round deleted successfully");
  }

  /** Deleting a round keeps every other round's hole scores with their
      multiplicities, and leaves none of its own. */
  lemma DeleteKeepsOtherHoleScores(holes: seq<HoleScore>, roundId: nat, h: HoleScore)
    ensures var kept := HolesNotOf(holes, roundId);
            multiset(kept)[h] == if h.roundId == roundId then 0 else multiset(holes)[h]
  {
    FilterMultiset(holes, (x: HoleScore) => x.roundId != roundId, h);
  }
}
