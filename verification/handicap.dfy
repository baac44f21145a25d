/** The handicap engine: score differentials, the handicap index from the
    best differentials of the last 20 rounds, the soft and hard caps on
    increases, and the two updates the round-completion endpoint runs
    against the database. A variant of the World Handicap System's Rules
    of Handicapping as the code has it: 3 to 6 rounds use one
    differential, the average is multiplied by 0.96, and the caps are
    measured from the index held at the moment of the update. */
module Handicap {
  import opened Numeric
  import opened Sorting
  import opened Seqs
  import opened GolfDb

  /** The index every new golfer starts with. */
  const NewGolferIndex: real := 54.0

  /** Score and course rating as used in the differential formula. A
      9-hole round counts double; its rating is first halved when it looks
      like an 18-hole rating (more than 1.5 times par), then doubled. */
  function EighteenHoleBasis(score: int, rating: real, totalHoles: int, totalPar: int): (real, real) {
    if totalHoles == 9 then
      var nineHoleRating := if rating > (totalPar as real) * 1.5 then rating / 2.0 else rating;
      ((score * 2) as real, nineHoleRating * 2.0)
    else
      (score as real, rating)
  }

  /** (113 / slope) x (adjusted score - course rating), unrounded. */
  function RawDifferential(score: int, rating: real, slope: real, totalHoles: int, totalPar: int): real
    requires slope != 0.0
  {
    var (s, c) := EighteenHoleBasis(score, rating, totalHoles, totalPar);
    (113.0 / slope) * (s - c)
  }

  /** calculate_score_differential: the differential rounded to a tenth. */
  function ScoreDifferential(score: int, rating: real, slope: real, totalHoles: int, totalPar: int): (d: real)
    requires slope != 0.0
    ensures var raw := RawDifferential(score, rating, slope, totalHoles, totalPar);
            raw - 1.0 / 20.0 < d <= raw + 1.0 / 20.0
  {
    RoundTenth(RawDifferential(score, rating, slope, totalHoles, totalPar))
  }

  /** An 18-hole round uses its score and rating as given. */
  lemma EighteenHoleRoundsUnscaled(score: int, rating: real, slope: real, totalHoles: int, totalPar: int)
    requires slope != 0.0 && totalHoles != 9
    ensures RawDifferential(score, rating, slope, totalHoles, totalPar) == (113.0 / slope) * (score as real - rating)
  {
  }

  /** A 9-hole round doubles the score; a rating above 1.5 x par is taken
      as an 18-hole rating and used as it is, any other rating is doubled. */
  lemma NineHoleNormalisation(score: int, rating: real, totalPar: int)
    ensures EighteenHoleBasis(score, rating, 9, totalPar).0 == 2.0 * (score as real)
    ensures rating > (totalPar as real) * 1.5 ==> EighteenHoleBasis(score, rating, 9, totalPar).1 == rating
    ensures rating <= (totalPar as real) * 1.5 ==> EighteenHoleBasis(score, rating, 9, totalPar).1 == 2.0 * rating
  {
  }

  /** With a positive slope, a worse score never gives a better differential. */
  lemma DifferentialMonotoneInScore(s1: int, s2: int, rating: real, slope: real, totalHoles: int, totalPar: int)
    requires slope > 0.0 && s1 <= s2
    ensures ScoreDifferential(s1, rating, slope, totalHoles, totalPar) <= ScoreDifferential(s2, rating, slope, totalHoles, totalPar)
  {
    var (a, c) := EighteenHoleBasis(s1, rating, totalHoles, totalPar);
    var (b, c') := EighteenHoleBasis(s2, rating, totalHoles, totalPar);
    assert a <= b && c == c';
    var k := 113.0 / slope;
    assert k > 0.0;
    assert k * (a - c) <= k * (b - c);
    RoundTenthMonotone(RawDifferential(s1, rating, slope, totalHoles, totalPar), RawDifferential(s2, rating, slope, totalHoles, totalPar));
  }

  /** Scoring at or above the (normalised) course rating gives a
      non-negative differential. */
  lemma DifferentialNonNegative(score: int, rating: real, slope: real, totalHoles: int, totalPar: int)
    requires slope > 0.0
    requires EighteenHoleBasis(score, rating, totalHoles, totalPar).0 >= EighteenHoleBasis(score, rating, totalHoles, totalPar).1
    ensures ScoreDifferential(score, rating, slope, totalHoles, totalPar) >= 0.0
  {
    var (s, c) := EighteenHoleBasis(score, rating, totalHoles, totalPar);
    var k := 113.0 / slope;
    assert k > 0.0 && s - c >= 0.0;
    assert k * (s - c) >= 0.0;
    RoundTenthNonNegative(RawDifferential(score, rating, slope, totalHoles, totalPar));
  }

  /** How many of the lowest differentials count, by number of rounds. */
  function NumToUse(n: nat): (k: nat)
    ensures 1 <= k <= 8
    ensures n >= 3 ==> k <= n
    ensures n >= 20 <==> k == 8
  {
    if n <= 6 then 1
    else if n <= 8 then 2
    else if n <= 11 then 3
    else if n <= 14 then 4
    else if n <= 16 then 5
    else if n <= 18 then 6
    else if n == 19 then 7
    else 8
  }

  /** More rounds never means fewer differentials counted. */
  lemma NumToUseMonotone(m: nat, n: nat)
    requires m <= n
    ensures NumToUse(m) <= NumToUse(n)
  {
  }

  /** The table for golfers who started below 54, used from 12 rounds on. */
  function ExperiencedNumToUse(n: nat): (k: nat)
    requires n >= 12
    ensures 4 <= k <= 8
  {
    if n <= 14 then 4
    else if n <= 16 then 5
    else if n <= 18 then 6
    else if n == 19 then 7
    else 8
  }

  /** From 12 rounds on, the two tables agree. */
  lemma ExperiencedTableAgrees(n: nat)
    requires n >= 12
    ensures ExperiencedNumToUse(n) == NumToUse(n)
  {
  }

  /** sorted(diffs)[:k]: the k lowest differentials, lowest first. */
  function Lowest(diffs: seq<real>, k: nat): (best: seq<real>)
    requires k <= |diffs|
    ensures |best| == k
    ensures multiset(best) <= multiset(diffs)
    ensures SortedBy(best, Id)
  {
    var sorted := SortBy(diffs, Id);
    assert sorted == sorted[..k] + sorted[k..];
    assert multiset(sorted) == multiset(sorted[..k]) + multiset(sorted[k..]);
    sorted[..k]
  }

  /** Each selected differential is one of the input's. */
  lemma LowestAreFromInput(diffs: seq<real>, k: nat)
    requires k <= |diffs|
    ensures forall i :: 0 <= i < k ==> Lowest(diffs, k)[i] in diffs
  {
    var best := Lowest(diffs, k);
    forall i | 0 <= i < k ensures best[i] in diffs {
      assert best[i] in multiset(best);
    }
  }

  /** None of the differentials left out is lower than a selected one. */
  lemma LowestAreSmallest(diffs: seq<real>, k: nat)
    requires k <= |diffs|
    ensures forall i, y :: 0 <= i < k && y in multiset(diffs) - multiset(Lowest(diffs, k)) ==> Lowest(diffs, k)[i] <= y
  {
    var sorted := SortBy(diffs, Id);
    assert Lowest(diffs, k) == sorted[..k];
    SortedPrefixLeast(sorted, Id, k);
  }

  /** round(average * 0.96, 1) over the selected differentials. */
  function IndexFromBest(best: seq<real>): real
    requires |best| > 0
  {
    RoundTenth(0.96 * Mean(best))
  }

  /** calculate_handicap_index: none below 3 differentials, otherwise
      0.96 times the mean of the NumToUse lowest, rounded to a tenth. */
  function HandicapIndex(diffs: seq<real>): (r: Option<real>)
    ensures r.None? <==> |diffs| < 3
  {
    if |diffs| < 3 then None
    else Some(IndexFromBest(Lowest(diffs, NumToUse(|diffs|))))
  }

  /** Lowest depends only on the multiset of differentials. */
  lemma LowestOrderIndependent(a: seq<real>, b: seq<real>, k: nat)
    requires multiset(a) == multiset(b) && k <= |a|
    ensures |a| == |b| && Lowest(a, k) == Lowest(b, k)
  {
    assert |a| == |multiset(a)| == |multiset(b)| == |b|;
    SortByOrderIndependent(a, b, Id);
  }

  /** The index does not depend on the order of the differentials. */
  lemma HandicapIndexOrderIndependent(a: seq<real>, b: seq<real>)
    requires multiset(a) == multiset(b)
    ensures HandicapIndex(a) == HandicapIndex(b)
  {
    assert |a| == |multiset(a)| == |multiset(b)| == |b|;
    if |a| >= 3 {
      var k := NumToUse(|a|);
      LowestOrderIndependent(a, b, k);
    }
  }

  /** With every differential between lo and hi, the index lies between
      the rounded 0.96 x lo and 0.96 x hi. */
  lemma HandicapIndexWithinRange(diffs: seq<real>, lo: real, hi: real)
    requires |diffs| >= 3
    requires forall i :: 0 <= i < |diffs| ==> lo <= diffs[i] <= hi
    ensures RoundTenth(0.96 * lo) <= HandicapIndex(diffs).value <= RoundTenth(0.96 * hi)
  {
    var best := Lowest(diffs, NumToUse(|diffs|));
    LowestAreFromInput(diffs, NumToUse(|diffs|));
    forall i | 0 <= i < |best| ensures lo <= best[i] <= hi {
      assert best[i] in diffs;
    }
    MeanBounds(best, lo, hi);
    RoundTenthMonotone(0.96 * lo, 0.96 * Mean(best));
    RoundTenthMonotone(0.96 * Mean(best), 0.96 * hi);
  }

  /** The soft cap (half of any increase beyond 3.0) and the hard cap (an
      increase beyond 5.0 becomes exactly 5.0), both measured on the raw
      increase over the current index. */
  function CappedIndex(current: real, computed: real): (r: real)
    ensures r <= current + 5.0
    ensures r <= computed
    ensures computed <= current + 3.0 ==> r == computed
    ensures computed >= current ==> r >= current
    ensures current + 3.0 < computed <= current + 5.0 ==> r == current + 3.0 + (computed - current - 3.0) * 0.5
    ensures computed > current + 5.0 ==> r == current + 5.0
  {
    var increase := computed - current;
    var soft := if increase > 3.0 then current + 3.0 + (increase - 3.0) * 0.5 else computed;
    if increase > 5.0 then current + 5.0 else soft
  }

  /** Where each cap takes over: an increase of exactly 5.0 is only soft
      capped (to 4.0) while any larger one is hard capped to 5.0, so the
      capped increase jumps at 5.0. */
  lemma CapBoundaries(current: real)
    ensures CappedIndex(current, current + 3.0) == current + 3.0
    ensures CappedIndex(current, current + 4.0) == current + 3.5
    ensures CappedIndex(current, current + 5.0) == current + 4.0
    ensures CappedIndex(current, current + 5.5) == current + 5.0
    ensures CappedIndex(current, current + 10.0) == current + 5.0
  {
  }

  /** Hard cap: every increase beyond 5.0, however large, is cut to
      exactly 5.0. */
  lemma HardCapAnyRise(current: real, rise: real)
    requires rise > 5.0
    ensures CappedIndex(current, current + rise) == current + 5.0
  {
  }

  /** Soft cap: an increase between 3.0 and 5.0 keeps 3.0 and half of the
      rest, so the capped index rises by at most 4.0. */
  lemma SoftCapRise(current: real, rise: real)
    requires 3.0 < rise <= 5.0
    ensures 3.0 < CappedIndex(current, current + rise) - current <= 4.0
    ensures CappedIndex(current, current + rise) - current == 3.0 + (rise - 3.0) * 0.5
  {
  }

  /** What update_user_handicap writes: the new index and how many
      differentials it used. */
  datatype IndexUpdate = IndexUpdate(newIndex: real, numToUse: nat)

  /** The decision of update_user_handicap for a user whose index is
      `current` and whose recent rounds have these differentials; None
      when the user is left alone. */
  function HandicapUpdate(current: Option<real>, diffs: seq<real>): (r: Option<IndexUpdate>)
    ensures r.None? <==>
              || current.None?
              || (current.value == NewGolferIndex && |diffs| < 3)
              || (current.value != NewGolferIndex && |diffs| < 12)
    ensures r.Some? ==> 1 <= r.value.numToUse <= |diffs|
    ensures r.Some? ==> r.value.newIndex <= current.value + 5.0
  {
    if current.None? then None
    else
      var isNew := current.value == NewGolferIndex;
      var n := |diffs|;
      if isNew && n < 3 then None
      else if !isNew && n < 12 then None
      else
        var k := if isNew then NumToUse(n) else ExperiencedNumToUse(n);
        var computed := IndexFromBest(Lowest(diffs, k));
        Some(IndexUpdate(CappedIndex(current.value, computed), k))
  }

  /** Before capping, the update computes exactly calculate_handicap_index
      on the same differentials, for new and experienced golfers alike. */
  lemma UpdateUsesHandicapIndex(current: Option<real>, diffs: seq<real>)
    requires HandicapUpdate(current, diffs).Some?
    ensures HandicapIndex(diffs).Some?
    ensures HandicapUpdate(current, diffs).value.numToUse == NumToUse(|diffs|)
    ensures HandicapUpdate(current, diffs).value.newIndex
         == CappedIndex(current.value, HandicapIndex(diffs).value)
  {
    if current.value != NewGolferIndex {
      ExperiencedTableAgrees(|diffs|);
    }
  }

  /** A round counts toward the index when its differential equals one of
      the selected ones. */
  predicate Included(d: Option<real>, best: seq<real>) {
    d.Some? && d.value in best
  }

  /** Equal differentials are all marked: three rounds of 10.0 use one
      differential but all three are flagged. */
  lemma TiesMarkMoreRoundsThanUsed()
    ensures var diffs := [10.0, 10.0, 10.0];
            var best := Lowest(diffs, NumToUse(3));
            |best| == 1 && Included(Some(10.0), best)
  {
    var diffs := [10.0, 10.0, 10.0];
    var best := Lowest(diffs, NumToUse(3));
    assert best[0] in diffs;
  }

  /** Completed rounds of the user that have a differential. */
  predicate IsScoredRoundOf(r: Round, userId: nat) {
    r.userId == userId && r.isCompleted && r.scoreDifferential.Some?
  }

  /** Sort key for `ORDER BY end_time DESC`. */
  function EndTimeDesc(r: Round): real {
    match r.endTime
    case Some(t) => -(t as real)
    case None => 0.0
  }

  /** All of the user's completed rounds that have a differential, in
      table order. */
  function ScoredRoundsOf(rounds: seq<Round>, userId: nat): seq<Round> {
    Filter(rounds, (x: Round) => IsScoredRoundOf(x, userId))
  }

  /** get_last_20_rounds: the user's completed rounds with a differential,
      most recently finished first: all of them when there are at most 20,
      else 20 of them, and none of those left out finished later than one
      kept. */
  function LastTwentyRounds(rounds: seq<Round>, userId: nat): (r: seq<Round>)
    ensures var all := ScoredRoundsOf(rounds, userId);
            |r| == if |all| <= 20 then |all| else 20
    ensures multiset(r) <= multiset(ScoredRoundsOf(rounds, userId))
    ensures forall k, x :: 0 <= k < |r| && x in multiset(ScoredRoundsOf(rounds, userId)) - multiset(r) ==>
              EndTimeDesc(r[k]) <= EndTimeDesc(x)
    ensures forall k :: 0 <= k < |r| ==> r[k] in rounds && IsScoredRoundOf(r[k], userId)
    ensures SortedBy(r, EndTimeDesc)
  {
    var mine := ScoredRoundsOf(rounds, userId);
    var r := FirstBy(mine, EndTimeDesc, 20);
    forall k | 0 <= k < |r| ensures r[k] in rounds && IsScoredRoundOf(r[k], userId) {
      assert r[k] in multiset(mine);
      ScoredRoundMember(rounds, userId, r[k]);
    }
    r
  }

  lemma ScoredRoundMember(rounds: seq<Round>, userId: nat, x: Round)
    requires x in ScoredRoundsOf(rounds, userId)
    ensures x in rounds && IsScoredRoundOf(x, userId)
  {
    var mine := ScoredRoundsOf(rounds, userId);
    var j :| 0 <= j < |mine| && mine[j] == x;
  }

  /** `[r.score_differential for r in recent_rounds if ... is not None]` */
  function DifferentialsOf(rs: seq<Round>): (d: seq<real>)
    ensures |d| <= |rs|
    ensures forall k :: 0 <= k < |rs| && rs[k].scoreDifferential.Some? ==> rs[k].scoreDifferential.value in d
    ensures forall k :: 0 <= k < |d| ==> Some(d[k]) in ScoreDifferentials(rs)
    ensures (forall k :: 0 <= k < |rs| ==> rs[k].scoreDifferential.Some?) ==>
              |d| == |rs| && forall k :: 0 <= k < |d| ==> d[k] == rs[k].scoreDifferential.value
  {
    if rs == [] then []
    else
      var rest := DifferentialsOf(rs[1..]);
      PrependDifferential(rs, rest);
      (if rs[0].scoreDifferential.Some? then [rs[0].scoreDifferential.value] else []) + rest
  }

  /** The four facts DifferentialsOf states, for rounds rs and list d. */
  ghost predicate DifferentialsFrom(rs: seq<Round>, d: seq<real>) {
    && |d| <= |rs|
    && (forall k :: 0 <= k < |rs| && rs[k].scoreDifferential.Some? ==> rs[k].scoreDifferential.value in d)
    && (forall k :: 0 <= k < |d| ==> Some(d[k]) in ScoreDifferentials(rs))
    && ((forall k :: 0 <= k < |rs| ==> rs[k].scoreDifferential.Some?) ==>
          |d| == |rs| && forall k :: 0 <= k < |d| ==> d[k] == rs[k].scoreDifferential.value)
  }

  /** Putting the first round's differential in front keeps those facts. */
  lemma PrependDifferential(rs: seq<Round>, rest: seq<real>)
    requires rs != [] && DifferentialsFrom(rs[1..], rest)
    ensures DifferentialsFrom(rs, (if rs[0].scoreDifferential.Some? then [rs[0].scoreDifferential.value] else []) + rest)
  {
    var d := (if rs[0].scoreDifferential.Some? then [rs[0].scoreDifferential.value] else []) + rest;
    assert forall k :: 0 <= k < |rs| - 1 ==> rs[1..][k] == rs[k + 1];
    forall k | 0 <= k < |rest| ensures Some(rest[k]) in ScoreDifferentials(rs) {
      var j :| 0 <= j < |rs| - 1 && rs[1..][j].scoreDifferential == Some(rest[k]);
      assert rs[j + 1].scoreDifferential == Some(rest[k]);
    }
    assert rs[0].scoreDifferential.Some? ==> Some(d[0]) in ScoreDifferentials(rs);
    assert rs[0].scoreDifferential.Some? ==> forall k :: 1 <= k < |d| ==> d[k] == rest[k - 1];
  }

  /** The differential column of the rounds, None included. */
  function ScoreDifferentials(rs: seq<Round>): set<Option<real>> {
    set k | 0 <= k < |rs| :: rs[k].scoreDifferential
  }

  function IdsOf(rs: seq<Round>): set<nat> {
    set k | 0 <= k < |rs| :: rs[k].id
  }

  /** The rows after the included_in_handicap loop: rounds whose id is in
      `ids` are flagged by Included, every other row is unchanged. */
  function MarkIncluded(rows: seq<Round>, ids: set<nat>, best: seq<real>): (r: seq<Round>)
    ensures |r| == |rows|
    ensures forall i :: 0 <= i < |rows| ==> r[i].(includedInHandicap := rows[i].includedInHandicap) == rows[i]
    ensures forall i :: 0 <= i < |rows| ==>
              r[i].includedInHandicap == if rows[i].id in ids then Included(rows[i].scoreDifferential, best)
                                         else rows[i].includedInHandicap
  {
    seq(|rows|, i requires 0 <= i < |rows| =>
      if rows[i].id in ids then rows[i].(includedInHandicap := Included(rows[i].scoreDifferential, best))
      else rows[i])
  }

  /** Flagging one more round is a point update of the row carrying its id. */
  lemma MarkIncludedStep(rows: seq<Round>, ids: set<nat>, best: seq<real>, i: nat)
    requires UniqueRoundIds(rows) && i < |rows|
    ensures MarkIncluded(rows, ids + {rows[i].id}, best)
         == MarkIncluded(rows, ids, best)[i := rows[i].(includedInHandicap := Included(rows[i].scoreDifferential, best))]
  {
  }

  /** The differential update_round_handicap_data gives a completed round. */
  function DifferentialFor(courses: seq<Course>, round: Round): Option<real>
    requires NonZeroSlopes(courses)
  {
    var tee := if round.teeId.Some? then FindTee(courses, round.teeId.value) else None;
    if !round.isCompleted || tee.None? then round.scoreDifferential
    else Some(ScoreDifferential(round.totalShots, tee.value.mensRating, tee.value.mensSlope,
                                round.totalHoles, tee.value.totalPar))
  }

  /** The rounds once the differential of the one at ri is written. */
  function WithDifferential(courses: seq<Course>, rounds: seq<Round>, ri: nat): (r: seq<Round>)
    requires NonZeroSlopes(courses) && ri < |rounds|
    ensures |r| == |rounds|
  {
    rounds[ri := rounds[ri].(scoreDifferential := DifferentialFor(courses, rounds[ri]))]
  }

  /** update_round_handicap_data: a completed round played from a known
      tee gets its differential from the tee's men's rating and slope;
      any other round is left as it is. */
  method UpdateRoundHandicapData(db: Db, ri: nat)
    requires db.Valid() && ri < |db.rounds|
    modifies db`rounds
    ensures db.Valid()
    ensures var r := old(db.rounds[ri]);
            var tee := if r.teeId.Some? then FindTee(db.courses, r.teeId.value) else None;
            if !r.isCompleted || tee.None? then db.rounds == old(db.rounds)
            else
              && tee.value.mensSlope != 0.0
              && db.rounds == old(db.rounds)[ri := r.(scoreDifferential :=
                   Some(ScoreDifferential(r.totalShots, tee.value.mensRating, tee.value.mensSlope,
                                          r.totalHoles, tee.value.totalPar)))]
    ensures db.rounds == WithDifferential(db.courses, old(db.rounds), ri)
  {
    var r := db.rounds[ri];
    if !r.isCompleted || r.teeId.None? {
      return;
    }
    var tee := FindTee(db.courses, r.teeId.value);
    if tee.None? {
      return;
    }
    var t := tee.value;
    var d := ScoreDifferential(r.totalShots, t.mensRating, t.mensSlope, r.totalHoles, t.totalPar);
    db.rounds := db.rounds[ri := r.(scoreDifferential := Some(d))];
  }

  lemma IdsOfSnoc(rs: seq<Round>, j: nat)
    requires j < |rs|
    ensures IdsOf(rs[..j + 1]) == IdsOf(rs[..j]) + {rs[j].id}
  {
    assert rs[..j + 1] == rs[..j] + [rs[j]];
  }

  /** Flagging rounds touches no id, owner or completion status, so the
      table invariants survive it. */
  lemma MarkIncludedKeepsInvariants(rows: seq<Round>, ids: set<nat>, best: seq<real>, bound: nat)
    requires UniqueRoundIds(rows) && AtMostOneActive(rows)
    requires forall i :: 0 <= i < |rows| ==> rows[i].id < bound
    ensures var r := MarkIncluded(rows, ids, best);
            UniqueRoundIds(r) && AtMostOneActive(r) && forall i :: 0 <= i < |r| ==> r[i].id < bound
  {
    var r := MarkIncluded(rows, ids, best);
    assert forall i :: 0 <= i < |r| ==>
      r[i].id == rows[i].id && r[i].userId == rows[i].userId && r[i].isCompleted == rows[i].isCompleted;
  }

  /** Flagging rounds keeps every row's id. */
  lemma MarkIncludedKeepsIds(rows: seq<Round>, ids: set<nat>, best: seq<real>)
    requires UniqueRoundIds(rows)
    ensures UniqueRoundIds(MarkIncluded(rows, ids, best))
  {
    var r := MarkIncluded(rows, ids, best);
    assert forall i :: 0 <= i < |r| ==> r[i].id == rows[i].id;
  }

  /** A database whose rounds were only re-flagged is still valid. */
  lemma ValidAfterMarking(db: Db, rows0: seq<Round>, ids: set<nat>, best: seq<real>)
    requires UniqueRoundIds(rows0) && AtMostOneActive(rows0)
    requires forall i :: 0 <= i < |rows0| ==> rows0[i].id < db.nextRoundId
    requires forall k :: 0 <= k < |db.holeScores| ==> db.holeScores[k].roundId < db.nextRoundId
    requires NonZeroSlopes(db.courses)
    requires db.rounds == MarkIncluded(rows0, ids, best)
    ensures db.Valid()
  {
    MarkIncludedKeepsInvariants(rows0, ids, best, db.nextRoundId);
  }

  /** After re-flagging, the row with a given round's id is still found
      where it was. */
  lemma MarkedRowFound(rows: seq<Round>, ids: set<nat>, best: seq<real>, i: nat)
    requires UniqueRoundIds(rows) && i < |rows|
    ensures FindRoundById(MarkIncluded(rows, ids, best), rows[i].id) == Some(i)
  {
    MarkIncludedKeepsIds(rows, ids, best);
    assert MarkIncluded(rows, ids, best)[i].id == rows[i].id;
  }

  /** The loop over the recent rounds that sets included_in_handicap. */
  method MarkRecentRounds(db: Db, recent: seq<Round>, best: seq<real>)
    requires UniqueRoundIds(db.rounds)
    requires forall k :: 0 <= k < |recent| ==> recent[k] in db.rounds
    modifies db`rounds
    ensures db.rounds == MarkIncluded(old(db.rounds), IdsOf(recent), best)
  {
    ghost var rows0 := db.rounds;
    var j := 0;
    while j < |recent|
      invariant 0 <= j <= |recent|
      invariant db.rounds == MarkIncluded(rows0, IdsOf(recent[..j]), best)
    {
      ghost var ids := IdsOf(recent[..j]);
      var row := recent[j];
      var flag := row.scoreDifferential.Some? && row.scoreDifferential.value in best;
      var idx := FindRoundById(db.rounds, row.id);
      ghost var i0 :| 0 <= i0 < |rows0| && rows0[i0] == row;
      MarkedRowFound(rows0, ids, best, i0);
      var i := idx.value;
      db.rounds := db.rounds[i := db.rounds[i].(includedInHandicap := flag)];
      MarkIncludedStep(rows0, ids, best, i);
      IdsOfSnoc(recent, j);
      j := j + 1;
    }
    assert recent[..j] == recent;
  }

  /** The writes of update_user_handicap once it has decided: the user's
      new index and update time, then the flags of the recent rounds. */
  method ApplyHandicapUpdate(db: Db, ui: nat, u: IndexUpdate, recent: seq<Round>, diffs: seq<real>, now: int)
    requires db.Valid() && ui < |db.users| && u.numToUse <= |diffs|
    requires forall k :: 0 <= k < |recent| ==> recent[k] in db.rounds
    modifies db`users, db`rounds
    ensures db.Valid()
    ensures db.users == old(db.users)[ui := old(db.users)[ui].(handicapIndex := Some(u.newIndex),
                                                             lastHandicapUpdate := Some(now))]
    ensures db.rounds == MarkIncluded(old(db.rounds), IdsOf(recent), Lowest(diffs, u.numToUse))
    ensures |db.rounds| == |old(db.rounds)| && |db.users| == |old(db.users)|
    ensures forall i :: 0 <= i < |db.rounds| ==>
              db.rounds[i].(includedInHandicap := old(db.rounds)[i].includedInHandicap) == old(db.rounds)[i]
    ensures forall i :: 0 <= i < |db.users| && old(db.users)[i].id != old(db.users)[ui].id ==> db.users[i] == old(db.users)[i]
  {
    db.users := db.users[ui := db.users[ui].(handicapIndex := Some(u.newIndex), lastHandicapUpdate := Some(now))];
    ghost var rows0 := db.rounds;
    var best := Lowest(diffs, u.numToUse);
    MarkRecentRounds(db, recent, best);
    ValidAfterMarking(db, rows0, IdsOf(recent), best);
  }

  /** The user and round tables as update_user_handicap leaves them: the
      user's new capped index and update time, and the inclusion flags of
      the last 20 scored rounds; both tables as they were when there is no
      update. */
  function HandicapEffect(users: seq<User>, rounds: seq<Round>, userId: nat, now: int): (r: (seq<User>, seq<Round>))
    requires FindUser(users, userId).Some?
    ensures |r.0| == |users| && |r.1| == |rounds|
    ensures forall i :: 0 <= i < |users| && users[i].id != userId ==> r.0[i] == users[i]
    ensures forall i :: 0 <= i < |rounds| ==> r.1[i].(includedInHandicap := rounds[i].includedInHandicap) == rounds[i]
  {
    var ui := FindUser(users, userId).value;
    var recent := LastTwentyRounds(rounds, userId);
    var diffs := DifferentialsOf(recent);
    var update := HandicapUpdate(users[ui].handicapIndex, diffs);
    if update.None? then (users, rounds)
    else
      (WithIndex(users, ui, update.value.newIndex, now),
       MarkIncluded(rounds, IdsOf(recent), Lowest(diffs, update.value.numToUse)))
  }

  /** The users once the one at ui has the new index, stamped at now. */
  function WithIndex(users: seq<User>, ui: nat, index: real, now: int): (r: seq<User>)
    requires ui < |users|
    ensures |r| == |users|
    ensures forall i :: 0 <= i < |users| && users[i].id != users[ui].id ==> r[i] == users[i]
  {
    users[ui := users[ui].(handicapIndex := Some(index), lastHandicapUpdate := Some(now))]
  }

  /** A user holding an index keeps one, raised by at most 5.0; a user
      without one is left alone with every round. */
  lemma HandicapEffectOnUser(users: seq<User>, rounds: seq<Round>, userId: nat, now: int)
    requires FindUser(users, userId).Some?
    ensures var ui := FindUser(users, userId).value;
            users[ui].handicapIndex.None? ==> HandicapEffect(users, rounds, userId, now) == (users, rounds)
    ensures var ui := FindUser(users, userId).value;
            var after := HandicapEffect(users, rounds, userId, now).0[ui];
            users[ui].handicapIndex.Some? ==>
              after.handicapIndex.Some? && after.handicapIndex.value <= users[ui].handicapIndex.value + 5.0
  {
    var ui := FindUser(users, userId).value;
    var update := HandicapUpdate(users[ui].handicapIndex, DifferentialsOf(LastTwentyRounds(rounds, userId)));
    assert update.Some? ==> update.value.newIndex <= users[ui].handicapIndex.value + 5.0;
  }

  /** update_user_handicap: recompute the user's index from the last 20
      scored rounds, cap it, stamp the update time, and flag which of those
      rounds count. Nothing changes when HandicapUpdate says so. */
  method UpdateUserHandicap(db: Db, userId: nat, now: int)
    requires db.Valid()
    requires FindUser(db.users, userId).Some?
    modifies db`users, db`rounds
    ensures db.Valid()
    ensures var ui := FindUser(old(db.users), userId).value;
            var recent := LastTwentyRounds(old(db.rounds), userId);
            var diffs := DifferentialsOf(recent);
            var update := HandicapUpdate(old(db.users)[ui].handicapIndex, diffs);
            if update.None? then
              db.users == old(db.users) && db.rounds == old(db.rounds)
            else
              && db.users == old(db.users)[ui := old(db.users)[ui].(handicapIndex := Some(update.value.newIndex),
                                                                   lastHandicapUpdate := Some(now))]
              && db.rounds == MarkIncluded(old(db.rounds), IdsOf(recent), Lowest(diffs, update.value.numToUse))
    ensures |db.rounds| == |old(db.rounds)| && |db.users| == |old(db.users)|
    ensures forall i :: 0 <= i < |db.rounds| ==>
              db.rounds[i].(includedInHandicap := old(db.rounds)[i].includedInHandicap) == old(db.rounds)[i]
    ensures forall i :: 0 <= i < |db.users| && old(db.users)[i].id != userId ==> db.users[i] == old(db.users)[i]
    ensures (db.users, db.rounds) == HandicapEffect(old(db.users), old(db.rounds), userId, now)
  {
    var recent := LastTwentyRounds(db.rounds, userId);
    assert forall k :: 0 <= k < |recent| ==> recent[k] in db.rounds;
    var diffs := DifferentialsOf(recent);
    var ui := FindUser(db.users, userId).value;
    var update := HandicapUpdate(db.users[ui].handicapIndex, diffs);
    if update.Some? {
      ApplyHandicapUpdate(db, ui, update.value, recent, diffs, now);
    }
  }
}
