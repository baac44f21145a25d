/** The client's round state: the round being played, the hole the player
    is on, the loaded round history, and the course and tee picked for the
    next round. Each action applies a server answer (given as a parameter)
    to that state: the hole cursor stays within the round's holes, and the
    running totals are recomputed locally after a score is entered. */
module RoundClient {
  import opened Numeric
  import opened Seqs

  /** A hole score as the server returns it. */
  datatype HoleEntry = HoleEntry(holeNumber: int, shots: int, par: int, notes: Option<string>)

  /** A round as the server returns it. */
  datatype RoundView = RoundView(id: nat, totalHoles: int, holeScores: seq<HoleEntry>,
                                 totalShots: int, totalPar: int, scoreRelativeToPar: int)

  /** The server's answer to a request: the body of a successful response,
      or the `detail` of a failed one ("" when it has none). */
  datatype Reply<T> = Answered(value: T) | Refused(detail: string)

  /** What an action gives its caller: a value, or the error it throws. */
  datatype Outcome<T> = Returned(value: T) | Thrown(message: string)

  /** `errorData.detail || fallback`. */
  function ErrorText(detail: string, fallback: string): string {
    if detail == "" then fallback else detail
  }

  /** The hole a loaded round resumes at: the number of the first hole
      without shots, or the round's last hole when every hole has shots.
      A hole number 0 is falsy and also gives the last hole. */
  function ResumeHole(round: RoundView): (h: int)
    ensures (forall k :: 0 <= k < |round.holeScores| ==> round.holeScores[k].shots != 0) ==> h == round.totalHoles
    ensures forall i :: 0 <= i < |round.holeScores| && round.holeScores[i].shots == 0
                        && (forall j :: 0 <= j < i ==> round.holeScores[j].shots != 0) ==>
                          h == if round.holeScores[i].holeNumber != 0 then round.holeScores[i].holeNumber else round.totalHoles
  {
    var i := FirstIndex(round.holeScores, (e: HoleEntry) => e.shots == 0);
    if i.Some? && round.holeScores[i.value].holeNumber != 0 then round.holeScores[i.value].holeNumber
    else round.totalHoles
  }

  /** Every hole number of the round lies in 1..total_holes. */
  predicate HoleNumbersInRange(round: RoundView) {
    round.totalHoles >= 1 && forall k :: 0 <= k < |round.holeScores| ==> 1 <= round.holeScores[k].holeNumber <= round.totalHoles
  }

  /** A round with well-numbered holes resumes at one of its holes, and at
      its last hole once every hole has shots. */
  lemma ResumeHoleInRange(round: RoundView)
    requires HoleNumbersInRange(round)
    ensures 1 <= ResumeHole(round) <= round.totalHoles
  {
    var i := FirstIndex(round.holeScores, (e: HoleEntry) => e.shots == 0);
    if i.Some? {
      assert 1 <= round.holeScores[i.value].holeNumber;
    }
  }

  /** `hole_scores.map(...)`: every hole with that number replaced by the
      server's entry, every other hole kept. */
  function ReplaceHoles(holes: seq<HoleEntry>, holeNumber: int, entry: HoleEntry): (r: seq<HoleEntry>)
    ensures |r| == |holes|
    ensures forall k :: 0 <= k < |r| ==> r[k] == if holes[k].holeNumber == holeNumber then entry else holes[k]
  {
    seq(|holes|, k requires 0 <= k < |holes| => if holes[k].holeNumber == holeNumber then entry else holes[k])
  }

  /** `reduce` of the shots, the entered shots counted for that hole. */
  function ShotsWith(holes: seq<HoleEntry>, holeNumber: int, shots: int): int {
    if holes == [] then 0
    else
      var n := |holes| - 1;
      ShotsWith(holes[..n], holeNumber, shots) + (if holes[n].holeNumber == holeNumber then shots else holes[n].shots)
  }

  /** `reduce` of the pars, the entered par counted for that hole. */
  function ParWith(holes: seq<HoleEntry>, holeNumber: int, par: int): int {
    if holes == [] then 0
    else
      var n := |holes| - 1;
      ParWith(holes[..n], holeNumber, par) + (if holes[n].holeNumber == holeNumber then par else holes[n].par)
  }

  function SumShots(holes: seq<HoleEntry>): int {
    if holes == [] then 0 else SumShots(holes[..|holes| - 1]) + holes[|holes| - 1].shots
  }

  function SumPar(holes: seq<HoleEntry>): int {
    if holes == [] then 0 else SumPar(holes[..|holes| - 1]) + holes[|holes| - 1].par
  }

  /** The round's totals agree with its holes. */
  predicate TotalsConsistent(round: RoundView) {
    && round.totalShots == SumShots(round.holeScores)
    && round.totalPar == SumPar(round.holeScores)
    && round.scoreRelativeToPar == round.totalShots - round.totalPar
  }

  /** The local round after a hole score is saved. The totals are taken
      over the old holes with the entered shots and par for that hole; the
      relative score from those totals. */
  function UpdatedRound(round: RoundView, holeNumber: int, shots: int, par: int, entry: HoleEntry): RoundView {
    var totalShots := ShotsWith(round.holeScores, holeNumber, shots);
    var totalPar := ParWith(round.holeScores, holeNumber, par);
    round.(holeScores := ReplaceHoles(round.holeScores, holeNumber, entry),
           totalShots := totalShots, totalPar := totalPar, scoreRelativeToPar := totalShots - totalPar)
  }

  /** Counting the entered shots for a hole is summing the holes after the
      server's entry replaced it, when that entry carries those shots. */
  lemma {:induction false} ShotsWithReplaced(holes: seq<HoleEntry>, holeNumber: int, entry: HoleEntry)
    ensures ShotsWith(holes, holeNumber, entry.shots) == SumShots(ReplaceHoles(holes, holeNumber, entry))
    ensures ParWith(holes, holeNumber, entry.par) == SumPar(ReplaceHoles(holes, holeNumber, entry))
  {
    if holes != [] {
      var n := |holes| - 1;
      ShotsWithReplaced(holes[..n], holeNumber, entry);
      assert ReplaceHoles(holes, holeNumber, entry)[..n] == ReplaceHoles(holes[..n], holeNumber, entry);
    }
  }

  /** Whatever the totals were, they agree with the holes after a score is
      saved, provided the server's entry echoes the entered shots and par. */
  lemma SavedScoreKeepsTotalsConsistent(round: RoundView, holeNumber: int, entry: HoleEntry)
    ensures TotalsConsistent(UpdatedRound(round, holeNumber, entry.shots, entry.par, entry))
  {
    ShotsWithReplaced(round.holeScores, holeNumber, entry);
  }

  /** When exactly one hole has that number, the new total differs from
      the old sum by the change in that hole's shots. */
  lemma {:induction false} ShotsWithOneHole(holes: seq<HoleEntry>, holeNumber: int, shots: int, i: nat)
    requires i < |holes| && holes[i].holeNumber == holeNumber
    requires forall k :: 0 <= k < |holes| && k != i ==> holes[k].holeNumber != holeNumber
    ensures ShotsWith(holes, holeNumber, shots) == SumShots(holes) - holes[i].shots + shots
  {
    var n := |holes| - 1;
    if i == n {
      ShotsWithNone(holes[..n], holeNumber, shots);
    } else {
      ShotsWithOneHole(holes[..n], holeNumber, shots, i);
    }
  }

  lemma {:induction false} ShotsWithNone(holes: seq<HoleEntry>, holeNumber: int, shots: int)
    requires forall k :: 0 <= k < |holes| ==> holes[k].holeNumber != holeNumber
    ensures ShotsWith(holes, holeNumber, shots) == SumShots(holes)
  {
    if holes != [] {
      ShotsWithNone(holes[..|holes| - 1], holeNumber, shots);
    }
  }

  class RoundStore {
    var currentRound: Option<RoundView>
    var currentHole: int
    var roundHistory: seq<RoundView>
    var loading: bool
    var error: Option<string>
    var selectedCourse: Option<nat>
    var selectedTee: Option<nat>

    /** With a round in play, the cursor is on one of its holes. */
    predicate CursorInRange()
      reads this`currentRound, this`currentHole
    {
      currentRound.Some? ==> 1 <= currentHole <= currentRound.value.totalHoles
    }

    constructor ()
      ensures currentRound.None? && currentHole == 1 && roundHistory == [] && !loading && error.None?
      ensures selectedCourse.None? && selectedTee.None?
      ensures CursorInRange()
    {
      currentRound := None;
      currentHole := 1;
      roundHistory := [];
      loading := false;
      error := None;
      selectedCourse := None;
      selectedTee := None;
    }

    /** startRound: refused without a picked course and tee; on success the
        new round is in play at hole 1 and the picks are cleared. */
    method StartRound(reply: Reply<RoundView>) returns (o: Outcome<RoundView>)
      modifies this`currentRound, this`currentHole, this`loading, this`error, this`selectedCourse, this`selectedTee
      ensures !loading
      ensures (old(selectedCourse).None? || old(selectedTee).None?) ==>
                o == Thrown("Please select a course and tee") && error == Some(o.message)
                && currentRound == old(currentRound) && currentHole == old(currentHole)
                && selectedCourse == old(selectedCourse) && selectedTee == old(selectedTee)
      ensures old(selectedCourse).Some? && old(selectedTee).Some? && reply.Refused? ==>
                o == Thrown(ErrorText(reply.detail, "Failed to start round")) && error == Some(o.message)
                && currentRound == old(currentRound) && currentHole == old(currentHole)
                && selectedCourse == old(selectedCourse) && selectedTee == old(selectedTee)
      ensures old(selectedCourse).Some? && old(selectedTee).Some? && reply.Answered? ==>
                o == Returned(reply.value) && error.None?
                && currentRound == Some(reply.value) && currentHole == 1
                && selectedCourse.None? && selectedTee.None?
      ensures old(CursorInRange()) && (reply.Answered? ==> reply.value.totalHoles >= 1) ==> CursorInRange()
    {
      if selectedCourse.None? || selectedTee.None? {
        o := Thrown("Please select a course and tee");
        error, loading := Some(o.message), false;
        return;
      }
      loading, error := true, None;
      match reply {
        case Refused(detail) =>
          o := Thrown(ErrorText(detail, "Failed to start round"));
          error, loading := Some(o.message), false;
        case Answered(round) =>
          currentRound, currentHole, loading := Some(round), 1, false;
          selectedCourse, selectedTee := None, None;
          o := Returned(round);
      }
    }

    /** getActiveRound: a round found is put in play at the hole it
        resumes at; no round resets the cursor to hole 1. */
    method GetActiveRound(reply: Reply<Option<RoundView>>) returns (o: Outcome<Option<RoundView>>)
      modifies this`currentRound, this`currentHole, this`loading, this`error
      ensures !loading
      ensures reply.Refused? ==> o == Thrown("Failed to get active round") && error == Some(o.message)
                                 && currentRound == old(currentRound) && currentHole == old(currentHole)
      ensures reply.Answered? ==> o == Returned(reply.value) && error.None? && currentRound == reply.value
      ensures reply.Answered? && reply.value.Some? ==> currentHole == ResumeHole(reply.value.value)
      ensures reply.Answered? && reply.value.None? ==> currentHole == 1
      ensures reply.Answered? && (reply.value.Some? ==> HoleNumbersInRange(reply.value.value)) ==> CursorInRange()
    {
      loading, error := true, None;
      match reply {
        case Refused(_) =>
          o := Thrown("Failed to get active round");
          error, loading := Some(o.message), false;
        case Answered(found) =>
          if found.Some? {
            if HoleNumbersInRange(found.value) {
              ResumeHoleInRange(found.value);
            }
            currentRound, currentHole, loading := found, ResumeHole(found.value), false;
          } else {
            currentRound, currentHole, loading := None, 1, false;
          }
          o := Returned(found);
      }
    }

    /** updateHoleScore: after the server saved the score, the hole is
        replaced in the local round and the totals recomputed. */
    method UpdateHoleScore(holeNumber: int, shots: int, par: int, reply: Reply<HoleEntry>) returns (o: Outcome<HoleEntry>)
      modifies this`currentRound, this`error
      ensures old(currentRound).None? ==> o == Thrown("No active round") && error == Some(o.message)
                                          && currentRound == old(currentRound)
      ensures old(currentRound).Some? && reply.Refused? ==>
                o == Thrown(ErrorText(reply.detail, "Failed to update hole score")) && error == Some(o.message)
                && currentRound == old(currentRound)
      ensures old(currentRound).Some? && reply.Answered? ==>
                o == Returned(reply.value) && error == old(error)
                && currentRound == Some(UpdatedRound(old(currentRound).value, holeNumber, shots, par, reply.value))
    {
      if currentRound.None? {
        o := Thrown("No active round");
        error := Some(o.message);
        return;
      }
      match reply {
        case Refused(detail) =>
          o := Thrown(ErrorText(detail, "Failed to update hole score"));
          error := Some(o.message);
        case Answered(entry) =>
          var round := currentRound.value;
          currentRound := Some(round.(holeScores := ReplaceHoles(round.holeScores, holeNumber, entry),
                                      totalShots := ShotsWith(round.holeScores, holeNumber, shots),
                                      totalPar := ParWith(round.holeScores, holeNumber, par)));
          var updated := currentRound.value;
          currentRound := Some(updated.(scoreRelativeToPar := updated.totalShots - updated.totalPar));
          o := Returned(entry);
      }
    }

    /** nextHole: forward one hole, but not past the round's last hole. */
    method NextHole()
      modifies this`currentHole
      ensures currentRound.Some? && old(currentHole) < currentRound.value.totalHoles ==> currentHole == old(currentHole) + 1
      ensures !(currentRound.Some? && old(currentHole) < currentRound.value.totalHoles) ==> currentHole == old(currentHole)
      ensures old(CursorInRange()) ==> CursorInRange()
    {
      if currentRound.Some? && currentHole < currentRound.value.totalHoles {
        currentHole := currentHole + 1;
      }
    }

    /** previousHole: back one hole, but not before hole 1. */
    method PreviousHole()
      modifies this`currentHole
      ensures old(currentHole) > 1 ==> currentHole == old(currentHole) - 1
      ensures old(currentHole) <= 1 ==> currentHole == old(currentHole)
      ensures old(CursorInRange()) ==> CursorInRange()
    {
      if currentHole > 1 {
        currentHole := currentHole - 1;
      }
    }

    /** setCurrentHole: a jump to one of the round's holes; anything else
        is ignored. */
    method SetCurrentHole(holeNumber: int)
      modifies this`currentHole
      ensures currentRound.Some? && 1 <= holeNumber <= currentRound.value.totalHoles ==> currentHole == holeNumber
      ensures !(currentRound.Some? && 1 <= holeNumber <= currentRound.value.totalHoles) ==> currentHole == old(currentHole)
      ensures old(CursorInRange()) ==> CursorInRange()
    {
      if currentRound.Some? && holeNumber >= 1 && holeNumber <= currentRound.value.totalHoles {
        currentHole := holeNumber;
      }
    }

    /** completeRound: after the server closed the round, nothing is in
        play and the cursor is back at hole 1. */
    method CompleteRound(reply: Reply<RoundView>) returns (o: Outcome<RoundView>)
      modifies this`currentRound, this`currentHole, this`loading, this`error
      ensures !loading
      ensures old(currentRound).None? ==> o == Thrown("No active round") && error == Some(o.message)
                                          && currentRound == old(currentRound) && currentHole == old(currentHole)
      ensures old(currentRound).Some? && reply.Refused? ==>
                o == Thrown(ErrorText(reply.detail, "Failed to complete round")) && error == Some(o.message)
                && currentRound == old(currentRound) && currentHole == old(currentHole)
      ensures old(currentRound).Some? && reply.Answered? ==>
                o == Returned(reply.value) && error.None? && currentRound.None? && currentHole == 1
    {
      if currentRound.None? {
        o := Thrown("No active round");
        error, loading := Some(o.message), false;
        return;
      }
      loading, error := true, None;
      match reply {
        case Refused(detail) =>
          o := Thrown(ErrorText(detail, "Failed to complete round"));
          error, loading := Some(o.message), false;
        case Answered(completed) =>
          currentRound, currentHole, loading := None, 1, false;
          o := Returned(completed);
      }
    }

    /** getRoundHistory: the page the server returned replaces the list. */
    method GetRoundHistory(reply: Reply<seq<RoundView>>) returns (o: Outcome<seq<RoundView>>)
      modifies this`roundHistory, this`loading, this`error
      ensures !loading
      ensures reply.Refused? ==> o == Thrown("Failed to get round history") && error == Some(o.message)
                                 && roundHistory == old(roundHistory)
      ensures reply.Answered? ==> o == Returned(reply.value) && error.None? && roundHistory == reply.value
    {
      loading, error := true, None;
      match reply {
        case Refused(_) =>
          o := Thrown("Failed to get round history");
          error, loading := Some(o.message), false;
        case Answered(rounds) =>
          roundHistory, loading := rounds, false;
          o := Returned(rounds);
      }
    }

    /** deleteRound: after the server deleted the round, its entries leave
        the local history. */
    method DeleteRound(roundId: nat, reply: Reply<()>) returns (o: Outcome<bool>)
      modifies this`roundHistory, this`error
      ensures reply.Refused? ==> o == Thrown(ErrorText(reply.detail, "Failed to delete round")) && error == Some(o.message)
                                 && roundHistory == old(roundHistory)
      ensures reply.Answered? ==> o == Returned(true) && error == old(error)
                                  && roundHistory == Filter(old(roundHistory), (r: RoundView) => r.id != roundId)
    {
      match reply {
        case Refused(detail) =>
          o := Thrown(ErrorText(detail, "Failed to delete round"));
          error := Some(o.message);
        case Answered(_) =>
          roundHistory := Filter(roundHistory, (r: RoundView) => r.id != roundId);
          o := Returned(true);
      }
    }

    /** getRoundDetails: hands back the server's round and leaves the store
        alone; a refusal is recorded as the error. */
    method GetRoundDetails(reply: Reply<RoundView>) returns (o: Outcome<RoundView>)
      modifies this`error
      ensures reply.Refused? ==> o == Thrown("Failed to get round details") && error == Some(o.message)
      ensures reply.Answered? ==> o == Returned(reply.value) && error == old(error)
    {
      match reply {
        case Refused(_) =>
          o := Thrown("Failed to get round details");
          error := Some(o.message);
        case Answered(round) =>
          o := Returned(round);
      }
    }

    /** clearError: the error is dropped and nothing else changes. */
    method ClearError()
      modifies this`error
      ensures error.None?
    {
      error := None;
    }

    /** getCurrentHoleData: the first hole of the round in play numbered
        like the cursor. */
    function CurrentHoleData(): (h: Option<HoleEntry>)
      reads this`currentRound, this`currentHole
      ensures currentRound.None? ==> h.None?
      ensures h.Some? ==> h.value in currentRound.value.holeScores && h.value.holeNumber == currentHole
      ensures currentRound.Some? && h.None? ==>
                forall k :: 0 <= k < |currentRound.value.holeScores| ==> currentRound.value.holeScores[k].holeNumber != currentHole
      ensures h.Some? ==> exists k :: 0 <= k < |currentRound.value.holeScores| && currentRound.value.holeScores[k] == h.value
                            && forall j :: 0 <= j < k ==> currentRound.value.holeScores[j].holeNumber != currentHole
    {
      if currentRound.None? then None
      else
        var holes, number := currentRound.value.holeScores, currentHole;
        var i := FirstIndex(holes, (e: HoleEntry) => e.holeNumber == number);
        if i.None? then None else Some(holes[i.value])
    }

    /** getCurrentHoleShots: 0 when there is no such hole. */
    function CurrentHoleShots(): (s: int)
      reads this`currentRound, this`currentHole
      ensures s == (if CurrentHoleData().Some? then CurrentHoleData().value.shots else 0)
      ensures currentRound.None? ==> s == 0
      ensures currentRound.Some? ==>
                var holes := currentRound.value.holeScores;
                (forall k :: 0 <= k < |holes| ==> holes[k].holeNumber != currentHole) ==> s == 0
      ensures currentRound.Some? ==>
                var holes := currentRound.value.holeScores;
                forall k ::
                  (0 <= k < |holes| && holes[k].holeNumber == currentHole
                   && forall j :: 0 <= j < k ==> holes[j].holeNumber != currentHole) ==> s == holes[k].shots
    {
      var h := CurrentHoleData();
      if h.Some? then h.value.shots else 0
    }

    /** getCurrentHolePar: 4 when there is no such hole. */
    function CurrentHolePar(): (s: int)
      reads this`currentRound, this`currentHole
      ensures s == (if CurrentHoleData().Some? then CurrentHoleData().value.par else 4)
      ensures currentRound.None? ==> s == 4
      ensures currentRound.Some? ==>
                var holes := currentRound.value.holeScores;
                (forall k :: 0 <= k < |holes| ==> holes[k].holeNumber != currentHole) ==> s == 4
      ensures currentRound.Some? ==>
                var holes := currentRound.value.holeScores;
                forall k ::
                  (0 <= k < |holes| && holes[k].holeNumber == currentHole
                   && forall j :: 0 <= j < k ==> holes[j].holeNumber != currentHole) ==> s == holes[k].par
    {
      var h := CurrentHoleData();
      if h.Some? then h.value.par else 4
    }

    /** getTotalShots, getTotalPar, getScoreRelativeToPar: the round's
        totals, 0 without a round. */
    function Totals(): (t: (int, int, int))
      reads this`currentRound
      ensures currentRound.None? ==> t == (0, 0, 0)
      ensures currentRound.Some? ==>
                t == (currentRound.value.totalShots, currentRound.value.totalPar, currentRound.value.scoreRelativeToPar)
    {
      if currentRound.None? then (0, 0, 0)
      else (currentRound.value.totalShots, currentRound.value.totalPar, currentRound.value.scoreRelativeToPar)
    }

    method SetSelectedCourse(course: nat)
      modifies this`selectedCourse, this`selectedTee
      ensures selectedCourse == Some(course) && selectedTee.None?
    {
      selectedCourse, selectedTee := Some(course), None;
    }

    method SetSelectedTee(tee: nat)
      modifies this`selectedTee
      ensures selectedTee == Some(tee)
    {
      selectedTee := Some(tee);
    }

    /** reset: no round, cursor at hole 1, no error, no picks; the history
        is kept. */
    method Reset()
      modifies this`currentRound, this`currentHole, this`loading, this`error, this`selectedCourse, this`selectedTee
      ensures currentRound.None? && currentHole == 1 && !loading && error.None?
      ensures selectedCourse.None? && selectedTee.None?
      ensures CursorInRange()
    {
      currentRound, currentHole, loading, error := None, 1, false, None;
      selectedCourse, selectedTee := None, None;
    }
  }

  /** A deleted round's entries are all gone from the history and every
      other entry stays, as often as before. */
  lemma DeleteLeavesOtherRounds(history: seq<RoundView>, roundId: nat, r: RoundView)
    ensures multiset(Filter(history, (v: RoundView) => v.id != roundId))[r]
            == if r.id != roundId then multiset(history)[r] else 0
  {
    FilterMultiset(history, (v: RoundView) => v.id != roundId, r);
  }
}
