/** The course catalog endpoint: distances converted from yards to metres
    on request, course records rebuilt tee by tee and hole by hole, and the
    optional tee-name filter that drops courses without a matching tee. */
module Courses {
  import opened Numeric
  import opened Seqs
  import opened GolfDb

  /** round(yards * 0.9144): with 0.9144 = 1143/1250 exactly, the nearest
      integer to yards * 1143 / 1250, halves rounded up. */
  function ConvertToMeters(yards: Option<int>): (r: Option<int>)
    ensures r.None? <==> yards.None?
    ensures r.Some? ==> -1250 < 2 * (1250 * r.value - 1143 * yards.value) <= 1250
  {
    if yards.None? then None
    else Some((2 * 1143 * yards.value + 1250) / 2500)
  }

  /** A longer distance never converts to fewer metres. */
  lemma ConvertToMetersMonotone(a: int, b: int)
    requires a <= b
    ensures ConvertToMeters(Some(a)).value <= ConvertToMeters(Some(b)).value
  {
  }

  /** The hole entry of a course record. */
  datatype HoleData = HoleData(holeNumber: int, distanceYards: Option<int>, distanceMeters: Option<int>,
                               par: int, handicap: Option<int>)

  /** The tee entry of a course record. */
  datatype TeeData = TeeData(
    id: nat, teeName: string,
    mensRating: real, mensSlope: real, womensRating: Option<real>, womensSlope: Option<real>,
    totalDistanceYards: Option<int>, totalDistanceMeters: Option<int>,
    totalPar: int, holes: seq<HoleData>)

  /** A course record as the endpoint returns it. */
  datatype CourseData = CourseData(id: nat, courseName: string, location: string, totalHoles: int, tees: seq<TeeData>)

  /** Metres only when asked for. */
  function MetersIf(useMeters: bool, yards: Option<int>): Option<int> {
    if useMeters then ConvertToMeters(yards) else None
  }

  /** The entry for one hole: yards copied, metres only on request. */
  function HoleDataOf(h: CourseHole, useMeters: bool): (d: HoleData)
    ensures d.holeNumber == h.holeNumber && d.par == h.par && d.handicap == h.handicap
    ensures d.distanceYards == h.distanceYards
    ensures !useMeters ==> d.distanceMeters.None?
    ensures useMeters ==> d.distanceMeters == ConvertToMeters(h.distanceYards)
  {
    HoleData(h.holeNumber, h.distanceYards, MetersIf(useMeters, h.distanceYards), h.par, h.handicap)
  }

  /** The tee's fields around the holes (the holes themselves are filled
      in by the loop). */
  function TeeHeader(t: Tee, useMeters: bool): TeeData {
    TeeData(t.id, t.teeName, t.mensRating, t.mensSlope, t.womensRating, t.womensSlope,
            t.totalDistance, MetersIf(useMeters, t.totalDistance), t.totalPar, [])
  }

  /** The entry for one tee: every field copied, the total distance in
      metres only on request, and one hole entry per hole in order. */
  function TeeDataOf(t: Tee, useMeters: bool): (d: TeeData)
    ensures d.id == t.id && d.teeName == t.teeName && d.totalPar == t.totalPar
    ensures d.mensRating == t.mensRating && d.mensSlope == t.mensSlope
    ensures d.womensRating == t.womensRating && d.womensSlope == t.womensSlope
    ensures d.totalDistanceYards == t.totalDistance
    ensures !useMeters ==> d.totalDistanceMeters.None?
    ensures useMeters ==> d.totalDistanceMeters == ConvertToMeters(t.totalDistance)
    ensures |d.holes| == |t.holes|
    ensures forall j :: 0 <= j < |d.holes| ==> d.holes[j] == HoleDataOf(t.holes[j], useMeters)
  {
    TeeHeader(t, useMeters).(holes := seq(|t.holes|, j requires 0 <= j < |t.holes| => HoleDataOf(t.holes[j], useMeters)))
  }

  /** prepare_course_data: the course's own fields, then one tee entry per
      given tee, each filled hole by hole. */
  method PrepareCourseData(course: Course, filteredTees: seq<Tee>, useMeters: bool) returns (d: CourseData)
    ensures d.id == course.id && d.courseName == course.courseName
    ensures d.location == course.location && d.totalHoles == course.totalHoles
    ensures |d.tees| == |filteredTees|
    ensures forall i :: 0 <= i < |d.tees| ==> d.tees[i] == TeeDataOf(filteredTees[i], useMeters)
  {
    d := CourseData(course.id, course.courseName, course.location, course.totalHoles, []);
    var i := 0;
    while i < |filteredTees|
      invariant 0 <= i <= |filteredTees|
      invariant d.id == course.id && d.courseName == course.courseName
      invariant d.location == course.location && d.totalHoles == course.totalHoles
      invariant |d.tees| == i
      invariant forall k :: 0 <= k < i ==> d.tees[k] == TeeDataOf(filteredTees[k], useMeters)
    {
      var tee := filteredTees[i];
      var teeData := TeeHeader(tee, useMeters);
      var j := 0;
      while j < |tee.holes|
        invariant 0 <= j <= |tee.holes|
        invariant teeData == TeeHeader(tee, useMeters).(holes := teeData.holes)
        invariant |teeData.holes| == j
        invariant forall k :: 0 <= k < j ==> teeData.holes[k] == HoleDataOf(tee.holes[k], useMeters)
      {
        teeData := teeData.(holes := teeData.holes + [HoleDataOf(tee.holes[j], useMeters)]);
        j := j + 1;
      }
      d := d.(tees := d.tees + [teeData]);
      i := i + 1;
    }
  }

  /** `if tee_type:` — a tee filter is active when given and non-empty. */
  predicate FilterActive(teeType: Option<string>) {
    teeType.Some? && teeType.value != ""
  }

  /** The tees a course is listed with. */
  function KeptTees(c: Course, teeType: Option<string>): seq<Tee> {
    if FilterActive(teeType) then Filter(c.tees, (t: Tee) => t.teeName == teeType.value) else c.tees
  }

  /** A course is listed when no filter is active or a tee survives it. */
  predicate Listed(c: Course, teeType: Option<string>) {
    !FilterActive(teeType) || KeptTees(c, teeType) != []
  }

  function CourseDataOf(c: Course, tees: seq<Tee>, useMeters: bool): CourseData {
    CourseData(c.id, c.courseName, c.location, c.totalHoles,
               seq(|tees|, i requires 0 <= i < |tees| => TeeDataOf(tees[i], useMeters)))
  }

  /** The listing of the courses the search returned. */
  function Listing(courses: seq<Course>, teeType: Option<string>, useMeters: bool): seq<CourseData> {
    if courses == [] then []
    else
      var n := |courses| - 1;
      var c := courses[n];
      Listing(courses[..n], teeType, useMeters)
        + (if Listed(c, teeType) then [CourseDataOf(c, KeptTees(c, teeType), useMeters)] else [])
  }

  /** list_courses, after the search query: each course with its tees
      filtered by name, kept only if the filter is inactive or left a tee. */
  method ListCourses(courses: seq<Course>, teeType: Option<string>, useMeters: bool) returns (r: seq<CourseData>)
    ensures r == Listing(courses, teeType, useMeters)
  {
    r := [];
    var i := 0;
    while i < |courses|
      invariant 0 <= i <= |courses|
      invariant r == Listing(courses[..i], teeType, useMeters)
    {
      var entry := ListOne(courses[i], teeType, useMeters);
      assert courses[..i + 1][..i] == courses[..i];
      r := r + entry;
      i := i + 1;
    }
    assert courses[..i] == courses;
  }

  /** The loop body of list_courses for one course: its entry, if listed. */
  method ListOne(course: Course, teeType: Option<string>, useMeters: bool) returns (entry: seq<CourseData>)
    ensures entry == if Listed(course, teeType) then [CourseDataOf(course, KeptTees(course, teeType), useMeters)] else []
  {
    var filteredTees := course.tees;
    if teeType.Some? && teeType.value != "" {
      filteredTees := Filter(filteredTees, (t: Tee) => t.teeName == teeType.value);
    }
    entry := [];
    if filteredTees != [] || !(teeType.Some? && teeType.value != "") {
      var data := PrepareCourseData(course, filteredTees, useMeters);
      assert data == CourseDataOf(course, filteredTees, useMeters);
      entry := [data];
    }
  }

  /** Without an active tee filter every course is listed, in order, with
      all of its tees. */
  lemma {:induction false} UnfilteredListsEverything(courses: seq<Course>, teeType: Option<string>, useMeters: bool)
    requires !FilterActive(teeType)
    ensures var r := Listing(courses, teeType, useMeters);
            |r| == |courses| &&
            forall k :: 0 <= k < |r| ==> r[k].id == courses[k].id && |r[k].tees| == |courses[k].tees|
  {
    if courses != [] {
      UnfilteredListsEverything(courses[..|courses| - 1], teeType, useMeters);
    }
  }

  /** Every entry has a tee, and every tee carries the given name. */
  predicate OnlyTeesNamed(r: seq<CourseData>, name: string) {
    forall k :: 0 <= k < |r| ==>
      r[k].tees != [] && forall i :: 0 <= i < |r[k].tees| ==> r[k].tees[i].teeName == name
  }

  /** With an active tee filter, every listed course has a tee left, and
      every listed tee carries the requested name. */
  lemma {:induction false} FilteredListsOnlyMatchingTees(courses: seq<Course>, teeType: Option<string>, useMeters: bool)
    requires FilterActive(teeType)
    ensures OnlyTeesNamed(Listing(courses, teeType, useMeters), teeType.value)
  {
    if courses != [] {
      var n := |courses| - 1;
      FilteredListsOnlyMatchingTees(courses[..n], teeType, useMeters);
      var c := courses[n];
      var prev := Listing(courses[..n], teeType, useMeters);
      if Listed(c, teeType) {
        var kept := KeptTees(c, teeType);
        var data := CourseDataOf(c, kept, useMeters);
        forall i | 0 <= i < |data.tees| ensures data.tees[i].teeName == teeType.value {
          assert data.tees[i] == TeeDataOf(kept[i], useMeters);
        }
        assert OnlyTeesNamed([data], teeType.value);
        assert Listing(courses, teeType, useMeters) == prev + [data];
        assert OnlyTeesNamed(prev + [data], teeType.value) by {
          var r := prev + [data];
          forall k | 0 <= k < |r|
            ensures r[k].tees != [] && forall i :: 0 <= i < |r[k].tees| ==> r[k].tees[i].teeName == teeType.value
          {
            if k < |prev| {
              assert r[k] == prev[k];
            } else {
              assert r[k] == data;
            }
          }
        }
      } else {
        assert Listing(courses, teeType, useMeters) == prev;
      }
    }
  }

  /** With an active tee filter, a course is dropped exactly when none of
      its tees carries the requested name. */
  lemma DroppedIffNoMatchingTee(c: Course, teeType: Option<string>)
    requires FilterActive(teeType)
    ensures !Listed(c, teeType) <==> forall i :: 0 <= i < |c.tees| ==> c.tees[i].teeName != teeType.value
  {
    var kept := KeptTees(c, teeType);
    if exists i :: 0 <= i < |c.tees| && c.tees[i].teeName == teeType.value {
      var i :| 0 <= i < |c.tees| && c.tees[i].teeName == teeType.value;
      assert c.tees[i] in kept;
    }
    if kept != [] {
      var i :| 0 <= i < |c.tees| && c.tees[i] == kept[0];
      assert c.tees[i].teeName == teeType.value;
    }
  }
}
