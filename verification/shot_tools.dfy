/** The caddie agent's shot calculators: how wind, the lie of the ball and
    the ground condition change the distance a shot should be played for.
    Each validates its input, picks factors from a fixed table and combines
    them. Reported distances are rounded to one decimal place. */
module ShotTools {
  import opened Numeric
  import opened Text
  import opened Seqs
  import opened ToolValues

  /** A tool's answer: its report, or the "error" entry (with the list of
      valid options where the tool gives one). */
  datatype Outcome<T> = Success(value: T) | Failure(error: string, validOptions: seq<string>)

  // ---------------------------------------------------------------- wind

  datatype WindType = Headwind | Tailwind | Crosswind

  function WindTypeName(w: WindType): string {
    match w
    case Headwind => "headwind"
    case Tailwind => "tailwind"
    case Crosswind => "crosswind"
  }

  const InvalidWindDetail := "Invalid wind direction. Use 'headwind', 'tailwind', 'crosswind-left', or 'crosswind-right'"

  /** The wind type of a direction label, compared after lower-casing. */
  function ClassifyWind(direction: string): (r: Option<WindType>)
    ensures r == Some(Headwind) <==> Lower(direction) == "headwind"
    ensures r == Some(Tailwind) <==> Lower(direction) == "tailwind"
    ensures r == Some(Crosswind) <==> Lower(direction) == "crosswind-left" || Lower(direction) == "crosswind-right"
  {
    var d := Lower(direction);
    if d == "headwind" then Some(Headwind)
    else if d == "tailwind" then Some(Tailwind)
    else if d == "crosswind-left" || d == "crosswind-right" then Some(Crosswind)
    else None
  }

  const HeadwindFactor: real := 0.006
  const TailwindFactor: real := 0.004

  /** The change in playing distance the wind causes, before rounding. */
  function DistanceEffect(w: WindType, speed: real, distance: real): real {
    match w
    case Headwind => distance * (HeadwindFactor * speed)
    case Tailwind => -distance * (TailwindFactor * speed)
    case Crosswind => distance * (HeadwindFactor * speed * 0.2)
  }

  /** The sideways drift in metres, before rounding. */
  function LateralEffect(w: WindType, speed: real): real {
    if w == Crosswind then speed * 0.9 else 0.0
  }

  datatype WindReport = WindReport(
    actualDistance: real, effectiveDistance: real, adjustment: real,
    lateralDrift: real, windType: string, windSpeed: real)

  /** calculate_wind_effect: an unknown direction is an error; otherwise the
      distance to play is the distance plus the wind's effect. */
  function CalculateWindEffect(speed: real, direction: string, distance: real): (r: Outcome<WindReport>)
    ensures r.Failure? <==> ClassifyWind(direction).None?
    ensures r.Failure? ==> r == Failure(InvalidWindDetail, [])
    ensures r.Success? ==> r.value.actualDistance == distance && r.value.windSpeed == speed
    ensures r.Success? ==> r.value.windType == WindTypeName(ClassifyWind(direction).value)
  {
    var w := ClassifyWind(direction);
    if w.None? then Failure(InvalidWindDetail, [])
    else
      var effect := DistanceEffect(w.value, speed, distance);
      Success(WindReport(distance, RoundTenth(distance + effect), RoundTenth(effect),
                         RoundTenth(LateralEffect(w.value, speed)), WindTypeName(w.value), speed))
  }

  /** Lower-casing leaves text without capitals unchanged. */
  lemma LowerOfLowercase(s: string)
    requires forall i :: 0 <= i < |s| ==> !IsAsciiUpper(s[i])
    ensures Lower(s) == s
  {
  }

  /** The four labels the tool documents. */
  lemma KnownDirections()
    ensures ClassifyWind("headwind") == Some(Headwind)
    ensures ClassifyWind("tailwind") == Some(Tailwind)
    ensures ClassifyWind("crosswind-left") == Some(Crosswind)
    ensures ClassifyWind("crosswind-right") == Some(Crosswind)
  {
    HeadwindLabel();
    TailwindLabel();
    CrosswindLabels();
  }

  lemma HeadwindLabel()
    ensures ClassifyWind("headwind") == Some(Headwind)
  {
    LowerOfLowercase("headwind");
  }

  lemma TailwindLabel()
    ensures ClassifyWind("tailwind") == Some(Tailwind)
  {
    LowerOfLowercase("tailwind");
  }

  lemma CrosswindLabels()
    ensures ClassifyWind("crosswind-left") == Some(Crosswind)
    ensures ClassifyWind("crosswind-right") == Some(Crosswind)
  {
    LowerOfLowercase("crosswind-left");
    LowerOfLowercase("crosswind-right");
  }

  lemma RoundTenthZero()
    ensures RoundTenth(0.0) == 0.0
  {
    assert (10.0 * 0.0 + 0.5).Floor == 0;
  }

  /** A headwind adds distance * 0.006 * speed, a tailwind takes away
      distance * 0.004 * speed, and neither causes drift. */
  lemma HeadAndTailWind(speed: real, distance: real)
    ensures var r := CalculateWindEffect(speed, "headwind", distance);
            var effect := distance * (HeadwindFactor * speed);
            r == Success(WindReport(distance, RoundTenth(distance + effect), RoundTenth(effect), 0.0, "headwind", speed))
    ensures var r := CalculateWindEffect(speed, "tailwind", distance);
            var effect := -distance * (TailwindFactor * speed);
            r == Success(WindReport(distance, RoundTenth(distance + effect), RoundTenth(effect), 0.0, "tailwind", speed))
  {
    KnownDirections();
    RoundTenthZero();
  }

  /** Both crosswinds drift 0.9 m per m/s and add a fifth of the headwind
      effect, whichever side they come from. */
  lemma CrosswindSidesAgree(speed: real, distance: real)
    ensures CalculateWindEffect(speed, "crosswind-left", distance) == CalculateWindEffect(speed, "crosswind-right", distance)
    ensures var effect := distance * (HeadwindFactor * speed * 0.2);
            CalculateWindEffect(speed, "crosswind-left", distance)
              == Success(WindReport(distance, RoundTenth(distance + effect), RoundTenth(effect),
                                    RoundTenth(speed * 0.9), "crosswind", speed))
  {
    KnownDirections();
  }

  /** Lower-casing twice is lower-casing once. */
  lemma LowerIdempotent(s: string)
    ensures Lower(Lower(s)) == Lower(s)
  {
    assert forall i :: 0 <= i < |s| ==> LowerChar(LowerChar(s[i])) == LowerChar(s[i]);
  }

  /** The direction label is not case-sensitive. */
  lemma WindDirectionCaseInsensitive(speed: real, direction: string, distance: real)
    ensures CalculateWindEffect(speed, direction, distance) == CalculateWindEffect(speed, Lower(direction), distance)
  {
    LowerIdempotent(direction);
  }

  /** With a non-negative distance and speed, a headwind never makes the
      shot play shorter and a tailwind never makes it play longer. */
  lemma WindDirectionOfAdjustment(speed: real, distance: real)
    requires speed >= 0.0 && distance >= 0.0
    ensures var r := CalculateWindEffect(speed, "headwind", distance);
            r.Success? && r.value.effectiveDistance >= RoundTenth(distance)
    ensures var r := CalculateWindEffect(speed, "tailwind", distance);
            r.Success? && r.value.effectiveDistance <= RoundTenth(distance)
  {
    HeadAndTailWind(speed, distance);
    HeadwindNotShorter(speed, distance);
    TailwindNotLonger(speed, distance);
  }

  lemma HeadwindNotShorter(speed: real, distance: real)
    requires speed >= 0.0 && distance >= 0.0
    ensures RoundTenth(distance + distance * (HeadwindFactor * speed)) >= RoundTenth(distance)
  {
    NonNegativeProduct(distance, HeadwindFactor * speed);
    RoundTenthMonotone(distance, distance + distance * (HeadwindFactor * speed));
  }

  lemma TailwindNotLonger(speed: real, distance: real)
    requires speed >= 0.0 && distance >= 0.0
    ensures RoundTenth(distance + -distance * (TailwindFactor * speed)) <= RoundTenth(distance)
  {
    NonPositiveProduct(distance, TailwindFactor * speed);
    RoundTenthMonotone(distance + -distance * (TailwindFactor * speed), distance);
  }

  lemma NonNegativeProduct(a: real, b: real)
    requires a >= 0.0 && b >= 0.0
    ensures a * b >= 0.0
  {
  }

  lemma NonPositiveProduct(a: real, b: real)
    requires a >= 0.0 && b >= 0.0
    ensures -a * b <= 0.0
  {
    NonNegativeProduct(a, b);
  }

  // ---------------------------------------------------------------- base distance

  const InvalidBaseDetail := "Invalid base_distance. Must be a positive number."

  /** The base_distance check of the lie and ground calculators: missing,
      zero, negative or non-numeric values are refused (a bool counts as
      the number 0 or 1). */
  function BaseDistance(input: Dict): (r: Option<real>)
    ensures r.Some? ==> r.value > 0.0
    ensures "base_distance" !in input ==> r.None?
    ensures "base_distance" in input ==>
              (r.Some? <==> match input["base_distance"]
                            case VBool(b) => b
                            case VInt(i) => i > 0
                            case VFloat(f) => f > 0.0
                            case _ => false)
  {
    match Get(input, "base_distance", VInt(0))
    case VBool(b) => if b then Some(1.0) else None
    case VInt(i) => if i > 0 then Some(i as real) else None
    case VFloat(f) => if f > 0.0 then Some(f) else None
    case _ => None
  }

  // ---------------------------------------------------------------- lie

  /** A lie condition and the share of the normal distance the ball
      travels from it. */
  datatype Factor = Factor(name: string, distanceFactor: real)

  /** The surface table, in its order of checking; fairway is the default. */
  const SurfaceTable: seq<Factor> := [
    Factor("fairway", 1.0), Factor("light_rough", 0.97), Factor("heavy_rough", 0.90),
    Factor("hardpan", 0.95), Factor("divot", 0.93), Factor("bunker", 0.90)]

  /** The slope table; any number of slopes may apply together. */
  const SlopeTable: seq<Factor> := [
    Factor("uphill", 0.95), Factor("downhill", 0.97),
    Factor("ball_above_feet", 0.96), Factor("ball_below_feet", 0.95)]

  /** input.get(name, False) is truthy. */
  predicate Flagged(input: Dict, name: string) {
    Truthy(Get(input, name, VBool(false)))
  }

  /** The table entries the input flags, in table order. */
  function ActiveFactors(table: seq<Factor>, input: Dict): seq<Factor> {
    if table == [] then []
    else
      var n := |table| - 1;
      ActiveFactors(table[..n], input) + (if Flagged(input, table[n].name) then [table[n]] else [])
  }

  /** Only flagged entries of the table are active. */
  lemma {:induction false} ActiveFactorsFromTable(table: seq<Factor>, input: Dict)
    ensures forall k :: 0 <= k < |ActiveFactors(table, input)| ==>
              ActiveFactors(table, input)[k] in table && Flagged(input, ActiveFactors(table, input)[k].name)
  {
    if table != [] {
      var n := |table| - 1;
      ActiveFactorsFromTable(table[..n], input);
      var prev := ActiveFactors(table[..n], input);
      forall k | 0 <= k < |prev| ensures prev[k] in table {
        assert prev[k] in table[..n];
      }
    }
  }

  function Names(fs: seq<Factor>): (r: seq<string>)
    ensures |r| == |fs|
    ensures forall k :: 0 <= k < |r| ==> r[k] == fs[k].name
  {
    if fs == [] then [] else Names(fs[..|fs| - 1]) + [fs[|fs| - 1].name]
  }

  function Product(fs: seq<Factor>): real {
    if fs == [] then 1.0 else Product(fs[..|fs| - 1]) * fs[|fs| - 1].distanceFactor
  }

  lemma Snoc(fs: seq<Factor>, f: Factor)
    ensures Product(fs + [f]) == Product(fs) * f.distanceFactor
    ensures Names(fs + [f]) == Names(fs) + [f.name]
  {
    assert (fs + [f])[..|fs|] == fs;
  }

  /** The surface the ball lies on: the flagged one, or fairway. */
  function Surface(input: Dict): Factor {
    var flagged := ActiveFactors(SurfaceTable, input);
    if flagged == [] then SurfaceTable[0] else flagged[0]
  }

  /** The factors that apply to a lie, in the order they are multiplied
      in: the surface, then every flagged slope in table order. */
  function LieFactors(input: Dict): seq<Factor> {
    [Surface(input)] + ActiveFactors(SlopeTable, input)
  }

  /** The combined distance factor of the lie, which lies in (0, 1]. */
  function NetFactor(input: Dict): (f: real)
    ensures 0.0 < f <= 1.0
  {
    LieFactorsInRange(input);
    ProductBounds(LieFactors(input));
    Product(LieFactors(input))
  }

  /** The distance the club should carry from the lie, before rounding. */
  function RequiredClubDistance(input: Dict): real
    requires BaseDistance(input).Some?
  {
    BaseDistance(input).value / NetFactor(input)
  }

  function TwoSurfacesDetail(first: string, second: string): string {
    "Only one surface type can be active at a time. Found both " + first + " and " + second + "."
  }

  datatype LieReport = LieReport(targetDistance: real, requiredClubDistance: real, activeConditions: seq<string>)

  /** The factors of a table the input flags, read up to index i. */
  lemma ActiveFactorsStep(table: seq<Factor>, input: Dict, i: nat)
    requires i < |table|
    ensures ActiveFactors(table[..i + 1], input)
            == ActiveFactors(table[..i], input) + (if Flagged(input, table[i].name) then [table[i]] else [])
  {
    assert table[..i + 1][..i] == table[..i];
  }

  /** The surface loop of calculate_lie_effect, over the surface table: a
      second flagged surface is an error naming the first two in table
      order; otherwise the flagged surface, or the table's first entry
      (fairway) when none is. */
  method ChooseSurface(table: seq<Factor>, input: Dict) returns (r: Outcome<Factor>)
    requires table != []
    ensures var flagged := ActiveFactors(table, input);
            |flagged| >= 2 ==> r == Failure(TwoSurfacesDetail(flagged[0].name, flagged[1].name), [])
    ensures var flagged := ActiveFactors(table, input);
            |flagged| <= 1 ==> r == Success(if flagged == [] then table[0] else flagged[0])
  {
    var activeSurface: Option<Factor> := None;
    var i := 0;
    while i < |table|
      invariant 0 <= i <= |table|
      invariant |ActiveFactors(table[..i], input)| <= 1
      invariant activeSurface.None? <==> ActiveFactors(table[..i], input) == []
      invariant activeSurface.Some? ==> ActiveFactors(table[..i], input) == [activeSurface.value]
    {
      ActiveFactorsStep(table, input, i);
      if Flagged(input, table[i].name) {
        if activeSurface.Some? {
          assert ActiveFactors(table[..i + 1], input) == [activeSurface.value, table[i]];
          ActiveFactorsPrefix(table, input, i + 1);
          ghost var flagged := ActiveFactors(table, input);
          assert flagged[0] == flagged[..2][0] == activeSurface.value;
          assert flagged[1] == flagged[..2][1] == table[i];
          return Failure(TwoSurfacesDetail(activeSurface.value.name, table[i].name), []);
        }
        activeSurface := Some(table[i]);
      }
      i := i + 1;
    }
    assert table[..i] == table;
    r := Success(if activeSurface.None? then table[0] else activeSurface.value);
  }

  /** The slope loop of calculate_lie_effect, over the slope table: the
      surface factor times every flagged slope factor, and the names of the
      conditions applied. */
  method ApplySlopes(slopes: seq<Factor>, input: Dict, surface: Factor) returns (net: real, conditions: seq<string>)
    ensures net == Product([surface] + ActiveFactors(slopes, input))
    ensures conditions == Names([surface] + ActiveFactors(slopes, input))
  {
    net := 1.0;
    net := net * surface.distanceFactor;
    conditions := [surface.name];
    SlopeStart(slopes, input, surface);
    var j := 0;
    while j < |slopes|
      invariant 0 <= j <= |slopes|
      invariant net == Product([surface] + ActiveFactors(slopes[..j], input))
      invariant conditions == Names([surface] + ActiveFactors(slopes[..j], input))
    {
      SlopeStep(slopes, input, surface, j, net, conditions);
      if Flagged(input, slopes[j].name) {
        net := net * slopes[j].distanceFactor;
        conditions := conditions + [slopes[j].name];
      }
      j := j + 1;
    }
    assert slopes[..j] == slopes;
  }

  /** Before the slope loop only the surface factor is applied. */
  lemma SlopeStart(table: seq<Factor>, input: Dict, surface: Factor)
    ensures Product([surface] + ActiveFactors(table[..0], input)) == 1.0 * surface.distanceFactor
    ensures Names([surface] + ActiveFactors(table[..0], input)) == [surface.name]
  {
    Snoc([], surface);
    assert table[..0] == [];
    assert [] + [surface] == [surface] + ActiveFactors(table[..0], input);
  }

  /** The factors applied after slope j: one more than before exactly
      when the input flags that slope. */
  lemma SlopeApplied(table: seq<Factor>, input: Dict, surface: Factor, j: nat)
    requires j < |table|
    ensures var before := [surface] + ActiveFactors(table[..j], input);
            var after := [surface] + ActiveFactors(table[..j + 1], input);
            after == before + (if Flagged(input, table[j].name) then [table[j]] else [])
  {
    ActiveFactorsStep(table, input, j);
  }

  /** One step of the slope loop: a flagged slope multiplies its factor
      into the running product and adds its name; an unflagged one changes
      nothing. */
  lemma SlopeStep(table: seq<Factor>, input: Dict, surface: Factor, j: nat, net: real, conditions: seq<string>)
    requires j < |table|
    requires net == Product([surface] + ActiveFactors(table[..j], input))
    requires conditions == Names([surface] + ActiveFactors(table[..j], input))
    ensures var after := [surface] + ActiveFactors(table[..j + 1], input);
            if Flagged(input, table[j].name) then
              Product(after) == net * table[j].distanceFactor && Names(after) == conditions + [table[j].name]
            else Product(after) == net && Names(after) == conditions
  {
    var before := [surface] + ActiveFactors(table[..j], input);
    SlopeApplied(table, input, surface, j);
    if Flagged(input, table[j].name) {
      Snoc(before, table[j]);
    } else {
      assert before + [] == before;
    }
  }

  /** calculate_lie_effect: the base distance is checked first; two flagged
      surfaces are an error naming the first two in table order; otherwise
      the club should carry the base distance divided by the product of the
      surface factor (fairway by default) and every flagged slope factor. */
  method CalculateLieEffect(input: Dict) returns (r: Outcome<LieReport>)
    ensures BaseDistance(input).None? ==> r == Failure(InvalidBaseDetail, [])
    ensures var flagged := ActiveFactors(SurfaceTable, input);
            BaseDistance(input).Some? && |flagged| >= 2 ==>
              r == Failure(TwoSurfacesDetail(flagged[0].name, flagged[1].name), [])
    ensures var base := BaseDistance(input);
            base.Some? && |ActiveFactors(SurfaceTable, input)| <= 1 ==>
              r == Success(LieReport(base.value, RoundTenth(RequiredClubDistance(input)), Names(LieFactors(input))))
  {
    var base := BaseDistance(input);
    if base.None? {
      return Failure(InvalidBaseDetail, []);
    }
    var surface := ChooseSurface(SurfaceTable, input);
    if surface.Failure? {
      return Failure(surface.error, []);
    }
    var net, conditions := ApplySlopes(SlopeTable, input, surface.value);
    var required := if net > 0.0 then base.value / net else base.value;
    r := Success(LieReport(base.value, RoundTenth(required), conditions));
  }

  /** When the first two flagged surfaces lie within table[..i], they are
      the first two flagged surfaces of the whole table. */
  lemma {:induction false} ActiveFactorsPrefix(table: seq<Factor>, input: Dict, i: nat)
    requires i <= |table|
    requires |ActiveFactors(table[..i], input)| >= 2
    ensures |ActiveFactors(table, input)| >= 2
    ensures ActiveFactors(table, input)[..2] == ActiveFactors(table[..i], input)[..2]
    decreases |table| - i
  {
    if i < |table| {
      ActiveFactorsStep(table, input, i);
      ActiveFactorsPrefix(table, input, i + 1);
    } else {
      assert table[..i] == table;
    }
  }

  /** Every factor lies in (0, 1]. */
  predicate Shrinking(fs: seq<Factor>) {
    forall k :: 0 <= k < |fs| ==> 0.0 < fs[k].distanceFactor <= 1.0
  }

  /** Multiplying by a factor in (0, 1] never grows a value in (0, 1],
      and a factor below 1 shrinks it. */
  lemma MulShrink(a: real, b: real)
    requires 0.0 < a <= 1.0 && 0.0 < b <= 1.0
    ensures 0.0 < a * b <= b && a * b <= a
    ensures a < 1.0 ==> a * b < b
    ensures b < 1.0 ==> a * b < a
  {
    assert b - a * b == (1.0 - a) * b;
    assert a - a * b == a * (1.0 - b);
  }

  /** A product of factors in (0, 1] lies in (0, 1], and is 1 exactly when
      every factor is 1. */
  lemma {:induction false} ProductBounds(fs: seq<Factor>)
    requires Shrinking(fs)
    ensures 0.0 < Product(fs) <= 1.0
    ensures Product(fs) == 1.0 <==> forall k :: 0 <= k < |fs| ==> fs[k].distanceFactor == 1.0
  {
    if fs != [] {
      var n := |fs| - 1;
      ProductBounds(fs[..n]);
      MulShrink(Product(fs[..n]), fs[n].distanceFactor);
      if Product(fs) == 1.0 {
        forall k | 0 <= k < |fs| ensures fs[k].distanceFactor == 1.0 {
          if k < n {
            assert fs[..n][k] == fs[k];
          }
        }
      }
      if forall k :: 0 <= k < |fs| ==> fs[k].distanceFactor == 1.0 {
        assert forall k :: 0 <= k < n ==> fs[..n][k].distanceFactor == 1.0;
      }
    }
  }

  /** Dividing a positive amount by a factor in (0, 1] never shrinks it,
      and leaves it unchanged only for the factor 1. */
  lemma DivideByShrinking(base: real, f: real)
    requires base > 0.0 && 0.0 < f <= 1.0
    ensures base / f >= base
    ensures base / f == base <==> f == 1.0
  {
    var q := base / f;
    assert q * f == base;
    assert (q - base) * f == base * (1.0 - f) >= 0.0;
    if q == base {
      assert base * f == base;
    }
  }

  /** The surface factor of a lie lies in (0, 1], and is 1 exactly on the
      fairway. */
  lemma SurfaceInTable(input: Dict)
    ensures 0.0 < Surface(input).distanceFactor <= 1.0
    ensures Surface(input).distanceFactor == 1.0 <==> Surface(input).name == "fairway"
  {
    var flagged := ActiveFactors(SurfaceTable, input);
    ActiveFactorsFromTable(SurfaceTable, input);
    if flagged != [] {
      assert flagged[0] in SurfaceTable;
    }
  }

  /** Every flagged slope costs distance. */
  lemma SlopesInTable(input: Dict)
    ensures forall k :: 0 <= k < |ActiveFactors(SlopeTable, input)| ==>
              0.0 < ActiveFactors(SlopeTable, input)[k].distanceFactor < 1.0
  {
    var slopes := ActiveFactors(SlopeTable, input);
    ActiveFactorsFromTable(SlopeTable, input);
    forall k | 0 <= k < |slopes| ensures 0.0 < slopes[k].distanceFactor < 1.0 {
      assert slopes[k] in SlopeTable;
    }
  }

  lemma LieFactorsInRange(input: Dict)
    ensures Shrinking(LieFactors(input))
  {
    SurfaceInTable(input);
    SlopesInTable(input);
    var fs := LieFactors(input);
    forall k | 0 <= k < |fs| ensures 0.0 < fs[k].distanceFactor <= 1.0 {
      if k > 0 {
        assert fs[k] == ActiveFactors(SlopeTable, input)[k - 1];
      }
    }
  }

  /** The club needs to carry at least the base distance, and exactly the
      base distance only from a flat fairway lie: every other surface and
      every slope costs distance. */
  lemma RequiredAtLeastBase(input: Dict)
    requires BaseDistance(input).Some?
    ensures RequiredClubDistance(input) >= BaseDistance(input).value
    ensures RequiredClubDistance(input) == BaseDistance(input).value <==>
              Surface(input).name == "fairway" && ActiveFactors(SlopeTable, input) == []
  {
    var fs := LieFactors(input);
    var slopes := ActiveFactors(SlopeTable, input);
    LieFactorsInRange(input);
    ProductBounds(fs);
    SurfaceInTable(input);
    SlopesInTable(input);
    DivideByShrinking(BaseDistance(input).value, NetFactor(input));
    if slopes != [] {
      assert fs[1] == slopes[0];
    }
  }

  // ---------------------------------------------------------------- ground

  /** A ground condition: how much of the normal roll the ball keeps, and
      how many clubs longer (positive) or shorter (negative) to take. */
  datatype Ground = Ground(name: string, rollFactor: real, clubAdjustment: real, rollAdjustmentText: string)

  const GroundTable: seq<Ground> := [
    Ground("wet", 0.92, 0.5, "-8.0%"),
    Ground("firm", 1.12, -0.5, "12.0%"),
    Ground("normal", 1.0, 0.0, "0%")]

  const GroundOptions: seq<string> := ["wet", "firm", "normal"]

  /** The accepted options are the table's names, in table order. */
  lemma GroundOptionsNamed()
    ensures |GroundOptions| == |GroundTable|
    ensures forall k :: 0 <= k < |GroundTable| ==> GroundOptions[k] == GroundTable[k].name
  {
  }

  /** The club advice, chosen by the sign of the club adjustment. */
  datatype ClubAdvice = HalfLonger | Longer(clubs: real) | HalfShorter | Shorter(clubs: real) | NormalClub

  function Advice(adjustment: real): (a: ClubAdvice)
    ensures adjustment > 0.0 <==> a.HalfLonger? || a.Longer?
    ensures adjustment < 0.0 <==> a.HalfShorter? || a.Shorter?
    ensures a.Longer? ==> a.clubs == adjustment
    ensures a.Shorter? ==> a.clubs == -adjustment
  {
    if adjustment > 0.0 then (if adjustment == 0.5 then HalfLonger else Longer(adjustment))
    else if adjustment < 0.0 then (if adjustment == -0.5 then HalfShorter else Shorter(-adjustment))
    else NormalClub
  }

  /** The advice text for the adjustments the table uses. */
  function AdviceText(a: ClubAdvice): string {
    match a
    case HalfLonger => "Consider a half-club longer than normal"
    case HalfShorter => "Consider a half-club shorter than normal"
    case NormalClub => "Use your normal club selection"
    case _ => ""
  }

  datatype GroundReport = GroundReport(
    groundCondition: string, baseDistance: real, totalDistance: real, carryDistance: real,
    rollDistance: real, rollAdjustment: string, advice: ClubAdvice)

  function InvalidGroundDetail(condition: string): string {
    "Invalid ground condition: '" + condition + "'. Valid options are 'wet', 'firm', or 'normal'."
  }

  /** The ground condition the request names, lower-cased ("" when absent). */
  function GroundCondition(input: Dict): string
    requires "ground_condition" in input ==> input["ground_condition"].VStr?
  {
    if "ground_condition" in input then Lower(input["ground_condition"].s) else ""
  }

  /** The total distance before rounding: 80% carry plus 20% roll scaled by
      the ground's roll factor. */
  function TotalDistance(base: real, g: Ground): real {
    base * 0.8 + base * 0.2 * g.rollFactor
  }

  /** calculate_ground_effect: the base distance is checked first, then the
      condition must be one of the table's; the report gives the carry, the
      adjusted roll and their total, and the club advice of the condition. */
  function CalculateGroundEffect(input: Dict): (r: Outcome<GroundReport>)
    requires "ground_condition" in input ==> input["ground_condition"].VStr?
    ensures BaseDistance(input).None? ==> r == Failure(InvalidBaseDetail, [])
    ensures BaseDistance(input).Some? && GroundCondition(input) !in GroundOptions ==>
              r == Failure(InvalidGroundDetail(GroundCondition(input)), GroundOptions)
    ensures r.Success? ==> BaseDistance(input).Some? && Reports(r.value, GroundCondition(input), BaseDistance(input).value)
  {
    var base := BaseDistance(input);
    if base.None? then Failure(InvalidBaseDetail, [])
    else GroundEffectOf(GroundCondition(input), base.value)
  }

  /** The index of the first table entry with that name; None exactly for
      a name that is not one of the options. */
  function GroundLookup(condition: string): (k: Option<nat>)
    ensures k.Some? ==> k.value < |GroundTable| && GroundTable[k.value].name == condition
    ensures k.None? <==> condition !in GroundOptions
  {
    GroundOptionsNamed();
    FirstIndex(GroundTable, (g: Ground) => g.name == condition)
  }

  /** The report for a known condition: the carry is 80% of the base, the
      roll 20% of it scaled by the condition's roll factor, the total their
      sum, each rounded to a tenth, with the condition's roll adjustment
      text and club advice. */
  ghost predicate Reports(report: GroundReport, condition: string, base: real) {
    && GroundLookup(condition).Some?
    && var g := GroundTable[GroundLookup(condition).value];
       && g.name == condition
       && report.groundCondition == condition
       && report.baseDistance == base
       && report.totalDistance == RoundTenth(TotalDistance(base, g))
       && report.carryDistance == RoundTenth(base * 0.8)
       && report.rollDistance == RoundTenth(base * 0.2 * g.rollFactor)
       && report.rollAdjustment == g.rollAdjustmentText
       && report.advice == Advice(g.clubAdjustment)
  }

  /** The part of calculate_ground_effect after the base distance check:
      the condition's table entry, or the error listing the options. */
  function GroundEffectOf(condition: string, base: real): (r: Outcome<GroundReport>)
    ensures r.Success? <==> condition in GroundOptions
    ensures condition !in GroundOptions ==> r == Failure(InvalidGroundDetail(condition), GroundOptions)
    ensures r.Success? ==> Reports(r.value, condition, base)
  {
    var k := GroundLookup(condition);
    if k.None? then Failure(InvalidGroundDetail(condition), GroundOptions)
    else
      var g := GroundTable[k.value];
      var carry := base * 0.8;
      var roll := base * 0.2 * g.rollFactor;
      assert carry + roll == TotalDistance(base, g);
      Success(GroundReport(condition, base, RoundTenth(carry + roll), RoundTenth(carry),
                           RoundTenth(roll), g.rollAdjustmentText, Advice(g.clubAdjustment)))
  }

  /** Wet ground shortens the shot and calls for a half club more, firm
      ground lengthens it and calls for a half club less, normal ground
      changes neither. */
  lemma GroundConditionsCompared(base: real)
    requires base > 0.0
    ensures TotalDistance(base, GroundTable[0]) < base && Advice(GroundTable[0].clubAdjustment) == HalfLonger
    ensures TotalDistance(base, GroundTable[1]) > base && Advice(GroundTable[1].clubAdjustment) == HalfShorter
    ensures TotalDistance(base, GroundTable[2]) == base && Advice(GroundTable[2].clubAdjustment) == NormalClub
  {
  }

  /** Only "wet", "firm" and "normal", in any letter case, are accepted. */
  lemma GroundConditionAccepted(input: Dict)
    requires "ground_condition" in input ==> input["ground_condition"].VStr?
    requires BaseDistance(input).Some?
    ensures CalculateGroundEffect(input).Success? <==> GroundCondition(input) in GroundOptions
  {
    var c := GroundCondition(input);
    if c in GroundOptions {
      var k :| 0 <= k < |GroundOptions| && GroundOptions[k] == c;
      assert GroundTable[k].name == c;
    }
  }
}
