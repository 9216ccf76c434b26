/** Asian handicap lines: decomposition into ordinary handicaps, settlement, and symmetry. */
module AsianHandicap {
  import opened Wrappers
  import opened Domain

  datatype LineClass = HalfGoal | Integer | Quarter | Unsupported

  datatype Component = Component(line: real, fraction: real)

  datatype LineProfile = LineProfile(line: real, class': LineClass, components: seq<Component>)

  datatype SettlementResult = Win | HalfWin | Push | HalfLoss | Loss

  datatype Settlement = Settlement(result: SettlementResult, grossReturn: real)

  datatype HandicapError = OddsTooLow | UnsupportedLine

  function Ceiling(x: real): int { 0 - (0.0 - x).Floor }

  /** The half lines just below and just above a quarter line. */
  function HalfLines(line: real): seq<Component> {
    var doubled := line * 2.0;
    [Component(doubled.Floor as real / 2.0, 0.5), Component(Ceiling(doubled) as real / 2.0, 0.5)]
  }

  function ClassOf(units: int): LineClass {
    if units % 4 == 0 then Integer else if units % 4 == 2 then HalfGoal else Quarter
  }

  function ProfileOf(line: real): LineProfile {
    var quarters := line * 4.0;
    if quarters.Floor as real != quarters then LineProfile(line, Unsupported, [])
    else
      var c := ClassOf(quarters.Floor);
      LineProfile(line, c, if c == Quarter then HalfLines(line) else [Component(line, 1.0)])
  }

  // ----- Settlement

  function OutcomeOf(adjusted: real): SettlementResult {
    if adjusted > 0.0 then Win else if adjusted == 0.0 then Push else Loss
  }

  function ReturnOf(outcome: SettlementResult, odds: Odds): real {
    match outcome
    case Win => odds
    case HalfWin => (odds + 1.0) / 2.0
    case Push => 1.0
    case HalfLoss => 0.5
    case Loss => 0.0
  }

  /** What one component returns of each unit staked. */
  function ShareOf(component: Component, goalDifference: int, odds: Odds): real {
    component.fraction * ReturnOf(OutcomeOf(goalDifference as real + component.line), odds)
  }

  /** The settlement read off the signed distance to the line, in quarter goals. */
  function Settled(quarters: int): SettlementResult {
    if quarters >= 2 then Win
    else if quarters == 1 then HalfWin
    else if quarters == 0 then Push
    else if quarters == -1 then HalfLoss
    else Loss
  }

  predicate OnQuarterGrid(line: real) {
    (line * 4.0).Floor as real == line * 4.0
  }

  function Quarters(line: real): int { (line * 4.0).Floor }

  /**
    Settles every component and combines the outcomes. A combination other than one outcome
    alone, or a push beside a win or a loss, cannot arise.
   */
  method SettleAsianHandicap(line: real, goalDifference: int, odds: real) returns (r: Result<Settlement, HandicapError>)
    ensures r == if odds <= 1.0 then Err(OddsTooLow)
                 else if !OnQuarterGrid(line) then Err(UnsupportedLine)
                 else var result := Settled(4 * goalDifference + Quarters(line));
                      Ok(Settlement(result, ReturnOf(result, odds)))
  {
    if odds <= 1.0 {
      return Err(OddsTooLow);
    }
    var profile := ProfileOf(line);
    if profile.class' == Unsupported {
      return Err(UnsupportedLine);
    }
    var results: set<SettlementResult>, gross := {}, 0.0;
    for i := 0 to |profile.components|
      invariant i == 0 ==> results == {} && gross == 0.0
      invariant i >= 1 ==>
        gross == ShareOf(profile.components[0], goalDifference, odds)
                 + if i == 1 then 0.0 else ShareOf(profile.components[1], goalDifference, odds)
      invariant i == 1 ==> results == {OutcomeOf(goalDifference as real + profile.components[0].line)}
      invariant i == 2 ==> results == {OutcomeOf(goalDifference as real + profile.components[0].line),
                                       OutcomeOf(goalDifference as real + profile.components[1].line)}
    {
      var outcome := OutcomeOf(goalDifference as real + profile.components[i].line);
      results := results + {outcome};
      gross := gross + profile.components[i].fraction * ReturnOf(outcome, odds);
    }
    ComponentOutcomes(line, goalDifference);
    var result :=
      if results == {Win} then Win
      else if results == {Loss} then Loss
      else if results == {Push} then Push
      else if results == {Win, Push} then HalfWin
      else if results == {Loss, Push} then HalfLoss
      else assert false; Push;
    return Ok(Settlement(result, gross));
  }

  /** The components are half a quarter-line apart, so only neighbouring outcomes combine. */
  lemma ComponentOutcomes(line: real, goalDifference: int)
    requires OnQuarterGrid(line)
    ensures var components, d := ProfileOf(line).components, 4 * goalDifference + Quarters(line);
      && 1 <= |components| <= 2
      && components[0].fraction == (if |components| == 1 then 1.0 else 0.5)
      && (|components| == 2 ==> components[1].fraction == 0.5)
      && d == 2 * (2 * goalDifference + Quarters(line) / 2) + (|components| - 1)
      && OutcomeOf(goalDifference as real + components[0].line)
        == (if d >= 2 then Win else if d >= 0 then Push else Loss)
      && (|components| == 2 ==>
            OutcomeOf(goalDifference as real + components[1].line)
              == (if d >= 1 then Win else if d >= -1 then Push else Loss))
  {
    hide ProfileOf, OutcomeOf, Quarters, InUnits, OnQuarterGrid, ClassOf;
    var units := Quarters(line);
    UnitsOf(line);
    ProfileByUnits(line, units);
    Parity(units);
    var components := ProfileOf(line).components;
    if ClassOf(units) != Quarter {
      OutcomeByUnits(goalDifference, components[0].line, units);
    } else {
      OutcomeByUnits(goalDifference, components[0].line, units - 1);
      OutcomeByUnits(goalDifference, components[1].line, units + 1);
    }
  }

  lemma OutcomeByUnits(goalDifference: int, line: real, units: int)
    requires InUnits(line, units)
    ensures OutcomeOf(goalDifference as real + line)
            == (if 4 * goalDifference + units > 0 then Win else if 4 * goalDifference + units == 0 then Push else Loss)
  {
    assert (goalDifference as real + line) * 4.0 == (4 * goalDifference + units) as real;
  }

  /** A line that is `units` quarters. */
  predicate InUnits(line: real, units: int) { line * 4.0 == units as real }

  lemma UnitsOf(line: real)
    requires OnQuarterGrid(line)
    ensures InUnits(line, Quarters(line))
  {
  }

  lemma UnitsAre(line: real, units: int)
    requires InUnits(line, units)
    ensures OnQuarterGrid(line) && Quarters(line) == units
    ensures ProfileOf(line).class' == ClassOf(units)
    ensures ProfileOf(line).components == if ClassOf(units) == Quarter then HalfLines(line) else [Component(line, 1.0)]
  {
    hide ClassOf, HalfLines;
  }

  lemma Parity(units: int)
    ensures units == 2 * (units / 2) + (if ClassOf(units) == Quarter then 1 else 0)
  {
    var q, r := units / 4, units % 4;
    assert units == 4 * q + r && (r == 0 || r == 1 || r == 2 || r == 3);
    if r == 0 {
      HalfOf(units, 2 * q);
    } else if r == 1 {
      HalfOf(units - 1, 2 * q);
    } else if r == 2 {
      HalfOf(units, 2 * q + 1);
    } else {
      HalfOf(units - 1, 2 * q + 1);
    }
  }

  lemma HalfOf(n: int, h: int)
    requires n == 2 * h
    ensures n / 2 == h && (n + 1) / 2 == h
  {
  }

  /** Rounding twice a quarter line down and up gives the half lines around it. */
  lemma HalvesOf(line: real, half: int)
    requires InUnits(line, 2 * half + 1)
    ensures var c := HalfLines(line);
      c[0].fraction == c[1].fraction == 0.5 && InUnits(c[0].line, 2 * half) && InUnits(c[1].line, 2 * half + 2)
  {
    FloorIs(line * 2.0, half);
    FloorIs(0.0 - line * 2.0, 0 - half - 1);
  }

  lemma FloorIs(x: real, n: int)
    requires n as real <= x < n as real + 1.0
    ensures x.Floor == n
  {
  }

  /** The profile in quarter units: a quarter line splits into the two half lines around it. */
  lemma ProfileByUnits(line: real, units: int)
    requires InUnits(line, units)
    ensures Quarters(line) == units && OnQuarterGrid(line)
    ensures var p := ProfileOf(line);
      && p.class' == ClassOf(units)
      && (ClassOf(units) != Quarter ==> p.components == [Component(line, 1.0)])
      && (ClassOf(units) == Quarter ==>
            && |p.components| == 2 && p.components[0].fraction == p.components[1].fraction == 0.5
            && InUnits(p.components[0].line, units - 1) && InUnits(p.components[1].line, units + 1))
  {
    hide InUnits, ProfileOf, ClassOf;
    UnitsAre(line, units);
    Parity(units);
    if ClassOf(units) == Quarter {
      HalvesOf(line, units / 2);
    }
  }

  // ----- Laws

  /** The components' fractions make one whole, and their lines average to the line. */
  lemma ComponentsAverage(line: real)
    requires OnQuarterGrid(line)
    ensures var c := ProfileOf(line).components;
      && (|c| == 1 || |c| == 2)
      && (|c| == 1 ==> c[0].fraction == 1.0 && c[0].line == line)
      && (|c| == 2 ==> c[0].fraction + c[1].fraction == 1.0 && c[0].line < line < c[1].line
                       && c[0].fraction * c[0].line + c[1].fraction * c[1].line == line)
  {
    ProfileByUnits(line, Quarters(line));
  }

  function Swapped(result: SettlementResult): SettlementResult {
    match result
    case Win => Loss
    case HalfWin => HalfLoss
    case Push => Push
    case HalfLoss => HalfWin
    case Loss => Win
  }

  function SettledAt(line: real, goalDifference: int): SettlementResult {
    Settled(4 * goalDifference + Quarters(line))
  }

  /** The opponent's side of a line settles the other way round. */
  lemma MirrorSwaps(line: real, goalDifference: int)
    requires OnQuarterGrid(line)
    ensures OnQuarterGrid(0.0 - line)
    ensures SettledAt(0.0 - line, 0 - goalDifference) == Swapped(SettledAt(line, goalDifference))
  {
    ProfileByUnits(0.0 - line, 0 - Quarters(line));
  }

  /** A line is a half-goal line exactly when it never settles as anything but a win or a loss. */
  lemma HalfGoalIffTwoOutcomes(line: real)
    requires OnQuarterGrid(line)
    ensures ProfileOf(line).class' == HalfGoal
            <==> forall d: int :: SettledAt(line, d) == Win || SettledAt(line, d) == Loss
  {
    hide ProfileOf, Quarters, Settled, InUnits, OnQuarterGrid;
    var units := Quarters(line);
    UnitsOf(line);
    ProfileByUnits(line, units);
    forall d: int
      ensures units % 4 == 2 ==> SettledAt(line, d) == Win || SettledAt(line, d) == Loss
    {
      NearTheLine(units, d);
    }
    if units % 4 != 2 {
      var d := 0 - (units + 1) / 4;
      NearTheLine(units, d);
      assert SettledAt(line, d) != Win && SettledAt(line, d) != Loss;
    }
  }

  /** Only a half-goal line keeps its distance from every goal difference. */
  lemma NearTheLine(units: int, d: int)
    ensures units % 4 == 2 ==> Settled(4 * d + units) == Win || Settled(4 * d + units) == Loss
    ensures units % 4 != 2 && d == 0 - (units + 1) / 4 ==>
      Settled(4 * d + units) != Win && Settled(4 * d + units) != Loss
  {
    assert units == 4 * (units / 4) + units % 4;
  }

  /** What both sides return together when each stakes one unit of payout. */
  function EqualisedReturn(line: real, goalDifference: int, odds: Odds, opposite: Odds): real {
    ReturnOf(SettledAt(line, goalDifference), odds) / odds
    + ReturnOf(SettledAt(0.0 - line, 0 - goalDifference), opposite) / opposite
  }

  function EqualisedStake(odds: Odds, opposite: Odds): real { 1.0 / odds + 1.0 / opposite }

  /** The two settlements add up to the payout, to the stakes, or to the average of both. */
  lemma EqualisedByResult(line: real, goalDifference: int, odds: Odds, opposite: Odds)
    requires OnQuarterGrid(line)
    ensures var staked := EqualisedStake(odds, opposite);
      EqualisedReturn(line, goalDifference, odds, opposite)
      == match SettledAt(line, goalDifference)
         case Push => staked
         case HalfWin => (1.0 + staked) / 2.0
         case HalfLoss => (1.0 + staked) / 2.0
         case _ => 1.0
  {
    MirrorSwaps(line, goalDifference);
  }

  /**
    Equalised stakes on both sides of a line with an implied sum below one never return
    less than was staked; they return strictly more at every goal difference exactly when
    the line is not an integer.
   */
  lemma EqualisedStakesSafe(line: real, odds: Odds, opposite: Odds)
    requires OnQuarterGrid(line) && EqualisedStake(odds, opposite) < 1.0
    ensures forall d: int :: EqualisedReturn(line, d, odds, opposite) >= EqualisedStake(odds, opposite)
    ensures ProfileOf(line).class' != Integer
            <==> forall d: int :: EqualisedReturn(line, d, odds, opposite) > EqualisedStake(odds, opposite)
  {
    hide ProfileOf, Quarters, EqualisedReturn, EqualisedStake, InUnits, OnQuarterGrid;
    var units := Quarters(line);
    UnitsOf(line);
    ProfileByUnits(line, units);
    forall d: int
      ensures EqualisedReturn(line, d, odds, opposite) >= EqualisedStake(odds, opposite)
      ensures SettledAt(line, d) != Push ==> EqualisedReturn(line, d, odds, opposite) > EqualisedStake(odds, opposite)
      ensures SettledAt(line, d) == Push ==> EqualisedReturn(line, d, odds, opposite) == EqualisedStake(odds, opposite)
    {
      EqualisedByResult(line, d, odds, opposite);
    }
    forall d: int
      ensures SettledAt(line, d) == Push <==> 4 * d + units == 0
    {
    }
    if units % 4 == 0 {
      var d := 0 - units / 4;
      assert SettledAt(line, d) == Push;
      assert !(EqualisedReturn(line, d, odds, opposite) > EqualisedStake(odds, opposite));
    } else {
      assert forall d: int :: 4 * d + units != 0;
    }
  }
}
