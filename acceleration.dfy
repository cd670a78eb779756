/** The per-cycle acceleration limits: `FrogPilotAcceleration.update` picks the
    upper bound `max_accel` from a first-match-wins ladder of curves, optionally
    tightens it twice for human-like ramping, and picks the lower bound
    `min_accel` from a second, independent ladder. */
module Acceleration {
  import opened Curves

  /** The fields of the car-state message that the update reads. */
  datatype CarState = CarState(
    ecoGear: bool,
    sportGear: bool,
    trafficModeEnabled: bool,
    forceCoast: bool)

  /** The user toggles that the update reads; profile 1 is Eco and profile 2 is Sport. */
  datatype Toggles = Toggles(
    accelerationProfile: int,
    decelerationProfile: int,
    mapAcceleration: bool,
    mapDeceleration: bool,
    sportPlus: bool,
    humanAcceleration: bool)

  /** Definitions that come from the longitudinal planner and the shared variables:
      the default maximum-acceleration curve, the base lower bound and the city
      speed limit. Nothing is assumed about their values. */
  datatype Externals = Externals(
    getMaxAccel: real -> real,
    aCruiseMin: real,
    citySpeedLimit: real)

  /** The curve the upper-bound ladder samples. */
  datatype MaxCurve = DefaultCurve | EcoCurve | SportCurve | SportPlusCurve

  /** The scalar the lower-bound ladder selects. */
  datatype MinLimit = BaseLimit | EcoLimit | SportLimit

  /** Python's `min(a, b)`: the smaller argument, the first one on a tie. */
  function Min(a: real, b: real): (r: real)
    ensures r <= a && r <= b
    ensures r == a || r == b
  {
    if b < a then b else a
  }

  /** The upper-bound ladder: traffic mode, then gear following, then the profile. */
  function SelectMaxCurve(cs: CarState, tg: Toggles): (c: MaxCurve)
    ensures cs.trafficModeEnabled ==> c == DefaultCurve
    ensures c == SportPlusCurve ==> tg.sportPlus && !cs.trafficModeEnabled
    ensures c == EcoCurve ==> !cs.trafficModeEnabled && (cs.ecoGear || tg.accelerationProfile == 1)
  {
    if cs.trafficModeEnabled then DefaultCurve
    else if tg.mapAcceleration && (cs.ecoGear || cs.sportGear) then
      if cs.ecoGear then EcoCurve
      else if tg.sportPlus then SportPlusCurve
      else SportCurve
    else if tg.accelerationProfile == 1 then EcoCurve
    else if tg.accelerationProfile == 2 then SportCurve
    else if tg.sportPlus then SportPlusCurve
    else DefaultCurve
  }

  /** The cap a selected curve gives at the current speed: the planner's default
      curve as it is, a custom curve between 0.2 and 4.0. */
  function SampleMaxCurve(c: MaxCurve, vEgo: real, ext: Externals): (r: real)
    ensures c == DefaultCurve ==> r == ext.getMaxAccel(vEgo)
    ensures c != DefaultCurve ==> 0.2 <= r <= 4.0
  {
    match c
    case DefaultCurve => ext.getMaxAccel(vEgo)
    case EcoCurve => MaxAccelEco(vEgo)
    case SportCurve => MaxAccelSport(vEgo)
    case SportPlusCurve => MaxAccelSportPlus(vEgo)
  }

  /** Human-like refinement: the low-speed cap at the cruise speed, then the ramp-off
      cap at the gap to the cruise speed, each taken as a minimum with the current
      cap. It never raises the cap, and leaves at most 0 once the car has reached
      its cruise speed. */
  function HumanRefine(maxAccel: real, vCruise: real, vEgo: real, citySpeedLimit: real): (r: real)
    ensures r <= maxAccel
    ensures vCruise <= vEgo ==> r <= 0.0
  {
    var lowSpeed := Min(MaxAccelLowSpeeds(maxAccel, vCruise, citySpeedLimit), maxAccel);
    Min(MaxAccelRampOff(lowSpeed, vCruise, vEgo), lowSpeed)
  }

  /** The upper bound after one update: the ladder's cap, never raised by the
      optional refinement. */
  function CycleMaxAccel(vEgo: real, vCruise: real, cs: CarState, tg: Toggles, ext: Externals): (r: real)
    ensures r <= SampleMaxCurve(SelectMaxCurve(cs, tg), vEgo, ext)
    ensures !tg.humanAcceleration ==> r == SampleMaxCurve(SelectMaxCurve(cs, tg), vEgo, ext)
    ensures tg.humanAcceleration && vCruise <= vEgo ==> r <= 0.0
  {
    var ladder := SampleMaxCurve(SelectMaxCurve(cs, tg), vEgo, ext);
    if tg.humanAcceleration then HumanRefine(ladder, vCruise, vEgo, ext.citySpeedLimit) else ladder
  }

  /** The lower-bound ladder: forced coasting, then gear following, then the profile. */
  function SelectMinLimit(cs: CarState, tg: Toggles): (l: MinLimit)
    ensures cs.forceCoast ==> l == EcoLimit
    ensures l == SportLimit ==> !cs.forceCoast && (cs.sportGear || tg.decelerationProfile == 2)
    ensures l == BaseLimit ==> !cs.forceCoast && tg.decelerationProfile != 1 && tg.decelerationProfile != 2
  {
    if cs.forceCoast then EcoLimit
    else if tg.mapDeceleration && (cs.ecoGear || cs.sportGear) then
      if cs.ecoGear then EcoLimit else SportLimit
    else if tg.decelerationProfile == 1 then EcoLimit
    else if tg.decelerationProfile == 2 then SportLimit
    else BaseLimit
  }

  /** `A_CRUISE_MIN_ECO`: half the base lower bound. */
  function ACruiseMinEco(aCruiseMin: real): (r: real)
    ensures 2.0 * r == aCruiseMin
    ensures aCruiseMin <= 0.0 ==> aCruiseMin <= r <= 0.0
  {
    aCruiseMin / 2.0
  }

  /** `A_CRUISE_MIN_SPORT`: twice the base lower bound. */
  function ACruiseMinSport(aCruiseMin: real): (r: real)
    ensures r / 2.0 == aCruiseMin
    ensures aCruiseMin <= 0.0 ==> r <= aCruiseMin
  {
    aCruiseMin * 2.0
  }

  /** The value of a lower-bound choice; for a braking base bound every choice lies
      between the Sport and the Eco value. */
  function MinLimitValue(l: MinLimit, aCruiseMin: real): (r: real)
    ensures l == BaseLimit ==> r == aCruiseMin
    ensures aCruiseMin <= 0.0 ==> ACruiseMinSport(aCruiseMin) <= r <= ACruiseMinEco(aCruiseMin)
  {
    match l
    case BaseLimit => aCruiseMin
    case EcoLimit => ACruiseMinEco(aCruiseMin)
    case SportLimit => ACruiseMinSport(aCruiseMin)
  }

  /** The lower bound after one update: half the base bound under forced coasting,
      and for a braking base bound always between twice and half of it. */
  function CycleMinAccel(cs: CarState, tg: Toggles, ext: Externals): (r: real)
    ensures cs.forceCoast ==> r == ext.aCruiseMin / 2.0
    ensures ext.aCruiseMin <= 0.0 ==> ext.aCruiseMin * 2.0 <= r <= ext.aCruiseMin / 2.0
  {
    MinLimitValue(SelectMinLimit(cs, tg), ext.aCruiseMin)
  }

  /** Traffic mode selects the default curve whatever the toggles and gear flags:
      the ladder's cap is then the planner's own `get_max_accel` at the current speed. */
  lemma TrafficModeWins(cs: CarState, tg: Toggles, tg': Toggles, eco: bool, sport: bool, vEgo: real, ext: Externals)
    requires cs.trafficModeEnabled
    ensures SelectMaxCurve(cs, tg) == DefaultCurve
    ensures SelectMaxCurve(cs.(ecoGear := eco, sportGear := sport), tg') == DefaultCurve
    ensures SampleMaxCurve(SelectMaxCurve(cs, tg), vEgo, ext) == ext.getMaxAccel(vEgo)
  {}

  /** With gear following on and a gear flag set (and no traffic mode), the gear
      decides and the acceleration profile is ignored; the eco gear wins over the
      sport gear. */
  lemma GearOverridesProfile(cs: CarState, tg: Toggles, profile: int)
    requires !cs.trafficModeEnabled && tg.mapAcceleration && (cs.ecoGear || cs.sportGear)
    ensures SelectMaxCurve(cs, tg) == SelectMaxCurve(cs, tg.(accelerationProfile := profile))
    ensures cs.ecoGear ==> SelectMaxCurve(cs, tg) == EcoCurve
    ensures !cs.ecoGear ==> SelectMaxCurve(cs, tg) == (if tg.sportPlus then SportPlusCurve else SportCurve)
  {}

  /** Without gear following the gear flags do not matter for the upper bound, and
      whenever neither traffic mode nor gear following applies (gear following off,
      or on with no gear flag set) the profile alone decides. */
  lemma GearIgnoredWithoutMapping(cs: CarState, tg: Toggles, eco: bool, sport: bool)
    ensures !tg.mapAcceleration ==>
      SelectMaxCurve(cs, tg) == SelectMaxCurve(cs.(ecoGear := eco, sportGear := sport), tg)
    ensures !cs.trafficModeEnabled && !(tg.mapAcceleration && (cs.ecoGear || cs.sportGear)) ==>
      SelectMaxCurve(cs, tg) ==
        (if tg.accelerationProfile == 1 then EcoCurve
         else if tg.accelerationProfile == 2 then SportCurve
         else if tg.sportPlus then SportPlusCurve
         else DefaultCurve)
  {}

  /** The SportPlus curve is chosen only with the sport-plus toggle on, and the
      default curve only in traffic mode or when no gear and no Eco/Sport profile applies. */
  lemma CurveSelectionConditions(cs: CarState, tg: Toggles)
    ensures SelectMaxCurve(cs, tg) == SportPlusCurve ==> tg.sportPlus
    ensures SelectMaxCurve(cs, tg) == DefaultCurve <==>
      cs.trafficModeEnabled ||
      (!(tg.mapAcceleration && (cs.ecoGear || cs.sportGear)) &&
       tg.accelerationProfile != 1 && tg.accelerationProfile != 2 && !tg.sportPlus)
  {}

  /** Whenever the ladder picks one of the three custom curves, its cap lies between
      0.2 and 4.0 m/s², and following the eco gear never allows more than following
      the sport gear would. */
  lemma CustomCurveBounds(cs: CarState, tg: Toggles, vEgo: real, ext: Externals)
    requires SelectMaxCurve(cs, tg) != DefaultCurve
    ensures 0.2 <= SampleMaxCurve(SelectMaxCurve(cs, tg), vEgo, ext) <= 4.0
    ensures !cs.trafficModeEnabled && tg.mapAcceleration && cs.ecoGear ==>
      SampleMaxCurve(SelectMaxCurve(cs, tg), vEgo, ext) <=
      SampleMaxCurve(SelectMaxCurve(cs.(ecoGear := false, sportGear := true), tg), vEgo, ext)
  {
    ProfilesOrdered(vEgo);
  }

  /** With human-like ramping the final upper bound never exceeds the ladder's
      value, and it is at most 0 once the cruise speed is not above the current speed. */
  lemma RefinementNeverRaises(vEgo: real, vCruise: real, cs: CarState, tg: Toggles, ext: Externals)
    requires tg.humanAcceleration
    ensures CycleMaxAccel(vEgo, vCruise, cs, tg, ext) <= SampleMaxCurve(SelectMaxCurve(cs, tg), vEgo, ext)
    ensures vCruise <= vEgo ==> CycleMaxAccel(vEgo, vCruise, cs, tg, ext) <= 0.0
  {}

  /** The refinement keeps a non-negative cap non-negative: it may lower it to 0
      but never turns it into a braking request. */
  lemma RefinementKeepsNonNegative(maxAccel: real, vCruise: real, vEgo: real, citySpeedLimit: real)
    requires maxAccel >= 0.0
    ensures 0.0 <= HumanRefine(maxAccel, vCruise, vEgo, citySpeedLimit) <= maxAccel
  {
    var lowSpeed := Min(MaxAccelLowSpeeds(maxAccel, vCruise, citySpeedLimit), maxAccel);
    assert lowSpeed >= 0.0;
    assert MaxAccelRampOff(lowSpeed, vCruise, vEgo) >= 0.0;
  }

  /** Cruising at a positive speed at or above the city speed limit with the cruise
      speed at least 10 m/s above the current speed, the refinement leaves the cap
      unchanged. A cruise speed of 0 or below samples the low-speed table at its
      first breakpoint and gives a quarter of the cap instead. */
  lemma RefinementInactiveWhenFarBelowCruise(maxAccel: real, vCruise: real, vEgo: real, citySpeedLimit: real)
    requires vCruise > 0.0 && vCruise >= citySpeedLimit
    requires vCruise - vEgo >= 10.0
    ensures HumanRefine(maxAccel, vCruise, vEgo, citySpeedLimit) == maxAccel
  {}

  /** The ramp-off caps are absolute: one m/s below the cruise speed the refined cap
      is at most 0.5, five m/s below it at most 1.0, whatever the ladder chose. */
  lemma RampOffCapsAbsolute(maxAccel: real, vCruise: real, vEgo: real, citySpeedLimit: real)
    ensures vCruise - vEgo == 1.0 ==> HumanRefine(maxAccel, vCruise, vEgo, citySpeedLimit) <= 0.5
    ensures vCruise - vEgo == 5.0 ==> HumanRefine(maxAccel, vCruise, vEgo, citySpeedLimit) <= 1.0
  {
    var lowSpeed := Min(MaxAccelLowSpeeds(maxAccel, vCruise, citySpeedLimit), maxAccel);
    RampOffAbsoluteAtBreakpoints(lowSpeed, vCruise, vEgo);
  }

  /** Forced coasting selects the Eco lower bound whatever the gear flags and the
      deceleration toggles. */
  lemma ForceCoastWins(cs: CarState, tg: Toggles, tg': Toggles, ext: Externals)
    requires cs.forceCoast
    ensures CycleMinAccel(cs, tg, ext) == ext.aCruiseMin / 2.0
    ensures CycleMinAccel(cs, tg, ext) == CycleMinAccel(cs.(ecoGear := !cs.ecoGear, sportGear := !cs.sportGear), tg', ext)
  {}

  /** Without forced coasting, deceleration gear following with a gear flag set
      gives Eco for the eco gear and Sport otherwise, ignoring the profile; without
      it the profile decides. */
  lemma MinLadderPrecedence(cs: CarState, tg: Toggles, ext: Externals)
    requires !cs.forceCoast
    ensures tg.mapDeceleration && cs.ecoGear ==> CycleMinAccel(cs, tg, ext) == ext.aCruiseMin / 2.0
    ensures tg.mapDeceleration && !cs.ecoGear && cs.sportGear ==> CycleMinAccel(cs, tg, ext) == ext.aCruiseMin * 2.0
    ensures !(tg.mapDeceleration && (cs.ecoGear || cs.sportGear)) ==>
      CycleMinAccel(cs, tg, ext) ==
        (if tg.decelerationProfile == 1 then ext.aCruiseMin / 2.0
         else if tg.decelerationProfile == 2 then ext.aCruiseMin * 2.0
         else ext.aCruiseMin)
  {}

  /** When the base lower bound is a braking value (not positive), Eco brakes least
      and Sport most: Sport <= base <= Eco <= 0. */
  lemma MinLimitsOrdered(aCruiseMin: real)
    requires aCruiseMin <= 0.0
    ensures MinLimitValue(SportLimit, aCruiseMin) <= MinLimitValue(BaseLimit, aCruiseMin)
    ensures MinLimitValue(BaseLimit, aCruiseMin) <= MinLimitValue(EcoLimit, aCruiseMin) <= 0.0
  {}

  /** The planner the update reads its cruise speed from. */
  class Planner {
    var vCruise: real

    constructor (vCruise: real)
      ensures this.vCruise == vCruise
    {
      this.vCruise := vCruise;
    }
  }

  class FrogPilotAcceleration {
    const planner: Planner
    var maxAccel: real
    var minAccel: real

    /** `__init__`: keeps the planner and starts both bounds at 0. */
    constructor (planner: Planner)
      ensures this.planner == planner
      ensures maxAccel == 0.0 && minAccel == 0.0
    {
      this.planner := planner;
      maxAccel := 0.0;
      minAccel := 0.0;
    }

    /** `update`: writes both bounds on every path as functions of this cycle's
        inputs and the planner's cruise speed alone (the previous bounds are never
        read), and changes nothing else. Through the contracts of CycleMaxAccel and
        CycleMinAccel the new upper bound never exceeds the ladder's cap, and the new
        lower bound is half the base bound under forced coasting. */
    method Update(vEgo: real, cs: CarState, tg: Toggles, ext: Externals)
      modifies this
      ensures maxAccel == CycleMaxAccel(vEgo, planner.vCruise, cs, tg, ext)
      ensures minAccel == CycleMinAccel(cs, tg, ext)
    {
      var ecoGear := cs.ecoGear;
      var sportGear := cs.sportGear;

      ghost var curve := SelectMaxCurve(cs, tg);
      if cs.trafficModeEnabled {
        maxAccel := ext.getMaxAccel(vEgo);
      } else if tg.mapAcceleration && (ecoGear || sportGear) {
        if ecoGear {
          maxAccel := MaxAccelEco(vEgo);
        } else if tg.sportPlus {
          maxAccel := MaxAccelSportPlus(vEgo);
        } else {
          maxAccel := MaxAccelSport(vEgo);
        }
      } else if tg.accelerationProfile == 1 {
        maxAccel := MaxAccelEco(vEgo);
      } else if tg.accelerationProfile == 2 {
        maxAccel := MaxAccelSport(vEgo);
      } else if tg.sportPlus {
        maxAccel := MaxAccelSportPlus(vEgo);
      } else {
        maxAccel := ext.getMaxAccel(vEgo);
      }
      ghost var ladder := maxAccel;
      assert ladder == SampleMaxCurve(curve, vEgo, ext);

      if tg.humanAcceleration {
        maxAccel := Min(MaxAccelLowSpeeds(maxAccel, planner.vCruise, ext.citySpeedLimit), maxAccel);
        maxAccel := Min(MaxAccelRampOff(maxAccel, planner.vCruise, vEgo), maxAccel);
      }

      assert maxAccel == CycleMaxAccel(vEgo, planner.vCruise, cs, tg, ext);

      ghost var limit := SelectMinLimit(cs, tg);
      if cs.forceCoast {
        minAccel := ACruiseMinEco(ext.aCruiseMin);
      } else if tg.mapDeceleration && (ecoGear || sportGear) {
        if ecoGear {
          minAccel := ACruiseMinEco(ext.aCruiseMin);
        } else {
          minAccel := ACruiseMinSport(ext.aCruiseMin);
        }
      } else if tg.decelerationProfile == 1 {
        minAccel := ACruiseMinEco(ext.aCruiseMin);
      } else if tg.decelerationProfile == 2 {
        minAccel := ACruiseMinSport(ext.aCruiseMin);
      } else {
        minAccel := ext.aCruiseMin;
      }
      assert minAccel == MinLimitValue(limit, ext.aCruiseMin);
    }
  }
}
