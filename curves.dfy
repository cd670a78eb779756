/** The speed-indexed acceleration curves: the Eco, Sport and SportPlus tables
    over one set of breakpoints, the low-speed and ramp-off caps, and the
    maximum allowed acceleration. Every curve is sampled with the quintic kernel. */
module Curves {
  import opened Interp

  /** Speed breakpoints shared by the three profile tables (m/s). */
  const CustomBreakpoints: seq<real> := [0.0, 5.0, 10.0, 15.0, 20.0, 25.0, 40.0]
  const EcoValues: seq<real> := [2.0, 1.5, 1.0, 0.8, 0.6, 0.4, 0.2]
  const SportValues: seq<real> := [3.0, 2.5, 2.0, 1.5, 1.0, 0.8, 0.6]
  const SportPlusValues: seq<real> := [4.0, 3.5, 3.0, 2.5, 2.0, 1.5, 1.0]

  /** Breakpoints of the ramp-off cap, indexed by cruise speed minus current speed. */
  const RampOffBreakpoints: seq<real> := [0.0, 1.0, 5.0, 10.0]
  /** Breakpoints and values of the maximum allowed acceleration (ISO 15622:2018). */
  const AllowedBreakpoints: seq<real> := [0.0, 5.0, 20.0]
  const AllowedValues: seq<real> := [4.0, 4.0, 2.0]

  /** The ramp-off value table for a current cap m: absolute values 0, 0.5 and 1.0,
      then m. It pairs with the ramp-off breakpoints, starts at 0, and only its last
      entry depends on the cap. */
  function RampOffValues(maxAccel: real): (r: seq<real>)
    ensures Table(RampOffBreakpoints, r)
    ensures r[0] == 0.0 && r[|r| - 1] == maxAccel
    ensures forall k :: 0 <= k < |r| - 1 ==> 0.0 <= r[k] <= 1.0
  {
    [0.0, 0.5, 1.0, maxAccel]
  }

  /** The low-speed breakpoints [0, C/2, C] for the city speed limit C: three
      breakpoints from 0 to C, strictly increasing whenever C is positive. */
  function LowSpeedBreakpoints(citySpeedLimit: real): (r: seq<real>)
    ensures |r| == 3 && r[0] == 0.0 && r[2] == citySpeedLimit
    ensures citySpeedLimit > 0.0 ==> StrictlyIncreasing(r)
  {
    [0.0, citySpeedLimit / 2.0, citySpeedLimit]
  }

  /** The low-speed value table for a current cap m: a quarter, a half and all of
      m, so every entry lies between m/4 and m, rising when m is non-negative. */
  function LowSpeedValues(maxAccel: real): (r: seq<real>)
    ensures |r| == 3 && r[2] == maxAccel
    ensures forall k :: 0 <= k < |r| ==> Between(r[k], maxAccel / 4.0, maxAccel)
    ensures maxAccel >= 0.0 ==> r[0] <= r[1] <= r[2]
  {
    [maxAccel / 4.0, maxAccel / 2.0, maxAccel]
  }

  /** The fixed tables are well formed: one value per breakpoint, strictly
      increasing breakpoints, and each profile table falling with speed. */
  lemma FixedTablesWellFormed()
    ensures Table(CustomBreakpoints, EcoValues)
    ensures Table(CustomBreakpoints, SportValues)
    ensures Table(CustomBreakpoints, SportPlusValues)
    ensures Table(AllowedBreakpoints, AllowedValues)
    ensures StrictlyIncreasing(CustomBreakpoints)
    ensures StrictlyIncreasing(RampOffBreakpoints)
    ensures StrictlyIncreasing(AllowedBreakpoints)
    ensures forall i, j :: 0 <= i < j < |EcoValues| ==> EcoValues[j] < EcoValues[i]
    ensures forall i, j :: 0 <= i < j < |SportValues| ==> SportValues[j] < SportValues[i]
    ensures forall i, j :: 0 <= i < j < |SportPlusValues| ==> SportPlusValues[j] < SportPlusValues[i]
  {
  }

  /** `get_max_accel_eco`: between the table's smallest (0.2) and largest (2.0)
      values, 2.0 at standstill and 0.2 from 40 m/s on. */
  function MaxAccelEco(vEgo: real): (r: real)
    ensures 0.2 <= r <= 2.0
    ensures vEgo <= 0.0 ==> r == 2.0
    ensures vEgo >= 40.0 ==> r == 0.2
  {
    InterpWithin(CustomBreakpoints, EcoValues, vEgo, 0.2, 2.0);
    AkimaInterp(vEgo, CustomBreakpoints, EcoValues)
  }

  /** `get_max_accel_sport`: between 0.6 and 3.0, 3.0 at standstill and 0.6 from 40 m/s on. */
  function MaxAccelSport(vEgo: real): (r: real)
    ensures 0.6 <= r <= 3.0
    ensures vEgo <= 0.0 ==> r == 3.0
    ensures vEgo >= 40.0 ==> r == 0.6
  {
    InterpWithin(CustomBreakpoints, SportValues, vEgo, 0.6, 3.0);
    AkimaInterp(vEgo, CustomBreakpoints, SportValues)
  }

  /** `get_max_accel_sport_plus`: between 1.0 and 4.0, 4.0 at standstill and 1.0 from 40 m/s on. */
  function MaxAccelSportPlus(vEgo: real): (r: real)
    ensures 1.0 <= r <= 4.0
    ensures vEgo <= 0.0 ==> r == 4.0
    ensures vEgo >= 40.0 ==> r == 1.0
  {
    InterpWithin(CustomBreakpoints, SportPlusValues, vEgo, 1.0, 4.0);
    AkimaInterp(vEgo, CustomBreakpoints, SportPlusValues)
  }

  /** `get_max_accel_low_speeds`: a cap sampled at the cruise speed that scales the
      current cap m by a factor between 1/4 (at or below 0) and 1 (at or above the
      city speed limit), so it lies between m/4 and m whatever the sign of m. */
  function MaxAccelLowSpeeds(maxAccel: real, vCruise: real, citySpeedLimit: real): (r: real)
    ensures maxAccel >= 0.0 ==> maxAccel / 4.0 <= r <= maxAccel
    ensures maxAccel <= 0.0 ==> maxAccel <= r <= maxAccel / 4.0
    ensures vCruise <= 0.0 ==> r == maxAccel / 4.0
    ensures vCruise > 0.0 && vCruise >= citySpeedLimit ==> r == maxAccel
  {
    var xp := LowSpeedBreakpoints(citySpeedLimit);
    var fp := LowSpeedValues(maxAccel);
    var lo := if maxAccel >= 0.0 then maxAccel / 4.0 else maxAccel;
    var hi := if maxAccel >= 0.0 then maxAccel else maxAccel / 4.0;
    InterpWithin(xp, fp, vCruise, lo, hi);
    AkimaInterp(vCruise, xp, fp)
  }

  /** `get_max_accel_ramp_off`: a cap sampled at the gap between cruise speed and
      current speed; 0 when the car is at or above its cruise speed, the current cap
      m once the gap reaches 10, and otherwise between min(0, m) and max(1, m). */
  function MaxAccelRampOff(maxAccel: real, vCruise: real, vEgo: real): (r: real)
    ensures vCruise <= vEgo ==> r == 0.0
    ensures vCruise - vEgo >= 10.0 ==> r == maxAccel
    ensures (if maxAccel < 0.0 then maxAccel else 0.0) <= r <= (if maxAccel > 1.0 then maxAccel else 1.0)
  {
    var fp := RampOffValues(maxAccel);
    InterpWithin(RampOffBreakpoints, fp, vCruise - vEgo,
      if maxAccel < 0.0 then maxAccel else 0.0, if maxAccel > 1.0 then maxAccel else 1.0);
    AkimaInterp(vCruise - vEgo, RampOffBreakpoints, fp)
  }

  /** Up to 5 m/s the allowed-acceleration table is sampled on its flat first interval. */
  lemma AllowedFlatBelowFive(vEgo: real)
    ensures vEgo <= 5.0 ==> AkimaInterp(vEgo, AllowedBreakpoints, AllowedValues) == 4.0
  {
    if 0.0 < vEgo <= 5.0 {
      IntervalBrackets(AllowedBreakpoints, vEgo);
    }
  }

  /** `get_max_allowed_accel`: exactly 4.0 up to 5 m/s, exactly 2.0 from 20 m/s on,
      and between the two in between. */
  function MaxAllowedAccel(vEgo: real): (r: real)
    ensures vEgo <= 5.0 ==> r == 4.0
    ensures vEgo >= 20.0 ==> r == 2.0
    ensures 2.0 <= r <= 4.0
  {
    AllowedFlatBelowFive(vEgo);
    InterpWithin(AllowedBreakpoints, AllowedValues, vEgo, 2.0, 4.0);
    AkimaInterp(vEgo, AllowedBreakpoints, AllowedValues)
  }

  /** The profile tables are reproduced exactly at every breakpoint, for example
      MaxAccelEco(5.0) == 1.5. */
  lemma ProfilesExactAtBreakpoints(k: nat)
    requires k < |CustomBreakpoints|
    ensures MaxAccelEco(CustomBreakpoints[k]) == EcoValues[k]
    ensures MaxAccelSport(CustomBreakpoints[k]) == SportValues[k]
    ensures MaxAccelSportPlus(CustomBreakpoints[k]) == SportPlusValues[k]
  {
    FixedTablesWellFormed();
    ExactAtBreakpoint(CustomBreakpoints, EcoValues, k);
    ExactAtBreakpoint(CustomBreakpoints, SportValues, k);
    ExactAtBreakpoint(CustomBreakpoints, SportPlusValues, k);
  }

  lemma EcoAtFive()
    ensures MaxAccelEco(5.0) == 1.5
  {
    ProfilesExactAtBreakpoints(1);
  }

  /** Halfway between 0 and 5 m/s the Eco curve is exactly the mean 1.75 of its
      neighbouring values 2.0 and 1.5. */
  lemma EcoBetweenFirstBreakpoints()
    ensures MaxAccelEco(2.5) == 1.75
  {
    IntervalBrackets(CustomBreakpoints, 2.5);
    assert IntervalIndex(CustomBreakpoints, 2.5) == 0;
    MidpointIsMean(2.0, 1.5);
  }

  /** At every speed Eco <= Sport <= SportPlus. */
  lemma ProfilesOrdered(vEgo: real)
    ensures MaxAccelEco(vEgo) <= MaxAccelSport(vEgo) <= MaxAccelSportPlus(vEgo)
  {
    AkimaMonotoneInValues(CustomBreakpoints, EcoValues, SportValues, vEgo);
    AkimaMonotoneInValues(CustomBreakpoints, SportValues, SportPlusValues, vEgo);
  }

  /** The ramp-off table holds absolute values: a gap of 1 m/s samples 0.5 and a gap
      of 5 m/s samples 1.0, whatever the current cap. */
  lemma RampOffAbsoluteAtBreakpoints(maxAccel: real, vCruise: real, vEgo: real)
    ensures vCruise - vEgo == 1.0 ==> MaxAccelRampOff(maxAccel, vCruise, vEgo) == 0.5
    ensures vCruise - vEgo == 5.0 ==> MaxAccelRampOff(maxAccel, vCruise, vEgo) == 1.0
  {
    var xp := RampOffBreakpoints;
    assert StrictlyIncreasing(xp);
    ExactAtBreakpoint(xp, RampOffValues(maxAccel), 1);
    ExactAtBreakpoint(xp, RampOffValues(maxAccel), 2);
  }
}
