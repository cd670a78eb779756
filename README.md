# FrogPilot longitudinal acceleration limits, modelled in Dafny

Once per control cycle, FrogPilot computes the upper and lower bounds on the
longitudinal acceleration that the planner may command. The logic lives in
`frogpilot/controls/lib/frogpilot_acceleration.py` and this project models it in
three modules:

- `Interp` (`interp.dfy`) holds the two saturating piecewise interpolators.
  - `cubic_interp` blends neighbouring table values with the cubic smoothstep.
  - `akima_interp` does the same with the quintic smoothstep.
  - Both return the end value outside the breakpoint range.
  - Both locate the interval with a left-sided `np.searchsorted` and clamp the index.
  - `np.searchsorted(xp, x)` is modelled as the least index `j` with `x <= xp[j]`, or `len(xp)` if there is none. For a sorted `xp` this is NumPy's left-sided search.
- `Curves` (`curves.dfy`) holds the fixed tables and the samplers built on `akima_interp`.
  - The tables are Eco, Sport and SportPlus over the breakpoints 0, 5, 10, 15, 20, 25 and 40 m/s.
  - There is a low-speed cap and a ramp-off cap.
  - `get_max_allowed_accel`'s table comes with a comment citing ISO 15622:2018; no clause of that standard is relied on.
- `Acceleration` (`acceleration.dfy`) holds the class `FrogPilotAcceleration`.
  - It has two mutable fields, `maxAccel` and `minAccel`, and a reference to the planner, whose `vCruise` it reads.
  - `Update` runs the two first-match-wins ladders and the optional human-like refinement, assigning the fields step by step as the source does.
  - Its postcondition ties both new fields to pure specification functions of the cycle's inputs: `CycleMaxAccel` (curve selection, sampling, refinement) and `CycleMinAccel`.
  - The lemmas beside it state precedence, monotone refinement and the lower-bound choice.

Arithmetic is exact over `real`. The definitions that come from other files
are fields of the `Externals` value passed to `Update`: the planner's
`get_max_accel` (a function `real -> real`), `A_CRUISE_MIN` and
`CITY_SPEED_LIMIT`. No sign or size is assumed for any of them. The
message-bus fields (`ecoGear`, `sportGear`, `trafficModeEnabled`, `forceCoast`)
become the `CarState` record. The toggles become the `Toggles` record, with
integer profile codes: 1 is Eco and 2 is Sport.

Because the search is defined as "least index", the interior branch of both
kernels is well defined for any table with `len(xp) == len(fp) >= 2`: the
bracketing breakpoints satisfy `xp[i] < x <= xp[i+1]`, so the divisor is
positive. This spares the proofs a case split on the sign of the city speed
limit `C` in the low-speed table `[0, C/2, C]`. The code itself never reaches an
unsorted interior: for `C <= 0` no `x` satisfies `0 < x < C`, so an early
return always fires, and for `C > 0` the table is sorted. On an unsorted table
the model's interval could differ from NumPy's binary search, but every table
of this core is sorted wherever the interior branch runs. Among the lemmas, only
exactness at interior breakpoints needs a sorted table; two-sided flat
extrapolation needs only `xp[0] < xp[last]`.

Behaviour of the code worth noting:

- Interval at an interior breakpoint. At `x == xp[k]` the left-sided search picks the interval `k-1` with `t = 1`, which gives exactly `fp[k]` (`Interp.ExactAtBreakpoint`).
- Ramp-off table. The table is `[0, 0.5, 1.0, max_accel]`, whose middle entries are the absolute values 0.5 and 1.0 m/s². The ramp-off sample is 0.5 at a 1 m/s gap and 1.0 at a 5 m/s gap, whatever the cap (`Curves.RampOffAbsoluteAtBreakpoints`, `Acceleration.RampOffCapsAbsolute`).
- Midpoint of an interval. The quintic weight is symmetric about `t = 1/2`, so `get_max_accel_eco(2.5)` is exactly 1.75, the mean of 2.0 and 1.5 (`Curves.EcoBetweenFirstBreakpoints`, `Interp.MidpointIsMean`).
- Previous outputs. `update` never reads the previous cycle's `max_accel` or `min_accel`. Both are rewritten on every path from the current inputs alone.

## Model

| member | source | states |
|---|---|---|
| `Interp.SearchSorted` | frogpilot/controls/lib/frogpilot_acceleration.py:13 | the left-sided search result j is at most len(xp), every breakpoint before j is below x, and x <= xp[j] when j < len(xp) |
| `Interp.IntervalIndex` | frogpilot/controls/lib/frogpilot_acceleration.py:13-14 | the clamped interval index never exceeds len(xp)-2, so xp[i+1] and fp[i+1] are always in range |
| `Interp.IntervalBrackets` | frogpilot/controls/lib/frogpilot_acceleration.py:13-17 | strictly inside the range the search lands in 1..len(xp)-1, the clamp is a no-op and xp[i] < x <= xp[i+1], so the divisor is positive |
| `Interp.SearchSortedAtBreakpoint` | frogpilot/controls/lib/frogpilot_acceleration.py:13 | on a strictly increasing table the search for xp[k] returns k |
| `Interp.PositionInUnit` | frogpilot/controls/lib/frogpilot_acceleration.py:17 | the normalised position t of a bracketed x lies in (0, 1] |
| `Interp.HermiteBlend` | frogpilot/controls/lib/frogpilot_acceleration.py:20 | the cubic formula returns a at t = 0 and b at t = 1, and a constant pair stays constant |
| `Interp.QuinticBlend` | frogpilot/controls/lib/frogpilot_acceleration.py:34-39 | the quintic formula returns a at t = 0 and b at t = 1, and a constant pair stays constant |
| `Interp.HermiteWeights` | frogpilot/controls/lib/frogpilot_acceleration.py:20 | the two cubic weights sum to 1 and each lies in [0, 1] for t in [0, 1] |
| `Interp.QuinticWeights` | frogpilot/controls/lib/frogpilot_acceleration.py:34-39 | the two quintic weights sum to 1 and each lies in [0, 1] for t in [0, 1] |
| `Interp.HermiteBetween` | frogpilot/controls/lib/frogpilot_acceleration.py:20 | the cubic blend of a and b on [0, 1] lies between a and b |
| `Interp.QuinticBetween` | frogpilot/controls/lib/frogpilot_acceleration.py:35-39 | the quintic blend of a and b on [0, 1] lies between a and b (no overshoot) |
| `Interp.CubicInterp` | frogpilot/controls/lib/frogpilot_acceleration.py:4-20 | at or below xp[0] the result is fp[0], at or above xp[last] it is fp[last], and in between it lies between the two table values of the bracketing interval |
| `Interp.AkimaInterp` | frogpilot/controls/lib/frogpilot_acceleration.py:22-39 | the same saturation and bracketing-value bound for the quintic kernel |
| `Interp.FlatExtrapolation` | frogpilot/controls/lib/frogpilot_acceleration.py:7-27 | on any table with xp[0] < xp[last] (so any increasing table) both kernels return fp[0] for x <= xp[0] and fp[last] for x >= xp[last] |
| `Interp.ExactAtBreakpoint` | frogpilot/controls/lib/frogpilot_acceleration.py:13-39 | on an increasing table both kernels return exactly fp[k] at every breakpoint xp[k] |
| `Interp.MidpointIsMean` | frogpilot/controls/lib/frogpilot_acceleration.py:20-39 | at t = 1/2 both kernels return the mean of the two table values |
| `Interp.InterpWithin` | frogpilot/controls/lib/frogpilot_acceleration.py:4-39 | every value either kernel returns lies within any range holding all table values |
| `Interp.QuinticBlendMonotone` | frogpilot/controls/lib/frogpilot_acceleration.py:35-39 | raising either end value never lowers the quintic blend on [0, 1] |
| `Interp.AkimaMonotoneInValues` | frogpilot/controls/lib/frogpilot_acceleration.py:22-39 | raising every table value never lowers the quintic kernel's sample |
| `Curves.RampOffValues` | frogpilot/controls/lib/frogpilot_acceleration.py:67 | the ramp-off values pair with the breakpoints [0, 1, 5, 10], start at 0, end at the cap, and every other entry lies in [0, 1] |
| `Curves.LowSpeedBreakpoints` | frogpilot/controls/lib/frogpilot_acceleration.py:64 | three breakpoints from 0 to the city speed limit C, strictly increasing whenever C > 0 |
| `Curves.LowSpeedValues` | frogpilot/controls/lib/frogpilot_acceleration.py:64 | three values ending at the cap m, each between m/4 and m, rising when m >= 0 |
| `Curves.FixedTablesWellFormed` | frogpilot/controls/lib/frogpilot_acceleration.py:49-70 | the fixed tables pair one value with each breakpoint, their breakpoints strictly increase, and each profile table strictly falls with speed |
| `Curves.MaxAccelEco` | frogpilot/controls/lib/frogpilot_acceleration.py:54-55 | the Eco cap lies in [0.2, 2.0], is 2.0 at standstill and 0.2 from 40 m/s on |
| `Curves.MaxAccelSport` | frogpilot/controls/lib/frogpilot_acceleration.py:57-58 | the Sport cap lies in [0.6, 3.0], is 3.0 at standstill and 0.6 from 40 m/s on |
| `Curves.MaxAccelSportPlus` | frogpilot/controls/lib/frogpilot_acceleration.py:60-61 | the SportPlus cap lies in [1.0, 4.0], is 4.0 at standstill and 1.0 from 40 m/s on |
| `Curves.MaxAccelLowSpeeds` | frogpilot/controls/lib/frogpilot_acceleration.py:63-64 | the low-speed cap lies between m/4 and m for either sign of m, is m/4 at cruise speed <= 0 and m at a positive cruise speed at or above the city speed limit |
| `Curves.MaxAccelRampOff` | frogpilot/controls/lib/frogpilot_acceleration.py:66-67 | the ramp-off cap is 0 when the cruise speed is not above the current speed, m once the gap reaches 10, and otherwise within [min(0, m), max(1, m)] |
| `Curves.AllowedFlatBelowFive` | frogpilot/controls/lib/frogpilot_acceleration.py:69-70 | the allowed-acceleration table samples exactly 4.0 up to 5 m/s |
| `Curves.MaxAllowedAccel` | frogpilot/controls/lib/frogpilot_acceleration.py:69-70 | exactly 4.0 for speeds <= 5, exactly 2.0 for speeds >= 20, and within [2.0, 4.0] everywhere |
| `Curves.ProfilesExactAtBreakpoints` | frogpilot/controls/lib/frogpilot_acceleration.py:49-61 | each profile curve returns exactly its table value at each breakpoint |
| `Curves.EcoAtFive` | frogpilot/controls/lib/frogpilot_acceleration.py:49-55 | the Eco cap at 5 m/s is exactly 1.5 |
| `Curves.EcoBetweenFirstBreakpoints` | frogpilot/controls/lib/frogpilot_acceleration.py:49-55 | the Eco cap at 2.5 m/s is exactly 1.75, the mean of 2.0 and 1.5 |
| `Curves.ProfilesOrdered` | frogpilot/controls/lib/frogpilot_acceleration.py:49-61 | at every speed the Eco cap <= the Sport cap <= the SportPlus cap |
| `Curves.RampOffAbsoluteAtBreakpoints` | frogpilot/controls/lib/frogpilot_acceleration.py:66-67 | the ramp-off sample is 0.5 at a 1 m/s gap and 1.0 at a 5 m/s gap, independent of the cap |
| `Acceleration.Min` | frogpilot/controls/lib/frogpilot_acceleration.py:104-105 | Python's min of two values is one of them and no greater than either |
| `Acceleration.SelectMaxCurve` | frogpilot/controls/lib/frogpilot_acceleration.py:83-101 | traffic mode selects the default curve; SportPlus needs its toggle and no traffic mode; Eco needs eco gear or profile 1 |
| `Acceleration.SampleMaxCurve` | frogpilot/controls/lib/frogpilot_acceleration.py:84-101 | the default curve gives get_max_accel(v_ego); each custom curve gives a cap in [0.2, 4.0] |
| `Acceleration.CycleMaxAccel` | frogpilot/controls/lib/frogpilot_acceleration.py:83-105 | the final upper bound is never above the ladder's cap, equals it without human-like ramping, and is at most 0 with ramping once v_cruise <= v_ego |
| `Acceleration.SelectMinLimit` | frogpilot/controls/lib/frogpilot_acceleration.py:107-120 | forced coasting selects Eco; Sport needs sport gear or profile 2; the base bound needs a profile other than 1 or 2 |
| `Acceleration.ACruiseMinEco` | frogpilot/controls/lib/frogpilot_acceleration.py:45 | twice the Eco bound is the base bound, and for a braking base it lies between the base and 0 |
| `Acceleration.ACruiseMinSport` | frogpilot/controls/lib/frogpilot_acceleration.py:46 | half the Sport bound is the base bound, and for a braking base it is at most the base |
| `Acceleration.MinLimitValue` | frogpilot/controls/lib/frogpilot_acceleration.py:45-46 | the base choice is A_CRUISE_MIN itself, and for a braking base every choice lies between the Sport and Eco bounds |
| `Acceleration.CycleMinAccel` | frogpilot/controls/lib/frogpilot_acceleration.py:107-120 | forced coasting gives A_CRUISE_MIN / 2, and for a braking base the bound is always in [2 A_CRUISE_MIN, A_CRUISE_MIN / 2] |
| `Acceleration.HumanRefine` | frogpilot/controls/lib/frogpilot_acceleration.py:103-105 | the two min refinements never raise the cap, and leave at most 0 once the cruise speed is not above the current speed |
| `Acceleration.TrafficModeWins` | frogpilot/controls/lib/frogpilot_acceleration.py:83-84 | in traffic mode the default curve is chosen whatever the toggles and gear flags, so the cap is get_max_accel(v_ego) |
| `Acceleration.GearOverridesProfile` | frogpilot/controls/lib/frogpilot_acceleration.py:85-92 | with gear following and a gear flag, the profile is ignored, eco gear gives Eco and otherwise SportPlus or Sport per the sport-plus toggle |
| `Acceleration.GearIgnoredWithoutMapping` | frogpilot/controls/lib/frogpilot_acceleration.py:85-101 | without gear following the gear flags do not matter, and whenever neither traffic mode nor gear following with a gear flag applies (including gear following on with no gear flag) profile 1 gives Eco, 2 Sport, then SportPlus if enabled, else the default curve |
| `Acceleration.CurveSelectionConditions` | frogpilot/controls/lib/frogpilot_acceleration.py:83-101 | SportPlus is chosen only with the sport-plus toggle, and the default curve exactly when in traffic mode or when neither gear nor profile nor sport-plus applies |
| `Acceleration.CustomCurveBounds` | frogpilot/controls/lib/frogpilot_acceleration.py:85-99 | a custom curve's cap lies in [0.2, 4.0], and following the eco gear never allows more than following the sport gear |
| `Acceleration.RefinementNeverRaises` | frogpilot/controls/lib/frogpilot_acceleration.py:103-105 | with human-like ramping the final cap is <= the ladder's cap, and <= 0 when the cruise speed is not above the current speed |
| `Acceleration.RefinementKeepsNonNegative` | frogpilot/controls/lib/frogpilot_acceleration.py:103-105 | refining a non-negative cap gives a value in [0, cap] |
| `Acceleration.RefinementInactiveWhenFarBelowCruise` | frogpilot/controls/lib/frogpilot_acceleration.py:63-67 | at a positive cruise speed at or above the city limit and a gap of at least 10 m/s, refinement leaves the cap unchanged |
| `Acceleration.RampOffCapsAbsolute` | frogpilot/controls/lib/frogpilot_acceleration.py:103-105 | one m/s below cruise speed the refined cap is at most 0.5, five m/s below at most 1.0 |
| `Acceleration.ForceCoastWins` | frogpilot/controls/lib/frogpilot_acceleration.py:107-108 | forced coasting always gives A_CRUISE_MIN / 2, whatever the gear flags and deceleration toggles |
| `Acceleration.MinLadderPrecedence` | frogpilot/controls/lib/frogpilot_acceleration.py:109-120 | otherwise gear following gives Eco for eco gear and Sport (A_CRUISE_MIN * 2) for sport gear, else profile 1/2/other gives Eco/Sport/A_CRUISE_MIN |
| `Acceleration.MinLimitsOrdered` | frogpilot/controls/lib/frogpilot_acceleration.py:45-46 | for a non-positive base bound, Sport <= base <= Eco <= 0 |
| `Acceleration.Planner.constructor` | frogpilot/controls/lib/frogpilot_acceleration.py:104-105 | the planner object that update reads v_cruise from, reduced to that one field |
| `Acceleration.FrogPilotAcceleration.constructor` | frogpilot/controls/lib/frogpilot_acceleration.py:73-77 | keeps the planner and starts both bounds at 0 |
| `Acceleration.FrogPilotAcceleration.Update` | frogpilot/controls/lib/frogpilot_acceleration.py:79-120 | both fields are written on every path, as CycleMaxAccel and CycleMinAccel of this cycle's inputs and the planner's v_cruise; nothing else changes |

## Left out

- IEEE-754 rounding and the `float(...)` casts: the arithmetic is exact over `real`.
- NumPy internals: `np.searchsorted` is modelled only by its left-sided "least index" contract.
- The body of the planner's `get_max_accel` and the values of `A_CRUISE_MIN` and `CITY_SPEED_LIMIT` are not part of this model. They are parameters (`Externals`).
- The message bus `sm` and the toggles object are flattened into the `CarState` and `Toggles` records.
- The planner object is reduced to its `vCruise` field, the only part `update` reads.
- Concurrency: none exists in the source. The method runs on one object per call.
- `frogpilot/system/frogpilot_stats.py` is not part of this model. It is network, subprocess and database I/O plus a random theme choice, with no algorithm of the acceleration limits.
- `frogpilot/car/honda/values_ext.py` is not part of this model. It is static per-vehicle platform data built with library calls whose behaviour is not visible.
