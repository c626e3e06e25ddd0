# refraction-calc, modelled in Dafny

refraction-calc is a command-line tool that traces a light ray through the
Earth's atmosphere. It computes the altitude the ray reaches at a given
distance, the angle it starts at, the apparent horizon, and the
astronomical refraction. This project models and proves three parts of it:

- **`RayStates`** (`ray_state.dfy`, modelling `src/ray_state.rs`) holds the right-hand side of the ray equation:
  - the refractive index `n`;
  - its centred-difference gradient `dn`;
  - the flat and spherical derivative functions;
  - the vector operations on `RayStateDerivative`, with its norm `abs`;
  - the in-place `shift_in_place` step the integrator applies to a `RayState`. `RayState` is a class with mutable fields `x`, `h`, `dr`.
- **`HorizonSearch`** (`find_dist.dfy`, modelling `find_dist_for_h` in `src/main.rs`) is the bisection search for the distance at which a path reaches a target altitude.
  - It is written as a `while` loop.
  - It is proved against the function `BracketAfter(hAtDist, tgtH, k)`, the bracket after `k` halvings.
- **`RunParams`** (`params.dfy`, modelling `src/params.rs`) resolves the parsed command-line options into run parameters:
  - the starting altitude with its default;
  - the ray direction (angle, target or horizon);
  - the Earth shape;
  - the atmosphere source;
  - the output list, built by pushes and overwrites as in the source;
  - the choice of ray cast made by `create_path`.

The panics of the option resolution (`expect`, `panic!` in
`src/params.rs:139-184`) become `Err` results that name the message; those
of reading an atmosphere file do not (see "## Left out"). Each option value arrives as `Absent`, `Malformed` (present but not
a number) or `Given(v)`.

Floating-point numbers are modelled as `real`. The atmosphere (pressure and
temperature by altitude) and the air-index formula are function-valued
parameters, because they live in other crates. So are the square root used
by `abs` and the path's altitude query `h_at_dist`.

## Model

| member | source | states |
|---|---|---|
| RayStates.NMinus1 | src/ray_state.rs:5-11 | `n - 1` from the air-index formula at wavelength 530e-9 with the pressure and temperature at `h` and humidity 0. Definitional; its property is `IndexIsLocal`. |
| RayStates.N | src/ray_state.rs:13-16 | `n = n_minus_1 + 1`. Definitional; its properties are `IndexIsLocal` and `IndexSigns`. |
| RayStates.DN | src/ray_state.rs:18-24 | Centred difference of `n - 1` with step 0.01. Definitional; its properties are `IndexSigns`, `DNExactOnQuadratic` and `UniformMediumHasNoGradient`. |
| RayStates.IndexIsLocal | src/ray_state.rs:5-16 | The index `n` depends on the atmosphere only through pressure and temperature at that altitude (same formula, same wavelength, humidity 0). |
| RayStates.IndexSigns | src/ray_state.rs:5-24 | `dn` is positive, zero or negative exactly as `n - 1` rises, stays or falls across `[h - 0.01, h + 0.01]`; `n > 1` exactly where `n - 1 > 0`. |
| RayStates.DNExactOnQuadratic | src/ray_state.rs:19-24 | Where `n - 1` is quadratic around `h`, the centred difference with step 0.01 is exactly the derivative `2ah + b`. |
| RayStates.UniformMediumHasNoGradient | src/ray_state.rs:5-24 | In an atmosphere constant in altitude, `n` is the same at every altitude and `dn` is 0. |
| RayStates.Add | src/ray_state.rs:69-78 | The componentwise sum; subtracting `b` from each component gives back `a`. Laws in `OperatorsAgree` and `VectorSpaceLaws`. |
| RayStates.Sub | src/ray_state.rs:80-89 | The componentwise difference, undone by adding `b` back. |
| RayStates.Mul | src/ray_state.rs:91-100 | Componentwise scaling; scaling by 1 is the identity and the zero vector stays zero. Laws in `VectorSpaceLaws`. |
| RayStates.Div | src/ray_state.rs:102-111 | Componentwise division by a non-zero `k`, undone by scaling by `k`. |
| RayStates.Neg | src/ray_state.rs:113-122 | The additive inverse: `a + (-a)` is the zero vector. |
| RayStates.OperatorsAgree | src/ray_state.rs:69-122 | The componentwise operators satisfy `a - b == a + (-b)`, `-a == a * (-1)`, `a / k == a * (1/k)` and `(a / k) * k == a` for `k != 0`, and `(a + b) - b == a`; the zero vector is neutral and `-a` is the inverse of `a`. |
| RayStates.VectorSpaceLaws | src/ray_state.rs:69-100 | Addition is commutative and associative; scaling distributes over vector and scalar sums and composes multiplicatively. |
| RayStates.Abs | src/ray_state.rs:124-128 | `abs` is non-negative, its square is `dx² + dr² + d2r²`, it is zero exactly when all three components are zero, and it bounds each component in absolute value. |
| RayStates.AbsHomogeneous | src/ray_state.rs:124-128 | Scaling a derivative by `k` scales its `abs` by the absolute value of `k`. |
| RayStates.Shift | src/ray_state.rs:132-136 | The value-level shift: each coordinate moves by the matching derivative component times `amount`; amount 0 or the zero direction leaves the state unchanged. |
| RayStates.ShiftLaws | src/ray_state.rs:130-137 | The shift is unchanged by amount 0 or by the zero direction. Two shifts along one direction add their amounts. Scaling the direction scales the amount. Shifts along two directions by one amount equal a shift along their sum. A shift is undone by the opposite amount. |
| RayStates.RayState.constructor | src/ray_state.rs:55-60 | A new ray state holds exactly the given `x`, `h` and `dr`. |
| RayStates.RayState.ShiftInPlace | src/ray_state.rs:130-137 | Sets `x += dx·amount`, `h += dr·amount`, `dr += d2r·amount` in place, which is the value-level `Shift` of the old state. |
| RayStates.CalcDerivativeFlat | src/ray_state.rs:43-53 | Returns `dx == 1` and `dr == state.dr`. If `dn == 0` the ray does not curve (`d2r == 0`). Otherwise, when `n > 0`, `d2r` has the sign of `dn`. |
| RayStates.CalcDerivativeSpherical | src/ray_state.rs:26-41 | Returns `dx == 1` and `dr == state.dr`; with `r = h + radius`, `dn == 0` gives the purely geometric `2·dr²/r + r`. For `n > 0` the refraction term moves `d2r` away from the geometric value in the direction of the sign of `dn`. In a uniform medium with `r > 0`, `d2r >= r`. |
| RayStates.FlatStepWithoutGradient | src/ray_state.rs:43-53 | Where `dn == 0`, one step along the flat derivative moves `t` further along the straight line with the current slope. |
| RayStates.FlatUniformRayIsStraight | src/ray_state.rs:43-53 | In a flat geometry with `dn == 0` everywhere, `k` Euler steps of length `t` trace a straight line: `x + k·t`, `h + dr·k·t`, unchanged slope. |
| HorizonSearch.Halve | src/main.rs:10-16 | One pass of the loop body. One end stays, the width exactly halves, and an ordered bracket stays inside the old one. A moved upper end has altitude above the target; a moved lower end has altitude at or below it. |
| HorizonSearch.BracketAfter | src/main.rs:7-17 | The bracket after `k` passes from `[0, 5e6]`; it is `5e6 / 2^k` wide (with `WidthAfterPow2`). |
| HorizonSearch.BracketInvariant | src/main.rs:7-17 | After every pass, `0 <= min_dist <= max_dist <= 5e6`. A moved upper end has altitude above the target, and a moved lower end has altitude at or below it. |
| HorizonSearch.HalvingCount | src/main.rs:9 | The bracket is wider than 1e-5 after fewer than 39 passes and no wider after 39, so the loop runs exactly 39 times. |
| HorizonSearch.FindDistForH | src/main.rs:6-20 | The loop returns the midpoint of the bracket after exactly 39 halvings of `[0, 5e6]`. This lies in `[0, 5e6]` and depends only on `h_at_dist` and `tgt_h`. |
| HorizonSearch.ResultNearEnds | src/main.rs:19 | The result lies between the final ends and within 5e-6 of each. |
| HorizonSearch.FindsCrossing | src/main.rs:6-20 | If the altitude is at or below the target before a distance `c` and above it after, every bracket contains `c`, and the result is within 5e-6 of `c`. |
| RunParams.ResolveStartH | src/params.rs:139-144 | The starting altitude defaults to 1.0, a given value is used as is, and a malformed value fails with the start-h message. |
| RunParams.ResolveRayDir | src/params.rs:149-170 | A horizon or horizon-distance request gives `Horizon`, whatever else is set. An angle alone gives `Angle(a)`; both targets alone give `Target(h, dist·1e3)`. No direction option fails as "no ray direction"; every other mix fails as conflicting; malformed values fail with their own message. |
| RunParams.RayDirRoundTrip | src/params.rs:149-170 | Every direction can be requested by options, and resolving those options gives that direction back. |
| RunParams.RayDirReadsOnlyDirectionOptions | src/params.rs:149-170 | The direction is decided by the angle, target and horizon options alone. |
| RunParams.ResolveShape | src/params.rs:176-184 | The default is spherical with radius 6378000 m; `--flat` gives flat; a radius in km gives spherical with radius `r·1e3`; a malformed radius fails; flat together with a radius fails as conflicting. |
| RunParams.ShapeRoundTrip | src/params.rs:176-184 | Every Earth shape can be requested by options, and resolving them gives it back. |
| RunParams.ResolveAtmosphere | src/params.rs:186-189 | A named atmosphere file is used when given, and the US76 standard atmosphere otherwise. |
| RunParams.RequestedOutputProperties | src/params.rs:191-209 | The output list has at most 3 entries, and exactly 1 when a horizon output is requested. Entries appear in the order altitude-at-distance, angle, astronomical, without repeats. Horizon distance wins over horizon angle. Each other entry is present exactly when requested and no horizon output is requested. An altitude-at-distance entry appears only for an output distance that parses, scaled by 1e3. |
| RunParams.RequestedOutput | src/params.rs:191-209 | The declarative output rule. The list is empty only when nothing is requested, has at most 3 entries, and has exactly 1 under a horizon request. Full properties in `RequestedOutputProperties`. |
| RunParams.BuildOutput | src/params.rs:191-209 | The push-then-overwrite construction yields exactly the declarative output list `RequestedOutput`. |
| RunParams.ParseArguments | src/params.rs:139-221 | Failures are reported in source order: start altitude, then direction, then shape. On success every field holds its resolved option, including the straight and verbose flags, and the wavelength is always 530e-9. |
| RunParams.ToRadians | src/params.rs:228 | Degrees to radians by the factor π/180, undone by the opposite conversion and preserving the sign. |
| RunParams.RadiansProperties | src/params.rs:228 | Degrees to radians (factor π/180) maps 0 to 0 and 180 to π, preserves order, and is undone by radians to degrees. |
| RunParams.CreatePath | src/params.rs:223-236 | An angle casts from the start altitude at that angle in radians. A target forwards the start altitude, target altitude, target distance and straight flag to the target-seeking cast. The horizon search casts from altitude 0 at angle 0. The environment and straight flag are always passed through. |
| RunParams.HorizonCastIgnoresStartH | src/params.rs:235 | For the horizon search, the cast does not depend on the starting altitude. |

## Left out

- **External code.**
  - Argument parsing with clap, and string-to-number conversion, are not part of this model. Their outcome is the input of `RunParams`: `Absent`, `Malformed` or `Given(v)` per option, and a flag per switch.
  - `get_atmosphere` (file reading and YAML decoding) and the built-in US76 atmosphere are not part of this model. The atmosphere source is recorded as `Us76` or `ConfigFile(path)`. In `RayStates` an atmosphere is any pair of pressure and temperature functions.
  - `air_index_minus_1`, `Atmosphere::pressure` and `Atmosphere::temperature` come from other crates. They are uninterpreted function parameters.
  - The integrator, `Path`, `cast_ray` and `cast_ray_target` come from another crate and are not modelled. `create_path` records only which cast is requested and with which arguments (`PathRequest`). `find_dist_for_h` sees the path only through an arbitrary `hAtDist` function.
  - The `State` and `StateDerivative` interfaces of the numerical crate are not restated. Their operations (`abs`, `shift_in_place`, the operators) are module members and a class method.
  - `main`'s console output and its dispatch over the output list are left out. That dispatch also names an `Output::Horizon` variant that `src/params.rs` does not define.
- **Floating point.** All arithmetic is exact over `real`. f64 rounding, overflow, infinities and NaN are not modelled.
- RayStates.Abs takes the square root as a parameter, with the requirement that it returns the non-negative root of the one value used.
- RayStates.Div, RayStates.CalcDerivativeFlat and RayStates.CalcDerivativeSpherical require non-zero divisors (`k`, `n`, `h + radius`). The source would produce infinities or NaN there.
- RunParams.RadiansProperties: π is the 16-digit decimal 3.141592653589793, the shortest decimal that rounds to the double nearest π. The double itself is 3.141592653589793115997963…, and the conversion is exact real arithmetic.
- RunParams.ParseArguments: succeeds with `ConfigFile(path)` where the program aborts on an atmosphere file it cannot open, read or decode (the panics of `get_atmosphere`, src/params.rs:239-248, reached from src/params.rs:186-189). File contents are not part of this model.
- HorizonSearch.FindsCrossing: the search returns the crossing only for paths whose altitude crosses the target once, from at-or-below to above as distance grows. The loop moves the upper end when the altitude exceeds the target. For any other path, only the bracket invariants hold.
- RunParams.ResolveShape: the source accepts a zero or negative radius. The model does the same, so CalcDerivativeSpherical has to require `h + radius != 0` itself.
- `--verbose` and `--straight` are carried through `Params` unchanged. What they change (printing, the straight-line integrator) is outside the core.
