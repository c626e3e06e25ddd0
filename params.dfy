/** Resolution of the run parameters: turning already-parsed command-line
    options into a ray direction, an Earth shape and the list of requested
    outputs, and choosing which ray cast a run performs. The argument
    parser itself and string-to-number conversion are outside the model:
    each option arrives as Absent, Malformed (present but not a number) or
    Given(value). The panics of the resolution become `Err` results. */
module RunParams {

  datatype Option<T> = None | Some(value: T)

  /** A command-line option that takes a numeric value. */
  datatype Arg = Absent | Malformed | Given(value: real)
  {
    predicate Present() { !Absent? }
  }

  /** The options as the argument parser delivers them. */
  datatype ParsedOptions = ParsedOptions(
    startH: Arg,
    startAngle: Arg,
    targetH: Arg,
    targetDist: Arg,
    radius: Arg,
    flat: bool,
    atmosphereFile: Option<string>,
    outputDist: Arg,
    outputAng: bool,
    outputHorizon: bool,
    outputHorizonDist: bool,
    outputAstronomical: bool,
    straight: bool,
    verbose: bool)

  /** The panics of the resolution, one per message. */
  datatype Error =
    | InvalidStartH          // "Invalid altitude passed to start-h"
    | InvalidAngle           // "Invalid angle passed to --start-angle"
    | InvalidTargetH         // "Invalid altitude passed to --tgt-h"
    | InvalidTargetDist      // "Invalid distance passed to --tgt-dist"
    | NoRayDirection         // "No ray direction chosen!"
    | ConflictingDirection   // "Conflicting options detected (...)"
    | InvalidRadius          // "Invalid radius passed"
    | ConflictingShape       // "Conflicting Earth shape options chosen!"

  datatype Result<T> = Ok(value: T) | Err(error: Error)

  /** Ray direction: an angle above the horizon (degrees), a target point
      (altitude in m, distance in m), or the special horizon search. */
  datatype RayDir = Angle(angle: real) | Target(h: real, dist: real) | Horizon

  datatype RayData = RayData(startH: real, dir: RayDir)

  datatype Output = HAtDist(dist: real) | StartAngle | HorizonAngle | HorizonDistance | Astronomical

  datatype EarthShape = Flat | Spherical(radius: real)

  /** Where the atmosphere comes from: the built-in US76 standard
      atmosphere, or a configuration file loaded at start-up. */
  datatype AtmosphereSource = Us76 | ConfigFile(path: string)

  datatype Environment = Environment(shape: EarthShape, atmosphere: AtmosphereSource, wavelength: real)

  datatype Params = Params(ray: RayData, env: Environment, straight: bool, output: seq<Output>, verbose: bool)

  const DefaultStartH: real := 1.0
  const DefaultRadius: real := 6378000.0
  const Wavelength: real := 0.000000530

  /** Kilometres to metres. */
  function Km(v: real): real
  {
    v * 1000.0
  }

  // ---------------------------------------------------------------------
  // Starting altitude

  /** The starting altitude: 1 m unless given; a malformed value panics. */
  function ResolveStartH(a: Arg): (r: Result<real>)
    ensures a.Absent? ==> r == Ok(DefaultStartH)
    ensures a.Given? ==> r == Ok(a.value)
    ensures r.Err? <==> a.Malformed?
    ensures r.Err? ==> r.error == InvalidStartH
  {
    match a
    case Absent => Ok(DefaultStartH)
    case Malformed => Err(InvalidStartH)
    case Given(v) => Ok(v)
  }

  // ---------------------------------------------------------------------
  // Ray direction

  /** A horizon output was requested. */
  predicate HorizonRequested(o: ParsedOptions)
  {
    o.outputHorizon || o.outputHorizonDist
  }

  /** The direction decision table. A horizon request wins over every
      direction option (which are then not even parsed); otherwise exactly
      one of "an angle alone" and "both target options" must be present. */
  function ResolveRayDir(o: ParsedOptions): (r: Result<RayDir>)
    ensures HorizonRequested(o) ==> r == Ok(Horizon)
    ensures r == Ok(Horizon) ==> HorizonRequested(o)
    ensures r.Ok? && r.value.Angle? <==>
      !HorizonRequested(o) && o.startAngle.Given? && !o.targetH.Present() && !o.targetDist.Present()
    ensures r.Ok? && r.value.Angle? ==> o.startAngle == Given(r.value.angle)
    ensures r.Ok? && r.value.Target? <==>
      !HorizonRequested(o) && !o.startAngle.Present() && o.targetH.Given? && o.targetDist.Given?
    ensures r.Ok? && r.value.Target? ==>
      o.targetH == Given(r.value.h) && r.value.dist == Km(o.targetDist.value)
    ensures r == Err(NoRayDirection) <==>
      !HorizonRequested(o) && !o.startAngle.Present() && !o.targetH.Present() && !o.targetDist.Present()
    ensures r == Err(ConflictingDirection) <==>
      !HorizonRequested(o) &&
      ((o.startAngle.Present() && (o.targetH.Present() || o.targetDist.Present())) ||
       (!o.startAngle.Present() && o.targetH.Present() != o.targetDist.Present()))
    ensures r == Err(InvalidAngle) <==>
      !HorizonRequested(o) && o.startAngle.Malformed? && !o.targetH.Present() && !o.targetDist.Present()
    ensures r == Err(InvalidTargetH) ==> o.targetH.Malformed?
    ensures r == Err(InvalidTargetDist) ==> o.targetH.Given? && o.targetDist.Malformed?
    ensures r.Err? ==> r.error in {InvalidAngle, InvalidTargetH, InvalidTargetDist, NoRayDirection, ConflictingDirection}
  {
    if HorizonRequested(o) then
      Ok(Horizon)
    else
      match (o.startAngle, o.targetH, o.targetDist)
      case (Given(ang), Absent, Absent) => Ok(Angle(ang))
      case (Malformed, Absent, Absent) => Err(InvalidAngle)
      case (Absent, Malformed, Given(_)) => Err(InvalidTargetH)
      case (Absent, Malformed, Malformed) => Err(InvalidTargetH)
      case (Absent, Given(_), Malformed) => Err(InvalidTargetDist)
      case (Absent, Given(h), Given(dist)) => Ok(Target(h, Km(dist)))
      case (Absent, Absent, Absent) => Err(NoRayDirection)
      case _ => Err(ConflictingDirection)
  }

  /** Options that request a given direction: an angle alone, the target
      pair (distance in km), or the horizon output. */
  function DirectionOptions(base: ParsedOptions, dir: RayDir): ParsedOptions
  {
    var cleared := base.(startAngle := Absent, targetH := Absent, targetDist := Absent,
                         outputHorizon := false, outputHorizonDist := false);
    match dir
    case Angle(a) => cleared.(startAngle := Given(a))
    case Target(h, dist) => cleared.(targetH := Given(h), targetDist := Given(dist / 1000.0))
    case Horizon => cleared.(outputHorizon := true)
  }

  /** Every direction can be requested from the command line, and the
      decision table gives back exactly the direction requested. */
  lemma RayDirRoundTrip(base: ParsedOptions, dir: RayDir)
    ensures ResolveRayDir(DirectionOptions(base, dir)) == Ok(dir)
  {
    match dir
    case Angle(a) =>
    case Target(h, dist) =>
      assert Km(dist / 1000.0) == dist;
    case Horizon =>
  }

  /** The direction does not depend on any option outside the five it
      reads: the Earth shape, altitude and other outputs have no effect. */
  lemma RayDirReadsOnlyDirectionOptions(o: ParsedOptions, o': ParsedOptions)
    requires o.startAngle == o'.startAngle && o.targetH == o'.targetH && o.targetDist == o'.targetDist
    requires o.outputHorizon == o'.outputHorizon && o.outputHorizonDist == o'.outputHorizonDist
    ensures ResolveRayDir(o) == ResolveRayDir(o')
  {
  }

  // ---------------------------------------------------------------------
  // Earth shape

  /** Spherical with radius 6378 km by default, flat with --flat, spherical
      with the given radius (in km) with --radius; both together panic. */
  function ResolveShape(o: ParsedOptions): (r: Result<EarthShape>)
    ensures r == Ok(Flat) <==> o.flat && o.radius.Absent?
    ensures !o.flat && o.radius.Absent? ==> r == Ok(Spherical(DefaultRadius))
    ensures !o.flat && o.radius.Given? ==> r == Ok(Spherical(Km(o.radius.value)))
    ensures r == Err(ConflictingShape) <==> o.flat && o.radius.Present()
    ensures r == Err(InvalidRadius) <==> !o.flat && o.radius.Malformed?
    ensures r.Err? ==> r.error in {ConflictingShape, InvalidRadius}
    ensures r.Ok? && r.value.Spherical? && o.radius.Given? && o.radius.value > 0.0 ==> r.value.radius > 0.0
  {
    match (o.flat, o.radius)
    case (false, Absent) => Ok(Spherical(DefaultRadius))
    case (true, Absent) => Ok(Flat)
    case (false, Malformed) => Err(InvalidRadius)
    case (false, Given(radius)) => Ok(Spherical(Km(radius)))
    case (true, _) => Err(ConflictingShape)
  }

  /** Options that request a given shape; resolving them gives it back. */
  function ShapeOptions(base: ParsedOptions, shape: EarthShape): ParsedOptions
  {
    match shape
    case Flat => base.(flat := true, radius := Absent)
    case Spherical(radius) => base.(flat := false, radius := Given(radius / 1000.0))
  }

  lemma ShapeRoundTrip(base: ParsedOptions, shape: EarthShape)
    ensures ResolveShape(ShapeOptions(base, shape)) == Ok(shape)
  {
    match shape
    case Flat =>
    case Spherical(radius) =>
      assert Km(radius / 1000.0) == radius;
  }

  // ---------------------------------------------------------------------
  // Output list

  /** The outputs requested, as a declarative rule: a horizon-distance
      request alone, else a horizon-angle request alone, else the altitude
      at the output distance (when it parses), the starting angle and the
      astronomical deflection, in that order. */
  function RequestedOutput(o: ParsedOptions): (r: seq<Output>)
    ensures 1 <= |r| <= 3 || (|r| == 0 && !HorizonRequested(o))
    ensures HorizonRequested(o) ==> |r| == 1
    ensures |r| == 0 <==>
      !HorizonRequested(o) && !o.outputDist.Given? && !o.outputAng && !o.outputAstronomical
  {
    if o.outputHorizonDist then [HorizonDistance]
    else if o.outputHorizon then [HorizonAngle]
    else
      (if o.outputDist.Given? then [HAtDist(Km(o.outputDist.value))] else [])
      + (if o.outputAng then [StartAngle] else [])
      + (if o.outputAstronomical then [Astronomical] else [])
  }

  /** Position of an output kind in the order the list is built. */
  function Rank(out: Output): nat
  {
    match out
    case HAtDist(_) => 0
    case StartAngle => 1
    case Astronomical => 2
    case HorizonAngle => 3
    case HorizonDistance => 4
  }

  /** The properties of the output list: at most three entries, exactly one
      when a horizon output is requested, entries in build order without
      repetition, and each entry present exactly when it was asked for. */
  lemma RequestedOutputProperties(o: ParsedOptions)
    ensures |RequestedOutput(o)| <= 3
    ensures HorizonRequested(o) ==> |RequestedOutput(o)| == 1
    ensures forall i, j :: 0 <= i < j < |RequestedOutput(o)| ==> Rank(RequestedOutput(o)[i]) < Rank(RequestedOutput(o)[j])
    ensures HorizonDistance in RequestedOutput(o) <==> o.outputHorizonDist
    ensures HorizonAngle in RequestedOutput(o) <==> o.outputHorizon && !o.outputHorizonDist
    ensures StartAngle in RequestedOutput(o) <==> o.outputAng && !HorizonRequested(o)
    ensures Astronomical in RequestedOutput(o) <==> o.outputAstronomical && !HorizonRequested(o)
    ensures forall d :: HAtDist(d) in RequestedOutput(o) <==>
      !HorizonRequested(o) && o.outputDist.Given? && d == Km(o.outputDist.value)
  {
  }

  /** Builds the output list as the program does: push the plain outputs
      one by one, then overwrite the whole list for a horizon request, and
      again for a horizon-distance request. A malformed output distance is
      dropped silently. */
  method BuildOutput(o: ParsedOptions) returns (output: seq<Output>)
    ensures output == RequestedOutput(o)
  {
    output := [];
    if o.outputDist.Given? {
      output := output + [HAtDist(Km(o.outputDist.value))];
    }
    if o.outputAng {
      output := output + [StartAngle];
    }
    if o.outputAstronomical {
      output := output + [Astronomical];
    }
    if o.outputHorizon {
      output := [HorizonAngle];
    }
    if o.outputHorizonDist {
      output := [HorizonDistance];
    }
  }

  // ---------------------------------------------------------------------
  // The whole resolution

  /** The atmosphere: the configuration file when one is named, else US76. */
  function ResolveAtmosphere(o: ParsedOptions): (a: AtmosphereSource)
    ensures a.ConfigFile? <==> o.atmosphereFile.Some?
    ensures a.ConfigFile? ==> a.path == o.atmosphereFile.value
  {
    match o.atmosphereFile
    case Some(path) => ConfigFile(path)
    case None => Us76
  }

  /** `parse_arguments` after the parser: the starting altitude is checked
      first, then the direction, then the Earth shape; the first panic wins.
      On success every field is the resolved value of its option. */
  method ParseArguments(o: ParsedOptions) returns (r: Result<Params>)
    ensures ResolveStartH(o.startH).Err? ==> r == Err(InvalidStartH)
    ensures ResolveStartH(o.startH).Ok? && ResolveRayDir(o).Err? ==> r == Err(ResolveRayDir(o).error)
    ensures ResolveStartH(o.startH).Ok? && ResolveRayDir(o).Ok? && ResolveShape(o).Err? ==>
      r == Err(ResolveShape(o).error)
    ensures r.Ok? <==> ResolveStartH(o.startH).Ok? && ResolveRayDir(o).Ok? && ResolveShape(o).Ok?
    ensures r.Ok? ==>
      && r.value.ray == RayData(ResolveStartH(o.startH).value, ResolveRayDir(o).value)
      && r.value.env == Environment(ResolveShape(o).value, ResolveAtmosphere(o), Wavelength)
      && r.value.straight == o.straight
      && r.value.verbose == o.verbose
      && r.value.output == RequestedOutput(o)
  {
    var startH := ResolveStartH(o.startH);
    if startH.Err? {
      return Err(startH.error);
    }
    var rayDir := ResolveRayDir(o);
    if rayDir.Err? {
      return Err(rayDir.error);
    }
    var ray := RayData(startH.value, rayDir.value);
    var shape := ResolveShape(o);
    if shape.Err? {
      return Err(shape.error);
    }
    var atmosphere := ResolveAtmosphere(o);
    var output := BuildOutput(o);
    r := Ok(Params(ray, Environment(shape.value, atmosphere, Wavelength), o.straight, output, o.verbose));
  }

  // ---------------------------------------------------------------------
  // Choosing the ray cast

  /** The value of pi used by the degrees-to-radians conversion (the
      nearest double, as a decimal). */
  const Pi: real := 3.141592653589793

  /** Degrees to radians, undone by the opposite conversion. */
  function ToRadians(deg: real): (r: real)
    ensures ToDegrees(r) == deg
    ensures (r > 0.0 <==> deg > 0.0) && (r == 0.0 <==> deg == 0.0)
  {
    assert (Pi / 180.0) * (180.0 / Pi) == 1.0;
    assert deg * (Pi / 180.0) * (180.0 / Pi) == deg * ((Pi / 180.0) * (180.0 / Pi));
    deg * (Pi / 180.0)
  }

  function ToDegrees(rad: real): real
  {
    rad * (180.0 / Pi)
  }

  /** Degrees to radians preserves sign and order, maps 180 to pi, and is
      undone by the opposite conversion. */
  lemma RadiansProperties(a: real, b: real)
    ensures ToRadians(0.0) == 0.0 && ToRadians(180.0) == Pi
    ensures a < b ==> ToRadians(a) < ToRadians(b)
    ensures ToDegrees(ToRadians(a)) == a
  {
    assert (Pi / 180.0) * (180.0 / Pi) == 1.0;
    assert ToDegrees(ToRadians(a)) == a * ((Pi / 180.0) * (180.0 / Pi));
  }

  /** The ray cast a run asks the environment for. The casts themselves
      belong to the refraction library; only their arguments are recorded. */
  datatype PathRequest =
    | CastRay(env: Environment, startH: real, angle: real, straight: bool)
    | CastRayTarget(env: Environment, startH: real, targetH: real, targetDist: real, straight: bool)

  /** `create_path`: an angle casts from the starting altitude at that angle
      in radians; a target forwards the starting altitude, the target point
      and the straight-line flag to the target-seeking cast; the horizon
      search casts a level ray from altitude 0, ignoring the start. */
  function CreatePath(p: Params): (path: PathRequest)
    ensures path.env == p.env && path.straight == p.straight
    ensures path.CastRayTarget? <==> p.ray.dir.Target?
    ensures p.ray.dir.Angle? ==>
      path.CastRay? && path.startH == p.ray.startH && ToDegrees(path.angle) == p.ray.dir.angle
    ensures p.ray.dir.Target? ==>
      path.startH == p.ray.startH && path.targetH == p.ray.dir.h && path.targetDist == p.ray.dir.dist
    ensures p.ray.dir.Horizon? ==> path.CastRay? && path.startH == 0.0 && path.angle == 0.0
  {
    match p.ray.dir
    case Angle(ang) =>
      RadiansProperties(ang, ang);
      CastRay(p.env, p.ray.startH, ToRadians(ang), p.straight)
    case Target(h, dist) => CastRayTarget(p.env, p.ray.startH, h, dist, p.straight)
    case Horizon => CastRay(p.env, 0.0, 0.0, p.straight)
  }

  /** A horizon run casts the same ray whatever starting altitude was given. */
  lemma HorizonCastIgnoresStartH(p: Params, h: real)
    requires p.ray.dir.Horizon?
    ensures CreatePath(p) == CreatePath(p.(ray := p.ray.(startH := h)))
  {
  }
}
