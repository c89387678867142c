/** The flight simulator of cmd/edge-agent/main.go: `VehicleSim`, its commands and its physics step,
  over real numbers.

  Square root and trigonometry are whatever functions the caller supplies, as long as they satisfy
  the few laws in `Math.Sound`, `Math.Circular` and `Math.Wraps`. */
module Vehicle {
  import opened Wrappers
  import opened Rounding
  import opened Text
  import opened Schema

  datatype Math = Math(
    sqrt: real -> real, sin: real -> real, cos: real -> real, atan2: (real, real) -> real,
    mod: (real, real) -> real, degreesPerRadian: real, twoPi: real)
  {
    ghost predicate Sound() {
      && (forall x :: x >= 0.0 ==> sqrt(x) >= 0.0 && sqrt(x) * sqrt(x) == x)
      && (forall y, x {:trigger atan2(y, x)} ::
            && Norm(y, x) * cos(atan2(y, x)) == x
            && Norm(y, x) * sin(atan2(y, x)) == y)
    }

    ghost predicate Circular() {
      forall a {:trigger sin(a)} {:trigger cos(a)} :: sin(a) * sin(a) + cos(a) * cos(a) == 1.0
    }

    ghost predicate Wraps() {
      && twoPi > 0.0 && degreesPerRadian > 0.0
      && (forall x, y {:trigger mod(x, y)} :: x >= 0.0 && y > 0.0 ==> mod(x, y) == x - (x / y).Floor as real * y)
      && (forall y, x {:trigger atan2(y, x)} ::
            && -180.0 <= atan2(y, x) * degreesPerRadian <= 180.0
            && -0.5 * twoPi <= atan2(y, x) <= 0.5 * twoPi)
    }

    function Norm(y: real, x: real): real {
      sqrt(y * y + x * x)
    }
  }

  const METERS_PER_DEGREE: real := 111139.0

  function Max(a: real, b: real): real { if a >= b then a else b }

  function Min(a: real, b: real): real { if a <= b then a else b }

  // ---------------------------------------------------------------- state

  datatype Airframe = Airframe(
    id: string, vehicleType: string, team: string, centerLat: real, centerLon: real,
    cruiseAlt: real, orbitRadius: real)

  datatype Sim = Sim(
    frame: Airframe, state: string, battery: real, baseLat: real, baseLon: real,
    lat: real, lon: real, alt: real, speed: real, cruiseSpeed: real, heading: real,
    flightAngle: real, sequence: nat, ewActive: bool)

  const PATROL_MISSION: string := "TACTICAL_RECON"

  function Mission(ewActive: bool): Option<string> {
    Some(if ewActive then PATROL_MISSION + ",ew" else PATROL_MISSION)
  }

  /** The payload that a step returns. */
  function Report(s: Sim, state: string, lat: real, lon: real, alt: real, velocity: Velocity, mission: Option<string>)
    : Telemetry
  {
    Telemetry(s.frame.id, s.frame.vehicleType, s.frame.team, state, s.battery,
              Coordinates(lat, lon, alt), velocity, s.heading, mission, s.sequence)
  }

  function Drained(battery: real, amount: real): real {
    RoundTo(Max(5.0, battery - amount), 1)
  }

  function InDegrees(m: Math, bearing: real): real {
    bearing * m.degreesPerRadian
  }

  function Heading(m: Math, bearing: real): real {
    RoundTo(m.mod(InDegrees(m, bearing) + 360.0, 360.0), 1)
  }

  /** The part of a speed in a direction. */
  function Part(speed: real, direction: real): real {
    RoundTo(speed * direction, 2)
  }

  // ---------------------------------------------------------------- AIRBORNE and PATROL

  function EntryAngle(m: Math, s: Sim): real {
    m.atan2(s.lat - s.frame.centerLat, s.lon - s.frame.centerLon)
  }

  /** One coordinate moved along a direction. */
  function Advanced(v: real, stepDeg: real, direction: real): real {
    RoundTo(v + stepDeg * direction, 6)
  }

  function OrbitLat(m: Math, f: Airframe, angle: real): real {
    Advanced(f.centerLat, f.orbitRadius, m.sin(angle))
  }

  function OrbitLon(m: Math, f: Airframe, angle: real): real {
    Advanced(f.centerLon, f.orbitRadius, m.cos(angle))
  }

  /** Climb and accelerate towards cruise values. */
  function Climbed(s: Sim, dt: real): real {
    var target := if s.frame.cruiseAlt <= 0.0 then 100.0 else s.frame.cruiseAlt;
    if s.alt < target then RoundTo(Min(target, s.alt + 10.0 * dt), 1) else s.alt
  }

  function Accelerated(s: Sim, dt: real): real {
    var target := if s.cruiseSpeed <= 0.0 then 14.5 else s.cruiseSpeed;
    if s.speed < target then RoundTo(Min(target, s.speed + 4.0 * dt), 2) else s.speed
  }

  function IsClimbing(s: Sim): bool {
    s.alt < (if s.frame.cruiseAlt <= 0.0 then 100.0 else s.frame.cruiseAlt)
  }

  /** Degrees covered in dt seconds. */
  function StepDegrees(speed: real, dt: real): real {
    speed * dt / METERS_PER_DEGREE
  }

  /** Altitude lowered at a rate, down to a floor. */
  function Lowered(alt: real, floor: real, rate: real, dt: real): real {
    Max(floor, alt - rate * dt)
  }

  /** Battery drained at a rate, down to 5 percent. */
  function Drain(battery: real, rate: real, dt: real): real {
    Drained(battery, rate * dt)
  }

  function Along(m: Math, speed: real, bearing: real, vz: real, speedDecimals: nat): Velocity {
    Velocity(Part(speed, m.sin(bearing)), Part(speed, m.cos(bearing)), vz, RoundTo(speed, speedDecimals))
  }

  function ToOrbit(m: Math, s: Sim, dt: real, targetLat: real, targetLon: real): (Sim, Telemetry) {
    var distDeg := m.Norm(targetLat - s.lat, targetLon - s.lon);
    var bearing := m.atan2(targetLon - s.lon, targetLat - s.lat);
    var vz := if IsClimbing(s) then 10.0 else 0.0;
    var t := s.(heading := Heading(m, bearing), alt := Climbed(s, dt), speed := Accelerated(s, dt));
    var stepDeg := StepDegrees(t.speed, dt);
    var u :=
      if stepDeg >= distDeg then t.(lat := targetLat, lon := targetLon, flightAngle := EntryAngle(m, s))
      else t.(lat := Advanced(s.lat, stepDeg, m.cos(bearing)), lon := Advanced(s.lon, stepDeg, m.sin(bearing)));
    var v := u.(battery := Drain(s.battery, 0.04, dt));
    (v, Report(v, if v.alt < 20.0 then "TAKEOFF" else "TRANSIT", v.lat, v.lon, RoundTo(v.alt, 1),
               Along(m, v.speed, bearing, RoundTo(vz, 2), 2), Mission(v.ewActive)))
  }

  function OrbitSpeed(s: Sim): real {
    var radiusM := s.frame.orbitRadius * METERS_PER_DEGREE;
    if radiusM > 0.0 && s.speed > 0.0 then s.speed / radiusM else 0.08
  }

  function Turned(angle: real, angularSpeed: real, dt: real): real {
    angle + angularSpeed * dt
  }

  function Bobbing(m: Math, alt: real, angle: real): real {
    RoundTo(alt + 5.0 * m.sin(angle * 2.0), 2)
  }

  function Tangent(m: Math, angle: real): real {
    m.atan2(-m.sin(angle), m.cos(angle))
  }

  function OnOrbit(m: Math, s: Sim, dt: real): (Sim, Telemetry) {
    var raw := Turned(EntryAngle(m, s), OrbitSpeed(s), dt);
    var wrapped := if raw > m.twoPi then m.mod(raw, m.twoPi) else raw;
    var angle := if wrapped < 0.0 then wrapped + m.twoPi else wrapped;
    var v := s.(flightAngle := angle, lat := OrbitLat(m, s.frame, angle), lon := OrbitLon(m, s.frame, angle),
                heading := Heading(m, Tangent(m, angle)), battery := Drain(s.battery, 0.04, dt));
    (v, Report(v, v.state, v.lat, v.lon, Bobbing(m, v.alt, angle),
               Along(m, v.speed, Tangent(m, angle), 0.0, 2), Mission(v.ewActive)))
  }

  /** Distance in metres to a point. */
  function Meters(m: Math, dLat: real, dLon: real): real {
    m.Norm(dLat, dLon) * METERS_PER_DEGREE
  }

  /** Whether a point that far away is left to be flown to first. */
  predicate Displaced(distM: real, speed: real, dt: real) {
    distM > Max(8.0, speed * dt)
  }

  function Patrolled(m: Math, s: Sim, dt: real): (Sim, Telemetry) {
    var targetLat, targetLon := OrbitLat(m, s.frame, EntryAngle(m, s)), OrbitLon(m, s.frame, EntryAngle(m, s));
    if Displaced(Meters(m, targetLat - s.lat, targetLon - s.lon), s.speed, dt) then
      ToOrbit(m, s, dt, targetLat, targetLon)
    else OnOrbit(m, s, dt)
  }

  // ---------------------------------------------------------------- HOVER, RTB, LANDED

  const STILL: Velocity := Velocity(0.0, 0.0, 0.0, 0.0)

  function Hovered(s: Sim, dt: real): (Sim, Telemetry) {
    var v := s.(battery := Drain(s.battery, 0.02, dt));
    (v, Report(v, "HOVER", v.lat, v.lon, RoundTo(v.alt, 1), STILL, None))
  }

  function DistDeg(m: Math, s: Sim): real {
    m.Norm(s.baseLat - s.lat, s.baseLon - s.lon)
  }

  /** Distance to the recovery pad in metres. */
  function Distance(m: Math, s: Sim): real {
    Meters(m, s.baseLat - s.lat, s.baseLon - s.lon)
  }

  function Homeward(m: Math, s: Sim, dt: real): (Sim, Telemetry) {
    var bearing := m.atan2(s.baseLon - s.lon, s.baseLat - s.lat);
    var stepDeg := StepDegrees(s.speed, dt);
    var t := s.(heading := Heading(m, bearing));
    var u :=
      if stepDeg >= DistDeg(m, s) then t.(lat := s.baseLat, lon := s.baseLon)
      else t.(lat := Advanced(s.lat, stepDeg, m.cos(bearing)), lon := Advanced(s.lon, stepDeg, m.sin(bearing)));
    var v := if Distance(m, s) < 200.0 && s.alt > 15.0 then u.(alt := Lowered(s.alt, 15.0, 6.0, dt)) else u;
    (v, Report(v, "RTB", v.lat, v.lon, RoundTo(v.alt, 1), Along(m, v.speed, bearing, -1.0, 1), None))
  }

  function TouchingDown(s: Sim, dt: real): (Sim, Telemetry) {
    var alt := Lowered(s.alt, 0.0, 10.0, dt);
    var v :=
      if alt <= 5.0 then s.(speed := 0.0, state := "LANDED", alt := 0.0, lat := s.baseLat, lon := s.baseLon)
      else s.(speed := 0.0, alt := alt);
    (v, Report(v, v.state, v.baseLat, v.baseLon, RoundTo(v.alt, 1), Velocity(0.0, 0.0, -2.0, 0.0), None))
  }

  function Returned(m: Math, s: Sim, dt: real): (Sim, Telemetry) {
    var t := s.(battery := Drain(s.battery, 0.03, dt));
    if Distance(m, s) > 10.0 then Homeward(m, t, dt) else TouchingDown(t, dt)
  }

  /** `Step`. */
  function Stepped(m: Math, s: Sim, dt: real): (Sim, Telemetry) {
    var t := s.(sequence := s.sequence + 1);
    if s.state == "AIRBORNE" || s.state == "PATROL" then Patrolled(m, t, dt)
    else if s.state == "HOVER" then Hovered(t, dt)
    else if s.state == "RTB" then Returned(m, t, dt)
    else if s.state == "LANDED" then
      var v := t.(alt := 0.0, speed := 0.0);
      (v, Report(v, "LANDED", v.lat, v.lon, 0.0, STILL, None))
    else
      var r := Report(t, t.state, t.lat, t.lon, 0.0, STILL, None);
      (t, r.(batteryPct := RoundTo(t.battery, 1), headingDeg := 0.0))
  }

  // ---------------------------------------------------------------- commands

  function ShortName(name: string): string {
    TrimPrefix(TrimPrefix(ToLower(name), "blue-"), "red-")
  }

  /** Whether a command for this target is the vehicle's own. */
  predicate Addressed(target: string, id: string) {
    target == "" || EqualFold(target, id) || ShortName(target) == ShortName(id)
  }

  /** `HandleCommand`. */
  function Commanded(s: Sim, target: string, commandType: string): Sim {
    if !Addressed(target, s.frame.id) then s
    else if commandType == "RETURN_TO_BASE" then s.(state := "RTB", speed := 14.5)
    else if commandType == "HOVER" then s.(state := "HOVER", speed := 0.0)
    else if commandType == "PATROL" then
      var cruise := if s.cruiseSpeed <= 0.0 then 14.5 else s.cruiseSpeed;
      s.(state := "PATROL", cruiseSpeed := cruise,
         speed := if s.alt <= 5.0 || s.speed <= 0.0 then 0.0 else cruise)
    else if commandType == "ARM" then
      if s.state == "LANDED" then s.(state := "AIRBORNE", alt := 100.0, speed := 14.5) else s
    else if commandType == "DISARM" then s.(state := "LANDED", alt := 0.0, speed := 0.0)
    else if commandType == "TOGGLE_EW" then s.(ewActive := !s.ewActive)
    else s
  }

  /** `SetBase`. */
  function Rebased(s: Sim, lat: real, lon: real): Sim {
    s.(baseLat := lat, baseLon := lon)
  }

  /** `NewVehicleSim`. */
  function Launched(m: Math, id: string, vehicleType: string, team: string, lat: real, lon: real,
                    alt: real, radius: real, speed: real): Sim
  {
    var a := if alt <= 0.0 then 120.0 else alt;
    var r := if radius <= 0.0 then 0.008 else radius;
    var v := if speed <= 0.0 then 14.5 else speed;
    var f := Airframe(id, vehicleType, team, lat, lon, a, r);
    Sim(f, "AIRBORNE", 98.5, lat, lon, OrbitLat(m, f, 0.0), OrbitLon(m, f, 0.0), a, v, v, 90.0, 0.0, 0, false)
  }

  // ---------------------------------------------------------------- the object

  class VehicleSim {
    const math: Math
    const frame: Airframe
    var state: string
    var batteryPct: real
    var baseLat: real
    var baseLon: real
    var currentLat: real
    var currentLon: real
    var currentAlt: real
    var speedMps: real
    var cruiseSpeed: real
    var headingDeg: real
    var flightAngle: real
    var sequence: nat
    var ewActive: bool

    function View(): Sim
      reads this
    {
      Sim(frame, state, batteryPct, baseLat, baseLon, currentLat, currentLon, currentAlt,
          speedMps, cruiseSpeed, headingDeg, flightAngle, sequence, ewActive)
    }

    constructor (math: Math, id: string, vehicleType: string, team: string, lat: real, lon: real,
                 alt: real, radius: real, speed: real)
      ensures this.math == math
      ensures View() == Launched(math, id, vehicleType, team, lat, lon, alt, radius, speed)
    {
      hide OrbitLat, OrbitLon;
      var a := if alt <= 0.0 then 120.0 else alt;
      var r := if radius <= 0.0 then 0.008 else radius;
      var v := if speed <= 0.0 then 14.5 else speed;
      this.math := math;
      var f := Airframe(id, vehicleType, team, lat, lon, a, r);
      frame := f;
      state, batteryPct := "AIRBORNE", 98.5;
      baseLat, baseLon := lat, lon;
      currentLat, currentLon := OrbitLat(math, f, 0.0), OrbitLon(math, f, 0.0);
      currentAlt, speedMps, cruiseSpeed := a, v, v;
      headingDeg, flightAngle, sequence, ewActive := 90.0, 0.0, 0, false;
    }

    method SetBase(lat: real, lon: real)
      modifies this
      ensures View() == Rebased(old(View()), lat, lon)
    {
      baseLat, baseLon := lat, lon;
    }

    method HandleCommand(target: string, commandType: string)
      modifies this
      ensures View() == Commanded(old(View()), target, commandType)
    {
      if !Addressed(target, frame.id) {
        return;
      }
      match commandType {
        case "RETURN_TO_BASE" =>
          state := "RTB";
          speedMps := 14.5;
        case "HOVER" =>
          state := "HOVER";
          speedMps := 0.0;
        case "PATROL" =>
          state := "PATROL";
          if cruiseSpeed <= 0.0 {
            cruiseSpeed := 14.5;
          }
          if currentAlt <= 5.0 || speedMps <= 0.0 {
            speedMps := 0.0;
          } else {
            speedMps := cruiseSpeed;
          }
        case "ARM" =>
          if state == "LANDED" {
            state := "AIRBORNE";
            currentAlt := 100.0;
            speedMps := 14.5;
          }
        case "DISARM" =>
          state := "LANDED";
          currentAlt := 0.0;
          speedMps := 0.0;
        case "TOGGLE_EW" =>
          ewActive := !ewActive;
        case _ =>
      }
    }

    /** The transit part of the AIRBORNE and PATROL branch. */
    method FlyToOrbit(dt: real, targetLat: real, targetLon: real) returns (t: Telemetry)
      modifies this
      ensures (View(), t) == ToOrbit(math, old(View()), dt, targetLat, targetLon)
    {
      hide RoundTo, Heading, Climbed, Accelerated, IsClimbing, StepDegrees, Advanced, Drain, Along, EntryAngle, Mission,
        Math.Norm;
      var angleFromCenter := EntryAngle(math, View());
      var distDeg := math.Norm(targetLat - currentLat, targetLon - currentLon);
      var bearingRad := math.atan2(targetLon - currentLon, targetLat - currentLat);
      var vz := if IsClimbing(View()) then 10.0 else 0.0;
      var alt, speed := Climbed(View(), dt), Accelerated(View(), dt);
      headingDeg := Heading(math, bearingRad);
      currentAlt := alt;
      speedMps := speed;
      var stepDeg := StepDegrees(speedMps, dt);
      if stepDeg >= distDeg {
        currentLat, currentLon, flightAngle := targetLat, targetLon, angleFromCenter;
      } else {
        currentLat := Advanced(currentLat, stepDeg, math.cos(bearingRad));
        currentLon := Advanced(currentLon, stepDeg, math.sin(bearingRad));
      }
      batteryPct := Drain(batteryPct, 0.04, dt);
      t := Report(View(), if currentAlt < 20.0 then "TAKEOFF" else "TRANSIT", currentLat, currentLon,
                  RoundTo(currentAlt, 1), Along(math, speedMps, bearingRad, RoundTo(vz, 2), 2), Mission(ewActive));
    }

    /** The orbit part of the AIRBORNE and PATROL branch. */
    method FlyOrbit(dt: real) returns (t: Telemetry)
      modifies this
      ensures (View(), t) == OnOrbit(math, old(View()), dt)
    {
      hide RoundTo, Heading, OrbitSpeed, OrbitLat, OrbitLon, Turned, Bobbing, Tangent, Drain, Along, EntryAngle,
        Mission;
      flightAngle := Turned(EntryAngle(math, View()), OrbitSpeed(View()), dt);
      if flightAngle > math.twoPi {
        flightAngle := math.mod(flightAngle, math.twoPi);
      }
      if flightAngle < 0.0 {
        flightAngle := flightAngle + math.twoPi;
      }
      currentLat := OrbitLat(math, frame, flightAngle);
      currentLon := OrbitLon(math, frame, flightAngle);
      var tangentRad := Tangent(math, flightAngle);
      headingDeg := Heading(math, tangentRad);
      batteryPct := Drain(batteryPct, 0.04, dt);
      t := Report(View(), state, currentLat, currentLon, Bobbing(math, currentAlt, flightAngle),
                  Along(math, speedMps, tangentRad, 0.0, 2), Mission(ewActive));
    }

    /** The RTB branch on the way. */
    method FlyHome(dt: real) returns (t: Telemetry)
      modifies this
      ensures (View(), t) == Homeward(math, old(View()), dt)
    {
      hide RoundTo, Heading, StepDegrees, Advanced, Lowered, Along, Meters, Math.Norm;
      var distDeg := math.Norm(baseLat - currentLat, baseLon - currentLon);
      var distM := Meters(math, baseLat - currentLat, baseLon - currentLon);
      var bearingRad := math.atan2(baseLon - currentLon, baseLat - currentLat);
      headingDeg := Heading(math, bearingRad);
      var stepDeg := StepDegrees(speedMps, dt);
      if stepDeg >= distDeg {
        currentLat, currentLon := baseLat, baseLon;
      } else {
        currentLat := Advanced(currentLat, stepDeg, math.cos(bearingRad));
        currentLon := Advanced(currentLon, stepDeg, math.sin(bearingRad));
      }
      if distM < 200.0 && currentAlt > 15.0 {
        currentAlt := Lowered(currentAlt, 15.0, 6.0, dt);
      }
      t := Report(View(), "RTB", currentLat, currentLon, RoundTo(currentAlt, 1),
                  Along(math, speedMps, bearingRad, -1.0, 1), None);
    }

    /** The RTB branch over the pad. */
    method TouchDown(dt: real) returns (t: Telemetry)
      modifies this
      ensures (View(), t) == TouchingDown(old(View()), dt)
    {
      hide RoundTo, Lowered;
      speedMps := 0.0;
      currentAlt := Lowered(currentAlt, 0.0, 10.0, dt);
      if currentAlt <= 5.0 {
        state := "LANDED";
        currentAlt := 0.0;
        currentLat, currentLon := baseLat, baseLon;
      }
      t := Report(View(), state, baseLat, baseLon, RoundTo(currentAlt, 1), Velocity(0.0, 0.0, -2.0, 0.0), None);
    }

    method Step(dt: real) returns (t: Telemetry)
      modifies this
      ensures (View(), t) == Stepped(math, old(View()), dt)
    {
      hide RoundTo, ToOrbit, OnOrbit, Homeward, TouchingDown, Drain, EntryAngle, OrbitLat, OrbitLon, Meters, Displaced;
      sequence := sequence + 1;
      match state {
        case "AIRBORNE" | "PATROL" =>
          var angleFromCenter := EntryAngle(math, View());
          var targetLat := OrbitLat(math, frame, angleFromCenter);
          var targetLon := OrbitLon(math, frame, angleFromCenter);
          var distToTargetM := Meters(math, targetLat - currentLat, targetLon - currentLon);
          if Displaced(distToTargetM, speedMps, dt) {
            t := FlyToOrbit(dt, targetLat, targetLon);
          } else {
            t := FlyOrbit(dt);
          }
        case "HOVER" =>
          batteryPct := Drain(batteryPct, 0.02, dt);
          t := Report(View(), "HOVER", currentLat, currentLon, RoundTo(currentAlt, 1), STILL, None);
        case "RTB" =>
          var distM := Meters(math, baseLat - currentLat, baseLon - currentLon);
          batteryPct := Drain(batteryPct, 0.03, dt);
          if distM > 10.0 {
            t := FlyHome(dt);
          } else {
            t := TouchDown(dt);
          }
        case "LANDED" =>
          currentAlt := 0.0;
          speedMps := 0.0;
          t := Report(View(), "LANDED", currentLat, currentLon, 0.0, STILL, None);
        case _ =>
          t := Report(View(), state, currentLat, currentLon, 0.0, STILL, None);
          t := t.(batteryPct := RoundTo(batteryPct, 1), headingDeg := 0.0);
      }
    }
  }
}
