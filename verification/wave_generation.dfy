/** The synthetic wave set of gerstner_wave_generation_testing.py: a seeded
    generator that draws six uniform values per wave, the reference height
    function that sums the waves, and the exported payload.

    math.sin, math.cos and math.sqrt are library floating point; they arrive
    as the fields of a Trig value. random.Random(seed) is the stream of the
    values its random() method returns, one per draw, in order. */
module WaveGeneration {

  import opened Wrappers
  import opened Interchange
  import opened Stats

  /** One wave component: a unit direction on the XZ plane and its shape
      parameters. */
  datatype GerstnerWave = GerstnerWave(
    dirX: real, dirZ: real, amplitude: real, wavelength: real, phase: real,
    speed: real, steepness: real)

  /** math.sin, math.cos and math.sqrt. */
  datatype Trig = Trig(sin: real -> real, cos: real -> real, sqrt: real -> real)

  /** cos² + sin² = 1, the one fact about the trigonometry the model uses. */
  ghost predicate Pythagorean(trig: Trig)
  {
    forall x :: trig.cos(x) * trig.cos(x) + trig.sin(x) * trig.sin(x) == 1.0
  }

  /** math.pi as a double. */
  const Pi: real := 3.141592653589793

  /** math.radians: keeps the sign of the angle, and 180 degrees is π. */
  function Radians(degrees: real): (r: real)
    ensures r >= 0.0 <==> degrees >= 0.0
    ensures degrees == 180.0 ==> r == Pi
  {
    degrees * (Pi / 180.0)
  }

  /** unit_dir_from_angle: (cos θ, sin θ), a unit vector. */
  function UnitDirFromAngle(trig: Trig, theta: real): (d: (real, real))
    ensures Pythagorean(trig) ==> d.0 * d.0 + d.1 * d.1 == 1.0
  {
    (trig.cos(theta), trig.sin(theta))
  }

  // ---------------------------------------------------------------------
  // The seeded random stream

  /** What random() promises: every draw lies in [0, 1). */
  ghost predicate UnitDraws(stream: nat -> real)
  {
    forall n :: 0.0 <= stream(n) < 1.0
  }

  /** random.uniform(a, b) for the draw u: a + (b - a) * u. */
  function UniformValue(a: real, b: real, u: real): real
  {
    a + (b - a) * u
  }

  /** A draw from [0, 1) puts uniform(a, b) between a and b, in either
      order; the draw 0 gives a itself. */
  lemma UniformBetween(a: real, b: real, u: real)
    requires 0.0 <= u < 1.0
    ensures Between(UniformValue(a, b, u), a, b)
    ensures u == 0.0 ==> UniformValue(a, b, u) == a
  {
    BlendBetween(a, b, u);
  }

  /** random.Random(seed): the stream of its random() values and the number
      of values drawn so far. */
  class Random {
    const stream: nat -> real
    var drawn: nat

    constructor (stream: nat -> real)
      ensures this.stream == stream && drawn == 0
    {
      this.stream := stream;
      drawn := 0;
    }

    /** random.uniform(a, b): consumes exactly one draw. */
    method Uniform(a: real, b: real) returns (x: real)
      modifies this
      ensures drawn == old(drawn) + 1
      ensures x == UniformValue(a, b, stream(old(drawn)))
    {
      x := UniformValue(a, b, stream(drawn));
      drawn := drawn + 1;
    }
  }

  // ---------------------------------------------------------------------
  // generate_waves

  /** The keyword arguments of generate_waves (the seed is the stream). */
  datatype GenConfig = GenConfig(
    waveCount: int,
    amplitudeRange: (real, real),
    wavelengthRange: (real, real),
    steepnessRange: (real, real),
    speedRange: (real, real),
    prevailingDegrees: real,
    spreadDegrees: real)

  /** The defaults of generate_waves. */
  const DefaultConfig: GenConfig :=
    GenConfig(6, (0.08, 0.30), (3.0, 16.0), (0.12, 0.35), (0.9, 1.2), 30.0, 35.0)

  /** Every wave consumes six draws: wave i starts at draw 6i and takes them
      in this order. */
  function FirstDraw(i: nat): nat
  {
    6 * i
  }

  const DirectionDraw: nat := 0
  const AmplitudeDraw: nat := 1
  const WavelengthDraw: nat := 2
  const SteepnessDraw: nat := 3
  const SpeedDraw: nat := 4
  const PhaseDraw: nat := 5

  /** The number of waves range(wave_count) yields. */
  function WaveCount(cfg: GenConfig): nat
  {
    if cfg.waveCount <= 0 then 0 else cfg.waveCount
  }

  /** The direction angle of the wave whose draws start at `base`. */
  function DirectionAngle(cfg: GenConfig, stream: nat -> real, base: nat): real
  {
    var spread := Radians(cfg.spreadDegrees);
    Radians(cfg.prevailingDegrees) + UniformValue(-spread, spread, stream(base + DirectionDraw))
  }

  /** The wave built from the six draws starting at `base`. */
  function DrawnWave(cfg: GenConfig, trig: Trig, stream: nat -> real, base: nat): GerstnerWave
  {
    var d := UnitDirFromAngle(trig, DirectionAngle(cfg, stream, base));
    GerstnerWave(
      d.0, d.1,
      UniformValue(cfg.amplitudeRange.0, cfg.amplitudeRange.1, stream(base + AmplitudeDraw)),
      UniformValue(cfg.wavelengthRange.0, cfg.wavelengthRange.1, stream(base + WavelengthDraw)),
      UniformValue(0.0, 2.0 * Pi, stream(base + PhaseDraw)),
      UniformValue(cfg.speedRange.0, cfg.speedRange.1, stream(base + SpeedDraw)),
      UniformValue(cfg.steepnessRange.0, cfg.steepnessRange.1, stream(base + SteepnessDraw)))
  }

  /** The list generate_waves returns: wave i is built from draws 6i..6i+5. */
  function Waves(cfg: GenConfig, trig: Trig, stream: nat -> real): (ws: seq<GerstnerWave>)
    ensures |ws| == WaveCount(cfg)
  {
    seq(WaveCount(cfg), i requires 0 <= i => DrawnWave(cfg, trig, stream, FirstDraw(i)))
  }

  /** generate_waves: one fresh generator, six draws per wave, one record
      appended per iteration. `stream` is what random.Random(seed) yields;
      the seed itself (42 by default) is not modelled apart from it. */
  method GenerateWaves(trig: Trig, stream: nat -> real, cfg: GenConfig := DefaultConfig)
    returns (waves: seq<GerstnerWave>)
    ensures |waves| == WaveCount(cfg)
    ensures forall i :: 0 <= i < |waves| ==> waves[i] == DrawnWave(cfg, trig, stream, FirstDraw(i))
    ensures waves == Waves(cfg, trig, stream)
  {
    var rng := new Random(stream);
    waves := [];
    var n := 0;
    while n < cfg.waveCount
      invariant 0 <= n <= WaveCount(cfg) && |waves| == n
      invariant rng.stream == stream && rng.drawn == FirstDraw(n)
      invariant GeneratedSoFar(cfg, trig, stream, waves)
    {
      var w := DrawWave(cfg, trig, rng);
      AppendDrawn(cfg, trig, stream, waves, w);
      waves := waves + [w];
      n := n + 1;
    }
  }

  /** One iteration of generate_waves: the direction offset, then amplitude,
      wavelength, steepness, speed and phase, each from the next draw. */
  method DrawWave(cfg: GenConfig, trig: Trig, rng: Random) returns (w: GerstnerWave)
    modifies rng
    ensures rng.drawn == old(rng.drawn) + 6
    ensures w == DrawnWave(cfg, trig, rng.stream, old(rng.drawn))
  {
    ghost var base := rng.drawn;
    var prevailing := Radians(cfg.prevailingDegrees);
    var spread := Radians(cfg.spreadDegrees);
    var offset := rng.Uniform(-spread, spread);
    assert prevailing + offset == DirectionAngle(cfg, rng.stream, base);
    var d := UnitDirFromAngle(trig, prevailing + offset);
    assert d == UnitDirFromAngle(trig, DirectionAngle(cfg, rng.stream, base));
    var amp := rng.Uniform(cfg.amplitudeRange.0, cfg.amplitudeRange.1);
    assert amp == UniformValue(cfg.amplitudeRange.0, cfg.amplitudeRange.1, rng.stream(base + AmplitudeDraw));
    var wl := rng.Uniform(cfg.wavelengthRange.0, cfg.wavelengthRange.1);
    assert wl == UniformValue(cfg.wavelengthRange.0, cfg.wavelengthRange.1, rng.stream(base + WavelengthDraw));
    var st := rng.Uniform(cfg.steepnessRange.0, cfg.steepnessRange.1);
    assert st == UniformValue(cfg.steepnessRange.0, cfg.steepnessRange.1, rng.stream(base + SteepnessDraw));
    var sp := rng.Uniform(cfg.speedRange.0, cfg.speedRange.1);
    assert sp == UniformValue(cfg.speedRange.0, cfg.speedRange.1, rng.stream(base + SpeedDraw));
    var ph := rng.Uniform(0.0, 2.0 * Pi);
    assert ph == UniformValue(0.0, 2.0 * Pi, rng.stream(base + PhaseDraw));
    w := GerstnerWave(d.0, d.1, amp, wl, ph, sp, st);
  }

  /** Wave i of the list is the one built from draws 6i..6i+5. */
  ghost predicate GeneratedSoFar(cfg: GenConfig, trig: Trig, stream: nat -> real, waves: seq<GerstnerWave>)
  {
    forall i :: 0 <= i < |waves| ==> waves[i] == DrawnWave(cfg, trig, stream, FirstDraw(i))
  }

  lemma AppendDrawn(cfg: GenConfig, trig: Trig, stream: nat -> real, waves: seq<GerstnerWave>, w: GerstnerWave)
    requires GeneratedSoFar(cfg, trig, stream, waves)
    requires w == DrawnWave(cfg, trig, stream, FirstDraw(|waves|))
    ensures GeneratedSoFar(cfg, trig, stream, waves + [w])
  {
    var ws := waves + [w];
    forall i | 0 <= i < |ws| ensures ws[i] == DrawnWave(cfg, trig, stream, FirstDraw(i)) {
      if i < |waves| {
        assert ws[i] == waves[i];
      }
    }
  }

  /** Only the first 6·count draws matter: two streams that agree on them
      give the same waves. */
  lemma WavesDependOnlyOnTheirDraws(cfg: GenConfig, trig: Trig, s1: nat -> real, s2: nat -> real)
    requires forall n: nat :: n < FirstDraw(WaveCount(cfg)) ==> s1(n) == s2(n)
    ensures Waves(cfg, trig, s1) == Waves(cfg, trig, s2)
  {
    var w1, w2 := Waves(cfg, trig, s1), Waves(cfg, trig, s2);
    forall i | 0 <= i < WaveCount(cfg) ensures w1[i] == w2[i] {
      var base := FirstDraw(i);
      assert base + PhaseDraw < FirstDraw(WaveCount(cfg));
      assert s1(base + DirectionDraw) == s2(base + DirectionDraw);
      assert s1(base + AmplitudeDraw) == s2(base + AmplitudeDraw);
      assert s1(base + WavelengthDraw) == s2(base + WavelengthDraw);
      assert s1(base + SteepnessDraw) == s2(base + SteepnessDraw);
      assert s1(base + SpeedDraw) == s2(base + SpeedDraw);
      assert s1(base + PhaseDraw) == s2(base + PhaseDraw);
      assert DirectionAngle(cfg, s1, base) == DirectionAngle(cfg, s2, base);
      assert w1[i] == DrawnWave(cfg, trig, s1, base);
    }
  }

  /** Every generated field lies in its configured range, the phase in
      [0, 2π], the direction angle within the spread of the prevailing
      direction, and the direction is a unit vector. */
  lemma DrawnWaveWithinRanges(cfg: GenConfig, trig: Trig, stream: nat -> real, base: nat)
    requires UnitDraws(stream)
    ensures var w := DrawnWave(cfg, trig, stream, base);
            && Between(w.amplitude, cfg.amplitudeRange.0, cfg.amplitudeRange.1)
            && Between(w.wavelength, cfg.wavelengthRange.0, cfg.wavelengthRange.1)
            && Between(w.steepness, cfg.steepnessRange.0, cfg.steepnessRange.1)
            && Between(w.speed, cfg.speedRange.0, cfg.speedRange.1)
            && 0.0 <= w.phase <= 2.0 * Pi
            && (w.dirX, w.dirZ) == UnitDirFromAngle(trig, DirectionAngle(cfg, stream, base))
            && (Pythagorean(trig) ==> w.dirX * w.dirX + w.dirZ * w.dirZ == 1.0)
    ensures var prevailing, spread := Radians(cfg.prevailingDegrees), Radians(cfg.spreadDegrees);
            Between(DirectionAngle(cfg, stream, base) - prevailing, -spread, spread)
  {
    UniformBetween(cfg.amplitudeRange.0, cfg.amplitudeRange.1, stream(base + AmplitudeDraw));
    UniformBetween(cfg.wavelengthRange.0, cfg.wavelengthRange.1, stream(base + WavelengthDraw));
    UniformBetween(cfg.steepnessRange.0, cfg.steepnessRange.1, stream(base + SteepnessDraw));
    UniformBetween(cfg.speedRange.0, cfg.speedRange.1, stream(base + SpeedDraw));
    UniformBetween(0.0, 2.0 * Pi, stream(base + PhaseDraw));
    var spread := Radians(cfg.spreadDegrees);
    UniformBetween(-spread, spread, stream(base + DirectionDraw));
  }

  // ---------------------------------------------------------------------
  // height_at

  /** The smallest wavelength height_at divides by. */
  const MinWavelength: real := 0.000000001

  /** k = 2π / max(wavelength, 1e-9): positive for every wavelength. */
  function WaveNumber(wavelength: real): (k: real)
    ensures k > 0.0
    ensures wavelength >= MinWavelength ==> k * wavelength == 2.0 * Pi
    ensures wavelength < MinWavelength ==> k * MinWavelength == 2.0 * Pi
  {
    var divisor := if MinWavelength > wavelength then MinWavelength else wavelength;
    2.0 * Pi / divisor
  }

  /** θ = k·(dir · (x, z)) + ω·t + phase. */
  function Theta(w: GerstnerWave, k: real, omega: real, x: real, z: real, t: real): real
  {
    k * (w.dirX * x + w.dirZ * z) + omega * t + w.phase
  }

  /** ω = sqrt(g·k)·speed. */
  function Omega(trig: Trig, gravity: real, k: real, speed: real): real
  {
    trig.sqrt(gravity * k) * speed
  }

  /** One wave's vertical displacement at (x, z) and time t. */
  function Term(trig: Trig, w: GerstnerWave, x: real, z: real, t: real, gravity: real): real
  {
    var k := WaveNumber(w.wavelength);
    w.amplitude * trig.sin(Theta(w, k, Omega(trig, gravity, k, w.speed), x, z, t))
  }

  /** Σ A·sin(θ) over the waves, accumulated in list order. Since |sin| <= 1,
      the surface never leaves the band of the summed absolute amplitudes. */
  function Height(trig: Trig, waves: seq<GerstnerWave>, x: real, z: real, t: real, gravity: real): (h: real)
    ensures Pythagorean(trig) ==> -AmplitudeSum(waves) <= h <= AmplitudeSum(waves)
  {
    if waves == [] then 0.0
    else
      var n := |waves| - 1;
      TermBounded(trig, waves[n], x, z, t, gravity);
      Height(trig, waves[..n], x, z, t, gravity) + Term(trig, waves[n], x, z, t, gravity)
  }

  /** Σ |A| over the waves. */
  function AmplitudeSum(waves: seq<GerstnerWave>): real
  {
    if waves == [] then 0.0
    else
      var a := waves[|waves| - 1].amplitude;
      AmplitudeSum(waves[..|waves| - 1]) + (if a >= 0.0 then a else -a)
  }

  /** One wave moves the surface by at most its absolute amplitude. */
  lemma TermBounded(trig: Trig, w: GerstnerWave, x: real, z: real, t: real, gravity: real)
    ensures var a := if w.amplitude >= 0.0 then w.amplitude else -w.amplitude;
            Pythagorean(trig) ==> -a <= Term(trig, w, x, z, t, gravity) <= a
  {
    if Pythagorean(trig) {
      var k := WaveNumber(w.wavelength);
      var theta := Theta(w, k, Omega(trig, gravity, k, w.speed), x, z, t);
      var A, sin := w.amplitude, trig.sin(theta);
      SineBounded(trig, theta);
      assert Term(trig, w, x, z, t, gravity) == A * sin;
      if A >= 0.0 {
        NonNegativeProduct(A, 1.0 - sin);
        NonNegativeProduct(A, 1.0 + sin);
      } else {
        NonNegativeProduct(-A, 1.0 - sin);
        NonNegativeProduct(-A, 1.0 + sin);
      }
    }
  }

  /** cos² + sin² = 1 keeps every sine within [-1, 1]. */
  lemma SineBounded(trig: Trig, theta: real)
    requires Pythagorean(trig)
    ensures -1.0 <= trig.sin(theta) <= 1.0
  {
    var s, c := trig.sin(theta), trig.cos(theta);
    assert c * c + s * s == 1.0;
    if c >= 0.0 {
      NonNegativeProduct(c, c);
    } else {
      NonNegativeProduct(-c, -c);
    }
    if s > 1.0 {
      PositiveProduct(s - 1.0, s + 1.0);
    }
    if s < -1.0 {
      PositiveProduct(-1.0 - s, 1.0 - s);
    }
  }

  /** height_at: the running sum over the waves. math.sqrt raises ValueError
      on a negative argument, which happens exactly when gravity < 0 and
      there is a wave (k is always positive). */
  method HeightAt(trig: Trig, x: real, z: real, t: real, waves: seq<GerstnerWave>, gravity: real := DefaultGravity)
    returns (r: Option<real>)
    ensures r.None? <==> gravity < 0.0 && |waves| > 0
    ensures r.Some? ==> r.value == Height(trig, waves, x, z, t, gravity)
  {
    var y := 0.0;
    var i := 0;
    while i < |waves|
      invariant 0 <= i <= |waves|
      invariant i > 0 ==> gravity >= 0.0
      invariant y == Height(trig, waves[..i], x, z, t, gravity)
    {
      var w := waves[i];
      var k := WaveNumber(w.wavelength);
      var gk := gravity * k;
      if gk < 0.0 {
        NegativeUnderRoot(gravity, k);
        return None;
      }
      NonNegativeUnderRoot(gravity, k);
      var omega := Omega(trig, gravity, k, w.speed);
      var theta := Theta(w, k, omega, x, z, t);
      assert Term(trig, w, x, z, t, gravity) == w.amplitude * trig.sin(theta);
      y := y + w.amplitude * trig.sin(theta);
      HeightStep(trig, waves, i, x, z, t, gravity);
      i := i + 1;
    }
    assert waves[..i] == waves;
    return Some(y);
  }

  lemma HeightStep(trig: Trig, waves: seq<GerstnerWave>, i: nat, x: real, z: real, t: real, gravity: real)
    requires i < |waves|
    ensures Height(trig, waves[..i + 1], x, z, t, gravity)
            == Height(trig, waves[..i], x, z, t, gravity) + Term(trig, waves[i], x, z, t, gravity)
  {
    assert waves[..i + 1][..i] == waves[..i];
  }

  lemma NegativeUnderRoot(gravity: real, k: real)
    requires k > 0.0 && gravity * k < 0.0
    ensures gravity < 0.0
  {
  }

  lemma NonNegativeUnderRoot(gravity: real, k: real)
    requires k > 0.0 && gravity * k >= 0.0
    ensures gravity >= 0.0
  {
  }

  /** Heights superpose: the height of a concatenated list is the sum of the
      heights of its parts. */
  lemma {:induction false} HeightSuperposes(trig: Trig, a: seq<GerstnerWave>, b: seq<GerstnerWave>,
                                            x: real, z: real, t: real, gravity: real)
    ensures Height(trig, a + b, x, z, t, gravity)
            == Height(trig, a, x, z, t, gravity) + Height(trig, b, x, z, t, gravity)
  {
    if b == [] {
      assert a + b == a;
    } else {
      var n := |b| - 1;
      HeightSuperposes(trig, a, b[..n], x, z, t, gravity);
      assert (a + b)[..|a + b| - 1] == a + b[..n];
    }
  }

  // ---------------------------------------------------------------------
  // export_unity_json

  /** The field names dataclasses.asdict writes: the seven dataclass fields,
      without k or omega. */
  const WaveFields: set<string> :=
    {"dir_x", "dir_z", "amplitude", "wavelength", "phase", "speed", "steepness"}

  /** dataclasses.asdict of one wave. */
  function AsDict(w: GerstnerWave): (e: Entry)
    ensures e.Keys == WaveFields
    ensures "k" !in e && "omega" !in e
  {
    map["dir_x" := w.dirX, "dir_z" := w.dirZ, "amplitude" := w.amplitude,
        "wavelength" := w.wavelength, "phase" := w.phase, "speed" := w.speed,
        "steepness" := w.steepness]
  }

  /** Reads a wave back from a JSON object, if it has every field. */
  function FromDict(e: Entry): Option<GerstnerWave>
  {
    if WaveFields <= e.Keys then
      Some(GerstnerWave(e["dir_x"], e["dir_z"], e["amplitude"], e["wavelength"], e["phase"],
                        e["speed"], e["steepness"]))
    else None
  }

  /** Every field survives the export. */
  lemma DictRoundTrip(w: GerstnerWave)
    ensures FromDict(AsDict(w)) == Some(w)
  {
    var e := AsDict(w);
    assert WaveFields <= e.Keys;
  }

  /** The payload of export_unity_json: the model tag, the gravity, and one
      JSON object per wave in list order. */
  function ExportUnityJson(waves: seq<GerstnerWave>, gravity: real := DefaultGravity): (d: Document)
    ensures d.model == ModelName && d.gravity == gravity
    ensures |d.waves| == |waves|
    ensures forall i :: 0 <= i < |d.waves| ==>
              d.waves[i].Keys == WaveFields && FromDict(d.waves[i]) == Some(waves[i])
  {
    var entries := seq(|waves|, i requires 0 <= i < |waves| => AsDict(waves[i]));
    forall i | 0 <= i < |waves| ensures FromDict(entries[i]) == Some(waves[i]) {
      DictRoundTrip(waves[i]);
    }
    Document(ModelName, gravity, entries)
  }
}
