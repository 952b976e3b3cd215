/**
 * The unified motor abstraction (NAR_Motor): a command entry point that
 * suppresses repeated commands, converts between caller units and the
 * device's native units, optionally wraps positions into a circular range,
 * and dispatches one write per command to the vendor backend; plus the
 * leader/follower registry whose periodic sweep mirrors each leader's output.
 *
 * The vendor backend is abstract. Every write it receives is recorded, in
 * order, in the motor's ghost `calls` log; what it reports (applied output,
 * raw position, raw velocity) are fields the device keeps up to date.
 */
module NarMotor {
  import opened MathUtil

  /** Motor control modes. */
  datatype Control = PercentOutput | Velocity | Position

  /** Motor behaviour when no voltage is applied. */
  datatype Neutral = Brake | Coast

  /** One write to the vendor backend. */
  datatype BackendCall =
    | SetPercentOutput(speed: real)
    | SetVelocity(rpm: real, feedForward: real)
    | SetPosition(rotations: real, feedForward: real)
    | ResetRawPosition(rotations: real)
    | SetBrakeMode
    | SetCoastMode

  /** The triple the redundant-command check compares. */
  datatype Command = Command(value: real, mode: Control, feedForward: real)

  /** A fresh motor's previous command: zero percent output, no feed-forward. */
  const InitialCommand := Command(0.0, PercentOutput, 0.0)

  /** The command `set(output)` issues. */
  function PercentCommand(output: real): Command {
    Command(output, PercentOutput, 0.0)
  }

  /** A motor's unit conversion factors and continuous range. */
  datatype Config = Config(unitFactor: real, timeFactor: real, continuous: bool, minInput: real, maxInput: real)

  /** Wrapping is defined: the continuous range, when on, has positive width. */
  predicate WrapReady(c: Config) {
    c.continuous ==> c.minInput < c.maxInput
  }

  /** What a command in `mode` needs of the configuration for its conversion to be defined. */
  predicate Convertible(c: Config, mode: Control) {
    match mode
    case PercentOutput => true
    case Velocity => c.unitFactor != 0.0
    case Position => c.unitFactor != 0.0 && WrapReady(c)
  }

  /** Applies the continuous-range wrap when it is enabled. */
  ghost function Wrap(c: Config, x: real): real
    requires WrapReady(c)
  {
    if c.continuous then InputModulus(x, c.minInput, c.maxInput) else x
  }

  /** The wrap leaves `x` alone on a non-continuous motor, and otherwise lands on a point of the range congruent to `x`. */
  lemma WrapSpec(c: Config, x: real)
    requires WrapReady(c)
    ensures !c.continuous ==> Wrap(c, x) == x
    ensures c.continuous ==> IsWrapOf(Wrap(c, x), x, c.minInput, c.maxInput)
  {
  }

  /** Velocity mode: a caller velocity in native units. */
  function NativeVelocity(c: Config, value: real): (rpm: real)
    requires c.unitFactor != 0.0
    ensures rpm * c.unitFactor == value * c.timeFactor
  {
    value / c.unitFactor * c.timeFactor
  }

  /**
   * Position mode, as `set` converts it: the caller position is divided by
   * the unit factor first and then wrapped, so the continuous bounds are
   * applied to native rotations.
   */
  ghost function NativePositionAsWritten(c: Config, value: real): (rotations: real)
    requires c.unitFactor != 0.0 && WrapReady(c)
    ensures !c.continuous ==> rotations == value / c.unitFactor
    ensures c.continuous ==> IsWrapOf(rotations, value / c.unitFactor, c.minInput, c.maxInput)
  {
    WrapSpec(c, value / c.unitFactor);
    Wrap(c, value / c.unitFactor)
  }

  /**
   * The position conversion that agrees with `getPosition`: the caller
   * position wrapped into the continuous range in caller units (the units
   * `getPosition` wraps in), then converted to native units.
   */
  ghost function NativePosition(c: Config, value: real): (rotations: real)
    requires c.unitFactor != 0.0 && WrapReady(c)
    ensures rotations * c.unitFactor == Wrap(c, value)
  {
    Wrap(c, value) / c.unitFactor
  }

  /**
   * The two differ as soon as the unit factor is not 1: with 360 caller units
   * (degrees) per rotation and the range [0, 360], a setpoint of 370 degrees
   * is written as 370/360 rotations (370 degrees, outside the range, one turn
   * more than needed) where 10/360 rotations (10 degrees) is meant.
   */
  lemma NativePositionAsWrittenIgnoresUnits()
    ensures var c := Config(360.0, 1.0, true, 0.0, 360.0);
      && NativePositionAsWritten(c, 370.0) * 360.0 == 370.0
      && NativePosition(c, 370.0) * 360.0 == 10.0
  {
    var c := Config(360.0, 1.0, true, 0.0, 360.0);
    var w := NativePositionAsWritten(c, 370.0);
    WrapSpec(c, 370.0 / 360.0);
    WrapSpec(c, 370.0);
    var k :| w - 370.0 / 360.0 == Times(k, 360.0);
    if k >= 1 {
      TimesMonotone(1, k, 360.0);
    } else if k <= -1 {
      TimesMonotone(k, -1, 360.0);
    }
    var p := Wrap(c, 370.0);
    var j :| p - 370.0 == Times(j, 360.0);
    if j >= 0 {
      TimesMonotone(0, j, 360.0);
    } else if j <= -2 {
      assert Times(-2, 360.0) == -720.0;
      TimesMonotone(j, -2, 360.0);
    }
    assert p == 10.0;
  }

  /**
   * As written, a position setpoint does not read back as the same point of
   * the circle: with unit factor 0.5 and range [0, 1], `set(0.8)` writes
   * 1.6 wrapped in rotations, 0.6, and `getPosition` then reads 0.6 * 0.5 = 0.3.
   */
  lemma AsWrittenReadBackDiffers()
    ensures var c := Config(0.5, 1.0, true, 0.0, 1.0);
      && NativePositionAsWritten(c, 0.8) == 0.6
      && PositionReading(c, NativePositionAsWritten(c, 0.8)) == 0.3
      && Wrap(c, 0.8) == 0.8
      && !WrapEquivalent(PositionReading(c, NativePositionAsWritten(c, 0.8)), Wrap(c, 0.8), c.minInput, c.maxInput)
  {
    var c := Config(0.5, 1.0, true, 0.0, 1.0);
    var w := NativePositionAsWritten(c, 0.8);
    var k :| w - 0.8 / 0.5 == Times(k, 1.0);
    TimesIsProduct(k, 1.0);
    assert w == 0.6;
    ReadingOf(c, w, 0.3);
    var r := Wrap(c, 0.3);
    WrapSpec(c, 0.3);
    var j :| r - 0.3 == Times(j, 1.0);
    TimesIsProduct(j, 1.0);
    assert r == 0.3;
    var p := Wrap(c, 0.8);
    WrapSpec(c, 0.8);
    var i :| p - 0.8 == Times(i, 1.0);
    TimesIsProduct(i, 1.0);
    assert p == 0.8;
  }

  /** The backend write a command that is not suppressed turns into. */
  ghost function Dispatch(c: Config, cmd: Command): (call: BackendCall)
    requires Convertible(c, cmd.mode)
    ensures cmd.mode == PercentOutput <==> call.SetPercentOutput?
    ensures cmd.mode == Velocity <==> call.SetVelocity?
    ensures cmd.mode == Position <==> call.SetPosition?
    ensures call.SetPercentOutput? ==> -1.0 <= call.speed <= 1.0
    ensures call.SetPercentOutput? && -1.0 <= cmd.value <= 1.0 ==> call.speed == cmd.value
    ensures call.SetPercentOutput? && cmd.value > 1.0 ==> call.speed == 1.0
    ensures call.SetPercentOutput? && cmd.value < -1.0 ==> call.speed == -1.0
    ensures call.SetVelocity? ==> call.rpm * c.unitFactor == cmd.value * c.timeFactor
    ensures call.SetPosition? && !c.continuous ==> call.rotations == cmd.value / c.unitFactor
    ensures call.SetPosition? && c.continuous ==> IsWrapOf(call.rotations, cmd.value / c.unitFactor, c.minInput, c.maxInput)
    ensures call.SetVelocity? || call.SetPosition? ==> call.feedForward == cmd.feedForward
  {
    match cmd.mode
    case PercentOutput => SetPercentOutput(Clamp(cmd.value, -1.0, 1.0))
    case Velocity => SetVelocity(NativeVelocity(c, cmd.value), cmd.feedForward)
    case Position => SetPosition(NativePositionAsWritten(c, cmd.value), cmd.feedForward)
  }

  /**
   * The outcome of issuing `cmd` to a motor whose previous command is
   * `prev`: the new previous command and the backend writes made.
   */
  datatype Outcome = Outcome(prev: Command, writes: seq<BackendCall>)

  /** The redundant-command check followed by the dispatch. */
  ghost function Issue(prev: Command, c: Config, cmd: Command): (r: Outcome)
    requires Convertible(c, cmd.mode)
    ensures r.writes == [] <==> cmd == prev
    ensures |r.writes| <= 1
    ensures r.prev == cmd
    ensures r.writes != [] ==> r.writes[0] == Dispatch(c, cmd)
  {
    if cmd == prev then Outcome(prev, []) else Outcome(cmd, [Dispatch(c, cmd)])
  }

  /** Issuing the same command twice in a row reaches the backend at most once. */
  lemma IssueTwice(prev: Command, c: Config, c': Config, cmd: Command)
    requires Convertible(c, cmd.mode) && Convertible(c', cmd.mode)
    ensures Issue(Issue(prev, c, cmd).prev, c', cmd) == Outcome(cmd, [])
  {
  }

  /** A fresh motor ignores `set(0)`. */
  lemma FreshMotorIgnoresZero(c: Config)
    ensures Issue(InitialCommand, c, PercentCommand(0.0)).writes == []
  {
  }

  /**
   * The writes `set(output)` makes on a motor whose previous command is
   * `prev`: none when it already holds `output` in percent mode, otherwise
   * one clamped percent output.
   */
  function PercentWrites(prev: Command, output: real): (writes: seq<BackendCall>)
    ensures writes == [] <==> prev == PercentCommand(output)
    ensures writes != [] ==> writes == [SetPercentOutput(Clamp(output, -1.0, 1.0))]
  {
    if prev == PercentCommand(output) then [] else [SetPercentOutput(Clamp(output, -1.0, 1.0))]
  }

  /** Percent commands dispatch the same writes whatever the configuration. */
  lemma PercentIssue(prev: Command, c: Config, output: real)
    ensures Issue(prev, c, PercentCommand(output)).writes == PercentWrites(prev, output)
  {
  }

  /** With unit factor 1 and time factor 60, a velocity of 120 is written as 7200. */
  lemma VelocityExample(continuous: bool, minInput: real, maxInput: real)
    ensures Dispatch(Config(1.0, 60.0, continuous, minInput, maxInput), Command(120.0, Velocity, 0.0)) == SetVelocity(7200.0, 0.0)
  {
  }

  /** `getPosition`: raw position in caller units, wrapped when continuous. */
  ghost function PositionReading(c: Config, raw: real): (p: real)
    requires WrapReady(c)
  {
    Wrap(c, raw * c.unitFactor)
  }

  /**
   * The position reading is the raw position times the unit factor, or, on a
   * continuous motor, the point of the range congruent to it.
   */
  lemma PositionReadingSpec(c: Config, raw: real)
    requires WrapReady(c)
    ensures !c.continuous ==> PositionReading(c, raw) == raw * c.unitFactor
    ensures c.continuous ==> IsWrapOf(PositionReading(c, raw), raw * c.unitFactor, c.minInput, c.maxInput)
  {
    WrapSpec(c, raw * c.unitFactor);
  }

  /** `getVelocity`: raw velocity in caller units. */
  function VelocityReading(c: Config, raw: real): (v: real)
    requires c.timeFactor != 0.0
    ensures v * c.timeFactor == raw * c.unitFactor
  {
    raw * c.unitFactor / c.timeFactor
  }

  /** `resetPosition`: the native position the backend is reset to. */
  function ResetTarget(c: Config, position: real): (rotations: real)
    requires c.unitFactor != 0.0
    ensures rotations * c.unitFactor == position
  {
    position / c.unitFactor
  }

  /**
   * Reading back a reset: once the backend reports the position it was reset
   * to, `getPosition` gives the reset position back (wrapped, when continuous).
   */
  lemma ResetThenRead(c: Config, position: real)
    requires c.unitFactor != 0.0 && WrapReady(c)
    ensures PositionReading(c, ResetTarget(c, position)) == Wrap(c, position)
    ensures !c.continuous ==> PositionReading(c, ResetTarget(c, position)) == position
  {
    ReadingOf(c, ResetTarget(c, position), position);
    WrapSpec(c, position);
  }

  /**
   * Reading back a position setpoint: once the device reaches the native
   * position written for `value`, `getPosition` gives `value` back, wrapped
   * into the continuous range when that is on.
   */
  lemma PositionSetpointThenRead(c: Config, value: real)
    requires c.unitFactor != 0.0 && WrapReady(c)
    ensures !c.continuous ==> PositionReading(c, NativePosition(c, value)) == value
    ensures c.continuous ==> WrapEquivalent(PositionReading(c, NativePosition(c, value)), Wrap(c, value), c.minInput, c.maxInput)
  {
    var native := NativePosition(c, value);
    var w := Wrap(c, value);
    ReadingOf(c, native, w);
    WrapSpec(c, value);
    WrapSpec(c, w);
    if c.continuous {
      WrapUnique(Wrap(c, w), w, c.minInput, c.maxInput);
    }
  }

  /** Reading back a velocity setpoint: the native velocity written for `value` reads as `value`. */
  lemma VelocitySetpointThenRead(c: Config, value: real)
    requires c.unitFactor != 0.0 && c.timeFactor != 0.0
    ensures VelocityReading(c, NativeVelocity(c, value)) == value
  {
    var rpm := NativeVelocity(c, value);
    var v := VelocityReading(c, rpm);
    assert v * c.timeFactor == value * c.timeFactor;
    CancelFactor(v, value, c.timeFactor);
  }

  lemma CancelFactor(a: real, b: real, k: real)
    requires k != 0.0 && a * k == b * k
    ensures a == b
  {
    assert (a - b) * k == 0.0;
  }

  /**
   * On a continuous motor, raw positions one full turn of the range apart
   * (measured in native units) read as the same point of the range.
   */
  lemma PositionReadingPeriodic(c: Config, raw: real, n: int)
    requires c.unitFactor != 0.0 && c.continuous && c.minInput < c.maxInput
    ensures WrapEquivalent(PositionReading(c, raw), PositionReading(c, raw + Times(n, c.maxInput - c.minInput) / c.unitFactor), c.minInput, c.maxInput)
  {
    var turn := Times(n, c.maxInput - c.minInput);
    ShiftScales(raw, turn, c.unitFactor);
    ReadingOf(c, raw + turn / c.unitFactor, raw * c.unitFactor + turn);
    ReadingOf(c, raw, raw * c.unitFactor);
    InputModulusPeriodic(raw * c.unitFactor, n, c.minInput, c.maxInput);
  }

  /** A raw position that is `x` in caller units reads as `x`, wrapped. */
  lemma ReadingOf(c: Config, raw: real, x: real)
    requires WrapReady(c) && raw * c.unitFactor == x
    ensures PositionReading(c, raw) == Wrap(c, x)
  {
    assert PositionReading(c, raw) == Wrap(c, raw * c.unitFactor);
  }

  /** Shifting a native value by `d / k` shifts its caller-unit value by `d`. */
  lemma ShiftScales(raw: real, d: real, k: real)
    requires k != 0.0
    ensures (raw + d / k) * k == raw * k + d
  {
    assert (raw + d / k) * k == raw * k + (d / k) * k;
  }

  /** `enableContinuousInput` stores the bounds in order, whichever order they come in. */
  lemma ContinuousRangeNormalized(a: real, b: real)
    ensures Min(a, b) <= Max(a, b)
    ensures {Min(a, b), Max(a, b)} == {a, b}
    ensures Min(a, b) == Min(b, a) && Max(a, b) == Max(b, a)
  {
  }

  /** The backend write for a neutral mode. */
  function NeutralCall(mode: Neutral): (call: BackendCall)
    ensures call == SetBrakeMode || call == SetCoastMode
    ensures call == SetBrakeMode <==> mode == Brake
  {
    match mode
    case Brake => SetBrakeMode
    case Coast => SetCoastMode
  }

  /** A motor: the state NAR_Motor keeps, over an abstract backend. */
  class Motor {
    /** Motors that mirror this one's output (registration order, duplicates kept). */
    var followers: seq<Motor>
    var prevValue: real
    var prevMode: Control
    var prevFeedForward: real
    var minInput: real
    var maxInput: real
    var isContinuous: bool
    var unitConversionFactor: real
    var timeConversionFactor: real

    /** What the backend reports; the device keeps these up to date. */
    var appliedOutput: real
    var rawPosition: real
    var rawVelocity: real

    /** Every write the backend has received, oldest first. */
    ghost var calls: seq<BackendCall>

    function Prev(): Command
      reads this`prevValue, this`prevMode, this`prevFeedForward
    {
      Command(prevValue, prevMode, prevFeedForward)
    }

    function CurrentConfig(): Config
      reads this`unitConversionFactor, this`timeConversionFactor, this`isContinuous, this`minInput, this`maxInput
    {
      Config(unitConversionFactor, timeConversionFactor, isContinuous, minInput, maxInput)
    }

    constructor ()
      ensures followers == [] && Prev() == InitialCommand
      ensures !isContinuous && unitConversionFactor == 1.0 && timeConversionFactor == 1.0
      ensures minInput == 0.0 && maxInput == 0.0
      ensures calls == []
    {
      followers := [];
      prevValue, prevMode, prevFeedForward := 0.0, PercentOutput, 0.0;
      minInput, maxInput, isContinuous := 0.0, 0.0, false;
      unitConversionFactor, timeConversionFactor := 1.0, 1.0;
      calls := [];
    }

    /** `set(value, mode, feedForward)`: the canonical command entry point. */
    method SetControl(value: real, mode: Control, feedForward: real)
      requires Convertible(CurrentConfig(), mode)
      modifies this`prevValue, this`prevMode, this`prevFeedForward, this`calls
      ensures Prev() == Issue(old(Prev()), CurrentConfig(), Command(value, mode, feedForward)).prev
      ensures calls == old(calls) + Issue(old(Prev()), CurrentConfig(), Command(value, mode, feedForward)).writes
      ensures old(Prev()) == Command(value, mode, feedForward) ==> unchanged(this)
    {
      if value == prevValue && mode == prevMode && feedForward == prevFeedForward {
        return;
      }
      prevValue := value;
      prevMode := mode;
      prevFeedForward := feedForward;
      match mode
      case PercentOutput =>
        calls := calls + [SetPercentOutput(Clamp(value, -1.0, 1.0))];
      case Velocity =>
        var rpm := value / unitConversionFactor * timeConversionFactor;
        assert rpm == NativeVelocity(CurrentConfig(), value);
        calls := calls + [SetVelocity(rpm, feedForward)];
      case Position =>
        var position := value / unitConversionFactor;
        ghost var rotations := if isContinuous then InputModulus(position, minInput, maxInput) else position;
        calls := calls + [SetPosition(rotations, feedForward)];
    }

    /** `set(value, mode)`: no feed-forward. */
    method SetMode(value: real, mode: Control)
      requires Convertible(CurrentConfig(), mode)
      modifies this`prevValue, this`prevMode, this`prevFeedForward, this`calls
      ensures Prev() == Issue(old(Prev()), CurrentConfig(), Command(value, mode, 0.0)).prev
      ensures calls == old(calls) + Issue(old(Prev()), CurrentConfig(), Command(value, mode, 0.0)).writes
      ensures old(Prev()) == Command(value, mode, 0.0) ==> unchanged(this)
    {
      SetControl(value, mode, 0.0);
    }

    /** `set(output)`: percent output. */
    method Set(output: real)
      modifies this`prevValue, this`prevMode, this`prevFeedForward, this`calls
      ensures Prev() == Issue(old(Prev()), CurrentConfig(), PercentCommand(output)).prev
      ensures calls == old(calls) + Issue(old(Prev()), CurrentConfig(), PercentCommand(output)).writes
      ensures old(Prev()) == PercentCommand(output) ==> unchanged(this)
    {
      SetMode(output, PercentOutput);
    }

    /** `setVolts(volts)`: percent output of `volts / 12`. */
    method SetVolts(volts: real)
      modifies this`prevValue, this`prevMode, this`prevFeedForward, this`calls
      ensures Prev() == Issue(old(Prev()), CurrentConfig(), PercentCommand(volts / 12.0)).prev
      ensures calls == old(calls) + Issue(old(Prev()), CurrentConfig(), PercentCommand(volts / 12.0)).writes
    {
      Set(volts / 12.0);
    }

    /** Treats [min(a, b), max(a, b)] as a circle from now on; a later call replaces the range. */
    method EnableContinuousInput(a: real, b: real)
      modifies this`minInput, this`maxInput, this`isContinuous
      ensures minInput == Min(a, b) && maxInput == Max(a, b) && isContinuous
    {
      minInput := Min(a, b);
      maxInput := Max(a, b);
      isContinuous := true;
    }

    method SetUnitConversionFactor(factor: real)
      modifies this`unitConversionFactor
      ensures unitConversionFactor == factor
    {
      unitConversionFactor := factor;
    }

    method SetTimeConversionFactor(factor: real)
      modifies this`timeConversionFactor
      ensures timeConversionFactor == factor
    {
      timeConversionFactor := factor;
    }

    /** `resetPosition(position)`: one raw-position reset, in native units. */
    method ResetPosition(position: real)
      requires unitConversionFactor != 0.0
      modifies this`calls
      ensures calls == old(calls) + [ResetRawPosition(ResetTarget(CurrentConfig(), position))]
    {
      calls := calls + [ResetRawPosition(position / unitConversionFactor)];
    }

    /** `getPosition`: the raw position in caller units, wrapped into the range when continuous. */
    ghost function GetPosition(): (p: real)
      reads this
      requires WrapReady(CurrentConfig())
      ensures !isContinuous ==> p == rawPosition * unitConversionFactor
      ensures isContinuous ==> IsWrapOf(p, rawPosition * unitConversionFactor, minInput, maxInput)
    {
      WrapSpec(CurrentConfig(), rawPosition * unitConversionFactor);
      PositionReading(CurrentConfig(), rawPosition)
    }

    /** `getVelocity`: the raw velocity in caller units. */
    function GetVelocity(): (v: real)
      reads this
      requires timeConversionFactor != 0.0
      ensures v * timeConversionFactor == rawVelocity * unitConversionFactor
    {
      VelocityReading(CurrentConfig(), rawVelocity)
    }

    /** `setNeutralMode(mode)`: one brake or coast write. */
    method SetNeutralMode(mode: Neutral)
      modifies this`calls
      ensures calls == old(calls) + [NeutralCall(mode)]
    {
      match mode
      case Brake => calls := calls + [SetBrakeMode];
      case Coast => calls := calls + [SetCoastMode];
    }

    /** `follow(leader)`: appends this motor to the leader's followers and registers the leader. */
    method Follow(leader: Motor, registry: FollowerRegistry)
      modifies leader`followers, registry`leaders
      ensures leader.followers == old(leader.followers) + [this]
      ensures registry.leaders == old(registry.leaders) + {leader}
    {
      leader.followers := leader.followers + [this];
      registry.leaders := registry.leaders + {leader};
    }
  }

  /** Mapping the next element of `s` to `v` keeps every earlier one mapped to `v`. */
  lemma PrefixMapsTo<K, V>(s: seq<K>, k: nat, m: map<K, V>, v: V)
    requires k < |s| && forall i :: 0 <= i < k ==> s[i] in m && m[s[i]] == v
    ensures forall i :: 0 <= i < k + 1 ==> s[i] in m[s[k] := v] && m[s[k] := v][s[i]] == v
  {
  }

  /**
   * The followers' states when a sweep begins: their previous commands and
   * backend logs, and whether the leaders were consistent and in sync.
   */
  datatype SweepStart = SweepStart(followers: set<Motor>, prev: map<Motor, Command>,
                                   calls: map<Motor, seq<BackendCall>>, consistent: bool, insync: bool)

  /**
   * The process-wide set of leaders (the static registry of NAR_Motor), and
   * the body of the periodic callback that mirrors leaders to followers.
   */
  class FollowerRegistry {
    var leaders: set<Motor>

    constructor ()
      ensures leaders == {}
    {
      leaders := {};
    }

    /** Every motor that follows some registered leader. */
    ghost function Followers(): set<Motor>
      reads this`leaders, leaders`followers
    {
      set l, i | l in leaders && 0 <= i < |l.followers| :: l.followers[i]
    }

    /** `f`'s previous command is `l`'s applied output in percent mode. */
    ghost predicate Mirrors(l: Motor, f: Motor)
      reads l`appliedOutput, f`prevValue, f`prevMode, f`prevFeedForward
    {
      f.Prev() == PercentCommand(l.appliedOutput)
    }

    /** Every follower's previous command mirrors each of its leaders. */
    ghost predicate InSync()
      reads this`leaders, leaders, Followers()
    {
      forall l, f :: l in leaders && f in l.followers ==> Mirrors(l, f)
    }

    /** A follower shared by two leaders gets the same output from both. */
    ghost predicate Consistent()
      reads this`leaders, leaders`followers, leaders`appliedOutput
    {
      forall l, l', f :: l in leaders && l' in leaders && f in l.followers && f in l'.followers ==> l.appliedOutput == l'.appliedOutput
    }

    /**
     * What the sweep has done so far, measured against the followers' states
     * when it began (`start`): `source` maps each follower already visited to
     * the leader whose output it received last, which it now mirrors; the
     * followers not yet visited are untouched; when the leaders agree, each
     * visited follower has received exactly the writes one `set` of its
     * leader's output makes; and a sweep that began in sync has changed nothing.
     */
    ghost predicate Swept(start: SweepStart, source: map<Motor, Motor>)
      reads this`leaders, leaders`followers, leaders`appliedOutput
      reads start.followers`prevValue, start.followers`prevMode, start.followers`prevFeedForward, start.followers`calls
    {
      && start.prev.Keys == start.followers && start.calls.Keys == start.followers && source.Keys <= start.followers
      && (forall f :: f in source ==> source[f] in leaders && f in source[f].followers && Mirrors(source[f], f))
      && (forall f :: f in start.followers && f !in source ==> f.Prev() == start.prev[f] && f.calls == start.calls[f])
      && (start.consistent ==> forall f :: f in source ==>
            f.calls == start.calls[f] + PercentWrites(start.prev[f], source[f].appliedOutput))
      && (start.insync ==> forall f :: f in start.followers ==> f.Prev() == start.prev[f] && f.calls == start.calls[f])
    }

    /**
     * The periodic callback: every leader's applied output is sent, as a
     * percent output, to each of its followers in registration order.
     * Leaders are visited in no particular order (the registry is a hash set).
     */
    method Sweep()
      modifies Followers()`prevValue, Followers()`prevMode, Followers()`prevFeedForward, Followers()`calls
      ensures forall l, f :: l in leaders && f in l.followers ==>
        exists l' :: l' in leaders && f in l'.followers && Mirrors(l', f)
      ensures Consistent() ==> InSync()
      ensures old(InSync()) ==> unchanged(Followers())
      ensures Consistent() ==> forall l, f :: l in leaders && f in l.followers ==>
        f.calls == old(f.calls) + PercentWrites(old(f.Prev()), l.appliedOutput)
    {
      ghost var followers := Followers();
      ghost var insync := InSync();
      if insync {
        InSyncIsConsistent();
      }
      ghost var start := SweepStart(followers, map f: Motor | f in followers :: f.Prev(),
                                    map f: Motor | f in followers :: f.calls, Consistent(), insync);
      ghost var source := ForwardLeaders(start);
      SweepDone(start, source);
      if insync {
        forall f | f in followers
          ensures f.prevValue == old(f.prevValue) && f.prevMode == old(f.prevMode)
          ensures f.prevFeedForward == old(f.prevFeedForward) && f.calls == old(f.calls)
        {
          assert f.Prev() == start.prev[f];
        }
      }
    }

    /** The loop of the sweep over the leaders, in the registry's order. */
    method ForwardLeaders(ghost start: SweepStart) returns (ghost source: map<Motor, Motor>)
      requires start.followers == Followers() && Swept(start, map[])
      requires start.consistent == Consistent()
      requires start.insync ==> forall l, f :: l in leaders && f in l.followers ==> start.prev[f] == PercentCommand(l.appliedOutput)
      modifies start.followers`prevValue, start.followers`prevMode, start.followers`prevFeedForward, start.followers`calls
      ensures forall l, f :: l in leaders && f in l.followers ==> f in source
      ensures Swept(start, source)
      ensures start.consistent == Consistent()
    {
      var pending := leaders;
      source := map[];
      while pending != {}
        invariant pending <= leaders
        invariant forall l, f :: l in leaders && l !in pending && f in l.followers ==> f in source
        invariant Swept(start, source)
        decreases pending
      {
        var leader :| leader in pending;
        source := ForwardFollowers(leader, start, source);
        pending := pending - {leader};
      }
    }

    /** The inner loop of the sweep: `leader`'s applied output sent to each of its followers, in order. */
    method ForwardFollowers(leader: Motor, ghost start: SweepStart, ghost source: map<Motor, Motor>)
        returns (ghost source': map<Motor, Motor>)
      requires leader in leaders && forall f :: f in leader.followers ==> f in start.followers
      requires start.consistent ==> Consistent()
      requires Swept(start, source)
      requires start.insync ==> forall f :: f in leader.followers ==> start.prev[f] == PercentCommand(leader.appliedOutput)
      modifies start.followers`prevValue, start.followers`prevMode, start.followers`prevFeedForward, start.followers`calls
      ensures source.Keys <= source'.Keys
      ensures forall f :: f in leader.followers ==> f in source' && source'[f] == leader
      ensures Swept(start, source')
    {
      var output := leader.appliedOutput;
      var fs := leader.followers;
      source' := source;
      for k := 0 to |fs|
        invariant source.Keys <= source'.Keys
        invariant forall i :: 0 <= i < k ==> fs[i] in source' && source'[fs[i]] == leader
        invariant Swept(start, source')
      {
        ghost var before := source';
        source' := ForwardOne(leader, output, fs[k], start, source');
        PrefixMapsTo(fs, k, before, leader);
      }
    }

    /** One step of the sweep: `follower.set(output)`, where `output` is `leader`'s applied output. */
    method ForwardOne(leader: Motor, output: real, follower: Motor, ghost start: SweepStart, ghost source: map<Motor, Motor>)
        returns (ghost source': map<Motor, Motor>)
      requires leader in leaders && output == leader.appliedOutput
      requires follower in leader.followers && follower in start.followers
      requires start.consistent ==> Consistent()
      requires Swept(start, source)
      requires start.insync ==> start.prev[follower] == PercentCommand(leader.appliedOutput)
      modifies follower`prevValue, follower`prevMode, follower`prevFeedForward, follower`calls
      ensures follower.Prev() == PercentCommand(output)
      ensures follower.calls == old(follower.calls) + PercentWrites(old(follower.Prev()), output)
      ensures source' == source[follower := leader]
      ensures Swept(start, source')
    {
      ghost var prev, calls := follower.Prev(), follower.calls;
      PercentIssue(prev, follower.CurrentConfig(), output);
      follower.Set(output);
      assert follower.Prev() == PercentCommand(output) && follower.calls == calls + PercentWrites(prev, output);
      source' := source[follower := leader];
      if start.consistent && follower in source {
        assert source[follower].appliedOutput == output;
      }
    }

    /** Followers that mirror every one of their leaders leave those leaders no room to disagree. */
    lemma InSyncIsConsistent()
      requires InSync()
      ensures Consistent()
    {
      forall l, l', f | l in leaders && l' in leaders && f in l.followers && f in l'.followers
        ensures l.appliedOutput == l'.appliedOutput
      {
        assert Mirrors(l, f) && Mirrors(l', f);
      }
    }

    /**
     * Once every leader has been visited, each follower mirrors the leader it
     * was last sent from, which all its leaders agree on when they are consistent.
     */
    lemma SweepDone(start: SweepStart, source: map<Motor, Motor>)
      requires forall l, f :: l in leaders && f in l.followers ==> f in source
      requires Swept(start, source)
      ensures forall l, f :: l in leaders && f in l.followers ==>
        exists l' :: l' in leaders && f in l'.followers && Mirrors(l', f)
      ensures Consistent() ==> InSync()
      ensures start.consistent && Consistent() ==> forall l, f :: l in leaders && f in l.followers ==>
        f.calls == start.calls[f] + PercentWrites(start.prev[f], l.appliedOutput)
    {
      forall l, f | l in leaders && f in l.followers
        ensures exists l' :: l' in leaders && f in l'.followers && Mirrors(l', f)
      {
        var l' := source[f];
        assert l' in leaders && f in l'.followers && Mirrors(l', f);
      }
    }
  }
}
