/** The configuration record of a CANJaguar and the two routines that apply
    it to a driver (Util/JaguarUtils.cpp).

    The driver itself belongs to WPILib and is not part of this model. It is
    represented by an abstract record (control mode, whether control is
    enabled, the last value set and its sync group), and every driver call a
    routine issues is listed in order as a `DriverCall`, so the order of calls
    can be stated as well as their net effect. */
module JaguarUtils {
  import opened Ints

  /** CANJaguar::ControlMode. A configuration may carry a code outside the
      five modes the driver knows. */
  datatype ControlMode = PercentVbus | Current | Speed | Position | Voltage | OtherMode(code: int)

  /** CANJaguar::NeutralMode. */
  datatype NeutralMode = NeutralJumper | NeutralBrake | NeutralCoast

  predicate KnownMode(m: ControlMode)
  {
    !m.OtherMode?
  }

  /** `CANJagConfigInfo`. Position and speed references and the limit mode
      are kept as their raw enumeration codes. */
  datatype ConfigInfo = ConfigInfo(
    mode: ControlMode,
    posRef: Uint8,
    speedRef: Uint8,
    neutralAction: NeutralMode,
    limiting: Uint8,
    lowPosLimit: real,
    highPosLimit: real,
    maxVoltage: real,
    p: real,
    i: real,
    d: real,
    encoderLinesPerRev: Uint16,
    potentiometerTurnsPerRev: Uint16,
    safety: bool)

  /** The default constructor. It sets four fields; the others are left
      uninitialised by the source and are taken from `unset` here. */
  function DefaultConfig(unset: ConfigInfo): (c: ConfigInfo)
    ensures c.mode == Voltage && c.neutralAction == NeutralCoast
    ensures c.maxVoltage == 12.0 && !c.safety
    ensures c.(mode := unset.mode, neutralAction := unset.neutralAction,
               maxVoltage := unset.maxVoltage, safety := unset.safety) == unset
  {
    unset.(mode := Voltage, neutralAction := NeutralCoast, maxVoltage := 12.0, safety := false)
  }

  /** The abstract state of one CANJaguar driver. */
  datatype Driver = Driver(mode: ControlMode, enabled: bool, value: real, syncGroup: Uint8)

  /** The state of a driver right after `new CANJaguar(ID)`. The real
      constructor is outside the model; the server reconfigures every new
      driver before it is used. */
  function NewDriver(): Driver
  {
    Driver(PercentVbus, false, 0.0, 0)
  }

  /** The driver calls the model distinguishes. */
  datatype DriverCall =
    | DisableControl
    | EnableControl
    | ChangeControlMode(mode: ControlMode)
    | SetPositionReference(posRef: Uint8)
    | SetSpeedReference(speedRef: Uint8)
    | ConfigEncoderCodesPerRev(codes: Uint16)
    | ConfigPotentiometerTurns(turns: Uint16)
    | SetPID(p: real, i: real, d: real)
    | ConfigMaxOutputVoltage(voltage: real)
    | ConfigNeutralMode(neutral: NeutralMode)
    | SetSafetyEnabled(safety: bool)
    | SetOutput(value: real, syncGroup: Uint8)

  /** The effect of one call on the abstract driver state. */
  function Apply(d: Driver, c: DriverCall): Driver
  {
    match c
    case DisableControl => d.(enabled := false)
    case EnableControl => d.(enabled := true)
    case ChangeControlMode(m) => d.(mode := m)
    case SetOutput(v, g) => d.(value := v, syncGroup := g)
    case _ => d
  }

  /** The effect of a run of calls, issued in order. */
  function ApplyAll(d: Driver, calls: seq<DriverCall>): Driver
    decreases |calls|
  {
    if calls == [] then d else Apply(ApplyAll(d, calls[..|calls| - 1]), calls[|calls| - 1])
  }

  lemma ApplyAllSingle(d: Driver, c: DriverCall)
    ensures ApplyAll(d, [c]) == Apply(d, c)
  {
    assert [c][..0] == [];
  }

  lemma {:induction false} ApplyAllConcat(d: Driver, a: seq<DriverCall>, b: seq<DriverCall>)
    ensures ApplyAll(d, a + b) == ApplyAll(ApplyAll(d, a), b)
    decreases |b|
  {
    if b == [] {
      assert a + b == a;
    } else {
      var b' := b[..|b| - 1];
      assert (a + b)[..|a + b| - 1] == a + b';
      ApplyAllConcat(d, a, b');
    }
  }

  /** Calls that change neither the mode, nor the enable state, nor the set
      value leave those three alone. */
  lemma {:induction false} ApplyAllSettingsOnly(d: Driver, calls: seq<DriverCall>)
    requires forall k :: 0 <= k < |calls| ==>
      !calls[k].ChangeControlMode? && !calls[k].EnableControl? && !calls[k].DisableControl? && !calls[k].SetOutput?
    ensures ApplyAll(d, calls) == d
    decreases |calls|
  {
    if calls != [] {
      ApplyAllSettingsOnly(d, calls[..|calls| - 1]);
    }
  }

  /** The mode `ConfigCANJaguar` switches the driver to: the configured one
      when the driver knows it, voltage control otherwise. */
  function SelectedMode(m: ControlMode): (r: ControlMode)
    ensures KnownMode(r)
    ensures KnownMode(m) ==> r == m
    ensures !KnownMode(m) ==> r == Voltage
  {
    if KnownMode(m) then m else Voltage
  }

  /** The mode-specific calls of `ConfigCANJaguar` after the mode change. */
  function ModeSettings(conf: ConfigInfo): seq<DriverCall>
  {
    match conf.mode
    case Position =>
      [ SetPositionReference(conf.posRef),
        if conf.posRef == 0 then ConfigEncoderCodesPerRev(conf.encoderLinesPerRev)
        else ConfigPotentiometerTurns(conf.potentiometerTurnsPerRev),
        SetPID(conf.p, conf.i, conf.d) ]
    case Speed =>
      [ SetSpeedReference(conf.speedRef),
        ConfigEncoderCodesPerRev(conf.encoderLinesPerRev),
        SetPID(conf.p, conf.i, conf.d) ]
    case _ => []
  }

  /** The calls `ConfigCANJaguar` issues, in order. */
  function ConfigCalls(conf: ConfigInfo): (calls: seq<DriverCall>)
    ensures |calls| >= 3
    ensures calls[0] == DisableControl && calls[|calls| - 1] == EnableControl
    ensures calls[1] == ChangeControlMode(SelectedMode(conf.mode))
    ensures forall k :: 1 < k < |calls| ==> !calls[k].ChangeControlMode?
    ensures forall k :: 0 < k < |calls| - 1 ==> !calls[k].EnableControl? && !calls[k].DisableControl?
    ensures forall k :: 0 <= k < |calls| ==> !calls[k].SetOutput?
    ensures conf.mode == Position && conf.posRef == 0 ==>
      ConfigEncoderCodesPerRev(conf.encoderLinesPerRev) in calls && (forall k :: 0 <= k < |calls| ==> !calls[k].ConfigPotentiometerTurns?)
    ensures conf.mode == Position && conf.posRef != 0 ==>
      ConfigPotentiometerTurns(conf.potentiometerTurnsPerRev) in calls && (forall k :: 0 <= k < |calls| ==> !calls[k].ConfigEncoderCodesPerRev?)
    ensures |calls| >= 6 && calls[|calls| - 4..] ==
      [ConfigMaxOutputVoltage(conf.maxVoltage), ConfigNeutralMode(conf.neutralAction), SetSafetyEnabled(conf.safety), EnableControl]
    ensures conf.mode == Position || conf.mode == Speed ==> SetPID(conf.p, conf.i, conf.d) in calls
    ensures conf.mode == Position ==> SetPositionReference(conf.posRef) in calls
    ensures conf.mode == Speed ==>
      SetSpeedReference(conf.speedRef) in calls && ConfigEncoderCodesPerRev(conf.encoderLinesPerRev) in calls
    ensures conf.mode != Position && conf.mode != Speed ==> |calls| == 6
  {
    [DisableControl, ChangeControlMode(SelectedMode(conf.mode))]
    + ModeSettings(conf)
    + [ ConfigMaxOutputVoltage(conf.maxVoltage),
        ConfigNeutralMode(conf.neutralAction),
        SetSafetyEnabled(conf.safety),
        EnableControl ]
  }

  /** `ConfigCANJaguar`: apply a whole configuration to a driver. */
  function ConfigureJaguar(d: Driver, conf: ConfigInfo): (r: Driver)
    ensures r.enabled
    ensures KnownMode(conf.mode) ==> r.mode == conf.mode
    ensures !KnownMode(conf.mode) ==> r.mode == Voltage
    ensures r.value == d.value && r.syncGroup == d.syncGroup
  {
    var calls := ConfigCalls(conf);
    var m := SelectedMode(conf.mode);
    var head := [DisableControl, ChangeControlMode(m)];
    var middle := calls[2..|calls| - 1];
    assert calls == head + middle + [EnableControl];
    assert head[..1] == [DisableControl] && [DisableControl][..0] == [];
    assert ApplyAll(d, head) == d.(enabled := false, mode := m);
    ApplyAllConcat(d, head, middle);
    ApplyAllConcat(d, head + middle, [EnableControl]);
    assert forall k :: 0 <= k < |middle| ==> middle[k] == calls[k + 2];
    ApplyAllSettingsOnly(ApplyAll(d, head), middle);
    ApplyAll(d, calls)
  }

  /** The calls `CheckCANJaguar` issues: none when the driver already runs in
      the configured mode, the whole configuration otherwise. */
  function CheckCalls(d: Driver, conf: ConfigInfo): (calls: seq<DriverCall>)
    ensures d.mode == conf.mode <==> calls == []
    ensures d.mode != conf.mode ==> calls == ConfigCalls(conf)
  {
    if d.mode == conf.mode then [] else ConfigCalls(conf)
  }

  /** `CheckCANJaguar`: reconfigure only on a mode mismatch. */
  function CheckJaguar(d: Driver, conf: ConfigInfo): (r: Driver)
    ensures r == ApplyAll(d, CheckCalls(d, conf))
    ensures d.mode == conf.mode ==> r == d
    ensures KnownMode(conf.mode) ==> r.mode == conf.mode
    ensures r.value == d.value
  {
    if d.mode == conf.mode then d else ConfigureJaguar(d, conf)
  }

  /** For a known mode a second check finds nothing to do. */
  lemma CheckIdempotent(d: Driver, conf: ConfigInfo)
    requires KnownMode(conf.mode)
    ensures CheckCalls(CheckJaguar(d, conf), conf) == []
    ensures CheckJaguar(CheckJaguar(d, conf), conf) == CheckJaguar(d, conf)
  {
  }

  /** A configuration with a mode the driver does not know never matches a
      driver running in a mode it knows, so every check reconfigures again. */
  lemma UnknownModeAlwaysReconfigures(d: Driver, conf: ConfigInfo)
    requires KnownMode(d.mode) && !KnownMode(conf.mode)
    ensures CheckCalls(CheckJaguar(d, conf), conf) == ConfigCalls(conf)
  {
  }
}
