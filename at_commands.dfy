/**
 * The declarative table of AT commands: each command's name, its arguments in
 * declaration order (kind and optional default), and the named constants of
 * its flag or mode enumeration. How a command is rendered on the wire is not
 * part of this table and not part of this model.
 */
module AtCommands {
  import opened Wrappers
  import opened BitFlags

  datatype ArgKind = Int32 | Float | String

  /** One declared argument: its attribute name, its kind and its default, if any. */
  datatype ArgSpec = ArgSpec(name: string, kind: ArgKind, default: Option<int>)

  /**
   * One member of an `IntEnum`: its name and how its value is declared,
   * either a plain number or `bits(*positions)`.
   */
  datatype Constant =
    | Number(name: string, number: nat)
    | Flag(name: string, positions: seq<nat>)

  /**
   * The integer value of a member: its number, or for a flag the number whose
   * set bits are exactly the listed positions.
   */
  function Value(c: Constant): (v: nat)
    ensures c.Number? ==> v == c.number
    ensures c.Flag? ==> forall k: nat :: Bit(v, k) <==> k in c.positions
  {
    match c
    case Number(_, n) => n
    case Flag(_, ps) => BitsPositions(ps); Bits(ps)
  }

  /** A nested enumeration class such as `Flags` or `Modes`. */
  datatype Enumeration = Enumeration(name: string, constants: seq<Constant>)

  /** One command class: its name, its arguments in declaration order, its enumerations. */
  datatype Descriptor = Descriptor(name: string, args: seq<ArgSpec>, enums: seq<Enumeration>)

  // ---------------------------------------------------------------------------
  // The table.
  // ---------------------------------------------------------------------------

  /** Take-off/landing and emergency stop/reset. */
  const RefFlags := Enumeration("Flags", [
    Flag("default", [18, 20, 22, 24, 28]),
    Flag("start", [9]),
    Flag("select", [8])
  ])
  const REF := Descriptor("REF", [ArgSpec("input", Int32, None)], [RefFlags])

  /** Progressive movement commands. */
  const PcmdFlags := Enumeration("Flags", [
    Flag("absolute_control", [2]),
    Flag("combined_yaw", [1]),
    Flag("progressive", [0])
  ])
  const PCMD := Descriptor("PCMD", [
    ArgSpec("flag", Int32, None),
    ArgSpec("roll", Float, Some(0)),
    ArgSpec("pitch", Float, Some(0)),
    ArgSpec("gaz", Float, Some(0)),
    ArgSpec("yaw", Float, Some(0))
  ], [PcmdFlags])

  /** Progressive movement commands with magnetometer heading. */
  const PCMD_MAG := Descriptor("PCMD_MAG", [
    ArgSpec("flag", Int32, None),
    ArgSpec("roll", Float, None),
    ArgSpec("pitch", Float, None),
    ArgSpec("gaz", Float, None),
    ArgSpec("yaw", Float, None),
    ArgSpec("psi", Float, None),
    ArgSpec("psi_accuracy", Float, None)
  ], [])

  /** Flat trim. */
  const FTRIM := Descriptor("FTRIM", [], [])

  /** Set one configuration option. */
  const CONFIG := Descriptor("CONFIG", [ArgSpec("key", String, None), ArgSpec("value", String, None)], [])

  /** Identifiers for the next CONFIG command. */
  const CONFIG_IDS := Descriptor("CONFIG_IDS", [
    ArgSpec("session", String, None),
    ArgSpec("user", String, None),
    ArgSpec("application_ids", String, None)
  ], [])

  /** Reset the communication watchdog. */
  const COMWDG := Descriptor("COMWDG", [], [])

  /** Magnetometer calibration. */
  const CALIB := Descriptor("CALIB", [ArgSpec("device_number", Int32, None)], [])

  /** The names of `CTRL.Modes`, numbered 0, 1, ... in this order by `range(7)`. */
  const CtrlModeNames := [
    "NO_CONTROL_MODE",
    "ARDRONE_UPDATE_CONTROL_MODE",
    "PIC_UPDATE_CONTROL_MODE",
    "LOGS_GET_CONTROL_MODE",
    "CFG_GET_CONTROL_MODE",
    "ACK_CONTROL_MODE",
    "CUSTOM_CFG_GET_CONTROL_MODE"
  ]
  const CtrlModes := Enumeration("Modes",
    seq(|CtrlModeNames|, i requires 0 <= i < |CtrlModeNames| => Number(CtrlModeNames[i], i)))

  /** Change the control mode. */
  const CTRL := Descriptor("CTRL", [ArgSpec("mode", Int32, None), ArgSpec("zero", Int32, Some(0))], [CtrlModes])

  const Commands := [REF, PCMD, PCMD_MAG, FTRIM, CONFIG, CONFIG_IDS, COMWDG, CALIB, CTRL]

  // ---------------------------------------------------------------------------
  // Reading the table.
  // ---------------------------------------------------------------------------

  /** `Enum.<name>`: the first member of that name, if there is one. */
  function Member(e: seq<Constant>, name: string): (r: Option<Constant>)
    ensures r.None? <==> forall i :: 0 <= i < |e| ==> e[i].name != name
    ensures r.Some? ==> exists i :: 0 <= i < |e| && e[i] == r.value && r.value.name == name &&
                          forall j :: 0 <= j < i ==> e[j].name != name
  {
    if e == [] then None
    else if e[0].name == name then Some(e[0])
    else
      var r := Member(e[1..], name);
      assert forall i :: 1 <= i < |e| ==> e[i] == e[1..][i - 1];
      r
  }

  function ArgNames(d: Descriptor): (names: seq<string>)
    ensures |names| == |d.args|
  {
    seq(|d.args|, i requires 0 <= i < |d.args| => d.args[i].name)
  }

  predicate IsInt32(x: int) {
    -0x8000_0000 <= x < 0x8000_0000
  }

  /**
   * A consistency check on one table entry (the declarations imply it rather
   * than state it): argument names are distinct, defaults appear only on
   * numeric arguments, an `Int32Arg` default lies in the signed 32-bit range,
   * and the constants of each enumeration have distinct names.
   */
  predicate WellFormed(d: Descriptor) {
    (forall i, j :: 0 <= i < j < |d.args| ==> d.args[i].name != d.args[j].name) &&
    (forall i :: 0 <= i < |d.args| && d.args[i].default.Some? ==>
       d.args[i].kind != String && (d.args[i].kind == Int32 ==> IsInt32(d.args[i].default.value))) &&
    (forall e :: e in d.enums ==>
       forall i, j :: 0 <= i < j < |e.constants| ==> e.constants[i].name != e.constants[j].name)
  }

  /** Once an argument has a default, every later one has one too. */
  predicate DefaultsTrail(d: Descriptor) {
    forall i, j :: 0 <= i < j < |d.args| && d.args[i].default.Some? ==> d.args[j].default.Some?
  }

  /** Distinct constants of a flag enumeration share no bit. */
  ghost predicate FlagsDisjoint(e: Enumeration) {
    forall i, j :: 0 <= i < j < |e.constants| ==> Disjoint(Value(e.constants[i]), Value(e.constants[j]))
  }
}
