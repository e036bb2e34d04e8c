/**
 * Facts about the AT command table: the flag values `bits` produces, that the
 * flags of one enumeration share no bit, the argument lists in declaration
 * order and the numbering of the control modes.
 */
module AtCommandFacts {
  import opened Wrappers
  import opened BitFlags
  import opened AtCommands

  /** With distinct names, looking a member up by its name finds that member. */
  lemma MemberAt(e: seq<Constant>, i: nat)
    requires i < |e|
    requires forall a, b :: 0 <= a < b < |e| ==> e[a].name != e[b].name
    ensures Member(e, e[i].name) == Some(e[i])
  {
  }

  lemma RefWellFormed()
    ensures WellFormed(REF) && DefaultsTrail(REF)
  {
    RefFlagsListed();
  }

  lemma PcmdWellFormed()
    ensures WellFormed(PCMD) && DefaultsTrail(PCMD)
  {
    PcmdFlagsListed();
  }

  lemma CtrlWellFormed()
    ensures WellFormed(CTRL) && DefaultsTrail(CTRL)
  {
  }

  lemma PcmdMagWellFormed()
    ensures WellFormed(PCMD_MAG)
  {
  }

  lemma PcmdMagDefaultsTrail()
    ensures DefaultsTrail(PCMD_MAG)
  {
  }

  lemma ConfigWellFormed()
    ensures WellFormed(CONFIG) && DefaultsTrail(CONFIG)
  {
  }

  lemma ConfigIdsWellFormed()
    ensures WellFormed(CONFIG_IDS) && DefaultsTrail(CONFIG_IDS)
  {
  }

  lemma BareCommandsWellFormed()
    ensures WellFormed(FTRIM) && DefaultsTrail(FTRIM)
    ensures WellFormed(COMWDG) && DefaultsTrail(COMWDG)
    ensures WellFormed(CALIB) && DefaultsTrail(CALIB)
  {
  }

  /** Every command of the table keeps the declaration invariants. */
  lemma CommandsWellFormed()
    ensures forall d :: d in Commands ==> WellFormed(d) && DefaultsTrail(d)
  {
    RefWellFormed();
    PcmdWellFormed();
    CtrlWellFormed();
    PcmdMagWellFormed();
    PcmdMagDefaultsTrail();
    ConfigWellFormed();
    ConfigIdsWellFormed();
    BareCommandsWellFormed();
  }

  /** No two commands of the table share a name. */
  lemma CommandNamesDistinct()
    ensures forall i, j :: 0 <= i < j < |Commands| ==> Commands[i].name != Commands[j].name
  {
  }

  /** `REF.Flags` as declared: `bits(18, 20, 22, 24, 28)`, `bits(9)` and `bits(8)`. */
  lemma RefFlagsListed()
    ensures RefFlags.constants == [Flag("default", [18, 20, 22, 24, 28]), Flag("start", [9]), Flag("select", [8])]
  {
  }

  /** `PCMD.Flags` as declared: `bits(2)`, `bits(1)` and `bits(0)`. */
  lemma PcmdFlagsListed()
    ensures PcmdFlags.constants == [Flag("absolute_control", [2]), Flag("combined_yaw", [1]), Flag("progressive", [0])]
  {
  }

  /** `bits` of the always-on positions of `REF` is 0x11540000. */
  lemma RefDefaultNumber()
    ensures Bits([18, 20, 22, 24, 28]) == 0x1154_0000
  {
    Pow2Table();
    BitsOfDistinct([18, 20, 22, 24, 28]);
  }

  /** `bits` of a single position is that power of two. */
  lemma SingleBitNumber(p: nat)
    ensures Bits([p]) == Pow2(p)
  {
    BitsOfDistinct([p]);
  }

  /** `REF.Flags.default`, `.start` and `.select` name the declared members. */
  lemma RefFlagMembers()
    ensures Member(RefFlags.constants, "default") == Some(Flag("default", [18, 20, 22, 24, 28]))
    ensures Member(RefFlags.constants, "start") == Some(Flag("start", [9]))
    ensures Member(RefFlags.constants, "select") == Some(Flag("select", [8]))
  {
    RefFlagsListed();
    var cs := RefFlags.constants;
    MemberAt(cs, 0);
    MemberAt(cs, 1);
    MemberAt(cs, 2);
  }

  /**
   * `REF.Flags`: `default` is 0x11540000, `start` is 0x200 (bit 9) and
   * `select` is 0x100 (bit 8).
   */
  lemma RefFlagValues()
    ensures Value(Member(RefFlags.constants, "default").value) == 0x1154_0000
    ensures Value(Member(RefFlags.constants, "start").value) == 0x200
    ensures Value(Member(RefFlags.constants, "select").value) == 0x100
  {
    RefFlagMembers();
    RefDefaultNumber();
    SingleBitNumber(9);
    SingleBitNumber(8);
    Pow2Table();
  }

  /** The bits set in `REF.Flags.default` are exactly 18, 20, 22, 24 and 28. */
  lemma RefDefaultBits()
    ensures forall k: nat :: Bit(0x1154_0000, k) <==> k in [18, 20, 22, 24, 28]
  {
    RefDefaultNumber();
    forall k: nat
      ensures Bit(0x1154_0000, k) <==> k in [18, 20, 22, 24, 28]
    {
      BitsBit([18, 20, 22, 24, 28], k);
    }
  }

  /**
   * Flags declared over pairwise disjoint position lists share no bit: the
   * check behind each flag enumeration below.
   */
  lemma FlagsOverDisjointPositions(e: Enumeration)
    requires forall i :: 0 <= i < |e.constants| ==> e.constants[i].Flag?
    requires forall i, j, p :: 0 <= i < j < |e.constants| && p in e.constants[i].positions ==>
               p !in e.constants[j].positions
    ensures FlagsDisjoint(e)
  {
    forall i, j | 0 <= i < j < |e.constants|
      ensures Disjoint(Value(e.constants[i]), Value(e.constants[j]))
    {
      BitsDisjoint(e.constants[i].positions, e.constants[j].positions);
    }
  }

  /** No two `REF.Flags` constants share a bit. */
  lemma RefFlagsDisjoint()
    ensures FlagsDisjoint(RefFlags)
  {
    RefFlagsListed();
    FlagsOverDisjointPositions(RefFlags);
  }

  /** Taking off from the always-on bits: `default | start` is 0x11540200. */
  lemma RefTakeoff()
    ensures Or(Bits([18, 20, 22, 24, 28]), Bits([9])) == 0x1154_0200
  {
    RefDefaultNumber();
    SingleBitNumber(9);
    Pow2Table();
    BitsDisjoint([18, 20, 22, 24, 28], [9]);
    OrDisjointIsSum(0x1154_0000, 0x200);
  }

  /** Adding `select` to a take-off command sets bit 8 as well: 0x11540300. */
  lemma RefTakeoffSelect()
    ensures Or(Or(Bits([18, 20, 22, 24, 28]), Bits([9])), Bits([8])) == 0x1154_0300
  {
    RefTakeoff();
    SingleBitNumber(8);
    Pow2Table();
    BitsDisjoint([18, 20, 22, 24, 28], [8]);
    BitsDisjoint([9], [8]);
    OrDisjoint(Bits([18, 20, 22, 24, 28]), Bits([9]), 0x100);
    OrDisjointIsSum(0x1154_0200, 0x100);
  }

  /** `PCMD.Flags.progressive`, `.combined_yaw` and `.absolute_control` name the declared members. */
  lemma PcmdFlagMembers()
    ensures Member(PcmdFlags.constants, "progressive") == Some(Flag("progressive", [0]))
    ensures Member(PcmdFlags.constants, "combined_yaw") == Some(Flag("combined_yaw", [1]))
    ensures Member(PcmdFlags.constants, "absolute_control") == Some(Flag("absolute_control", [2]))
  {
    PcmdFlagsListed();
    var cs := PcmdFlags.constants;
    MemberAt(cs, 0);
    MemberAt(cs, 1);
    MemberAt(cs, 2);
  }

  /** `PCMD.Flags`: `progressive` is 1, `combined_yaw` 2 and `absolute_control` 4. */
  lemma PcmdFlagValues()
    ensures Value(Member(PcmdFlags.constants, "progressive").value) == 1
    ensures Value(Member(PcmdFlags.constants, "combined_yaw").value) == 2
    ensures Value(Member(PcmdFlags.constants, "absolute_control").value) == 4
  {
    PcmdFlagMembers();
    SingleBitNumber(2);
    SingleBitNumber(1);
    SingleBitNumber(0);
    Pow2Table();
  }

  /** No two `PCMD.Flags` constants share a bit. */
  lemma PcmdFlagsDisjoint()
    ensures FlagsDisjoint(PcmdFlags)
  {
    PcmdFlagsListed();
    FlagsOverDisjointPositions(PcmdFlags);
  }

  /** All three `PCMD.Flags` together make 7. */
  lemma PcmdFlagsCombined()
    ensures Or(Or(Bits([0]), Bits([1])), Bits([2])) == 7
  {
    SingleBitNumber(2);
    SingleBitNumber(1);
    SingleBitNumber(0);
    Pow2Table();
    BitsDisjoint([0], [1]);
    OrDisjointIsSum(1, 2);
    BitsDisjoint([0], [2]);
    BitsDisjoint([1], [2]);
    OrDisjoint(1, 2, 4);
    OrDisjointIsSum(3, 4);
  }

  /** `PCMD` takes `flag` (Int32, required), then `roll`, `pitch`, `gaz`, `yaw` (Float, default 0). */
  lemma PcmdArgs()
    ensures ArgNames(PCMD) == ["flag", "roll", "pitch", "gaz", "yaw"]
    ensures PCMD.args[0] == ArgSpec("flag", Int32, None)
    ensures forall i :: 1 <= i < |PCMD.args| ==> PCMD.args[i].kind == Float && PCMD.args[i].default == Some(0)
  {
  }

  /** `PCMD_MAG` takes `flag` (Int32) then six Float arguments, none with a default. */
  lemma PcmdMagArgs()
    ensures ArgNames(PCMD_MAG) == ["flag", "roll", "pitch", "gaz", "yaw", "psi", "psi_accuracy"]
    ensures PCMD_MAG.args[0].kind == Int32
    ensures forall i :: 1 <= i < |PCMD_MAG.args| ==> PCMD_MAG.args[i].kind == Float
    ensures forall i :: 0 <= i < |PCMD_MAG.args| ==> PCMD_MAG.args[i].default.None?
  {
  }

  /**
   * `CONFIG` takes exactly the String arguments `key` and `value`;
   * `CONFIG_IDS` the String arguments `session`, `user`, `application_ids`.
   */
  lemma ConfigArgs()
    ensures ArgNames(CONFIG) == ["key", "value"]
    ensures ArgNames(CONFIG_IDS) == ["session", "user", "application_ids"]
    ensures forall a :: a in CONFIG.args + CONFIG_IDS.args ==> a.kind == String && a.default.None?
  {
  }

  /** `FTRIM` and `COMWDG` declare no argument; `CALIB` one Int32, `device_number`. */
  lemma BareCommandArgs()
    ensures FTRIM.args == [] && COMWDG.args == []
    ensures CALIB.args == [ArgSpec("device_number", Int32, None)]
  {
  }

  /**
   * `CTRL.Modes` numbers its seven names 0 to 6 in declaration order, so
   * `CFG_GET_CONTROL_MODE` is 4 and `ACK_CONTROL_MODE` 5; `CTRL` takes `mode`
   * (Int32) then `zero` (Int32, default 0).
   */
  lemma CtrlModesAndArgs()
    ensures |CtrlModes.constants| == 7
    ensures forall i :: 0 <= i < 7 ==> CtrlModes.constants[i] == Number(CtrlModeNames[i], i)
    ensures Member(CtrlModes.constants, "CFG_GET_CONTROL_MODE") == Some(Number("CFG_GET_CONTROL_MODE", 4))
    ensures Member(CtrlModes.constants, "ACK_CONTROL_MODE") == Some(Number("ACK_CONTROL_MODE", 5))
    ensures CTRL.args == [ArgSpec("mode", Int32, None), ArgSpec("zero", Int32, Some(0))]
  {
    MemberAt(CtrlModes.constants, 4);
    MemberAt(CtrlModes.constants, 5);
  }
}
