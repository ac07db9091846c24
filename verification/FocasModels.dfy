/** The shapes read from a FANUC control (`shared/focas/models.py`). */
module FocasModels {
  import opened Wrappers
  import opened KeyedLedger

  /** Offset banks: four for a mill, six and the tip code for a lathe. */
  datatype RegisterType =
    | HGeom | HWear | DGeom | DWear
    | XGeom | XWear | ZGeom | ZWear | RGeom | RWear | Tip

  datatype MachineMode = Mdi | Mem | Edit | Hnd | Jog | Ref | Auto | Unknown

  datatype ToolLifeStatus = Live | Expired | Skipped

  datatype WorkOffsetSlot = WorkShift | Ext | G54 | G55 | G56 | G57 | G58 | G59

  datatype Axis = X | Z

  datatype OffsetKey = OffsetKey(register: nat, bank: RegisterType)

  datatype WorkOffsetKey = WorkOffsetKey(slot: WorkOffsetSlot, axis: Axis)

  datatype ToolLife = ToolLife(count: Option<nat>, max: Option<nat>, status: Option<ToolLifeStatus>)

  /** `cnc_statinfo` and the tool, work-offset and program displays. */
  datatype MachineStatus = MachineStatus(
    mode: MachineMode, running: bool, emergencyStop: bool,
    currentT: Option<nat>, nextT: Option<nat>,
    activeWcs: Option<string>, programNumber: Option<nat>, programName: Option<string>)

  /** One poll of one machine.  Offsets and work offsets are whole numbers of 0.0001 units: both
      validators quantize to that grid. */
  datatype MachineSnapshot = MachineSnapshot(
    polledAt: int,
    status: MachineStatus,
    offsets: seq<Reading<OffsetKey, int>>,
    pots: seq<Reading<nat, Option<nat>>>,
    macros: seq<Reading<nat, Option<real>>>,
    toolLife: seq<Reading<nat, ToolLife>>,
    workOffsets: seq<Reading<WorkOffsetKey, int>>)

  function Offsets(s: MachineSnapshot): seq<Reading<OffsetKey, int>> { s.offsets }
  function Pots(s: MachineSnapshot): seq<Reading<nat, Option<nat>>> { s.pots }
  function Macros(s: MachineSnapshot): seq<Reading<nat, Option<real>>> { s.macros }
  function ToolLives(s: MachineSnapshot): seq<Reading<nat, ToolLife>> { s.toolLife }
  function WorkOffsets(s: MachineSnapshot): seq<Reading<WorkOffsetKey, int>> { s.workOffsets }

  /** What the snapshot's own validators refuse otherwise.  Tool life and work offsets have none, and a
      tool that stands in two life groups is read twice. */
  ghost predicate Validated(s: MachineSnapshot) {
    Distinct(s.offsets) && Distinct(s.pots) && Distinct(s.macros)
  }
}
