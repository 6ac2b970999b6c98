/** The application's global data (Source/zcl_app_data.c): the configuration
    block and the two reading caches with their boot initialisers, the reset
    to default values, and the attribute table of the first endpoint, which
    fixes which global field each ZCL attribute exposes. */
module AppData {
  import opened CTypes
  import opened AppTypes

  const DefaultDeviceAddress: bv32 := 11111111
  const DefaultMeasurementPeriod: uint16 := 30

  /** The static initialiser of `zclApp_Config`. */
  const BootConfig := AppConfig(
    deviceAddress := DefaultDeviceAddress,
    measurementPeriod := DefaultMeasurementPeriod,
    voltageDivisor := 10,
    currentDivisor := 100,
    powerDivisor := 1,
    voltageMultiplier := 1,
    currentMultiplier := 1,
    powerMultiplier := 1)

  /** The static initialisers of `zclApp_CurrentValues` and `zclApp_Energies`;
      `Energy_T0` is not named and is zero as every static is. */
  const BootCurrentValues := CurrentValues(current := 0, power := 0, voltage := 0)
  const BootEnergies := Energy(t0 := 0, t1 := 0, t2 := 0, t3 := 0, t4 := 0)

  /** What `zclApp_ResetAttributesToDefaultValues` writes into `cfg`, field by
      field in the source's order. */
  function ResetConfig(cfg: AppConfig): (r: AppConfig)
    ensures r.deviceAddress == DefaultDeviceAddress && r.measurementPeriod == DefaultMeasurementPeriod
    ensures r.voltageDivisor == r.currentDivisor == r.powerDivisor == 10
    ensures r.voltageMultiplier == r.currentMultiplier == r.powerMultiplier == 1
  {
    cfg.(deviceAddress := DefaultDeviceAddress)
       .(measurementPeriod := DefaultMeasurementPeriod)
       .(voltageDivisor := 10)
       .(currentDivisor := 10)
       .(powerDivisor := 10)
       .(voltageMultiplier := 1)
       .(currentMultiplier := 1)
       .(powerMultiplier := 1)
  }

  /** Every field is overwritten: the reset does not depend on the old
      configuration, so resetting twice is resetting once. */
  lemma ResetOverwritesAll(a: AppConfig, b: AppConfig)
    ensures ResetConfig(a) == ResetConfig(b)
    ensures ResetConfig(ResetConfig(a)) == ResetConfig(a)
  {
  }

  /** The reset defaults are not the boot defaults: the current divisor goes
      from 100 to 10 and the power divisor from 1 to 10; every other field
      agrees. */
  lemma BootDiffersFromReset(cfg: AppConfig)
    ensures BootConfig.currentDivisor == 100 && ResetConfig(cfg).currentDivisor == 10
    ensures BootConfig.powerDivisor == 1 && ResetConfig(cfg).powerDivisor == 10
    ensures ResetConfig(cfg) == BootConfig.(currentDivisor := 10, powerDivisor := 10)
  {
  }

  /** The three globals the application reads and writes. */
  class Globals {
    var config: AppConfig
    var currentValues: CurrentValues
    var energies: Energy

    /** The state at boot, before anything is restored from NV storage. */
    constructor ()
      ensures config == BootConfig
      ensures currentValues == BootCurrentValues && energies == BootEnergies
    {
      config := BootConfig;
      currentValues := BootCurrentValues;
      energies := BootEnergies;
    }

    /** `zclApp_ResetAttributesToDefaultValues`: only the configuration
        changes. */
    method ResetAttributesToDefaultValues()
      modifies this
      ensures config == ResetConfig(old(config))
      ensures currentValues == old(currentValues) && energies == old(energies)
    {
      config := config.(deviceAddress := DefaultDeviceAddress);
      config := config.(measurementPeriod := DefaultMeasurementPeriod);
      config := config.(voltageDivisor := 10);
      config := config.(currentDivisor := 10);
      config := config.(powerDivisor := 10);
      config := config.(voltageMultiplier := 1);
      config := config.(currentMultiplier := 1);
      config := config.(powerMultiplier := 1);
    }
  }

  // ------------------------------------------------------- attribute table

  /** The access flags of Source/zcl_app.h: `R`, `RR` (read, reportable) and
      `RW` (read, write, authorised write). */
  datatype Access = R | RR | RW

  /** The ZCL data types the table uses. */
  datatype ZclType = Uint8 | Uint16 | Int16 | Uint32 | CharStr | Enum8

  /** The variable an attribute record points at. */
  datatype Field =
    | ZclVersion | ApplicationVersion | StackVersion | HwRevision
    | ManufacturerName | ModelId | DateCode | PowerSource | ClusterRevision
    | Voltage | Current | Power
    | VoltageDivisor | CurrentDivisor | PowerDivisor
    | VoltageMultiplier | CurrentMultiplier | PowerMultiplier
    | EnergyT1 | DeviceAddress | MeasurementPeriod

  /** `zclAttrRec_t`: cluster, attribute id, type, access and data pointer. */
  datatype AttrRec = AttrRec(cluster: uint16, id: uint16, dataType: ZclType, access: Access, field: Field)

  /** `zclApp_AttrsFirstEP`, in the source's order. The four tier attributes
      all point at `Energy_T1`. */
  const AttrsFirstEP: seq<AttrRec> := [
    AttrRec(ClusterBasic, AttrZclVersion, Uint8, R, ZclVersion),
    AttrRec(ClusterBasic, AttrApplVersion, Uint8, R, ApplicationVersion),
    AttrRec(ClusterBasic, AttrStackVersion, Uint8, R, StackVersion),
    AttrRec(ClusterBasic, AttrHwVersion, Uint8, R, HwRevision),
    AttrRec(ClusterBasic, AttrManufacturerName, CharStr, R, ManufacturerName),
    AttrRec(ClusterBasic, AttrModelId, CharStr, R, ModelId),
    AttrRec(ClusterBasic, AttrDateCode, CharStr, R, DateCode),
    AttrRec(ClusterBasic, AttrPowerSource, Enum8, R, PowerSource),
    AttrRec(ClusterBasic, AttrSwBuildId, CharStr, R, DateCode),
    AttrRec(ClusterBasic, AttrClusterRevision, Uint16, R, ClusterRevision),
    AttrRec(ClusterElectrical, AttrRmsVoltage, Uint16, RR, Voltage),
    AttrRec(ClusterElectrical, AttrRmsCurrent, Uint16, RR, Current),
    AttrRec(ClusterElectrical, AttrActivePower, Int16, RR, Power),
    AttrRec(ClusterElectrical, AttrAcVoltageDivisor, Uint16, R, VoltageDivisor),
    AttrRec(ClusterElectrical, AttrAcCurrentDivisor, Uint16, R, CurrentDivisor),
    AttrRec(ClusterElectrical, AttrAcPowerDivisor, Uint16, R, PowerDivisor),
    AttrRec(ClusterElectrical, AttrAcVoltageMultiplier, Uint16, R, VoltageMultiplier),
    AttrRec(ClusterElectrical, AttrAcCurrentMultiplier, Uint16, R, CurrentMultiplier),
    AttrRec(ClusterElectrical, AttrAcPowerMultiplier, Uint16, R, PowerMultiplier),
    AttrRec(ClusterSeMetering, AttrTier1SummDlvd, Uint32, R, EnergyT1),
    AttrRec(ClusterSeMetering, AttrTier2SummDlvd, Uint32, R, EnergyT1),
    AttrRec(ClusterSeMetering, AttrTier3SummDlvd, Uint32, R, EnergyT1),
    AttrRec(ClusterSeMetering, AttrTier4SummDlvd, Uint32, R, EnergyT1),
    AttrRec(ClusterSeMetering, AttrCustomDeviceAddress, Uint32, RW, DeviceAddress),
    AttrRec(ClusterSeMetering, AttrCustomMeasurementPeriod, Uint16, RW, MeasurementPeriod)
  ]

  /** What an attribute read returns: a number, or the text of a ZCL
      character string (whose length prefix is left implicit). */
  datatype AttrValue = Num(n: int) | Text(s: string)

  /** The value behind a field, given the three globals. The build date
      string lives in a generated header and is a parameter here. */
  function FieldValue(f: Field, cfg: AppConfig, cv: CurrentValues, e: Energy, dateCode: string): AttrValue {
    match f
    case ZclVersion => Num(1)
    case ApplicationVersion => Num(3)
    case StackVersion => Num(4)
    case HwRevision => Num(1)
    case ManufacturerName => Text("Bacchus")
    case ModelId => Text("Mercury_Counter")
    case DateCode => Text(dateCode)
    case PowerSource => Num(0x01)
    case ClusterRevision => Num(0x0002)
    case Voltage => Num(cv.voltage)
    case Current => Num(cv.current)
    case Power => Num(cv.power)
    case VoltageDivisor => Num(cfg.voltageDivisor)
    case CurrentDivisor => Num(cfg.currentDivisor)
    case PowerDivisor => Num(cfg.powerDivisor)
    case VoltageMultiplier => Num(cfg.voltageMultiplier)
    case CurrentMultiplier => Num(cfg.currentMultiplier)
    case PowerMultiplier => Num(cfg.powerMultiplier)
    case EnergyT1 => Num(e.t1)
    case DeviceAddress => Num(cfg.deviceAddress as int)
    case MeasurementPeriod => Num(cfg.measurementPeriod)
  }

  /** Record `rec` is the one for attribute `id` of `cluster`. */
  predicate HasKey(rec: AttrRec, cluster: uint16, id: uint16) {
    rec.cluster == cluster && rec.id == id
  }

  /** The position of the first record of `table` for attribute `id` of
      `cluster`, if any. */
  function FindAttr(table: seq<AttrRec>, cluster: uint16, id: uint16): (r: Option<nat>)
    ensures r.Some? ==> r.value < |table|
    decreases |table|
  {
    if table == [] then None
    else if HasKey(table[0], cluster, id) then Some(0)
    else match FindAttr(table[1..], cluster, id)
      case None => None
      case Some(k) => Some(k + 1)
  }

  /** The lookup finds the first record with the key, and finds none exactly
      when no record has it. */
  lemma {:induction false} FindAttrSpec(table: seq<AttrRec>, cluster: uint16, id: uint16)
    ensures var r := FindAttr(table, cluster, id);
      r.Some? ==> HasKey(table[r.value], cluster, id)
                  && forall j :: 0 <= j < r.value ==> !HasKey(table[j], cluster, id)
    ensures FindAttr(table, cluster, id).None? <==> forall j :: 0 <= j < |table| ==> !HasKey(table[j], cluster, id)
    decreases |table|
  {
    if table != [] && !HasKey(table[0], cluster, id) {
      FindAttrSpec(table[1..], cluster, id);
      assert forall j :: 0 < j < |table| ==> table[j] == table[1..][j - 1];
    }
  }

  /** Reading attribute `id` of `cluster` on the first endpoint. */
  function ReadAttribute(cluster: uint16, id: uint16, cfg: AppConfig, cv: CurrentValues, e: Energy, dateCode: string): Option<AttrValue> {
    match FindAttr(AttrsFirstEP, cluster, id)
    case None => None
    case Some(k) => Some(FieldValue(AttrsFirstEP[k].field, cfg, cv, e, dateCode))
  }

  /** No two records of the table share a cluster and an attribute id, so the
      record a read finds is the only one. */
  lemma AttrKeysUnique()
    ensures forall i, j :: 0 <= i < j < |AttrsFirstEP| ==>
      !(AttrsFirstEP[i].cluster == AttrsFirstEP[j].cluster && AttrsFirstEP[i].id == AttrsFirstEP[j].id)
  {
  }

  /** A read of a record's own cluster and id finds that record. */
  lemma FindAttrAt(k: nat)
    requires k < |AttrsFirstEP|
    ensures FindAttr(AttrsFirstEP, AttrsFirstEP[k].cluster, AttrsFirstEP[k].id) == Some(k)
  {
    FindAttrSpec(AttrsFirstEP, AttrsFirstEP[k].cluster, AttrsFirstEP[k].id);
    AttrKeysUnique();
  }

  /** A read of a record's own cluster and id yields the field it points at. */
  lemma ReadAttributeAt(k: nat, cluster: uint16, id: uint16, f: Field, cfg: AppConfig, cv: CurrentValues, e: Energy, dateCode: string)
    requires k < |AttrsFirstEP| && AttrsFirstEP[k].cluster == cluster && AttrsFirstEP[k].id == id
    requires AttrsFirstEP[k].field == f
    ensures ReadAttribute(cluster, id, cfg, cv, e, dateCode) == Some(FieldValue(f, cfg, cv, e, dateCode))
  {
    FindAttrAt(k);
  }

  /** The metering cluster's four tier attribute ids, tier 1 first. */
  const TierAttrIds: seq<uint16> := [AttrTier1SummDlvd, AttrTier2SummDlvd, AttrTier3SummDlvd, AttrTier4SummDlvd]

  /** The four tier attributes of the metering cluster all read `Energy_T1`,
      whatever the other tariffs hold. */
  lemma TierAttributesReadT1(cfg: AppConfig, cv: CurrentValues, e: Energy, dateCode: string)
    ensures forall t :: 0 <= t < |TierAttrIds| ==>
      ReadAttribute(ClusterSeMetering, TierAttrIds[t], cfg, cv, e, dateCode) == Some(Num(e.t1))
  {
    forall t | 0 <= t < |TierAttrIds|
      ensures ReadAttribute(ClusterSeMetering, TierAttrIds[t], cfg, cv, e, dateCode) == Some(Num(e.t1))
    {
      TierAttributeReadsT1(t, ClusterSeMetering, TierAttrIds[t], cfg, cv, e, dateCode);
    }
  }

  /** Records 19-22 are the four tier attributes, all pointing at `Energy_T1`. */
  lemma TierRecords()
    ensures AttrsFirstEP[19] == AttrRec(ClusterSeMetering, AttrTier1SummDlvd, Uint32, R, EnergyT1)
    ensures AttrsFirstEP[20] == AttrRec(ClusterSeMetering, AttrTier2SummDlvd, Uint32, R, EnergyT1)
    ensures AttrsFirstEP[21] == AttrRec(ClusterSeMetering, AttrTier3SummDlvd, Uint32, R, EnergyT1)
    ensures AttrsFirstEP[22] == AttrRec(ClusterSeMetering, AttrTier4SummDlvd, Uint32, R, EnergyT1)
  {
  }

  /** Tier `t + 1` is record `19 + t`, which points at `Energy_T1`. */
  lemma TierAttributeReadsT1(t: nat, cluster: uint16, id: uint16, cfg: AppConfig, cv: CurrentValues, e: Energy, dateCode: string)
    requires t < |TierAttrIds| && cluster == ClusterSeMetering && id == TierAttrIds[t]
    ensures ReadAttribute(cluster, id, cfg, cv, e, dateCode) == Some(Num(e.t1))
  {
    TierRecords();
    ReadAttributeAt(19 + t, cluster, id, EnergyT1, cfg, cv, e, dateCode);
  }

  /** The device address and the measurement period are the only writable
      attributes; voltage, current and power are the only reportable ones. */
  lemma AccessOfAttributes()
    ensures forall i :: 0 <= i < |AttrsFirstEP| ==>
      (AttrsFirstEP[i].access == RW <==> AttrsFirstEP[i].field in {DeviceAddress, MeasurementPeriod})
    ensures forall i :: 0 <= i < |AttrsFirstEP| ==>
      (AttrsFirstEP[i].access == RR <==> AttrsFirstEP[i].field in {Voltage, Current, Power})
  {
  }
}
