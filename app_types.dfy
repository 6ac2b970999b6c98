/** The application's records and identifiers (Source/zcl_app.h): the
    configuration block, the two cached reading records, the OSAL event bits
    and the ZCL cluster and attribute identifiers the application uses. */
module AppTypes {
  import opened CTypes

  /** `application_config_t`. The device address is the meter's 32-bit serial
      number and only ever goes out on the wire, so it is kept as bits. */
  datatype AppConfig = AppConfig(
    deviceAddress: bv32,
    measurementPeriod: uint16,
    voltageDivisor: uint16,
    currentDivisor: uint16,
    powerDivisor: uint16,
    voltageMultiplier: uint16,
    currentMultiplier: uint16,
    powerMultiplier: uint16)

  /** `current_values_t`: current in 0.01 A, active power in W, voltage in 0.1 V. */
  datatype CurrentValues = CurrentValues(current: uint16, power: int16, voltage: uint16)

  /** `energy_t`: the per-tariff energy totals in 0.01 kWh. */
  datatype Energy = Energy(t0: uint32, t1: uint32, t2: uint32, t3: uint32, t4: uint32)

  // OSAL event bits of the application task. SYS_EVENT_MSG is the OSAL
  // system-message bit defined by the Z-Stack headers.
  const SysEventMsg: bv16 := 0x8000
  const AppReportEvt: bv16 := 0x0001
  const AppSaveAttrsEvt: bv16 := 0x0002
  const AppReadSensorsEvt: bv16 := 0x0004

  // ZCL cluster identifiers (Zigbee Cluster Library).
  const ClusterBasic: uint16 := 0x0000
  const ClusterElectrical: uint16 := 0x0B04
  const ClusterSeMetering: uint16 := 0x0702

  // Basic cluster attributes.
  const AttrZclVersion: uint16 := 0x0000
  const AttrApplVersion: uint16 := 0x0001
  const AttrStackVersion: uint16 := 0x0002
  const AttrHwVersion: uint16 := 0x0003
  const AttrManufacturerName: uint16 := 0x0004
  const AttrModelId: uint16 := 0x0005
  const AttrDateCode: uint16 := 0x0006
  const AttrPowerSource: uint16 := 0x0007
  const AttrSwBuildId: uint16 := 0x4000
  const AttrClusterRevision: uint16 := 0xFFFD

  // Electrical measurement cluster attributes.
  const AttrRmsVoltage: uint16 := 0x0505
  const AttrRmsCurrent: uint16 := 0x0508
  const AttrActivePower: uint16 := 0x050B
  const AttrAcVoltageMultiplier: uint16 := 0x0600
  const AttrAcVoltageDivisor: uint16 := 0x0601
  const AttrAcCurrentMultiplier: uint16 := 0x0602
  const AttrAcCurrentDivisor: uint16 := 0x0603
  const AttrAcPowerMultiplier: uint16 := 0x0604
  const AttrAcPowerDivisor: uint16 := 0x0605

  // Metering cluster attributes, standard and custom (Source/zcl_app.h).
  const AttrTier1SummDlvd: uint16 := 0x0100
  const AttrTier2SummDlvd: uint16 := 0x0102
  const AttrTier3SummDlvd: uint16 := 0x0104
  const AttrTier4SummDlvd: uint16 := 0x0106
  const AttrCustomDeviceAddress: uint16 := 0xF001
  const AttrCustomMeasurementPeriod: uint16 := 0xF002
}
