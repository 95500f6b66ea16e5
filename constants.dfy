/**
 * The fixed numbers of the in-display fingerprint HAL for this device:
 * acquisition codes, the vendor illumination command, the touch driver's
 * mode request, and the reported sensor geometry.
 */
module FodConstants {

  /** C `int` / `int32_t`: every value the HAL exchanges fits in 32 bits. */
  newtype int32 = x: int | -0x8000_0000 <= x < 0x8000_0000

  /** `acquiredInfo` value meaning "the vendor code says what happened". */
  const FingerprintAcquiredVendor: int32 := 6
  /** Vendor codes that mean "finger touched" and "finger lifted". */
  const VendorFingerDown: int32 := 22
  const VendorFingerUp: int32 := 23

  /** Vendor service command switching the sensor-area illumination. */
  const CommandNit: int32 := 10
  const ParamNitFod: int32 := 1
  const ParamNitNone: int32 := 0

  /** Touch driver feature selector and its two states. */
  const TouchFodEnable: int32 := 10
  const FodStatusOn: int32 := 1
  const FodStatusOff: int32 := -1

  /** ioctl request code of the touch driver's "set mode" call. */
  const TouchMagic: int32 := 0x5400
  const TouchIocSetMode: int32 := TouchMagic + 0

  /** Centre and diameter of the sensor area, in screen pixels. */
  const FodSensorX: int32 := 445
  const FodSensorY: int32 := 1931
  const FodSensorSize: int32 := 190
}
