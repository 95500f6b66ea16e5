/**
 * The touch driver's "fingerprint overlay" mode: the control request that
 * showing or hiding the overlay issues on the touch device.
 */
module TouchMode {

  import opened Wrappers
  import opened FodConstants

  /** One `ioctl(fd, request, arg)` call on the touch device. */
  datatype TouchRequest = TouchRequest(fd: int32, request: int32, arg: seq<int32>)

  /** The two-element argument `[selector, status]` for switching the overlay mode on or off. */
  function SetModeArg(enable: bool): (arg: seq<int32>)
    ensures |arg| == 2 && arg[0] == TouchFodEnable
    ensures ModeOf(arg) == Some(enable)
  {
    [TouchFodEnable, if enable then FodStatusOn else FodStatusOff]
  }

  /**
   * What an argument means in the mode vocabulary: `Touch_Fod_Enable` with
   * `FOD_STATUS_ON` switches the overlay feature on, with `FOD_STATUS_OFF`
   * off; None for anything that is not an overlay-mode argument.
   */
  function ModeOf(arg: seq<int32>): Option<bool>
  {
    if |arg| != 2 || arg[0] != TouchFodEnable then None
    else if arg[1] == FodStatusOn then Some(true)
    else if arg[1] == FodStatusOff then Some(false)
    else None
  }

  /** The set-mode request issued on descriptor `fd`, whether or not opening the device succeeded. */
  function SetModeRequest(fd: int32, enable: bool): (r: TouchRequest)
    ensures r.fd == fd && r.request == TouchIocSetMode
    ensures ModeOf(r.arg) == Some(enable)
  {
    TouchRequest(fd, TouchIocSetMode, SetModeArg(enable))
  }

  /** Switching on and off differ only in the status word, which changes sign. */
  lemma OnOffOpposite(fd: int32)
    ensures SetModeRequest(fd, true).arg[0] == SetModeRequest(fd, false).arg[0]
    ensures SetModeRequest(fd, true).arg[1] == -SetModeRequest(fd, false).arg[1]
    ensures SetModeRequest(fd, true) != SetModeRequest(fd, false)
  {
  }
}
