# In-display fingerprint HAL bridge, modelled in Dafny

This project models the `FingerprintInscreen` HAL object of a Xiaomi device
tree (`fod/FingerprintInscreen.cpp`). The object bridges three parties:

- **The display driver's `fod_ui` attribute.** A background watcher blocks on
  it. On every successful wake it reads one byte and sends the vendor fingerprint service
  `extCmd(10, 1)` (light the sensor area) or `extCmd(10, 0)` (no light); a
  failed poll sends nothing.
- **The vendor service's acquisition reports.** `handleAcquired` turns the pair
  `(6, 22)` into a finger-down notification and `(6, 23)` into a finger-up
  notification. It delivers them to the listener registered with
  `setCallback`, and answers whether it delivered one.
- **The touch driver.** `onShowFODView` and `onHideFODView` issue the set-mode
  ioctl `0x5400` with the argument `[10, 1]` or `[10, -1]`.

Modules:

- `FodConstants` (`constants.dfy`) holds the source's `#define`s and a 32-bit `int32` type.
- `OverlayStatus` (`overlay_status.dfy`) holds `readBool`. Its reference is the attribute's text: a readable file whose first byte is not `'0'`.
- `OverlayWatcher` (`overlay_watcher.dfy`) holds one wake of the watcher loop and the loop over a run of wakes.
- `TouchMode` (`touch_mode.dfy`) holds the touch-mode ioctl and the meaning of its argument in the `FOD_STATUS_ON`/`FOD_STATUS_OFF` vocabulary, which is its inverse.
- `InscreenSpec` (`inscreen_spec.dfy`) holds the object's state as a value and the effect of each stateful call (`Step`). It also holds whole sessions of calls (`Run`) and the lemmas about sessions.
- `Inscreen` (`inscreen.dfy`) holds the class `FingerprintInscreen`. It has the `callback` field, the touch descriptor, and ghost logs of listener notifications and touch requests. Each method's contract ties its effect to `Step`.

Inputs that come from the operating system or from other processes become
parameters:

- the return codes of `open`, `poll`, `lseek` and `read`, and the byte read;
- the status that a listener invocation returns.

Side effects become log entries:

- the commands the watcher sends;
- the listener notifications;
- the ioctl requests.

A failed rewind or a short read reads as "overlay hidden" (lines 57-67).

## Model

| member | source | states |
|---|---|---|
| OverlayStatus.ReadBool | fod/FingerprintInscreen.cpp:53-70 | a non-zero seek result or a read count other than 1 gives false, whatever the byte; otherwise true exactly when the byte is not `'0'` |
| OverlayStatus.ReadAfterRewind | fod/FingerprintInscreen.cpp:57-69 | for a readable attribute, `readBool` agrees with the file's text: true exactly when the file is non-empty and its first character is not `'0'`; an empty file reads as false whatever byte was left in the buffer |
| OverlayStatus.ExampleTexts | fod/FingerprintInscreen.cpp:63-69 | example: the texts `"1\n"` and `"0\n"` decode as shown and hidden, and an empty file decodes as hidden |
| OverlayWatcher.NitParam | fod/FingerprintInscreen.cpp:106-107 | the illumination parameter is `PARAM_NIT_FOD` (1) exactly when the overlay is shown, and `PARAM_NIT_NONE` (0) otherwise |
| OverlayWatcher.CommandFor | fod/FingerprintInscreen.cpp:106-107 | the command sent is always `COMMAND_NIT` (10) with parameter `PARAM_NIT_FOD` (1) when the overlay is shown and `PARAM_NIT_NONE` (0) when it is hidden |
| OverlayWatcher.WatcherStep | fod/FingerprintInscreen.cpp:100-107 | a negative poll result sends nothing; any other wake sends exactly one `COMMAND_NIT` command, with parameter 1 when `readBool` is true and 0 otherwise |
| OverlayWatcher.WatcherCommands | fod/FingerprintInscreen.cpp:99-108 | a run of wakes sends at most one command per wake |
| OverlayWatcher.Successful | fod/FingerprintInscreen.cpp:100-104 | the wakes that get past the poll check are exactly those with a non-negative poll result: every kept wake has one, and every wake that has one is kept |
| OverlayWatcher.SuccessfulAppend | fod/FingerprintInscreen.cpp:100-104 | the successful wakes of two consecutive runs are those of each run, concatenated in order |
| OverlayWatcher.WatcherCommandsAppend | fod/FingerprintInscreen.cpp:99-108 | the commands of two consecutive runs of wakes are the concatenation of each run's commands; the loop keeps no state between wakes |
| OverlayWatcher.OneCommandPerSuccessfulWake | fod/FingerprintInscreen.cpp:99-108 | the loop sends exactly one command per successful wake, and the k-th command is determined by the k-th successful wake's read alone |
| OverlayWatcher.NoDeduplication | fod/FingerprintInscreen.cpp:99-108 | two equal successful wakes in a row send the same command twice; nothing is suppressed |
| OverlayWatcher.WatchFodUi | fod/FingerprintInscreen.cpp:86-109 | if opening the attribute fails, the thread sends nothing; otherwise it sends exactly the commands of its wakes, in order |
| TouchMode.SetModeArg | fod/FingerprintInscreen.cpp:38-40 | the ioctl argument has two elements: the selector `Touch_Fod_Enable` (10) and the status `FOD_STATUS_ON`/`FOD_STATUS_OFF` that means the requested on/off mode |
| TouchMode.SetModeRequest | fod/FingerprintInscreen.cpp:140-152 | show and hide issue the set-mode request `0x5400` on the descriptor opened at construction, even one that failed to open; its argument means the requested mode |
| TouchMode.OnOffOpposite | fod/FingerprintInscreen.cpp:38-40 | the show and hide requests have the same selector and opposite status words (+1 and -1) |
| InscreenSpec.Classify | fod/FingerprintInscreen.cpp:160-176 | an acquisition pair reports a finger event exactly when the kind is `FINGERPRINT_ACQUIRED_VENDOR` (6) and the vendor code is that event's code (22 for down, 23 for up) |
| InscreenSpec.Step | fod/FingerprintInscreen.cpp:154-205 | any call keeps the touch descriptor; it grows each log by at most one entry, never rewriting it; it answers true exactly when it delivers a notification; only `setCallback` changes the listener |
| InscreenSpec.Run | fod/FingerprintInscreen.cpp:154-205 | a session answers every call and only appends to both logs |
| InscreenSpec.RunAppend | fod/FingerprintInscreen.cpp:154-205 | running two sessions back to back is the same as running their concatenation |
| InscreenSpec.DeliveriesMatchTrueReplies | fod/FingerprintInscreen.cpp:160-178 | over any session, the number of notifications delivered equals the number of `true` answers |
| InscreenSpec.SilentWithoutListener | fod/FingerprintInscreen.cpp:155-158 | while no listener is registered and none is registered, nothing is delivered and no call answers true |
| InscreenSpec.ClearedListenerSilences | fod/FingerprintInscreen.cpp:198-205 | after registering a listener and then clearing it, later calls deliver nothing and answer false until a new listener is registered |
| InscreenSpec.DeliveriesGoToRegistered | fod/FingerprintInscreen.cpp:160-175 | without a `setCallback` in between, the listener stays the same and every notification goes to it |
| InscreenSpec.TouchRequestsOfSession | fod/FingerprintInscreen.cpp:140-152 | a session's touch requests are exactly those of its show and hide calls, in order; listener calls play no part |
| InscreenSpec.ReplyIgnoresDeliveryStatus | fod/FingerprintInscreen.cpp:162-174 | the status a listener invocation returns never changes the answer of `handleAcquired` |
| Inscreen.FingerprintInscreen.constructor | fod/FingerprintInscreen.cpp:82-84 | a new object has no listener and empty logs, and keeps the touch descriptor as opened |
| Inscreen.FingerprintInscreen.GetPositionX | fod/FingerprintInscreen.cpp:112-114 | reports the fixed sensor-centre column, 445 px |
| Inscreen.FingerprintInscreen.GetPositionY | fod/FingerprintInscreen.cpp:116-118 | reports the fixed sensor-centre row, 1931 px |
| Inscreen.FingerprintInscreen.GetSize | fod/FingerprintInscreen.cpp:120-122 | reports the fixed sensor diameter, 190 px |
| Inscreen.FingerprintInscreen.OnShowFodView | fod/FingerprintInscreen.cpp:140-145 | issues exactly one set-mode request with argument `[10, 1]` and changes nothing else, the listener included |
| Inscreen.FingerprintInscreen.OnHideFodView | fod/FingerprintInscreen.cpp:147-152 | issues exactly one set-mode request with argument `[10, -1]` and changes nothing else, the listener included |
| Inscreen.FingerprintInscreen.HandleAcquired | fod/FingerprintInscreen.cpp:154-179 | with no listener: answers false and delivers nothing; with one: delivers exactly one notification for `(6, 22)` or `(6, 23)` and answers true, even if that invocation fails; otherwise delivers nothing and answers false; the listener is never changed |
| Inscreen.FingerprintInscreen.HandleError | fod/FingerprintInscreen.cpp:181-184 | always answers false and changes nothing |
| Inscreen.FingerprintInscreen.SetCallback | fod/FingerprintInscreen.cpp:198-205 | the stored listener becomes exactly the one given, or none; nothing else changes |

## Left out

- The watcher's detached `std::thread` and its endless loop are not modelled as such. The model runs the loop over a finite run of wakes, and the thread runs separately from the object's calls.
- The callback mutex is not modelled. Because of it each `handleAcquired` and `setCallback` call is atomic, so the model treats every call as one indivisible step.
- The system calls `open`, `poll`, `lseek`, `read` and `ioctl`, and the `unique_fd` wrapper, are not modelled. Their return codes are inputs, and the requests issued are log entries. What the ioctl does in the driver is not part of this model.
- `IXiaomiFingerprint::getService`, the HIDL `Return`/`sp` types and `LOG` output are not modelled. The model assumes the vendor service handle exists: in the source, a missing service would be dereferenced as null by the watcher.
- Listeners are identities. What a listener does on `onFingerDown`/`onFingerUp` is external; only the status it returns is an input.
- The stub calls `onStartEnroll`, `onFinishEnroll`, `onPress`, `onRelease`, `setLongPressEnabled`, `getDimAmount` and `shouldBoostBrightness` are not modelled. They only return a constant.
- `motor/src/org/lineageos/popupcamera/PopupCameraSettingsFragment.java` is not part of this model. It is Android preference and dialog UI.
- `lseek`'s `off_t` result is truncated into an `int` in the source. The model takes the return code after that truncation.
