/**
 * The fingerprint-in-screen HAL object: it keeps the registered listener,
 * turns vendor acquisition codes into finger notifications, and switches
 * the touch driver's overlay mode when the overlay is shown or hidden.
 * Every stateful method does what `InscreenSpec.Step` says of its call.
 * The watcher thread the constructor starts is `OverlayWatcher.WatchFodUi`.
 */
module Inscreen {

  import opened Wrappers
  import opened FodConstants
  import opened TouchMode
  import opened InscreenSpec

  class FingerprintInscreen {
    /** The registered listener, if any; the object's lock guards it. */
    var callback: Option<Listener>
    /** What opening the touch device returned at construction (negative on failure). */
    const touchFd: int32
    /** The finger notifications invoked on listeners so far. */
    ghost var deliveries: seq<Delivery>
    /** The set-mode requests issued on the touch device so far. */
    ghost var touchRequests: seq<TouchRequest>

    ghost function Snapshot(): State
      reads this
    {
      State(callback, deliveries, touchFd, touchRequests)
    }

    /** A new object: no listener, nothing delivered or requested, the touch device as opened. */
    constructor (touchOpenRc: int32)
      ensures Snapshot() == State(None, [], touchOpenRc, [])
    {
      callback := None;
      touchFd := touchOpenRc;
      deliveries := [];
      touchRequests := [];
    }

    /** The sensor centre's column, in pixels. */
    method GetPositionX() returns (x: int32)
      ensures x == FodSensorX
    {
      x := FodSensorX;
    }

    /** The sensor centre's row, in pixels. */
    method GetPositionY() returns (y: int32)
      ensures y == FodSensorY
    {
      y := FodSensorY;
    }

    /** The sensor area's diameter, in pixels. */
    method GetSize() returns (size: int32)
      ensures size == FodSensorSize
    {
      size := FodSensorSize;
    }

    /** Switches the touch driver's overlay mode on; the request goes out even on a failed descriptor. */
    method OnShowFodView()
      modifies this`touchRequests
      ensures touchRequests == old(touchRequests) + [SetModeRequest(touchFd, true)]
      ensures Snapshot() == Step(old(Snapshot()), Call.OnShowFodView).0
    {
      var arg := [TouchFodEnable, FodStatusOn];
      touchRequests := touchRequests + [TouchRequest(touchFd, TouchIocSetMode, arg)];
    }

    /** Switches the touch driver's overlay mode off; the request goes out even on a failed descriptor. */
    method OnHideFodView()
      modifies this`touchRequests
      ensures touchRequests == old(touchRequests) + [SetModeRequest(touchFd, false)]
      ensures Snapshot() == Step(old(Snapshot()), Call.OnHideFodView).0
    {
      var arg := [TouchFodEnable, FodStatusOff];
      touchRequests := touchRequests + [TouchRequest(touchFd, TouchIocSetMode, arg)];
    }

    /**
     * Delivers the finger event an acquisition pair reports to the registered
     * listener. `invocationOk` is the status the listener's method returns;
     * it is only logged, so a failed invocation still answers true.
     */
    method HandleAcquired(acquiredInfo: int32, vendorCode: int32, invocationOk: bool) returns (handled: bool)
      modifies this`deliveries
      ensures old(callback).None? ==> !handled && deliveries == old(deliveries)
      ensures handled <==> callback.Some? && Classify(acquiredInfo, vendorCode).Some?
      ensures handled ==>
        deliveries == old(deliveries) + [Delivery(callback.value, Classify(acquiredInfo, vendorCode).value, invocationOk)]
      ensures !handled ==> deliveries == old(deliveries)
      ensures (Snapshot(), Bool(handled)) == Step(old(Snapshot()), Call.HandleAcquired(acquiredInfo, vendorCode, invocationOk))
    {
      if callback == None {
        return false;
      }
      if acquiredInfo == FingerprintAcquiredVendor {
        if vendorCode == 22 {
          deliveries := deliveries + [Delivery(callback.value, FingerDown, invocationOk)];
          return true;
        }
        if vendorCode == 23 {
          deliveries := deliveries + [Delivery(callback.value, FingerUp, invocationOk)];
          return true;
        }
      }
      return false;
    }

    /** Error reports are only logged: always false, and nothing changes. */
    method HandleError(error: int32, vendorCode: int32) returns (handled: bool)
      ensures !handled
      ensures (Snapshot(), Bool(handled)) == Step(Snapshot(), Call.HandleError(error, vendorCode))
    {
      handled := false;
    }

    /** Replaces the registered listener; `None` unregisters. */
    method SetCallback(listener: Option<Listener>)
      modifies this`callback
      ensures callback == listener
      ensures Snapshot() == Step(old(Snapshot()), Call.SetCallback(listener)).0
    {
      callback := listener;
    }
  }

  /** A session on one object, following what its methods promise. */
  method ExampleSession(touchOpenRc: int32, l: Listener)
  {
    var hal := new FingerprintInscreen(touchOpenRc);
    var handled := hal.HandleAcquired(6, 22, true);
    assert !handled;
    hal.SetCallback(Some(l));
    handled := hal.HandleAcquired(6, 22, false);
    assert handled && hal.deliveries == [Delivery(l, FingerDown, false)];
    handled := hal.HandleAcquired(6, 99, true);
    assert !handled;
    handled := hal.HandleAcquired(6, 23, true);
    assert handled && |hal.deliveries| == 2 && hal.deliveries[1].finger == FingerUp;
    hal.SetCallback(None);
    handled := hal.HandleAcquired(6, 23, true);
    assert !handled && |hal.deliveries| == 2;
    hal.OnShowFodView();
    hal.OnHideFodView();
    assert hal.touchRequests == [SetModeRequest(touchOpenRc, true), SetModeRequest(touchOpenRc, false)];
    assert hal.touchRequests[0].arg == [10, 1] && hal.touchRequests[1].arg == [10, -1];
  }
}
