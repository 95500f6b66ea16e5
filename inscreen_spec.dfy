/**
 * The state of the fingerprint-in-screen HAL object and the effect of each
 * of its stateful calls, as values: the registered listener, the finger
 * notifications delivered to listeners, and the touch-mode requests issued.
 * Each call is atomic (the object's lock serialises them), so a session is
 * a sequence of calls run one after the other.
 */
module InscreenSpec {

  import opened Wrappers
  import opened FodConstants
  import opened TouchMode

  /** Identity of a registered callback object. */
  type Listener = nat

  datatype Finger = FingerDown | FingerUp

  /** One notification invoked on `listener`; `ok` is the status the invocation returned. */
  datatype Delivery = Delivery(listener: Listener, finger: Finger, ok: bool)

  /** The vendor code that reports each finger event. */
  function VendorCodeOf(f: Finger): int32
  {
    match f
    case FingerDown => VendorFingerDown
    case FingerUp => VendorFingerUp
  }

  /**
   * The finger event an acquisition pair reports, if any: exactly the vendor
   * acquisition kind together with the vendor code of that event.
   */
  function Classify(acquiredInfo: int32, vendorCode: int32): (f: Option<Finger>)
    ensures f.Some? ==> acquiredInfo == FingerprintAcquiredVendor && vendorCode == VendorCodeOf(f.value)
    ensures forall g: Finger :: acquiredInfo == FingerprintAcquiredVendor && vendorCode == VendorCodeOf(g) ==> f == Some(g)
  {
    if acquiredInfo != FingerprintAcquiredVendor then None
    else if vendorCode == 22 then Some(FingerDown)
    else if vendorCode == 23 then Some(FingerUp)
    else None
  }

  datatype State = State(
    callback: Option<Listener>,
    deliveries: seq<Delivery>,
    touchFd: int32,
    touchRequests: seq<TouchRequest>)

  /** The stateful calls of the HAL interface. */
  datatype Call =
    | SetCallback(listener: Option<Listener>)
    | HandleAcquired(acquiredInfo: int32, vendorCode: int32, ok: bool)
    | HandleError(error: int32, vendorCode: int32)
    | OnShowFodView
    | OnHideFodView

  /** What a call returns: `Return<void>` or `Return<bool>`. */
  datatype Reply = Void | Bool(value: bool)

  predicate IsPrefix<T(==)>(a: seq<T>, b: seq<T>)
  {
    |a| <= |b| && b[..|a|] == a
  }

  /**
   * One call. Whatever it is, the touch descriptor stays, both logs only
   * grow and by at most one entry, a reply `true` comes only from a
   * delivery, and only `SetCallback` changes the listener.
   */
  function Step(s: State, c: Call): (r: (State, Reply))
    ensures r.0.touchFd == s.touchFd
    ensures IsPrefix(s.deliveries, r.0.deliveries) && |r.0.deliveries| <= |s.deliveries| + 1
    ensures IsPrefix(s.touchRequests, r.0.touchRequests) && |r.0.touchRequests| <= |s.touchRequests| + 1
    ensures |r.0.deliveries| == |s.deliveries| + 1 <==> r.1 == Bool(true)
    ensures !c.SetCallback? ==> r.0.callback == s.callback
  {
    match c
    case SetCallback(l) => (s.(callback := l), Void)
    case HandleAcquired(info, code, ok) =>
      if s.callback.None? then (s, Bool(false))
      else (match Classify(info, code)
        case None => (s, Bool(false))
        case Some(f) => (s.(deliveries := s.deliveries + [Delivery(s.callback.value, f, ok)]), Bool(true)))
    case HandleError(_, _) => (s, Bool(false))
    case OnShowFodView =>
      (s.(touchRequests := s.touchRequests + [SetModeRequest(s.touchFd, true)]), Void)
    case OnHideFodView =>
      (s.(touchRequests := s.touchRequests + [SetModeRequest(s.touchFd, false)]), Void)
  }

  /** A session: the calls run in order, with the reply of each. */
  function Run(s: State, calls: seq<Call>): (r: (State, seq<Reply>))
    ensures |r.1| == |calls|
    ensures r.0.touchFd == s.touchFd
    ensures IsPrefix(s.deliveries, r.0.deliveries)
    ensures IsPrefix(s.touchRequests, r.0.touchRequests)
    decreases calls
  {
    if calls == [] then (s, [])
    else
      var (s1, reply) := Step(s, calls[0]);
      var (s2, replies) := Run(s1, calls[1..]);
      (s2, [reply] + replies)
  }

  /** Number of `true` replies. */
  function CountTrue(replies: seq<Reply>): nat
  {
    if replies == [] then 0
    else (if replies[0] == Bool(true) then 1 else 0) + CountTrue(replies[1..])
  }

  /** The touch requests that the show/hide calls among `calls` issue on `fd`. */
  function TouchRequestsOf(fd: int32, calls: seq<Call>): seq<TouchRequest>
  {
    if calls == [] then []
    else
      (match calls[0]
       case OnShowFodView => [SetModeRequest(fd, true)]
       case OnHideFodView => [SetModeRequest(fd, false)]
       case _ => []) + TouchRequestsOf(fd, calls[1..])
  }

  predicate NoRegistration(calls: seq<Call>)
  {
    forall k :: 0 <= k < |calls| ==> !(calls[k].SetCallback? && calls[k].listener.Some?)
  }

  /** Running two sessions back to back is running their concatenation. */
  lemma {:induction false} RunAppend(s: State, a: seq<Call>, b: seq<Call>)
    ensures Run(s, a + b) == (Run(Run(s, a).0, b).0, Run(s, a).1 + Run(Run(s, a).0, b).1)
    decreases a
  {
    if a == [] {
      assert a + b == b;
      assert Run(s, a) == (s, []);
      assert [] + Run(s, b).1 == Run(s, b).1;
    } else {
      var (s1, reply) := Step(s, a[0]);
      assert (a + b)[0] == a[0];
      assert (a + b)[1..] == a[1..] + b;
      RunAppend(s1, a[1..], b);
      var mid := Run(s1, a[1..]);
      assert [reply] + (mid.1 + Run(mid.0, b).1) == ([reply] + mid.1) + Run(mid.0, b).1;
    }
  }

  /** Every reply `true` is matched by exactly one notification delivered, and the other way round. */
  lemma {:induction false} DeliveriesMatchTrueReplies(s: State, calls: seq<Call>)
    ensures |Run(s, calls).0.deliveries| == |s.deliveries| + CountTrue(Run(s, calls).1)
    decreases calls
  {
    if calls != [] {
      DeliveriesMatchTrueReplies(Step(s, calls[0]).0, calls[1..]);
    }
  }

  /**
   * While no listener is registered and no call registers one, nothing is
   * delivered, every `handleAcquired` and `handleError` answers false, and
   * the listener stays absent.
   */
  lemma {:induction false} SilentWithoutListener(s: State, calls: seq<Call>)
    requires s.callback.None? && NoRegistration(calls)
    ensures Run(s, calls).0.deliveries == s.deliveries
    ensures Run(s, calls).0.callback.None?
    ensures forall k :: 0 <= k < |calls| ==> Run(s, calls).1[k] != Bool(true)
    decreases calls
  {
    if calls != [] {
      var s1 := Step(s, calls[0]).0;
      assert NoRegistration(calls[1..]) by {
        forall k | 0 <= k < |calls[1..]| ensures !(calls[1..][k].SetCallback? && calls[1..][k].listener.Some?) {
          assert calls[1..][k] == calls[k + 1];
        }
      }
      SilentWithoutListener(s1, calls[1..]);
      var replies := Run(s, calls).1;
      forall k | 0 <= k < |calls| ensures replies[k] != Bool(true) {
        if k > 0 {
          assert replies[k] == Run(s1, calls[1..]).1[k - 1];
        }
      }
    }
  }

  /**
   * Registering a listener and then clearing it leaves every later
   * acquisition unanswered, until another listener is registered.
   */
  lemma ClearedListenerSilences(s: State, l: Listener, calls: seq<Call>)
    requires NoRegistration(calls)
    ensures var r := Run(s, [SetCallback(Some(l)), SetCallback(None)] + calls);
      r.0.deliveries == s.deliveries &&
      forall k :: 2 <= k < |r.1| ==> r.1[k] != Bool(true)
  {
    var pre := [SetCallback(Some(l)), SetCallback(None)];
    RunAppend(s, pre, calls);
    var s1 := s.(callback := Some(l));
    var s2 := s.(callback := None);
    assert pre[1..] == [SetCallback(None)] && pre[1..][1..] == [];
    assert Run(s2, []).0 == s2;
    assert Run(s1, pre[1..]).0 == s2;
    assert Run(s, pre).0 == s2;
    SilentWithoutListener(s2, calls);
  }

  /**
   * Without a registration in between, the listener stays the same and
   * every notification delivered goes to it.
   */
  lemma {:induction false} DeliveriesGoToRegistered(s: State, calls: seq<Call>)
    requires forall k :: 0 <= k < |calls| ==> !calls[k].SetCallback?
    ensures Run(s, calls).0.callback == s.callback
    ensures forall k :: |s.deliveries| <= k < |Run(s, calls).0.deliveries| ==>
      Some(Run(s, calls).0.deliveries[k].listener) == s.callback
    decreases calls
  {
    if calls != [] {
      var s1 := Step(s, calls[0]).0;
      assert forall k :: 0 <= k < |calls[1..]| ==> !calls[1..][k].SetCallback? by {
        forall k | 0 <= k < |calls[1..]| ensures !calls[1..][k].SetCallback? {
          assert calls[1..][k] == calls[k + 1];
        }
      }
      DeliveriesGoToRegistered(s1, calls[1..]);
    }
  }

  /**
   * The touch requests of a session are exactly those of its show and hide
   * calls, in order, on the descriptor opened at construction: the listener
   * and the acquisition calls play no part.
   */
  lemma {:induction false} TouchRequestsOfSession(s: State, calls: seq<Call>)
    ensures Run(s, calls).0.touchRequests == s.touchRequests + TouchRequestsOf(s.touchFd, calls)
    decreases calls
  {
    if calls != [] {
      TouchRequestsOfSession(Step(s, calls[0]).0, calls[1..]);
    }
  }

  /** A delivery's status never changes a reply: a failed invocation still answers true. */
  lemma ReplyIgnoresDeliveryStatus(s: State, acquiredInfo: int32, vendorCode: int32)
    ensures Step(s, HandleAcquired(acquiredInfo, vendorCode, true)).1
         == Step(s, HandleAcquired(acquiredInfo, vendorCode, false)).1
  {
  }
}
