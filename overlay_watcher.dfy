/**
 * The background watcher: it blocks on the `fod_ui` attribute and, on every
 * wake, tells the vendor fingerprint service whether to light the sensor
 * area. One wake is `WatcherStep`; the loop over the wakes seen so far is
 * `WatchFodUi`, and `WatcherCommands` is what it sends.
 */
module OverlayWatcher {

  import opened Wrappers
  import opened FodConstants
  import opened OverlayStatus

  /**
   * One return from the blocking poll: its return code and, for the
   * rewind-and-read that follows it, the results `ReadBool` decodes.
   */
  datatype Wake = Wake(pollRc: int32, seekRc: int32, readRc: int32, c: Byte)

  /** A vendor `extCmd(cmd, param)` call. */
  datatype ExtCmd = ExtCmd(cmd: int32, param: int32)

  /** The illumination parameter for an overlay state. */
  function NitParam(shown: bool): (p: int32)
    ensures p == ParamNitFod || p == ParamNitNone
    ensures p == ParamNitFod <==> shown
  {
    if shown then ParamNitFod else ParamNitNone
  }

  /** Whether the service lights the sensor area for a parameter (`PARAM_NIT_FOD`). */
  function LightsSensor(p: int32): bool
  {
    p == ParamNitFod
  }

  /** The command that a wake whose read decoded as `shown` sends. */
  function CommandFor(shown: bool): (e: ExtCmd)
    ensures e.cmd == CommandNit && e.param == NitParam(shown)
    ensures LightsSensor(e.param) == shown
  {
    ExtCmd(CommandNit, NitParam(shown))
  }

  /** One loop iteration: a failed poll sends nothing, any other wake sends one command. */
  function WatcherStep(w: Wake): (r: Option<ExtCmd>)
    ensures r.None? <==> w.pollRc < 0
    ensures r.Some? ==> r.value.cmd == CommandNit
    ensures r.Some? ==> r.value.param == (if ReadBool(w.seekRc, w.readRc, w.c) then ParamNitFod else ParamNitNone)
    ensures r.Some? ==> (LightsSensor(r.value.param) <==> ReadBool(w.seekRc, w.readRc, w.c))
  {
    if w.pollRc < 0 then None
    else Some(CommandFor(ReadBool(w.seekRc, w.readRc, w.c)))
  }

  function StepCommands(w: Wake): seq<ExtCmd>
  {
    match WatcherStep(w)
    case None => []
    case Some(e) => [e]
  }

  /** Everything the loop sends over a run of wakes, in order. */
  function WatcherCommands(wakes: seq<Wake>): (cmds: seq<ExtCmd>)
    ensures |cmds| <= |wakes|
  {
    if wakes == [] then [] else StepCommands(wakes[0]) + WatcherCommands(wakes[1..])
  }

  /** The wakes on which the poll succeeded. */
  function Successful(wakes: seq<Wake>): (s: seq<Wake>)
    ensures |s| <= |wakes|
    ensures forall k :: 0 <= k < |s| ==> s[k].pollRc >= 0
    ensures forall k :: 0 <= k < |wakes| && wakes[k].pollRc >= 0 ==> wakes[k] in s
    ensures forall w :: w in s ==> w in wakes
  {
    if wakes == [] then []
    else (if wakes[0].pollRc >= 0 then [wakes[0]] else []) + Successful(wakes[1..])
  }

  /** The successful wakes of consecutive runs are concatenated, in order. */
  lemma {:induction false} SuccessfulAppend(a: seq<Wake>, b: seq<Wake>)
    ensures Successful(a + b) == Successful(a) + Successful(b)
  {
    if a == [] {
      assert a + b == b;
    } else {
      assert (a + b)[0] == a[0];
      assert (a + b)[1..] == a[1..] + b;
      SuccessfulAppend(a[1..], b);
    }
  }

  /** The commands of consecutive runs of wakes are concatenated. */
  lemma {:induction false} WatcherCommandsAppend(a: seq<Wake>, b: seq<Wake>)
    ensures WatcherCommands(a + b) == WatcherCommands(a) + WatcherCommands(b)
  {
    if a == [] {
      assert a + b == b;
    } else {
      assert (a + b)[1..] == a[1..] + b;
      WatcherCommandsAppend(a[1..], b);
    }
  }

  /**
   * Exactly one command per successful wake, the k-th one carrying what the
   * k-th successful wake read: a map over the successful wakes, never
   * comparing a wake with the one before it.
   */
  lemma {:induction false} OneCommandPerSuccessfulWake(wakes: seq<Wake>)
    ensures |WatcherCommands(wakes)| == |Successful(wakes)|
    ensures forall k :: 0 <= k < |Successful(wakes)| ==>
      var w := Successful(wakes)[k];
      WatcherCommands(wakes)[k] == CommandFor(ReadBool(w.seekRc, w.readRc, w.c))
  {
    if wakes != [] {
      OneCommandPerSuccessfulWake(wakes[1..]);
    }
  }

  /** Two equal successful wakes in a row send the same command twice. */
  lemma NoDeduplication(before: seq<Wake>, w: Wake)
    requires w.pollRc >= 0
    ensures var e := CommandFor(ReadBool(w.seekRc, w.readRc, w.c));
      WatcherCommands(before + [w, w]) == WatcherCommands(before) + [e, e]
  {
    WatcherCommandsAppend(before, [w, w]);
    assert [w, w][1..] == [w];
  }

  /**
   * The watcher thread over the first `|wakes|` returns of its poll.
   * `openRc` is what opening the attribute returned: when it failed the
   * thread ends at once and sends nothing. Returns the commands sent to the
   * vendor service, in order.
   */
  method WatchFodUi(openRc: int32, wakes: seq<Wake>) returns (sent: seq<ExtCmd>)
    ensures openRc < 0 ==> sent == []
    ensures openRc >= 0 ==> sent == WatcherCommands(wakes)
  {
    sent := [];
    if openRc < 0 {
      return;
    }
    var i := 0;
    while i < |wakes|
      invariant 0 <= i <= |wakes|
      invariant sent == WatcherCommands(wakes[..i])
    {
      var w := wakes[i];
      WatcherCommandsAppend(wakes[..i], [w]);
      assert wakes[..i + 1] == wakes[..i] + [w];
      if w.pollRc >= 0 {
        var shown := ReadBool(w.seekRc, w.readRc, w.c);
        sent := sent + [ExtCmd(CommandNit, if shown then ParamNitFod else ParamNitNone)];
      }
      i := i + 1;
    }
    assert wakes[..|wakes|] == wakes;
  }
}
