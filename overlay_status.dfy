/**
 * Decoding of the display driver's `fod_ui` attribute: whether the
 * fingerprint overlay is currently on screen.
 */
module OverlayStatus {

  import opened FodConstants

  type Byte = bv8

  /** ASCII '0', the one byte that reads as "overlay hidden". */
  const AsciiZero: Byte := 0x30
  const AsciiOne: Byte := 0x31
  const AsciiNewline: Byte := 0x0A

  /**
   * readBool: `seekRc` is what rewinding the file returned, `readRc` what the
   * one-byte read returned, `c` the byte buffer afterwards (meaningful only
   * when one byte was read). A failed rewind or a short read reads as "hidden".
   */
  function ReadBool(seekRc: int32, readRc: int32, c: Byte): (shown: bool)
    ensures seekRc != 0 ==> !shown
    ensures readRc != 1 ==> !shown
    ensures seekRc == 0 && readRc == 1 ==> (shown <==> c != AsciiZero)
  {
    if seekRc != 0 then false
    else if readRc != 1 then false
    else c != AsciiZero
  }

  /** What the attribute's text says: present and its first character is not '0'. */
  function ShowsOverlay(content: seq<Byte>): bool
  {
    |content| > 0 && content[0] != AsciiZero
  }

  /** The results of rewinding and reading one byte of a readable file. */
  datatype ReadOutcome = ReadOutcome(seekRc: int32, readRc: int32, c: Byte)

  /**
   * Rewinding a readable file holding `content` succeeds; the read then
   * delivers its first byte, or nothing (count 0) when the file is empty, in
   * which case the buffer keeps whatever `stale` byte it held.
   */
  function ReadAfterRewind(content: seq<Byte>, stale: Byte): (o: ReadOutcome)
    ensures o.seekRc == 0
    ensures ReadBool(o.seekRc, o.readRc, o.c) == ShowsOverlay(content)
  {
    if |content| == 0 then ReadOutcome(0, 0, stale)
    else ReadOutcome(0, 1, content[0])
  }

  /** Example: the texts "1\n" and "0\n" and an empty file decode as expected, whatever was in the buffer. */
  lemma ExampleTexts(stale: Byte)
    ensures var o := ReadAfterRewind([AsciiOne, AsciiNewline], stale); ReadBool(o.seekRc, o.readRc, o.c)
    ensures var o := ReadAfterRewind([AsciiZero, AsciiNewline], stale); !ReadBool(o.seekRc, o.readRc, o.c)
    ensures var o := ReadAfterRewind([], stale); !ReadBool(o.seekRc, o.readRc, o.c)
  {
  }
}
