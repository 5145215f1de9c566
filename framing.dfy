/**
 * Outbound command framing shared by the WiFi transport (src/lib/wifi-elm327.ts) and the
 * BLE transport (src/lib/bluetooth-le.ts): a carriage return is appended unless the command
 * already ends with one.
 */
module Framing {
  import opened Text

  /** The wire text for `command`. */
  function Frame(command: string): (wire: string)
    ensures |command| <= |wire| <= |command| + 1
  {
    if EndsWith(command, "\r") then command else command + "\r"
  }

  /**
   * The wire text always ends in a carriage return, and it is the command itself exactly when
   * the command already ends in one; otherwise it is the command with one appended.
   */
  lemma FrameFacts(command: string)
    ensures EndsWith(Frame(command), "\r")
    ensures Frame(command) == command || Frame(command) == command + "\r"
    ensures Frame(command) == command <==> EndsWith(command, "\r")
  {
    if !EndsWith(command, "\r") {
      var w := command + "\r";
      assert w[|w| - 1..] == "\r";
    }
  }

  /** Framing an already framed command changes nothing, and framing never loses the command text. */
  lemma {:induction false} FrameIdempotent(command: string)
    ensures Frame(Frame(command)) == Frame(command)
    ensures StartsWith(Frame(command), command)
  {
  }
}
