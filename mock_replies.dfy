/**
 * The canned replies the web build of the WiFi transport feeds back to itself 300 ms after a
 * command (src/lib/wifi-elm327.ts:226-250). The random draws are parameters: `coolant` is
 * `Math.floor(Math.random() * 255)`, `rpm` is `Math.floor(1000 + Math.random() * 3000)` and
 * `voltageTenths` is `Math.floor(parseFloat(voltage) * 10)`.
 */
module MockReplies {
  import opened Text

  const Terminator: string := "\r\n>"

  /**
   * The hex field of a data reply: between the four-character header and the terminator sit
   * at least `width` hex digits whose value is `n`.
   */
  predicate CarriesHex(reply: string, header: string, width: nat, n: nat) {
    && |header| == 4 && |reply| >= 4 + width + |Terminator|
    && StartsWith(reply, header) && EndsWith(reply, Terminator)
    && AllHex(reply[4..|reply| - |Terminator|])
    && HexValue(reply[4..|reply| - |Terminator|]) == n
  }

  /** A header, a zero-padded hex field and the terminator carry the field's value. */
  lemma HexReplyFacts(header: string, n: nat, width: nat)
    requires |header| == 4
    ensures CarriesHex(header + PadStart(Hex(n), width, '0') + Terminator, header, width, n)
  {
    var h := PadStart(Hex(n), width, '0');
    var r := header + h + Terminator;
    HexValueZeroPadded(Hex(n), width);
    assert r[..4] == header;
    assert r[4..|r| - |Terminator|] == h;
    assert r[|r| - |Terminator|..] == Terminator;
  }

  /** Mode $01 PID $05 reply: "4105" and the raw byte as at least two lower-case hex digits. */
  function CoolantReply(coolant: nat): (reply: string)
    ensures CarriesHex(reply, "4105", 2, coolant)
  {
    HexReplyFacts("4105", coolant, 2);
    "4105" + PadStart(Hex(coolant), 2, '0') + Terminator
  }

  /** Mode $01 PID $0C reply: "410C" and four times the engine speed as at least four hex digits. */
  function RpmReply(rpm: nat): (reply: string)
    ensures CarriesHex(reply, "410C", 4, 4 * rpm)
  {
    HexReplyFacts("410C", rpm * 4, 4);
    "410C" + PadStart(Hex(rpm * 4), 4, '0') + Terminator
  }

  /** Mode $01 PID $42 reply: "4142" and the voltage in tenths as at least two hex digits. */
  function VoltageReply(voltageTenths: nat): (reply: string)
    ensures CarriesHex(reply, "4142", 2, voltageTenths)
  {
    HexReplyFacts("4142", voltageTenths, 2);
    "4142" + PadStart(Hex(voltageTenths), 2, '0') + Terminator
  }

  /** The reply chosen for a framed command; the first matching substring test wins. */
  function MockReply(command: string, coolant: nat, rpm: nat, voltageTenths: nat): (reply: string)
    ensures EndsWith(reply, Terminator)
    ensures Contains(reply, ">")
    ensures Contains(command, "ATZ") ==> reply == "ELM327 v1.5\r\n>"
    ensures !Contains(command, "ATZ") && !Contains(command, "AT") && !Contains(command, "0105") && Contains(command, "010C") ==> reply == RpmReply(rpm)
  {
    var r :=
      if Contains(command, "ATZ") then "ELM327 v1.5" + Terminator
      else if Contains(command, "AT") then "OK" + Terminator
      else if Contains(command, "0105") then CoolantReply(coolant)
      else if Contains(command, "010C") then RpmReply(rpm)
      else if Contains(command, "0142") then VoltageReply(voltageTenths)
      else if Contains(command, "03") then "NO DATA" + Terminator
      else "NO DATA" + Terminator;
    TerminatedEnds("ELM327 v1.5");
    TerminatedEnds("OK");
    TerminatedEnds("NO DATA");
    PromptAtEnd(r);
    r
  }

  /** A text followed by the terminator ends with it. */
  lemma TerminatedEnds(head: string)
    ensures EndsWith(head + Terminator, Terminator)
  {
    var r := head + Terminator;
    assert r[|r| - |Terminator|..] == Terminator;
  }

  /** A terminated reply holds the prompt. */
  lemma PromptAtEnd(r: string)
    requires EndsWith(r, Terminator)
    ensures Contains(r, ">")
  {
    assert r[|r| - 1..] == ">";
    ContainsAt(r, ">", |r| - 1);
  }

  /**
   * The RPM reply is the inverse of the SAE J1979 scaling RPM = (256 * A + B) / 4: for every
   * engine speed whose quadruple fits in two bytes, the reply is "410C", four hex digits whose
   * bytes A and B satisfy 256 * A + B == 4 * rpm, and the prompt terminator.
   */
  lemma {:induction false} RpmReplyInvertsScaling(rpm: nat)
    requires rpm * 4 < 65536
    ensures var r := RpmReply(rpm);
      && |r| == 11 && r[..4] == "410C" && r[8..] == Terminator
      && AllHex(r[4..6]) && AllHex(r[6..8])
      && 256 * HexValue(r[4..6]) + HexValue(r[6..8]) == 4 * rpm
  {
    var h := PadStart(Hex(rpm * 4), 4, '0');
    HexValueZeroPadded(Hex(rpm * 4), 4);
    FourHexDigits(h);
    var r := RpmReply(rpm);
    assert r == "410C" + h + Terminator;
    assert r[4..6] == h[..2] && r[6..8] == h[2..];
  }

  /** Four hexadecimal digits are two bytes, high byte first. */
  lemma FourHexDigits(h: string)
    requires |h| == 4 && AllHex(h)
    ensures AllHex(h[..2]) && AllHex(h[2..])
    ensures 256 * HexValue(h[..2]) + HexValue(h[2..]) == HexValue(h)
  {
    assert h == h[..2] + h[2..];
    HexValueConcat(h[..2], h[2..]);
    assert Pow16(2) == 256;
  }

  /** The coolant reply carries the raw byte A of SAE J1979 PID $05 (temperature A - 40 degrees C). */
  lemma {:induction false} CoolantReplyCarriesByte(coolant: nat)
    requires coolant < 256
    ensures var r := CoolantReply(coolant);
      && |r| == 9 && r[..4] == "4105" && r[6..] == Terminator
      && AllHex(r[4..6]) && HexValue(r[4..6]) == coolant
  {
    var h := PadStart(Hex(coolant), 2, '0');
    HexValueZeroPadded(Hex(coolant), 2);
    var r := CoolantReply(coolant);
    assert r[4..6] == h;
  }
}
