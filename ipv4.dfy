/**
 * The address check at the top of `WiFiELM327.connect` (src/lib/wifi-elm327.ts:36-39): the
 * anchored pattern `^(?:(?:25[0-5]|2[0-4][0-9]|[01]?[0-9][0-9]?)\.){3}(?:25[0-5]|2[0-4][0-9]|[01]?[0-9][0-9]?)$`.
 */
module Ipv4 {
  import opened Text

  /** One octet alternative of the pattern, spelled out alternative by alternative. */
  predicate OctetPattern(p: string) {
    || (|p| == 3 && p[0] == '2' && p[1] == '5' && '0' <= p[2] <= '5')
    || (|p| == 3 && p[0] == '2' && '0' <= p[1] <= '4' && IsDigit(p[2]))
    || (|p| == 1 && IsDigit(p[0]))
    || (|p| == 2 && IsDigit(p[0]) && IsDigit(p[1]))
    || (|p| == 3 && (p[0] == '0' || p[0] == '1') && IsDigit(p[1]) && IsDigit(p[2]))
  }

  /**
   * The whole anchored pattern. No octet alternative matches a dot, so a string matches exactly
   * when splitting it at its dots gives four pieces that each match an octet; read
   * independently of the alternatives, the four pieces are one to three digits of value at
   * most 255.
   */
  predicate IsValidIPv4(s: string): (ok: bool)
    ensures ok <==> var parts := Split(s, '.');
      |parts| == 4 && forall k :: 0 <= k < 4 ==> SmallDecimal(parts[k])
  {
    var parts := Split(s, '.');
    OctetsAreSmallDecimals(parts);
    |parts| == 4 && forall k :: 0 <= k < 4 ==> OctetPattern(parts[k])
  }

  /** Piece by piece, the octet pattern and the small-decimal reading agree. */
  lemma OctetsAreSmallDecimals(parts: seq<string>)
    ensures forall k :: 0 <= k < |parts| ==> (OctetPattern(parts[k]) <==> SmallDecimal(parts[k]))
  {
    forall k | 0 <= k < |parts|
      ensures OctetPattern(parts[k]) <==> SmallDecimal(parts[k])
    {
      OctetPatternIsSmallDecimal(parts[k]);
    }
  }

  /** Independent reading of an octet: one to three decimal digits whose value is at most 255. */
  predicate SmallDecimal(p: string) {
    1 <= |p| <= 3 && AllDigits(p) && DecimalValue(p) <= 255
  }

  /** `dec-octet` of section 3.2.2 of RFC 3986, which has no leading zeros. */
  predicate RfcDecOctet(p: string) {
    || (|p| == 1 && IsDigit(p[0]))
    || (|p| == 2 && '1' <= p[0] <= '9' && IsDigit(p[1]))
    || (|p| == 3 && p[0] == '1' && IsDigit(p[1]) && IsDigit(p[2]))
    || (|p| == 3 && p[0] == '2' && '0' <= p[1] <= '4' && IsDigit(p[2]))
    || (|p| == 3 && p[0] == '2' && p[1] == '5' && '0' <= p[2] <= '5')
  }

  lemma ThreeDigitValue(p: string)
    requires |p| == 3 && AllDigits(p)
    ensures DecimalValue(p) == 100 * DigitValue(p[0]) + 10 * DigitValue(p[1]) + DigitValue(p[2])
  {
    assert p[..2][..1] == p[..1];
    assert p[..1][..0] == [];
    assert DecimalValue(p[..1]) == DigitValue(p[0]);
    assert DecimalValue(p[..2]) == DigitValue(p[0]) * 10 + DigitValue(p[1]);
  }

  /** The octet pattern accepts exactly the strings of one to three digits with value at most 255. */
  lemma {:induction false} OctetPatternIsSmallDecimal(p: string)
    ensures OctetPattern(p) <==> SmallDecimal(p)
  {
    if |p| == 3 && AllDigits(p) {
      ThreeDigitValue(p);
    } else if |p| == 2 && AllDigits(p) {
      assert p[..1][..0] == [];
      assert DecimalValue(p[..1]) == DigitValue(p[0]);
      assert DecimalValue(p) == DigitValue(p[0]) * 10 + DigitValue(p[1]);
    } else if |p| == 1 && AllDigits(p) {
      assert p[..0] == [];
    }
  }

  /** Every RFC 3986 `dec-octet` is accepted, but so is "010", which the RFC grammar rejects. */
  lemma {:induction false} OctetPatternAdmitsLeadingZeros()
    ensures forall p :: RfcDecOctet(p) ==> OctetPattern(p)
    ensures OctetPattern("010") && !RfcDecOctet("010")
  {
  }

  /** Four octets joined by dots are accepted: the pattern's whole language passes the check. */
  lemma {:induction false} DottedQuadAccepted(parts: seq<string>)
    requires |parts| == 4 && forall k :: 0 <= k < 4 ==> OctetPattern(parts[k])
    ensures IsValidIPv4(Join(parts, '.'))
  {
    forall k | 0 <= k < 4 ensures '.' !in parts[k] {
      if '.' in parts[k] {
        var i :| 0 <= i < |parts[k]| && parts[k][i] == '.';
      }
    }
    SplitJoin(parts, '.');
  }

  /** An accepted string is four digit strings joined by dots, so it holds only digits and dots. */
  lemma {:induction false} AcceptedIsDottedQuad(s: string)
    requires IsValidIPv4(s)
    ensures Join(Split(s, '.'), '.') == s
    ensures DigitsAndDots(s)
  {
    JoinSplit(s, '.');
    var parts := Split(s, '.');
    forall k | 0 <= k < 4 ensures AllDigits(parts[k]) {
      OctetPatternIsSmallDecimal(parts[k]);
    }
    JoinOfDigitsHasDigitsAndDots(parts);
  }

  predicate DigitsAndDots(s: string) {
    forall i :: 0 <= i < |s| ==> IsDigit(s[i]) || s[i] == '.'
  }

  lemma {:induction false} JoinOfDigitsHasDigitsAndDots(parts: seq<string>)
    requires |parts| >= 1 && forall k :: 0 <= k < |parts| ==> AllDigits(parts[k])
    ensures DigitsAndDots(Join(parts, '.'))
    decreases |parts|
  {
    if |parts| > 1 {
      JoinOfDigitsHasDigitsAndDots(parts[1..]);
      var head, tail := parts[0], Join(parts[1..], '.');
      var s := head + ['.'] + tail;
      forall i | 0 <= i < |s| ensures IsDigit(s[i]) || s[i] == '.' {
        if i < |head| {
          assert s[i] == head[i];
          assert AllDigits(parts[0]);
        } else if i > |head| {
          var j := i - |head| - 1;
          assert s[i] == tail[j];
          assert DigitsAndDots(tail);
        }
      }
    }
  }
}
