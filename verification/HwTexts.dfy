/** Hardware addresses as text. */
module HwTexts {
  import opened Text

  function HexDigit(d: int): char
    requires 0 <= d < 16
  {
    "0123456789abcdef"[d]
  }

  /** net.HardwareAddr.String. */
  function HwText(mac: seq<Byte>): string {
    if mac == [] then ""
    else
      var pair := [HexDigit(mac[0] / 16), HexDigit(mac[0] % 16)];
      if |mac| == 1 then pair else pair + ":" + HwText(mac[1..])
  }

  // ----- reading the text -----

  /** The value of a hexadecimal digit, in lower case as net prints it. */
  function HexValue(c: char): Option<int> {
    if '0' <= c <= '9' then Some(c as int - '0' as int)
    else if 'a' <= c <= 'f' then Some(c as int - 'a' as int + 10)
    else None
  }

  /** The byte two digits name, the high one first. */
  function HexByte(high: char, low: char): (b: Option<Byte>)
  {
    match (HexValue(high), HexValue(low))
    case (Some(h), Some(l)) => if 0 <= 16 * h + l < 256 then Some(16 * h + l) else None
    case _ => None
  }

  /** Bytes of two digits each with ':' between them. */
  function ReadHw(t: string): Option<seq<Byte>> {
    if |t| < 2 || HexByte(t[0], t[1]).None? then None
    else if |t| == 2 then Some([HexByte(t[0], t[1]).value])
    else if t[2] != ':' || ReadHw(t[3..]).None? then None
    else Some([HexByte(t[0], t[1]).value] + ReadHw(t[3..]).value)
  }

  lemma DigitValue(d: int)
    requires 0 <= d < 16
    ensures HexValue(HexDigit(d)) == Some(d)
  {
  }

  /** The text of an address, character by character. */
  lemma {:induction false} HwTextAt(mac: seq<Byte>, i: nat)
    requires i < |mac|
    ensures |HwText(mac)| == 3 * |mac| - 1
    ensures HexValue(HwText(mac)[3 * i]) == Some(mac[i] / 16)
    ensures HexValue(HwText(mac)[3 * i + 1]) == Some(mac[i] % 16)
    ensures i < |mac| - 1 ==> HwText(mac)[3 * i + 2] == ':'
  {
    DigitValue(mac[0] / 16);
    DigitValue(mac[0] % 16);
    hide HexDigit;
    if |mac| > 1 {
      var pair := [HexDigit(mac[0] / 16), HexDigit(mac[0] % 16)];
      var rest := mac[1..];
      HwTextAt(rest, if i > 0 then i - 1 else 0);
      assert HwText(mac) == pair + ":" + HwText(rest);
      if i > 0 {
        assert HwText(mac)[3 * i] == HwText(rest)[3 * (i - 1)];
        assert HwText(mac)[3 * i + 1] == HwText(rest)[3 * (i - 1) + 1];
        assert i < |mac| - 1 ==> HwText(mac)[3 * i + 2] == HwText(rest)[3 * (i - 1) + 2];
      }
    }
  }

  lemma ByteRead(b: Byte)
    ensures HexByte(HexDigit(b / 16), HexDigit(b % 16)) == Some(b)
  {
    DigitValue(b / 16);
    DigitValue(b % 16);
    hide HexDigit, HexValue;
    assert 16 * (b / 16) + b % 16 == b;
  }

  /** Reading the text of an address gives the address back. */
  lemma {:induction false} ReadHwText(mac: seq<Byte>)
    requires mac != []
    ensures ReadHw(HwText(mac)) == Some(mac)
  {
    var t, pair := HwText(mac), [HexDigit(mac[0] / 16), HexDigit(mac[0] % 16)];
    ByteRead(mac[0]);
    hide HexDigit, HexByte;
    assert mac == [mac[0]] + mac[1..];
    if |mac| == 1 {
      assert t == pair && mac == [mac[0]];
    } else {
      HwTextAt(mac[1..], 0);
      ReadHwText(mac[1..]);
      assert t == pair + ":" + HwText(mac[1..]);
      assert t[3..] == HwText(mac[1..]);
    }
  }
}
