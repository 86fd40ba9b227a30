/** Device identity: the device serial and the client id derived from it
    (`generate_device_serial`, `generate_client_id`). */
module ClientIdentity {
  import opened Wrappers

  type Byte = b: int | 0 <= b < 256

  /** The device type the launcher registers as. */
  const DeviceType: string := "A2UMVHOX7UP4V7"

  /** What `generate_client_id` appends to the serial before encoding it. */
  const ClientIdSuffix: string := "#" + DeviceType

  predicate IsAscii(s: string)
  {
    forall i :: 0 <= i < |s| ==> s[i] as int < 128
  }

  /** `str.encode("ascii")` on a string that encodes without error. */
  function AsciiBytes(s: string): (b: seq<Byte>)
    requires IsAscii(s)
    ensures |b| == |s|
    ensures forall i :: 0 <= i < |s| ==> b[i] == s[i] as int
  {
    seq(|s|, i requires 0 <= i < |s| => s[i] as int)
  }

  /** `bytes.decode("ascii")`: None when some byte is not ASCII. */
  function AsciiDecode(b: seq<Byte>): (r: Option<string>)
  {
    if forall i :: 0 <= i < |b| ==> b[i] < 128
    then Some(seq(|b|, i requires 0 <= i < |b| => b[i] as char))
    else None
  }

  lemma AsciiRoundTrip(s: string)
    requires IsAscii(s)
    ensures AsciiDecode(AsciiBytes(s)) == Some(s)
  {
    var b := AsciiBytes(s);
    assert forall i :: 0 <= i < |b| ==> b[i] < 128;
    var t := seq(|b|, i requires 0 <= i < |b| => b[i] as char);
    assert forall i :: 0 <= i < |s| ==> t[i] == s[i];
    assert t == s;
  }

  /** Lower-case hexadecimal digit of a nibble, as `bytes.hex()` writes it. */
  function HexDigit(n: int): (c: char)
    requires 0 <= n < 16
  {
    if n < 10 then ('0' as int + n) as char else ('a' as int + n - 10) as char
  }

  predicate IsLowerHexDigit(c: char)
  {
    '0' <= c <= '9' || 'a' <= c <= 'f'
  }

  /** Value of a hexadecimal digit in either case, as `bytes.fromhex` reads it. */
  function HexValue(c: char): (r: Option<int>)
    ensures r.Some? ==> 0 <= r.value < 16
  {
    if '0' <= c <= '9' then Some(c as int - '0' as int)
    else if 'a' <= c <= 'f' then Some(c as int - 'a' as int + 10)
    else if 'A' <= c <= 'F' then Some(c as int - 'A' as int + 10)
    else None
  }

  /** `bytes.hex()`: two lower-case digits per byte, high nibble first. */
  function HexEncode(b: seq<Byte>): (s: string)
    ensures |s| == 2 * |b|
    ensures forall i :: 0 <= i < |s| ==> IsLowerHexDigit(s[i])
  {
    if b == [] then [] else [HexDigit(b[0] / 16), HexDigit(b[0] % 16)] + HexEncode(b[1..])
  }

  /** `bytes.fromhex` on text without whitespace: None on an odd length or a non-digit. */
  function HexDecode(s: string): (r: Option<seq<Byte>>)
    ensures r.Some? ==> 2 * |r.value| == |s|
  {
    if |s| == 0 then Some([])
    else if |s| == 1 then None
    else
      match (HexValue(s[0]), HexValue(s[1]), HexDecode(s[2..]))
      case (Some(hi), Some(lo), Some(rest)) => Some([hi * 16 + lo] + rest)
      case _ => None
  }

  lemma {:induction false} HexRoundTrip(b: seq<Byte>)
    ensures HexDecode(HexEncode(b)) == Some(b)
  {
    if b != [] {
      var s := HexEncode(b);
      HexRoundTrip(b[1..]);
      assert s[2..] == HexEncode(b[1..]);
      assert HexValue(s[0]) == Some(b[0] / 16);
      assert HexValue(s[1]) == Some(b[0] % 16);
      assert [b[0]] + b[1..] == b;
    }
  }

  /** `generate_client_id`: the hex encoding of the ASCII bytes of the serial followed by
      `#A2UMVHOX7UP4V7`. Encoding raises on a non-ASCII serial, hence the precondition. */
  function ClientId(serial: string): (id: string)
    requires IsAscii(serial)
    ensures |id| == 2 * (|serial| + 15)
    ensures forall i :: 0 <= i < |id| ==> IsLowerHexDigit(id[i])
  {
    HexEncode(AsciiBytes(serial + ClientIdSuffix))
  }

  /** Reading a client id back: hex-decode, then ASCII-decode. */
  function DecodeClientId(id: string): (r: Option<string>)
  {
    match HexDecode(id)
    case Some(b) => AsciiDecode(b)
    case None => None
  }

  /** Hex-decoding a client id gives back the serial followed by the suffix. */
  lemma ClientIdRoundTrip(serial: string)
    requires IsAscii(serial)
    ensures HexDecode(ClientId(serial)) == Some(AsciiBytes(serial + ClientIdSuffix))
    ensures DecodeClientId(ClientId(serial)) == Some(serial + ClientIdSuffix)
  {
    HexRoundTrip(AsciiBytes(serial + ClientIdSuffix));
    AsciiRoundTrip(serial + ClientIdSuffix);
  }

  /** Distinct serials never share a client id. */
  lemma ClientIdInjective(s: string, t: string)
    requires IsAscii(s) && IsAscii(t)
    requires ClientId(s) == ClientId(t)
    ensures s == t
  {
    ClientIdRoundTrip(s);
    ClientIdRoundTrip(t);
    assert s + ClientIdSuffix == t + ClientIdSuffix;
    assert s == (s + ClientIdSuffix)[..|s|];
    assert t == (t + ClientIdSuffix)[..|t|];
  }

  /** What `generate_device_serial` yields: a 128-bit UUID as 32 upper-case hex digits. */
  predicate IsDeviceSerial(s: string)
  {
    |s| == 32 && forall i :: 0 <= i < |s| ==> '0' <= s[i] <= '9' || 'A' <= s[i] <= 'F'
  }

  /** A device serial always encodes, and its client id is 94 digits long. */
  lemma DeviceSerialClientId(s: string)
    requires IsDeviceSerial(s)
    ensures IsAscii(s)
    ensures |ClientId(s)| == 94
  {
  }
}
