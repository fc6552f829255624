/** The textual side of a hardware (MAC) address: the separators the wake
    sender strips, and hexadecimal decoding with the error behaviour of Go's
    `encoding/hex` package, together with an encoder used as its inverse. */
module Hex {
  import opened Results

  /** One octet. */
  type Byte = b: int | 0 <= b < 256

  /** Why a string is not valid hexadecimal. Go's decoder reports a bad
      character even when the length is odd as well. */
  datatype HexError = InvalidByte | OddLength

  predicate IsHexDigit(c: char) {
    ('0' <= c <= '9') || ('a' <= c <= 'f') || ('A' <= c <= 'F')
  }

  predicate AllHex(s: string) {
    forall i :: 0 <= i < |s| ==> IsHexDigit(s[i])
  }

  function HexValue(c: char): (v: nat)
    requires IsHexDigit(c)
    ensures v < 16
  {
    if '0' <= c <= '9' then c as int - '0' as int
    else if 'a' <= c <= 'f' then c as int - 'a' as int + 10
    else c as int - 'A' as int + 10
  }

  /** The lower-case digit for a nibble, as `hex.EncodeToString` writes it. */
  function HexDigit(v: nat): (c: char)
    requires v < 16
    ensures IsHexDigit(c) && HexValue(c) == v
  {
    if v < 10 then ('0' as int + v) as char else ('a' as int + v - 10) as char
  }

  /** `strings.ReplaceAll(s, c, "")` for a one-character pattern: every
      occurrence of `c` is gone and every other character keeps its count. */
  function RemoveAll(s: string, c: char): (r: string)
    ensures c !in r
    ensures forall x :: x != c ==> multiset(r)[x] == multiset(s)[x]
    ensures c !in s ==> r == s
  {
    if s == [] then []
    else
      assert s == [s[0]] + s[1..];
      (if s[0] == c then [] else [s[0]]) + RemoveAll(s[1..], c)
  }

  /** Removal keeps the order of what is left: it distributes over `+`. */
  lemma {:induction false} RemoveAllConcat(a: string, b: string, c: char)
    ensures RemoveAll(a + b, c) == RemoveAll(a, c) + RemoveAll(b, c)
  {
    if a == [] {
      assert a + b == b;
    } else {
      assert (a + b)[1..] == a[1..] + b;
      RemoveAllConcat(a[1..], b, c);
    }
  }

  /** The separators stripped from a MAC before decoding: every `:`, then every `-`. */
  function StripSeparators(mac: string): (r: string)
    ensures ':' !in r && '-' !in r
    ensures forall x :: x != ':' && x != '-' ==> multiset(r)[x] == multiset(mac)[x]
  {
    var r := RemoveAll(RemoveAll(mac, ':'), '-');
    assert multiset(r)[':'] == 0;
    r
  }

  lemma StripSeparatorsIdempotent(mac: string)
    ensures StripSeparators(StripSeparators(mac)) == StripSeparators(mac)
  {
  }

  lemma StripSeparatorsConcat(a: string, b: string)
    ensures StripSeparators(a + b) == StripSeparators(a) + StripSeparators(b)
  {
    RemoveAllConcat(a, b, ':');
    RemoveAllConcat(RemoveAll(a, ':'), RemoveAll(b, ':'), '-');
  }

  /** `hex.DecodeString`: pairs of digits become bytes, high nibble first.
      Any non-digit character is reported as `InvalidByte`, also when the
      length is odd; an odd-length string of digits is `OddLength`. */
  function HexDecode(s: string): (r: Result<seq<Byte>, HexError>)
    ensures r.Ok? <==> |s| % 2 == 0 && AllHex(s)
    ensures r == Err(OddLength) <==> |s| % 2 == 1 && AllHex(s)
    ensures r == Err(InvalidByte) <==> !AllHex(s)
    ensures r.Ok? ==> |r.value| == |s| / 2
  {
    if |s| == 0 then Ok([])
    else if |s| == 1 then (if IsHexDigit(s[0]) then Err(OddLength) else Err(InvalidByte))
    else if !IsHexDigit(s[0]) || !IsHexDigit(s[1]) then Err(InvalidByte)
    else
      assert AllHex(s) <==> AllHex(s[2..]) by {
        if AllHex(s[2..]) {
          forall i | 2 <= i < |s| ensures IsHexDigit(s[i]) { assert s[i] == s[2..][i - 2]; }
        }
      }
      match HexDecode(s[2..])
      case Err(e) => Err(e)
      case Ok(rest) => Ok([16 * HexValue(s[0]) + HexValue(s[1])] + rest)
  }

  /** Byte `k` of a decoded string is the value of digits `2k` and `2k+1`. */
  lemma {:induction false} HexDecodeAt(s: string, k: nat)
    requires HexDecode(s).Ok? && k < |s| / 2
    ensures HexDecode(s).value[k] == 16 * HexValue(s[2 * k]) + HexValue(s[2 * k + 1])
  {
    if k > 0 {
      HexDecodeAt(s[2..], k - 1);
      assert s[2 * k] == s[2..][2 * (k - 1)];
      assert s[2 * k + 1] == s[2..][2 * (k - 1) + 1];
    }
  }

  /** `hex.EncodeToString`: two lower-case digits per byte. */
  function HexEncode(bytes: seq<Byte>): (r: string)
    ensures |r| == 2 * |bytes| && AllHex(r)
  {
    if bytes == [] then ""
    else [HexDigit(bytes[0] / 16), HexDigit(bytes[0] % 16)] + HexEncode(bytes[1..])
  }

  lemma {:induction false} HexRoundTrip(bytes: seq<Byte>)
    ensures HexDecode(HexEncode(bytes)) == Ok(bytes)
  {
    if bytes != [] {
      HexRoundTrip(bytes[1..]);
      var s := HexEncode(bytes);
      assert s[2..] == HexEncode(bytes[1..]);
      assert HexValue(s[0]) == bytes[0] / 16 && HexValue(s[1]) == bytes[0] % 16;
      assert HexDecode(s) == Ok([16 * HexValue(s[0]) + HexValue(s[1])] + bytes[1..]);
      assert [bytes[0]] + bytes[1..] == bytes;
    }
  }

  /** A hardware address in the usual colon-separated form, `aa:bb:cc:dd:ee:ff`. */
  function FormatMac(hw: seq<Byte>): string
  {
    if |hw| <= 1 then HexEncode(hw)
    else HexEncode(hw[..1]) + ":" + FormatMac(hw[1..])
  }

  /** Hex text has no separators to strip. */
  lemma StripHexText(s: string)
    requires AllHex(s)
    ensures StripSeparators(s) == s
  {
    assert ':' !in s && '-' !in s by {
      assert !IsHexDigit(':') && !IsHexDigit('-');
    }
  }

  lemma {:induction false} StripFormatMac(hw: seq<Byte>)
    ensures StripSeparators(FormatMac(hw)) == HexEncode(hw)
  {
    if |hw| > 1 {
      var head := HexEncode(hw[..1]);
      var rest := FormatMac(hw[1..]);
      assert FormatMac(hw) == head + ":" + rest;
      StripFormatMac(hw[1..]);
      StripHexText(head);
      StripSeparatorsConcat(head + ":", rest);
      StripSeparatorsConcat(head, ":");
      assert StripSeparators(":") == "";
      assert head == [HexDigit(hw[0] / 16), HexDigit(hw[0] % 16)] + HexEncode([]);
      assert HexEncode(hw) == head + HexEncode(hw[1..]);
    } else {
      StripHexText(HexEncode(hw));
    }
  }

  /** Decoding a formatted address after stripping its separators gives the address back. */
  lemma MacRoundTrip(hw: seq<Byte>)
    ensures HexDecode(StripSeparators(FormatMac(hw))) == Ok(hw)
  {
    StripFormatMac(hw);
    HexRoundTrip(hw);
  }
}
