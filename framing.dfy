/**
 * The wire framing: every message travels as a six-character hexadecimal
 * length header followed by that many bytes of encoded body.
 */
module Framing {
  import opened Values
  import opened Utils

  newtype byte = b: int | 0 <= b < 256

  /** The width of the length header. */
  const HeaderSize := 6

  /* ---------------------------------------------------------------------
   * Writing a header: `padRight(len.toString(16), "0", 6)`
   * ------------------------------------------------------------------- */

  /** The lower-case hexadecimal digit of `d`. */
  function HexDigit(d: nat): (c: char)
    requires d < 16
    ensures c as int < 128
  {
    "0123456789abcdef"[d]
  }

  /** A lower-case hexadecimal digit character. */
  predicate IsHexChar(c: char) {
    '0' <= c <= '9' || 'a' <= c <= 'f'
  }

  /** `n.toString(16)`. */
  function HexText(n: nat): (t: string)
    ensures |t| > 0
    ensures forall i :: 0 <= i < |t| ==> IsHexChar(t[i])
    decreases n
  {
    if n < 16 then [HexDigit(n)] else HexText(n / 16) + [HexDigit(n % 16)]
  }

  /** The bytes of an ASCII string (what a UTF-8 encoder produces for it). */
  function Ascii(s: string): (bs: seq<byte>)
    requires forall i :: 0 <= i < |s| ==> s[i] as int < 128
    ensures |bs| == |s| && forall i :: 0 <= i < |s| ==> bs[i] as int == s[i] as int
  {
    if s == [] then [] else [s[0] as int as byte] + Ascii(s[1..])
  }

  /** The header announcing a body of `n` bytes. */
  function HeaderText(n: nat): (t: string)
    ensures |t| >= HeaderSize
    ensures forall i :: 0 <= i < |t| ==> IsHexChar(t[i])
  {
    var hex := HexText(n);
    var t := PadRight(hex, "0", HeaderSize);
    var k := |t| - |hex|;
    assert forall i :: 0 <= i < |t| ==> IsHexChar(t[i]) by {
      forall i | 0 <= i < |t| ensures IsHexChar(t[i]) {
        if i < k {
          assert t[i] == "0"[i % 1];
        } else {
          assert t[k..][i - k] == hex[i - k];
        }
      }
    }
    t
  }

  function Header(n: nat): (h: seq<byte>)
    ensures |h| == |HeaderText(n)|
  {
    var t := HeaderText(n);
    assert forall i :: 0 <= i < |t| ==> t[i] as int < 128;
    Ascii(t)
  }

  /** A framed message: the header, then the body. */
  function Frame(body: seq<byte>): (f: seq<byte>)
    ensures |f| == |Header(|body|)| + |body|
    ensures f[..|Header(|body|)|] == Header(|body|) && f[|Header(|body|)|..] == body
  {
    Header(|body|) + body
  }

  /* ---------------------------------------------------------------------
   * Reading a header: `parseInt(buf.subarray(0, 6).toString(), 16)`
   * ------------------------------------------------------------------- */

  /** The value of a hexadecimal digit byte (either case), if it is one. */
  function DigitValue(b: byte): Option<nat>
  {
    if '0' as byte <= b <= '9' as byte then Some((b - '0' as byte) as nat)
    else if 'a' as byte <= b <= 'f' as byte then Some((b - 'a' as byte) as nat + 10)
    else if 'A' as byte <= b <= 'F' as byte then Some((b - 'A' as byte) as nat + 10)
    else None
  }

  predicate IsHexDigit(b: byte) {
    DigitValue(b).Some?
  }

  /** The white space `parseInt` skips (the ASCII part of it). */
  predicate IsSpace(b: byte) {
    b == 32 || 9 <= b <= 13
  }

  /** The first position from `i` on that is not white space. */
  function SkipSpace(h: seq<byte>, i: nat): (j: nat)
    requires i <= |h|
    ensures i <= j <= |h|
    ensures forall k :: i <= k < j ==> IsSpace(h[k])
    ensures j < |h| ==> !IsSpace(h[j])
    decreases |h| - i
  {
    if i < |h| && IsSpace(h[i]) then SkipSpace(h, i + 1) else i
  }

  /** The length of the run of hexadecimal digits that starts at `i`. */
  function DigitRun(h: seq<byte>, i: nat): (n: nat)
    requires i <= |h|
    ensures i + n <= |h|
    ensures forall k :: i <= k < i + n ==> IsHexDigit(h[k])
    ensures i + n < |h| ==> !IsHexDigit(h[i + n])
    decreases |h| - i
  {
    if i < |h| && IsHexDigit(h[i]) then 1 + DigitRun(h, i + 1) else 0
  }

  /** The number a run of hexadecimal digits spells. */
  function HexValue(ds: seq<byte>): nat
    requires forall k :: 0 <= k < |ds| ==> IsHexDigit(ds[k])
  {
    if ds == [] then 0
    else
      var last := ds[|ds| - 1];
      assert IsHexDigit(last);
      HexValue(ds[..|ds| - 1]) * 16 + DigitValue(last).value
  }

  /** After the white space and an optional sign, a "0x" or "0X" prefix is
      skipped when it is there. */
  function SkipHexPrefix(h: seq<byte>, i: nat): (j: nat)
    requires i <= |h|
    ensures j == i || j == i + 2
    ensures j <= |h|
  {
    if i + 2 <= |h| && h[i] == '0' as byte && (h[i + 1] == 'x' as byte || h[i + 1] == 'X' as byte)
    then i + 2 else i
  }

  /** The position after the white space and an optional sign. */
  function SignEnd(h: seq<byte>): (s: nat)
    ensures s <= |h|
  {
    var i := SkipSpace(h, 0);
    if i < |h| && (h[i] == '-' as byte || h[i] == '+' as byte) then i + 1 else i
  }

  /** Whether the sign after the white space is a minus. */
  predicate Negative(h: seq<byte>)
  {
    var i := SkipSpace(h, 0);
    i < |h| && h[i] == '-' as byte
  }

  /** Where the digits start: after the sign and an optional "0x". */
  function DigitsStart(h: seq<byte>): (d: nat)
    ensures d <= |h|
  {
    SkipHexPrefix(h, SignEnd(h))
  }

  /** `parseInt(text, 16)`: white space, an optional sign, an optional
      "0x", then the longest run of hexadecimal digits; no digit at all is
      NaN (`None`). */
  function ParseHeader(h: seq<byte>): (r: Option<int>)
    ensures r.None? <==> DigitRun(h, DigitsStart(h)) == 0
    ensures r.Some? ==>
      var d := DigitsStart(h);
      r.value == (if Negative(h) then -1 else 1) * HexValue(h[d..d + DigitRun(h, d)])
  {
    var d := DigitsStart(h);
    var n := DigitRun(h, d);
    if n == 0 then None
    else
      var v: int := HexValue(h[d..d + n]);
      Some(if Negative(h) then -v else v)
  }

  /* ---------------------------------------------------------------------
   * Lemmas
   * ------------------------------------------------------------------- */

  /** The byte of a hexadecimal digit character reads back as that digit. */
  lemma HexCharDigit(c: char)
    requires IsHexChar(c)
    ensures IsHexDigit(c as int as byte)
  {
  }

  lemma DigitRoundTrip(d: nat)
    requires d < 16
    ensures DigitValue(HexDigit(d) as int as byte) == Some(d)
  {
  }

  lemma AsciiDigits(s: string)
    requires forall k :: 0 <= k < |s| ==> IsHexChar(s[k])
    ensures forall k :: 0 <= k < |s| ==> s[k] as int < 128
    ensures forall k :: 0 <= k < |s| ==> IsHexDigit(Ascii(s)[k])
  {
    forall k | 0 <= k < |s| ensures IsHexDigit(Ascii(s)[k]) {
      HexCharDigit(s[k]);
    }
  }

  lemma {:induction false} HexTextValue(n: nat)
    ensures forall k :: 0 <= k < |HexText(n)| ==> IsHexDigit(Ascii(HexText(n))[k])
    ensures HexValue(Ascii(HexText(n))) == n
    decreases n
  {
    var t := HexText(n);
    AsciiDigits(t);
    DigitRoundTrip(n % 16);
    if n >= 16 {
      HexTextValue(n / 16);
      var front := HexText(n / 16);
      AsciiDigits(front);
      AsciiSnoc(t, front, HexDigit(n % 16));
    }
  }

  /** The bytes of `front + [d]` are those of `front` then the byte of `d`. */
  lemma AsciiSnoc(t: string, front: string, d: char)
    requires t == front + [d]
    requires forall i :: 0 <= i < |t| ==> t[i] as int < 128
    ensures forall i :: 0 <= i < |front| ==> front[i] as int < 128
    ensures Ascii(t)[..|front|] == Ascii(front)
    ensures Ascii(t)[|front|] as int == d as int
  {
    assert forall i :: 0 <= i < |front| ==> front[i] == t[i];
  }

  /** Zeros in front do not change the value of a digit run. */
  lemma {:induction false} LeadingZeros(ds: seq<byte>, k: nat)
    requires forall i :: 0 <= i < |ds| ==> IsHexDigit(ds[i])
    requires k <= |ds| && forall i :: 0 <= i < k ==> ds[i] == '0' as byte
    ensures HexValue(ds) == HexValue(ds[k..])
    decreases |ds|
  {
    if |ds| > k {
      var last := |ds| - 1;
      LeadingZeros(ds[..last], k);
      assert ds[..last][k..] == ds[k..][..|ds[k..]| - 1];
    } else {
      assert forall m :: 0 <= m <= |ds| ==> HexValue(ds[..m]) == 0 by {
        forall m | 0 <= m <= |ds| ensures HexValue(ds[..m]) == 0 {
          ZeroPrefix(ds, m);
        }
      }
      assert ds[..|ds|] == ds;
    }
  }

  lemma {:induction false} ZeroPrefix(ds: seq<byte>, m: nat)
    requires m <= |ds| && forall i :: 0 <= i < |ds| ==> ds[i] == '0' as byte
    ensures HexValue(ds[..m]) == 0
  {
    if m > 0 {
      ZeroPrefix(ds, m - 1);
      assert ds[..m][..m - 1] == ds[..m - 1];
    }
  }

  /** A header is zeros followed by the digits of the length. */
  lemma HeaderDigits(n: nat)
    ensures |Header(n)| >= |HexText(n)|
    ensures forall k :: 0 <= k < |Header(n)| ==> IsHexDigit(Header(n)[k])
    ensures forall k :: 0 <= k < |Header(n)| - |HexText(n)| ==> Header(n)[k] == '0' as byte
    ensures Header(n)[|Header(n)| - |HexText(n)|..] == Ascii(HexText(n))
  {
    var hex := HexText(n);
    var t := HeaderText(n);
    var h := Header(n);
    AsciiDigits(t);
    AsciiDigits(hex);
    assert t == PadRight(hex, "0", HeaderSize);
    var k := |t| - |hex|;
    forall i | 0 <= i < k ensures h[i] == '0' as byte {
      assert t[i] == "0"[i % 1];
    }
    assert t[k..] == hex;
    forall i | k <= i < |h| ensures h[i] == Ascii(hex)[i - k] {
      assert t[i] == hex[i - k];
    }
  }

  /** A run of at least two digits that does not start "0x" reads as its
      value. */
  lemma ParseDigits(h: seq<byte>)
    requires |h| >= 2 && forall k :: 0 <= k < |h| ==> IsHexDigit(h[k])
    ensures ParseHeader(h) == Some(HexValue(h))
  {
    assert !IsSpace(h[0]);
    assert SkipSpace(h, 0) == 0;
    assert IsHexDigit(h[1]);
    assert SkipHexPrefix(h, 0) == 0;
    AllDigitsRun(h, 0);
    assert h[0..|h|] == h;
  }

  /** A header of the widths the protocol allows reads back as the length
      it announces. */
  lemma HeaderRoundTrip(n: nat)
    requires n < 0x100_0000
    ensures |Header(n)| == HeaderSize
    ensures ParseHeader(Header(n)) == Some(n)
  {
    var h, hex := Header(n), HexText(n);
    var k := |h| - |hex|;
    HeaderWidth(n);
    HeaderDigits(n);
    HexTextValue(n);
    ParseDigits(h);
    LeadingZeros(h, k);
    assert h[k..] == Ascii(hex);
    assert HexValue(h[k..]) == n;
  }

  lemma {:induction false} AllDigitsRun(h: seq<byte>, i: nat)
    requires i <= |h| && forall k :: 0 <= k < |h| ==> IsHexDigit(h[k])
    ensures DigitRun(h, i) == |h| - i
    decreases |h| - i
  {
    if i < |h| {
      AllDigitsRun(h, i + 1);
    }
  }

  /** The header is exactly six characters wide if and only if the length
      fits in six hexadecimal digits; longer bodies get a wider header. */
  lemma HeaderWidth(n: nat)
    ensures |Header(n)| == HeaderSize <==> n < 0x100_0000
  {
    HexTextWidth(n);
  }

  lemma {:induction false} HexTextWidth(n: nat)
    ensures n < 0x100_0000 <==> |HexText(n)| <= 6
    ensures n < 0x10_0000 <==> |HexText(n)| <= 5
    ensures n < 0x1_0000 <==> |HexText(n)| <= 4
    ensures n < 0x1000 <==> |HexText(n)| <= 3
    ensures n < 0x100 <==> |HexText(n)| <= 2
    ensures n < 0x10 <==> |HexText(n)| <= 1
    decreases n
  {
    if n >= 16 {
      HexTextWidth(n / 16);
    }
  }
}
