/** Percent-escaping for data URLs, and the decoder of section 2.1 of RFC 3986. */
module PercentEscape {
  import opened Sequences

  type Byte = x: int | 0 <= x < 256

  const PERCENT: Byte := 0x25

  predicate NeedsEscape(c: Byte) {
    || c == 0x22 || c == 0x23 || c == PERCENT || c == 0x3F || c == 0x0A || c == 0x0D
    || c < 0x20 || c >= 0x7F
  }

  function HexDigit(b: Byte): Byte
    requires b < 16
  {
    if b < 10 then 0x30 + b else 0x41 + (b - 10)
  }

  /** The escape of one byte. */
  function EscapeByte(c: Byte): seq<Byte> {
    if NeedsEscape(c) then [PERCENT, HexDigit(c / 16), HexDigit(c % 16)] else [c]
  }

  function Escape(s: seq<Byte>): seq<Byte> {
    if s == [] then [] else EscapeByte(s[0]) + Escape(s[1..])
  }

  lemma {:induction false} EscapeDistributes(a: seq<Byte>, b: seq<Byte>)
    ensures Escape(a + b) == Escape(a) + Escape(b)
  {
    var c := a + b;
    if a == [] {
      assert c == b;
    } else {
      EscapeDistributes(a[1..], b);
      assert c[0] == a[0] && c[1..] == a[1..] + b;
      Associative(EscapeByte(a[0]), Escape(a[1..]), Escape(b));
    }
  }

  lemma EscapeNext(s: seq<Byte>, i: nat)
    requires i < |s|
    ensures Escape(s[..i + 1]) == Escape(s[..i]) + EscapeByte(s[i])
  {
    assert s[..i + 1] == s[..i] + [s[i]];
    EscapeDistributes(s[..i], [s[i]]);
    assert Escape([s[i]]) == EscapeByte(s[i]) + Escape([]);
  }

  method EscapeForDataURL(s: seq<Byte>) returns (out: seq<Byte>)
    ensures out == Escape(s)
  {
    out := [];
    var i := 0;
    while i < |s|
      invariant 0 <= i <= |s|
      invariant out == Escape(s[..i])
    {
      var c := s[i];
      EscapeNext(s, i);
      if c == 0x22 || c == 0x23 || c == 0x25 || c == 0x3F || c == 0x0A || c == 0x0D {
        out := out + [PERCENT, HexDigit(c / 16), HexDigit(c % 16)];
      } else if c < 0x20 || c >= 0x7F {
        out := out + [PERCENT, HexDigit(c / 16), HexDigit(c % 16)];
      } else {
        out := out + [c];
      }
      i := i + 1;
    }
    assert s[..i] == s;
  }

  // --------------------------------------------------------------- decoding

  predicate IsHex(c: Byte) {
    0x30 <= c <= 0x39 || 0x41 <= c <= 0x46 || 0x61 <= c <= 0x66
  }

  function HexValue(c: Byte): (v: Byte)
    requires IsHex(c)
    ensures v < 16
  {
    if c <= 0x39 then c - 0x30 else if c <= 0x46 then c - 0x41 + 10 else c - 0x61 + 10
  }

  /** A percent sign and two hex digits stand for one octet; any other byte for itself. */
  function Decode(s: seq<Byte>): seq<Byte> {
    if s == [] then []
    else if s[0] == PERCENT && |s| >= 3 && IsHex(s[1]) && IsHex(s[2])
    then [16 * HexValue(s[1]) + HexValue(s[2])] + Decode(s[3..])
    else [s[0]] + Decode(s[1..])
  }

  lemma DecodeOneByte(c: Byte, rest: seq<Byte>)
    ensures Decode(EscapeByte(c) + rest) == [c] + Decode(rest)
  {
    var e := EscapeByte(c);
    if NeedsEscape(c) {
      assert (e + rest)[3..] == rest;
      assert HexValue(HexDigit(c / 16)) == c / 16 && HexValue(HexDigit(c % 16)) == c % 16;
    } else {
      assert (e + rest)[1..] == rest;
    }
  }

  /** Decoding undoes escaping, for every byte string. */
  lemma {:induction false} RoundTrip(s: seq<Byte>)
    ensures Decode(Escape(s)) == s
  {
    if s != [] {
      RoundTrip(s[1..]);
      DecodeOneByte(s[0], Escape(s[1..]));
    }
  }

  lemma EscapeIsInjective(a: seq<Byte>, b: seq<Byte>)
    requires Escape(a) == Escape(b)
    ensures a == b
  {
    RoundTrip(a);
    RoundTrip(b);
  }

  /** Printable ASCII that neither ends the URL's attribute nor its path. */
  predicate UrlSafe(c: Byte) {
    0x20 <= c <= 0x7E && c != 0x22 && c != 0x23 && c != 0x3F
  }

  /** Safe bytes only, and every percent sign starts an escape. */
  ghost predicate SafeAt(out: seq<Byte>, i: int) {
    0 <= i < |out| && UrlSafe(out[i]) &&
    (out[i] == PERCENT ==> i + 2 < |out| && IsUpperHex(out[i + 1]) && IsUpperHex(out[i + 2]))
  }

  predicate IsUpperHex(c: Byte) {
    0x30 <= c <= 0x39 || 0x41 <= c <= 0x46
  }

  /** Nothing is escaped that need not be: text of safe bytes without a percent sign stays as it is. */
  lemma {:induction false} PlainTextStays(s: seq<Byte>)
    requires forall i :: 0 <= i < |s| ==> UrlSafe(s[i]) && s[i] != 0x25
    ensures Escape(s) == s
  {
    if s != [] {
      PlainTextStays(s[1..]);
      assert s == [s[0]] + s[1..];
    }
  }

  lemma EscapeByteIsSafe(c: Byte, i: nat)
    requires i < |EscapeByte(c)|
    ensures SafeAt(EscapeByte(c), i)
  {
  }

  /** The output is safe throughout and grows at most threefold. */
  lemma {:induction false} EscapeIsSafe(s: seq<Byte>)
    ensures forall i :: 0 <= i < |Escape(s)| ==> SafeAt(Escape(s), i)
    ensures |s| <= |Escape(s)| <= 3 * |s|
  {
    if s != [] {
      EscapeIsSafe(s[1..]);
      var head, tail := EscapeByte(s[0]), Escape(s[1..]);
      forall i | 0 <= i < |Escape(s)| ensures SafeAt(Escape(s), i) {
        if i < |head| {
          EscapeByteIsSafe(s[0], i);
        } else {
          assert SafeAt(tail, i - |head|);
        }
      }
    }
  }
}
