/**
 * The hex decoder of cmd/main.go: `HexToAscii` strips blanks and then decodes
 * Base16 text (section 8 of RFC 4648) with Go's `hex.DecodeString`, which
 * accepts upper- and lower-case digits.
 */
module Hex {
  import opened Prelude

  // ---------------------------------------------------------------------------
  // Blank removal
  // ---------------------------------------------------------------------------

  /** The three bytes HexToAscii removes before decoding: space, line feed, carriage return. */
  predicate IsBlank(c: byte) {
    c == 0x20 || c == 0x0A || c == 0x0D
  }

  /** `strings.ReplaceAll(s, string(c), "")`: every occurrence of the byte `c` dropped, the rest kept in order. */
  function RemoveAll(s: seq<byte>, c: byte): (r: seq<byte>)
    ensures c !in r
    ensures |r| <= |s|
  {
    if s == [] then [] else (if s[0] == c then [] else [s[0]]) + RemoveAll(s[1..], c)
  }

  /** RemoveAll keeps every other byte: the result holds each byte other than c as often as the input does. */
  lemma {:induction false} RemoveAllKeepsTheRest(s: seq<byte>, c: byte)
    ensures forall x :: multiset(RemoveAll(s, c))[x] == if x == c then 0 else multiset(s)[x]
  {
    if s != [] {
      var t := s[1..];
      RemoveAllKeepsTheRest(t, c);
      assert s == [s[0]] + t;
      assert RemoveAll(s, c) == (if s[0] == c then [] else [s[0]]) + RemoveAll(t, c);
    }
  }

  /** The clean-up HexToAscii performs: spaces, then line feeds, then carriage returns removed. */
  function Clean(s: seq<byte>): (r: seq<byte>)
    ensures forall i :: 0 <= i < |r| ==> !IsBlank(r[i])
    ensures |r| <= |s|
  {
    var spaces := RemoveAll(s, 0x20);
    var lines := RemoveAll(spaces, 0x0A);
    RemoveAllKeepsTheRest(spaces, 0x0A);
    RemoveAllKeepsTheRest(lines, 0x0D);
    var r := RemoveAll(lines, 0x0D);
    forall i | 0 <= i < |r| ensures !IsBlank(r[i]) {
      var x := r[i];
      assert x in multiset(r);
      assert x != 0x0D && x in multiset(lines);
      assert x != 0x0A && x in multiset(spaces);
      assert x in spaces;
    }
    r
  }

  /** Reference definition of the clean-up: every blank removed in one left-to-right pass. */
  function Strip(s: seq<byte>): (r: seq<byte>)
    ensures forall i :: 0 <= i < |r| ==> !IsBlank(r[i])
    ensures (forall i :: 0 <= i < |s| ==> !IsBlank(s[i])) ==> r == s
  {
    if s == [] then [] else (if IsBlank(s[0]) then [] else [s[0]]) + Strip(s[1..])
  }

  /** Strip keeps every non-blank byte: the result holds each of them as often as the input does. */
  lemma {:induction false} StripKeepsTheRest(s: seq<byte>)
    ensures forall x :: multiset(Strip(s))[x] == if IsBlank(x) then 0 else multiset(s)[x]
  {
    if s != [] {
      var t := s[1..];
      StripKeepsTheRest(t);
      assert s == [s[0]] + t;
      assert Strip(s) == (if IsBlank(s[0]) then [] else [s[0]]) + Strip(t);
    }
  }

  lemma ConcatAssoc(x: seq<byte>, y: seq<byte>, z: seq<byte>)
    ensures x + (y + z) == (x + y) + z
  {
  }

  /** RemoveAll of a sequence with a known first byte. */
  lemma RemoveAllCons(x: byte, u: seq<byte>, c: byte)
    ensures RemoveAll([x] + u, c) == (if x == c then [] else [x]) + RemoveAll(u, c)
  {
    assert ([x] + u)[0] == x && ([x] + u)[1..] == u;
  }

  lemma {:induction false} RemoveAllAppend(a: seq<byte>, b: seq<byte>, c: byte)
    ensures RemoveAll(a + b, c) == RemoveAll(a, c) + RemoveAll(b, c)
  {
    if a == [] {
      assert a + b == b;
    } else {
      var x, t := a[0], a[1..];
      assert a == [x] + t && a + b == [x] + (t + b);
      RemoveAllCons(x, t + b, c);
      RemoveAllCons(x, t, c);
      RemoveAllAppend(t, b, c);
      ConcatAssoc(if x == c then [] else [x], RemoveAll(t, c), RemoveAll(b, c));
    }
  }

  /** The three successive replacements remove exactly the blanks, whatever their order in the text. */
  lemma {:induction false} CleanIsStrip(s: seq<byte>)
    ensures Clean(s) == Strip(s)
  {
    if s != [] {
      var x, t := s[0], s[1..];
      var sp := RemoveAll([x], 0x20);
      assert RemoveAll(s, 0x20) == sp + RemoveAll(t, 0x20);
      RemoveAllAppend(sp, RemoveAll(t, 0x20), 0x0A);
      var nl := RemoveAll(sp, 0x0A);
      RemoveAllAppend(nl, RemoveAll(RemoveAll(t, 0x20), 0x0A), 0x0D);
      CleanIsStrip(t);
      assert Clean(s) == RemoveAll(nl, 0x0D) + Clean(t);
    }
  }

  lemma {:induction false} StripAppend(a: seq<byte>, b: seq<byte>)
    ensures Strip(a + b) == Strip(a) + Strip(b)
  {
    if a == [] {
      assert a + b == b;
    } else {
      var x, t := a[0], a[1..];
      assert a + b == [x] + (t + b) && ([x] + (t + b))[1..] == t + b;
      StripAppend(t, b);
      ConcatAssoc(if IsBlank(x) then [] else [x], Strip(t), Strip(b));
    }
  }

  // ---------------------------------------------------------------------------
  // Hex digits and Go's hex.DecodeString
  // ---------------------------------------------------------------------------

  /** '0'-'9', 'a'-'f' or 'A'-'F'. */
  predicate IsHexDigit(c: byte) {
    0x30 <= c <= 0x39 || 0x61 <= c <= 0x66 || 0x41 <= c <= 0x46
  }

  predicate AllHex(s: seq<byte>) {
    forall i :: 0 <= i < |s| ==> IsHexDigit(s[i])
  }

  /** The value of one hex digit (Go's reverse hex table). */
  function Nibble(c: byte): (n: int)
    requires IsHexDigit(c)
    ensures 0 <= n < 16
  {
    if c <= 0x39 then c - 0x30
    else if c >= 0x61 then c - 0x61 + 10
    else c - 0x41 + 10
  }

  /** The errors of Go's encoding/hex package. */
  datatype HexError = InvalidByteError(b: byte) | ErrLength

  /**
   * Go's `hex.DecodeString`: digit pairs read left to right, high nibble first.
   * The first byte that is not a hex digit is reported; a text of hex digits
   * with an odd length is reported as ErrLength.
   */
  function DecodeString(s: seq<byte>): (r: Result<seq<byte>, HexError>)
    ensures r.Ok? <==> |s| % 2 == 0 && AllHex(s)
    ensures r.Ok? ==> |r.value| == |s| / 2
    ensures r == Err(ErrLength) <==> |s| % 2 == 1 && AllHex(s)
  {
    if |s| == 0 then Ok([])
    else if !IsHexDigit(s[0]) then Err(InvalidByteError(s[0]))
    else if |s| == 1 then Err(ErrLength)
    else if !IsHexDigit(s[1]) then Err(InvalidByteError(s[1]))
    else
      match DecodeString(s[2..])
      case Ok(rest) => Ok([16 * Nibble(s[0]) + Nibble(s[1])] + rest)
      case Err(e) => Err(e)
  }

  /** Byte i of a successful decoding is the digit pair at 2i and 2i+1, high nibble first. */
  lemma {:induction false} DecodedBytes(s: seq<byte>)
    requires DecodeString(s).Ok?
    ensures forall i :: 0 <= i < |DecodeString(s).value| ==>
      DecodeString(s).value[i] == 16 * Nibble(s[2 * i]) + Nibble(s[2 * i + 1])
  {
    if s != [] {
      var t := s[2..];
      DecodedBytes(t);
      var v, rest := DecodeString(s).value, DecodeString(t).value;
      assert v == [16 * Nibble(s[0]) + Nibble(s[1])] + rest;
      forall i | 1 <= i < |v| ensures v[i] == 16 * Nibble(s[2 * i]) + Nibble(s[2 * i + 1]) {
        assert v[i] == rest[i - 1];
        assert t[2 * (i - 1)] == s[2 * i] && t[2 * (i - 1) + 1] == s[2 * i + 1];
      }
    }
  }

  /** A text holding a non-digit is rejected, naming the leftmost non-digit. */
  lemma {:induction false} DecodeReportsFirstInvalid(s: seq<byte>)
    requires !AllHex(s)
    ensures exists k :: (0 <= k < |s| && AllHex(s[..k]) && !IsHexDigit(s[k]) &&
      DecodeString(s) == Err(InvalidByteError(s[k])))
  {
    if !IsHexDigit(s[0]) {
      assert AllHex(s[..0]);
    } else if |s| > 1 && !IsHexDigit(s[1]) {
      assert AllHex(s[..1]);
    } else {
      assert |s| > 2 && !AllHex(s[2..]) by {
        var j :| 0 <= j < |s| && !IsHexDigit(s[j]);
        assert j >= 2 && !IsHexDigit(s[2..][j - 2]);
      }
      DecodeReportsFirstInvalid(s[2..]);
      var k :| 0 <= k < |s| - 2 && AllHex(s[2..][..k]) && !IsHexDigit(s[2..][k]) &&
        DecodeString(s[2..]) == Err(InvalidByteError(s[2..][k]));
      assert AllHex(s[..k + 2]) by {
        forall i | 0 <= i < k + 2 ensures IsHexDigit(s[i]) {
          if i >= 2 { assert s[i] == s[2..][..k][i - 2]; }
        }
      }
      assert s[k + 2] == s[2..][k];
    }
  }

  // ---------------------------------------------------------------------------
  // HexToAscii
  // ---------------------------------------------------------------------------

  /**
   * HexToAscii: blanks removed, the rest decoded as hex. It succeeds exactly
   * when the stripped text is an even number of hex digits, and byte i is
   * then the digit pair at 2i, 2i+1 read high nibble first.
   */
  function HexToAscii(hexStr: seq<byte>): (r: Result<seq<byte>, HexError>)
    ensures r.Ok? <==> |Strip(hexStr)| % 2 == 0 && AllHex(Strip(hexStr))
    ensures r.Ok? ==> (2 * |r.value| == |Strip(hexStr)| &&
      forall i :: 0 <= i < |r.value| ==>
        r.value[i] == 16 * Nibble(Strip(hexStr)[2 * i]) + Nibble(Strip(hexStr)[2 * i + 1]))
    ensures r == Err(ErrLength) <==> |Strip(hexStr)| % 2 == 1 && AllHex(Strip(hexStr))
  {
    CleanIsStrip(hexStr);
    var r := DecodeString(Clean(hexStr));
    if r.Ok? then DecodedBytes(Clean(hexStr)); r else r
  }

  /** The outcome depends only on the non-blank bytes of the input. */
  lemma SameStripSameOutcome(s: seq<byte>, t: seq<byte>)
    requires Strip(s) == Strip(t)
    ensures HexToAscii(s) == HexToAscii(t)
  {
    CleanIsStrip(s);
    CleanIsStrip(t);
  }

  /** Inserting one space, line feed or carriage return anywhere does not change the outcome. */
  lemma BlankInsensitive(a: seq<byte>, c: byte, b: seq<byte>)
    requires IsBlank(c)
    ensures HexToAscii(a + [c] + b) == HexToAscii(a + b)
  {
    StripAppend(a + [c], b);
    StripAppend(a, [c]);
    StripAppend(a, b);
    assert Strip([c]) == [];
    SameStripSameOutcome(a + [c] + b, a + b);
  }

  // ---------------------------------------------------------------------------
  // Encoding and round trips
  // ---------------------------------------------------------------------------

  /** The digit of a nibble value, in lower or upper case. */
  function HexDigit(n: int, upper: bool): (c: byte)
    requires 0 <= n < 16
    ensures IsHexDigit(c) && Nibble(c) == n
  {
    if n < 10 then 0x30 + n else if upper then 0x41 + n - 10 else 0x61 + n - 10
  }

  /** Base16 encoding, two digits per byte, high nibble first. */
  function Encode(b: seq<byte>, upper: bool): (h: seq<byte>)
    ensures |h| == 2 * |b| && AllHex(h)
  {
    if b == [] then [] else [HexDigit(b[0] / 16, upper), HexDigit(b[0] % 16, upper)] + Encode(b[1..], upper)
  }

  /** Decoding a text that starts with two digits: their byte, then the decoding of the rest. */
  lemma DecodePair(s: seq<byte>, v: byte, rest: seq<byte>)
    requires |s| >= 2 && IsHexDigit(s[0]) && IsHexDigit(s[1]) && v == 16 * Nibble(s[0]) + Nibble(s[1])
    requires DecodeString(s[2..]) == Ok(rest)
    ensures DecodeString(s) == Ok([v] + rest)
  {
  }

  /** Decoding inverts encoding, in either letter case. */
  lemma {:induction false} DecodeEncode(b: seq<byte>, upper: bool)
    ensures DecodeString(Encode(b, upper)) == Ok(b)
  {
    if b != [] {
      var x := b[0];
      var h := Encode(b, upper);
      assert h[0] == HexDigit(x / 16, upper) && h[1] == HexDigit(x % 16, upper);
      assert h[2..] == Encode(b[1..], upper);
      DecodeEncode(b[1..], upper);
      DecodePair(h, x, b[1..]);
      assert [x] + b[1..] == b;
    }
  }

  /**
   * Round trip: any text whose non-blank bytes are the (lower- or upper-case)
   * encoding of b, with blanks interleaved anywhere, decodes to b.
   */
  lemma HexToAsciiRoundTrip(s: seq<byte>, b: seq<byte>, upper: bool)
    requires Strip(s) == Encode(b, upper)
    ensures HexToAscii(s) == Ok(b)
  {
    CleanIsStrip(s);
    DecodeEncode(b, upper);
  }

  /** ASCII lower-casing of one byte. */
  function ToLower(c: byte): (d: byte)
    ensures IsHexDigit(c) ==> IsHexDigit(d) && Nibble(d) == Nibble(c)
  {
    if 0x41 <= c <= 0x5A then c + 0x20 else c
  }

  function LowerAll(s: seq<byte>): (r: seq<byte>)
    ensures |r| == |s| && forall i :: 0 <= i < |s| ==> r[i] == ToLower(s[i])
  {
    if s == [] then [] else [ToLower(s[0])] + LowerAll(s[1..])
  }

  /** The lower-case digits of the byte a digit pair decodes to are the pair lower-cased. */
  lemma PairDigits(x: byte, y: byte)
    requires IsHexDigit(x) && IsHexDigit(y)
    ensures var v := 16 * Nibble(x) + Nibble(y);
      HexDigit(v / 16, false) == ToLower(x) && HexDigit(v % 16, false) == ToLower(y)
  {
    var v := 16 * Nibble(x) + Nibble(y);
    assert v / 16 == Nibble(x) && v % 16 == Nibble(y);
  }

  /** One step of a successful decoding: the first digit pair, then the rest decoded. */
  lemma DecodeStep(h: seq<byte>)
    requires h != [] && DecodeString(h).Ok?
    ensures |h| >= 2 && IsHexDigit(h[0]) && IsHexDigit(h[1]) && DecodeString(h[2..]).Ok?
    ensures DecodeString(h).value == [16 * Nibble(h[0]) + Nibble(h[1])] + DecodeString(h[2..]).value
  {
  }

  /** Lower-casing a text of at least two bytes: its first two bytes, then the rest. */
  lemma LowerAllPair(h: seq<byte>)
    requires |h| >= 2
    ensures LowerAll(h) == [ToLower(h[0]), ToLower(h[1])] + LowerAll(h[2..])
  {
    assert h[1..][0] == h[1] && h[1..][1..] == h[2..];
  }

  /** Encoding a non-empty sequence: the digits of its first byte, then the rest. */
  lemma EncodeFirst(b: seq<byte>, upper: bool)
    requires b != []
    ensures Encode(b, upper) == [HexDigit(b[0] / 16, upper), HexDigit(b[0] % 16, upper)] + Encode(b[1..], upper)
  {
  }

  lemma {:induction false} EncodeOfDecoded(h: seq<byte>, b: seq<byte>)
    requires DecodeString(h) == Ok(b)
    ensures Encode(b, false) == LowerAll(h)
  {
    if h != [] {
      DecodeStep(h);
      var rest := DecodeString(h[2..]).value;
      EncodeOfDecoded(h[2..], rest);
      PairDigits(h[0], h[1]);
      assert b[0] == 16 * Nibble(h[0]) + Nibble(h[1]) && b[1..] == rest;
      EncodeFirst(b, false);
      LowerAllPair(h);
    }
  }

  /**
   * The converse round trip: re-encoding a successful result in lower case
   * gives back the stripped input, up to letter case.
   */
  lemma ReencodeGivesStrippedInput(s: seq<byte>, b: seq<byte>)
    requires HexToAscii(s) == Ok(b)
    ensures Encode(b, false) == LowerAll(Strip(s))
  {
    CleanIsStrip(s);
    EncodeOfDecoded(Strip(s), b);
  }

  /** A complete encoding followed by one stray digit is rejected for its length, not for its bytes. */
  lemma TrailingDigitIsLengthError(s: seq<byte>, b: seq<byte>, upper: bool, d: byte)
    requires IsHexDigit(d) && Strip(s) == Encode(b, upper) + [d]
    ensures HexToAscii(s) == Err(ErrLength)
  {
    var e := Encode(b, upper);
    assert forall i :: 0 <= i < |e| ==> (e + [d])[i] == e[i];
    assert AllHex(e + [d]);
  }

  /** "48656c6c6f" decodes to "Hello". */
  lemma HelloExample(h: seq<byte>)
    requires h == [0x34, 0x38, 0x36, 0x35, 0x36, 0x63, 0x36, 0x63, 0x36, 0x66]
    ensures HexToAscii(h) == Ok([0x48, 0x65, 0x6c, 0x6c, 0x6f])
  {
    var b: seq<byte> := [0x48, 0x65, 0x6c, 0x6c, 0x6f];
    assert forall i :: 0 <= i < |h| ==> !IsBlank(h[i]);
    assert Encode(b, false) == h;
    HexToAsciiRoundTrip(h, b, false);
  }
}
