/**
 * `base64.StdEncoding.EncodeToString`: the standard Base64 alphabet with '='
 * padding (section 4 of RFC 4648), used for the second cell of every row
 * the program appends to the spreadsheet.
 */
module Base64 {
  import opened Prelude

  /** The characters of the standard alphabet: A-Z, a-z, 0-9, '+' and '/'. */
  predicate IsAlphabetChar(c: char) {
    'A' <= c <= 'Z' || 'a' <= c <= 'z' || '0' <= c <= '9' || c == '+' || c == '/'
  }

  /** The character of a six-bit value, as the table in section 4 of RFC 4648 lists it. */
  function Alphabet(v: int): (c: char)
    requires 0 <= v < 64
    ensures IsAlphabetChar(c)
  {
    if v < 26 then ('A' as int + v) as char
    else if v < 52 then ('a' as int + v - 26) as char
    else if v < 62 then ('0' as int + v - 52) as char
    else if v == 62 then '+'
    else '/'
  }

  /** The number of '=' bytes that pad an encoding of n bytes. */
  function Padding(n: nat): nat {
    if n % 3 == 0 then 0 else 3 - n % 3
  }

  /** The top six bits of a byte. */
  function High6(x: byte): (v: int)
    ensures 0 <= v < 64
  {
    x / 4
  }

  /** The low two bits of x followed by the top four bits of y. */
  function Low2High4(x: byte, y: byte): (v: int)
    ensures 0 <= v < 64
  {
    (x % 4) * 16 + y / 16
  }

  /** The low four bits of y followed by the top two bits of z. */
  function Low4High2(y: byte, z: byte): (v: int)
    ensures 0 <= v < 64
  {
    (y % 16) * 4 + z / 64
  }

  /** The low six bits of a byte. */
  function Low6(z: byte): (v: int)
    ensures 0 <= v < 64
  {
    z % 64
  }

  /** r is alphabet characters followed by exactly pad '=' characters. */
  predicate WellPadded(r: string, pad: int) {
    forall i :: 0 <= i < |r| ==> if i < |r| - pad then IsAlphabetChar(r[i]) else r[i] == '='
  }

  /** A full quantum followed by a well-padded encoding is well padded. */
  lemma WellPaddedConcat(q: string, rest: string, pad: int)
    requires WellPadded(q, 0) && WellPadded(rest, pad) && 0 <= pad <= |rest|
    ensures WellPadded(q + rest, pad)
  {
    forall i | 0 <= i < |q + rest|
      ensures if i < |q + rest| - pad then IsAlphabetChar((q + rest)[i]) else (q + rest)[i] == '='
    {
      if i < |q| {
        assert (q + rest)[i] == q[i];
      } else {
        assert (q + rest)[i] == rest[i - |q|];
      }
    }
  }

  /**
   * One group of one to three bytes as four characters: the 24 bits of the
   * group (zero-filled) cut into six-bit values, a missing byte's characters
   * replaced by '='.
   */
  function Quantum(g: seq<byte>): (q: string)
    requires 1 <= |g| <= 3
    ensures |q| == 4 && WellPadded(q, Padding(|g|))
  {
    if |g| == 1 then
      [Alphabet(High6(g[0])), Alphabet(Low2High4(g[0], 0)), '=', '=']
    else if |g| == 2 then
      [Alphabet(High6(g[0])), Alphabet(Low2High4(g[0], g[1])), Alphabet(Low4High2(g[1], 0)), '=']
    else
      [Alphabet(High6(g[0])), Alphabet(Low2High4(g[0], g[1])), Alphabet(Low4High2(g[1], g[2])), Alphabet(Low6(g[2]))]
  }

  /**
   * Each group of three bytes becomes four alphabet characters; a final group
   * of one or two bytes is padded with '=' to four characters.
   */
  function EncodeToString(b: seq<byte>): (r: string)
    ensures |r| == 4 * ((|b| + 2) / 3)
    ensures WellPadded(r, Padding(|b|))
  {
    if |b| == 0 then ""
    else if |b| <= 3 then Quantum(b)
    else
      var q, rest := Quantum(b[..3]), EncodeToString(b[3..]);
      assert (|b| - 1) / 3 + 1 == (|b| + 2) / 3;
      assert Padding(|b| - 3) == Padding(|b|);
      WellPaddedConcat(q, rest, Padding(|b|));
      q + rest
  }

  /** "Hello" encodes as "SGVsbG8=". */
  lemma HelloExample(b: seq<byte>)
    requires b == [0x48, 0x65, 0x6c, 0x6c, 0x6f]
    ensures EncodeToString(b) == "SGVsbG8="
  {
    assert b[..3] == [0x48, 0x65, 0x6c] && b[3..] == [0x6c, 0x6f];
    assert Quantum(b[..3]) == [Alphabet(18), Alphabet(6), Alphabet(21), Alphabet(44)];
    assert Quantum(b[3..]) == [Alphabet(27), Alphabet(6), Alphabet(60), '='];
    assert Alphabet(18) == 'S' && Alphabet(6) == 'G' && Alphabet(21) == 'V' && Alphabet(44) == 's';
    assert Alphabet(27) == 'b' && Alphabet(60) == '8';
  }
}
