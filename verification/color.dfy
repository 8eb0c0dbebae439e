/** The `Color` value object: range-checked construction with rounding,
    the RGB triple view, and the `#rrggbb` rendering together with the
    decoder that inverts it. */
module Colors {
  import opened Wrappers

  // ---------------------------------------------------------------------
  // Rounding and range checking of the constructor inputs
  // ---------------------------------------------------------------------

  /** `Math.round`: the nearest integer, halves rounded towards +infinity. */
  function Round(x: real): (n: int)
    ensures n as real - 0.5 <= x < n as real + 0.5
  {
    (x + 0.5).Floor
  }

  /** An input channel the constructor accepts (checked before rounding). */
  predicate InRange(x: real)
  {
    0.0 <= x <= 255.0
  }

  /** A stored channel: an integer intensity in [0, 255]. */
  predicate IsChannel(n: int)
  {
    0 <= n <= 255
  }

  /** Rounding is unique: the only integer within half a unit below and
      strictly less than half a unit above `x` is `Round(x)`. */
  lemma RoundUnique(x: real, n: int)
    requires n as real - 0.5 <= x < n as real + 0.5
    ensures Round(x) == n
  {
  }

  // ---------------------------------------------------------------------
  // The value object
  // ---------------------------------------------------------------------

  datatype ColorError = RangeError(message: string)

  const RangeMessage: string := "RGB values must be in the range 0-255"

  /** The three stored channels. A `Color` built by `NewColor` is `Valid`. */
  datatype Color = Color(r: int, g: int, b: int) {

    predicate Valid()
    {
      IsChannel(r) && IsChannel(g) && IsChannel(b)
    }

    /** `rgb()`: the ordered channel triple. */
    function Rgb(): (t: seq<int>)
      ensures |t| == 3 && t[0] == r && t[1] == g && t[2] == b
      ensures Valid() ==> forall i :: 0 <= i < 3 ==> IsChannel(t[i])
    {
      [r, g, b]
    }

    /** `hex()`: `#` followed by two zero-padded lowercase hex digits per
        channel, red first. */
    function Hex(): (s: string)
      requires Valid()
      ensures |s| == 7 && s[0] == '#'
      ensures IsByteHex(s[1..3]) && IsByteHex(s[3..5]) && IsByteHex(s[5..7])
      ensures ByteValue(s[1..3]) == r && ByteValue(s[3..5]) == g && ByteValue(s[5..7]) == b
    {
      var hr, hg, hb := ByteHex(r), ByteHex(g), ByteHex(b);
      var s := "#" + hr + hg + hb;
      assert s[1..3] == hr && s[3..5] == hg && s[5..7] == hb;
      s
    }
  }

  /** The constructor: throws a range error when any input lies outside
      [0, 255], and otherwise stores each input rounded. */
  function NewColor(r: real, g: real, b: real): (res: Result<Color, ColorError>)
    ensures res.Failure? <==> !(InRange(r) && InRange(g) && InRange(b))
    ensures res.Failure? ==> res.error == RangeError(RangeMessage)
    ensures res.Success? ==> res.value.Valid()
    ensures res.Success? ==>
              res.value.r as real - 0.5 <= r < res.value.r as real + 0.5 &&
              res.value.g as real - 0.5 <= g < res.value.g as real + 0.5 &&
              res.value.b as real - 0.5 <= b < res.value.b as real + 0.5
  {
    if r < 0.0 || 255.0 < r || g < 0.0 || 255.0 < g || b < 0.0 || 255.0 < b then
      Failure(RangeError(RangeMessage))
    else
      Success(Color(Round(r), Round(g), Round(b)))
  }

  /** Every combination of the inclusive bounds 0 and 255 is accepted. */
  lemma BoundsAccepted(r: real, g: real, b: real)
    requires r == 0.0 || r == 255.0
    requires g == 0.0 || g == 255.0
    requires b == 0.0 || b == 255.0
    ensures NewColor(r, g, b).Success?
    ensures NewColor(r, g, b).value.Rgb() == [r.Floor, g.Floor, b.Floor]
  {
  }

  /** The range check looks at the raw input: a value that would round into
      [0, 255] is still rejected when it lies just outside. */
  lemma CheckPrecedesRounding()
    ensures IsChannel(Round(255.4)) && NewColor(255.4, 0.0, 0.0).Failure?
    ensures IsChannel(Round(-0.3)) && NewColor(0.0, -0.3, 0.0).Failure?
    ensures NewColor(0.0, 0.0, 255.49) == Failure(RangeError(RangeMessage))
  {
    assert Round(255.4) == 255 by { RoundUnique(255.4, 255); }
    assert Round(-0.3) == 0 by { RoundUnique(-0.3, 0); }
  }

  /** `rgb()` of a constructed colour is the rounded inputs, in order. */
  lemma RgbOfNewColor(r: real, g: real, b: real)
    requires InRange(r) && InRange(g) && InRange(b)
    ensures NewColor(r, g, b).Success?
    ensures NewColor(r, g, b).value.Rgb() == [Round(r), Round(g), Round(b)]
    ensures forall i :: 0 <= i < 3 ==> IsChannel(NewColor(r, g, b).value.Rgb()[i])
  {
  }

  /** Rebuilding a colour from its own `rgb()` gives the same colour. */
  lemma RgbRoundTrip(c: Color)
    requires c.Valid()
    ensures NewColor(c.Rgb()[0] as real, c.Rgb()[1] as real, c.Rgb()[2] as real) == Success(c)
  {
    RoundUnique(c.r as real, c.r);
    RoundUnique(c.g as real, c.g);
    RoundUnique(c.b as real, c.b);
  }

  // ---------------------------------------------------------------------
  // Lowercase hexadecimal digits
  // ---------------------------------------------------------------------

  predicate IsLowerHexDigit(ch: char)
  {
    ('0' <= ch <= '9') || ('a' <= ch <= 'f')
  }

  predicate AllLowerHex(s: string)
  {
    forall i :: 0 <= i < |s| ==> IsLowerHexDigit(s[i])
  }

  /** The digit `toString(16)` writes for `d`. */
  function HexDigit(d: int): (ch: char)
    requires 0 <= d < 16
    ensures IsLowerHexDigit(ch)
  {
    if d < 10 then ('0' as int + d) as char else ('a' as int + d - 10) as char
  }

  /** The value of one lowercase hex digit. */
  function DigitValue(ch: char): (d: int)
    requires IsLowerHexDigit(ch)
    ensures 0 <= d < 16
  {
    if ch <= '9' then ch as int - '0' as int else ch as int - 'a' as int + 10
  }

  lemma DigitRoundTrip(d: int, ch: char)
    requires 0 <= d < 16 && IsLowerHexDigit(ch)
    ensures DigitValue(HexDigit(d)) == d
    ensures HexDigit(DigitValue(ch)) == ch
  {
  }

  /** The number a string of lowercase hex digits denotes, most significant
      digit first. */
  function HexValue(s: string): nat
    requires AllLowerHex(s)
  {
    if s == [] then 0 else HexValue(s[..|s| - 1]) * 16 + DigitValue(s[|s| - 1])
  }

  /** A leading zero digit does not change the value: the padding step of
      `ByteHex` rests on it. */
  lemma {:induction false} LeadingZero(s: string)
    requires AllLowerHex(s)
    ensures AllLowerHex(['0'] + s) && HexValue(['0'] + s) == HexValue(s)
  {
    if s != [] {
      var init := s[..|s| - 1];
      assert (['0'] + s)[..|s|] == ['0'] + init;
      LeadingZero(init);
    }
  }

  /** `Number.prototype.toString(16)` on a non-negative integer: lowercase
      digits, no leading zero, denoting `n`. */
  function ToBase16(n: nat): (s: string)
    ensures |s| >= 1 && AllLowerHex(s)
    ensures |s| > 1 ==> s[0] != '0'
    ensures HexValue(s) == n
    ensures |s| == 1 <==> n < 16
    ensures n < 256 ==> |s| <= 2
    decreases n
  {
    if n < 16 then
      [HexDigit(n)]
    else
      var prefix := ToBase16(n / 16);
      var s := prefix + [HexDigit(n % 16)];
      assert s[..|s| - 1] == prefix;
      s
  }

  /** `String.prototype.padStart(width, fill)` with a one-character fill. */
  function PadStart(s: string, width: nat, fill: char): (p: string)
    ensures |p| == if |s| >= width then |s| else width
  {
    if |s| >= width then s else seq(width - |s|, _ => fill) + s
  }

  /** The padded string is fill characters followed by the original. */
  lemma PadStartShape(s: string, width: nat, fill: char)
    ensures var p := PadStart(s, width, fill);
            p[|p| - |s|..] == s && forall i :: 0 <= i < |p| - |s| ==> p[i] == fill
  {
  }

  /** A two-character group of lowercase hex digits, as `hex()` writes
      per channel. */
  predicate IsByteHex(s: string)
  {
    |s| == 2 && IsLowerHexDigit(s[0]) && IsLowerHexDigit(s[1])
  }

  /** The channel a two-digit group denotes. */
  function ByteValue(s: string): int
    requires IsByteHex(s)
  {
    DigitValue(s[0]) * 16 + DigitValue(s[1])
  }

  /** One channel as `toString(16).padStart(2, '0')`: exactly two lowercase
      digits denoting the channel. */
  function ByteHex(n: int): (s: string)
    requires IsChannel(n)
    ensures IsByteHex(s) && ByteValue(s) == n
  {
    var digits := ToBase16(n);
    var s := PadStart(digits, 2, '0');
    if |digits| == 1 then
      assert s == ['0'] + digits;
      LeadingZero(digits);
      assert s[..1] == [s[0]] && [s[0]][..0] == [];
      s
    else
      assert s == digits;
      assert s[..1] == [s[0]] && [s[0]][..0] == [];
      s
  }

  /** Every two-digit group is the rendering of the channel it denotes. */
  lemma ByteHexOfValue(s: string)
    requires IsByteHex(s)
    ensures IsChannel(ByteValue(s)) && ByteHex(ByteValue(s)) == s
  {
    var hi, lo := DigitValue(s[0]), DigitValue(s[1]);
    var v := ByteValue(s);
    DigitRoundTrip(hi, s[0]);
    DigitRoundTrip(lo, s[1]);
    assert s == [s[0], s[1]];
    if hi == 0 {
      assert v == lo;
      assert ToBase16(v) == [HexDigit(lo)] == [s[1]];
      assert s[0] == HexDigit(0) == '0';
      assert PadStart([s[1]], 2, '0') == seq(1, _ => '0') + [s[1]] == s;
    } else {
      assert v / 16 == hi && v % 16 == lo;
      assert ToBase16(hi) == [HexDigit(hi)] == [s[0]];
      assert ToBase16(v) == ToBase16(hi) + [HexDigit(lo)] == s;
      assert PadStart(s, 2, '0') == s;
    }
    assert ByteHex(v) == PadStart(ToBase16(v), 2, '0');
  }

  // ---------------------------------------------------------------------
  // Decoding `#rrggbb`
  // ---------------------------------------------------------------------

  /** Reads back a `#rrggbb` string with lowercase digits; `None` for any
      other string. */
  function ParseHex(s: string): (res: Option<Color>)
    ensures res.Some? ==> res.value.Valid()
  {
    if |s| == 7 && s[0] == '#' && IsByteHex(s[1..3]) && IsByteHex(s[3..5]) && IsByteHex(s[5..7]) then
      ByteHexOfValue(s[1..3]);
      ByteHexOfValue(s[3..5]);
      ByteHexOfValue(s[5..7]);
      Some(Color(ByteValue(s[1..3]), ByteValue(s[3..5]), ByteValue(s[5..7])))
    else
      None
  }

  /** Decoding the rendering of a colour gives back its channels. */
  lemma HexRoundTrip(c: Color)
    requires c.Valid()
    ensures ParseHex(c.Hex()) == Some(c)
  {
  }

  /** Every lowercase `#rrggbb` string is the rendering of the colour it
      decodes to, so `Hex` is a bijection onto those strings. */
  lemma ParseHexRoundTrip(s: string)
    requires ParseHex(s).Some?
    ensures ParseHex(s).value.Hex() == s
  {
    var c := ParseHex(s).value;
    ByteHexOfValue(s[1..3]);
    ByteHexOfValue(s[3..5]);
    ByteHexOfValue(s[5..7]);
    assert c.Hex() == "#" + s[1..3] + s[3..5] + s[5..7];
    assert s[3..] == s[3..5] + s[5..7];
    assert s[1..] == s[1..3] + s[3..];
    assert s == [s[0]] + s[1..];
  }

  /** Distinct colours render to distinct strings. */
  lemma HexInjective(c1: Color, c2: Color)
    requires c1.Valid() && c2.Valid()
    requires c1.Hex() == c2.Hex()
    ensures c1 == c2
  {
    HexRoundTrip(c1);
    HexRoundTrip(c2);
  }

  /** The renderings of white, black and (16, 32, 48). */
  lemma HexExamples()
    ensures Color(255, 255, 255).Hex() == "#ffffff"
    ensures Color(0, 0, 0).Hex() == "#000000"
    ensures Color(16, 32, 48).Hex() == "#102030"
  {
    HexOfGroups(Color(255, 255, 255), "ff", "ff", "ff");
    HexOfGroups(Color(0, 0, 0), "00", "00", "00");
    HexOfGroups(Color(16, 32, 48), "10", "20", "30");
  }

  /** A colour whose channels are the values of three two-digit groups
      renders as `#` followed by those groups. */
  lemma HexOfGroups(c: Color, hr: string, hg: string, hb: string)
    requires IsByteHex(hr) && IsByteHex(hg) && IsByteHex(hb)
    requires c == Color(ByteValue(hr), ByteValue(hg), ByteValue(hb))
    ensures c.Valid() && c.Hex() == "#" + hr + hg + hb
  {
    ByteHexOfValue(hr);
    ByteHexOfValue(hg);
    ByteHexOfValue(hb);
  }
}
