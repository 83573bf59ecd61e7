/** Colour handling of the lighting engine: `#rgb`/`#rrggbb` strings are parsed into
    channels, mixed channel by channel, and written back as `#rrggbb` in lower case. */
module Colors {
  import opened Numeric

  /** One channel as `parseInt` leaves it: a number, or NaN when nothing parsed. */
  datatype Channel = ChannelNaN | Level(v: real)

  datatype Rgb = Rgb(r: Channel, g: Channel, b: Channel)

  predicate IsHexDigit(c: char) {
    '0' <= c <= '9' || 'a' <= c <= 'f' || 'A' <= c <= 'F'
  }

  predicate IsLowerHexDigit(c: char) {
    '0' <= c <= '9' || 'a' <= c <= 'f'
  }

  predicate AllHexDigits(s: string) {
    forall i :: 0 <= i < |s| ==> IsHexDigit(s[i])
  }

  function HexDigitValue(c: char): (d: nat)
    requires IsHexDigit(c)
    ensures d < 16
  {
    if '0' <= c <= '9' then (c - '0') as nat
    else if 'a' <= c <= 'f' then (c - 'a') as nat + 10
    else (c - 'A') as nat + 10
  }

  /** The digit `Number.prototype.toString(16)` writes for `d`. */
  function HexDigitChar(d: nat): (c: char)
    requires d < 16
    ensures IsLowerHexDigit(c) && IsHexDigit(c) && HexDigitValue(c) == d
  {
    if d < 10 then '0' + d as char else 'a' + (d - 10) as char
  }

  /** Lower-cases a hex digit; other characters are left alone. */
  function ToLower(c: char): (l: char)
    ensures IsHexDigit(c) ==> IsLowerHexDigit(l) && HexDigitValue(l) == HexDigitValue(c)
  {
    if 'A' <= c <= 'F' then c - 'A' + 'a' else c
  }

  lemma DigitCharOfValue(c: char)
    requires IsHexDigit(c)
    ensures HexDigitChar(HexDigitValue(c)) == ToLower(c)
  {
  }

  /** The number of leading hex digits of `s`. */
  function HexPrefixLength(s: string): (n: nat)
    ensures n <= |s|
    ensures AllHexDigits(s[..n])
    ensures n < |s| ==> !IsHexDigit(s[n])
  {
    if |s| == 0 || !IsHexDigit(s[0]) then 0
    else
      var rest := HexPrefixLength(s[1..]);
      assert s[1..][..rest] == s[1..rest + 1];
      1 + rest
  }

  /** The value of a string of hex digits, most significant first. */
  function HexValue(s: string): (v: nat)
    requires AllHexDigits(s)
    decreases |s|
  {
    if |s| == 0 then 0 else 16 * HexValue(s[..|s| - 1]) + HexDigitValue(s[|s| - 1])
  }

  function HexPairValue(c0: char, c1: char): (n: nat)
    requires IsHexDigit(c0) && IsHexDigit(c1)
    ensures n <= 255
  {
    16 * HexDigitValue(c0) + HexDigitValue(c1)
  }

  lemma HexValueOfPair(s: string)
    requires |s| == 2 && AllHexDigits(s)
    ensures HexValue(s) == HexPairValue(s[0], s[1])
  {
    assert s[..1][..0] == [];
    assert HexValue(s[..1]) == HexDigitValue(s[0]);
  }

  /** `parseInt(s, 16)`: the value of the leading hex digits, NaN when there are none. */
  function ParseHex(s: string): (c: Channel)
    ensures c.ChannelNaN? <==> (|s| == 0 || !IsHexDigit(s[0]))
    ensures |s| == 2 && AllHexDigits(s) ==>
      c == Level(HexPairValue(s[0], s[1]) as real)
  {
    var n := HexPrefixLength(s);
    if n == 0 then ChannelNaN
    else
      assert |s| == 2 && AllHexDigits(s) ==> n == 2 && s[..n] == s && HexValue(s) == HexPairValue(s[0], s[1]) by {
        if |s| == 2 && AllHexDigits(s) {
          assert s[1..][1..] == [];
          HexValueOfPair(s);
        }
      }
      Level(HexValue(s[..n]) as real)
  }

  /** `s.replace(c, "")` with a string pattern: only the first occurrence goes. */
  function RemoveFirst(s: string, c: char): (r: string)
    ensures c !in s ==> r == s
    ensures c in s ==> |r| == |s| - 1
    ensures |s| > 0 && s[0] == c ==> r == s[1..]
  {
    if |s| == 0 then s
    else if s[0] == c then s[1..]
    else [s[0]] + RemoveFirst(s[1..], c)
  }

  /** `s.slice(from, to)` for non-negative bounds. */
  function Slice(s: string, from: nat, to: nat): (r: string)
    ensures |r| <= |s|
    ensures to <= |s| && from <= to ==> r == s[from..to]
  {
    var a := if from <= |s| then from else |s|;
    var b := if to <= |s| then to else |s|;
    if a <= b then s[a..b] else ""
  }

  function HexToRgb(hex: string): Rgb {
    ParseStripped(RemoveFirst(hex, '#'))
  }

  /** The channel split of `hexToRgb` once the `#` is gone. */
  function ParseStripped(stripped: string): Rgb {
    if |stripped| == 3 then
      Rgb(ParseHex([stripped[0], stripped[0]]),
          ParseHex([stripped[1], stripped[1]]),
          ParseHex([stripped[2], stripped[2]]))
    else
      Rgb(ParseHex(Slice(stripped, 0, 2)),
          ParseHex(Slice(stripped, 2, 4)),
          ParseHex(Slice(stripped, 4, 6)))
  }

  /** The byte a channel is written as: rounded half up, then clamped to [0,255]. */
  function ClampByte(v: real): (n: nat)
    ensures n <= 255
    ensures 0 <= Round(v) <= 255 ==> n == Round(v)
    ensures Round(v) < 0 ==> n == 0
    ensures Round(v) > 255 ==> n == 255
  {
    var x := Round(v);
    if x < 0 then 0 else if x > 255 then 255 else x
  }

  /** `n.toString(16).padStart(2, "0")` for a byte. */
  function ByteHex(n: nat): (s: string)
    requires n <= 255
    ensures |s| == 2 && IsLowerHexDigit(s[0]) && IsLowerHexDigit(s[1])
    ensures AllHexDigits(s) && HexValue(s) == n
  {
    var s := [HexDigitChar(n / 16), HexDigitChar(n % 16)];
    HexValueOfPair(s);
    s
  }

  function ChannelHex(c: Channel): string {
    match c
    case ChannelNaN => "NaN"
    case Level(v) => ByteHex(ClampByte(v))
  }

  predicate IsLowerHexColor(s: string) {
    |s| == 7 && s[0] == '#' && forall i :: 1 <= i < 7 ==> IsLowerHexDigit(s[i])
  }

  predicate NumericRgb(c: Rgb) {
    c.r.Level? && c.g.Level? && c.b.Level?
  }

  lemma HashPairsLayout(x: string, y: string, z: string)
    requires |x| == 2 && |y| == 2 && |z| == 2
    requires IsLowerHexDigit(x[0]) && IsLowerHexDigit(x[1]) && IsLowerHexDigit(y[0])
    requires IsLowerHexDigit(y[1]) && IsLowerHexDigit(z[0]) && IsLowerHexDigit(z[1])
    ensures ("#" + x + y + z)[1..3] == x
    ensures ("#" + x + y + z)[3..5] == y
    ensures ("#" + x + y + z)[5..7] == z
    ensures IsLowerHexColor("#" + x + y + z)
  {
    var s := "#" + x + y + z;
    assert s[1] == x[0] && s[2] == x[1] && s[3] == y[0] && s[4] == y[1] && s[5] == z[0] && s[6] == z[1];
  }

  /** Writes `#rrggbb`; each pair of digits encodes its channel rounded and clamped. */
  function RgbToHex(c: Rgb): (s: string)
    ensures NumericRgb(c) ==> IsLowerHexColor(s)
    ensures NumericRgb(c) ==>
      && HexValue(s[1..3]) == ClampByte(c.r.v)
      && HexValue(s[3..5]) == ClampByte(c.g.v)
      && HexValue(s[5..7]) == ClampByte(c.b.v)
  {
    var x := ChannelHex(c.r);
    var y := ChannelHex(c.g);
    var z := ChannelHex(c.b);
    if NumericRgb(c) then HashPairsLayout(x, y, z); "#" + x + y + z
    else "#" + x + y + z
  }

  /** `lerp` on channels: NaN on either side gives NaN. */
  function LerpChannel(a: Channel, b: Channel, t: real): (c: Channel)
    ensures c.Level? <==> a.Level? && b.Level?
  {
    if a.Level? && b.Level? then Level(Lerp(a.v, b.v, t)) else ChannelNaN
  }

  function MixHex(a: string, b: string, t: real): string {
    var ca := HexToRgb(a);
    var cb := HexToRgb(b);
    RgbToHex(Rgb(LerpChannel(ca.r, cb.r, t), LerpChannel(ca.g, cb.g, t), LerpChannel(ca.b, cb.b, t)))
  }

  /** A colour string the parser reads completely: after dropping the first `#`,
      three or six hex digits. */
  predicate IsColor(h: string) {
    var st := RemoveFirst(h, '#');
    (|st| == 3 || |st| == 6) && AllHexDigits(st)
  }

  /** The independent reading of a colour: its digits lower-cased, a three-digit form
      expanded by doubling every digit. */
  function Normalize(h: string): (n: string)
    requires IsColor(h)
  {
    var st := RemoveFirst(h, '#');
    if |st| == 3 then
      "#" + [ToLower(st[0]), ToLower(st[0])] + [ToLower(st[1]), ToLower(st[1])] + [ToLower(st[2]), ToLower(st[2])]
    else
      "#" + [ToLower(st[0]), ToLower(st[1])] + [ToLower(st[2]), ToLower(st[3])] + [ToLower(st[4]), ToLower(st[5])]
  }

  lemma ByteHexOfPair(c0: char, c1: char)
    requires IsHexDigit(c0) && IsHexDigit(c1)
    ensures ClampByte(HexPairValue(c0, c1) as real) == HexPairValue(c0, c1)
    ensures ByteHex(HexPairValue(c0, c1)) == [ToLower(c0), ToLower(c1)]
  {
    var n := HexPairValue(c0, c1);
    RoundOfInt(n);
    assert n / 16 == HexDigitValue(c0) && n % 16 == HexDigitValue(c1);
    DigitCharOfValue(c0);
    DigitCharOfValue(c1);
  }

  lemma ChannelOfPair(c0: char, c1: char)
    requires IsHexDigit(c0) && IsHexDigit(c1)
    ensures ParseHex([c0, c1]).Level?
    ensures ChannelHex(ParseHex([c0, c1])) == [ToLower(c0), ToLower(c1)]
  {
    ByteHexOfPair(c0, c1);
  }

  lemma ShortFormRoundTrip(st: string)
    requires |st| == 3 && AllHexDigits(st)
    ensures NumericRgb(ParseStripped(st))
    ensures RgbToHex(ParseStripped(st))
      == "#" + [ToLower(st[0]), ToLower(st[0])] + [ToLower(st[1]), ToLower(st[1])] + [ToLower(st[2]), ToLower(st[2])]
  {
    ChannelOfPair(st[0], st[0]);
    ChannelOfPair(st[1], st[1]);
    ChannelOfPair(st[2], st[2]);
  }

  lemma LongFormRoundTrip(st: string)
    requires |st| == 6 && AllHexDigits(st)
    ensures NumericRgb(ParseStripped(st))
    ensures RgbToHex(ParseStripped(st))
      == "#" + [ToLower(st[0]), ToLower(st[1])] + [ToLower(st[2]), ToLower(st[3])] + [ToLower(st[4]), ToLower(st[5])]
  {
    assert Slice(st, 0, 2) == [st[0], st[1]];
    assert Slice(st, 2, 4) == [st[2], st[3]];
    assert Slice(st, 4, 6) == [st[4], st[5]];
    ChannelOfPair(st[0], st[1]);
    ChannelOfPair(st[2], st[3]);
    ChannelOfPair(st[4], st[5]);
  }

  /** Parsing a colour and writing it back yields its normal form: `#` plus six
      lower-case digits, with a three-digit colour expanded. */
  lemma RoundTrip(h: string)
    requires IsColor(h)
    ensures NumericRgb(HexToRgb(h))
    ensures RgbToHex(HexToRgb(h)) == Normalize(h)
    ensures IsLowerHexColor(Normalize(h))
  {
    var st := RemoveFirst(h, '#');
    if |st| == 3 {
      ShortFormRoundTrip(st);
      HashPairsLayout([ToLower(st[0]), ToLower(st[0])], [ToLower(st[1]), ToLower(st[1])], [ToLower(st[2]), ToLower(st[2])]);
    } else {
      LongFormRoundTrip(st);
      HashPairsLayout([ToLower(st[0]), ToLower(st[1])], [ToLower(st[2]), ToLower(st[3])], [ToLower(st[4]), ToLower(st[5])]);
    }
  }

  /** Mixing a colour with itself gives its normal form whatever the fraction: the
      round trip through channels does not drift. */
  lemma MixSelf(a: string, t: real)
    ensures MixHex(a, a, t) == RgbToHex(HexToRgb(a))
    ensures IsColor(a) ==> MixHex(a, a, t) == Normalize(a)
  {
    var c := HexToRgb(a);
    assert LerpChannel(c.r, c.r, t) == c.r;
    assert LerpChannel(c.g, c.g, t) == c.g;
    assert LerpChannel(c.b, c.b, t) == c.b;
    if IsColor(a) {
      RoundTrip(a);
    }
  }

  /** At fraction 0 the mix is the first colour, at 1 the second (both normalised). */
  lemma MixEndpoints(a: string, b: string)
    requires IsColor(a) && IsColor(b)
    ensures MixHex(a, b, 0.0) == Normalize(a)
    ensures MixHex(a, b, 1.0) == Normalize(b)
  {
    RoundTrip(a);
    RoundTrip(b);
    var ca := HexToRgb(a);
    var cb := HexToRgb(b);
    assert LerpChannel(ca.r, cb.r, 0.0) == ca.r;
    assert LerpChannel(ca.g, cb.g, 0.0) == ca.g;
    assert LerpChannel(ca.b, cb.b, 0.0) == ca.b;
    assert LerpChannel(ca.r, cb.r, 1.0) == cb.r;
    assert LerpChannel(ca.g, cb.g, 1.0) == cb.g;
    assert LerpChannel(ca.b, cb.b, 1.0) == cb.b;
  }
}
