/*
 * Color.prototype.hexToRGB and randColor of app.js: parsing a CSS hex
 * colour, and drawing a colour near it.
 *
 * Math.random is a stream `rand` of draws in [0, 1); a call starting at
 * draw n consumes draws n, n + 1, ...
 */
module Color {
  import opened Maths

  datatype Triple<T> = Triple(r: T, g: T, b: T)

  predicate IsHexDigit(ch: char) {
    '0' <= ch <= '9' || 'a' <= ch <= 'f' || 'A' <= ch <= 'F'
  }

  function HexValue(ch: char): (v: nat)
    requires IsHexDigit(ch)
    ensures v < 16
  {
    if '0' <= ch <= '9' then (ch - '0') as nat
    else if 'a' <= ch <= 'f' then (ch - 'a') as nat + 10
    else (ch - 'A') as nat + 10
  }

  predicate AllHex(s: string) {
    forall i :: 0 <= i < |s| ==> IsHexDigit(s[i])
  }

  /** s without one leading '#', if it has one (the `#?` of both patterns). */
  function StripHash(s: string): (t: string)
    ensures |t| <= |s|
  {
    if |s| > 0 && s[0] == '#' then s[1..] else s
  }

  /**
   * The shorthand rewrite: an input that is, after an optional '#',
   * exactly three hex digits is replaced, '#' included, by each digit
   * written twice; any other input is left as it is.
   */
  function ExpandShorthand(s: string): string {
    var t := StripHash(s);
    if |t| == 3 && AllHex(t) then [t[0], t[0], t[1], t[1], t[2], t[2]] else s
  }

  /** parseInt(s, 16) of a run of hex digits. */
  function ParseHex(s: string): (v: nat)
    requires AllHex(s)
    ensures v < Pow16(|s|)
  {
    if s == [] then 0 else 16 * ParseHex(s[..|s| - 1]) + HexValue(s[|s| - 1])
  }

  function Pow16(n: nat): nat {
    if n == 0 then 1 else 16 * Pow16(n - 1)
  }

  /**
   * hexToRGB: null for a falsy input or one that is not 3 or 6 hex digits
   * after an optional '#'; otherwise three channels of two hex digits each.
   */
  function HexToRGB(hex: Option<string>): (rgb: Option<Triple<nat>>)
    ensures hex.None? || hex.value == "" ==> rgb.None?
    ensures rgb.Some? ==> hex.Some? && WellFormedHex(hex.value)
    ensures rgb.Some? ==> rgb.value.r < 256 && rgb.value.g < 256 && rgb.value.b < 256
  {
    if hex.None? || hex.value == "" then None
    else
      var t := StripHash(ExpandShorthand(hex.value));
      if |t| == 6 && AllHex(t) then
        Some(Triple(ParseHex(t[0..2]), ParseHex(t[2..4]), ParseHex(t[4..6])))
      else None
  }

  /** The inputs hexToRGB accepts: one optional '#', then 3 or 6 hex digits. */
  predicate WellFormedHex(s: string) {
    var t := StripHash(s);
    (|t| == 3 || |t| == 6) && AllHex(t)
  }

  function Pair(a: char, b: char): nat
    requires IsHexDigit(a) && IsHexDigit(b)
  {
    16 * HexValue(a) + HexValue(b)
  }

  lemma ParsePair(s: string)
    requires |s| == 2 && AllHex(s)
    ensures ParseHex(s) == Pair(s[0], s[1])
  {
    assert s[..1][..0] == [];
  }

  /**
   * hexToRGB succeeds exactly on the well-formed inputs; each channel is
   * the value of its pair of digits, a 3-digit form repeating each digit,
   * so every channel lies in 0..255.
   */
  lemma HexToRGBSpec(hex: Option<string>)
    ensures HexToRGB(hex).Some? <==> hex.Some? && WellFormedHex(hex.value)
    ensures HexToRGB(hex).Some? ==>
              var t := StripHash(hex.value);
              var c := HexToRGB(hex).value;
              c.r <= 255 && c.g <= 255 && c.b <= 255
              && (|t| == 6 ==> c == Triple(Pair(t[0], t[1]), Pair(t[2], t[3]), Pair(t[4], t[5])))
              && (|t| == 3 ==> c == Triple(17 * HexValue(t[0]), 17 * HexValue(t[1]), 17 * HexValue(t[2])))
  {
    if hex.Some? && hex.value != "" {
      var s := hex.value;
      var t := StripHash(ExpandShorthand(s));
      if |t| == 6 && AllHex(t) {
        ParsePair(t[0..2]);
        ParsePair(t[2..4]);
        ParsePair(t[4..6]);
      }
    }
  }

  lemma ChannelsBounded(hex: Option<string>)
    ensures HexToRGB(hex).Some? ==> HexToRGB(hex).value.r <= 255 && HexToRGB(hex).value.g <= 255 && HexToRGB(hex).value.b <= 255
  {
    HexToRGBSpec(hex);
  }

  /** A 3-digit colour is the 6-digit colour with every digit doubled, with or without the '#'. */
  lemma ShorthandIsLonghand(a: char, b: char, c: char)
    requires IsHexDigit(a) && IsHexDigit(b) && IsHexDigit(c)
    ensures HexToRGB(Some(['#', a, b, c])) == HexToRGB(Some(['#', a, a, b, b, c, c]))
    ensures HexToRGB(Some([a, b, c])) == HexToRGB(Some([a, a, b, b, c, c]))
  {
    var e := [a, a, b, b, c, c];
    assert ['#', a, b, c][1..] == [a, b, c];
    assert ['#', a, a, b, b, c, c][1..] == e;
    assert StripHash(ExpandShorthand(['#', a, b, c])) == e;
    assert StripHash(ExpandShorthand(['#', a, a, b, b, c, c])) == e;
    assert StripHash(ExpandShorthand([a, b, c])) == e;
    assert StripHash(ExpandShorthand(e)) == e;
  }

  /** The colour every Polygon is filled near. */
  lemma BaseColour()
    ensures HexToRGB(Some("#15ac4f")) == Some(Triple(21, 172, 79))
  {
    var t := "15ac4f";
    assert StripHash(ExpandShorthand("#15ac4f")) == t;
    assert t[0..2] == "15" && t[2..4] == "ac" && t[4..6] == "4f";
    ParsePair("15");
    ParsePair("ac");
    ParsePair("4f");
  }

  function ToLower(ch: char): char {
    if 'A' <= ch <= 'Z' then (ch - 'A' + 'a') as char else ch
  }

  function LowerCase(s: string): (t: string)
    ensures |t| == |s| && forall i :: 0 <= i < |s| ==> t[i] == ToLower(s[i])
  {
    if s == [] then [] else [ToLower(s[0])] + LowerCase(s[1..])
  }

  lemma ParseHexLower(s: string)
    requires AllHex(s)
    ensures AllHex(LowerCase(s)) && ParseHex(LowerCase(s)) == ParseHex(s)
  {
    LowerDigits(s);
    ParseHexSame(s, LowerCase(s));
  }

  /** Runs of digits with the same values, one by one, have the same value. */
  lemma {:induction false} ParseHexSame(s: string, u: string)
    requires AllHex(s) && AllHex(u) && |u| == |s|
    requires forall i :: 0 <= i < |s| ==> HexValue(u[i]) == HexValue(s[i])
    ensures ParseHex(u) == ParseHex(s)
  {
    if s != [] {
      var n := |s| - 1;
      ParseHexSame(s[..n], u[..n]);
    }
  }

  lemma LowerDigits(s: string)
    requires AllHex(s)
    ensures AllHex(LowerCase(s))
    ensures forall i :: 0 <= i < |s| ==> HexValue(LowerCase(s)[i]) == HexValue(s[i])
  {
    forall i | 0 <= i < |s| ensures IsHexDigit(LowerCase(s)[i]) && HexValue(LowerCase(s)[i]) == HexValue(s[i]) {
      DigitLower(s[i]);
    }
  }

  lemma DigitLower(ch: char)
    ensures IsHexDigit(ToLower(ch)) <==> IsHexDigit(ch)
    ensures IsHexDigit(ch) ==> HexValue(ToLower(ch)) == HexValue(ch)
  {
  }

  lemma StripLower(s: string)
    ensures StripHash(LowerCase(s)) == LowerCase(StripHash(s))
    ensures AllHex(LowerCase(StripHash(s))) <==> AllHex(StripHash(s))
  {
    var t := StripHash(s);
    forall i | 0 <= i < |t| ensures IsHexDigit(LowerCase(t)[i]) <==> IsHexDigit(t[i]) {
      DigitLower(t[i]);
    }
  }

  lemma ExpandLower(s: string)
    ensures StripHash(ExpandShorthand(LowerCase(s))) == LowerCase(StripHash(ExpandShorthand(s)))
  {
    StripLower(s);
    var t := StripHash(s);
    if |t| == 3 && AllHex(t) {
      var e := [t[0], t[0], t[1], t[1], t[2], t[2]];
      assert StripHash(LowerCase(e)) == LowerCase(e);
    } else {
      StripLower(s);
    }
  }

  lemma ParseTripleLower(t: string)
    requires |t| == 6 && AllHex(t)
    ensures var u := LowerCase(t);
            AllHex(u) && ParseHex(u[0..2]) == ParseHex(t[0..2])
            && ParseHex(u[2..4]) == ParseHex(t[2..4]) && ParseHex(u[4..6]) == ParseHex(t[4..6])
  {
    LowerDigits(t);
    PairLower(t, 0);
    PairLower(t, 2);
    PairLower(t, 4);
  }

  lemma PairLower(t: string, i: nat)
    requires i + 2 <= |t| && AllHex(t)
    ensures AllHex(LowerCase(t)) && ParseHex(LowerCase(t)[i..i + 2]) == ParseHex(t[i..i + 2])
  {
    var u := LowerCase(t);
    LowerDigits(t);
    ParsePair(t[i..i + 2]);
    ParsePair(u[i..i + 2]);
  }

  /** The `i` flag: upper- and lower-case digits give the same colour. */
  lemma CaseInsensitive(s: string)
    ensures HexToRGB(Some(LowerCase(s))) == HexToRGB(Some(s))
  {
    ExpandLower(s);
    var t := StripHash(ExpandShorthand(s));
    forall i | 0 <= i < |t| ensures IsHexDigit(LowerCase(t)[i]) <==> IsHexDigit(t[i]) {
      DigitLower(t[i]);
    }
    if |t| == 6 && AllHex(t) {
      ParseTripleLower(t);
    }
  }

  // ---------------------------------------------------------------------
  // randColor

  /** Math.random as a stream of draws, each in [0, 1). */
  ghost predicate IsUniform(rand: nat -> real) {
    forall n :: 0.0 <= rand(n) < 1.0
  }

  function Max(a: real, b: real): real { if a < b then b else a }
  function Min(a: real, b: real): real { if a < b then a else b }

  /** The colour variance around `selected`: [max(0, s - d), min(255, s + d)]. */
  function Low(selected: real, distance: real): real { Max(0.0, selected - distance) }
  function High(selected: real, distance: real): real { Min(255.0, selected + distance) }

  /** Math.floor(u * (high - low)): the draw scaled onto the variance. */
  function Offset(selected: real, distance: real, u: real): real {
    (u * (High(selected, distance) - Low(selected, distance))).Floor as real
  }

  /** How many draws randColor consumes: one when monochrome, one per channel otherwise. */
  function Draws(monochrome: bool): nat {
    if monochrome then 1 else 3
  }

  /** `distance || 10`, or 127.5 when the colour does not parse. */
  function EffectiveDistance(rgb: Option<Triple<nat>>, distance: Option<real>): real {
    if rgb.None? then 127.5
    else if distance.None? || distance.value == 0.0 then 10.0
    else distance.value
  }

  /** The colour randColor varies: the parsed one, or grey 127.5 when the hex does not parse. */
  function Base(rgb: Option<Triple<nat>>): (base: Triple<real>)
    ensures 0.0 <= base.r <= 255.0 && 0.0 <= base.g <= 255.0 && 0.0 <= base.b <= 255.0 <== rgb.None? || (rgb.value.r < 256 && rgb.value.g < 256 && rgb.value.b < 256)
  {
    if rgb.None? then Triple(127.5, 127.5, 127.5)
    else Triple(rgb.value.r as real, rgb.value.g as real, rgb.value.b as real)
  }

  /**
   * randColor(hex, distance, monochrome) with its draws taken from rand
   * starting at n. A missing or zero distance is 10; an unparsable hex
   * falls back to grey 127.5 with distance 127.5. Each channel is drawn
   * on its own, or, when monochrome, one offset drawn over the red
   * channel's variance is added to every channel.
   */
  function RandColor(hex: Option<string>, distance: Option<real>, monochrome: bool, rand: nat -> real, n: nat): Triple<real> {
    var rgb := HexToRGB(hex);
    var d := EffectiveDistance(rgb, distance);
    var base := Base(rgb);
    if !monochrome then
      Triple(Offset(base.r, d, rand(n)) + Low(base.r, d),
             Offset(base.g, d, rand(n + 1)) + Low(base.g, d),
             Offset(base.b, d, rand(n + 2)) + Low(base.b, d))
    else
      var delta := Offset(base.r, d, rand(n));
      Triple(delta + base.r, delta + base.g, delta + base.b)
  }

  /**
   * Monochrome, every channel moves from the base colour by one offset; an
   * unparsable hex so gives a grey.
   */
  lemma RandColorMonochrome(hex: Option<string>, distance: Option<real>, rand: nat -> real, n: nat)
    ensures var base := Base(HexToRGB(hex));
            var c := RandColor(hex, distance, true, rand, n);
            c.g - base.g == c.r - base.r && c.b - base.b == c.r - base.r
    ensures var c := RandColor(hex, distance, true, rand, n);
            HexToRGB(hex).None? ==> c.r == c.g == c.b
  {
  }

  /** randColor reads draws n .. n + Draws(monochrome) - 1 and no others. */
  lemma RandColorDraws(hex: Option<string>, distance: Option<real>, monochrome: bool, rand: nat -> real, rand': nat -> real, n: nat)
    requires forall i :: n <= i < n + Draws(monochrome) ==> rand(i) == rand'(i)
    ensures RandColor(hex, distance, monochrome, rand, n) == RandColor(hex, distance, monochrome, rand', n)
  {
    var rgb := HexToRGB(hex);
    var d := EffectiveDistance(rgb, distance);
    var base := Base(rgb);
    assert Offset(base.r, d, rand(n)) == Offset(base.r, d, rand'(n));
    if !monochrome {
      assert Offset(base.g, d, rand(n + 1)) == Offset(base.g, d, rand'(n + 1));
      assert Offset(base.b, d, rand(n + 2)) == Offset(base.b, d, rand'(n + 2));
    }
  }

  lemma ScaleBelow(u: real, w: real)
    requires 0.0 <= u < 1.0 && 0.0 <= w
    ensures 0.0 <= u * w <= w && (0.0 < w ==> u * w < w)
  {
    assert w - u * w == (1.0 - u) * w;
  }

  lemma FloorBelow(x: real, w: real)
    requires 0.0 <= x <= w && (0.0 < w ==> x < w)
    ensures 0.0 <= x.Floor as real <= w && (0.0 < w ==> x.Floor as real < w)
  {
  }

  /**
   * With a non-negative distance the offset lies in [0, high - low], and
   * strictly below high - low when the variance is not empty.
   */
  lemma OffsetBounds(selected: real, distance: real, u: real)
    requires 0.0 <= selected <= 255.0 && 0.0 <= distance && 0.0 <= u < 1.0
    ensures var w := High(selected, distance) - Low(selected, distance);
            0.0 <= w && 0.0 <= Offset(selected, distance, u) <= w
            && (0.0 < w ==> Offset(selected, distance, u) < w)
  {
    var w := High(selected, distance) - Low(selected, distance);
    ScaleBelow(u, w);
    FloorBelow(u * w, w);
  }

  /**
   * Drawn channel by channel, with a non-negative distance, every channel
   * lies in its variance [low, high] within 0..255, below high unless the
   * variance is a single value.
   */
  lemma RandColorInRange(hex: Option<string>, distance: Option<real>, rand: nat -> real, n: nat)
    requires IsUniform(rand) && (distance.Some? ==> 0.0 <= distance.value)
    ensures var c := RandColor(hex, distance, false, rand, n);
            0.0 <= c.r <= 255.0 && 0.0 <= c.g <= 255.0 && 0.0 <= c.b <= 255.0
    ensures var rgb := HexToRGB(hex);
            var d := EffectiveDistance(rgb, distance);
            var c := RandColor(hex, distance, false, rand, n);
            rgb.Some? ==>
              Low(rgb.value.r as real, d) <= c.r <= High(rgb.value.r as real, d)
              && Low(rgb.value.g as real, d) <= c.g <= High(rgb.value.g as real, d)
              && Low(rgb.value.b as real, d) <= c.b <= High(rgb.value.b as real, d)
  {
    var rgb := HexToRGB(hex);
    ChannelsBounded(hex);
    var d := EffectiveDistance(rgb, distance);
    var base := Base(rgb);
    OffsetBounds(base.r, d, rand(n));
    OffsetBounds(base.g, d, rand(n + 1));
    OffsetBounds(base.b, d, rand(n + 2));
  }

  /**
   * Monochrome: all three channels move by the same offset, drawn over the
   * red channel's variance.
   */
  lemma MonochromeShift(hex: Option<string>, distance: Option<real>, rand: nat -> real, n: nat)
    requires IsUniform(rand) && HexToRGB(hex).Some? && (distance.Some? ==> 0.0 <= distance.value)
    ensures var rgb := HexToRGB(hex).value;
            var d := EffectiveDistance(HexToRGB(hex), distance);
            var c := RandColor(hex, distance, true, rand, n);
            var delta := c.r - rgb.r as real;
            c.g - rgb.g as real == delta && c.b - rgb.b as real == delta
            && 0.0 <= delta <= High(rgb.r as real, d) - Low(rgb.r as real, d)
  {
    var rgb := HexToRGB(hex).value;
    ChannelsBounded(hex);
    OffsetBounds(rgb.r as real, EffectiveDistance(HexToRGB(hex), distance), rand(n));
  }

  /**
   * The monochrome offset is not clamped: a light base colour can be
   * pushed past 255.
   */
  lemma MonochromeOverflows()
    ensures RandColor(Some("#fafafa"), None, true, _ => 0.99, 0) == Triple(264.0, 264.0, 264.0)
  {
    var t := "fafafa";
    assert StripHash(ExpandShorthand("#fafafa")) == t;
    assert t[0..2] == "fa" && t[2..4] == "fa" && t[4..6] == "fa";
    ParsePair("fa");
    assert HexToRGB(Some("#fafafa")) == Some(Triple(250, 250, 250));
    assert (0.99 * 15.0).Floor == 14;
  }

  /** Every Polygon fill, randColor("#15ac4f", null, true), is (21, 172, 79) plus one offset in 0..19. */
  lemma PolygonFill(rand: nat -> real, n: nat)
    requires IsUniform(rand)
    ensures var c := RandColor(Some("#15ac4f"), None, true, rand, n);
            var delta := c.r - 21.0;
            c == Triple(21.0 + delta, 172.0 + delta, 79.0 + delta)
            && 0.0 <= delta < 20.0 && delta == delta.Floor as real
  {
    BaseColour();
    OffsetBounds(21.0, 10.0, rand(n));
  }
}
