/** The colour utilities: parsing a background given as `#hex` or
    `rgb(...)`, the HSL/RGB conversions over exact reals, and the choice of a
    foreground colour whose lightness is far enough from the background's. */
module Color {
  import opened Results
  import opened JsText
  import Random

  /** A colour with integer channels, as `[r, g, b]`. */
  datatype Rgb = Rgb(r: int, g: int, b: int)

  /** A colour as `[h, s, l]`. */
  datatype Hsl = Hsl(h: int, s: int, l: int)

  /** A number `parseInt` can return: an integer or NaN. */
  datatype Channel = Value(n: int) | NaN

  /** The three channels `hexToRgb` returns, each read by `parseInt`. */
  datatype Channels = Channels(r: Channel, g: Channel, b: Channel)

  predicate InByteRange(c: Rgb)
  {
    0 <= c.r <= 255 && 0 <= c.g <= 255 && 0 <= c.b <= 255
  }

  // ---------------------------------------------------------------------
  // parseInt(s, 16)

  predicate IsHexDigit(c: char)
  {
    '0' <= c <= '9' || 'a' <= c <= 'f' || 'A' <= c <= 'F'
  }

  predicate AllHex(s: string)
  {
    forall i :: 0 <= i < |s| ==> IsHexDigit(s[i])
  }

  function HexDigitValue(c: char): (v: nat)
    requires IsHexDigit(c)
    ensures v < 16
  {
    if '0' <= c <= '9' then c as int - '0' as int
    else if 'a' <= c <= 'f' then c as int - 'a' as int + 10
    else c as int - 'A' as int + 10
  }

  /** Length of the leading run of hexadecimal digits. */
  function HexRun(s: string): (k: nat)
    ensures k <= |s| && AllHex(s[..k])
    ensures k < |s| ==> !IsHexDigit(s[k])
  {
    if |s| > 0 && IsHexDigit(s[0]) then
      var k := 1 + HexRun(s[1..]);
      assert s[..k] == [s[0]] + s[1..][..k - 1];
      k
    else 0
  }

  /** The value of a hexadecimal digit string, most significant digit first. */
  function HexValue(s: string): nat
    requires AllHex(s)
  {
    if |s| == 0 then 0 else 16 * HexValue(s[..|s| - 1]) + HexDigitValue(s[|s| - 1])
  }

  /** `parseInt(s, 16)`: leading white space is skipped, one sign is read,
      a `0x`/`0X` prefix is dropped, then the longest run of hexadecimal
      digits is the magnitude; without any digit the result is NaN. */
  function ParseIntRadix16(s: string): (c: Channel)
    ensures |s| > 0 && AllHex(s) ==> c == Value(HexValue(s))
    ensures |s| == 2 && AllHex(s) ==> 0 <= c.n <= 255
  {
    var t := TrimStart(s);
    var negative := |t| > 0 && t[0] == '-';
    var u := if |t| > 0 && (t[0] == '-' || t[0] == '+') then t[1..] else t;
    var v := if |u| >= 2 && u[0] == '0' && (u[1] == 'x' || u[1] == 'X') then u[2..] else u;
    var k := HexRun(v);
    if k == 0 then NaN
    else
      var m: int := HexValue(v[..k]);
      HexDigitsRead(s);
      Value(if negative then -m else m)
  }

  /** A string of hexadecimal digits is read whole, and two of them make a
      byte. */
  lemma HexDigitsRead(s: string)
    ensures |s| > 0 && AllHex(s) ==> TrimStart(s) == s && HexRun(s) == |s| && s[..|s|] == s
    ensures |s| == 2 && AllHex(s) ==> HexValue(s) <= 255
  {
    if |s| > 0 && AllHex(s) {
      assert !IsSpace(s[0]);
      HexRunAll(s);
    }
    if |s| == 2 && AllHex(s) {
      assert s[..1][..0] == [];
      assert HexValue(s[..1]) == HexDigitValue(s[0]);
    }
  }

  lemma {:induction false} HexRunAll(s: string)
    requires AllHex(s)
    ensures HexRun(s) == |s|
    decreases |s|
  {
    if |s| > 0 {
      HexRunAll(s[1..]);
    }
  }

  // ---------------------------------------------------------------------
  // hexToRgb

  /** The hex string without one leading `#`. */
  function HexBody(hex: string): string
  {
    if StartsWith(hex, "#") then hex[1..] else hex
  }

  /** Each character written twice: `"f0a"` becomes `"ff00aa"`. */
  function Doubled(s: string): (d: string)
    ensures |d| == 2 * |s|
    ensures forall i :: 0 <= i < |d| ==> d[i] == s[i / 2]
  {
    if |s| == 0 then "" else [s[0], s[0]] + Doubled(s[1..])
  }

  /** `hexToRgb(hex)`: the body after an optional `#`, with a three-digit
      body doubled to six, is split into three two-character `parseInt`
      slices; any other length is an error. */
  function HexToRgb(hex: string): (res: Result<Channels>)
    ensures res.Err? <==> |HexBody(hex)| != 3 && |HexBody(hex)| != 6
    ensures res.Err? ==> res.error == InvalidHexColor
  {
    var body := HexBody(hex);
    var six := if |body| == 3 then Doubled(body) else body;
    if |six| != 6 then Err(InvalidHexColor)
    else Ok(Channels(ParseIntRadix16(six[0..2]), ParseIntRadix16(six[2..4]), ParseIntRadix16(six[4..6])))
  }

  /** The three-digit form is the six-digit form with every digit doubled. */
  lemma ShortHexIsDoubled(a: char, b: char, c: char)
    ensures HexToRgb(['#', a, b, c]) == HexToRgb(['#', a, a, b, b, c, c])
  {
    assert HexBody(['#', a, b, c]) == [a, b, c];
    assert HexBody(['#', a, a, b, b, c, c]) == [a, a, b, b, c, c];
    assert Doubled([a, b, c]) == [a, a, b, b, c, c];
  }

  function Pair(s: string, i: nat): string
    requires i + 2 <= |s|
  {
    s[i..i + 2]
  }

  /** With valid hexadecimal digits every channel is the value of its
      two-digit slice, hence a byte. */
  lemma HexChannels(hex: string)
    requires |HexBody(hex)| == 6 && AllHex(HexBody(hex))
    ensures HexToRgb(hex).Ok?
    ensures HexToRgb(hex).value.r == Value(HexValue(Pair(HexBody(hex), 0)))
    ensures HexToRgb(hex).value.g == Value(HexValue(Pair(HexBody(hex), 2)))
    ensures HexToRgb(hex).value.b == Value(HexValue(Pair(HexBody(hex), 4)))
    ensures 0 <= HexToRgb(hex).value.r.n <= 255
    ensures 0 <= HexToRgb(hex).value.g.n <= 255
    ensures 0 <= HexToRgb(hex).value.b.n <= 255
  {
    var body := HexBody(hex);
    assert AllHex(Pair(body, 0)) && AllHex(Pair(body, 2)) && AllHex(Pair(body, 4));
  }

  lemma HexPairs()
    ensures HexValue("ff") == 255 && HexValue("00") == 0
  {
    assert "ff"[..1] == "f" && "f"[..0] == "";
    assert "00"[..1] == "0" && "0"[..0] == "";
  }

  lemma HexBytes()
    ensures ParseIntRadix16("ff") == Value(255) && ParseIntRadix16("00") == Value(0)
  {
    HexPairs();
  }

  lemma RedHex()
    ensures HexToRgb("#ff0000") == Ok(Channels(Value(255), Value(0), Value(0)))
  {
    var body := "ff0000";
    assert HexBody("#ff0000") == body;
    assert body[0..2] == "ff" && body[2..4] == "00" && body[4..6] == "00";
    HexBytes();
  }

  lemma GreenHex()
    ensures HexToRgb("#00ff00") == Ok(Channels(Value(0), Value(255), Value(0)))
  {
    var body := "00ff00";
    assert HexBody("#00ff00") == body;
    assert body[0..2] == "00" && body[2..4] == "ff" && body[4..6] == "00";
    HexBytes();
  }

  lemma BlueHex()
    ensures HexToRgb("#0000ff") == Ok(Channels(Value(0), Value(0), Value(255)))
  {
    var body := "0000ff";
    assert HexBody("#0000ff") == body;
    assert body[0..2] == "00" && body[2..4] == "00" && body[4..6] == "ff";
    HexBytes();
  }

  lemma YellowHex()
    ensures HexToRgb("#ffff00") == Ok(Channels(Value(255), Value(255), Value(0)))
  {
    var body := "ffff00";
    assert HexBody("#ffff00") == body;
    assert body[0..2] == "ff" && body[2..4] == "ff" && body[4..6] == "00";
    HexBytes();
  }

  lemma MagentaHex()
    ensures HexToRgb("#ff00ff") == Ok(Channels(Value(255), Value(0), Value(255)))
  {
    var body := "ff00ff";
    assert HexBody("#ff00ff") == body;
    assert body[0..2] == "ff" && body[2..4] == "00" && body[4..6] == "ff";
    HexBytes();
  }

  /** `hexToRgb("#f00")` is `hexToRgb("#ff0000")`. */
  lemma ShortRedHex()
    ensures HexToRgb("#f00") == HexToRgb("#ff0000")
  {
    var body := "f00";
    assert HexBody("#f00") == body;
    assert Doubled(body) == "ff0000";
    RedHex();
  }

  /** A five-digit body is rejected. */
  lemma BadHexLength()
    ensures HexToRgb("#12345") == Err(InvalidHexColor)
  {
    assert HexBody("#12345") == "12345";
  }

  // ---------------------------------------------------------------------
  // parseRgbString

  /** One captured channel of `rgb\(\s*(\d{1,3})\s*,\s*(\d{1,3})\s*,\s*(\d{1,3})\s*\)`:
      white space, one to three digits, white space, then `close`. The value
      of the digits and the text after `close` are returned. Reading the
      longest runs loses no match: the character after a run can never be
      consumed by what follows it in the pattern. */
  function Field(s: string, close: char): (f: Option<(nat, string)>)
    ensures f.Some? ==> f.value.0 < 1000
  {
    FieldAfterSpace(TrimStart(s), close)
  }

  /** `Field` once the leading white space is gone. */
  function FieldAfterSpace(t: string, close: char): (f: Option<(nat, string)>)
    ensures f.Some? ==> f.value.0 < 1000
  {
    var k := DigitRun(t);
    if k < 1 || k > 3 then None
    else
      var u := TrimStart(t[k..]);
      if |u| > 0 && u[0] == close then
        DigitRunSpec(t);
        DecimalBelow(t[..k]);
        Some((DecimalValue(t[..k]), u[1..]))
      else None
  }

  lemma {:induction false} DecimalBelow(d: string)
    requires AllDigits(d) && |d| <= 3
    ensures DecimalValue(d) < 1000
    ensures |d| <= 2 ==> DecimalValue(d) < 100
    ensures |d| <= 1 ==> DecimalValue(d) < 10
  {
    if |d| > 0 {
      DecimalBelow(d[..|d| - 1]);
    }
  }

  /** The pattern matched from just after `rgb(`. */
  function MatchRgb(s: string): Option<(nat, nat, nat)>
  {
    match Field(s, ',')
    case None => None
    case Some(r) =>
      match Field(r.1, ',')
      case None => None
      case Some(g) =>
        match Field(g.1, ')')
        case None => None
        case Some(b) => Some((r.0, g.0, b.0))
  }

  /** The leftmost match of the pattern anywhere in `s` (it is not
      anchored). */
  function SearchRgb(s: string): Option<(nat, nat, nat)>
    decreases |s|
  {
    if |s| == 0 then None
    else if StartsWith(s, "rgb(") && MatchRgb(s[4..]).Some? then MatchRgb(s[4..])
    else SearchRgb(s[1..])
  }

  /** `Math.min(255, Math.max(0, n))`. */
  function Clamp(n: int): (c: int)
    ensures 0 <= c <= 255
    ensures 0 <= n <= 255 ==> c == n
    ensures n > 255 ==> c == 255
  {
    if n < 0 then 0 else if n > 255 then 255 else n
  }

  /** `parseRgbString(rgbStr)`: the three captured channels, each clamped to
      [0, 255]; no match is an error. */
  function ParseRgbString(s: string): (res: Result<Rgb>)
    ensures res.Err? <==> SearchRgb(s).None?
    ensures res.Err? ==> res.error == InvalidRgbString
    ensures res.Ok? ==> InByteRange(res.value)
  {
    match SearchRgb(s)
    case None => Err(InvalidRgbString)
    case Some(t) => Ok(Rgb(Clamp(t.0), Clamp(t.1), Clamp(t.2)))
  }

  /** The text a colour is written as: `rgb(${r}, ${g}, ${b})`. */
  function RgbString(c: Rgb): string
  {
    "rgb(" + IntToString(c.r) + ", " + IntToString(c.g) + ", " + IntToString(c.b) + ")"
  }

  lemma TrimLeadingSpace(s: string)
    ensures TrimStart(" " + s) == TrimStart(s)
  {
    assert (" " + s)[1..] == s;
  }

  /** A numeral of at most three digits, then `close`, is one field. */
  lemma FieldOfNumeral(n: nat, close: char, rest: string)
    requires n < 1000 && !IsDigit(close) && !IsSpace(close)
    ensures Field(NatToString(n) + [close] + rest, close) == Some((n, rest))
  {
    NatToStringDigits(n);
    var d := NatToString(n);
    var tail := [close] + rest;
    var s := d + tail;
    assert d + [close] + rest == s;
    assert s[0] == d[0] && !IsSpace(s[0]);
    assert TrimStart(s) == s;
    DigitRunOfDigits(d, tail);
    assert s[..|d|] == d && s[|d|..] == tail;
    assert TrimStart(tail) == tail;
    assert tail[1..] == rest;
  }

  /** The same field after one blank. */
  lemma NextField(t: string, n: nat, close: char, rest: string)
    requires t == NatToString(n) + [close] + rest
    requires n < 1000 && !IsDigit(close) && !IsSpace(close)
    ensures Field(" " + t, close) == Some((n, rest))
  {
    TrimLeadingSpace(t);
    assert Field(" " + t, close) == Field(t, close);
    FieldOfNumeral(n, close, rest);
  }

  lemma MatchOfFields(text: string, restR: string, restG: string, r: nat, g: nat, b: nat)
    requires Field(text, ',') == Some((r, restR))
    requires Field(restR, ',') == Some((g, restG))
    requires Field(restG, ')') == Some((b, ""))
    ensures MatchRgb(text) == Some((r, g, b))
  {
  }

  /** The channel text split where the fields end. */
  lemma Regroup(R: string, G: string, B: string)
    ensures R + ", " + G + ", " + B + ")" == R + [','] + (" " + (G + [','] + (" " + (B + [')'] + ""))))
  {
  }

  lemma MatchOfNumerals(r: nat, g: nat, b: nat)
    requires r < 1000 && g < 1000 && b < 1000
    ensures MatchRgb(NatToString(r) + [','] + (" " + (NatToString(g) + [','] + (" " + (NatToString(b) + [')'] + ""))))) == Some((r, g, b))
  {
    var R, G, B := NatToString(r), NatToString(g), NatToString(b);
    var tB := B + [')'] + "";
    var restG := " " + tB;
    var tG := G + [','] + restG;
    var restR := " " + tG;
    FieldOfNumeral(r, ',', restR);
    NextField(tG, g, ',', restG);
    NextField(tB, b, ')', "");
    MatchOfFields(R + [','] + restR, restR, restG, r, g, b);
  }

  /** Any three numerals of at most three digits, written as `RgbString`
      writes them, parse back clamped. */
  lemma NumeralsParse(r: nat, g: nat, b: nat)
    requires r < 1000 && g < 1000 && b < 1000
    ensures ParseRgbString(RgbString(Rgb(r, g, b))) == Ok(Rgb(Clamp(r), Clamp(g), Clamp(b)))
  {
    var R, G, B := NatToString(r), NatToString(g), NatToString(b);
    assert IntToString(r) == R && IntToString(g) == G && IntToString(b) == B;
    var s := RgbString(Rgb(r, g, b));
    var body := R + ", " + G + ", " + B + ")";
    assert s == "rgb(" + body;
    assert s[4..] == body;
    Regroup(R, G, B);
    MatchOfNumerals(r, g, b);
  }

  /** Round trip: every colour with byte channels, written by `RgbString`,
      is read back unchanged by `parseRgbString`. */
  lemma RgbStringRoundTrip(c: Rgb)
    requires InByteRange(c)
    ensures ParseRgbString(RgbString(c)) == Ok(c)
  {
    NumeralsParse(c.r, c.g, c.b);
  }

  lemma ChannelNumerals()
    ensures IntToString(255) == "255" && IntToString(0) == "0" && IntToString(300) == "300"
  {
    assert NatToString(25) == NatToString(2) + "5";
    assert NatToString(255) == NatToString(25) + "5";
    assert NatToString(30) == NatToString(3) + "0";
    assert NatToString(300) == NatToString(30) + "0";
  }

  // The unit-test strings parse to their colours.

  lemma RedRgbString()
    ensures ParseRgbString("rgb(255, 0, 0)") == Ok(Rgb(255, 0, 0))
  {
    ChannelNumerals();
    assert RgbString(Rgb(255, 0, 0)) == "rgb(255, 0, 0)";
    RgbStringRoundTrip(Rgb(255, 0, 0));
  }

  lemma GreenRgbString()
    ensures ParseRgbString("rgb(0, 255, 0)") == Ok(Rgb(0, 255, 0))
  {
    ChannelNumerals();
    assert RgbString(Rgb(0, 255, 0)) == "rgb(0, 255, 0)";
    RgbStringRoundTrip(Rgb(0, 255, 0));
  }

  lemma BlueRgbString()
    ensures ParseRgbString("rgb(0, 0, 255)") == Ok(Rgb(0, 0, 255))
  {
    ChannelNumerals();
    assert RgbString(Rgb(0, 0, 255)) == "rgb(0, 0, 255)";
    RgbStringRoundTrip(Rgb(0, 0, 255));
  }

  lemma YellowRgbString()
    ensures ParseRgbString("rgb(255, 255, 0)") == Ok(Rgb(255, 255, 0))
  {
    ChannelNumerals();
    assert RgbString(Rgb(255, 255, 0)) == "rgb(255, 255, 0)";
    RgbStringRoundTrip(Rgb(255, 255, 0));
  }

  lemma MagentaRgbString()
    ensures ParseRgbString("rgb(255, 0, 255)") == Ok(Rgb(255, 0, 255))
  {
    ChannelNumerals();
    assert RgbString(Rgb(255, 0, 255)) == "rgb(255, 0, 255)";
    RgbStringRoundTrip(Rgb(255, 0, 255));
  }

  /** Channels above 255 are clamped. */
  lemma RgbClamped()
    ensures ParseRgbString("rgb(300, 0, 0)") == Ok(Rgb(255, 0, 0))
  {
    ChannelNumerals();
    assert RgbString(Rgb(300, 0, 0)) == "rgb(300, 0, 0)";
    NumeralsParse(300, 0, 0);
  }

  /** Text without an `r` holds no match. */
  lemma {:induction false} NoMatchWithoutR(s: string)
    requires 'r' !in s
    ensures SearchRgb(s) == None
    decreases |s|
  {
    if |s| > 0 {
      assert s[0] != 'r';
      assert !StartsWith(s, "rgb(");
      NoMatchWithoutR(s[1..]);
    }
  }

  /** A negative channel does not match the pattern. */
  lemma NegativeChannelRejected()
    ensures ParseRgbString("rgb(-5, 0, 0)") == Err(InvalidRgbString)
  {
    var s := "rgb(-5, 0, 0)";
    assert s[4..] == "-5, 0, 0)";
    assert TrimStart("-5, 0, 0)") == "-5, 0, 0)";
    assert DigitRun("-5, 0, 0)") == 0;
    assert MatchRgb(s[4..]) == None;
    NoMatchWithoutR(s[1..]);
  }

  /** A field of more than three digits does not match. */
  lemma LongFieldRejected(d: string, rest: string, close: char)
    requires AllDigits(d) && |d| > 3 && (|rest| == 0 || !IsDigit(rest[0]))
    ensures Field(d + rest, close) == None
  {
    assert (d + rest)[0] == d[0];
    assert TrimStart(d + rest) == d + rest;
    DigitRunOfDigits(d, rest);
  }

  /** The pieces of the four-digit example. */
  lemma LongChannelText()
    ensures "rgb(1000, 0, 0)"[4..] == "1000" + ", 0, 0)"
    ensures 'r' !in "rgb(1000, 0, 0)"[1..]
  {
  }

  /** Nor does a channel of four digits. */
  lemma LongChannelRejected()
    ensures ParseRgbString("rgb(1000, 0, 0)") == Err(InvalidRgbString)
  {
    var s := "rgb(1000, 0, 0)";
    LongChannelText();
    LongFieldRejected("1000", ", 0, 0)", ',');
    assert MatchRgb(s[4..]) == None;
    NoMatchWithoutR(s[1..]);
  }

  // ---------------------------------------------------------------------
  // Numbers: Math.round, Math.abs, the remainder operator

  /** `Math.round(x)`: the nearest integer, halves rounded up. */
  function Round(x: real): int
  {
    (x + 0.5).Floor
  }

  lemma RoundWithin(x: real, lo: int, hi: int)
    requires lo as real <= x <= hi as real
    ensures lo <= Round(x) <= hi
  {
  }

  function Abs(x: real): (a: real)
    ensures a >= 0.0 && (a == x || a == -x)
  {
    if x < 0.0 then -x else x
  }

  /** `a % 360` on integers: the remainder of truncating division, with the
      sign of `a`. */
  function HueRemainder(a: int): (r: int)
    ensures 0 <= a ==> 0 <= r < 360
    ensures 0 <= a < 360 ==> r == a
    ensures -360 < r < 360
  {
    if a >= 0 then a % 360 else -((-a) % 360)
  }

  /** `x % m` on numbers: `x` minus the multiple of `m` truncated toward
      zero, so the result has the sign of `x`. */
  function RealRemainder(x: real, m: real): (r: real)
    requires m > 0.0
  {
    if x >= 0.0 then x - Times((x / m).Floor as real, m)
    else -(-x - Times((-x / m).Floor as real, m))
  }

  lemma TimesPositive(a: real, b: real)
    requires a > 0.0 && b > 0.0
    ensures Times(a, b) > 0.0
  {
  }

  lemma TimesMonotone(a: real, c: real, m: real)
    requires a <= c && m > 0.0
    ensures Times(a, m) <= Times(c, m)
    ensures a < c ==> Times(a, m) < Times(c, m)
  {
    assert Times(c, m) - Times(a, m) == Times(c - a, m);
    if a < c {
      TimesPositive(c - a, m);
    }
  }

  lemma QuotientBelowOne(x: real, m: real)
    requires 0.0 <= x < m
    ensures 0.0 <= x / m < 1.0
  {
    assert Times(x / m, m) == x;
    if x / m >= 1.0 {
      TimesMonotone(1.0, x / m, m);
    }
    if x / m < 0.0 {
      TimesMonotone(x / m, 0.0, m);
    }
  }

  lemma FloorTimes(y: real, m: real)
    requires y >= 0.0 && m > 0.0
    ensures 0.0 <= y - Times((y / m).Floor as real, m) < m
  {
    var q := (y / m).Floor as real;
    assert q <= y / m < q + 1.0;
    TimesMonotone(q, y / m, m);
    TimesMonotone(y / m, q + 1.0, m);
    assert Times(y / m, m) == y;
    assert Times(q + 1.0, m) == Times(q, m) + m;
  }

  /** The remainder has the sign of `x`, is smaller than `m` in magnitude,
      and is `x` itself when `x` already is. */
  lemma RealRemainderRange(x: real, m: real)
    requires m > 0.0
    ensures 0.0 <= x ==> 0.0 <= RealRemainder(x, m) < m
    ensures x < 0.0 ==> -m < RealRemainder(x, m) <= 0.0
    ensures -m < x < m ==> RealRemainder(x, m) == x
  {
    if x >= 0.0 {
      RemainderOfNonNegative(x, m);
    } else {
      RemainderOfNonNegative(-x, m);
      assert RealRemainder(x, m) == -RealRemainder(-x, m);
    }
  }

  lemma RemainderOfNonNegative(y: real, m: real)
    requires y >= 0.0 && m > 0.0
    ensures 0.0 <= RealRemainder(y, m) < m
    ensures y < m ==> RealRemainder(y, m) == y
  {
    FloorTimes(y, m);
    if y < m {
      QuotientBelowOne(y, m);
    }
  }

  // ---------------------------------------------------------------------
  // rgbToHsl and hslToRgb, over exact reals

  function Max3(a: real, b: real, c: real): (m: real)
    ensures (m == a || m == b || m == c) && a <= m && b <= m && c <= m
  {
    if a >= b && a >= c then a else if b >= c then b else c
  }

  function Min3(a: real, b: real, c: real): (m: real)
    ensures (m == a || m == b || m == c) && m <= a && m <= b && m <= c
  {
    if a <= b && a <= c then a else if b <= c then b else c
  }

  /** The lightness `rgbToHsl` computes, in percent; it needs no division
      by a channel difference, so it is defined for all channel values. */
  function Lightness(r: int, g: int, b: int): int
  {
    var rr, gg, bb := r as real / 255.0, g as real / 255.0, b as real / 255.0;
    Round((Max3(rr, gg, bb) + Min3(rr, gg, bb)) / 2.0 * 100.0)
  }

  /** `rgbToHsl(r, g, b)` on its documented domain of byte channels (outside
      it a saturation denominator can be zero). The hue is taken from the
      first channel, in the order r, g, b, that equals the maximum. */
  function RgbToHsl(r: int, g: int, b: int): Hsl
    requires InByteRange(Rgb(r, g, b))
  {
    var rr, gg, bb := r as real / 255.0, g as real / 255.0, b as real / 255.0;
    var max := Max3(rr, gg, bb);
    var min := Min3(rr, gg, bb);
    var delta := max - min;
    var l := (max + min) / 2.0;
    if delta == 0.0 then Hsl(0, 0, Round(l * 100.0))
    else
      var s := if l > 0.5 then delta / (2.0 - max - min) else delta / (max + min);
      var h :=
        if max == rr then RealRemainder((gg - bb) / delta, 6.0)
        else if max == gg then (bb - rr) / delta + 2.0
        else (rr - gg) / delta + 4.0;
      var degrees := Round(h * 60.0);
      Hsl(if degrees < 0 then degrees + 360 else degrees, Round(s * 100.0), Round(l * 100.0))
  }

  /** Which of chroma `c`, intermediate `x` and zero go to r, g and b in each
      60-degree sector of the hue. */
  function Sector(h: int, c: real, x: real): (real, real, real)
  {
    if 0 <= h < 60 then (c, x, 0.0)
    else if 60 <= h < 120 then (x, c, 0.0)
    else if 120 <= h < 180 then (0.0, c, x)
    else if 180 <= h < 240 then (0.0, x, c)
    else if 240 <= h < 300 then (x, 0.0, c)
    else (c, 0.0, x)
  }

  /** `hslToRgb(h, s, l)` with integer arguments, as every caller passes. */
  function HslToRgb(h: int, s: int, l: int): Rgb
  {
    var hue := HueRemainder(h);
    var sf := s as real / 100.0;
    var lf := l as real / 100.0;
    var c := Times(1.0 - Abs(2.0 * lf - 1.0), sf);
    var x := Times(c, 1.0 - Abs(RealRemainder(hue as real / 60.0, 2.0) - 1.0));
    var m := lf - c / 2.0;
    var t := Sector(hue, c, x);
    Rgb(Round((t.0 + m) * 255.0), Round((t.1 + m) * 255.0), Round((t.2 + m) * 255.0))
  }

  // The unit-test colours, converted both ways: the primary and secondary
  // hues at full saturation and half lightness.

  /** At full saturation and half lightness the chroma is 1 and the offset
      0, so each channel is 255 times the sector's share. */
  lemma PureHue(h: int, x: real)
    requires 0 <= h < 360 && x == 1.0 - Abs(RealRemainder(h as real / 60.0, 2.0) - 1.0)
    ensures HslToRgb(h, 100, 50) ==
      Rgb(Round(Sector(h, 1.0, x).0 * 255.0), Round(Sector(h, 1.0, x).1 * 255.0), Round(Sector(h, 1.0, x).2 * 255.0))
  {
    assert HueRemainder(h) == h;
    assert Times(1.0 - Abs(2.0 * 0.5 - 1.0), 1.0) == 1.0;
    assert Times(1.0, x) == x;
  }

  lemma RedFromHsl()
    ensures HslToRgb(0, 100, 50) == Rgb(255, 0, 0)
  {
    assert 0.0 / 60.0 == 0.0 && (0.0 / 2.0).Floor == 0;
    PureHue(0, 0.0);
    assert Round(255.0) == 255 && Round(0.0) == 0;
  }

  lemma RedToHsl()
    ensures RgbToHsl(255, 0, 0) == Hsl(0, 100, 50)
  {
    assert 255 as real / 255.0 == 1.0 && 0 as real / 255.0 == 0.0;
    assert RealRemainder(0.0, 6.0) == 0.0 && Round(0.0) == 0;
    assert Round(100.0) == 100 && Round(50.0) == 50;
  }

  lemma GreenFromHsl()
    ensures HslToRgb(120, 100, 50) == Rgb(0, 255, 0)
  {
    assert 120.0 / 60.0 == 2.0 && (2.0 / 2.0).Floor == 1;
    PureHue(120, 0.0);
    assert Round(255.0) == 255 && Round(0.0) == 0;
  }

  lemma GreenToHsl()
    ensures RgbToHsl(0, 255, 0) == Hsl(120, 100, 50)
  {
    assert 255 as real / 255.0 == 1.0 && 0 as real / 255.0 == 0.0;
    assert Round(120.0) == 120;
    assert Round(100.0) == 100 && Round(50.0) == 50;
  }

  lemma BlueFromHsl()
    ensures HslToRgb(240, 100, 50) == Rgb(0, 0, 255)
  {
    assert 240.0 / 60.0 == 4.0 && (4.0 / 2.0).Floor == 2;
    PureHue(240, 0.0);
    assert Round(255.0) == 255 && Round(0.0) == 0;
  }

  lemma BlueToHsl()
    ensures RgbToHsl(0, 0, 255) == Hsl(240, 100, 50)
  {
    assert 255 as real / 255.0 == 1.0 && 0 as real / 255.0 == 0.0;
    assert Round(240.0) == 240;
    assert Round(100.0) == 100 && Round(50.0) == 50;
  }

  lemma YellowFromHsl()
    ensures HslToRgb(60, 100, 50) == Rgb(255, 255, 0)
  {
    assert 60.0 / 60.0 == 1.0 && (1.0 / 2.0).Floor == 0;
    PureHue(60, 1.0);
    assert Round(255.0) == 255 && Round(0.0) == 0;
  }

  lemma YellowToHsl()
    ensures RgbToHsl(255, 255, 0) == Hsl(60, 100, 50)
  {
    var rr, gg, bb := 255 as real / 255.0, 255 as real / 255.0, 0 as real / 255.0;
    assert rr == 1.0 && gg == 1.0 && bb == 0.0;
    assert Max3(rr, gg, bb) == rr && Min3(rr, gg, bb) == bb;
    var delta := Max3(rr, gg, bb) - Min3(rr, gg, bb);
    assert delta == 1.0 && (Max3(rr, gg, bb) + Min3(rr, gg, bb)) / 2.0 == 0.5;
    assert delta / (Max3(rr, gg, bb) + Min3(rr, gg, bb)) == 1.0;
    assert (gg - bb) / delta == 1.0;
    assert RealRemainder(1.0, 6.0) == 1.0;
    assert Round(1.0 * 60.0) == 60 && Round(1.0 * 100.0) == 100 && Round(0.5 * 100.0) == 50;
  }

  lemma MagentaFromHsl()
    ensures HslToRgb(300, 100, 50) == Rgb(255, 0, 255)
  {
    assert 300.0 / 60.0 == 5.0 && (5.0 / 2.0).Floor == 2;
    PureHue(300, 1.0);
    assert Round(255.0) == 255 && Round(0.0) == 0;
  }

  lemma MagentaToHsl()
    ensures RgbToHsl(255, 0, 255) == Hsl(300, 100, 50)
  {
    var rr, gg, bb := 255 as real / 255.0, 0 as real / 255.0, 255 as real / 255.0;
    assert rr == 1.0 && gg == 0.0 && bb == 1.0;
    assert Max3(rr, gg, bb) == rr && Min3(rr, gg, bb) == gg;
    var delta := Max3(rr, gg, bb) - Min3(rr, gg, bb);
    assert delta == 1.0 && (Max3(rr, gg, bb) + Min3(rr, gg, bb)) / 2.0 == 0.5;
    assert delta / (Max3(rr, gg, bb) + Min3(rr, gg, bb)) == 1.0;
    assert (gg - bb) / delta == -1.0 && RealRemainder(-1.0, 6.0) == -1.0;
    assert Round(-1.0 * 60.0) == -60;
    assert Round(1.0 * 100.0) == 100 && Round(0.5 * 100.0) == 50;
  }

  // ---------------------------------------------------------------------
  // Output ranges of the conversions

  /** A ratio of a magnitude to a larger positive one. */
  lemma RatioWithin(a: real, d: real)
    requires d > 0.0 && -d <= a <= d
    ensures -1.0 <= a / d <= 1.0
    ensures 0.0 <= a ==> 0.0 <= a / d
  {
    assert Times(a / d, d) == a;
    if a / d > 1.0 {
      TimesMonotone(1.0, a / d, d);
    }
    if a / d < -1.0 {
      TimesMonotone(a / d, -1.0, d);
    }
    if 0.0 <= a && a / d < 0.0 {
      TimesMonotone(a / d, 0.0, d);
    }
  }

  lemma LightnessRange(r: int, g: int, b: int)
    requires InByteRange(Rgb(r, g, b))
    ensures 0 <= Lightness(r, g, b) <= 100
  {
    var rr, gg, bb := r as real / 255.0, g as real / 255.0, b as real / 255.0;
    RoundWithin((Max3(rr, gg, bb) + Min3(rr, gg, bb)) / 2.0 * 100.0, 0, 100);
  }

  /** `rgbToHsl` gives a hue in [0, 360) and a saturation and lightness in
      [0, 100]; its lightness is `Lightness`; grey input has hue and
      saturation 0. */
  lemma RgbToHslRange(r: int, g: int, b: int)
    requires InByteRange(Rgb(r, g, b))
    ensures 0 <= RgbToHsl(r, g, b).h < 360
    ensures 0 <= RgbToHsl(r, g, b).s <= 100
    ensures RgbToHsl(r, g, b).l == Lightness(r, g, b)
    ensures 0 <= RgbToHsl(r, g, b).l <= 100
    ensures r == g == b ==> RgbToHsl(r, g, b).h == 0 && RgbToHsl(r, g, b).s == 0
  {
    LightnessRange(r, g, b);
    SaturationRange(r, g, b);
    HueRange(r, g, b);
  }

  lemma SaturationRange(r: int, g: int, b: int)
    requires InByteRange(Rgb(r, g, b))
    ensures 0 <= RgbToHsl(r, g, b).s <= 100
  {
    var rr, gg, bb := r as real / 255.0, g as real / 255.0, b as real / 255.0;
    var max := Max3(rr, gg, bb);
    var min := Min3(rr, gg, bb);
    var delta := max - min;
    var l := (max + min) / 2.0;
    if delta != 0.0 {
      var s := if l > 0.5 then delta / (2.0 - max - min) else delta / (max + min);
      if l > 0.5 {
        RatioWithin(delta, 2.0 - max - min);
      } else {
        RatioWithin(delta, max + min);
      }
      RoundWithin(s * 100.0, 0, 100);
    }
  }

  lemma HueRange(r: int, g: int, b: int)
    requires InByteRange(Rgb(r, g, b))
    ensures 0 <= RgbToHsl(r, g, b).h < 360
  {
    var rr, gg, bb := r as real / 255.0, g as real / 255.0, b as real / 255.0;
    var max := Max3(rr, gg, bb);
    var min := Min3(rr, gg, bb);
    var delta := max - min;
    if delta != 0.0 {
      var h :=
        if max == rr then RealRemainder((gg - bb) / delta, 6.0)
        else if max == gg then (bb - rr) / delta + 2.0
        else (rr - gg) / delta + 4.0;
      if max == rr {
        RatioWithin(gg - bb, delta);
        RealRemainderRange((gg - bb) / delta, 6.0);
        RoundWithin(h * 60.0, -60, 60);
      } else if max == gg {
        RatioWithin(bb - rr, delta);
        RoundWithin(h * 60.0, 60, 180);
      } else {
        RatioWithin(rr - gg, delta);
        RoundWithin(h * 60.0, 180, 300);
      }
    }
  }

  /** A fraction of a non-negative amount is at most that amount. */
  lemma FractionOf(a: real, f: real)
    requires 0.0 <= a && 0.0 <= f <= 1.0
    ensures 0.0 <= Times(a, f) <= a
  {
    assert Times(a, f) == Times(f, a);
    assert a == Times(1.0, a);
    if a > 0.0 {
      TimesMonotone(f, 1.0, a);
      TimesMonotone(0.0, f, a);
    }
  }

  lemma ChannelWithin(v: real, m: real)
    requires 0.0 <= v + m <= 1.0
    ensures 0 <= Round((v + m) * 255.0) <= 255
  {
    RoundWithin((v + m) * 255.0, 0, 255);
  }

  /** For a non-negative hue and a saturation and lightness in [0, 100],
      `hslToRgb` gives byte channels. */
  lemma HslToRgbRange(h: int, s: int, l: int)
    requires 0 <= h && 0 <= s <= 100 && 0 <= l <= 100
    ensures InByteRange(HslToRgb(h, s, l))
  {
    var hue := HueRemainder(h);
    var sf := s as real / 100.0;
    var lf := l as real / 100.0;
    var a := 1.0 - Abs(2.0 * lf - 1.0);
    var c := Times(a, sf);
    FractionOf(a, sf);
    var q := RealRemainder(hue as real / 60.0, 2.0);
    RealRemainderRange(hue as real / 60.0, 2.0);
    var f := 1.0 - Abs(q - 1.0);
    var x := Times(c, f);
    FractionOf(c, f);
    var m := lf - c / 2.0;
    assert 0.0 <= m && c + m <= 1.0;
    var t := Sector(hue, c, x);
    ChannelWithin(t.0, m);
    ChannelWithin(t.1, m);
    ChannelWithin(t.2, m);
  }

  // ---------------------------------------------------------------------
  // calculateFontColor and getRandomBackgroundColor

  /** The window `[min, max]` the foreground lightness is drawn from: 30 to
      60 points lighter than a dark background, 30 to 60 points darker than
      a light one, cut to [0, 100]. */
  function LightnessWindow(bgL: int): (w: (int, int))
    ensures w.0 <= w.1
    ensures 0 <= bgL <= 100 ==> 0 <= w.0 && w.1 <= 100
  {
    if bgL < 50 then (bgL + 30, if 100 < bgL + 60 then 100 else bgL + 60)
    else (if 0 > bgL - 60 then 0 else bgL - 60, bgL - 30)
  }

  /** For a background lightness in [0, 100], the window holds exactly the
      lightnesses of [0, 100] that lie 30 to 60 points away from it, on the
      lighter side of a background below 50 and on the darker side
      otherwise. */
  lemma ContrastOfWindow(bgL: int, l: int)
    requires 0 <= bgL <= 100
    ensures LightnessWindow(bgL).0 <= l <= LightnessWindow(bgL).1 <==>
      0 <= l <= 100 && if bgL < 50 then 30 <= l - bgL <= 60 else 30 <= bgL - l <= 60
  {
  }

  function ByteChannels(c: Rgb): Channels
  {
    Channels(Value(c.r), Value(c.g), Value(c.b))
  }

  /** The three channels as integers, or `None` when one of them is NaN. */
  function ChannelValues(ch: Channels): (c: Option<Rgb>)
    ensures c.Some? ==> ByteChannels(c.value) == ch
  {
    if ch.r.Value? && ch.g.Value? && ch.b.Value? then Some(Rgb(ch.r.n, ch.g.n, ch.b.n)) else None
  }

  /** The background colour read by `calculateFontColor`: `#...` goes to
      `hexToRgb`, other text starting with `rgb` to `parseRgbString`,
      anything else is an unsupported format. */
  function BackgroundChannels(bg: string): (res: Result<Channels>)
    ensures res.Err? ==>
      res.error == if StartsWith(bg, "#") then InvalidHexColor
                   else if StartsWith(bg, "rgb") then InvalidRgbString
                   else UnsupportedColorFormat
    ensures !StartsWith(bg, "#") && !StartsWith(bg, "rgb") ==> res.Err?
    ensures !StartsWith(bg, "#") && StartsWith(bg, "rgb") && res.Ok? ==>
      ChannelValues(res.value).Some? && InByteRange(ChannelValues(res.value).value)
  {
    if StartsWith(bg, "#") then HexToRgb(bg)
    else if StartsWith(bg, "rgb") then
      match ParseRgbString(bg)
      case Err(e) => Err(e)
      case Ok(c) => Ok(ByteChannels(c))
    else Err(UnsupportedColorFormat)
  }

  /** The draws `calculateFontColor` makes for a background of lightness
      `bgL`: hue from [0, 360], saturation from [70, 100], lightness from
      the window. */
  predicate ForegroundDraw(bgL: int, hue: int, sat: int, light: int)
  {
    && 0 <= hue <= 360
    && 70 <= sat <= 100
    && LightnessWindow(bgL).0 <= light <= LightnessWindow(bgL).1
  }

  /** `fg` is a colour `calculateFontColor` can return for background
      lightness `bgL`. */
  ghost predicate FontColorFor(bgL: int, fg: string)
  {
    exists hue: int, sat: int, light: int ::
      ForegroundDraw(bgL, hue, sat, light) && fg == RgbString(HslToRgb(hue, sat, light))
  }

  /** `fg` is a colour `calculateFontColor(bg)` can return. A NaN channel (a
      hex slice without a hexadecimal digit) makes every later number NaN,
      and the result is then `rgb(NaN, NaN, NaN)`. */
  ghost predicate FontColorResult(bg: string, fg: string)
  {
    && BackgroundChannels(bg).Ok?
    && match ChannelValues(BackgroundChannels(bg).value)
       case None => fg == "rgb(NaN, NaN, NaN)"
       case Some(c) => FontColorFor(Lightness(c.r, c.g, c.b), fg)
  }

  /** `fg` is what `calculateFontColor(bg)` returns when its hue, saturation
      and lightness draws were `d`. */
  ghost predicate FontColorDrawn(bg: string, d: Hsl, fg: string)
  {
    && BackgroundChannels(bg).Ok?
    && match ChannelValues(BackgroundChannels(bg).value)
       case None => fg == "rgb(NaN, NaN, NaN)"
       case Some(c) =>
         ForegroundDraw(Lightness(c.r, c.g, c.b), d.h, d.s, d.l) && fg == RgbString(HslToRgb(d.h, d.s, d.l))
  }

  /** A colour produced by some draws is a colour `calculateFontColor` can
      return. */
  lemma FontColorDrawnResult(bg: string, d: Hsl, fg: string)
    requires FontColorDrawn(bg, d, fg)
    ensures FontColorResult(bg, fg)
  {
    match ChannelValues(BackgroundChannels(bg).value)
    case None =>
    case Some(c) =>
      assert ForegroundDraw(Lightness(c.r, c.g, c.b), d.h, d.s, d.l);
  }

  /** `calculateFontColor(bgColor)`. The ghost `drawn` records the draws. */
  method CalculateFontColor(bg: string) returns (res: Result<string>, ghost drawn: Hsl)
    ensures BackgroundChannels(bg).Err? ==> res == Err(BackgroundChannels(bg).error)
    ensures BackgroundChannels(bg).Ok? ==> res.Ok? && FontColorResult(bg, res.value)
    ensures BackgroundChannels(bg).Ok? ==> FontColorDrawn(bg, drawn, res.value)
  {
    drawn := Hsl(0, 0, 0);
    var channels := BackgroundChannels(bg);
    if channels.Err? {
      return Err(channels.error), drawn;
    }
    var values := ChannelValues(channels.value);
    if values.None? {
      return Ok("rgb(NaN, NaN, NaN)"), drawn;
    }
    var c := values.value;
    var bgL := Lightness(c.r, c.g, c.b);
    var window := LightnessWindow(bgL);
    var light := Random.RandomIntBetween(window.0, window.1);
    var hue := Random.RandomIntBetween(0, 360);
    var sat := Random.RandomIntBetween(70, 100);
    var fg := HslToRgb(hue, sat, light);
    assert ForegroundDraw(bgL, hue, sat, light);
    drawn := Hsl(hue, sat, light);
    return Ok(RgbString(fg)), drawn;
  }

  /** What the contract of `CalculateFontColor` promises for a background in
      range: the foreground lightness lies 30 to 60 points from the
      background's on the side away from it, and the colour has byte
      channels that `parseRgbString` reads back. */
  lemma ForegroundContrast(bgL: int, hue: int, sat: int, light: int)
    requires 0 <= bgL <= 100 && ForegroundDraw(bgL, hue, sat, light)
    ensures 0 <= light <= 100
    ensures bgL < 50 ==> 30 <= light - bgL <= 60
    ensures bgL >= 50 ==> 30 <= bgL - light <= 60
    ensures InByteRange(HslToRgb(hue, sat, light))
    ensures ParseRgbString(RgbString(HslToRgb(hue, sat, light))) == Ok(HslToRgb(hue, sat, light))
  {
    ContrastOfWindow(bgL, light);
    HslToRgbRange(hue, sat, light);
    RgbStringRoundTrip(HslToRgb(hue, sat, light));
  }

  /** The draws of `getRandomBackgroundColor`. */
  predicate BackgroundDraw(hue: int, sat: int, light: int)
  {
    0 <= hue <= 360 && 30 <= sat <= 80 && 50 <= light <= 80
  }

  ghost predicate RandomBackground(bg: string)
  {
    exists hue: int, sat: int, light: int ::
      BackgroundDraw(hue, sat, light) && bg == RgbString(HslToRgb(hue, sat, light))
  }

  /** `getRandomBackgroundColor()`; the ghost `drawn` records the draws. */
  method GetRandomBackground() returns (bg: string, ghost drawn: Hsl)
    ensures BackgroundDraw(drawn.h, drawn.s, drawn.l) && bg == RgbString(HslToRgb(drawn.h, drawn.s, drawn.l))
    ensures RandomBackground(bg)
  {
    var hue := Random.RandomIntBetween(0, 360);
    var sat := Random.RandomIntBetween(30, 80);
    var light := Random.RandomIntBetween(50, 80);
    drawn := Hsl(hue, sat, light);
    bg := RgbString(HslToRgb(hue, sat, light));
    assert BackgroundDraw(hue, sat, light);
  }

  lemma RgbStringPrefix(c: Rgb)
    ensures StartsWith(RgbString(c), "rgb") && !StartsWith(RgbString(c), "#")
  {
    assert RgbString(c)[..3] == "rgb";
    assert RgbString(c)[..1] == "r";
  }

  /** A random background is accepted by `calculateFontColor`: it starts
      with `rgb`, and its byte channels are read back unchanged. */
  lemma RandomBackgroundAccepted(hue: int, sat: int, light: int)
    requires BackgroundDraw(hue, sat, light)
    ensures InByteRange(HslToRgb(hue, sat, light))
    ensures BackgroundChannels(RgbString(HslToRgb(hue, sat, light))) == Ok(ByteChannels(HslToRgb(hue, sat, light)))
  {
    var c := HslToRgb(hue, sat, light);
    HslToRgbRange(hue, sat, light);
    RgbStringRoundTrip(c);
    RgbStringPrefix(c);
  }
}
