/** The `Captcha` class: option defaults, the character set, the content and
    its answer, the resolution of the image size and the scale, and the
    assembly of the SVG document from the background rectangle, the glyph
    group and the noise lines. The font is the outcome of the load the
    constructor starts; numbers in SVG attributes are written by `show`. */
module CaptchaGenerator {
  import opened Results
  import opened JsText
  import Random
  import Formula
  import Color
  import FontPath

  /** A font whose ascent lies above its descent, so that the natural height
      of a text is positive. */
  type UsableFont = f: FontPath.Font | f.ascent > f.descent
    witness FontPath.Font(1.0, 0.0, _ => [], _ => "")

  /** `CaptchaOptions`: every field may be absent. */
  datatype CaptchaOptions = CaptchaOptions(
    fontPath: Option<string>,
    kind: Option<string>,
    length: Option<real>,
    width: Option<real>,
    height: Option<real>,
    noise: Option<real>,
    noiseWidth: Option<real>,
    chars: Option<string>,
    ignoreChars: Option<string>,
    backgroundColor: Option<string>)

  /** `Required<CaptchaOptions>` as the constructor fills it in. */
  datatype Settings = Settings(
    fontPath: string,
    kind: string,
    backgroundColor: string,
    length: nat,
    width: real,
    height: real,
    noise: real,
    noiseWidth: real,
    chars: string,
    ignoreChars: string)

  datatype Scale = Scale(width: real, height: real)

  /** `CaptchaResult`. */
  datatype CaptchaResult = CaptchaResult(
    value: string,
    svg: string,
    backgroundColor: string,
    width: real,
    height: real,
    scale: Scale)

  /** The bundled font the constructor falls back to. */
  const DefaultFontPath := "../assets/Tagesschrift-Regular.ttf"

  // ---------------------------------------------------------------------
  // Constructor defaults

  /** JavaScript truthiness of an optional string and of an optional number
      (NaN is not modelled). */
  predicate StringGiven(s: Option<string>)
  {
    s.Some? && s.value != ""
  }

  predicate NumberGiven(v: Option<real>)
  {
    v.Some? && v.value != 0.0
  }

  function StringOr(s: Option<string>, fallback: string): string
  {
    if StringGiven(s) then s.value else fallback
  }

  function NumberOr(v: Option<real>, fallback: real): real
  {
    if NumberGiven(v) then v.value else fallback
  }

  /** `#getDefaultChars(options)`: the character set of the requested type,
      the digits when the type is absent or unknown. */
  function DefaultChars(kind: Option<string>): (r: string)
    ensures kind == Some("letter") ==> r == Random.LetterSet
    ensures kind == Some("mix") ==> r == Random.NumberSet + Random.LetterSet
    ensures kind == Some("formula") ==> r == ""
    ensures kind !in {Some("letter"), Some("mix"), Some("formula")} ==> r == Random.NumberSet
  {
    if kind.None? then Random.NumberSet
    else match kind.value
      case "number" => Random.NumberSet
      case "letter" => Random.LetterSet
      case "mix" => Random.NumberSet + Random.LetterSet
      case "formula" => ""
      case _ => Random.NumberSet
  }

  /** The options the constructor stores. `length` reads
      `(options.length || options.type === "formula") ? 2 : 4`. */
  function Defaults(o: CaptchaOptions): (s: Settings)
    ensures s.length == 2 <==> NumberGiven(o.length) || o.kind == Some("formula")
    ensures s.length == 2 || s.length == 4
    ensures s.kind != "" && s.fontPath != "" && s.noise != 0.0 && s.noiseWidth != 0.0
    ensures !StringGiven(o.chars) ==> s.chars == DefaultChars(o.kind)
    ensures !NumberGiven(o.width) ==> s.width == 0.0
    ensures !NumberGiven(o.height) ==> s.height == 0.0
    ensures !StringGiven(o.kind) ==> s.kind == "number"
    ensures !StringGiven(o.fontPath) ==> s.fontPath == DefaultFontPath
    ensures !StringGiven(o.backgroundColor) ==> s.backgroundColor == ""
    ensures !StringGiven(o.ignoreChars) ==> s.ignoreChars == ""
    ensures !NumberGiven(o.noise) ==> s.noise == 1.0
    ensures !NumberGiven(o.noiseWidth) ==> s.noiseWidth == 5.0
    ensures StringGiven(o.fontPath) ==> s.fontPath == o.fontPath.value
    ensures StringGiven(o.kind) ==> s.kind == o.kind.value
    ensures StringGiven(o.chars) ==> s.chars == o.chars.value
    ensures StringGiven(o.backgroundColor) ==> s.backgroundColor == o.backgroundColor.value
    ensures StringGiven(o.ignoreChars) ==> s.ignoreChars == o.ignoreChars.value
    ensures NumberGiven(o.width) ==> s.width == o.width.value
    ensures NumberGiven(o.height) ==> s.height == o.height.value
    ensures NumberGiven(o.noise) ==> s.noise == o.noise.value
    ensures NumberGiven(o.noiseWidth) ==> s.noiseWidth == o.noiseWidth.value
  {
    Settings(
      fontPath := StringOr(o.fontPath, DefaultFontPath),
      kind := StringOr(o.kind, "number"),
      backgroundColor := StringOr(o.backgroundColor, ""),
      length := if NumberGiven(o.length) || o.kind == Some("formula") then 2 else 4,
      width := NumberOr(o.width, 0.0),
      height := NumberOr(o.height, 0.0),
      noise := NumberOr(o.noise, 1.0),
      noiseWidth := NumberOr(o.noiseWidth, 5.0),
      chars := StringOr(o.chars, DefaultChars(o.kind)),
      ignoreChars := StringOr(o.ignoreChars, ""))
  }

  /** An explicit length of 4 still gives 2, and a formula captcha without a
      length gets 2, not 4. */
  lemma LengthPrecedence()
    ensures Defaults(CaptchaOptions(None, None, Some(4.0), None, None, None, None, None, None, None)).length == 2
    ensures Defaults(CaptchaOptions(None, Some("formula"), None, None, None, None, None, None, None, None)).length == 2
    ensures Defaults(CaptchaOptions(None, Some("formula"), Some(3.0), None, None, None, None, None, None, None)).length == 2
    ensures Defaults(CaptchaOptions(None, None, None, None, None, None, None, None, None, None)).length == 4
    ensures Defaults(CaptchaOptions(None, Some("mix"), Some(0.0), None, None, None, None, None, None, None)).length == 4
  {
  }

  // ---------------------------------------------------------------------
  // Text and answer

  /** `chars.split("").filter((c) => !ignoreChars.includes(c)).join("")`. */
  function EffectiveChars(chars: string, ignore: string): (r: string)
    ensures |r| <= |chars|
    ensures forall c :: c in r <==> c in chars && c !in ignore
    decreases |chars|
  {
    if |chars| == 0 then ""
    else
      var rest := EffectiveChars(chars[1..], ignore);
      assert forall c :: c in chars <==> c == chars[0] || c in chars[1..];
      if chars[0] in ignore then rest else [chars[0]] + rest
  }

  /** Filtering keeps the order: it distributes over concatenation, keeps a
      string without ignored characters as it is, and a second filtering
      changes nothing. */
  lemma {:induction false} EffectiveCharsAppend(a: string, b: string, ignore: string)
    ensures EffectiveChars(a + b, ignore) == EffectiveChars(a, ignore) + EffectiveChars(b, ignore)
    decreases |a|
  {
    if |a| == 0 {
      assert a + b == b;
    } else {
      assert (a + b)[0] == a[0] && (a + b)[1..] == a[1..] + b;
      EffectiveCharsAppend(a[1..], b, ignore);
    }
  }

  lemma {:induction false} EffectiveCharsKeeps(chars: string, ignore: string)
    requires forall c :: c in chars ==> c !in ignore
    ensures EffectiveChars(chars, ignore) == chars
    decreases |chars|
  {
    if |chars| > 0 {
      assert forall c :: c in chars[1..] ==> c in chars;
      EffectiveCharsKeeps(chars[1..], ignore);
    }
  }

  lemma EffectiveCharsIdempotent(chars: string, ignore: string)
    ensures EffectiveChars(EffectiveChars(chars, ignore), ignore) == EffectiveChars(chars, ignore)
  {
    EffectiveCharsKeeps(EffectiveChars(chars, ignore), ignore);
  }

  /** `String(evaluateFormula(text))`; `None` when the text is no formula of
      the modelled grammar. */
  function FormulaAnswer(text: string, show: real -> string): Option<string>
  {
    match Formula.Evaluate(text)
    case None => None
    case Some(v) => Some(NumberToString(v, show))
  }

  /** The text and the answer `generate(content)` uses for a given, non-empty
      `content`: the content itself, answered by its value for the formula
      type and by itself otherwise. */
  function ContentAnswer(content: string, kind: string, show: real -> string): (r: Result<(string, string)>)
    ensures r.Ok? ==> r.value.0 == content
    ensures kind != "formula" ==> r == Ok((content, content))
    ensures kind == "formula" ==>
      (r.Err? <==> Formula.Evaluate(content).None?) && (r.Err? ==> r.error == FormulaNotEvaluable)
    ensures kind == "formula" && r.Ok? ==> r.value.1 == NumberToString(Formula.Evaluate(content).value, show)
  {
    if kind == "formula" then
      match FormulaAnswer(content, show)
      case None => Err(FormulaNotEvaluable)
      case Some(v) => Ok((content, v))
    else Ok((content, content))
  }

  /** The texts and answers `#generateText` can produce: a formula of
      `length` operands answered by its value, or `length` characters of the
      effective set answered by themselves. */
  ghost predicate TextDrawn(s: Settings, text: string, value: string, show: real -> string)
  {
    if s.kind == "formula" then
      Random.FormulaShape(text, s.length) && FormulaAnswer(text, show) == Some(value)
    else
      && |text| == s.length && value == text
      && forall i :: 0 <= i < |text| ==> text[i] in EffectiveChars(s.chars, s.ignoreChars)
  }

  /** Whether `generate(content)` finds a text and its answer: a given
      formula must evaluate, a generated formula needs at least one operand,
      and another generated text needs a non-empty effective character set. */
  predicate TextAvailable(s: Settings, content: Option<string>)
  {
    if content.Some? && content.value != "" then s.kind != "formula" || Formula.Evaluate(content.value).Some?
    else if s.kind == "formula" then s.length >= 1
    else EffectiveChars(s.chars, s.ignoreChars) != ""
  }

  /** The error raised when no text is available. */
  function TextError(s: Settings, content: Option<string>): Error
  {
    if s.kind == "formula" || (content.Some? && content.value != "") then FormulaNotEvaluable else EmptyCharset
  }

  /** The lengths the constructor picks always allow a text: a formula
      captcha without content never fails, and another one fails exactly
      when every character is ignored. */
  lemma DefaultsAllowText(o: CaptchaOptions)
    ensures Defaults(o).kind == "formula" ==> TextAvailable(Defaults(o), None)
    ensures Defaults(o).kind != "formula" ==>
      (TextAvailable(Defaults(o), None) <==>
        exists c :: c in Defaults(o).chars && c !in Defaults(o).ignoreChars)
  {
    var s := Defaults(o);
    if s.kind != "formula" {
      var e := EffectiveChars(s.chars, s.ignoreChars);
      if e != "" {
        assert e[0] in e;
      }
    }
  }

  /** A generated formula always has an answer, the decimal digits of a
      whole number, since its length is never zero. */
  lemma {:induction false} FormulaTextAnswered(text: string, n: nat, show: real -> string)
    requires Random.FormulaShape(text, n) && n >= 1
    ensures FormulaAnswer(text, show).Some?
    ensures Formula.Evaluate(text).value.Floor as real == Formula.Evaluate(text).value
  {
    Formula.ShapedFormulaEvaluates(text, n);
  }

  // ---------------------------------------------------------------------
  // Size and scale

  /** A zero width or height option is replaced by the natural size. */
  function Resolve(option: real, natural: real): real
  {
    if option == 0.0 then natural else option
  }

  /** An explicit size is kept, a zero one becomes the natural size and then
      a scale of one; once resolved against a non-zero natural size the
      option is non-zero, so later calls keep it. */
  lemma ResolveProperties(option: real, natural: real, later: real)
    requires natural != 0.0
    ensures option != 0.0 ==> Resolve(option, natural) == option
    ensures option == 0.0 ==> Resolve(option, natural) / natural == 1.0
    ensures Resolve(option, natural) != 0.0
    ensures Resolve(Resolve(option, natural), later) == Resolve(option, natural)
  {
  }

  /** A non-zero size times its own ratio to a positive natural size is
      itself exactly when the two sizes agree. */
  lemma ScaledBySelf(size: real, natural: real)
    requires size != 0.0 && natural > 0.0
    ensures Times(size, size / natural) == size <==> size == natural
  {
    if Times(size, size / natural) == size {
      assert size * (size / natural) == size * size / natural;
      assert size * size == size * natural;
      assert size * (size - natural) == 0.0;
    }
  }

  /** The background rectangle is the resolved size times the scale: after
      a resize against a natural size, it spans the view box along an axis
      exactly when that axis resolved to its natural size. In particular a
      zero option, which resolves to the natural size, spans it. */
  lemma {:induction false} RectSpansViewBox(o0: Settings, o: Settings, sc: Scale, nw: real, nh: real)
    requires Resized(o0, o, sc, nw, nh)
    ensures Times(o.width, sc.width) == o.width <==> o.width == nw
    ensures Times(o.height, sc.height) == o.height <==> o.height == nh
  {
    ResolveProperties(o0.width, nw, nw);
    ResolveProperties(o0.height, nh, nh);
    ScaledBySelf(o.width, nw);
    ScaledBySelf(o.height, nh);
  }

  // ---------------------------------------------------------------------
  // Noise lines

  /** `for (let i = 0; i < noise; i++)` runs this many times. */
  function NoiseCount(noise: real): nat
  {
    if noise <= 0.0 then 0 else -((-noise).Floor)
  }

  /** Exactly the naturals below `noise` are counted; a whole number of
      lines gives that many. */
  lemma NoiseCountIff(noise: real, i: nat)
    ensures i < NoiseCount(noise) <==> (i as real) < noise
  {
    if noise > 0.0 {
      var f := (-noise).Floor;
      assert f as real <= -noise < f as real + 1.0;
    }
  }

  lemma NoiseCountOfWhole(n: nat)
    ensures NoiseCount(n as real) == n
  {
    if n > 0 {
      assert (-(n as real)).Floor == -(n as int);
    }
  }

  /** The draws for one noise line: stroke colour, start, end and the two
      control points. */
  datatype NoiseDraw = NoiseDraw(
    color: string,
    startX: real, startY: real,
    endX: real, endY: real,
    cp1X: real, cp1Y: real,
    cp2X: real, cp2Y: real)

  /** `getRandomInt(min, max)` returned `v`, stated wherever the range
      `max - min + 1` is positive. */
  predicate DrawnFrom(v: real, min: real, max: real)
  {
    max - min + 1.0 > 0.0 ==> Random.InDrawRange(v, min, max)
  }

  /** The coordinates of one noise line over a `w` by `h` area, each its
      lower bound plus a whole number below the range `max - min + 1`: start
      x minus 1 in [0, w/10), end x minus 9w/10 in [0, w/10 + 1), the first
      control point x minus w/10 and the second minus w/2 in [0, 2w/5 + 1),
      every y minus 1 in [0, `h`). None of these exceeds `max` when the
      bounds are whole numbers; with a fractional `h`, a y can exceed `h`. */
  predicate NoiseArea(n: NoiseDraw, w: real, h: real)
  {
    && DrawnFrom(n.startX, 1.0, w * 0.1) && DrawnFrom(n.startY, 1.0, h)
    && DrawnFrom(n.endX, w - w * 0.1, w) && DrawnFrom(n.endY, 1.0, h)
    && DrawnFrom(n.cp1X, w * 0.1, w / 2.0) && DrawnFrom(n.cp1Y, 1.0, h)
    && DrawnFrom(n.cp2X, w / 2.0, w - w * 0.1) && DrawnFrom(n.cp2Y, 1.0, h)
  }

  /** The draws of one noise line: its stroke colour comes from the colour
      draws `d` against the background `bg`, and its coordinates lie in the
      area. */
  ghost predicate NoiseDrawn(n: NoiseDraw, w: real, h: real, bg: string, d: Color.Hsl)
  {
    Color.FontColorDrawn(bg, d, n.color) && NoiseArea(n, w, h)
  }

  /** One noise `<path>`: a cubic Bezier curve stroked with the line's colour
      and the noise width, not filled. */
  function NoiseElement(n: NoiseDraw, noiseWidth: real, show: real -> string): string
  {
    "<path d=\"M" + show(n.startX) + "," + show(n.startY)
      + " C" + show(n.cp1X) + "," + show(n.cp1Y)
      + " " + show(n.cp2X) + "," + show(n.cp2Y)
      + " " + show(n.endX) + "," + show(n.endY)
      + "\" stroke=\"" + n.color + "\" stroke-width=\"" + show(noiseWidth) + "\" fill=\"none\"/>"
  }

  /** The noise `<path>` elements of the lines `ns`, in order. */
  function NoiseElements(ns: seq<NoiseDraw>, noiseWidth: real, show: real -> string): seq<string>
  {
    seq(|ns|, k requires 0 <= k < |ns| => NoiseElement(ns[k], noiseWidth, show))
  }

  /** The attributes that close a noise `<path>`: the line's stroke colour,
      the noise width and no fill. */
  function NoiseStroke(color: string, noiseWidth: real, show: real -> string): string
  {
    "\" stroke=\"" + color + "\" stroke-width=\"" + show(noiseWidth) + "\" fill=\"none\"/>"
  }

  /** One noise `<path>` is a curve that moves to the start point and goes on
      with a cubic segment, ends at the end point, and closes with the
      stroke colour, the noise width and no fill. */
  lemma {:induction false} NoiseElementShape(n: NoiseDraw, noiseWidth: real, show: real -> string)
    ensures StartsWith(NoiseElement(n, noiseWidth, show),
                       "<path d=\"M" + show(n.startX) + "," + show(n.startY) + " C")
    ensures EndsWith(NoiseElement(n, noiseWidth, show),
                     " " + show(n.endX) + "," + show(n.endY) + NoiseStroke(n.color, noiseWidth, show))
  {
    var head := "<path d=\"M" + show(n.startX) + "," + show(n.startY) + " C";
    var middle := show(n.cp1X) + "," + show(n.cp1Y) + " " + show(n.cp2X) + "," + show(n.cp2Y);
    var tail := " " + show(n.endX) + "," + show(n.endY) + NoiseStroke(n.color, noiseWidth, show);
    assert NoiseElement(n, noiseWidth, show) == head + middle + tail;
    PrefixOfAppend(head, middle + tail);
    assert head + middle + tail == head + (middle + tail);
    assert (head + middle + tail)[|head + middle + tail| - |tail|..] == tail;
  }

  /** There is one noise `<path>` per line, in the lines' order, each of the
      shape `NoiseElementShape` gives, for that line. */
  lemma {:induction false} NoiseElementsShape(ns: seq<NoiseDraw>, noiseWidth: real, show: real -> string)
    ensures |NoiseElements(ns, noiseWidth, show)| == |ns|
    ensures forall k :: 0 <= k < |ns| ==>
      && StartsWith(NoiseElements(ns, noiseWidth, show)[k],
                    "<path d=\"M" + show(ns[k].startX) + "," + show(ns[k].startY) + " C")
      && EndsWith(NoiseElements(ns, noiseWidth, show)[k],
                  " " + show(ns[k].endX) + "," + show(ns[k].endY) + NoiseStroke(ns[k].color, noiseWidth, show))
  {
    forall k | 0 <= k < |ns|
      ensures StartsWith(NoiseElements(ns, noiseWidth, show)[k],
                         "<path d=\"M" + show(ns[k].startX) + "," + show(ns[k].startY) + " C")
      ensures EndsWith(NoiseElements(ns, noiseWidth, show)[k],
                       " " + show(ns[k].endX) + "," + show(ns[k].endY) + NoiseStroke(ns[k].color, noiseWidth, show))
    {
      NoiseElementShape(ns[k], noiseWidth, show);
    }
  }

  // ---------------------------------------------------------------------
  // The SVG document

  const SvgOpen := "<svg xmlns='http://www.w3.org/2000/svg' "

  function ViewBox(width: real, height: real, show: real -> string): string
  {
    "viewBox=\"0 0 " + show(width) + " " + show(height) + "\">"
  }

  /** `#generateBackground(bgColor)` for a `w` by `h` area. */
  function RectElement(w: real, h: real, bg: string, show: real -> string): string
  {
    "<rect width=\"" + show(w) + "\" height=\"" + show(h) + "\" fill=\"" + bg + "\" />"
  }

  function GroupOpen(scale: Scale, show: real -> string): string
  {
    "<g transform=\"scale(" + show(scale.width) + "," + show(scale.height) + ")\">"
  }

  /** The document `generate` returns, in the order it is written: root with
      view box, background rectangle, the scaled group of glyph paths, the
      noise lines when there are any, and the closing tag. */
  function SvgDocument(width: real, height: real, scale: Scale, bg: string, paths: seq<string>,
                       noise: Option<string>, show: real -> string): string
  {
    SvgOpen + ViewBox(width, height, show)
      + RectElement(Times(width, scale.width), Times(height, scale.height), bg, show)
      + GroupOpen(scale, show) + Join(paths, "\n") + "</g>"
      + OptionalText(noise)
      + "</svg>"
  }

  /** The noise lines when there are any, nothing otherwise. */
  function OptionalText(noise: Option<string>): string
  {
    match noise
    case None => ""
    case Some(text) => text
  }

  /** The document as its parts after the root and the background. */
  lemma SvgDocumentParts(width: real, height: real, scale: Scale, bg: string, paths: seq<string>,
                         noise: Option<string>, show: real -> string)
    ensures SvgDocument(width, height, scale, bg, paths, noise, show) ==
      SvgOpen + ViewBox(width, height, show)
        + RectElement(Times(width, scale.width), Times(height, scale.height), bg, show)
        + GroupOpen(scale, show) + Join(paths, "\n") + "</g>" + OptionalText(noise) + "</svg>"
  {
  }

  /** The document opens with the SVG root carrying only the namespace and
      the view box. */
  lemma SvgDocumentOpens(width: real, height: real, scale: Scale, bg: string, paths: seq<string>,
                         noise: Option<string>, show: real -> string)
    ensures StartsWith(SvgDocument(width, height, scale, bg, paths, noise, show), SvgOpen + "viewBox=\"0 0 ")
  {
    var view := "viewBox=\"0 0 ";
    PrefixOfAppend(view, show(width));
    StartsWithAppend(view + show(width), " ", view);
    StartsWithAppend(view + show(width) + " ", show(height), view);
    StartsWithAppend(view + show(width) + " " + show(height), "\">", view);
    PrefixBothSides(SvgOpen, ViewBox(width, height, show), view);
    var rect := RectElement(Times(width, scale.width), Times(height, scale.height), bg, show);
    StartsWithAppend(SvgOpen + ViewBox(width, height, show), rect, SvgOpen + view);
    SvgDocumentParts(width, height, scale, bg, paths, noise, show);
    StartsWithAppends(SvgOpen + ViewBox(width, height, show) + rect, SvgOpen + view,
                      GroupOpen(scale, show), Join(paths, "\n"), "</g>", OptionalText(noise), "</svg>");
  }

  /** The first element after the root is the background rectangle, as
      wide and as high as the view box times the scale. */
  lemma SvgDocumentBackground(width: real, height: real, scale: Scale, bg: string, paths: seq<string>,
                              noise: Option<string>, show: real -> string)
    ensures StartsWith(SvgDocument(width, height, scale, bg, paths, noise, show),
                       SvgOpen + ViewBox(width, height, show)
                         + RectElement(Times(width, scale.width), Times(height, scale.height), bg, show))
  {
    var top := SvgOpen + ViewBox(width, height, show)
      + RectElement(Times(width, scale.width), Times(height, scale.height), bg, show);
    SvgDocumentParts(width, height, scale, bg, paths, noise, show);
    PrefixOfAppend(top, "");
    assert top + "" == top;
    StartsWithAppends(top, top, GroupOpen(scale, show), Join(paths, "\n"), "</g>", OptionalText(noise), "</svg>");
  }

  /** The document closes with `</svg>`; with no noise the glyph group is
      the last element. */
  lemma SvgDocumentCloses(width: real, height: real, scale: Scale, bg: string, paths: seq<string>,
                          noise: Option<string>, show: real -> string)
    ensures var d := SvgDocument(width, height, scale, bg, paths, noise, show);
      |d| >= 6 && d[|d| - 6..] == "</svg>"
    ensures noise.None? ==>
      var d := SvgDocument(width, height, scale, bg, paths, noise, show);
      |d| >= 10 && d[|d| - 10..] == "</g></svg>"
  {
    var group := SvgOpen + ViewBox(width, height, show)
      + RectElement(Times(width, scale.width), Times(height, scale.height), bg, show)
      + GroupOpen(scale, show) + Join(paths, "\n");
    SvgDocumentParts(width, height, scale, bg, paths, noise, show);
    SuffixOfAppend(group + "</g>" + OptionalText(noise), "</svg>");
    if noise.None? {
      assert group + "</g>" + OptionalText(noise) == group + "</g>";
      SuffixOfAppendTwo(group, "</g>", "</svg>");
      assert "</g>" + "</svg>" == "</g></svg>";
    }
  }

  lemma StartsWithAppends(s: string, prefix: string, a: string, b: string, c: string, d: string, e: string)
    requires StartsWith(s, prefix)
    ensures StartsWith(s + a + b + c + d + e, prefix)
  {
    assert (s + a + b + c + d + e)[..|prefix|] == s[..|prefix|];
  }

  lemma PrefixOfAppend(p: string, q: string)
    ensures StartsWith(p + q, p)
  {
    assert (p + q)[..|p|] == p;
  }

  lemma PrefixBothSides(a: string, s: string, p: string)
    requires StartsWith(s, p)
    ensures StartsWith(a + s, a + p)
  {
    assert (a + s)[..|a + p|] == a + s[..|p|];
  }

  lemma StartsWithAppend(s: string, t: string, prefix: string)
    requires StartsWith(s, prefix)
    ensures StartsWith(s + t, prefix)
  {
    assert (s + t)[..|prefix|] == s[..|prefix|];
  }

  lemma SuffixOfAppend(s: string, t: string)
    ensures |s + t| >= |t| && (s + t)[|s + t| - |t|..] == t
  {
  }

  lemma SuffixOfAppendTwo(s: string, a: string, b: string)
    ensures |s + a + b| >= |a| + |b| && (s + a + b)[|s + a + b| - |a| - |b|..] == a + b
  {
    assert (s + a + b)[|s + a + b| - |a| - |b|..] == a + b;
  }

  // ---------------------------------------------------------------------
  // The generator

  class Captcha {
    /** `options`, with the width and height `generate` resolves. */
    var options: Settings
    /** `font`: unset until a call to `generate` has awaited the load. */
    var font: Option<UsableFont>
    /** The outcome of the font load the constructor starts. */
    const status: Result<UsableFont>
    /** `#scale`. */
    var scale: Scale

    /** The font, once set, is the one the load produced. */
    ghost predicate Valid()
      reads this
    {
      font.Some? ==> status == Ok(font.value)
    }

    /** `new Captcha(options)`; `load` is what loading `options.fontPath`
        yields. */
    constructor(o: CaptchaOptions, load: Result<UsableFont>)
      ensures options == Defaults(o) && status == load
      ensures font == None && scale == Scale(1.0, 1.0)
      ensures Valid()
    {
      options := Defaults(o);
      status := load;
      font := None;
      scale := Scale(1.0, 1.0);
    }

    /** `#generateText()`. */
    method GenerateText(show: real -> string) returns (r: Result<(string, string)>)
      ensures r.Ok? <==> TextAvailable(options, None)
      ensures r.Err? ==> r.error == TextError(options, None)
      ensures r.Ok? ==> TextDrawn(options, r.value.0, r.value.1, show)
    {
      var effective := EffectiveChars(options.chars, options.ignoreChars);
      if |effective| == 0 && options.kind != "formula" {
        return Err(EmptyCharset);
      }
      if options.kind == "formula" {
        var text := Random.GenerateRandomFormula(options.length);
        var value := FormulaAnswer(text, show);
        if options.length >= 1 {
          FormulaTextAnswered(text, options.length, show);
        } else {
          Formula.ShapedFormulaEvaluates(text, options.length);
        }
        if value.None? {
          return Err(FormulaNotEvaluable);
        }
        r := Ok((text, value.value));
      } else {
        var text := Random.GenerateRandomString(options.length, effective);
        r := Ok((text, text));
      }
    }

    /** `#getNoiseLines(bgColor)`: `NoiseCount(noise)` lines over the scaled
        area, joined by newlines. The ghost `ns` and `ds` record the draws. */
    method NoiseLines(bg: string, show: real -> string)
      returns (res: Result<string>, ghost ns: seq<NoiseDraw>, ghost ds: seq<Color.Hsl>)
      ensures res.Err? <==> NoiseCount(options.noise) > 0 && Color.BackgroundChannels(bg).Err?
      ensures res.Err? ==> res.error == Color.BackgroundChannels(bg).error
      ensures res.Ok? ==>
        && |ns| == |ds| == NoiseCount(options.noise)
        && (forall k :: 0 <= k < |ns| ==>
              NoiseDrawn(ns[k], Times(options.width, scale.width), Times(options.height, scale.height), bg, ds[k]))
        && res.value == Join(NoiseElements(ns, options.noiseWidth, show), "\n")
    {
      var w := Times(options.width, scale.width);
      var h := Times(options.height, scale.height);
      var lines: seq<NoiseDraw> := [];
      ds := [];
      var i: nat := 0;
      NoiseCountIff(options.noise, 0);
      while (i as real) < options.noise
        invariant i <= NoiseCount(options.noise)
        invariant |lines| == |ds| == i
        invariant i > 0 ==> Color.BackgroundChannels(bg).Ok?
        invariant forall k :: 0 <= k < i ==> NoiseDrawn(lines[k], w, h, bg, ds[k])
        decreases NoiseCount(options.noise) - i
      {
        NoiseCountIff(options.noise, i);
        var drawn, d := DrawNoiseLine(w, h, bg);
        if drawn.Err? {
          return Err(drawn.error), lines, ds;
        }
        var line := drawn.value;
        NoiseStep(lines, ds, line, d, w, h, bg);
        lines := lines + [line];
        ds := ds + [d];
        i := i + 1;
      }
      NoiseCountIff(options.noise, i);
      ns := lines;
      res := Ok(Join(NoiseElements(lines, options.noiseWidth, show), "\n"));
    }

    /** `generate(content)`: awaits the font when it is not set yet, picks
        the configured or a random background, then renders. The ghost
        outputs record the text, the glyph draws and the noise draws. */
    method Generate(content: Option<string>, show: real -> string)
      returns (res: Result<CaptchaResult>, ghost text: string, ghost ps: seq<FontPath.Placement>,
               ghost ns: seq<NoiseDraw>, ghost ds: seq<Color.Hsl>)
      requires Valid()
      modifies this
      ensures Valid()
      ensures status.Ok? ==> font == Some(status.value)
      ensures old(font).None? && status.Err? ==> res == Err(FontLoadFailed) && unchanged(this)
      ensures options.(width := old(options.width), height := old(options.height)) == old(options)
      ensures status.Ok? && old(options.backgroundColor) == "" ==>
        (res.Ok? <==> TextAvailable(old(options), content))
      ensures status.Ok? && Color.BackgroundChannels(old(options.backgroundColor)).Ok? ==>
        (res.Ok? <==> TextAvailable(old(options), content))
      ensures status.Ok? && res.Err? && TextAvailable(old(options), content) ==>
        res.error == Color.BackgroundChannels(old(options.backgroundColor)).error
      ensures status.Ok? && res.Err? && !TextAvailable(old(options), content) ==>
        res.error == TextError(old(options), content)
      ensures status.Ok? && res.Err? && !TextAvailable(old(options), content) ==>
        options == old(options) && scale == old(scale)
      ensures status.Ok? && TextAvailable(old(options), content) && old(options.backgroundColor) != "" ==>
        (res.Err? <==> Color.BackgroundChannels(old(options.backgroundColor)).Err?
                       && (|status.value.layout(text)| > 0 || old(options.noise) > 0.0))
      ensures status.Ok? && res.Err? && TextAvailable(old(options), content) && |status.value.layout(text)| > 0 ==>
        options == old(options) && scale == old(scale)
      ensures status.Ok? && res.Err? && TextAvailable(old(options), content) && |status.value.layout(text)| == 0 ==>
        Resized(old(options), options, scale, 40.0, status.value.ascent - status.value.descent)
      ensures res.Ok? ==>
        && status.Ok?
        && (old(options.backgroundColor) != "" ==> res.value.backgroundColor == old(options.backgroundColor))
        && (old(options.backgroundColor) == "" ==> Color.RandomBackground(res.value.backgroundColor))
        && Generated(old(options), old(scale), options, scale, status.value,
                     content, text, ps, ns, ds, res.value, show)
    {
      if font.None? {
        if status.Err? {
          return Err(FontLoadFailed), "", [], [], [];
        }
        font := Some(status.value);
      }
      var bg := options.backgroundColor;
      if bg == "" {
        ghost var drawn;
        bg, drawn := Color.GetRandomBackground();
        Color.RandomBackgroundAccepted(drawn.h, drawn.s, drawn.l);
      }
      res, text, ps, ns, ds := Render(font.value, bg, content, show);
    }

    /** The rest of `generate(content)` once the font `f` and the background
        `bg` are known: the text and its answer, then the drawing. */
    method Render(f: UsableFont, bg: string, content: Option<string>, show: real -> string)
      returns (res: Result<CaptchaResult>, ghost text: string, ghost ps: seq<FontPath.Placement>,
               ghost ns: seq<NoiseDraw>, ghost ds: seq<Color.Hsl>)
      modifies this
      ensures font == old(font)
      ensures options.(width := old(options.width), height := old(options.height)) == old(options)
      ensures Color.BackgroundChannels(bg).Ok? ==> (res.Ok? <==> TextAvailable(old(options), content))
      ensures res.Err? && TextAvailable(old(options), content) ==>
        res.error == Color.BackgroundChannels(bg).error
      ensures res.Err? && !TextAvailable(old(options), content) ==> res.error == TextError(old(options), content)
      ensures res.Err? && !TextAvailable(old(options), content) ==> options == old(options) && scale == old(scale)
      ensures TextAvailable(old(options), content) ==>
        (res.Err? <==> Color.BackgroundChannels(bg).Err? && (|f.layout(text)| > 0 || old(options.noise) > 0.0))
      ensures res.Err? && TextAvailable(old(options), content) && |f.layout(text)| > 0 ==>
        options == old(options) && scale == old(scale)
      ensures res.Err? && TextAvailable(old(options), content) && |f.layout(text)| == 0 ==>
        Resized(old(options), options, scale, 40.0, f.ascent - f.descent)
      ensures res.Ok? ==> res.value.backgroundColor == bg
      ensures res.Ok? ==> Generated(old(options), old(scale), options, scale, f, content, text, ps, ns, ds, res.value, show)
    {
      var drawn := ChooseText(content, show);
      if drawn.Err? {
        return Err(drawn.error), "", [], [], [];
      }
      text := drawn.value.0;
      res, ps, ns, ds := Draw(f, bg, drawn.value.0, drawn.value.1, show);
    }

    /** The text and its answer: the given content, or a generated text. */
    method ChooseText(content: Option<string>, show: real -> string) returns (r: Result<(string, string)>)
      ensures r.Ok? <==> TextAvailable(options, content)
      ensures r.Err? ==> r.error == TextError(options, content)
      ensures r.Ok? ==> TextChosen(options, content, r.value.0, r.value.1, show)
    {
      if content.Some? && content.value != "" {
        r := ContentAnswer(content.value, options.kind, show);
      } else {
        r := GenerateText(show);
      }
    }

    /** A zero width or height option becomes the natural size of the text;
        the scale maps the natural size onto the resolved one. */
    method Resize(width: real, height: real)
      requires width > 0.0 && height > 0.0
      modifies this
      ensures font == old(font)
      ensures options == old(options).(width := Resolve(old(options.width), width),
                                       height := Resolve(old(options.height), height))
      ensures scale == Scale(options.width / width, options.height / height)
    {
      if options.width == 0.0 {
        options := options.(width := width);
      }
      if options.height == 0.0 {
        options := options.(height := height);
      }
      scale := Scale(options.width / width, options.height / height);
    }

    /** The drawing part of `generate(content)` for the text `text` answered
        by `value`: the glyph paths, the resolved size and scale, the noise
        lines and the document. */
    method Draw(f: UsableFont, bg: string, text: string, value: string, show: real -> string)
      returns (res: Result<CaptchaResult>, ghost ps: seq<FontPath.Placement>,
               ghost ns: seq<NoiseDraw>, ghost ds: seq<Color.Hsl>)
      modifies this
      ensures font == old(font)
      ensures options.(width := old(options.width), height := old(options.height)) == old(options)
      ensures Color.BackgroundChannels(bg).Ok? ==> res.Ok?
      ensures res.Err? ==> res.error == Color.BackgroundChannels(bg).error
      ensures res.Err? <==> Color.BackgroundChannels(bg).Err? && (|f.layout(text)| > 0 || old(options.noise) > 0.0)
      ensures res.Err? && |f.layout(text)| > 0 ==> options == old(options) && scale == old(scale)
      ensures res.Err? && |f.layout(text)| == 0 ==> Resized(old(options), options, scale, 40.0, f.ascent - f.descent)
      ensures res.Ok? ==> res.value.backgroundColor == bg && res.value.value == value
      ensures res.Ok? ==> Drawn(old(options), options, scale, f, text, ps, ns, ds, res.value, show)
    {
      ns, ds := [], [];
      var natural;
      natural, ps := FontPath.GetTextPath(Some(f), text, bg, show);
      if natural.Err? {
        return Err(natural.error), ps, [], [];
      }
      FontPath.WidthBounds(f, f.layout(text), bg, ps, show);
      var tp := natural.value;
      Resize(tp.width, tp.height);
      var noise: Option<string> := None;
      if options.noise > 0.0 {
        var lines;
        lines, ns, ds := NoiseLines(bg, show);
        if lines.Err? {
          return Err(lines.error), ps, ns, ds;
        }
        noise := Some(lines.value);
      }
      var svg := SvgDocument(options.width, options.height, scale, bg, tp.paths, noise, show);
      res := Ok(CaptchaResult(value, svg, bg, options.width, options.height, scale));
    }
  }

  /** The draws of one turn of the loop in `#getNoiseLines`, in the order it
      makes them. */
  method DrawNoiseLine(w: real, h: real, bg: string) returns (res: Result<NoiseDraw>, ghost d: Color.Hsl)
    ensures res.Err? <==> Color.BackgroundChannels(bg).Err?
    ensures res.Err? ==> res.error == Color.BackgroundChannels(bg).error
    ensures res.Ok? ==> NoiseDrawn(res.value, w, h, bg, d)
  {
    var color;
    color, d := Color.CalculateFontColor(bg);
    if color.Err? {
      return Err(color.error), d;
    }
    var line := DrawNoiseCurve(w, h, color.value);
    res := Ok(line);
  }

  /** The eight coordinate draws of one noise line, in the order they are
      made. */
  method DrawNoiseCurve(w: real, h: real, color: string) returns (n: NoiseDraw)
    ensures n.color == color && NoiseArea(n, w, h)
  {
    var startX := DrawBetween(1.0, w * 0.1);
    var startY := DrawBetween(1.0, h);
    var endX := DrawBetween(w - w * 0.1, w);
    var endY := DrawBetween(1.0, h);
    var cp1X := DrawBetween(w * 0.1, w / 2.0);
    var cp1Y := DrawBetween(1.0, h);
    var cp2X := DrawBetween(w / 2.0, w - w * 0.1);
    var cp2Y := DrawBetween(1.0, h);
    n := NoiseDraw(color, startX, startY, endX, endY, cp1X, cp1Y, cp2X, cp2Y);
  }

  /** `getRandomInt(min, max)`, described by its range. */
  method DrawBetween(min: real, max: real) returns (v: real)
    ensures DrawnFrom(v, min, max)
  {
    v := Random.GetRandomInt(min, max);
  }

  lemma NoiseStep(lines: seq<NoiseDraw>, ds: seq<Color.Hsl>, line: NoiseDraw, d: Color.Hsl,
                  w: real, h: real, bg: string)
    requires |lines| == |ds|
    requires forall k :: 0 <= k < |lines| ==> NoiseDrawn(lines[k], w, h, bg, ds[k])
    requires NoiseDrawn(line, w, h, bg, d)
    ensures forall k :: 0 <= k < |lines| + 1 ==> NoiseDrawn((lines + [line])[k], w, h, bg, (ds + [d])[k])
  {
    forall k | 0 <= k < |lines| + 1
      ensures NoiseDrawn((lines + [line])[k], w, h, bg, (ds + [d])[k])
    {
      if k < |lines| {
        assert (lines + [line])[k] == lines[k] && (ds + [d])[k] == ds[k];
      }
    }
  }

  /** The text and the answer a rendering settles on: those of the given
      content, or a generated text. */
  ghost predicate TextChosen(o: Settings, content: Option<string>, text: string, value: string, show: real -> string)
  {
    if content.Some? && content.value != "" then ContentAnswer(content.value, o.kind, show) == Ok((text, value))
    else TextDrawn(o, text, value, show)
  }

  /** The options `o` and scale `sc` after the size was resolved from the
      options `o0` against a natural size of `nw` by `nh`. */
  predicate Resized(o0: Settings, o: Settings, sc: Scale, nw: real, nh: real)
  {
    && nw > 0.0 && nh > 0.0
    && o == o0.(width := Resolve(o0.width, nw), height := Resolve(o0.height, nh))
    && sc == Scale(o.width / nw, o.height / nh)
  }

  /** What a successful drawing did, from the options `o0` before it to the
      options `o` and scale `sc` after it, with the font `f`: laid the text
      out with the draws `ps`, resolved the size, derived the scale, drew the
      noise lines `ns` with the colour draws `ds` and wrote the document. */
  ghost predicate Drawn(o0: Settings, o: Settings, sc: Scale, f: UsableFont, text: string,
                        ps: seq<FontPath.Placement>, ns: seq<NoiseDraw>, ds: seq<Color.Hsl>,
                        r: CaptchaResult, show: real -> string)
  {
    var glyphs := f.layout(text);
    && |ps| == |glyphs|
    && (forall k :: 0 <= k < |ps| ==> FontPath.Placed(glyphs[k], ps[k], r.backgroundColor))
    && var natural := FontPath.TextPathOf(f, glyphs, ps, show);
    && natural.width >= 40.0 && natural.height > 0.0
    && o.width == Resolve(o0.width, natural.width) && o.height == Resolve(o0.height, natural.height)
    && sc == Scale(o.width / natural.width, o.height / natural.height)
    && r.width == o.width && r.height == o.height && r.scale == sc
    && (o0.noise <= 0.0 ==> ns == [])
    && (o0.noise > 0.0 ==>
          && |ns| == |ds| == NoiseCount(o0.noise)
          && forall k :: 0 <= k < |ns| ==>
               NoiseDrawn(ns[k], Times(o.width, sc.width), Times(o.height, sc.height), r.backgroundColor, ds[k]))
    && r.svg == SvgDocument(o.width, o.height, sc, r.backgroundColor, natural.paths,
                            if o0.noise > 0.0 then Some(Join(NoiseElements(ns, o0.noiseWidth, show), "\n")) else None,
                            show)
  }

  /** What a successful `generate(content)` did after the background was
      chosen: settled on the text and its answer, and drew them. */
  ghost predicate Generated(o0: Settings, sc0: Scale, o: Settings, sc: Scale, f: UsableFont,
                            content: Option<string>, text: string, ps: seq<FontPath.Placement>,
                            ns: seq<NoiseDraw>, ds: seq<Color.Hsl>, r: CaptchaResult, show: real -> string)
  {
    TextChosen(o0, content, text, r.value, show) && Drawn(o0, o, sc, f, text, ps, ns, ds, r, show)
  }
}
