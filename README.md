# SVG captcha generator, modelled in Dafny

This project models the core of a small TypeScript library that draws text
captchas as SVG documents. The model has six parts:

- a colour parser for `#hex` and `rgb(r, g, b)` backgrounds;
- the HSL/RGB conversions and the contrast rule that picks a foreground colour;
- the random primitives, the formula generator and its evaluator;
- the glyph placement loop that turns a text into `<path>` elements;
- the `Captcha` class, which fills in its options;
- `Captcha.generate`, which chooses the text and its answer, resolves the image size and scale, draws the noise lines and writes the document.

`Math.random()` is an oracle, `Random.RandomReal`, which may return any real
in [0, 1). Every operation that draws from it is a method. Its contract says
which results some sequence of draws can produce. Ghost out-parameters record
those draws, so that a result can be tied to its draws.

Numbers are exact reals. The engine's conversion of a number to text in SVG
attributes is a parameter, `show`. The `rgb(...)` channels and formula
answers are whole numbers, so their text is written out exactly.

Modules, one per file:

- `Results`: errors and results.
- `JsText`: the JavaScript string built-ins used.
- `Random`: `src/random.ts`, without the evaluator.
- `Formula`: `evaluateFormula` and `generatePositiveFormula`.
- `Color`: `src/color.ts`.
- `FontPath`: `src/font.ts`.
- `CaptchaGenerator`: `src/index.ts`.

## Model

| member | source | states |
|---|---|---|
| Random.CharacterSets | src/random.ts:4-14 | The digit set contains every decimal digit and is 10 long. The letter set is 52 long. The mixed set is the digits followed by the letters. |
| Random.GetRandomInt | src/random.ts:27-29 | The result is `floor(u * (max - min + 1)) + min` for some `u` in [0, 1). When that range is positive, the result is `min` plus a non-negative integer below `max - min + 1`, even for fractional bounds. |
| Random.DrawableIff | src/random.ts:27-29 | For a positive range, the values `getRandomInt` can return are exactly `min` plus a non-negative integer below the range (both directions). |
| Random.DrawableIntRange | src/random.ts:27-29 | With integer bounds `min <= max`, every possible result is an integer of [min, max]. |
| Random.RandomIntBetween | src/random.ts:27-29 | `getRandomInt` at integer bounds `min <= max` returns an integer of [min, max]. |
| Random.GenerateRandomString | src/random.ts:37-41 | With a non-empty character set the result is exactly `length` characters, each taken from the set. With an empty set the result is empty. |
| Random.GenerateRandomFormula | src/random.ts:48-57 | For n operands the result is 2n - 1 characters long: a digit 1-9 at every even position and one of `+-x` at every odd position. For n = 0 it is empty. |
| Random.FormulaEnds | src/random.ts:48-57 | A formula of that shape with at least one operand starts and ends with a digit, so it is never the seed `"-1"`. |
| Random.PerturbCommand | src/random.ts:83-86 | The argument count is kept, and each output lies in [arg - 0.1, arg + 0.1). |
| Formula.ScanIsTwoPass | src/random.ts:75-78 | The one-pass left-to-right evaluation equals the two precedence passes, from any partial sum and partial product. The first pass folds each run of `*` and `/`; the second adds and subtracts. |
| Formula.EvaluateByPrecedence | src/random.ts:75-78 | `evaluateFormula` computes products and quotients before sums and differences, each left to right. Division by zero appears on both sides alike. |
| Formula.TimesSignIsMultiplication | src/random.ts:76 | Replacing `x` by `*` is idempotent, so `x` and `*` evaluate identically. |
| Formula.EvaluateFirstVector | src/__tests__/random.test.ts:38 | `evaluateFormula("3+5*2-4")` is 9. |
| Formula.EvaluateSecondVector | src/__tests__/random.test.ts:39 | `evaluateFormula("10-2*3+1")` is 5, with a two-digit operand. |
| Formula.EvaluateThirdVector | src/__tests__/random.test.ts:40 | `evaluateFormula("8/2+6*3")` is 22, with a division. |
| Formula.EvaluateSeedAndEmpty | src/random.ts:63-64 | The seed `"-1"` evaluates to -1, so the loop always draws at least once. The empty formula has no value. |
| Formula.ShapedFormulaEvaluates | src/random.ts:48-57 | A formula `generateRandomFormula(n)` can return has a value exactly when n >= 1, and that value is an integer. |
| Formula.GeneratePositiveFormula | src/random.ts:62-68 | A returned formula has the `generateRandomFormula` shape with at least one operand, and its value is a non-negative integer. With no operands the result is the syntax error. |
| JsText.IntToString | src/color.ts:33 | The text of an integer starts with `-` exactly when it is negative, and its digits read back as its magnitude. |
| JsText.NatToStringDigits | src/color.ts:33 | The decimal text of a natural number reads back as that number and has no leading zero. It has at most 1, 2 or 3 digits below 10, 100 or 1000. |
| Color.ParseIntRadix16 | src/color.ts:159-161 | `parseInt(s, 16)` of a non-empty string of hex digits is its base-16 value; of two such digits, a value in [0, 255]. |
| Color.Doubled | src/color.ts:150-155 | The expansion is twice as long, and character i is character i / 2 of the input. |
| Color.HexToRgb | src/color.ts:146-163 | The call fails, with "Invalid HEX color.", exactly when the body after one optional `#` is neither 3 nor 6 long. |
| Color.ShortHexIsDoubled | src/color.ts:150-155 | `#abc` gives the same result as `#aabbcc`, for all characters a, b, c. |
| Color.HexChannels | src/color.ts:159-162 | With six hex digits the call succeeds. Each channel is the base-16 value of its two-character slice, hence in [0, 255]. |
| Color.HexBytes | src/color.ts:159-161 | `parseInt("ff", 16)` is 255 and `parseInt("00", 16)` is 0. |
| Color.RedHex | src/__tests__/color.test.ts:26 | `hexToRgb("#ff0000")` is (255, 0, 0). |
| Color.GreenHex | src/__tests__/color.test.ts:27 | `hexToRgb("#00ff00")` is (0, 255, 0). |
| Color.BlueHex | src/__tests__/color.test.ts:28 | `hexToRgb("#0000ff")` is (0, 0, 255). |
| Color.YellowHex | src/__tests__/color.test.ts:29 | `hexToRgb("#ffff00")` is (255, 255, 0). |
| Color.MagentaHex | src/__tests__/color.test.ts:30 | `hexToRgb("#ff00ff")` is (255, 0, 255). |
| Color.ShortRedHex | src/color.ts:150-155 | `hexToRgb("#f00")` equals `hexToRgb("#ff0000")`. |
| Color.BadHexLength | src/color.ts:156-158 | A five-digit body fails with "Invalid HEX color.". |
| Color.Field | src/color.ts:172 | A captured `\d{1,3}` channel is below 1000. |
| Color.Clamp | src/color.ts:177-179 | The result lies in [0, 255]. A channel already in range is kept, and one above 255 becomes 255. |
| Color.ParseRgbString | src/color.ts:170-181 | The call fails, with "Invalid RGB color string.", exactly when the unanchored pattern finds no match. Every returned channel lies in [0, 255]. |
| Color.NumeralsParse | src/color.ts:170-181 | Any three numerals below 1000, written as `rgb(r, g, b)`, parse back as those numbers clamped to [0, 255]. |
| Color.RgbStringRoundTrip | src/color.ts:170-181 | Every colour with channels in [0, 255], written as `rgb(r, g, b)`, parses back unchanged. |
| Color.RedRgbString | src/__tests__/color.test.ts:36 | `parseRgbString("rgb(255, 0, 0)")` is (255, 0, 0). |
| Color.GreenRgbString | src/__tests__/color.test.ts:37 | `parseRgbString("rgb(0, 255, 0)")` is (0, 255, 0). |
| Color.BlueRgbString | src/__tests__/color.test.ts:38 | `parseRgbString("rgb(0, 0, 255)")` is (0, 0, 255). |
| Color.YellowRgbString | src/__tests__/color.test.ts:39 | `parseRgbString("rgb(255, 255, 0)")` is (255, 255, 0). |
| Color.MagentaRgbString | src/__tests__/color.test.ts:40 | `parseRgbString("rgb(255, 0, 255)")` is (255, 0, 255). |
| Color.RgbClamped | src/color.ts:177-179 | `parseRgbString("rgb(300, 0, 0)")` is (255, 0, 0). |
| Color.NoMatchWithoutR | src/color.ts:171-173 | Text without an `r` holds no match. |
| Color.NegativeChannelRejected | src/color.ts:171-176 | `parseRgbString("rgb(-5, 0, 0)")` fails, because the pattern admits no sign. |
| Color.LongFieldRejected | src/color.ts:172 | A run of more than three digits is not a channel of the pattern. |
| Color.LongChannelRejected | src/color.ts:171-176 | `parseRgbString("rgb(1000, 0, 0)")` fails. |
| Color.HueRemainder | src/color.ts:59 | `h % 360` of a non-negative hue lies in [0, 360), and a hue already there is kept. |
| Color.RealRemainderRange | src/color.ts:64 | The `%` of numbers has the sign of the dividend and is smaller than the modulus in magnitude. A dividend already smaller is kept. |
| Color.RgbToHslRange | src/color.ts:99-139 | For channels in [0, 255] the hue lies in [0, 360) and the saturation and lightness in [0, 100]. An achromatic colour has hue 0 and saturation 0. |
| Color.LightnessRange | src/color.ts:108-114 | The lightness of channels in [0, 255] lies in [0, 100]. |
| Color.SaturationRange | src/color.ts:116-117 | The saturation of channels in [0, 255] lies in [0, 100]. |
| Color.HueRange | src/color.ts:119-132 | The hue of channels in [0, 255] lies in [0, 360) after the negative correction. |
| Color.HslToRgbRange | src/color.ts:54-90 | For a non-negative hue and a saturation and lightness in [0, 100], every channel lies in [0, 255]. |
| Color.PureHue | src/color.ts:63-65 | At saturation 100 and lightness 50 the chroma is 1 and the offset 0, so each channel is 255 times the sector's share. |
| Color.RedFromHsl | src/__tests__/color.test.ts:6 | `hslToRgb(0, 100, 50)` is (255, 0, 0). |
| Color.GreenFromHsl | src/__tests__/color.test.ts:7 | `hslToRgb(120, 100, 50)` is (0, 255, 0). |
| Color.BlueFromHsl | src/__tests__/color.test.ts:8 | `hslToRgb(240, 100, 50)` is (0, 0, 255). |
| Color.YellowFromHsl | src/__tests__/color.test.ts:9 | `hslToRgb(60, 100, 50)` is (255, 255, 0). |
| Color.MagentaFromHsl | src/__tests__/color.test.ts:10 | `hslToRgb(300, 100, 50)` is (255, 0, 255). |
| Color.RedToHsl | src/__tests__/color.test.ts:16 | `rgbToHsl(255, 0, 0)` is (0, 100, 50). |
| Color.GreenToHsl | src/__tests__/color.test.ts:17 | `rgbToHsl(0, 255, 0)` is (120, 100, 50). |
| Color.BlueToHsl | src/__tests__/color.test.ts:18 | `rgbToHsl(0, 0, 255)` is (240, 100, 50). |
| Color.YellowToHsl | src/__tests__/color.test.ts:19 | `rgbToHsl(255, 255, 0)` is (60, 100, 50). |
| Color.MagentaToHsl | src/__tests__/color.test.ts:20 | `rgbToHsl(255, 0, 255)` is (300, 100, 50). |
| Color.LightnessWindow | src/color.ts:21-28 | The lightness window is never empty, and for a background lightness in [0, 100] it lies inside [0, 100]. |
| Color.ContrastOfWindow | src/color.ts:19-29 | For a background lightness in [0, 100], the window holds exactly the lightnesses of [0, 100] that are 30 to 60 points away. They are lighter below 50 and darker otherwise (both directions). |
| Color.BackgroundChannels | src/color.ts:9-16 | The call fails with "Unsupported color format" unless the background starts with `#` or `rgb`. A `#` background fails only as a bad hex colour, and an `rgb` one only as a bad rgb string. A parsed `rgb` background has channels in [0, 255]. |
| Color.CalculateFontColor | src/color.ts:8-34 | The background's error is passed on. Otherwise the result is `rgb(...)` of `hslToRgb` at a hue of [0, 360], a saturation of [70, 100] and a lightness from the window. A NaN channel gives `rgb(NaN, NaN, NaN)`. |
| Color.ForegroundContrast | src/color.ts:19-33 | A drawn foreground lightness lies 30 to 60 points from the background's, away from it. The colour has channels in [0, 255], and its text parses back unchanged. |
| Color.GetRandomBackground | src/color.ts:39-45 | The background is `rgb(...)` of `hslToRgb` at a hue of [0, 360], a saturation of [30, 80] and a lightness of [50, 80]. |
| Color.RgbStringPrefix | src/color.ts:44 | A colour written as `rgb(...)` starts with `rgb` and not with `#`. |
| Color.RandomBackgroundAccepted | src/color.ts:39-45 | A random background has channels in [0, 255], and `calculateFontColor` reads them back unchanged. |
| FontPath.PerturbCommands | src/font.ts:26-28 | Each command keeps its name and count of arguments, and each argument moves by less than 0.1. |
| FontPath.ScaleJitter | src/font.ts:34-35 | The scale factor lies in [centre - 0.02, centre + 0.02). |
| FontPath.Jitter | src/font.ts:36 | The jitter is a value `getRandomInt(-adv/6, adv/6)` can return. |
| FontPath.JitterRange | src/font.ts:32-36 | The jitter is at least -adv/6 and below adv/6 + 1, and jitter + adv/6 is an integer. |
| FontPath.PlaceGlyph | src/font.ts:26-38 | The call fails exactly when the background is unusable, with its error. Otherwise the draws are perturbed commands, a font colour, scale factors in range, a jitter and an integer rotation of [-20, 20]. |
| FontPath.DrawGlyphsAt | src/font.ts:36-40 | There is one draw per glyph. Glyph k is drawn at the cursor left by the first k glyphs plus its own jitter, and at height -ascent. |
| FontPath.ElementsAt | src/font.ts:25-42 | There is one `<path>` per draw, in glyph order, each rendered from its own draw. |
| FontPath.CursorBounds | src/font.ts:24-40 | After k glyphs the cursor lies between 20 + 5/6 and 20 + 7/6 of their advances, plus one unit per glyph. |
| FontPath.WidthBounds | src/font.ts:43-44 | The natural width is the final cursor plus 20. It is at least 40, exactly 40 with no glyphs, and within the bounds above. |
| FontPath.DrawText | src/font.ts:22-44 | The call fails exactly when there is a glyph and the background is unusable. Otherwise there is one set of draws per glyph, and the result is the paths, the final cursor plus 20, and `ascent - descent`. |
| FontPath.GetTextPath | src/font.ts:17-45 | A missing font fails with "Font not loaded". Otherwise the result is that of `DrawText` over the font's layout of the text. |
| CaptchaGenerator.DefaultChars | src/index.ts:194-207 | `letter` gives the 52 letters, `mix` the digits then the letters, and `formula` the empty set. Any other or absent type gives the digits. |
| CaptchaGenerator.Defaults | src/index.ts:35-47 | The length is 2 exactly when a truthy length is passed or the type is `formula`, and 4 otherwise. Absent or falsy options take the defaults: type `number`, the bundled font path, noise 1, noise width 5, no background, no ignored characters, characters by type, and width and height 0. A truthy option is kept as given. |
| CaptchaGenerator.LengthPrecedence | src/index.ts:39 | An explicit length of 4 still gives 2, and a formula without a length gets 2. No length gives 4, and a zero length gives 4. |
| CaptchaGenerator.EffectiveChars | src/index.ts:126-129 | A character is in the effective set exactly when it is in `chars` and not in `ignoreChars`. |
| CaptchaGenerator.EffectiveCharsAppend | src/index.ts:126-129 | Filtering distributes over concatenation, so it keeps the order. |
| CaptchaGenerator.EffectiveCharsKeeps | src/index.ts:126-129 | A set without ignored characters is kept as it is. |
| CaptchaGenerator.EffectiveCharsIdempotent | src/index.ts:126-129 | Filtering twice is filtering once. |
| CaptchaGenerator.DefaultsAllowText | src/index.ts:130-132 | A constructed formula captcha always has a text. Any other fails exactly when every character is ignored. |
| CaptchaGenerator.FormulaTextAnswered | src/index.ts:134-137 | A generated formula always has an answer, and it is a whole number. |
| CaptchaGenerator.ContentAnswer | src/index.ts:66-71 | Given content is the text verbatim. It is its own answer, except for the formula type, whose answer is the text of the content's value; that fails exactly when the content has no value. |
| CaptchaGenerator.ResolveProperties | src/index.ts:80-89 | An explicit size is kept, and a zero one becomes the natural size, that is scale 1. The resolved size is non-zero, so later calls keep it. |
| CaptchaGenerator.RectSpansViewBox | src/index.ts:148-153 | After a resize, the background rectangle is the resolved size times the scale. It spans the view box along an axis exactly when that axis resolved to its natural size, so a zero width or height option always spans it. |
| CaptchaGenerator.NoiseCountIff | src/index.ts:170 | The loop runs for exactly the naturals below `noise`. |
| CaptchaGenerator.NoiseCountOfWhole | src/index.ts:170 | A whole number n of noise lines gives n turns. |
| CaptchaGenerator.NoiseElementShape | src/index.ts:182-185 | A noise `<path>` moves to the start point, goes on with a cubic segment, ends at the end point, and closes with the line's stroke colour, the noise width and `fill="none"`. |
| CaptchaGenerator.NoiseElementsShape | src/index.ts:182-185 | There is one noise `<path>` per line, in the lines' order, each of that shape for its own line. |
| CaptchaGenerator.SvgDocumentOpens | src/index.ts:73-91 | The document opens with the SVG root, which carries only the namespace and `viewBox="0 0 ...`, with no width or height attributes. |
| CaptchaGenerator.SvgDocumentBackground | src/index.ts:91-94 | The first element after the root is the background rectangle, sized to the resolved width and height times the scale. |
| CaptchaGenerator.SvgDocumentCloses | src/index.ts:97-106 | The document ends with `</svg>`. Without noise lines the glyph group comes just before it. |
| CaptchaGenerator.DrawNoiseLine | src/index.ts:171-180 | One turn fails exactly when the background is unusable. Otherwise the line has a font colour for the background and coordinates in their bands. |
| CaptchaGenerator.DrawNoiseCurve | src/index.ts:172-180 | Each coordinate is its `getRandomInt` lower bound plus a whole number below the range `max - min + 1`, wherever that range is positive. Start x minus 1 lies in [0, w/10) and end x minus 9w/10 in [0, w/10 + 1). The first control x minus w/10 and the second minus w/2 lie in [0, 2w/5 + 1). Each y minus 1 lies in [0, h). For a fractional h a y can exceed h. |
| CaptchaGenerator.Captcha.constructor | src/index.ts:34-52 | The options are the defaults of the given options. Scale is (1, 1), no font is set yet, and the load outcome is recorded. |
| CaptchaGenerator.Captcha.GenerateText | src/index.ts:120-143 | The call fails exactly when no text is possible: an empty effective set for a non-formula type, or no operands. Otherwise, for a formula, the text has the formula shape and is answered by its value; for any other type it is `length` characters of the effective set, answered by itself. |
| CaptchaGenerator.Captcha.NoiseLines | src/index.ts:159-189 | There are `ceil(noise)` lines over the scaled area. Each has its own colour draws, and they are joined by newlines. The call fails exactly when there is a line and the background is unusable. |
| CaptchaGenerator.Captcha.ChooseText | src/index.ts:66-72 | Non-empty content is used as given, and otherwise a text is generated. The call fails exactly when no text is available. |
| CaptchaGenerator.Captcha.Resize | src/index.ts:80-89 | Zero width or height options become the natural size, and non-zero ones are kept. The scale is option over natural per axis. Nothing else changes. |
| CaptchaGenerator.Captcha.Draw | src/index.ts:75-114 | The call fails exactly when the background does not parse and either the layout has a glyph or `noise > 0`, and a failure carries the background's error. A failure with a non-empty layout leaves options and scale unchanged. With an empty layout it fails only at the noise lines, after the size was resolved against the 40 by (ascent − descent) natural size. On success it lays out the text, resolves the size, derives the scale and draws `ceil(noise)` noise lines only when `noise > 0`. The svg is the ordered document, and the result reports the answer, the background, the resolved size and the scale. |
| CaptchaGenerator.Captcha.Render | src/index.ts:66-106 | The text and answer are chosen first, then drawn. An unavailable text gives its error and leaves options and scale unchanged. For an available text the call fails exactly when the background does not parse and either the layout has a glyph or `noise > 0`, with the background's error. Options and scale are then unchanged for a non-empty layout and resized for an empty one. |
| CaptchaGenerator.Captcha.Generate | src/index.ts:59-115 | A failed font load fails and changes nothing. Otherwise the font is set, and the background is the configured one or a random one. With a random background the call succeeds exactly when a text is available. With a configured one and an available text, it fails exactly when the background does not parse and either the layout has a glyph or `noise > 0`. A failure leaves options and scale unchanged, except that an empty layout has already resized them. Only width and height among the options change, and the result is a complete rendering of the chosen text. |

## Left out

- Font loading is left out. Opening a font file with fontkit, the `#status` promise, `await`, and the `path.resolve` of the default font path are file I/O and asynchronous calls. The constructor takes the outcome of the load as a parameter, and the default path is kept as the relative asset path.
- The font is a given value: its ascent, descent, layout and SVG rendering of a glyph outline are functions. Fontkit's shaping and path serialisation are out of scope.
- CaptchaGenerator.UsableFont: only fonts whose ascent exceeds their descent are modelled. Otherwise the natural height is not positive, and the scale is a division by zero, an infinity or NaN in the engine.
- FontPath.Glyph: advance widths are non-negative, as in every font.
- The glyph outline commands that `getTextPath` overwrites in place belong to the foreign font object. The model keeps the perturbed copy in the glyph's draws instead.
- `Math.random()` is any real in [0, 1). Only the ranges of the draws are modelled, not their distribution.
- Numbers are exact reals, not IEEE doubles. `Math.round` is `floor(x + 0.5)`, and the `%` operator is written out for either sign. Rounding errors of the engine are not modelled.
- Number-to-text conversion in SVG attributes is the parameter `show`. Only whole numbers below 10^21, used in `rgb(...)` colours and formula answers, are written exactly.
- Formula.Evaluate: only formulas of the arithmetic grammar in `formula.dfy` are evaluated: digits, `+ - * /`, and one optional leading minus. Other JavaScript has no value here. Division by zero has no value either, where the engine gives an infinity. No generated formula contains a division.
- Formula.GeneratePositiveFormula: the source loops until it draws a non-negative formula. `fuel` bounds the number of draws, and running out is the error `StillSampling`.
- Color.RgbToHsl: defined for channels in [0, 255], its documented domain. Outside it a saturation denominator can be zero. `calculateFontColor` needs only the lightness, which `Color.Lightness` defines for every channel value.
- Color.HslToRgb: integer arguments only, as every caller passes.
- CaptchaGenerator.StringGiven: JavaScript truthiness of options covers the empty string and zero. NaN options are not modelled.
- CharacterSets, text filtering and Color.HexToRgb work on Dafny characters (Unicode scalar values). The source's `split("")` and `length` count UTF-16 code units, which differs only for characters outside the Basic Multilingual Plane. For example, `#😀a` has length 3 in the source, so `hexToRgb` returns the channels (NaN, NaN, 170) (src/color.ts:150-156) and `calculateFontColor` then yields `rgb(NaN, NaN, NaN)` (src/color.ts:9-33). Color.HexBody measures 2 and rejects it.
- CaptchaGenerator.SvgDocument: the document is modelled as one function of its parts, not as the sequence of `+=` steps that builds it. The glyph and noise strings are rendered from the recorded draws after the loops.
- `example/generate-captcha.js` only writes files and is not part of this model. `src/types.ts` provides the shapes of the option and result records only.

## Behaviour worth knowing

- `length` is 2 whenever a truthy length is passed, and 4 otherwise unless the type is `formula`: `||` binds tighter than `?:` (src/index.ts:39).
- The `rgb(...)` pattern admits no sign and at most three digits per channel (src/color.ts:172). `rgb(300,-5,0)` is rejected, and `rgb(300,5,0)` is accepted with its first channel clamped to 255 (src/color.ts:176-178).
- The noise stroke width is `noiseWidth || 5`, a fixed 5 unless one is given (src/index.ts:44).
- The glyph cursor moves on from the jittered position, `dx + advanceWidth` (src/font.ts:36-40).
- The SVG root carries a `viewBox` and no width or height attributes (src/index.ts:73 and src/index.ts:91). The scale is option over natural size on each axis separately (src/index.ts:88-89).
- `generatePositiveFormula` draws again until the formula is non-negative, with no limit on the number of draws (src/random.ts:62-68).
