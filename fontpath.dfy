/** `getTextPath`: one SVG path per laid-out glyph, placed by a running
    x-cursor with a random jitter, and the natural size of the text. The font
    is a given value: its ascent and descent, a layout from text to glyphs
    and the rendering of a glyph outline as SVG path data. */
module FontPath {
  import opened Results
  import opened JsText
  import Random
  import Color

  /** A glyph advance width; fonts do not advance backwards. */
  type Advance = x: real | 0.0 <= x

  /** One outline command and its numeric arguments. */
  datatype PathCommand = PathCommand(command: string, args: seq<real>)

  datatype Glyph = Glyph(advanceWidth: Advance, commands: seq<PathCommand>)

  /** The parts of a loaded font the generator uses. */
  datatype Font = Font(
    ascent: real,
    descent: real,
    layout: string -> seq<Glyph>,
    toSvg: seq<PathCommand> -> string)

  /** The result of `getTextPath`. */
  datatype TextPath = TextPath(paths: seq<string>, width: real, height: real)

  /** The random choices made for one glyph. */
  datatype Placement = Placement(
    commands: seq<PathCommand>,
    color: string,
    scaleX: real,
    scaleY: real,
    jitter: real,
    rotate: int)

  /** Where a glyph is drawn: its draws and its translation. */
  datatype GlyphDraw = GlyphDraw(p: Placement, dx: real, dy: real)

  /** The bounds `getRandomInt` is given for the jitter of a glyph. */
  function JitterBound(g: Glyph): real
  {
    g.advanceWidth / 2.0 / 3.0
  }

  /** The commands with every argument perturbed, names kept. */
  predicate PerturbedCommands(cmds: seq<PathCommand>, out: seq<PathCommand>)
  {
    && |out| == |cmds|
    && forall k :: 0 <= k < |cmds| ==>
         out[k].command == cmds[k].command && Random.Perturbed(cmds[k].args, out[k].args)
  }

  /** The draws for one glyph: perturbed outline, a colour
      `calculateFontColor(bg)` returns, the scale factors, the jitter and an
      integer rotation in [-20, 20]. */
  ghost predicate Placed(g: Glyph, p: Placement, bg: string)
  {
    && PerturbedCommands(g.commands, p.commands)
    && Color.FontColorResult(bg, p.color)
    && 0.98 <= p.scaleX < 1.02
    && -1.02 <= p.scaleY < -0.98
    && Random.InDrawRange(p.jitter, -JitterBound(g), JitterBound(g))
    && -20 <= p.rotate <= 20
  }

  /** `Placed`, with the colour tied to the hue, saturation and lightness `d`
      that `calculateFontColor` drew. */
  ghost predicate PlacedDrawn(g: Glyph, p: Placement, d: Color.Hsl, bg: string)
  {
    && PerturbedCommands(g.commands, p.commands)
    && Color.FontColorDrawn(bg, d, p.color)
    && 0.98 <= p.scaleX < 1.02
    && -1.02 <= p.scaleY < -0.98
    && Random.InDrawRange(p.jitter, -JitterBound(g), JitterBound(g))
    && -20 <= p.rotate <= 20
  }

  lemma PlacedOfDrawn(glyphs: seq<Glyph>, ps: seq<Placement>, ds: seq<Color.Hsl>, bg: string)
    requires |ps| == |ds| <= |glyphs|
    requires forall k :: 0 <= k < |ps| ==> PlacedDrawn(glyphs[k], ps[k], ds[k], bg)
    ensures forall k :: 0 <= k < |ps| ==> Placed(glyphs[k], ps[k], bg)
  {
    forall k | 0 <= k < |ps|
      ensures Placed(glyphs[k], ps[k], bg)
    {
      Color.FontColorDrawnResult(bg, ds[k], ps[k].color);
    }
  }

  /** The `<path>` element of a glyph drawn at `(dx, dy)`; `show` is the
      engine's conversion of a number to text. */
  function GlyphElement(f: Font, p: Placement, dx: real, dy: real, show: real -> string): string
  {
    "<path d=\"" + f.toSvg(p.commands) + "\" fill=\"" + p.color
      + "\" transform=\"scale(" + show(p.scaleX) + "," + show(p.scaleY)
      + ") translate(" + show(dx) + "," + show(dy)
      + ") rotate(" + show(p.rotate as real) + ")\"/>"
  }

  /** Where the first `|ps|` glyphs are drawn with the draws `ps`, and the
      cursor after them. The cursor starts at the 20-unit left margin; each
      glyph is drawn at the cursor plus its jitter and at the height of the
      ascent, and the cursor then moves to that position plus the advance
      width. */
  function DrawGlyphs(glyphs: seq<Glyph>, ps: seq<Placement>, ascent: real): (seq<GlyphDraw>, real)
    requires |ps| <= |glyphs|
    decreases |ps|
  {
    if |ps| == 0 then ([], 20.0)
    else
      var n := |ps| - 1;
      var before := DrawGlyphs(glyphs, ps[..n], ascent);
      var dx := before.1 + ps[n].jitter;
      (before.0 + [GlyphDraw(ps[n], dx, -ascent)], dx + glyphs[n].advanceWidth)
  }

  /** The `<path>` elements of the drawn glyphs, in order. */
  function Elements(f: Font, draws: seq<GlyphDraw>, show: real -> string): seq<string>
    decreases |draws|
  {
    if |draws| == 0 then []
    else
      var n := |draws| - 1;
      Elements(f, draws[..n], show) + [GlyphElement(f, draws[n].p, draws[n].dx, draws[n].dy, show)]
  }

  /** The text path `getTextPath` returns for the draws `ps`: the paths, the
      final cursor plus the 20-unit right margin, and the ascent-to-descent
      height. */
  function TextPathOf(f: Font, glyphs: seq<Glyph>, ps: seq<Placement>, show: real -> string): TextPath
    requires |ps| <= |glyphs|
  {
    var drawn := DrawGlyphs(glyphs, ps, f.ascent);
    TextPath(Elements(f, drawn.0, show), drawn.1 + 20.0, f.ascent - f.descent)
  }

  /** One draw per glyph; glyph `k` is drawn at the cursor the first `k`
      glyphs leave plus its jitter, at the height of the ascent. */
  lemma {:induction false} DrawGlyphsAt(glyphs: seq<Glyph>, ps: seq<Placement>, ascent: real, k: nat)
    requires |ps| <= |glyphs| && k < |ps|
    ensures |DrawGlyphs(glyphs, ps, ascent).0| == |ps|
    ensures DrawGlyphs(glyphs, ps, ascent).0[k] ==
      GlyphDraw(ps[k], DrawGlyphs(glyphs, ps[..k], ascent).1 + ps[k].jitter, -ascent)
    decreases |ps|
  {
    var n := |ps| - 1;
    DrawGlyphsLength(glyphs, ps[..n], ascent);
    if k < n {
      DrawGlyphsAt(glyphs, ps[..n], ascent, k);
      assert ps[..n][k] == ps[k] && ps[..n][..k] == ps[..k];
    } else {
      assert ps[..k] == ps[..n];
    }
  }

  /** Drawing one more glyph appends its draw and moves the cursor on. */
  lemma DrawGlyphsSnoc(glyphs: seq<Glyph>, ps: seq<Placement>, p: Placement, ascent: real)
    requires |ps| < |glyphs|
    ensures DrawGlyphs(glyphs, ps + [p], ascent).0 ==
      DrawGlyphs(glyphs, ps, ascent).0 + [GlyphDraw(p, DrawGlyphs(glyphs, ps, ascent).1 + p.jitter, -ascent)]
    ensures DrawGlyphs(glyphs, ps + [p], ascent).1 ==
      DrawGlyphs(glyphs, ps, ascent).1 + p.jitter + glyphs[|ps|].advanceWidth
  {
    assert (ps + [p])[..|ps|] == ps;
  }

  lemma PlacedSnoc(glyphs: seq<Glyph>, ps: seq<Placement>, ds: seq<Color.Hsl>, bg: string, p: Placement, d: Color.Hsl)
    requires |ps| == |ds| < |glyphs|
    requires forall k :: 0 <= k < |ps| ==> PlacedDrawn(glyphs[k], ps[k], ds[k], bg)
    requires PlacedDrawn(glyphs[|ps|], p, d, bg)
    ensures forall k :: 0 <= k < |ps| + 1 ==> PlacedDrawn(glyphs[k], (ps + [p])[k], (ds + [d])[k], bg)
  {
    forall k | 0 <= k < |ps| + 1
      ensures PlacedDrawn(glyphs[k], (ps + [p])[k], (ds + [d])[k], bg)
    {
      if k < |ps| {
        assert (ps + [p])[k] == ps[k] && (ds + [d])[k] == ds[k];
      }
    }
  }

  /** Placing one more glyph appends its draw at the cursor plus its jitter
      and moves the cursor past its advance. */
  lemma DrawsStep(glyphs: seq<Glyph>, ps: seq<Placement>, p: Placement, ascent: real,
                  draws: seq<GlyphDraw>, width: real, g: Glyph, dx: real, dy: real)
    requires |ps| < |glyphs| && g == glyphs[|ps|] && dx == width + p.jitter && dy == -ascent
    requires draws == DrawGlyphs(glyphs, ps, ascent).0 && width == DrawGlyphs(glyphs, ps, ascent).1
    ensures draws + [GlyphDraw(p, dx, dy)] == DrawGlyphs(glyphs, ps + [p], ascent).0
    ensures dx + g.advanceWidth == DrawGlyphs(glyphs, ps + [p], ascent).1
  {
    DrawGlyphsSnoc(glyphs, ps, p, ascent);
  }

  lemma {:induction false} DrawGlyphsLength(glyphs: seq<Glyph>, ps: seq<Placement>, ascent: real)
    requires |ps| <= |glyphs|
    ensures |DrawGlyphs(glyphs, ps, ascent).0| == |ps|
    decreases |ps|
  {
    if |ps| > 0 {
      DrawGlyphsLength(glyphs, ps[..|ps| - 1], ascent);
    }
  }

  /** One element per draw, each rendered from its own draw. */
  lemma {:induction false} ElementsAt(f: Font, draws: seq<GlyphDraw>, show: real -> string, k: nat)
    requires k < |draws|
    ensures |Elements(f, draws, show)| == |draws|
    ensures Elements(f, draws, show)[k] == GlyphElement(f, draws[k].p, draws[k].dx, draws[k].dy, show)
    decreases |draws|
  {
    var n := |draws| - 1;
    ElementsLength(f, draws[..n], show);
    if k < n {
      ElementsAt(f, draws[..n], show, k);
      assert draws[..n][k] == draws[k];
    }
  }

  lemma {:induction false} ElementsLength(f: Font, draws: seq<GlyphDraw>, show: real -> string)
    ensures |Elements(f, draws, show)| == |draws|
    decreases |draws|
  {
    if |draws| > 0 {
      ElementsLength(f, draws[..|draws| - 1], show);
    }
  }

  /** The outline perturbation applied to every command of a glyph. */
  method PerturbCommands(cmds: seq<PathCommand>) returns (out: seq<PathCommand>)
    ensures PerturbedCommands(cmds, out)
  {
    out := [];
    for i := 0 to |cmds|
      invariant |out| == i
      invariant forall k :: 0 <= k < i ==>
        out[k].command == cmds[k].command && Random.Perturbed(cmds[k].args, out[k].args)
    {
      var args := Random.PerturbCommand(cmds[i].args);
      out := out + [PathCommand(cmds[i].command, args)];
    }
  }

  /** `1 + (Math.random() - 0.5) * 0.04` and its mirror below -1. */
  method ScaleJitter(centre: real) returns (v: real)
    ensures centre - 0.02 <= v < centre + 0.02
  {
    var u := Random.RandomReal();
    v := centre + (u - 0.5) * 0.04;
  }

  /** `getRandomInt(-halfFontWidth / 3, halfFontWidth / 3)`. */
  method Jitter(g: Glyph) returns (jitter: real)
    ensures Random.InDrawRange(jitter, -JitterBound(g), JitterBound(g))
  {
    jitter := Random.GetRandomInt(-JitterBound(g), JitterBound(g));
  }

  /** The draws for one glyph, in the order the source makes them. */
  method PlaceGlyph(g: Glyph, bg: string) returns (res: Result<Placement>, ghost d: Color.Hsl)
    ensures res.Err? <==> Color.BackgroundChannels(bg).Err?
    ensures res.Err? ==> res.error == Color.BackgroundChannels(bg).error
    ensures res.Ok? ==> PlacedDrawn(g, res.value, d, bg)
  {
    var commands := PerturbCommands(g.commands);
    var color;
    color, d := Color.CalculateFontColor(bg);
    if color.Err? {
      return Err(color.error), d;
    }
    var scaleX := ScaleJitter(1.0);
    var scaleY := ScaleJitter(-1.0);
    var jitter := Jitter(g);
    var rotate := Random.RandomIntBetween(-20, 20);
    res := Ok(Placement(commands, color.value, scaleX, scaleY, jitter, rotate));
    assert PlacedDrawn(g, res.value, d, bg);
  }

  /** `getTextPath(font, text, bgColor)`. The ghost `ps` records the draws.
      The font colour is computed once per glyph, so an unusable background
      is an error exactly when there is a glyph to colour. */
  method GetTextPath(font: Option<Font>, text: string, bg: string, show: real -> string)
    returns (res: Result<TextPath>, ghost ps: seq<Placement>)
    ensures font.None? ==> res == Err(FontNotLoaded)
    ensures font.Some? ==>
      (res.Err? <==> |font.value.layout(text)| > 0 && Color.BackgroundChannels(bg).Err?)
    ensures font.Some? && res.Err? ==> res.error == Color.BackgroundChannels(bg).error
    ensures res.Ok? ==>
      && font.Some? && |ps| == |font.value.layout(text)|
      && (forall k :: 0 <= k < |ps| ==> Placed(font.value.layout(text)[k], ps[k], bg))
      && res.value == TextPathOf(font.value, font.value.layout(text), ps, show)
  {
    if font.None? {
      return Err(FontNotLoaded), [];
    }
    res, ps := DrawText(font.value, font.value.layout(text), bg, show);
  }

  /** The loop of `getTextPath` over the glyphs of a loaded font. */
  method DrawText(f: Font, glyphs: seq<Glyph>, bg: string, show: real -> string)
    returns (res: Result<TextPath>, ghost ps: seq<Placement>)
    ensures res.Err? <==> |glyphs| > 0 && Color.BackgroundChannels(bg).Err?
    ensures res.Err? ==> res.error == Color.BackgroundChannels(bg).error
    ensures res.Ok? ==>
      && |ps| == |glyphs|
      && (forall k :: 0 <= k < |ps| ==> Placed(glyphs[k], ps[k], bg))
      && res.value == TextPathOf(f, glyphs, ps, show)
  {
    ps := [];
    var width := 20.0;
    var draws: seq<GlyphDraw> := [];
    ghost var ds: seq<Color.Hsl> := [];
    for i := 0 to |glyphs|
      invariant |ps| == i && |ds| == i
      invariant forall k :: 0 <= k < i ==> PlacedDrawn(glyphs[k], ps[k], ds[k], bg)
      invariant draws == DrawGlyphs(glyphs, ps, f.ascent).0
      invariant width == DrawGlyphs(glyphs, ps, f.ascent).1
      invariant i > 0 ==> Color.BackgroundChannels(bg).Ok?
    {
      var g := glyphs[i];
      var placed;
      ghost var d;
      placed, d := PlaceGlyph(g, bg);
      if placed.Err? {
        return Err(placed.error), ps;
      }
      var p := placed.value;
      var dx := width + p.jitter;
      var dy := -f.ascent;
      PlacedSnoc(glyphs, ps, ds, bg, p, d);
      DrawsStep(glyphs, ps, p, f.ascent, draws, width, g, dx, dy);
      ps := ps + [p];
      ds := ds + [d];
      draws := draws + [GlyphDraw(p, dx, dy)];
      width := dx + g.advanceWidth;
    }
    width := width + 20.0;
    PlacedOfDrawn(glyphs, ps, ds, bg);
    var paths := Elements(f, draws, show);
    return Ok(TextPath(paths, width, f.ascent - f.descent)), ps;
  }

  /** The advance widths of the first `k` glyphs. */
  function Advances(glyphs: seq<Glyph>, k: nat): real
    requires k <= |glyphs|
  {
    if k == 0 then 0.0 else Advances(glyphs, k - 1) + glyphs[k - 1].advanceWidth
  }

  /** The jitter of a glyph is at least minus a sixth of its advance and at
      most a sixth plus one, and it differs from minus a sixth by an integer. */
  lemma JitterRange(g: Glyph, jitter: real)
    requires Random.InDrawRange(jitter, -JitterBound(g), JitterBound(g))
    ensures -(g.advanceWidth / 6.0) <= jitter < g.advanceWidth / 6.0 + 1.0
    ensures IsInteger(jitter + g.advanceWidth / 6.0)
  {
    assert JitterBound(g) == g.advanceWidth / 6.0;
  }

  /** Each glyph moves the cursor forward by at least five sixths of its
      advance and at most seven sixths plus one. */
  lemma {:induction false} CursorBounds(f: Font, glyphs: seq<Glyph>, ps: seq<Placement>)
    requires |ps| <= |glyphs|
    requires forall k :: 0 <= k < |ps| ==> Random.InDrawRange(ps[k].jitter, -JitterBound(glyphs[k]), JitterBound(glyphs[k]))
    ensures 20.0 + Advances(glyphs, |ps|) * 5.0 / 6.0 <= DrawGlyphs(glyphs, ps, f.ascent).1
    ensures DrawGlyphs(glyphs, ps, f.ascent).1 <= 20.0 + Advances(glyphs, |ps|) * 7.0 / 6.0 + |ps| as real
    decreases |ps|
  {
    if |ps| > 0 {
      var n := |ps| - 1;
      assert forall k :: 0 <= k < n ==> ps[..n][k] == ps[k];
      CursorBounds(f, glyphs, ps[..n]);
      JitterRange(glyphs[n], ps[n].jitter);
    }
  }

  /** The natural width of a text is at least the two 20-unit margins,
      exactly 40 for a text without glyphs, and within a sixth of the
      advance widths (plus one unit per glyph) of margins plus advances. */
  lemma WidthBounds(f: Font, glyphs: seq<Glyph>, bg: string, ps: seq<Placement>, show: real -> string)
    requires |ps| == |glyphs|
    requires forall k :: 0 <= k < |ps| ==> Placed(glyphs[k], ps[k], bg)
    ensures 40.0 + Advances(glyphs, |glyphs|) * 5.0 / 6.0 <= TextPathOf(f, glyphs, ps, show).width
    ensures TextPathOf(f, glyphs, ps, show).width <= 40.0 + Advances(glyphs, |glyphs|) * 7.0 / 6.0 + |glyphs| as real
    ensures TextPathOf(f, glyphs, ps, show).width >= 40.0
    ensures |glyphs| == 0 ==> TextPathOf(f, glyphs, ps, show).width == 40.0
  {
    forall k | 0 <= k < |ps|
      ensures Random.InDrawRange(ps[k].jitter, -JitterBound(glyphs[k]), JitterBound(glyphs[k]))
    {
      assert Placed(glyphs[k], ps[k], bg);
    }
    CursorBounds(f, glyphs, ps);
    AdvancesNonNegative(glyphs, |glyphs|);
  }

  lemma {:induction false} AdvancesNonNegative(glyphs: seq<Glyph>, k: nat)
    requires k <= |glyphs|
    ensures Advances(glyphs, k) >= 0.0
  {
    if k > 0 {
      AdvancesNonNegative(glyphs, k - 1);
    }
  }
}
