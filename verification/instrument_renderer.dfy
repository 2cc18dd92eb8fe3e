/** `InstrumentRenderer`: the per-frame bridge between one gauge and the
    host's graphics context. Panel geometry and cursor positions are
    integers; the graphics context is the record `GlState` of the state the
    renderer touches, and the plugin's draw callback is an arbitrary
    transformer of that record. */
module InstrumentRenderer {
  import opened Wrappers
  import opened GaugeLoader
  import FileDialog

  datatype Point = Point(x: int, y: int)

  /** The panel origin and size shared by every renderer (the static
      `m_Position` and `m_Size`). */
  datatype Panel = Panel(position: Point, size: Point)

  const InitialPanel: Panel := Panel(Point(0, 0), Point(0, 0))

  /** A `glViewport` rectangle: lower-left corner, width, height. */
  datatype Viewport = Viewport(x: int, y: int, width: int, height: int)

  /** The part of the graphics state the renderer reads or writes. */
  datatype GlState = GlState(viewport: Viewport, scissorTest: bool, blend: bool,
                             cullFace: bool, depthTest: bool)

  /** `sGaugeDrawData`. */
  datatype DrawData = DrawData(mx: int, my: int, t: real, dt: real,
                               winWidth: int, winHeight: int, fbWidth: int, fbHeight: int)

  /** One call of the plugin's draw callback and the state it ran in. */
  datatype DrawCall = DrawCall(fn: Symbol, ctx: Ctx, data: DrawData, state: GlState)

  /** The plugin's draw callback: any change to the graphics state. */
  type DrawFn = (Ctx, DrawData, GlState) -> GlState

  datatype RenderOutcome = RenderOutcome(gl: GlState, call: Option<DrawCall>)

  /** The viewport covering the whole framebuffer. */
  function FullViewport(displayW: int, displayH: int): Viewport {
    Viewport(0, 0, displayW, displayH)
  }

  /** The viewport over the panel. The panel's origin is its top-left
      corner with y growing downwards; the viewport's is its bottom-left
      corner with y growing upwards. */
  function PanelViewport(panel: Panel, displayH: int): (v: Viewport)
    ensures v.x == panel.position.x && v.width == panel.size.x && v.height == panel.size.y
    ensures v.y + v.height == displayH - panel.position.y
  {
    Viewport(panel.position.x, displayH - panel.position.y - panel.size.y, panel.size.x, panel.size.y)
  }

  /** The draw data of a frame: panel-local cursor, no delta time, and the
      panel size as both window and framebuffer size. */
  function FrameData(panel: Panel, mouse: Point, time: real): (d: DrawData)
    ensures d.mx + panel.position.x == mouse.x && d.my + panel.position.y == mouse.y
    ensures d.t == time && d.dt == 0.0
    ensures d.winWidth == d.fbWidth == panel.size.x && d.winHeight == d.fbHeight == panel.size.y
  {
    DrawData(mouse.x - panel.position.x, mouse.y - panel.position.y, time, 0.0,
             panel.size.x, panel.size.y, panel.size.x, panel.size.y)
  }

  /** `InstrumentRenderer::RenderContents`. The viewport is first set to the
      whole framebuffer. Only when the panel has a positive width and height
      is the state saved, blending and face culling enabled, depth and
      scissor tests disabled, the viewport narrowed to the panel and the
      plugin's draw called; afterwards the saved viewport comes back and the
      scissor test is re-enabled if it had been on. Blending, culling and
      depth testing are left as the plugin left them. */
  function RenderContents(r: Renderer, panel: Panel, gl: GlState, displayW: int, displayH: int,
                          mouse: Point, time: real, draw: DrawFn): (o: RenderOutcome)
    ensures o.gl.viewport == FullViewport(displayW, displayH)
    ensures o.call.Some? <==> panel.size.x > 0 && panel.size.y > 0
    ensures o.call.None? ==> o.gl == gl.(viewport := FullViewport(displayW, displayH))
    ensures o.call.Some? ==>
      var c := o.call.value;
      && c.fn == r.gauge.draw && c.ctx == r.gaugeCtx
      && c.data == FrameData(panel, mouse, time)
      && c.state == GlState(PanelViewport(panel, displayH), false, true, true, false)
      && var after := draw(c.ctx, c.data, c.state);
         && o.gl.scissorTest == (gl.scissorTest || after.scissorTest)
         && o.gl.blend == after.blend
         && o.gl.cullFace == after.cullFace
         && o.gl.depthTest == after.depthTest
  {
    var full := gl.(viewport := FullViewport(displayW, displayH));
    if panel.size.x > 0 && panel.size.y > 0 then
      var lastViewport := full.viewport;
      var lastScissor := full.scissorTest;
      var inside := GlState(PanelViewport(panel, displayH), false, true, true, false);
      var data := FrameData(panel, mouse, time);
      var after := draw(r.gaugeCtx, data, inside);
      var restored := after.(viewport := lastViewport);
      var final := if lastScissor then restored.(scissorTest := true) else restored;
      RenderOutcome(final, Some(DrawCall(r.gauge.draw, r.gaugeCtx, data, inside)))
    else
      RenderOutcome(full, None)
  }

  /** A scissor test that was on before the frame is on after it, whatever
      the plugin does; the viewport always ends on the full framebuffer. */
  lemma ScissorAndViewportRestored(r: Renderer, panel: Panel, gl: GlState, displayW: int, displayH: int,
                                   mouse: Point, time: real, draw: DrawFn)
    requires gl.scissorTest
    ensures var o := RenderContents(r, panel, gl, displayW, displayH, mouse, time, draw);
            o.gl.scissorTest && o.gl.viewport == Viewport(0, 0, displayW, displayH)
  {
  }

  /** The panel viewport is the panel flipped into the framebuffer's
      bottom-up rows: panel row `py` lands on framebuffer row
      `displayH - 1 - py`, and exactly the panel's rows land inside. */
  lemma ViewportIsFlippedPanel(panel: Panel, displayH: int, py: int)
    ensures var v := PanelViewport(panel, displayH);
            (panel.position.y <= py < panel.position.y + panel.size.y)
              <==> (v.y <= displayH - 1 - py < v.y + v.height)
  {
  }

  /** `CreateImGuiWindow`'s input from the UI this frame: the content
      origin and size of the window, the cursor, and whether the panel's
      invisible button was clicked. */
  datatype UiFrame = UiFrame(cursorScreenPos: Point, contentRegionAvail: Point, mouse: Point, clicked: bool)

  /** One call of the plugin's mouse handler. */
  datatype MouseCall = MouseCall(fn: Symbol, ctx: Ctx, x: int, y: int, flags: int)

  datatype WindowOutcome = WindowOutcome(panel: Panel, nextWindowSize: Point, title: string, click: Option<MouseCall>)

  /** `s` is made of decimal digits only. */
  predicate IsDigits(s: string) {
    forall i :: 0 <= i < |s| ==> '0' <= s[i] <= '9'
  }

  /** The decimal text of a natural number. */
  function NatToString(n: nat): (s: string)
    ensures |s| >= 1 && IsDigits(s)
    decreases n
  {
    if n < 10 then [DigitChar(n)] else NatToString(n / 10) + [DigitChar(n % 10)]
  }

  function DigitChar(d: nat): (c: char)
    requires d < 10
    ensures '0' <= c <= '9'
  {
    (48 + d) as char
  }

  /** `std::to_string` of an `int`. */
  function IntToString(i: int): (s: string)
    ensures |s| >= 1 && 'x' !in s && ' ' !in s
  {
    if i < 0 then "-" + NatToString(-i) else NatToString(i)
  }

  /** The value of a string of decimal digits. */
  function DigitsValue(s: string): nat
    requires IsDigits(s)
  {
    if |s| == 0 then 0 else DigitsValue(s[..|s| - 1]) * 10 + (s[|s| - 1] as int - 48)
  }

  /** The integer a `std::to_string` result stands for; none when the text
      is not one. */
  function ParseInt(s: string): Option<int> {
    if |s| > 1 && s[0] == '-' && IsDigits(s[1..]) then
      var magnitude: int := DigitsValue(s[1..]);
      Some(-magnitude)
    else if |s| > 0 && IsDigits(s) then
      Some(DigitsValue(s))
    else None
  }

  lemma {:induction false} NatToStringRoundTrip(n: nat)
    ensures DigitsValue(NatToString(n)) == n
    decreases n
  {
    if n >= 10 {
      var s := NatToString(n);
      assert s[..|s| - 1] == NatToString(n / 10);
      NatToStringRoundTrip(n / 10);
    }
  }

  /** Printing an integer and reading it back gives the integer. */
  lemma IntToStringRoundTrip(i: int)
    ensures ParseInt(IntToString(i)) == Some(i)
  {
    if i < 0 {
      NegativeRoundTrip(-i);
    } else {
      NonNegativeRoundTrip(i);
    }
  }

  /** The text of a negative number reads back as that number. */
  lemma NegativeRoundTrip(n: nat)
    ensures ParseInt("-" + NatToString(n)) == Some(-(n as int))
  {
    var s := "-" + NatToString(n);
    assert s[1..] == NatToString(n);
    NatToStringRoundTrip(n);
  }

  /** The text of a natural number reads back as that number. */
  lemma NonNegativeRoundTrip(n: nat)
    ensures ParseInt(NatToString(n)) == Some(n)
  {
    var s := NatToString(n);
    assert '0' <= s[0] <= '9';
    NatToStringRoundTrip(n);
  }

  /** The separator between width and height in a window title. */
  const SizeSeparator: string := "x"

  /** The window title: the renderer's title, a space, and the gauge's
      native size as `<width>x<height>`. */
  function WindowTitle(r: Renderer): string {
    r.GetTitle() + " " + IntToString(r.gauge.mountParams.width) + SizeSeparator + IntToString(r.gauge.mountParams.height)
  }

  /** Reads `<width>x<height>` back from the part of a title after the
      renderer's title and the space. */
  function ParseSize(s: string): Option<MountParams> {
    match FileDialog.Find(s, SizeSeparator)
    case None => None
    case Some(i) =>
      match (ParseInt(s[..i]), ParseInt(s[i + 1..]))
      case (Some(w), Some(h)) => Some(MountParams(w, h))
      case _ => None
  }

  /** A size printed as `<width>x<height>` reads back as that size. */
  lemma PrintedSizeParses(width: int, height: int)
    ensures ParseSize(IntToString(width) + SizeSeparator + IntToString(height)) == Some(MountParams(width, height))
  {
    var w := IntToString(width);
    var h := IntToString(height);
    var rest := w + SizeSeparator + h;
    assert rest[..|w|] == w;
    assert FileDialog.OccursAt(rest, SizeSeparator, |w|) by {
      assert rest[|w|..|w| + 1] == SizeSeparator;
    }
    forall j: nat | j < |w|
      ensures !FileDialog.OccursAt(rest, SizeSeparator, j)
    {
      assert rest[j] == w[j];
    }
    assert FileDialog.Find(rest, SizeSeparator) == Some(|w|);
    assert rest[|w| + 1..] == h;
    IntToStringRoundTrip(width);
    IntToStringRoundTrip(height);
  }

  /** The size in a window title can always be read back. */
  lemma WindowTitleEncodesSize(r: Renderer)
    ensures var t := WindowTitle(r);
            && |t| > |r.title| + 1
            && t[..|r.title| + 1] == r.title + " "
            && ParseSize(t[|r.title| + 1..]) == Some(r.gauge.mountParams)
  {
    var rest := IntToString(r.gauge.mountParams.width) + SizeSeparator + IntToString(r.gauge.mountParams.height);
    var t := WindowTitle(r);
    assert t == (r.title + " ") + rest;
    assert t[|r.title| + 1..] == rest;
    PrintedSizeParses(r.gauge.mountParams.width, r.gauge.mountParams.height);
  }

  /** `InstrumentRenderer::CreateImGuiWindow`. The next window is sized to
      the gauge's native size and titled with it; the shared panel geometry
      is overwritten with this window's content area; a click calls the
      mouse handler with the cursor relative to that (new) panel origin and
      flags 0. */
  function CreateImGuiWindow(r: Renderer, ui: UiFrame): (o: WindowOutcome)
    ensures o.panel == Panel(ui.cursorScreenPos, ui.contentRegionAvail)
    ensures o.nextWindowSize == Point(r.gauge.mountParams.width, r.gauge.mountParams.height)
    ensures o.title == WindowTitle(r)
    ensures o.click.Some? <==> ui.clicked
    ensures o.click.Some? ==>
      var c := o.click.value;
      && c.fn == r.gauge.mouseHandler && c.ctx == r.gaugeCtx && c.flags == 0
      && c.x + o.panel.position.x == ui.mouse.x && c.y + o.panel.position.y == ui.mouse.y
  {
    var panel := Panel(ui.cursorScreenPos, ui.contentRegionAvail);
    var click :=
      if ui.clicked then
        Some(MouseCall(r.gauge.mouseHandler, r.gaugeCtx,
                       ui.mouse.x - panel.position.x, ui.mouse.y - panel.position.y, 0))
      else None;
    WindowOutcome(panel,
                  Point(r.gauge.mountParams.width, r.gauge.mountParams.height),
                  WindowTitle(r), click)
  }

  /** The draw data and the click report the same panel-local cursor. */
  lemma ClickMatchesDrawCursor(r: Renderer, ui: UiFrame, gl: GlState, displayW: int, displayH: int,
                               time: real, draw: DrawFn)
    requires ui.clicked
    requires ui.contentRegionAvail.x > 0 && ui.contentRegionAvail.y > 0
    ensures var w := CreateImGuiWindow(r, ui);
            var o := RenderContents(r, w.panel, gl, displayW, displayH, ui.mouse, time, draw);
            w.click.value.x == o.call.value.data.mx && w.click.value.y == o.call.value.data.my
  {
  }

  /** The shared panel after every renderer has laid out its window, in
      order: each window overwrites the geometry of the one before. */
  function LayoutWindows(panel: Panel, rs: seq<Renderer>, uis: seq<UiFrame>): Panel
    requires |rs| == |uis|
    decreases |rs|
  {
    if |rs| == 0 then panel
    else LayoutWindows(CreateImGuiWindow(rs[0], uis[0]).panel, rs[1..], uis[1..])
  }

  /** Only the last window's geometry survives the layout; every
      `RenderContents` that follows sees that one panel. */
  lemma {:induction false} LastWindowWins(panel: Panel, rs: seq<Renderer>, uis: seq<UiFrame>)
    requires |rs| == |uis|
    ensures |rs| == 0 ==> LayoutWindows(panel, rs, uis) == panel
    ensures |rs| > 0 ==>
              LayoutWindows(panel, rs, uis) == Panel(uis[|uis| - 1].cursorScreenPos, uis[|uis| - 1].contentRegionAvail)
    decreases |rs|
  {
    if |rs| > 0 {
      var next := CreateImGuiWindow(rs[0], uis[0]).panel;
      LastWindowWins(next, rs[1..], uis[1..]);
      if |rs| > 1 {
        assert uis[1..][|uis| - 2] == uis[|uis| - 1];
      }
    }
  }

  /** Two renderers drawn against the same shared panel get the same
      viewport, whatever their own gauge sizes. */
  lemma SharedPanelSharedViewport(r1: Renderer, r2: Renderer, panel: Panel, gl: GlState,
                                  displayW: int, displayH: int, mouse: Point, time: real, draw: DrawFn)
    requires panel.size.x > 0 && panel.size.y > 0
    ensures RenderContents(r1, panel, gl, displayW, displayH, mouse, time, draw).call.value.state.viewport
         == RenderContents(r2, panel, gl, displayW, displayH, mouse, time, draw).call.value.state.viewport
  {
  }
}
