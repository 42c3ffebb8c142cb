/**
 * Geometry of the composed photo: the fixed canvas size (`getCanvasDims`) and the
 * layout of the two-column field/value table drawn over the bottom-left corner of
 * the photo. JavaScript numbers are modelled as exact reals; `Math.floor` is `.Floor`.
 */
module CanvasGeometry {

  /** The values read from `canvasConfig`. `fontPx` is the pixel size parsed out of
      `table.font` (16 when the font string names none). */
  datatype CanvasConfig = CanvasConfig(
    width: real,
    height: real,
    widthRatio: real,
    col1Ratio: real,
    fontPx: nat,
    cellPaddingX: real)

  datatype CanvasDims = CanvasDims(width: int, height: int)

  /** One table row: a field name and the value shown beside it. */
  datatype Row = Row(field: string, value: string)

  /** Every quantity the screen derives for the table overlay, under the names it uses. */
  datatype TableLayout = TableLayout(
    minTableWidth: real,
    maxTableWidth: real,
    col1Width: real,
    fontSize: int,
    minCol1Width: real,
    minCol2Width: real,
    maxCol2TextWidth: real,
    requiredCol1Width: real,
    requiredCol2Width: real,
    requiredTableWidth: real,
    tableWidth: real,
    col1FinalWidth: real,
    col2FinalWidth: real,
    rowHeight: real,
    tableHeight: real,
    rows: seq<Row>)

  lemma FloorBounds(x: real)
    ensures x.Floor as real <= x < x.Floor as real + 1.0
  {
  }

  /** A canvas width times a ratio. */
  function Scale(width: int, ratio: real): real {
    width as real * ratio
  }

  lemma ScaleMono(width: nat, a: real, b: real)
    requires a <= b
    ensures Scale(width, a) <= Scale(width, b)
  {
  }

  function Max(a: real, b: real): real { if a >= b then a else b }
  function Min(a: real, b: real): real { if a <= b then a else b }

  /** The height that keeps the configured aspect ratio at a given width, before flooring. */
  function AspectHeight(width: int, cfg: CanvasConfig): real
    requires cfg.width > 0.0
  {
    width as real * cfg.height / cfg.width
  }

  /** The configured font size scaled from the reference width to the canvas, before flooring. */
  function ScaledFontPx(canvasWidth: int, cfg: CanvasConfig): real
    requires cfg.width > 0.0
  {
    canvasWidth as real * cfg.fontPx as real / cfg.width
  }

  /** `getCanvasDims(rotation)`: 70% of the screen width, floored, and the height that keeps the
      configured aspect ratio, floored. The rotation argument plays no part. */
  function GetCanvasDims(screenWidth: real, cfg: CanvasConfig, rotation: int): (d: CanvasDims)
    requires cfg.width > 0.0
    ensures d.width as real <= screenWidth * 0.7 < d.width as real + 1.0
    ensures d.height as real <= AspectHeight(d.width, cfg) < d.height as real + 1.0
    ensures screenWidth >= 0.0 ==> d.width >= 0
    ensures screenWidth >= 0.0 && cfg.height >= 0.0 ==> d.height >= 0
  {
    var baseWidth := (screenWidth * 0.7).Floor;
    FloorBounds(screenWidth * 0.7);
    FloorBounds(AspectHeight(baseWidth, cfg));
    CanvasDims(baseWidth, AspectHeight(baseWidth, cfg).Floor)
  }

  /** Turning the photo never changes the canvas: every rotation gets the same box. */
  lemma CanvasDimsIgnoreRotation(screenWidth: real, cfg: CanvasConfig, r1: int, r2: int)
    requires cfg.width > 0.0
    ensures GetCanvasDims(screenWidth, cfg, r1) == GetCanvasDims(screenWidth, cfg, r2)
  {
  }

  /** A 400-pixel-wide screen with a 4:3 reference aspect gives a 280 x 210 canvas. */
  lemma CanvasDimsExample(cfg: CanvasConfig)
    requires cfg.width == 4.0 && cfg.height == 3.0
    ensures GetCanvasDims(400.0, cfg, 90) == CanvasDims(280, 210)
  {
    assert (400.0 * 0.7).Floor == 280;
    assert (280 as real * 3.0 / 4.0).Floor == 210;
  }

  /** The value the table shows for a field: `formData[field] || ''`. */
  function ValueOf(formData: map<string, string>, field: string): string {
    if field in formData then formData[field] else ""
  }

  /** Estimated pixel width of a value: 0.6 of the font size per character. */
  function TextWidth(value: string, fontSize: int): real {
    |value| as real * fontSize as real * 0.6
  }

  /** The `reduce` over the table entries: the widest value estimate, starting from 0. */
  function MaxCol2TextWidth(fields: seq<string>, formData: map<string, string>, fontSize: int): (r: real)
    ensures r >= 0.0
    ensures forall i :: 0 <= i < |fields| ==> TextWidth(ValueOf(formData, fields[i]), fontSize) <= r
    ensures r == 0.0 || exists i :: 0 <= i < |fields| && r == TextWidth(ValueOf(formData, fields[i]), fontSize)
  {
    if fields == [] then 0.0
    else
      var n := |fields| - 1;
      var acc := MaxCol2TextWidth(fields[..n], formData, fontSize);
      assert forall i :: 0 <= i < n ==> fields[..n][i] == fields[i];
      Max(acc, TextWidth(ValueOf(formData, fields[n]), fontSize))
  }

  /** `Math.max(10, Math.floor(CANVAS_WIDTH * fontPx / canvasConfig.width))`. */
  function FontSize(canvasWidth: int, cfg: CanvasConfig): (r: int)
    requires cfg.width > 0.0
    ensures r >= 10
    ensures ScaledFontPx(canvasWidth, cfg) < 11.0 ==> r == 10
    ensures ScaledFontPx(canvasWidth, cfg) >= 10.0 ==> r as real <= ScaledFontPx(canvasWidth, cfg) < r as real + 1.0
  {
    var x := ScaledFontPx(canvasWidth, cfg);
    FloorBounds(x);
    var scaled := x.Floor;
    if 10 >= scaled then 10 else scaled
  }

  /** A 743-pixel canvas with a 16-pixel font configured for 1080 pixels gets an 11-pixel font. */
  lemma FontSizeExample(cfg: CanvasConfig)
    requires cfg.width == 1080.0 && cfg.fontPx == 16
    ensures FontSize(743, cfg) == 11
  {
    assert ScaledFontPx(743, cfg) == 11888.0 / 1080.0;
  }

  /** The table overlay for a canvas `canvasWidth` wide, one row per field of the selected form
      (no form: no fields), with the current form values. */
  function Layout(canvasWidth: int, cfg: CanvasConfig, fields: seq<string>, formData: map<string, string>): (t: TableLayout)
    requires cfg.width > 0.0
    ensures t.fontSize == FontSize(canvasWidth, cfg) && t.fontSize >= 10
    ensures t.tableWidth <= Scale(canvasWidth, 0.95)
    ensures t.col1FinalWidth + t.col2FinalWidth == t.tableWidth
    ensures t.rowHeight == t.fontSize as real * 2.2
    ensures t.tableHeight == |fields| as real * t.rowHeight
    ensures |t.rows| == |fields|
    ensures forall i :: 0 <= i < |fields| ==> t.rows[i] == Row(fields[i], ValueOf(formData, fields[i]))
  {
    var minTable := Scale(canvasWidth, cfg.widthRatio);
    var maxTable := Scale(canvasWidth, 0.95);
    var col1Width := Scale(canvasWidth, cfg.col1Ratio) * (2.0 / 3.0);
    var fontSize := FontSize(canvasWidth, cfg);
    var minCol1 := fontSize as real * 5.0 * 1.1;
    var minCol2 := fontSize as real * 7.0 * 1.1;
    var maxText := MaxCol2TextWidth(fields, formData, fontSize);
    var req1 := Max(col1Width, minCol1);
    var req2 := Max(maxText + cfg.cellPaddingX * 2.0 + 12.0, minCol2);
    var reqTable := req1 + req2;
    var tableWidth := Min(Max(minTable, reqTable), maxTable);
    var rowHeight := fontSize as real * 2.2;
    var rows := seq(|fields|, i requires 0 <= i < |fields| => Row(fields[i], ValueOf(formData, fields[i])));
    TableLayout(minTable, maxTable, col1Width, fontSize, minCol1, minCol2, maxText,
                req1, req2, reqTable, tableWidth, req1, tableWidth - req1,
                rowHeight, |rows| as real * rowHeight, rows)
  }

  /** The column floors: at least five and seven characters of 1.1 font sizes each, the first
      column at least two thirds of its configured share of the canvas, the second at least the
      widest value's estimate plus both paddings and 12 pixels of slack. Each required width is
      the larger of its two floors, and the required table width is their sum. */
  lemma ColumnFloors(canvasWidth: int, cfg: CanvasConfig, fields: seq<string>, formData: map<string, string>)
    requires cfg.width > 0.0
    ensures var t := Layout(canvasWidth, cfg, fields, formData);
      && t.requiredCol1Width >= t.fontSize as real * 5.5
      && t.requiredCol1Width >= Scale(canvasWidth, cfg.col1Ratio) * (2.0 / 3.0)
      && t.requiredCol2Width >= t.fontSize as real * 7.7
      && (forall i :: 0 <= i < |fields| ==>
           t.requiredCol2Width >= TextWidth(ValueOf(formData, fields[i]), t.fontSize) + cfg.cellPaddingX * 2.0 + 12.0)
      && (t.requiredCol1Width == t.fontSize as real * 5.5
          || t.requiredCol1Width == Scale(canvasWidth, cfg.col1Ratio) * (2.0 / 3.0))
      && t.maxCol2TextWidth == MaxCol2TextWidth(fields, formData, t.fontSize)
      && (t.requiredCol2Width == t.fontSize as real * 7.7
          || t.requiredCol2Width == t.maxCol2TextWidth + cfg.cellPaddingX * 2.0 + 12.0)
      && t.requiredTableWidth == t.requiredCol1Width + t.requiredCol2Width
  {
  }

  /** The table width is the content width clamped into [widthRatio * W, 0.95 * W], the ceiling
      winning when the two cross; on a non-negative canvas it reaches the floor whenever
      widthRatio is at most 0.95, and it covers the content whenever the content fits. */
  lemma TableWidthClamp(canvasWidth: nat, cfg: CanvasConfig, fields: seq<string>, formData: map<string, string>)
    requires cfg.width > 0.0
    ensures var t := Layout(canvasWidth, cfg, fields, formData);
      && t.minTableWidth == Scale(canvasWidth, cfg.widthRatio)
      && t.maxTableWidth == Scale(canvasWidth, 0.95)
      && t.tableWidth == Min(Max(t.minTableWidth, t.requiredTableWidth), t.maxTableWidth)
      && (cfg.widthRatio <= 0.95 ==> t.minTableWidth <= t.tableWidth)
      && (t.requiredTableWidth <= t.maxTableWidth ==> t.requiredTableWidth <= t.tableWidth)
  {
    var t := Layout(canvasWidth, cfg, fields, formData);
    if cfg.widthRatio <= 0.95 {
      ScaleMono(canvasWidth, cfg.widthRatio, 0.95);
      assert t.minTableWidth <= t.maxTableWidth;
    }
  }

  /** The second column keeps the width its content asks for exactly when the content fits
      under the ceiling; otherwise the first column keeps its width and the second absorbs the cut. */
  lemma Col2KeepsWidthIffFits(canvasWidth: int, cfg: CanvasConfig, fields: seq<string>, formData: map<string, string>)
    requires cfg.width > 0.0
    ensures var t := Layout(canvasWidth, cfg, fields, formData);
      && t.col1FinalWidth == t.requiredCol1Width
      && (t.col2FinalWidth >= t.requiredCol2Width <==> t.requiredTableWidth <= t.maxTableWidth)
  {
  }

  /** The first column never shrinks, so the second is at most the ceiling minus 5.5 font sizes. */
  lemma Col2Ceiling(canvasWidth: int, cfg: CanvasConfig, fields: seq<string>, formData: map<string, string>)
    requires cfg.width > 0.0
    ensures var t := Layout(canvasWidth, cfg, fields, formData);
      t.col2FinalWidth <= Scale(canvasWidth, 0.95) - t.fontSize as real * 5.5
  {
  }

  /** On a 50-pixel canvas the font size is held at 10, the first column needs 55 pixels and the
      table may be at most 47.5 wide: the second column comes out with a negative width. */
  lemma Col2NegativeOnNarrowCanvas(cfg: CanvasConfig, fields: seq<string>, formData: map<string, string>)
    requires cfg.width == 1080.0 && cfg.fontPx == 16
    ensures Layout(50, cfg, fields, formData).col2FinalWidth < 0.0
  {
    assert FontSize(50, cfg) == 10;
    Col2Ceiling(50, cfg, fields, formData);
  }

}
