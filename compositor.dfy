/** generate_meme and its inner draw_multiline_centered (meme.py:49-92):
    normalise the image argument, then append the caption draws to the
    image's drawing surface. The pixels PIL writes are not modelled; the
    surface is the ordered log of draw.text calls. */
module Compositor {
  import opened Wrappers
  import opened Strings
  import opened Numerals
  import opened Colors
  import opened Fonts

  /** A decoded image, seen only through its size. */
  datatype Picture = Picture(width: int, height: int)

  /** The image argument of generate_meme. */
  datatype ImageArg =
    | NoneImage                                  // Python None
    | ArrayImage(pixels: Picture)                // numpy.ndarray
    | PathImage(path: string)                    // str: a file to Image.open
    | PilImage(picture: Picture)                 // PIL.Image.Image
    | DictImage(entries: seq<(string, ImageArg)>) // dict, in insertion order
    | OtherImage                                 // any other Python value

  datatype Fill = Black | Paint(color: Color)

  /** One draw.text((x, y), text, fill=...) call. */
  datatype DrawOp = DrawOp(x: real, y: real, text: string, fill: Fill)

  /** What the surrounding process supplies: platform.system(), the files
      os.path.exists accepts, the files Image.open decodes, whether
      ImageFont.truetype succeeds, draw.textlength and font.getbbox("A")[3]. */
  datatype Env = Env(
    system: string,
    files: set<string>,
    pictures: map<string, Picture>,
    loads: (string, int) -> bool,
    textLength: (Font, string) -> real,
    bboxBottom: Font -> int)

  /** The RGBA copy of the image with its ImageDraw surface. */
  class Canvas {
    const width: int
    const height: int
    var ops: seq<DrawOp>

    constructor (picture: Picture)
      ensures width == picture.width && height == picture.height
      ensures ops == []
    {
      width := picture.width;
      height := picture.height;
      ops := [];
    }

    /** draw.text */
    method DrawText(x: real, y: real, text: string, fill: Fill)
      modifies this
      ensures ops == old(ops) + [DrawOp(x, y, text, fill)]
    {
      ops := ops + [DrawOp(x, y, text, fill)];
    }
  }

  /** What draw_multiline_centered captures from generate_meme. */
  datatype Pen = Pen(width: int, font: Font, color: Color, textLength: (Font, string) -> real, lineHeight: int)

  /** line_height = font.getbbox("A")[3] + 5 */
  function MakePen(width: int, font: Font, color: Color, env: Env): Pen
  {
    Pen(width, font, color, env.textLength, env.bboxBottom(font) + 5)
  }

  /** The offsets both outline loops run over. */
  const STEPS: seq<int> := [-2, 0, 2]

  /** The (ox, oy) pairs the inner loop draws for the first n values of oy. */
  function RowOffsets(ox: int, n: nat): seq<(int, int)>
    requires n <= 3
  {
    if n == 0 then []
    else RowOffsets(ox, n - 1) + (if ox != 0 || STEPS[n - 1] != 0 then [(ox, STEPS[n - 1])] else [])
  }

  /** The pairs drawn for the first m values of ox. */
  function GridOffsets(m: nat): seq<(int, int)>
    requires m <= 3
  {
    if m == 0 then [] else GridOffsets(m - 1) + RowOffsets(STEPS[m - 1], 3)
  }

  /** The eight outline offsets, in drawing order: the 3x3 grid of
      {-2, 0, 2} without its centre, ox outermost. */
  const OUTLINE: seq<(int, int)> := [(-2, -2), (-2, 0), (-2, 2), (0, -2), (0, 2), (2, -2), (2, 0), (2, 2)]

  /** The two nested loops over STEPS, skipping (0, 0), visit OUTLINE in order. */
  lemma GridIsOutline()
    ensures GridOffsets(3) == OUTLINE
  {
    assert RowOffsets(-2, 3) == [(-2, -2), (-2, 0), (-2, 2)];
    assert RowOffsets(0, 3) == [(0, -2), (0, 2)];
    assert RowOffsets(2, 3) == [(2, -2), (2, 0), (2, 2)];
  }

  /** The outline ring is exactly {-2, 0, 2}^2 without (0, 0), each offset once. */
  lemma OutlineRing()
    ensures |OUTLINE| == 8
    ensures forall o :: o in OUTLINE <==> o.0 in STEPS && o.1 in STEPS && o != (0, 0)
    ensures forall i, j :: 0 <= i < j < 8 ==> OUTLINE[i] != OUTLINE[j]
  {
  }

  /** Black copies of a line at the given offsets around (x, y). */
  function Outline(x: real, y: real, line: string, offsets: seq<(int, int)>): seq<DrawOp>
  {
    seq(|offsets|, k requires 0 <= k < |offsets| =>
      DrawOp(x + offsets[k].0 as real, y + offsets[k].1 as real, line, Black))
  }

  /** (width - textlength(line)) / 2 */
  function CentreX(pen: Pen, line: string): real
  {
    (pen.width as real - pen.textLength(pen.font, line)) / 2.0
  }

  /** The nine draws of one line whose top is at y: the black outline, then
      the fill at the origin. */
  function LineOps(pen: Pen, line: string, y: real): seq<DrawOp>
  {
    var x := CentreX(pen, line);
    Outline(x, y, line, OUTLINE) + [DrawOp(x, y, line, Paint(pen.color))]
  }

  /** The top of line i: current_y after i steps of `current_y += line_height`. */
  function LineTop(y: real, lineHeight: int, i: nat): real
  {
    if i == 0 then y else LineTop(y, lineHeight, i - 1) + lineHeight as real
  }

  /** Line i sits exactly i line heights below the caption's y. */
  lemma {:induction false} LineTopIs(y: real, lineHeight: int, i: nat)
    ensures LineTop(y, lineHeight, i) == y + i as real * lineHeight as real
  {
    if i > 0 {
      LineTopIs(y, lineHeight, i - 1);
    }
  }

  /** The draws of the given lines, line i at LineTop(y, line_height, i). */
  function LinesOps(pen: Pen, lines: seq<string>, y: real): (r: seq<DrawOp>)
    ensures |r| == 9 * |lines|
  {
    if lines == [] then []
    else
      var n := |lines| - 1;
      LinesOps(pen, lines[..n], y) + LineOps(pen, lines[n], LineTop(y, pen.lineHeight, n))
  }

  /** Draw k of line i in a schedule starting at y: for k < 8 the k-th
      black outline copy, for k = 8 the fill at the origin. Every line is
      centred on its own width and lies i line heights below y. */
  function ScheduledOp(pen: Pen, lines: seq<string>, y: real, i: nat, k: nat): DrawOp
    requires i < |lines| && k < 9
  {
    var x := CentreX(pen, lines[i]);
    var top := LineTop(y, pen.lineHeight, i);
    if k < 8 then DrawOp(x + OUTLINE[k].0 as real, top + OUTLINE[k].1 as real, lines[i], Black)
    else DrawOp(x, top, lines[i], Paint(pen.color))
  }

  /** Draw k of one line: the k-th outline copy, or for k = 8 the fill. */
  lemma LineOpsAt(pen: Pen, line: string, top: real, k: nat)
    requires k < 9
    ensures |LineOps(pen, line, top)| == 9
    ensures LineOps(pen, line, top)[k] ==
      if k < 8 then DrawOp(CentreX(pen, line) + OUTLINE[k].0 as real, top + OUTLINE[k].1 as real, line, Black)
      else DrawOp(CentreX(pen, line), top, line, Paint(pen.color))
  {
  }

  /** An earlier line keeps its draws when a line is appended. */
  lemma LinesOpsPrefix(pen: Pen, lines: seq<string>, y: real, i: nat, k: nat)
    requires i < |lines| - 1 && k < 9
    requires LinesOps(pen, lines[..|lines| - 1], y)[9 * i + k] == ScheduledOp(pen, lines[..|lines| - 1], y, i, k)
    ensures LinesOps(pen, lines, y)[9 * i + k] == ScheduledOp(pen, lines, y, i, k)
  {
    var n := |lines| - 1;
    var prefix := LinesOps(pen, lines[..n], y);
    var last := LineOps(pen, lines[n], LineTop(y, pen.lineHeight, n));
    assert LinesOps(pen, lines, y) == prefix + last;
    assert lines[..n][i] == lines[i];
    assert (prefix + last)[9 * i + k] == prefix[9 * i + k];
  }

  /** The last line's draws close the schedule. */
  lemma LinesOpsLast(pen: Pen, lines: seq<string>, y: real, k: nat)
    requires |lines| > 0 && k < 9
    ensures LinesOps(pen, lines, y)[9 * (|lines| - 1) + k] == ScheduledOp(pen, lines, y, |lines| - 1, k)
  {
    var n := |lines| - 1;
    var prefix := LinesOps(pen, lines[..n], y);
    var top := LineTop(y, pen.lineHeight, n);
    var last := LineOps(pen, lines[n], top);
    assert LinesOps(pen, lines, y) == prefix + last;
    LineOpsAt(pen, lines[n], top, k);
    assert (prefix + last)[9 * n + k] == last[k];
  }

  /** Draw 9i+k of the schedule of `lines` is ScheduledOp(..., i, k). */
  lemma {:induction false} LinesOpsAt(pen: Pen, lines: seq<string>, y: real, i: nat, k: nat)
    requires i < |lines| && k < 9
    ensures LinesOps(pen, lines, y)[9 * i + k] == ScheduledOp(pen, lines, y, i, k)
    decreases |lines|
  {
    if i < |lines| - 1 {
      LinesOpsAt(pen, lines[..|lines| - 1], y, i, k);
      LinesOpsPrefix(pen, lines, y, i, k);
    } else {
      LinesOpsLast(pen, lines, y, k);
    }
  }

  /** The outline invariant: every fill draw comes right after the eight
      black copies of the same line around the same origin. */
  lemma FillFollowsOutline(pen: Pen, lines: seq<string>, y: real, j: nat)
    requires j < |LinesOps(pen, lines, y)|
    requires LinesOps(pen, lines, y)[j].fill.Paint?
    ensures j % 9 == 8
    ensures forall k :: 0 <= k < 8 ==>
      LinesOps(pen, lines, y)[j - 8 + k] ==
        var op := LinesOps(pen, lines, y)[j];
        DrawOp(op.x + OUTLINE[k].0 as real, op.y + OUTLINE[k].1 as real, op.text, Black)
  {
    var i := j / 9;
    assert j == 9 * i + j % 9;
    LinesOpsAt(pen, lines, y, i, j % 9);
    assert j % 9 == 8;
    var op := LinesOps(pen, lines, y)[j];
    assert op == ScheduledOp(pen, lines, y, i, 8);
    forall k | 0 <= k < 8
      ensures LinesOps(pen, lines, y)[j - 8 + k] ==
              DrawOp(op.x + OUTLINE[k].0 as real, op.y + OUTLINE[k].1 as real, op.text, Black)
    {
      LinesOpsAt(pen, lines, y, i, k);
      assert j - 8 + k == 9 * i + k;
    }
  }

  /** The lines of a caption: upper-cased, then split on "\n". */
  function CaptionLines(text: string): seq<string>
  {
    Split(Upper(text), '\n')
  }

  /** A caption is drawn when it is truthy: neither None nor "". */
  predicate Truthy(caption: Option<string>)
  {
    caption.Some? && caption.value != ""
  }

  /** The lines a caption draws: none unless it is truthy. */
  function DrawnLines(caption: Option<string>): seq<string>
  {
    if Truthy(caption) then CaptionLines(caption.value) else []
  }

  /** `if caption: draw_multiline_centered(caption.upper(), y)` */
  function CaptionOps(pen: Pen, caption: Option<string>, y: real): seq<DrawOp>
  {
    LinesOps(pen, DrawnLines(caption), y)
  }

  /** A caption with k newlines is k + 1 lines, empty ones kept, line i
      being the upper-cased i-th piece; so it makes 9(k + 1) draws. */
  lemma CaptionLayout(pen: Pen, text: string, y: real)
    requires text != ""
    ensures |CaptionLines(text)| == Count(text, '\n') + 1
    ensures forall i :: 0 <= i < |CaptionLines(text)| ==> CaptionLines(text)[i] == Upper(Split(text, '\n')[i])
    ensures |CaptionOps(pen, Some(text), y)| == 9 * (Count(text, '\n') + 1)
  {
    SplitUpper(text, '\n');
  }

  /** The first matching key's index in a dict's entries. */
  function KeyIndex(entries: seq<(string, ImageArg)>, key: string): (r: Option<nat>)
    ensures r.Some? ==> r.value < |entries| && entries[r.value].0 == key
    ensures r.Some? ==> forall j :: 0 <= j < r.value ==> entries[j].0 != key
    ensures r.None? ==> forall j :: 0 <= j < |entries| ==> entries[j].0 != key
  {
    if entries == [] then None
    else if entries[0].0 == key then Some(0)
    else match KeyIndex(entries[1..], key)
      case None => None
      case Some(j) => Some(j + 1)
  }

  /** A dict argument is replaced by image["image"] when that key exists,
      otherwise by its first value; list(...)[0] of an empty dict raises. */
  function Unwrap(image: ImageArg): (r: Result<ImageArg>)
    ensures !image.DictImage? ==> r == Ok(image)
    ensures image.DictImage? && KeyIndex(image.entries, "image").Some? ==>
      r == Ok(image.entries[KeyIndex(image.entries, "image").value].1)
    ensures image.DictImage? && KeyIndex(image.entries, "image").None? ==>
      r == if image.entries == [] then Raised(IndexError) else Ok(image.entries[0].1)
  {
    if !image.DictImage? then Ok(image)
    else
      var entries := image.entries;
      match KeyIndex(entries, "image")
      case Some(j) => Ok(entries[j].1)
      case None => if entries == [] then Raised(IndexError) else Ok(entries[0].1)
  }

  predicate Supported(image: ImageArg)
  {
    image.ArrayImage? || image.PathImage? || image.PilImage?
  }

  /** Image.fromarray, Image.open, or the image itself; None for any other
      kind. Opening a path Image.open cannot decode raises OSError. */
  function Decode(image: ImageArg, pictures: map<string, Picture>): (r: Result<Option<Picture>>)
    ensures r == Ok(None) <==> !Supported(image)
    ensures r.Raised? <==> image.PathImage? && image.path !in pictures
  {
    match image
    case ArrayImage(p) => Ok(Some(p))
    case PathImage(path) => if path in pictures then Ok(Some(pictures[path])) else Raised(OSError)
    case PilImage(p) => Ok(Some(p))
    case _ => Ok(None)
  }

  /** What generate_meme returns: None, an exception, or the image (its
      size and the draws made on it). */
  datatype Outcome = RenderNone | RenderError(exc: Exception) | RenderImage(width: int, height: int, ops: seq<DrawOp>)

  /** The captioned picture: the top caption's draws from top_y, then the
      bottom caption's from bottom_y, all centred on the picture's width. */
  function Meme(picture: Picture, font: Font, c: Color, env: Env,
                topText: Option<string>, bottomText: Option<string>, topY: real, bottomY: real): Outcome
  {
    var pen := MakePen(picture.width, font, c, env);
    RenderImage(picture.width, picture.height, CaptionOps(pen, topText, topY) + CaptionOps(pen, bottomText, bottomY))
  }

  /** generate_meme, as a function of its arguments and the environment. */
  function Generate(image: ImageArg, topText: Option<string>, bottomText: Option<string>,
                    fontSize: real, color: ColorArg, fontName: Option<string>,
                    topY: real, bottomY: real, env: Env): Outcome
  {
    if image.NoneImage? then RenderNone
    else match ParseColor(color)
      case Raised(e) => RenderError(e)
      case Ok(c) =>
        match Unwrap(image)
        case Raised(e) => RenderError(e)
        case Ok(inner) =>
          match Decode(inner, env.pictures)
          case Raised(e) => RenderError(e)
          case Ok(None) => RenderNone
          case Ok(Some(picture)) =>
            Meme(picture, LoadFont(env.system, fontName, TruncateReal(fontSize), env.files, env.loads),
                 c, env, topText, bottomText, topY, bottomY)
  }

  /** generate_meme returns None exactly for a None image, and for an
      argument that, once a dict is unwrapped, is no array, path or image
      (provided the colour parsed). */
  lemma GenerateNone(image: ImageArg, topText: Option<string>, bottomText: Option<string>,
                     fontSize: real, color: ColorArg, fontName: Option<string>,
                     topY: real, bottomY: real, env: Env)
    ensures Generate(image, topText, bottomText, fontSize, color, fontName, topY, bottomY, env) == RenderNone
      <==> image.NoneImage? || (ParseColor(color).Ok? && Unwrap(image).Ok? && !Supported(Unwrap(image).value))
  {
  }

  /** The colour is parsed before the image is examined, so a bad colour
      raises even for an unsupported image, but never for a None image. */
  lemma GenerateError(image: ImageArg, topText: Option<string>, bottomText: Option<string>,
                      fontSize: real, color: ColorArg, fontName: Option<string>,
                      topY: real, bottomY: real, env: Env)
    ensures Generate(image, topText, bottomText, fontSize, color, fontName, topY, bottomY, env).RenderError?
      <==> !image.NoneImage? &&
           (ParseColor(color).Raised? || Unwrap(image).Raised? ||
            (Unwrap(image).value.PathImage? && Unwrap(image).value.path !in env.pictures))
    ensures !image.NoneImage? && ParseColor(color).Raised? ==>
      Generate(image, topText, bottomText, fontSize, color, fontName, topY, bottomY, env) ==
      RenderError(ParseColor(color).exc)
  {
  }

  /** For a supported image the result is that image captioned with the
      font load_font picks for int(font_size). */
  lemma GenerateImage(image: ImageArg, topText: Option<string>, bottomText: Option<string>,
                      fontSize: real, color: ColorArg, fontName: Option<string>,
                      topY: real, bottomY: real, env: Env, picture: Picture, c: Color)
    requires !image.NoneImage? && ParseColor(color) == Ok(c)
    requires Unwrap(image).Ok? && Decode(Unwrap(image).value, env.pictures) == Ok(Some(picture))
    ensures Generate(image, topText, bottomText, fontSize, color, fontName, topY, bottomY, env) ==
            Meme(picture, LoadFont(env.system, fontName, TruncateReal(fontSize), env.files, env.loads),
                 c, env, topText, bottomText, topY, bottomY)
  {
  }

  /** Two schedules drawn one after the other: draw j of the first
      schedule's 9|top| draws, then the second's, each as ScheduledOp
      places it. */
  lemma TwoSchedules(pen: Pen, top: seq<string>, topY: real, bottom: seq<string>, bottomY: real)
    ensures
      var ops := LinesOps(pen, top, topY) + LinesOps(pen, bottom, bottomY);
      && |ops| == 9 * (|top| + |bottom|)
      && (forall j :: 0 <= j < 9 * |top| ==> ops[j] == ScheduledOp(pen, top, topY, j / 9, j % 9))
      && (forall j :: 9 * |top| <= j < |ops| ==>
            ops[j] == ScheduledOp(pen, bottom, bottomY, (j - 9 * |top|) / 9, (j - 9 * |top|) % 9))
  {
    var topOps := LinesOps(pen, top, topY);
    var bottomOps := LinesOps(pen, bottom, bottomY);
    var ops := topOps + bottomOps;
    forall j | 0 <= j < 9 * |top|
      ensures ops[j] == ScheduledOp(pen, top, topY, j / 9, j % 9)
    {
      assert j == 9 * (j / 9) + j % 9;
      LinesOpsAt(pen, top, topY, j / 9, j % 9);
    }
    forall j | 9 * |top| <= j < |ops|
      ensures ops[j] == ScheduledOp(pen, bottom, bottomY, (j - 9 * |top|) / 9, (j - 9 * |top|) % 9)
    {
      var m := j - 9 * |top|;
      assert m == 9 * (m / 9) + m % 9;
      assert ops[j] == bottomOps[m];
      LinesOpsAt(pen, bottom, bottomY, m / 9, m % 9);
    }
  }

  /** The captioned picture has the picture's size and holds 9 draws per
      caption line, the top caption's lines first, each draw as ScheduledOp
      places it (the bottom caption's from its own y); a caption that is
      None or "" draws nothing. */
  lemma MemeLayout(picture: Picture, font: Font, c: Color, env: Env,
                   topText: Option<string>, bottomText: Option<string>, topY: real, bottomY: real)
    ensures
      var pen := MakePen(picture.width, font, c, env);
      var top := DrawnLines(topText);
      var bottom := DrawnLines(bottomText);
      var r := Meme(picture, font, c, env, topText, bottomText, topY, bottomY);
      && r.RenderImage? && r.width == picture.width && r.height == picture.height
      && |r.ops| == 9 * (|top| + |bottom|)
      && (forall j :: 0 <= j < 9 * |top| ==> r.ops[j] == ScheduledOp(pen, top, topY, j / 9, j % 9))
      && (forall j :: 9 * |top| <= j < |r.ops| ==>
            r.ops[j] == ScheduledOp(pen, bottom, bottomY, (j - 9 * |top|) / 9, (j - 9 * |top|) % 9))
  {
    TwoSchedules(MakePen(picture.width, font, c, env), DrawnLines(topText), topY, DrawnLines(bottomText), bottomY);
  }

  /** With both captions falsy (None or "") the picture comes back undrawn. */
  lemma MemeWithoutCaptions(picture: Picture, font: Font, c: Color, env: Env,
                            topText: Option<string>, bottomText: Option<string>, topY: real, bottomY: real)
    requires !Truthy(topText) && !Truthy(bottomText)
    ensures Meme(picture, font, c, env, topText, bottomText, topY, bottomY) == RenderImage(picture.width, picture.height, [])
  {
  }

  /** One more black copy extends an outline by one draw. */
  lemma OutlineSnoc(x: real, y: real, line: string, offsets: seq<(int, int)>, o: (int, int))
    ensures Outline(x, y, line, offsets + [o]) ==
            Outline(x, y, line, offsets) + [DrawOp(x + o.0 as real, y + o.1 as real, line, Black)]
  {
    assert (offsets + [o])[..|offsets|] == offsets;
  }

  /** An outline over two runs of offsets is the two outlines in turn. */
  lemma OutlineConcat(x: real, y: real, line: string, a: seq<(int, int)>, b: seq<(int, int)>)
    ensures Outline(x, y, line, a + b) == Outline(x, y, line, a) + Outline(x, y, line, b)
  {
  }

  /** One more pass of the outer loop extends the outline drawn so far
      by the black copies for the next ox. */
  lemma OutlineGridStep(before: seq<DrawOp>, mid: seq<DrawOp>, after: seq<DrawOp>,
                        x: real, y: real, line: string, i: nat)
    requires i < 3
    requires mid == before + Outline(x, y, line, GridOffsets(i))
    requires after == mid + Outline(x, y, line, RowOffsets(STEPS[i], 3))
    ensures after == before + Outline(x, y, line, GridOffsets(i + 1))
  {
    assert GridOffsets(i + 1) == GridOffsets(i) + RowOffsets(STEPS[i], 3);
    OutlineConcat(x, y, line, GridOffsets(i), RowOffsets(STEPS[i], 3));
  }

  /** One more line extends a schedule by that line's nine draws. */
  lemma LinesOpsSnoc(pen: Pen, lines: seq<string>, y: real, n: nat)
    requires n < |lines|
    ensures LinesOps(pen, lines[..n + 1], y) ==
            LinesOps(pen, lines[..n], y) + LineOps(pen, lines[n], LineTop(y, pen.lineHeight, n))
  {
    assert lines[..n + 1][..n] == lines[..n];
  }

  /** The inner outline loop, `for oy in [-2, 0, 2]` with (0, 0) skipped,
      for one ox. */
  method DrawRow(canvas: Canvas, line: string, x: real, currentY: real, ox: int)
    modifies canvas
    ensures canvas.ops == old(canvas.ops) + Outline(x, currentY, line, RowOffsets(ox, 3))
  {
    for j := 0 to 3
      invariant canvas.ops == old(canvas.ops) + Outline(x, currentY, line, RowOffsets(ox, j))
    {
      var oy := STEPS[j];
      ghost var row := RowOffsets(ox, j);
      if ox != 0 || oy != 0 {
        canvas.DrawText(x + ox as real, currentY + oy as real, line, Black);
        OutlineSnoc(x, currentY, line, row, (ox, oy));
      }
    }
  }

  /** The outer outline loop, `for ox in [-2, 0, 2]`: the eight black
      copies of a line around (x, y), in drawing order. */
  method DrawOutline(canvas: Canvas, line: string, x: real, currentY: real)
    modifies canvas
    ensures canvas.ops == old(canvas.ops) + Outline(x, currentY, line, OUTLINE)
  {
    for i := 0 to 3
      invariant canvas.ops == old(canvas.ops) + Outline(x, currentY, line, GridOffsets(i))
    {
      ghost var mid := canvas.ops;
      DrawRow(canvas, line, x, currentY, STEPS[i]);
      OutlineGridStep(old(canvas.ops), mid, canvas.ops, x, currentY, line, i);
    }
    GridIsOutline();
  }

  /** The body of draw_multiline_centered's loop: one line centred on the
      image's width at current_y, its black outline, then the fill. */
  method DrawLine(canvas: Canvas, line: string, currentY: real, font: Font, color: Color, env: Env)
    modifies canvas
    ensures canvas.ops == old(canvas.ops) + LineOps(MakePen(canvas.width, font, color, env), line, currentY)
  {
    var w := env.textLength(font, line);
    var x := (canvas.width as real - w) / 2.0;
    DrawOutline(canvas, line, x, currentY);
    canvas.DrawText(x, currentY, line, Paint(color));
  }

  /** draw_multiline_centered(text, y) */
  method DrawMultilineCentered(canvas: Canvas, text: string, y: real, font: Font, color: Color, env: Env)
    modifies canvas
    ensures canvas.ops == old(canvas.ops) + LinesOps(MakePen(canvas.width, font, color, env), Split(text, '\n'), y)
  {
    ghost var pen := MakePen(canvas.width, font, color, env);
    var lines := Split(text, '\n');
    var lineHeight := env.bboxBottom(font) + 5;
    var currentY := y;
    for n := 0 to |lines|
      invariant canvas.ops == old(canvas.ops) + LinesOps(pen, lines[..n], y)
      invariant currentY == LineTop(y, lineHeight, n)
    {
      DrawLine(canvas, lines[n], currentY, font, color, env);
      LinesOpsSnoc(pen, lines, y, n);
      currentY := currentY + lineHeight as real;
    }
    assert lines[..|lines|] == lines;
  }

  /** What the method returns: None, a raised exception, or the image. */
  datatype Returned = ReturnedNone | Threw(exc: Exception) | ReturnedImage(canvas: Canvas)

  /** A returned value is the one the specification describes. */
  predicate Agrees(out: Returned, spec: Outcome)
    reads if out.ReturnedImage? then {out.canvas} else {}
  {
    match spec
    case RenderNone => out.ReturnedNone?
    case RenderError(e) => out == Threw(e)
    case RenderImage(w, h, ops) =>
      out.ReturnedImage? && out.canvas.width == w && out.canvas.height == h && out.canvas.ops == ops
  }

  /** generate_meme, stage by stage: each early exit of the source is the
      result Generate gives once the earlier stages passed. */
  lemma GenerateStages(image: ImageArg, topText: Option<string>, bottomText: Option<string>,
                       fontSize: real, color: ColorArg, fontName: Option<string>,
                       topY: real, bottomY: real, env: Env)
    requires !image.NoneImage?
    ensures
      var r := Generate(image, topText, bottomText, fontSize, color, fontName, topY, bottomY, env);
      && (ParseColor(color).Raised? ==> r == RenderError(ParseColor(color).exc))
      && (ParseColor(color).Ok? && Unwrap(image).Raised? ==> r == RenderError(Unwrap(image).exc))
      && (ParseColor(color).Ok? && Unwrap(image).Ok? && Decode(Unwrap(image).value, env.pictures).Raised? ==>
            r == RenderError(OSError))
      && (ParseColor(color).Ok? && Unwrap(image).Ok? && Decode(Unwrap(image).value, env.pictures) == Ok(None) ==>
            r == RenderNone)
  {
  }

  /** The second half of generate_meme: an RGBA copy of the picture with
      the top caption drawn from top_y, then the bottom one from bottom_y. */
  method Caption(picture: Picture, topText: Option<string>, bottomText: Option<string>,
                 font: Font, c: Color, topY: real, bottomY: real, env: Env) returns (canvas: Canvas)
    ensures fresh(canvas)
    ensures Meme(picture, font, c, env, topText, bottomText, topY, bottomY) ==
            RenderImage(canvas.width, canvas.height, canvas.ops)
  {
    canvas := new Canvas(picture);
    ghost var pen := MakePen(canvas.width, font, c, env);
    if topText.Some? && topText.value != "" {
      DrawMultilineCentered(canvas, Upper(topText.value), topY, font, c, env);
    }
    assert canvas.ops == CaptionOps(pen, topText, topY);
    if bottomText.Some? && bottomText.value != "" {
      DrawMultilineCentered(canvas, Upper(bottomText.value), bottomY, font, c, env);
    }
  }

  /** generate_meme */
  method GenerateMeme(image: ImageArg, topText: Option<string>, bottomText: Option<string>,
                      fontSize: real, color: ColorArg, fontName: Option<string>,
                      topY: real, bottomY: real, env: Env) returns (out: Returned)
    ensures Agrees(out, Generate(image, topText, bottomText, fontSize, color, fontName, topY, bottomY, env))
    ensures out.ReturnedImage? ==> fresh(out.canvas)
  {
    if image.NoneImage? {
      return ReturnedNone;
    }
    GenerateStages(image, topText, bottomText, fontSize, color, fontName, topY, bottomY, env);
    var parsed := ParseColor(color);
    if parsed.Raised? {
      return Threw(parsed.exc);
    }
    var c := parsed.value;
    var img := image;
    if img.DictImage? {
      var unwrapped := Unwrap(img);
      if unwrapped.Raised? {
        return Threw(unwrapped.exc);
      }
      img := unwrapped.value;
    }
    assert Unwrap(image) == Ok(img);
    var picture: Picture;
    match img {
      case ArrayImage(p) => picture := p;
      case PathImage(path) =>
        if path !in env.pictures {
          return Threw(OSError);
        }
        picture := env.pictures[path];
      case PilImage(p) => picture := p;
      case _ => return ReturnedNone;
    }
    assert Decode(img, env.pictures) == Ok(Some(picture));
    GenerateImage(image, topText, bottomText, fontSize, color, fontName, topY, bottomY, env, picture, c);
    var font := LoadFont(env.system, fontName, TruncateReal(fontSize), env.files, env.loads);
    var canvas := Caption(picture, topText, bottomText, font, c, topY, bottomY, env);
    out := ReturnedImage(canvas);
  }
}
