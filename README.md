# Meme generator core, modelled in Dafny

`meme.py` is a small captioning tool. A user picks a template or uploads a
picture, types a top and a bottom caption, and chooses a font, a size, a
colour and the two vertical positions. The program then draws the two
captions, upper-cased and centred, each line with a black outline of eight
offset copies under the coloured text. This project models the parts of
the program that decide what is drawn:

- `parse_color`: the colour picker's value becomes an integer triple, a
  `#...` string, or white (module `Colors`, with float parsing in
  `Numerals` and the string methods it uses in `Strings`);
- `load_template`: a dropdown name becomes a file path or `None`
  (module `Templates`);
- `load_font`: a platform name and a font name select a TrueType file or
  the default font (module `Fonts`);
- `generate_meme` and its inner function `draw_multiline_centered`
  (module `Compositor`).

The drawing surface is modelled as a `Canvas` class. It holds the picture's
size and the ordered log of `draw.text` calls the code makes on it. The
methods `DrawMultilineCentered` and `GenerateMeme` keep the source's loops
and early returns. Each one is proved against a specification function
(`LinesOps`, `Generate`). Lemmas about those functions state:

- the layout: nine draws per line, the eight outline offsets, one line
  height between lines;
- the exits: `None`, or the exception raised.

Everything the running process supplies is a parameter of type
`Compositor.Env`:

- `platform.system()`;
- the files `os.path.exists` accepts;
- the pictures `Image.open` decodes;
- whether `ImageFont.truetype` succeeds;
- `draw.textlength`;
- `font.getbbox("A")[3]`.

Python exceptions are the `Raised` arm of `Wrappers.Result`. A falsy Python
value (`None` or `""`) is an `Option<string>` that is `None` or
`Some("")`.

The model follows the code where it is easy to misread:

- `os.path.join` with a template name that starts with `/` drops the
  `templates` directory (`Templates.TemplatePathShape`);
- the line height is always `getbbox("A")[3] + 5`, with no fallback for
  fonts without a bounding box;
- `float()` is applied to every channel text before `nums[2]` is read, so a
  malformed channel raises `ValueError` even when there are too few channels.

## Model

| member | source | states |
|---|---|---|
| Strings.StartsWith | meme.py:36 | a string starting with a prefix is that prefix followed by the rest |
| Strings.Lower | meme.py:26 | `str.lower` keeps the length and lower-cases every character in place |
| Strings.Upper | meme.py:88 | `str.upper` keeps the length and upper-cases every character in place |
| Strings.LowerOfUpper | meme.py:26 | lower-casing an upper-cased name gives the lower-cased name |
| Strings.Replace | meme.py:37 | `str.replace(pat, rep)` for a non-empty pattern, scanning left to right over non-overlapping occurrences; stated by the four `Replace` lemmas below |
| Strings.ReplaceStep | meme.py:37 | a first character that cannot start the pattern is copied unchanged by `str.replace` |
| Strings.ReplaceSkips | meme.py:37 | a prefix without the pattern's first character passes through `str.replace` unchanged |
| Strings.ReplaceLeading | meme.py:37 | an occurrence of the pattern at the front is replaced by the replacement |
| Strings.ReplaceCharwise | meme.py:100 | `replace(" ", "_")` keeps the length and maps every space to `_`, leaving every other character |
| Strings.Split | meme.py:74 | `str.split(sep)` gives one more piece than there are separators, no piece holds the separator, and joining the pieces gives back the string |
| Strings.JoinAvoids | meme.py:74 | a character in no part and unequal to the separator is not in the joined string |
| Strings.SplitAfter | meme.py:74 | a leading run without the separator becomes the front of the first piece |
| Strings.SplitPiece | meme.py:74 | a string without the separator splits into itself alone |
| Strings.SplitJoin | meme.py:74 | split undoes join whenever no part contains the separator |
| Strings.SplitUpper | meme.py:74 | upper-casing a caption before splitting gives the same lines, each upper-cased |
| Strings.Strip | meme.py:37 | the ASCII whitespace trim `float()` applies (space, `\t`, `\n`, `\v`, `\f`, `\r`; unlike `str.strip()`, not U+001C to U+001F); stated by `StripPadded` and `StripKeeps` |
| Strings.StripPadded | meme.py:37 | the trim removes exactly the whitespace padding around a text with non-space ends |
| Strings.TrimLeftSpaces | meme.py:37 | leading whitespace never survives the left trim |
| Strings.TrimRightSpaces | meme.py:37 | trailing whitespace after a non-space end is removed by the right trim |
| Strings.TrimLeftKeeps | meme.py:37 | a character that is not whitespace survives the left trim |
| Strings.TrimRightKeeps | meme.py:37 | a character that is not whitespace survives the right trim |
| Strings.StripKeeps | meme.py:37 | the trim removes only whitespace: every other character of the text is still in the result |
| Numerals.DigitsValueBound | meme.py:37 | k digits denote a number below 10^k |
| Numerals.LeadingDigits | meme.py:37 | the prefix counted is all digits and the character after it is not a digit |
| Numerals.LeadingDigitsOf | meme.py:37 | a digit run followed by a non-digit is counted exactly |
| Numerals.Lex | meme.py:37 | any numeral the recogniser returns is well-formed: digits on both sides of the point and at least one digit |
| Numerals.SpellsUnsignedStart | meme.py:37 | a spelling of digits starts with a digit or the point, never a sign |
| Numerals.LexUnsignedSpells | meme.py:37 | the unsigned recogniser accepts exactly the spellings `w`, `w.`, `.f`, `w.f` of a well-formed numeral, and returns the numeral spelled, with the sign it was given |
| Numerals.LexSpells | meme.py:37 | the recogniser accepts a text exactly when it spells a well-formed numeral (`-` exactly for a negative one, `+` or nothing otherwise), and returns the numeral the text spells |
| Numerals.SpellsUnsignedAlphabet | meme.py:37 | a spelling of digits holds only digits and the point |
| Numerals.LexAlphabet | meme.py:37 | an accepted text holds only `+`, `-`, `.` and digits |
| Numerals.LexUnsigned | meme.py:37 | a recognised unsigned body is well-formed and keeps the sign it was given |
| Numerals.LexRenderUnsigned | meme.py:37 | the recogniser reads back the digits and point of every well-formed numeral |
| Numerals.LexRender | meme.py:37 | the recogniser reads back every rendered numeral, sign included |
| Numerals.RenderAlphabet | meme.py:37 | a rendered numeral holds only `-`, `.` and digits |
| Numerals.TruncateReal | meme.py:38 | `int()` of a float truncates toward zero: it is within one of x, on the side of zero |
| Numerals.TruncatedIsTruncation | meme.py:38 | dropping a numeral's fractional digits equals `int()` of its exact value |
| Numerals.ParseNumber | meme.py:37-38 | `int(float(x))` raises `ValueError` exactly when the recogniser rejects the stripped text, and otherwise truncates the exact value of the numeral it read |
| Numerals.ParseNumberSpells | meme.py:37-38 | `int(float(x))` raises exactly when the stripped text spells no numeral, and gives the integer part of any numeral it spells |
| Numerals.ParseNumberRejects | meme.py:37 | a text holding a character outside the modelled numeral syntax (for example `x`), that is no whitespace, sign, ASCII digit or point, raises `ValueError` |
| Numerals.FileSeparatorRejected | meme.py:37 | `float("\x1c1")` raises `ValueError`: U+001C is not whitespace to `float()` |
| Numerals.ParseRendered | meme.py:37-38 | a rendered numeral padded with whitespace parses to its integer part |
| Colors.Channels | meme.py:37 | `c.replace(wrapper, "").replace(")", "").split(",")`; stated by `ChannelsOfWrapped` |
| Colors.ParseAll | meme.py:37 | the list comprehension over the channel texts can only raise `ValueError` |
| Colors.ParseAllValues | meme.py:37 | the comprehension succeeds exactly when every text is a numeral, and then holds one value per text, in order |
| Colors.FromChannels | meme.py:37-38 | the triple exists exactly with three or more numeral channels; a bad channel is `ValueError`; too few good ones is `IndexError`; the triple is the first three values |
| Colors.ParseColor | meme.py:34-44 | a `#` string comes back unchanged; a non-string, or a string starting with neither `rgb` nor `#`, gives white; only `rgb`/`rgba` strings can raise |
| Colors.DropWrapper | meme.py:37 | removing the wrapper from its front leaves the rest when the rest cannot start another wrapper |
| Colors.ChannelsOfWrapped | meme.py:37 | stripping the wrapper and `)` and splitting on `,` recovers the channel texts |
| Colors.FromRenders | meme.py:37-38 | rendered numerals always parse, to their integer parts, or to `IndexError` when there are fewer than three |
| Colors.DispatchRgba | meme.py:36-38 | a string starting `rgba(` takes the `rgba` branch |
| Colors.DispatchRgb | meme.py:39-41 | a string starting `rgb(` takes the `rgb` branch |
| Colors.RgbaOfParts | meme.py:36-38 | `rgba(` + comma-joined texts + `)` parses exactly as those channel texts |
| Colors.RgbOfParts | meme.py:39-41 | `rgb(` + comma-joined texts + `)` parses exactly as those channel texts |
| Colors.RendersAlphabet | meme.py:37 | rendered numerals contain no `r`, `)` or `,` |
| Colors.RgbaOfNumerals | meme.py:36-38 | an `rgba(...)` string of any number of numerals gives their first three integer parts, or `IndexError` |
| Colors.RgbOfNumerals | meme.py:39-41 | an `rgb(...)` string of any number of numerals gives their first three integer parts, or `IndexError` |
| Colors.RgbChannels | meme.py:39-41 | `rgb(r,g,b)` gives the three channels, each truncated toward zero |
| Colors.RgbaDropsAlpha | meme.py:36-38 | `rgba(r,g,b,a)` gives the same triple: the alpha channel is dropped |
| Colors.RgbTooFewChannels | meme.py:39-41 | `rgb(r,g)` passes `float()` and then raises `IndexError` at `nums[2]` |
| Colors.RgbNonNumericChannel | meme.py:39-40 | an `rgb(...)` string with a channel holding a character outside the modelled numeral syntax (for example `x`) raises `ValueError`, however many channels there are |
| Colors.RgbaNonNumericChannel | meme.py:36-37 | the same for `rgba(...)`, the alpha channel included |
| Templates.Slug | meme.py:100 | `template_name.lower().replace(" ", "_")`; stated by `SlugShape`, `SlugOfPlain` and `SlugIdempotent` |
| Templates.PathJoin | meme.py:100 | POSIX `os.path.join(dir, file)`: `dir/file`, or `file` alone when it is absolute; stated by `TemplatePathShape` |
| Templates.TemplatePath | meme.py:100 | `os.path.join("templates", slug + ".jpg")`; stated by `TemplatePathShape` |
| Templates.SlugShape | meme.py:100 | the slug keeps the length, maps each space to `_` and each letter to lower case, and holds no space and no upper-case letter |
| Templates.SlugOfPlain | meme.py:100 | a name without spaces or upper-case letters is its own slug |
| Templates.SlugIdempotent | meme.py:100 | slugging a slug changes nothing |
| Templates.TemplatePathShape | meme.py:100 | the path is `templates/<slug>.jpg`, or `<slug>.jpg` when the name starts with `/` |
| Templates.LoadTemplate | meme.py:97-104 | `None` for `None`, `""` or the sentinel, without consulting the filesystem; otherwise the resolved path exactly when it exists |
| Templates.SentinelIsCaseSensitive | meme.py:98-100 | `"upload sendiri"` is not the sentinel and is looked up like any other name |
| Templates.PlainNameResolves | meme.py:98-104 | a plain dropdown name resolves to `templates/<name>.jpg` exactly when that file exists |
| Fonts.TablePath | meme.py:10-26 | a path is found exactly when the font name is a string and its lower-cased form is listed for the platform, and it is the listed file |
| Fonts.LoadFont | meme.py:9-32 | the TrueType font is used exactly when the listed file exists and loads, at the requested size; every other case gives the default font |
| Fonts.FontNameCaseInsensitive | meme.py:26 | upper-casing the font name does not change the font chosen |
| Fonts.UnknownPlatformUsesDefault | meme.py:26-30 | a platform outside the table always gets the default font |
| Fonts.KnownFontLoads | meme.py:26-28 | `arial` and `impact`, in any case, load their listed file on each known platform when it exists and loads |
| Compositor.Canvas.constructor | meme.py:68-69 | the RGBA copy has the picture's size and nothing drawn on it |
| Compositor.Canvas.DrawText | meme.py:83-84 | a `draw.text` call appends exactly one draw to the log |
| Compositor.MakePen | meme.py:75 | what the inner function captures: the image width, the font, the colour, `draw.textlength`, and `line_height = getbbox("A")[3] + 5` |
| Compositor.CentreX | meme.py:78-79 | `x = (width - textlength(line)) / 2`; used by `ScheduledOp` and `LinesOpsAt` |
| Compositor.LineOps | meme.py:80-84 | the nine draws of one line; stated by `LineOpsAt` |
| Compositor.GridIsOutline | meme.py:80-82 | the two loops over `[-2, 0, 2]` that skip `(0, 0)` visit the eight outline offsets in order |
| Compositor.OutlineRing | meme.py:80-82 | the outline offsets are exactly `{-2, 0, 2}²` without `(0, 0)`, each once |
| Compositor.LineTopIs | meme.py:76-85 | line i's top is y plus i line heights |
| Compositor.LinesOps | meme.py:77-85 | the lines of a caption make nine draws each |
| Compositor.LineOpsAt | meme.py:80-84 | draw k of a line is the k-th black outline copy, and draw 8 is the coloured fill at the line's origin |
| Compositor.LinesOpsAt | meme.py:73-85 | draw 9i+k of a caption is draw k of line i, centred on its own width and i line heights below y |
| Compositor.FillFollowsOutline | meme.py:80-84 | every coloured draw is the ninth of its line and comes right after its line's eight black copies, at the same text offset by the outline ring |
| Compositor.CaptionLines | meme.py:74-88 | `caption.upper().split("\n")`; stated by `CaptionLayout` |
| Compositor.DrawnLines | meme.py:87-90 | the lines drawn for a caption: none unless it is truthy; stated by `MemeLayout` and `MemeWithoutCaptions` |
| Compositor.CaptionOps | meme.py:87-90 | `if caption: draw_multiline_centered(caption.upper(), y)` as a draw schedule; stated by `CaptionLayout` |
| Compositor.CaptionLayout | meme.py:74-90 | a caption with k newlines gives k+1 upper-cased lines, empty ones kept, and 9(k+1) draws |
| Compositor.KeyIndex | meme.py:56-57 | the index found holds the key and no earlier entry does; no index means no entry holds it |
| Compositor.Unwrap | meme.py:55-59 | a non-dict passes through; a dict gives its `"image"` entry, else its first value, else `IndexError` |
| Compositor.Decode | meme.py:61-66 | `None` exactly for an argument that is no array, path or image; an error exactly for a path `Image.open` cannot read |
| Compositor.Meme | meme.py:68-92 | the captioned picture: its size and the top caption's draws, then the bottom caption's; stated by `MemeLayout` and `MemeWithoutCaptions` |
| Compositor.Generate | meme.py:49-92 | `generate_meme` as a function of its arguments and the environment; stated by `GenerateNone`, `GenerateError`, `GenerateStages` and `GenerateImage`, and met by `GenerateMeme` |
| Compositor.GenerateNone | meme.py:50-66 | `None` is returned exactly for a `None` image, or for an unsupported argument once the colour parsed and a dict was unwrapped |
| Compositor.GenerateError | meme.py:50-64 | an exception escapes exactly from a bad colour, an empty dict or an unreadable path, never for a `None` image; the colour's exception comes first |
| Compositor.GenerateStages | meme.py:53-66 | each early exit gives the result of the stage where it happens |
| Compositor.GenerateImage | meme.py:68-92 | for a decoded picture the result is that picture captioned in the font chosen for `int(font_size)` |
| Compositor.TwoSchedules | meme.py:87-90 | two captions drawn in turn keep each caption's own layout, the bottom one after all top draws |
| Compositor.MemeLayout | meme.py:68-92 | the result has the picture's size and nine draws per caption line, top caption first, each placed as laid out |
| Compositor.MemeWithoutCaptions | meme.py:87-92 | with both captions falsy the picture comes back with nothing drawn |
| Compositor.DrawRow | meme.py:81-83 | the inner loop appends the black copies for its row of offsets, skipping `(0, 0)` |
| Compositor.DrawOutline | meme.py:80-83 | the nested loops append the eight black copies in the order of the outline ring |
| Compositor.DrawLine | meme.py:78-84 | one line appends its outline and then its coloured fill, centred on the canvas width |
| Compositor.DrawMultilineCentered | meme.py:73-85 | the caption's lines are appended as the nine-draw schedule, line i at y plus i line heights |
| Compositor.Caption | meme.py:68-92 | the fresh canvas ends holding exactly the draws of the specified meme, top caption first |
| Compositor.GenerateMeme | meme.py:49-92 | the method returns `None`, raises, or returns a fresh canvas exactly as the specification function gives |

## Left out

- The Gradio interface (meme.py:106-146) is not modelled. It covers the widgets, the template preview and the upload switch; it is user interface, not logic.
- PIL's pixels are not modelled. The image is its size plus the ordered log of `draw.text` calls; `convert("RGBA")`, `Image.fromarray` and glyph rasterisation are third-party code.
- Font metrics, the filesystem, the platform name and `ImageFont.truetype` are parameters (`Compositor.Env`, and the `existing` and `loads` arguments); they are foreign calls.
- Numerals.ParseNumber: accepts only plain decimal numerals (sign, digits, optional point and fraction). It treats exponents (`1e2`), `inf`, `infinity`, `nan`, underscores and non-ASCII decimal digits (such as `٣`, which `float()` reads as 3) as a `ValueError`, and it uses the exact decimal value rather than the nearest binary float. `float()` accepts those forms and rounds, so e.g. `0.99999999999999999999` truncates to 1 in Python but to 0 here.
- Strings.IsSpace: only the six ASCII whitespace characters `float()` strips are modelled. `float()` also strips non-ASCII whitespace such as U+00A0 and U+2003, which the model keeps, so such a numeral raises `ValueError` here.
- Strings.Lower: case mapping covers ASCII letters only; Python's full Unicode case mapping (for example `ß` upper-casing to `SS`) is not modelled.
- Templates.PathJoin: models POSIX `os.path.join`; the Windows rules (drive letters, backslashes) are not modelled.
- Strings.Replace: requires a non-empty pattern. The program only replaces `"rgba("`, `"rgb("`, `")"` and `" "`, so the empty-pattern case of `str.replace` is not needed.
- Compositor.ImageArg: dict keys are strings and entries are kept in insertion order; dicts with other key types are not modelled.
- Compositor.DrawMultilineCentered: the inner loops of the source are split into the methods `DrawLine`, `DrawOutline` and `DrawRow`, so each loop carries its own invariant. The drawing order is the same.
- Compositor.MakePen: the line height is always `getbbox("A")[3] + 5` (meme.py:75); the code has no fallback, so the model has none either.
- Compositor.Canvas.DrawText: never fails. In the source, `parse_color` passes any `#...` string through unchecked (meme.py:42-43). PIL raises `ValueError` at the fill draw (meme.py:84) for a colour it cannot read, such as `#zz`, after the eight black copies are drawn. The model's `Generate` returns the captioned image instead, so the "exactly" of `GenerateError` and `GenerateMeme` holds only for colours PIL accepts. PIL's colour syntax is third-party code.
- Numerals.ParseNumber: does not raise `OverflowError`. A channel numeral beyond the float range (for example 400 nines) becomes `inf` in `float()`, and `int()` then raises `OverflowError` (meme.py:37-38). The model returns the integer part of the exact value, since it does not model binary floating point.
- Compositor.Decode: treats `Image.fromarray` as total (meme.py:62). PIL raises `TypeError` for an array whose shape or type it does not support; array contents are not modelled.
- Compositor.CentreX, Compositor.LineTop: positions are exact reals. The source computes `x`, `x + ox` and `current_y` in floating point (meme.py:79, meme.py:83, meme.py:85), with its rounding.
- Concurrency and the web server's request handling are not modelled.
