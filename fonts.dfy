/** The font decision of load_font (meme.py:9-32): which TrueType file to
    load, or the built-in default font. */
module Fonts {
  import opened Wrappers
  import opened Strings

  /** The font handle handed to the drawing calls. */
  datatype Font = TrueType(path: string, size: int) | Default

  /** font_paths: platform.system() -> font name -> font file. */
  const FONT_TABLE: map<string, map<string, string>> := map[
    "Windows" := map["arial" := "C:\\Windows\\Fonts\\arial.ttf",
                     "impact" := "C:\\Windows\\Fonts\\impact.ttf"],
    "Linux" := map["arial" := "/usr/share/fonts/truetype/dejavu/DejaVuSans-Bold.ttf",
                   "impact" := "/usr/share/fonts/truetype/dejavu/DejaVuSans-Bold.ttf"],
    "Darwin" := map["arial" := "/Library/Fonts/Arial.ttf",
                    "impact" := "/Library/Fonts/Impact.ttf"]
  ]

  /** font_paths.get(system, {}).get(font_name.lower(), None); a font name
      that is not a string (None) makes .lower() raise, which is caught. */
  function TablePath(system: string, fontName: Option<string>): (r: Option<string>)
    ensures r.Some? <==>
      fontName.Some? && system in FONT_TABLE && Lower(fontName.value) in FONT_TABLE[system]
    ensures r.Some? ==> r.value == FONT_TABLE[system][Lower(fontName.value)]
  {
    if fontName.None? || system !in FONT_TABLE then None
    else
      var fonts := FONT_TABLE[system];
      var key := Lower(fontName.value);
      if key in fonts then Some(fonts[key]) else None
  }

  /** load_font. `existing` is the set of files os.path.exists accepts and
      `loads(path, size)` says whether ImageFont.truetype succeeds. Every
      failure ends in the default font; nothing is raised. */
  function LoadFont(system: string, fontName: Option<string>, size: int,
                    existing: set<string>, loads: (string, int) -> bool): (f: Font)
    ensures f.TrueType? <==>
      && TablePath(system, fontName).Some?
      && TablePath(system, fontName).value in existing
      && loads(TablePath(system, fontName).value, size)
    ensures f.TrueType? ==> f == TrueType(FONT_TABLE[system][Lower(fontName.value)], size)
  {
    match TablePath(system, fontName)
    case None => Default
    case Some(path) =>
      if path != "" && path in existing && loads(path, size) then TrueType(path, size) else Default
  }

  /** The font name is matched case-insensitively. */
  lemma FontNameCaseInsensitive(system: string, name: string, size: int,
                                existing: set<string>, loads: (string, int) -> bool)
    ensures LoadFont(system, Some(Upper(name)), size, existing, loads) ==
            LoadFont(system, Some(name), size, existing, loads)
  {
    LowerOfUpper(name);
  }

  /** On a platform outside the table the default font is used. */
  lemma UnknownPlatformUsesDefault(system: string, fontName: Option<string>, size: int,
                                   existing: set<string>, loads: (string, int) -> bool)
    requires system != "Windows" && system != "Linux" && system != "Darwin"
    ensures LoadFont(system, fontName, size, existing, loads) == Default
  {
    assert system !in FONT_TABLE;
  }

  /** Both dropdown fonts are listed for every known platform, so with the
      file present and loadable the TrueType font is used. */
  lemma KnownFontLoads(system: string, name: string, size: int,
                       existing: set<string>, loads: (string, int) -> bool)
    requires system in FONT_TABLE
    requires Lower(name) == "arial" || Lower(name) == "impact"
    requires FONT_TABLE[system][Lower(name)] in existing
    requires loads(FONT_TABLE[system][Lower(name)], size)
    ensures LoadFont(system, Some(name), size, existing, loads) ==
            TrueType(FONT_TABLE[system][Lower(name)], size)
  {
  }
}
