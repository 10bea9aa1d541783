/** parse_color (meme.py:34-44): turns the colour picker's value into what
    the drawing call accepts as a fill. */
module Colors {
  import opened Wrappers
  import opened Strings
  import opened Numerals

  /** The argument of parse_color: a Python str, or any other value. */
  datatype ColorArg = ColorString(s: string) | ColorOther

  /** An integer triple, or a "#..." string passed straight to the drawing call. */
  datatype Color = RGB(r: int, g: int, b: int) | Hex(s: string)

  const WHITE := RGB(255, 255, 255)

  /** The channel texts: the wrapper "rgb(" or "rgba(" and every ")" removed,
      then split on commas. */
  function Channels(s: string, wrapper: string): seq<string>
    requires wrapper != []
  {
    Split(Replace(Replace(s, wrapper, ""), ")", ""), ',')
  }

  /** float(x) succeeds. */
  predicate IsNumeral(x: string)
  {
    ParseNumber(x).Ok?
  }

  /** [float(x) for x in parts], then int() of each: the first malformed
      part raises ValueError. */
  function ParseAll(parts: seq<string>): (r: Result<seq<int>>)
    ensures r.Raised? ==> r.exc == ValueError
  {
    if parts == [] then Ok([])
    else
      match ParseNumber(parts[0])
      case Raised(e) => Raised(e)
      case Ok(v) =>
        match ParseAll(parts[1..])
        case Raised(e) => Raised(e)
        case Ok(vs) => Ok([v] + vs)
  }

  /** The parts all parse exactly when every one is a numeral, and then the
      i-th value is int(float(parts[i])). */
  lemma {:induction false} ParseAllValues(parts: seq<string>)
    ensures ParseAll(parts).Ok? <==> forall i :: 0 <= i < |parts| ==> IsNumeral(parts[i])
    ensures ParseAll(parts).Ok? ==> |ParseAll(parts).value| == |parts|
    ensures ParseAll(parts).Ok? ==>
      forall i :: 0 <= i < |parts| ==> ParseNumber(parts[i]) == Ok(ParseAll(parts).value[i])
    decreases |parts|
  {
    if parts != [] {
      ParseAllValues(parts[1..]);
      assert forall i :: 1 <= i < |parts| ==> parts[i] == parts[1..][i - 1];
    }
  }

  /** (int(nums[0]), int(nums[1]), int(nums[2])) after parsing every part. */
  function FromChannels(parts: seq<string>): (r: Result<Color>)
    ensures r.Ok? <==> |parts| >= 3 && forall i :: 0 <= i < |parts| ==> IsNumeral(parts[i])
    ensures r == Raised(ValueError) <==> exists i :: 0 <= i < |parts| && !IsNumeral(parts[i])
    ensures r == Raised(IndexError) <==> |parts| < 3 && forall i :: 0 <= i < |parts| ==> IsNumeral(parts[i])
    ensures r.Ok? ==> r.value == RGB(ParseNumber(parts[0]).value, ParseNumber(parts[1]).value, ParseNumber(parts[2]).value)
  {
    ParseAllValues(parts);
    match ParseAll(parts)
    case Raised(e) => Raised(e)
    case Ok(nums) => if |nums| < 3 then Raised(IndexError) else Ok(RGB(nums[0], nums[1], nums[2]))
  }

  /** parse_color. "rgba" is tested before "rgb", so an "rgba(...)" string
      never reaches the "rgb(" branch. */
  function ParseColor(c: ColorArg): (r: Result<Color>)
    ensures c.ColorString? && StartsWith(c.s, "#") ==> r == Ok(Hex(c.s))
    ensures c.ColorOther? || (!StartsWith(c.s, "rgb") && !StartsWith(c.s, "#")) ==> r == Ok(WHITE)
    ensures r.Raised? ==> c.ColorString? && StartsWith(c.s, "rgb")
    ensures r.Ok? && r.value.Hex? ==> c == ColorString(r.value.s) && StartsWith(c.s, "#")
  {
    match c
    case ColorOther => Ok(WHITE)
    case ColorString(s) =>
      if StartsWith(s, "rgba") then FromChannels(Channels(s, "rgba("))
      else if StartsWith(s, "rgb") then FromChannels(Channels(s, "rgb("))
      else if StartsWith(s, "#") then Ok(Hex(s))
      else Ok(WHITE)
  }

  /** The renderings of a list of numerals. */
  function Renders(ns: seq<Numeral>): seq<string>
  {
    seq(|ns|, i requires 0 <= i < |ns| => Render(ns[i]))
  }

  /** The wrapper at the front is removed, and nothing else when its first
      character does not occur again. */
  lemma DropWrapper(wrapper: string, rest: string)
    requires wrapper != [] && wrapper[0] !in rest
    ensures Replace(wrapper + rest, wrapper, "") == rest
  {
    ReplaceLeading(rest, wrapper, "");
    ReplaceSkips(rest, [], wrapper, "");
    assert rest + [] == rest;
  }

  /** The closing parenthesis is removed from a body without others. */
  lemma DropParen(body: string)
    requires ')' !in body
    ensures Replace(body + ")", ")", "") == body
  {
    ReplaceSkips(body, ")", ")", "");
    assert Replace(")", ")", "") == "" by { ReplaceLeading([], ")", ""); }
    assert body + "" == body;
  }

  /** Removing the wrapper and the closing parenthesis recovers the parts. */
  lemma ChannelsOfWrapped(wrapper: string, parts: seq<string>)
    requires wrapper != [] && wrapper[0] != ',' && wrapper[0] != ')'
    requires |parts| >= 1
    requires forall i :: 0 <= i < |parts| ==>
      wrapper[0] !in parts[i] && ')' !in parts[i] && ',' !in parts[i]
    ensures Channels(wrapper + Join(parts, ',') + ")", wrapper) == parts
  {
    var body := Join(parts, ',');
    JoinAvoids(parts, ',', wrapper[0]);
    JoinAvoids(parts, ',', ')');
    assert wrapper + body + ")" == wrapper + (body + ")");
    DropWrapper(wrapper, body + ")");
    DropParen(body);
    SplitJoin(parts, ',');
  }

  /** Rendered numerals always parse; the triple is their integer parts. */
  lemma FromRenders(ns: seq<Numeral>)
    requires forall i :: 0 <= i < |ns| ==> WellFormed(ns[i])
    ensures FromChannels(Renders(ns)) == Expected(ns)
  {
    var parts := Renders(ns);
    forall i | 0 <= i < |parts|
      ensures ParseNumber(parts[i]) == Ok(Truncated(ns[i]))
    {
      ParseRendered([], ns[i], []);
      assert [] + Render(ns[i]) + [] == Render(ns[i]);
    }
    assert forall i :: 0 <= i < |parts| ==> IsNumeral(parts[i]);
    if |ns| >= 3 {
      assert FromChannels(parts).Ok?;
    }
  }

  /** A string starting "rgba(" takes the first branch. */
  lemma DispatchRgba(body: string)
    ensures ParseColor(ColorString("rgba(" + body)) == FromChannels(Channels("rgba(" + body, "rgba("))
  {
    assert ("rgba(" + body)[..4] == "rgba";
  }

  /** A string starting "rgb(" takes the second branch. */
  lemma DispatchRgb(body: string)
    ensures ParseColor(ColorString("rgb(" + body)) == FromChannels(Channels("rgb(" + body, "rgb("))
  {
    var s := "rgb(" + body;
    assert s[..3] == "rgb";
    assert s[3] == '(';
  }

  /** The triple a list of rendered numerals denotes as colour channels:
      fewer than three raise IndexError, and every channel after the third
      is parsed and discarded. */
  function Expected(ns: seq<Numeral>): Result<Color>
    requires forall i :: 0 <= i < |ns| ==> WellFormed(ns[i])
  {
    if |ns| < 3 then Raised(IndexError)
    else Ok(RGB(Truncated(ns[0]), Truncated(ns[1]), Truncated(ns[2])))
  }

  /** Channel texts that contain no 'r', ')' or ',' survive the wrapper
      removal and the split intact, so an "rgba(...)" string is decided by
      FromChannels on exactly those texts: any malformed one (the alpha
      included) raises ValueError, fewer than three raise IndexError. */
  lemma RgbaOfParts(parts: seq<string>)
    requires |parts| >= 1
    requires forall i :: 0 <= i < |parts| ==> 'r' !in parts[i] && ')' !in parts[i] && ',' !in parts[i]
    ensures ParseColor(ColorString("rgba(" + Join(parts, ',') + ")")) == FromChannels(parts)
  {
    var body := Join(parts, ',');
    assert "rgba(" + body + ")" == "rgba(" + (body + ")");
    ChannelsOfWrapped("rgba(", parts);
    DispatchRgba(body + ")");
  }

  /** The same for "rgb(...)". */
  lemma RgbOfParts(parts: seq<string>)
    requires |parts| >= 1
    requires forall i :: 0 <= i < |parts| ==> 'r' !in parts[i] && ')' !in parts[i] && ',' !in parts[i]
    ensures ParseColor(ColorString("rgb(" + Join(parts, ',') + ")")) == FromChannels(parts)
  {
    var body := Join(parts, ',');
    assert "rgb(" + body + ")" == "rgb(" + (body + ")");
    ChannelsOfWrapped("rgb(", parts);
    DispatchRgb(body + ")");
  }

  lemma RendersAlphabet(ns: seq<Numeral>)
    requires forall i :: 0 <= i < |ns| ==> WellFormed(ns[i])
    ensures forall i :: 0 <= i < |Renders(ns)| ==>
      'r' !in Renders(ns)[i] && ')' !in Renders(ns)[i] && ',' !in Renders(ns)[i]
  {
    forall i | 0 <= i < |ns|
      ensures 'r' !in Render(ns[i]) && ')' !in Render(ns[i]) && ',' !in Render(ns[i])
    {
      RenderAlphabet(ns[i]);
    }
  }

  /** "rgba(" followed by rendered numerals and ")": each channel is
      int(float(...)) of its text. */
  lemma RgbaOfNumerals(ns: seq<Numeral>)
    requires |ns| >= 1
    requires forall i :: 0 <= i < |ns| ==> WellFormed(ns[i])
    ensures ParseColor(ColorString("rgba(" + Join(Renders(ns), ',') + ")")) == Expected(ns)
  {
    RendersAlphabet(ns);
    RgbaOfParts(Renders(ns));
    FromRenders(ns);
  }

  /** The same for "rgb(": an "rgb" string with four channels also drops
      the fourth. */
  lemma RgbOfNumerals(ns: seq<Numeral>)
    requires |ns| >= 1
    requires forall i :: 0 <= i < |ns| ==> WellFormed(ns[i])
    ensures ParseColor(ColorString("rgb(" + Join(Renders(ns), ',') + ")")) == Expected(ns)
  {
    RendersAlphabet(ns);
    RgbOfParts(Renders(ns));
    FromRenders(ns);
  }

  /** "rgb(r,g,b)" gives the three channels, each truncated toward zero. */
  lemma RgbChannels(r: Numeral, g: Numeral, b: Numeral)
    requires WellFormed(r) && WellFormed(g) && WellFormed(b)
    ensures ParseColor(ColorString("rgb(" + Join([Render(r), Render(g), Render(b)], ',') + ")")) ==
      Ok(RGB(Truncated(r), Truncated(g), Truncated(b)))
  {
    var ns := [r, g, b];
    assert Renders(ns) == [Render(r), Render(g), Render(b)];
    RgbOfNumerals(ns);
  }

  /** "rgba(r,g,b,a)" gives the same triple: the alpha channel is dropped. */
  lemma RgbaDropsAlpha(r: Numeral, g: Numeral, b: Numeral, a: Numeral)
    requires WellFormed(r) && WellFormed(g) && WellFormed(b) && WellFormed(a)
    ensures ParseColor(ColorString("rgba(" + Join([Render(r), Render(g), Render(b), Render(a)], ',') + ")")) ==
      Ok(RGB(Truncated(r), Truncated(g), Truncated(b)))
  {
    var ns := [r, g, b, a];
    assert Renders(ns) == [Render(r), Render(g), Render(b), Render(a)];
    RgbaOfNumerals(ns);
  }

  /** "rgb(r,g)" passes float() on both parts and then fails at nums[2]. */
  lemma RgbTooFewChannels(r: Numeral, g: Numeral)
    requires WellFormed(r) && WellFormed(g)
    ensures ParseColor(ColorString("rgb(" + Join([Render(r), Render(g)], ',') + ")")) == Raised(IndexError)
  {
    var ns := [r, g];
    assert Renders(ns) == [Render(r), Render(g)];
    RgbOfNumerals(ns);
  }

  /** A channel holding a character outside the modelled numeral syntax
      (for example 'x') makes "rgb(...)" raise ValueError, whatever the
      other channels are and however many there are. */
  lemma RgbNonNumericChannel(parts: seq<string>, i: nat, c: char)
    requires |parts| >= 1
    requires forall j :: 0 <= j < |parts| ==> 'r' !in parts[j] && ')' !in parts[j] && ',' !in parts[j]
    requires i < |parts| && c in parts[i] && !IsSpace(c) && !IsNumeralChar(c)
    ensures ParseColor(ColorString("rgb(" + Join(parts, ',') + ")")) == Raised(ValueError)
  {
    RgbOfParts(parts);
    ParseNumberRejects(parts[i], c);
  }

  /** The same for "rgba(...)": the alpha channel is parsed too. */
  lemma RgbaNonNumericChannel(parts: seq<string>, i: nat, c: char)
    requires |parts| >= 1
    requires forall j :: 0 <= j < |parts| ==> 'r' !in parts[j] && ')' !in parts[j] && ',' !in parts[j]
    requires i < |parts| && c in parts[i] && !IsSpace(c) && !IsNumeralChar(c)
    ensures ParseColor(ColorString("rgba(" + Join(parts, ',') + ")")) == Raised(ValueError)
  {
    RgbaOfParts(parts);
    ParseNumberRejects(parts[i], c);
  }
}
