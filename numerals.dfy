/** The numeral syntax float() accepts, restricted to plain decimal
    numerals (an optional sign, digits, an optional fractional part,
    surrounded by optional whitespace), and int() of the value, which
    truncates toward zero. */
module Numerals {
  import opened Wrappers
  import opened Strings

  predicate IsDigit(c: char) { '0' <= c <= '9' }

  predicate AllDigits(s: string)
  {
    forall i :: 0 <= i < |s| ==> IsDigit(s[i])
  }

  function DigitValue(c: char): (d: nat)
    requires IsDigit(c)
    ensures d < 10
  {
    c as int - '0' as int
  }

  /** The value of a string of decimal digits, most significant first. */
  function DigitsValue(ds: string): nat
    requires AllDigits(ds)
  {
    if ds == [] then 0 else 10 * DigitsValue(ds[..|ds| - 1]) + DigitValue(ds[|ds| - 1])
  }

  function Pow10(k: nat): (p: nat)
    ensures p > 0
  {
    if k == 0 then 1 else 10 * Pow10(k - 1)
  }

  /** k digits denote a number below 10^k. */
  lemma {:induction false} DigitsValueBound(ds: string)
    requires AllDigits(ds)
    ensures DigitsValue(ds) < Pow10(|ds|)
    decreases |ds|
  {
    if ds != [] {
      DigitsValueBound(ds[..|ds| - 1]);
    }
  }

  /** Length of the longest prefix of s made of digits. */
  function LeadingDigits(s: string): (k: nat)
    ensures k <= |s| && AllDigits(s[..k])
    ensures k < |s| ==> !IsDigit(s[k])
  {
    if s != [] && IsDigit(s[0]) then
      var k := 1 + LeadingDigits(s[1..]);
      assert s[..k] == [s[0]] + s[1..][..k - 1];
      k
    else 0
  }

  lemma {:induction false} LeadingDigitsOf(w: string, tail: string)
    requires AllDigits(w)
    requires tail == [] || !IsDigit(tail[0])
    ensures LeadingDigits(w + tail) == |w|
    decreases |w|
  {
    if w == [] {
      assert w + tail == tail;
    } else {
      assert (w + tail)[1..] == w[1..] + tail;
      LeadingDigitsOf(w[1..], tail);
    }
  }

  /** A decimal numeral: sign, digits before the point, digits after it. */
  datatype Numeral = Numeral(negative: bool, whole: string, frac: string)

  predicate WellFormed(n: Numeral)
  {
    AllDigits(n.whole) && AllDigits(n.frac) && (n.whole != [] || n.frac != [])
  }

  /** Recognises an (already stripped) numeral: an optional '+' or '-',
      then digits, optionally followed by '.' and more digits, with at
      least one digit in all. */
  function Lex(t: string): (r: Option<Numeral>)
    ensures r.Some? ==> WellFormed(r.value)
  {
    var negative := t != [] && t[0] == '-';
    LexUnsigned(negative, if t != [] && (t[0] == '-' || t[0] == '+') then t[1..] else t)
  }

  /** The part of a numeral after its sign. */
  function LexUnsigned(negative: bool, body: string): (r: Option<Numeral>)
    ensures r.Some? ==> WellFormed(r.value) && r.value.negative == negative
  {
    var k := LeadingDigits(body);
    var rest := body[k..];
    if rest == [] then
      if k > 0 then Some(Numeral(negative, body[..k], [])) else None
    else if rest[0] == '.' && AllDigits(rest[1..]) && (k > 0 || |rest| > 1) then
      Some(Numeral(negative, body[..k], rest[1..]))
    else None
  }

  /** The canonical text of a numeral. */
  function Render(n: Numeral): string
  {
    (if n.negative then "-" else "") + RenderUnsigned(n)
  }

  /** The digits, and the point with the fraction when there is one. */
  function RenderUnsigned(n: Numeral): string
  {
    n.whole + (if n.frac == [] then "" else "." + n.frac)
  }

  lemma LexRenderUnsigned(n: Numeral)
    requires WellFormed(n)
    ensures LexUnsigned(n.negative, RenderUnsigned(n)) == Some(n)
  {
    var tail := if n.frac == [] then "" else "." + n.frac;
    var body := RenderUnsigned(n);
    LeadingDigitsOf(n.whole, tail);
    assert body[..|n.whole|] == n.whole;
    assert body[|n.whole|..] == tail;
    if n.frac != [] {
      assert tail[1..] == n.frac;
    }
  }

  /** Lex reads back what Render writes. */
  lemma LexRender(n: Numeral)
    requires WellFormed(n)
    ensures Lex(Render(n)) == Some(n)
  {
    var t := Render(n);
    var body := RenderUnsigned(n);
    if n.negative {
      assert t[0] == '-' && t[1..] == body;
    } else if n.whole != [] {
      assert t == body && t[0] == n.whole[0];
    } else {
      assert t == body && t[0] == '.';
    }
    LexRenderUnsigned(n);
  }

  /** body spells n's digits: the whole digits, then "." and the fraction
      digits, or the whole digits alone when there is no fraction; so "1",
      "1.", ".5" and "1.5" are all spellings. */
  predicate SpellsUnsigned(body: string, n: Numeral)
  {
    body == n.whole + "." + n.frac || (n.frac == [] && body == n.whole)
  }

  /** t spells the well-formed numeral n: "-" in front exactly when n is
      negative, otherwise "+" or nothing, followed by n's digits. */
  predicate Spells(t: string, n: Numeral)
  {
    && WellFormed(n)
    && if n.negative then t != [] && t[0] == '-' && SpellsUnsigned(t[1..], n)
       else SpellsUnsigned(t, n) || (t != [] && t[0] == '+' && SpellsUnsigned(t[1..], n))
  }

  /** A spelling of digits starts with a digit or the point, never a sign. */
  lemma SpellsUnsignedStart(body: string, n: Numeral)
    requires WellFormed(n) && SpellsUnsigned(body, n)
    ensures body != [] && (IsDigit(body[0]) || body[0] == '.')
  {
    if n.whole != [] {
      assert body[0] == n.whole[0];
    }
  }

  /** LexUnsigned accepts exactly the spellings of digits, and returns the
      numeral they spell. */
  lemma LexUnsignedSpells(negative: bool, body: string, n: Numeral)
    ensures LexUnsigned(negative, body) == Some(n) <==>
            WellFormed(n) && n.negative == negative && SpellsUnsigned(body, n)
  {
    var k := LeadingDigits(body);
    if LexUnsigned(negative, body) == Some(n) {
      var rest := body[k..];
      assert body == body[..k] + rest;
      if rest != [] {
        assert rest == "." + rest[1..];
      }
    }
    if WellFormed(n) && n.negative == negative && SpellsUnsigned(body, n) {
      if body == n.whole + "." + n.frac {
        assert body == n.whole + ("." + n.frac);
        LeadingDigitsOf(n.whole, "." + n.frac);
        assert k == |n.whole|;
        assert body[..k] == n.whole;
        assert body[k..] == "." + n.frac;
        assert body[k..][1..] == n.frac;
      } else {
        assert body == n.whole + [];
        LeadingDigitsOf(n.whole, []);
        assert k == |body|;
        assert body[..k] == n.whole;
      }
    }
  }

  /** Lex accepts exactly the texts that spell a well-formed numeral, and
      returns the numeral the text spells. */
  lemma LexSpells(t: string, n: Numeral)
    ensures Lex(t) == Some(n) <==> Spells(t, n)
  {
    if t != [] && t[0] == '-' {
      LexUnsignedSpells(true, t[1..], n);
      if WellFormed(n) && SpellsUnsigned(t, n) {
        SpellsUnsignedStart(t, n);
      }
    } else if t != [] && t[0] == '+' {
      LexUnsignedSpells(false, t[1..], n);
      if WellFormed(n) && SpellsUnsigned(t, n) {
        SpellsUnsignedStart(t, n);
      }
    } else {
      LexUnsignedSpells(false, t, n);
    }
  }

  /** The characters a numeral can be spelled with. */
  predicate IsNumeralChar(c: char)
  {
    IsDigit(c) || c == '+' || c == '-' || c == '.'
  }

  /** A spelling of digits holds only digits and the point. */
  lemma SpellsUnsignedAlphabet(body: string, n: Numeral)
    requires WellFormed(n) && SpellsUnsigned(body, n)
    ensures forall i :: 0 <= i < |body| ==> IsDigit(body[i]) || body[i] == '.'
  {
    forall i | 0 <= i < |body|
      ensures IsDigit(body[i]) || body[i] == '.'
    {
      if i < |n.whole| {
        assert body[i] == n.whole[i];
      } else if i > |n.whole| {
        assert body[i] == n.frac[i - |n.whole| - 1];
      }
    }
  }

  /** A text Lex accepts holds only signs, digits and the point. */
  lemma LexAlphabet(t: string)
    requires Lex(t).Some?
    ensures forall i :: 0 <= i < |t| ==> IsNumeralChar(t[i])
  {
    var n := Lex(t).value;
    LexSpells(t, n);
    if SpellsUnsigned(t, n) {
      SpellsUnsignedAlphabet(t, n);
    } else {
      SpellsUnsignedAlphabet(t[1..], n);
      forall i | 0 < i < |t|
        ensures IsNumeralChar(t[i])
      {
        assert t[i] == t[1..][i - 1];
      }
    }
  }

  /** Every character of a rendered numeral is a sign, a digit or the point. */
  lemma RenderAlphabet(n: Numeral)
    requires WellFormed(n)
    ensures forall i :: 0 <= i < |Render(n)| ==>
      Render(n)[i] == '-' || Render(n)[i] == '.' || IsDigit(Render(n)[i])
  {
    var tail := if n.frac == [] then "" else "." + n.frac;
    var sign := if n.negative then "-" else "";
    assert Render(n) == sign + n.whole + tail by {
      assert RenderUnsigned(n) == n.whole + tail;
    }
    forall i | 0 <= i < |Render(n)|
      ensures Render(n)[i] == '-' || Render(n)[i] == '.' || IsDigit(Render(n)[i])
    {
      if i < |sign| {
      } else if i < |sign| + |n.whole| {
        assert Render(n)[i] == n.whole[i - |sign|];
      } else if n.frac != [] {
        assert Render(n)[i] == tail[i - |sign| - |n.whole|];
        assert i - |sign| - |n.whole| > 0 ==> tail[i - |sign| - |n.whole|] == n.frac[i - |sign| - |n.whole| - 1];
      }
    }
  }

  /** The exact value the numeral denotes. */
  function Exact(n: Numeral): real
    requires WellFormed(n)
  {
    var magnitude := DigitsValue(n.whole) as real + DigitsValue(n.frac) as real / Pow10(|n.frac|) as real;
    if n.negative then -magnitude else magnitude
  }

  /** Python's int() of a float: truncation toward zero. */
  function TruncateReal(x: real): (k: int)
    ensures x >= 0.0 ==> k as real <= x < k as real + 1.0
    ensures x < 0.0 ==> k as real - 1.0 < x <= k as real
  {
    if x >= 0.0 then x.Floor else -((-x).Floor)
  }

  /** The integer part of a numeral, with its sign. */
  function Truncated(n: Numeral): int
    requires WellFormed(n)
  {
    var w: int := DigitsValue(n.whole);
    if n.negative then -w else w
  }

  lemma FractionBelowOne(d: nat, p: nat)
    requires d < p
    ensures 0.0 <= d as real / p as real < 1.0
  {
    var f := d as real / p as real;
    assert f * p as real == d as real;
  }

  lemma FloorOfFraction(w: nat, f: real)
    requires 0.0 <= f < 1.0
    ensures (w as real + f).Floor == w
  {
  }

  /** Dropping the fractional digits is int() of the numeral's exact value. */
  lemma TruncatedIsTruncation(n: Numeral)
    requires WellFormed(n)
    ensures Truncated(n) == TruncateReal(Exact(n))
  {
    var w := DigitsValue(n.whole);
    var d := DigitsValue(n.frac);
    var p := Pow10(|n.frac|);
    DigitsValueBound(n.frac);
    FractionBelowOne(d, p);
    var m := w as real + d as real / p as real;
    FloorOfFraction(w, d as real / p as real);
    assert m >= 0.0;
    if n.negative {
      assert Exact(n) == -m;
      if m == 0.0 {
        assert w == 0;
      }
    } else {
      assert Exact(n) == m;
    }
  }

  /** int(float(x)): strip the whitespace, read the numeral, truncate. */
  function ParseNumber(x: string): (r: Result<int>)
    ensures r.Raised? <==> Lex(Strip(x)).None?
    ensures r.Raised? ==> r.exc == ValueError
    ensures r.Ok? ==> r.value == TruncateReal(Exact(Lex(Strip(x)).value))
  {
    match Lex(Strip(x))
    case None => Raised(ValueError)
    case Some(n) => TruncatedIsTruncation(n); Ok(Truncated(n))
  }

  /** A rendered numeral, padded with whitespace, parses to its integer part. */
  lemma ParseRendered(pre: string, n: Numeral, post: string)
    requires WellFormed(n) && AllSpace(pre) && AllSpace(post)
    ensures ParseNumber(pre + Render(n) + post) == Ok(Truncated(n))
  {
    var t := Render(n);
    RenderAlphabet(n);
    assert t != [];
    assert !IsSpace(t[0]);
    assert !IsSpace(t[|t| - 1]);
    StripPadded(pre, t, post);
    LexRender(n);
  }

  /** int(float(x)) succeeds exactly on a text that, once stripped, spells a
      numeral; it then gives that numeral's integer part. */
  lemma ParseNumberSpells(x: string)
    ensures ParseNumber(x).Raised? <==> forall n :: !Spells(Strip(x), n)
    ensures forall n :: Spells(Strip(x), n) ==> ParseNumber(x) == Ok(Truncated(n))
  {
    if ParseNumber(x).Ok? {
      LexSpells(Strip(x), Lex(Strip(x)).value);
    }
    forall n | Spells(Strip(x), n)
      ensures ParseNumber(x) == Ok(Truncated(n))
    {
      LexSpells(Strip(x), n);
    }
  }

  /** float() rejects a text holding a character outside the modelled
      numeral syntax: neither whitespace, a sign, an ASCII digit nor the
      point (for example 'x'). */
  lemma ParseNumberRejects(x: string, c: char)
    requires c in x && !IsSpace(c) && !IsNumeralChar(c)
    ensures ParseNumber(x) == Raised(ValueError)
  {
    StripKeeps(x, c);
    if Lex(Strip(x)).Some? {
      LexAlphabet(Strip(x));
      assert false;
    }
  }

  /** U+001C is not whitespace to float(), so float("\x1c1") raises. */
  lemma FileSeparatorRejected()
    ensures ParseNumber("\U{001C}1") == Raised(ValueError)
  {
    var x := "\U{001C}1";
    assert x[0] == '\U{001C}';
    ParseNumberRejects(x, '\U{001C}');
  }
}
