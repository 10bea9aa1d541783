/** The Python string methods the captioning code relies on, restricted to
    what it uses: startswith, lower and upper (ASCII letters only), replace
    with a non-empty pattern, split on a one-character separator, and the
    whitespace stripping float() performs. */
module Strings {

  /** str.startswith */
  predicate StartsWith(s: string, prefix: string)
    ensures StartsWith(s, prefix) ==>
      |prefix| <= |s| && forall i :: 0 <= i < |prefix| ==> s[i] == prefix[i]
  {
    |prefix| <= |s| && s[..|prefix|] == prefix
  }

  predicate IsUpperAscii(c: char) { 'A' <= c <= 'Z' }

  predicate IsLowerAscii(c: char) { 'a' <= c <= 'z' }

  function LowerChar(c: char): (d: char)
    ensures !IsUpperAscii(d)
    ensures !IsUpperAscii(c) ==> d == c
  {
    if IsUpperAscii(c) then (c as int - 'A' as int + 'a' as int) as char else c
  }

  function UpperChar(c: char): (d: char)
    ensures !IsLowerAscii(d)
    ensures IsLowerAscii(c) ==> IsUpperAscii(d)
    ensures !IsLowerAscii(c) ==> d == c
  {
    if IsLowerAscii(c) then (c as int - 'a' as int + 'A' as int) as char else c
  }

  /** str.lower on ASCII text: every upper-case letter becomes lower case,
      every other character is kept. */
  function Lower(s: string): (r: string)
    ensures |r| == |s|
    ensures forall i :: 0 <= i < |s| ==> r[i] == LowerChar(s[i])
  {
    if s == [] then [] else [LowerChar(s[0])] + Lower(s[1..])
  }

  /** str.upper on ASCII text. */
  function Upper(s: string): (r: string)
    ensures |r| == |s|
    ensures forall i :: 0 <= i < |s| ==> r[i] == UpperChar(s[i])
  {
    if s == [] then [] else [UpperChar(s[0])] + Upper(s[1..])
  }

  /** Lower-casing forgets how a name was capitalised. */
  lemma LowerOfUpper(s: string)
    ensures Lower(Upper(s)) == Lower(s)
  {
    assert forall i :: 0 <= i < |s| ==> Lower(Upper(s))[i] == LowerChar(UpperChar(s[i]));
  }

  /** str.replace(pat, rep): every non-overlapping occurrence of pat, found
      from the left, is replaced by rep. */
  function Replace(s: string, pat: string, rep: string): string
    requires pat != []
    decreases |s|
  {
    if |s| < |pat| then s
    else if s[..|pat|] == pat then rep + Replace(s[|pat|..], pat, rep)
    else [s[0]] + Replace(s[1..], pat, rep)
  }

  /** A first character that cannot start the pattern is copied. */
  lemma ReplaceStep(u: string, pat: string, rep: string)
    requires pat != [] && u != [] && u[0] != pat[0]
    ensures Replace(u, pat, rep) == [u[0]] + Replace(u[1..], pat, rep)
  {
    if |u| < |pat| {
      assert Replace(u[1..], pat, rep) == u[1..];
      assert u == [u[0]] + u[1..];
    } else {
      assert u[..|pat|][0] == u[0];
    }
  }

  /** A prefix in which the pattern cannot start is copied unchanged. */
  lemma {:induction false} ReplaceSkips(s: string, t: string, pat: string, rep: string)
    requires pat != [] && pat[0] !in s
    ensures Replace(s + t, pat, rep) == s + Replace(t, pat, rep)
    decreases |s|
  {
    if s == [] {
      assert s + t == t;
    } else {
      var u := s + t;
      ReplaceStep(u, pat, rep);
      assert u[1..] == s[1..] + t;
      ReplaceSkips(s[1..], t, pat, rep);
      assert s == [s[0]] + s[1..];
    }
  }

  /** An occurrence at the very front is replaced. */
  lemma ReplaceLeading(t: string, pat: string, rep: string)
    requires pat != []
    ensures Replace(pat + t, pat, rep) == rep + Replace(t, pat, rep)
  {
    var u := pat + t;
    assert u[..|pat|] == pat;
    assert u[|pat|..] == t;
  }

  /** Replacing one character by another maps the string character by
      character. */
  lemma {:induction false} ReplaceCharwise(s: string, c: char, d: char)
    ensures |Replace(s, [c], [d])| == |s|
    ensures forall i :: 0 <= i < |s| ==>
      Replace(s, [c], [d])[i] == if s[i] == c then d else s[i]
    decreases |s|
  {
    if s != [] {
      ReplaceCharwise(s[1..], c, d);
      assert s[..1] == [s[0]];
      assert s[1..] == s[|[c]|..];
    }
  }

  /** Number of occurrences of c in s. */
  function Count(s: string, c: char): nat
  {
    if s == [] then 0 else (if s[0] == c then 1 else 0) + Count(s[1..], c)
  }

  /** sep.join(parts) for a one-character separator. */
  function Join(parts: seq<string>, sep: char): string
  {
    if |parts| == 0 then []
    else if |parts| == 1 then parts[0]
    else parts[0] + [sep] + Join(parts[1..], sep)
  }

  /** str.split(sep) for a one-character separator: the pieces between the
      separators, empty pieces included. It is the inverse of Join. */
  function Split(s: string, sep: char): (r: seq<string>)
    ensures |r| == Count(s, sep) + 1
    ensures forall i :: 0 <= i < |r| ==> sep !in r[i]
    ensures Join(r, sep) == s
    decreases |s|
  {
    if s == [] then [[]]
    else
      var rest := Split(s[1..], sep);
      if s[0] == sep then
        assert ([[]] + rest)[1..] == rest;
        [[]] + rest
      else
        var r := [[s[0]] + rest[0]] + rest[1..];
        assert r[1..] == rest[1..];
        assert |rest| > 1 ==> Join(rest, sep) == rest[0] + [sep] + Join(rest[1..], sep);
        assert s == [s[0]] + s[1..];
        r
  }

  /** A character that occurs neither in the separator nor in any part does
      not occur in the joined string. */
  lemma {:induction false} JoinAvoids(parts: seq<string>, sep: char, c: char)
    requires c != sep
    requires forall i :: 0 <= i < |parts| ==> c !in parts[i]
    ensures c !in Join(parts, sep)
    decreases |parts|
  {
    if |parts| > 1 {
      JoinAvoids(parts[1..], sep, c);
    }
  }

  /** Splitting a string whose first piece is p. */
  lemma {:induction false} SplitAfter(p: string, t: string, sep: char)
    requires sep !in p
    ensures Split(p + t, sep) == [p + Split(t, sep)[0]] + Split(t, sep)[1..]
    decreases |p|
  {
    if p != [] {
      var r := Split(t, sep);
      var rest := Split(p[1..] + t, sep);
      SplitAfter(p[1..], t, sep);
      assert (p + t)[0] == p[0] != sep;
      assert (p + t)[1..] == p[1..] + t;
      assert Split(p + t, sep) == [[p[0]] + rest[0]] + rest[1..];
      assert rest[0] == p[1..] + r[0];
      assert rest[1..] == r[1..];
      assert [p[0]] + (p[1..] + r[0]) == p + r[0];
    } else {
      var r := Split(t, sep);
      assert p + t == t;
      assert r == [r[0]] + r[1..];
      assert p + r[0] == r[0];
    }
  }

  /** A piece without the separator splits into itself. */
  lemma SplitPiece(p: string, sep: char)
    requires sep !in p
    ensures Split(p, sep) == [p]
  {
    SplitAfter(p, [], sep);
    assert p + [] == p;
  }

  /** One more leading part: Split(p + sep + Join(rest)) puts p in front of
      the split of Join(rest). */
  lemma SplitJoinCons(parts: seq<string>, sep: char)
    requires |parts| >= 2 && sep !in parts[0]
    requires Split(Join(parts[1..], sep), sep) == parts[1..]
    ensures Split(Join(parts, sep), sep) == parts
  {
    var tail := Join(parts[1..], sep);
    assert Join(parts, sep) == parts[0] + ([sep] + tail);
    SplitAfter(parts[0], [sep] + tail, sep);
    assert ([sep] + tail)[0] == sep;
    assert ([sep] + tail)[1..] == tail;
    var r := Split([sep] + tail, sep);
    assert r == [[]] + Split(tail, sep);
    assert parts[0] + r[0] == parts[0];
    assert parts == [parts[0]] + parts[1..];
  }

  /** Split undoes Join when no part contains the separator. */
  lemma {:induction false} SplitJoin(parts: seq<string>, sep: char)
    requires |parts| >= 1
    requires forall i :: 0 <= i < |parts| ==> sep !in parts[i]
    ensures Split(Join(parts, sep), sep) == parts
    decreases |parts|
  {
    if |parts| == 1 {
      SplitPiece(parts[0], sep);
    } else {
      SplitJoin(parts[1..], sep);
      SplitJoinCons(parts, sep);
    }
  }

  /** Upper-casing does not touch the separator, so splitting before or
      after upper-casing gives the same pieces, upper-cased. */
  lemma {:induction false} SplitUpper(s: string, sep: char)
    requires !IsLowerAscii(sep) && !IsUpperAscii(sep)
    ensures |Split(Upper(s), sep)| == |Split(s, sep)|
    ensures forall i :: 0 <= i < |Split(s, sep)| ==>
      Split(Upper(s), sep)[i] == Upper(Split(s, sep)[i])
    decreases |s|
  {
    if s != [] {
      SplitUpper(s[1..], sep);
      assert Upper(s)[1..] == Upper(s[1..]);
      assert UpperChar(s[0]) == sep <==> s[0] == sep;
      var rest := Split(s[1..], sep);
      if s[0] != sep {
        assert Upper([s[0]] + rest[0]) == [UpperChar(s[0])] + Upper(rest[0]);
      }
    }
  }

  /** The ASCII characters float() strips from both ends of its argument:
      space, tab, newline, vertical tab, form feed and carriage return.
      (str.strip() also strips U+001C to U+001F; float() does not.) */
  predicate IsSpace(c: char)
  {
    c == ' ' || c == '\t' || c == '\n' || c == '\r' || c == '\U{000B}' || c == '\U{000C}'
  }

  predicate AllSpace(s: string)
  {
    forall i :: 0 <= i < |s| ==> IsSpace(s[i])
  }

  function TrimLeft(s: string): string
  {
    if s != [] && IsSpace(s[0]) then TrimLeft(s[1..]) else s
  }

  function TrimRight(s: string): string
  {
    if s != [] && IsSpace(s[|s| - 1]) then TrimRight(s[..|s| - 1]) else s
  }

  /** The whitespace trim float() applies to its argument before reading it. */
  function Strip(s: string): string
  {
    TrimRight(TrimLeft(s))
  }

  /** Strip removes exactly the padding around a text that neither starts
      nor ends with a space. */
  lemma StripPadded(pre: string, core: string, post: string)
    requires AllSpace(pre) && AllSpace(post)
    requires core != [] && !IsSpace(core[0]) && !IsSpace(core[|core| - 1])
    ensures Strip(pre + core + post) == core
  {
    TrimLeftSpaces(pre, core + post);
    assert pre + core + post == pre + (core + post);
    assert TrimLeft(core + post) == core + post by { assert (core + post)[0] == core[0]; }
    TrimRightSpaces(core, post);
  }

  lemma {:induction false} TrimLeftSpaces(pre: string, u: string)
    requires AllSpace(pre)
    ensures TrimLeft(pre + u) == TrimLeft(u)
    decreases |pre|
  {
    if pre != [] {
      assert (pre + u)[0] == pre[0];
      assert (pre + u)[1..] == pre[1..] + u;
      TrimLeftSpaces(pre[1..], u);
    } else {
      assert pre + u == u;
    }
  }

  lemma {:induction false} TrimRightSpaces(core: string, post: string)
    requires AllSpace(post)
    requires core != [] && !IsSpace(core[|core| - 1])
    ensures TrimRight(core + post) == core
    decreases |post|
  {
    if post == [] {
      assert core + post == core;
    } else {
      var u := core + post;
      assert u[|u| - 1] == post[|post| - 1];
      assert u[..|u| - 1] == core + post[..|post| - 1];
      TrimRightSpaces(core, post[..|post| - 1]);
    }
  }

  /** A character that is not whitespace survives the left trim. */
  lemma {:induction false} TrimLeftKeeps(s: string, c: char)
    requires c in s && !IsSpace(c)
    ensures c in TrimLeft(s)
    decreases |s|
  {
    if s != [] && IsSpace(s[0]) {
      assert s == [s[0]] + s[1..];
      TrimLeftKeeps(s[1..], c);
    }
  }

  /** A character that is not whitespace survives the right trim. */
  lemma {:induction false} TrimRightKeeps(s: string, c: char)
    requires c in s && !IsSpace(c)
    ensures c in TrimRight(s)
    decreases |s|
  {
    if s != [] && IsSpace(s[|s| - 1]) {
      assert s == s[..|s| - 1] + [s[|s| - 1]];
      TrimRightKeeps(s[..|s| - 1], c);
    }
  }

  /** Strip removes only whitespace: every other character of s is still there. */
  lemma StripKeeps(s: string, c: char)
    requires c in s && !IsSpace(c)
    ensures c in Strip(s)
  {
    TrimLeftKeeps(s, c);
    TrimRightKeeps(TrimLeft(s), c);
  }
}
