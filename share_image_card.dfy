/** Colour parsing of the share-image card: `getRgbValues` turns a theme
    colour written as `rgb(r, g, b)` or `#RRGGBB` into the text `"r, g, b"`
    used inside `rgba(...)` gradients, and falls back to the green theme's
    values for anything else. */
module ShareImageCard {
  import opened Wrappers
  import opened Text

  // ---------------------------------------------------------------------
  // Character classes and maximal runs

  /** The classes the pattern and `parseInt` read runs of: `\d`, `\s` and
      the hexadecimal digits. */
  datatype CharClass = Digits | Spaces | HexDigits

  predicate IsHexDigit(c: char) {
    IsDigit(c) || ('a' <= c <= 'f') || ('A' <= c <= 'F')
  }

  predicate InClass(c: char, cls: CharClass) {
    match cls
    case Digits => IsDigit(c)
    case Spaces => IsJsSpace(c)
    case HexDigits => IsHexDigit(c)
  }

  predicate AllIn(s: string, cls: CharClass) {
    forall k :: 0 <= k < |s| ==> InClass(s[k], cls)
  }

  /** Does not start with a character of the class. */
  predicate StopsRun(s: string, cls: CharClass) {
    s == [] || !InClass(s[0], cls)
  }

  datatype Span = Span(run: string, rest: string)

  /** Splits `t` into its longest prefix of the class and what follows, as
      a greedy `\d+`, `\s*` or hexadecimal scan reads it. */
  function SpanOf(t: string, cls: CharClass): (r: Span)
    ensures r.run + r.rest == t && AllIn(r.run, cls) && StopsRun(r.rest, cls)
  {
    if t != [] && InClass(t[0], cls) then
      var r := SpanOf(t[1..], cls);
      assert [t[0]] + r.run + r.rest == t;
      Span([t[0]] + r.run, r.rest)
    else Span([], t)
  }

  /** The split is the only one with a run of the class followed by a
      character outside it. */
  lemma {:induction false} SpanOfUnique(run: string, rest: string, cls: CharClass)
    requires AllIn(run, cls) && StopsRun(rest, cls)
    ensures SpanOf(run + rest, cls) == Span(run, rest)
  {
    if run != [] {
      assert (run + rest)[0] == run[0];
      assert (run + rest)[1..] == run[1..] + rest;
      SpanOfUnique(run[1..], rest, cls);
    } else {
      assert run + rest == rest;
    }
  }

  // ---------------------------------------------------------------------
  // The `rgb\((\d+),\s*(\d+),\s*(\d+)\)` branch

  /** The text a match of the pattern consists of, for captures `a`, `b`,
      `c` and the white space `w1`, `w2` after the two commas. */
  function RgbText(a: string, w1: string, b: string, w2: string, c: string): string {
    "rgb(" + a + "," + w1 + b + "," + w2 + c + ")"
  }

  /** The strings the pattern matches: three non-empty digit runs, each
      comma followed by white space only. */
  predicate IsRgbMatch(a: string, w1: string, b: string, w2: string, c: string) {
    |a| > 0 && |b| > 0 && |c| > 0 && AllIn(a, Digits) && AllIn(b, Digits) && AllIn(c, Digits) &&
    AllIn(w1, Spaces) && AllIn(w2, Spaces)
  }

  datatype RgbCaptures = RgbCaptures(r: string, g: string, b: string)

  /** A non-empty digit run followed by `term`: the run and what follows
      the terminator. */
  function DigitsThen(u: string, term: char): (r: Option<Span>)
    ensures r.Some? ==> |r.value.run| > 0 && AllIn(r.value.run, Digits) &&
                        u == r.value.run + [term] + r.value.rest
  {
    var d := SpanOf(u, Digits);
    if d.run == [] || d.rest == [] || d.rest[0] != term then None
    else
      assert d.rest == [term] + d.rest[1..];
      Some(Span(d.run, d.rest[1..]))
  }

  lemma DigitsThenOf(d: string, term: char, rest: string)
    requires |d| > 0 && AllIn(d, Digits) && !IsDigit(term)
    ensures DigitsThen(d + [term] + rest, term) == Some(Span(d, rest))
  {
    assert d + [term] + rest == d + ([term] + rest);
    SpanOfUnique(d, [term] + rest, Digits);
  }

  /** What follows the white space at the start of `u` (`\s*`). */
  function SkipSpaces(u: string): string {
    SpanOf(u, Spaces).rest
  }

  lemma SkipSpacesOf(w: string, v: string)
    requires AllIn(w, Spaces) && v != [] && IsDigit(v[0])
    ensures SkipSpaces(w + v) == v
  {
    SpanOfUnique(w, v, Spaces);
  }

  /** The three arguments after `rgb(`, up to and including `)`. */
  function MatchRgbArgs(u: string): (m: Option<RgbCaptures>)
  {
    match DigitsThen(u, ',')
    case None => None
    case Some(x) =>
      match DigitsThen(SkipSpaces(x.rest), ',')
      case None => None
      case Some(y) =>
        match DigitsThen(SkipSpaces(y.rest), ')')
        case None => None
        case Some(z) => Some(RgbCaptures(x.run, y.run, z.run))
  }

  /** The captures of a match of the pattern at the start of `t`, if there
      is one. A digit run must be followed by a comma or `)` and white space
      by a digit, so greedy runs are the only way to match and the captures
      are unique. */
  function MatchRgbPrefix(t: string): (m: Option<RgbCaptures>)
  {
    if |t| >= 4 && t[..4] == "rgb(" then MatchRgbArgs(t[4..]) else None
  }

  /** The text of the arguments of a match. */
  function ArgsText(a: string, w1: string, b: string, w2: string, c: string): string {
    a + [','] + (w1 + (b + [','] + (w2 + (c + [')']))))
  }

  lemma RgbTextSplit(a: string, w1: string, b: string, w2: string, c: string, post: string)
    ensures RgbText(a, w1, b, w2, c) + post == "rgb(" + (ArgsText(a, w1, b, w2, c) + post)
  {
  }

  lemma ArgsTextAssoc(a: string, w1: string, b: string, w2: string, c: string, post: string)
    ensures ArgsText(a, w1, b, w2, c) + post == a + [','] + (w1 + (b + [','] + (w2 + (c + [')'] + post))))
  {
  }

  /** Soundness: what `MatchRgbArgs` reports is the text of a match. */
  lemma MatchRgbArgsSound(u: string)
    requires MatchRgbArgs(u).Some?
    ensures var m := MatchRgbArgs(u).value;
            exists w1, w2, post :: IsRgbMatch(m.r, w1, m.g, w2, m.b) &&
                                   u == ArgsText(m.r, w1, m.g, w2, m.b) + post
  {
    var x := DigitsThen(u, ',').value;
    var s1 := SpanOf(x.rest, Spaces);
    var y := DigitsThen(s1.rest, ',').value;
    var s2 := SpanOf(y.rest, Spaces);
    var z := DigitsThen(s2.rest, ')').value;
    var w1, w2 := s1.run, s2.run;
    assert y.rest == w2 + (z.run + [')'] + z.rest);
    assert x.rest == w1 + (y.run + [','] + (w2 + (z.run + [')'] + z.rest)));
    ArgsTextAssoc(x.run, w1, y.run, w2, z.run, z.rest);
    assert IsRgbMatch(x.run, w1, y.run, w2, z.run);
  }

  /** Soundness: what `MatchRgbPrefix` reports is a match of the pattern at
      the start of `t`, with those captures. */
  lemma MatchRgbSound(t: string)
    requires MatchRgbPrefix(t).Some?
    ensures var m := MatchRgbPrefix(t).value;
            exists w1, w2, post :: IsRgbMatch(m.r, w1, m.g, w2, m.b) &&
                                   t == RgbText(m.r, w1, m.g, w2, m.b) + post
  {
    var m := MatchRgbPrefix(t).value;
    MatchRgbArgsSound(t[4..]);
    var w1, w2, post :| IsRgbMatch(m.r, w1, m.g, w2, m.b) &&
                        t[4..] == ArgsText(m.r, w1, m.g, w2, m.b) + post;
    RgbTextSplit(m.r, w1, m.g, w2, m.b, post);
    assert t == t[..4] + t[4..];
  }

  /** Completeness of `MatchRgbArgs`. */
  lemma MatchRgbArgsComplete(a: string, w1: string, b: string, w2: string, c: string, post: string)
    requires IsRgbMatch(a, w1, b, w2, c)
    ensures MatchRgbArgs(ArgsText(a, w1, b, w2, c) + post) == Some(RgbCaptures(a, b, c))
  {
    var r3 := [')'] + post;
    var r2 := w2 + (c + r3);
    var r1 := w1 + (b + ([','] + r2));
    assert ArgsText(a, w1, b, w2, c) + post == a + [','] + r1;
    DigitsThenOf(a, ',', r1);
    SkipSpacesOf(w1, b + ([','] + r2));
    assert b + ([','] + r2) == b + [','] + r2;
    DigitsThenOf(b, ',', r2);
    SkipSpacesOf(w2, c + r3);
    assert c + r3 == c + [')'] + post;
    DigitsThenOf(c, ')', post);
  }

  /** Completeness: a string that starts with the text of a match of the
      pattern is matched, with the same captures. */
  lemma MatchRgbComplete(a: string, w1: string, b: string, w2: string, c: string, post: string)
    requires IsRgbMatch(a, w1, b, w2, c)
    ensures MatchRgbPrefix(RgbText(a, w1, b, w2, c) + post) == Some(RgbCaptures(a, b, c))
  {
    var u := ArgsText(a, w1, b, w2, c) + post;
    RgbTextSplit(a, w1, b, w2, c, post);
    var t := "rgb(" + u;
    assert t[..4] == "rgb(" && t[4..] == u;
    MatchRgbArgsComplete(a, w1, b, w2, c, post);
  }

  /** No match of the pattern fits in fewer than ten characters. */
  lemma MatchRgbLength(t: string)
    ensures MatchRgbPrefix(t).Some? ==> |t| >= 10
  {
    if MatchRgbPrefix(t).Some? {
      MatchRgbSound(t);
    }
  }

  /** The captures of a match that starts at index `i`, if one does. */
  function MatchRgbAt(s: string, i: nat): (m: Option<RgbCaptures>)
    requires i <= |s|
  {
    MatchRgbPrefix(s[i..])
  }

  datatype RgbMatch = RgbMatch(index: nat, captures: RgbCaptures)

  /** `color.match(...)` without the `g` flag: the match that starts
      leftmost, searching from index `from`. */
  function FindRgb(s: string, from: nat): (m: Option<RgbMatch>)
    requires from <= |s|
    ensures m.Some? ==> from <= m.value.index <= |s|
    decreases |s| - from
  {
    match MatchRgbAt(s, from)
    case Some(caps) => Some(RgbMatch(from, caps))
    case None => if from == |s| then None else FindRgb(s, from + 1)
  }

  /** What `FindRgb` reports is a match at the index it reports, and no
      match starts earlier. */
  lemma {:induction false} FindRgbSound(s: string, from: nat, k: nat)
    requires from <= k <= |s| && FindRgb(s, from).Some?
    ensures MatchRgbAt(s, FindRgb(s, from).value.index) == Some(FindRgb(s, from).value.captures)
    ensures k < FindRgb(s, from).value.index ==> MatchRgbAt(s, k).None?
    decreases |s| - from
  {
    if MatchRgbAt(s, from).None? {
      if k == from {
        FindRgbSound(s, from + 1, k + 1);
      } else {
        FindRgbSound(s, from + 1, k);
      }
    }
  }

  /** The leftmost match is the one `FindRgb` reports. */
  lemma {:induction false} FindRgbFirst(s: string, from: nat, i: nat, caps: RgbCaptures)
    requires from <= i <= |s| && MatchRgbAt(s, i) == Some(caps)
    requires forall k :: from <= k < i ==> MatchRgbAt(s, k).None?
    ensures FindRgb(s, from) == Some(RgbMatch(i, caps))
    decreases i - from
  {
    if from < i {
      FindRgbFirst(s, from + 1, i, caps);
    }
  }

  /** `FindRgb` reports nothing exactly when no match starts at or after
      `from`. */
  lemma {:induction false} FindRgbNone(s: string, from: nat)
    requires from <= |s|
    ensures FindRgb(s, from).None? <==> forall k :: from <= k <= |s| ==> MatchRgbAt(s, k).None?
    decreases |s| - from
  {
    if from < |s| {
      FindRgbNone(s, from + 1);
    }
    if FindRgb(s, from).Some? {
      FindRgbSound(s, from, from);
    }
  }

  // ---------------------------------------------------------------------
  // The `#RRGGBB` branch

  function HexDigitValue(c: char): (v: nat)
    requires IsHexDigit(c)
    ensures v < 16
  {
    if IsDigit(c) then DigitValue(c)
    else if 'a' <= c <= 'f' then c as int - 'a' as int + 10
    else c as int - 'A' as int + 10
  }

  /** The value of a string of hexadecimal digits, most significant first. */
  function HexValue(s: string): nat
    requires AllIn(s, HexDigits)
  {
    if s == [] then 0 else HexValue(s[..|s| - 1]) * 16 + HexDigitValue(s[|s| - 1])
  }

  /** A JavaScript number as `parseInt` can return it. */
  datatype JsNumber = NaN | Num(value: int)

  /** Drops one leading `+` or `-`, telling whether it was a `-`. */
  function StripSign(t: string): (r: (bool, string))
  {
    if t != [] && t[0] == '-' then (true, t[1..])
    else if t != [] && t[0] == '+' then (false, t[1..])
    else (false, t)
  }

  /** Drops a leading `0x` or `0X`, which radix 16 allows. */
  function StripHexPrefix(u: string): string {
    if |u| >= 2 && u[0] == '0' && (u[1] == 'x' || u[1] == 'X') then u[2..] else u
  }

  /** `parseInt(str, 16)`: skips leading white space, reads one optional
      sign and an optional `0x`/`0X` prefix, then as many hexadecimal digits
      as follow; no digit at all gives `NaN`. */
  function ParseInt16(str: string): (r: JsNumber)
  {
    var signed := StripSign(TrimStart(str));
    var digits := SpanOf(StripHexPrefix(signed.1), HexDigits).run;
    if digits == [] then NaN
    else
      var x: int := HexValue(digits);
      Num(if signed.0 then -x else x)
  }

  /** `str.substring(start, end)` for `start <= end`: both ends are clamped
      to the length. */
  function Substring(s: string, start: nat, end: nat): (r: string)
    requires start <= end
  {
    var a := if start < |s| then start else |s|;
    var b := if end < |s| then end else |s|;
    s[a..b]
  }

  /** `${n}` for a number `parseInt` returned. */
  function NumberText(n: JsNumber): string {
    match n
    case NaN => "NaN"
    case Num(v) => IntToString(v)
  }

  const FALLBACK: string := "29, 185, 84"

  /** The text one pair of hexadecimal digits at `i` contributes. */
  function PairText(hex: string, i: nat): string {
    NumberText(ParseInt16(Substring(hex, i, i + 2)))
  }

  /** The `#` branch, on what follows the `#`. */
  function HexTriple(hex: string): string {
    PairText(hex, 0) + ", " + PairText(hex, 2) + ", " + PairText(hex, 4)
  }

  /** The result for `color`, given the outcome `m` of the rgb match. */
  function RgbValuesOf(color: string, m: Option<RgbMatch>): string {
    match m
    case Some(found) => found.captures.r + ", " + found.captures.g + ", " + found.captures.b
    case None =>
      // `color.replace("#", "")` removes the first `#`, which is the leading one.
      if StartsWith(color, "#") then HexTriple(color[1..]) else FALLBACK
  }

  /** `getRgbValues`. */
  function GetRgbValues(color: string): string {
    RgbValuesOf(color, FindRgb(color, 0))
  }

  // ---------------------------------------------------------------------
  // Properties of `getRgbValues`

  /** The rgb branch copies the captured digit strings verbatim, with no
      range check, wherever in the string its leftmost match starts; it is
      tried before the `#` branch. */
  lemma RgbBranchVerbatim(pre: string, a: string, w1: string, b: string, w2: string, c: string, post: string)
    requires IsRgbMatch(a, w1, b, w2, c)
    requires forall k :: 0 <= k < |pre| ==> MatchRgbAt(pre + RgbText(a, w1, b, w2, c) + post, k).None?
    ensures GetRgbValues(pre + RgbText(a, w1, b, w2, c) + post) == a + ", " + b + ", " + c
  {
    var s := pre + RgbText(a, w1, b, w2, c) + post;
    assert s[|pre|..] == RgbText(a, w1, b, w2, c) + post;
    MatchRgbComplete(a, w1, b, w2, c, post);
    FindRgbFirst(s, 0, |pre|, RgbCaptures(a, b, c));
  }

  /** A string shorter than ten characters has no rgb match. */
  lemma NoRgbInShort(s: string)
    requires |s| < 10
    ensures FindRgb(s, 0).None?
  {
    forall k | 0 <= k <= |s| ensures MatchRgbAt(s, k).None? {
      MatchRgbLength(s[k..]);
    }
    FindRgbNone(s, 0);
  }

  /** Two hexadecimal digits parse to their value, `16 * hi + lo`. */
  lemma ParseTwoHex(d: string)
    requires |d| == 2 && AllIn(d, HexDigits)
    ensures ParseInt16(d) == Num(16 * HexDigitValue(d[0]) + HexDigitValue(d[1]))
  {
    assert InClass(d[0], HexDigits) && InClass(d[1], HexDigits);
    assert TrimOffset(d) == 0;
    assert TrimStart(d) == d;
    assert StripSign(d) == (false, d);
    assert StripHexPrefix(d) == d;
    assert d + [] == d;
    SpanOfUnique(d, [], HexDigits);
    var d1 := d[..1];
    assert d1[..0] == [] && d1[0] == d[0];
    assert HexValue(d1) == HexDigitValue(d[0]);
    assert d[..|d| - 1] == d1;
  }

  /** The value of two hexadecimal digits as a byte. */
  function ByteOf(hi: char, lo: char): (v: nat)
    requires IsHexDigit(hi) && IsHexDigit(lo)
    ensures v <= 255
  {
    16 * HexDigitValue(hi) + HexDigitValue(lo)
  }

  /** The reference reading of six hexadecimal digits: the three byte
      values in decimal, joined by `", "`. */
  function HexDecimalTriple(h: string): string
    requires |h| == 6 && AllIn(h, HexDigits)
  {
    NatToString(ByteOf(h[0], h[1])) + ", " +
    NatToString(ByteOf(h[2], h[3])) + ", " +
    NatToString(ByteOf(h[4], h[5]))
  }

  /** A pair of hexadecimal digits at `i` contributes its byte value in
      decimal. */
  lemma HexPair(hex: string, i: nat)
    requires i + 2 <= |hex| && IsHexDigit(hex[i]) && IsHexDigit(hex[i + 1])
    ensures PairText(hex, i) == NatToString(ByteOf(hex[i], hex[i + 1]))
  {
    var d := hex[i..i + 2];
    assert Substring(hex, i, i + 2) == d;
    assert d[0] == hex[i] && d[1] == hex[i + 1];
    ParseTwoHex(d);
  }

  /** Six hexadecimal digits, whatever follows them, are read as the
      reference reading says. */
  lemma HexTripleOf(h: string, post: string)
    requires |h| == 6 && AllIn(h, HexDigits)
    ensures HexTriple(h + post) == HexDecimalTriple(h)
  {
    var hex := h + post;
    assert forall k :: 0 <= k < 6 ==> hex[k] == h[k] && InClass(h[k], HexDigits);
    HexPair(hex, 0);
    HexPair(hex, 2);
    HexPair(hex, 4);
  }

  /** `#RRGGBB` followed by anything, when no rgb match occurs, gives the
      reference reading of the six digits. */
  lemma HexBranch(h: string, post: string)
    requires |h| == 6 && AllIn(h, HexDigits)
    requires FindRgb("#" + h + post, 0).None?
    ensures GetRgbValues("#" + h + post) == HexDecimalTriple(h)
  {
    var color := "#" + h + post;
    assert color[..1] == "#";
    assert color[1..] == h + post;
    HexTripleOf(h, post);
  }

  /** A colour too short for an rgb match goes to the `#` branch or the
      fallback. */
  lemma ShortColor(color: string)
    requires |color| < 10
    ensures GetRgbValues(color) == RgbValuesOf(color, None)
  {
    NoRgbInShort(color);
  }

  /** `#RRGGBB` gives the reference reading of its six digits. */
  lemma HexColor(h: string)
    requires |h| == 6 && AllIn(h, HexDigits)
    ensures GetRgbValues("#" + h) == HexDecimalTriple(h)
  {
    var color := "#" + h;
    ShortColor(color);
    assert color[..1] == "#" && color[1..] == h + [];
    HexTripleOf(h, []);
  }

  /** Lower-cases the letters A–F. */
  function LowerHex(h: string): (r: string)
    ensures |r| == |h|
    ensures forall k :: 0 <= k < |h| ==> r[k] == AsciiLower(h[k])
  {
    seq(|h|, k requires 0 <= k < |h| => AsciiLower(h[k]))
  }

  /** Hexadecimal digits are read without regard to case. */
  lemma HexCaseInsensitive(h: string)
    requires |h| == 6 && AllIn(h, HexDigits)
    ensures GetRgbValues("#" + LowerHex(h)) == GetRgbValues("#" + h)
  {
    var l := LowerHex(h);
    forall k | 0 <= k < 6 ensures InClass(l[k], HexDigits) && HexDigitValue(l[k]) == HexDigitValue(h[k]) {
      assert InClass(h[k], HexDigits);
    }
    HexColor(l);
    HexColor(h);
  }

  /** One hexadecimal digit parses to its value. */
  lemma ParseOneHex(d: string)
    requires |d| == 1 && AllIn(d, HexDigits)
    ensures ParseInt16(d) == Num(HexDigitValue(d[0]))
  {
    assert InClass(d[0], HexDigits);
    assert TrimOffset(d) == 0;
    assert TrimStart(d) == d;
    assert StripSign(d) == (false, d);
    assert StripHexPrefix(d) == d;
    assert d + [] == d;
    SpanOfUnique(d, [], HexDigits);
    assert d[..|d| - 1] == [];
    assert HexValue(d) == HexDigitValue(d[0]);
  }

  /** The empty string parses to `NaN`. */
  lemma ParseEmpty(d: string)
    requires |d| == 0
    ensures ParseInt16(d) == NaN
  {
    assert TrimOffset(d) == 0;
  }

  /** Anything with no rgb match and no leading `#` gives the fallback. */
  lemma Fallback(color: string)
    requires FindRgb(color, 0).None? && (color == [] || color[0] != '#')
    ensures GetRgbValues(color) == FALLBACK
  {
    assert color != [] ==> color[..1][0] == color[0];
  }
}
