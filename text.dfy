/** String helpers that stand for the JavaScript built-ins the core uses:
    `String.prototype.trim`, the regular-expression class `\s`,
    `startsWith`, `includes`, ASCII case conversion, `Array.prototype.join`
    and the decimal rendering of an integer inside a template literal. */
module Text {

  /** The characters `trim()` removes and `\s` matches: the ECMAScript
      WhiteSpace and LineTerminator code points. */
  predicate IsJsSpace(c: char) {
    c == '\U{9}' || c == '\U{A}' || c == '\U{B}' || c == '\U{C}' || c == '\U{D}' ||
    c == '\U{20}' || c == '\U{A0}' || c == '\U{1680}' || ('\U{2000}' <= c <= '\U{200A}') ||
    c == '\U{2028}' || c == '\U{2029}' || c == '\U{202F}' || c == '\U{205F}' ||
    c == '\U{3000}' || c == '\U{FEFF}'
  }

  predicate AllSpace(s: string) {
    forall i :: 0 <= i < |s| ==> IsJsSpace(s[i])
  }

  /** Neither the first nor the last character is white space. */
  predicate NoEdgeSpace(s: string) {
    s == [] || (!IsJsSpace(s[0]) && !IsJsSpace(s[|s| - 1]))
  }

  /** The end of the run of white space that starts at index `i`. */
  function SpacesFrom(s: string, i: nat): (e: nat)
    requires i <= |s|
    ensures i <= e <= |s|
    ensures forall k :: i <= k < e ==> IsJsSpace(s[k])
    ensures e == |s| || !IsJsSpace(s[e])
    decreases |s| - i
  {
    if i < |s| && IsJsSpace(s[i]) then SpacesFrom(s, i + 1) else i
  }

  /** The start of the run of white space that ends just before index `j`,
      not going below `lo`. */
  function SpacesBefore(s: string, lo: nat, j: nat): (b: nat)
    requires lo <= j <= |s|
    ensures lo <= b <= j
    ensures forall k :: b <= k < j ==> IsJsSpace(s[k])
    ensures b == lo || !IsJsSpace(s[b - 1])
  {
    if lo < j && IsJsSpace(s[j - 1]) then SpacesBefore(s, lo, j - 1) else j
  }

  /** Where the trimmed part of `s` begins: after its leading white space. */
  function TrimOffset(s: string): (i: nat)
    ensures i <= |s|
  {
    SpacesFrom(s, 0)
  }

  /** Drops leading white space (`trimStart`, and what `parseInt` skips). */
  function TrimStart(s: string): (r: string)
    ensures |r| <= |s| && r == s[|s| - |r|..]
    ensures forall k :: 0 <= k < |s| - |r| ==> IsJsSpace(s[k])
    ensures r == [] || !IsJsSpace(r[0])
  {
    s[TrimOffset(s)..]
  }

  /** `s.trim()`: the slice of `s` that starts and ends with a character
      other than white space, every character outside it being white
      space. */
  function Trim(s: string): (r: string)
    ensures NoEdgeSpace(r)
    ensures TrimOffset(s) + |r| <= |s| && r == s[TrimOffset(s)..TrimOffset(s) + |r|]
    ensures forall k :: 0 <= k < |s| && !(TrimOffset(s) <= k < TrimOffset(s) + |r|) ==> IsJsSpace(s[k])
  {
    var i := TrimOffset(s);
    s[i..SpacesBefore(s, i, |s|)]
  }

  /** Trimming pads of white space from a string without edge white space
      gives back that string: `(w1 + x + w2).trim() == x`. */
  lemma TrimPadded(w1: string, x: string, w2: string)
    requires AllSpace(w1) && AllSpace(w2) && NoEdgeSpace(x)
    ensures Trim(w1 + x + w2) == x
  {
    var s := w1 + x + w2;
    var i, e := TrimOffset(s), SpacesBefore(s, TrimOffset(s), |s|);
    if x == [] {
      assert forall k :: 0 <= k < |s| ==> IsJsSpace(s[k]) by {
        forall k | 0 <= k < |s| ensures IsJsSpace(s[k]) {
          if k < |w1| { assert s[k] == w1[k]; } else { assert s[k] == w2[k - |w1|]; }
        }
      }
    } else {
      assert s[|w1|] == x[0] && s[|w1| + |x| - 1] == x[|x| - 1];
      assert forall k :: 0 <= k < |w1| ==> s[k] == w1[k];
      assert i == |w1|;
      assert forall k :: |w1| + |x| <= k < |s| ==> s[k] == w2[k - |w1| - |x|];
      assert e == |w1| + |x|;
      assert s[i..e] == x;
    }
  }

  /** A string without edge white space is its own trim. */
  lemma TrimNoEdge(x: string)
    requires NoEdgeSpace(x)
    ensures Trim(x) == x
  {
    assert [] + x + [] == x;
    TrimPadded([], x, []);
  }

  /** `trim` is idempotent. */
  lemma TrimIdempotent(s: string)
    ensures Trim(Trim(s)) == Trim(s)
  {
    TrimNoEdge(Trim(s));
  }

  /** Every string is a trimmed core between two runs of white space. */
  lemma TrimSplit(s: string) returns (w1: string, w2: string)
    ensures AllSpace(w1) && AllSpace(w2) && s == w1 + Trim(s) + w2
  {
    var r, i := Trim(s), TrimOffset(s);
    w1, w2 := s[..i], s[i + |r|..];
    assert s == s[..i] + s[i..i + |r|] + s[i + |r|..];
    forall k | 0 <= k < |w1| ensures IsJsSpace(w1[k]) {
      assert w1[k] == s[k];
    }
    forall k | 0 <= k < |w2| ensures IsJsSpace(w2[k]) {
      assert w2[k] == s[i + |r| + k];
    }
  }

  predicate StartsWith(s: string, prefix: string) {
    |prefix| <= |s| && s[..|prefix|] == prefix
  }

  /** `sub` occurs in `s` at index `i`. */
  predicate OccursAt(s: string, sub: string, i: int) {
    0 <= i <= |s| - |sub| && s[i..i + |sub|] == sub
  }

  /** `s.includes(sub)`. */
  predicate Contains(s: string, sub: string) {
    exists i | 0 <= i <= |s| - |sub| :: OccursAt(s, sub, i)
  }

  /** Text put in front keeps an occurrence. */
  lemma ContainsAfter(a: string, b: string, sub: string)
    requires Contains(b, sub)
    ensures Contains(a + b, sub)
  {
    var i :| 0 <= i <= |b| - |sub| && OccursAt(b, sub, i);
    assert (a + b)[|a| + i..|a| + i + |sub|] == b[i..i + |sub|];
    assert OccursAt(a + b, sub, |a| + i);
  }

  /** Text put behind keeps an occurrence. */
  lemma ContainsBefore(b: string, c: string, sub: string)
    requires Contains(b, sub)
    ensures Contains(b + c, sub)
  {
    var i :| 0 <= i <= |b| - |sub| && OccursAt(b, sub, i);
    assert (b + c)[i..i + |sub|] == b[i..i + |sub|];
    assert OccursAt(b + c, sub, i);
  }

  /** A string none of whose characters is `sub[0]` does not contain `sub`. */
  lemma NotContainsWithoutFirst(s: string, sub: string)
    requires |sub| > 0 && sub[0] !in s
    ensures !Contains(s, sub)
  {
    forall i | 0 <= i <= |s| - |sub| ensures !OccursAt(s, sub, i) {
      assert s[i..i + |sub|][0] == s[i] && s[i] in s;
    }
  }

  predicate IsAsciiUpper(c: char) { 'A' <= c <= 'Z' }
  predicate IsAsciiLower(c: char) { 'a' <= c <= 'z' }

  function AsciiLower(c: char): (r: char)
    ensures IsAsciiUpper(c) ==> IsAsciiLower(r)
    ensures !IsAsciiUpper(c) ==> r == c
  {
    if IsAsciiUpper(c) then (c as int + 32) as char else c
  }

  function AsciiUpper(c: char): (r: char)
    ensures IsAsciiLower(c) ==> IsAsciiUpper(r)
    ensures !IsAsciiLower(c) ==> r == c
  {
    if IsAsciiLower(c) then (c as int - 32) as char else c
  }

  predicate IsDigit(c: char) { '0' <= c <= '9' }

  function DigitChar(d: nat): (c: char)
    requires d < 10
    ensures IsDigit(c)
  {
    ('0' as int + d) as char
  }

  function DigitValue(c: char): (d: nat)
    requires IsDigit(c)
    ensures d < 10 && DigitChar(d) == c
  {
    c as int - '0' as int
  }

  /** The decimal value of a string of digits, most significant first. */
  function DecimalValue(s: string): nat
    requires forall i :: 0 <= i < |s| ==> IsDigit(s[i])
  {
    if s == [] then 0 else DecimalValue(s[..|s| - 1]) * 10 + DigitValue(s[|s| - 1])
  }

  /** The decimal rendering of a natural number, as `${n}` prints it. */
  function NatToString(n: nat): (s: string)
    ensures |s| > 0 && forall i :: 0 <= i < |s| ==> IsDigit(s[i])
    ensures |s| > 1 ==> s[0] != '0'
  {
    if n < 10 then [DigitChar(n)] else NatToString(n / 10) + [DigitChar(n % 10)]
  }

  /** The rendering reads back as the number it renders. */
  lemma {:induction false} NatToStringRoundTrip(n: nat)
    ensures DecimalValue(NatToString(n)) == n
  {
    if n >= 10 {
      var s := NatToString(n);
      assert s[..|s| - 1] == NatToString(n / 10);
      NatToStringRoundTrip(n / 10);
    }
  }

  /** The decimal rendering of an integer, with a leading `-` when negative. */
  function IntToString(i: int): (s: string)
    ensures |s| > 0
    ensures i < 0 <==> s[0] == '-'
  {
    if i < 0 then "-" + NatToString(-i) else NatToString(i)
  }

  /** `lines.join(sep)`. */
  function Join(lines: seq<string>, sep: char): (r: string)
    ensures lines == [] ==> r == []
  {
    if |lines| == 0 then []
    else if |lines| == 1 then lines[0]
    else lines[0] + [sep] + Join(lines[1..], sep)
  }

  /** `s.split(sep)` for a one-character separator: the pieces between
      separators, empty pieces included. */
  function Split(s: string, sep: char): (r: seq<string>)
    ensures |r| > 0
  {
    if s == [] then [[]]
    else if s[0] == sep then [[]] + Split(s[1..], sep)
    else var rest := Split(s[1..], sep); [[s[0]] + rest[0]] + rest[1..]
  }

  predicate Lacks(s: string, c: char) {
    forall k :: 0 <= k < |s| ==> s[k] != c
  }

  /** A string without the separator is a single piece. */
  lemma {:induction false} SplitLacking(a: string, sep: char)
    requires Lacks(a, sep)
    ensures Split(a, sep) == [a]
  {
    if a != [] {
      SplitLacking(a[1..], sep);
      assert [a[0]] + a[1..] == a;
    }
  }

  /** Splitting stops at the first separator. */
  lemma {:induction false} SplitAtFirst(a: string, sep: char, b: string)
    requires Lacks(a, sep)
    ensures Split(a + [sep] + b, sep) == [a] + Split(b, sep)
  {
    var s := a + [sep] + b;
    if a == [] {
      assert s == [sep] + b && s[1..] == b;
    } else {
      assert s[0] == a[0] && s[1..] == a[1..] + [sep] + b;
      SplitAtFirst(a[1..], sep, b);
      assert [a[0]] + a[1..] == a;
    }
  }

  /** Splitting a join gives the joined lines back, when no line holds the
      separator; `c` is whatever follows one more separator. */
  lemma {:induction false} SplitJoin(lines: seq<string>, sep: char, c: string)
    requires |lines| > 0 && forall i :: 0 <= i < |lines| ==> Lacks(lines[i], sep)
    ensures Split(Join(lines, sep) + [sep] + c, sep) == lines + Split(c, sep)
  {
    if |lines| == 1 {
      SplitAtFirst(lines[0], sep, c);
    } else {
      var rest := Join(lines[1..], sep);
      assert Join(lines, sep) + [sep] + c == lines[0] + [sep] + (rest + [sep] + c);
      calc {
        Split(Join(lines, sep) + [sep] + c, sep);
        Split(lines[0] + [sep] + (rest + [sep] + c), sep);
        { SplitAtFirst(lines[0], sep, rest + [sep] + c); }
        [lines[0]] + Split(rest + [sep] + c, sep);
        { SplitJoin(lines[1..], sep, c); }
        [lines[0]] + (lines[1..] + Split(c, sep));
        { assert [lines[0]] + lines[1..] == lines; }
        lines + Split(c, sep);
      }
    }
  }
}
