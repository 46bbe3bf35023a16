/** The user-metrics block of the persona prompt: each field of the metrics
    record is defaulted, string fields have their tags stripped, the vibes
    become one `<vibe>` line each, and the whole is wrapped in a
    `<user_metrics>` element that the system prompt tells the model to read
    as data only. */
module GeneratePersona {
  import opened Wrappers
  import opened Text

  /** One vibe of the metrics; `kind` is the record's `type` field. */
  datatype Vibe = Vibe(kind: string, percentage: int)

  /** `PersonaMetrics`: every field is optional. */
  datatype PersonaMetrics = PersonaMetrics(
    username: Option<string>,
    topDapp: Option<string>,
    transactionCount: Option<int>,
    favoriteChain: Option<string>,
    percentile: Option<int>,
    vibes: Option<seq<Vibe>>,
    totalDapps: Option<int>)

  // ---------------------------------------------------------------------
  // replace(/<[^>]*>/g, "")

  /** The first `>` at or after index `i`, or `|s|` when there is none. */
  function CloseFrom(s: string, i: nat): (j: nat)
    requires i <= |s|
    ensures i <= j <= |s|
    ensures forall k :: i <= k < j ==> s[k] != '>'
    ensures j < |s| ==> s[j] == '>'
    decreases |s| - i
  {
    if i == |s| || s[i] == '>' then i else CloseFrom(s, i + 1)
  }

  /** Removes every match of `<[^>]*>`, scanning left to right: a `<`
      starts a match exactly when some `>` follows it, and the match ends
      at the first such `>`; a `<` with no `>` after it is kept. */
  function StripTags(s: string): (r: string)
    ensures |r| <= |s|
    decreases |s|
  {
    if s == [] then []
    else if s[0] == '<' && CloseFrom(s, 1) < |s| then StripTags(s[CloseFrom(s, 1) + 1..])
    else [s[0]] + StripTags(s[1..])
  }

  /** No `<` is followed, anywhere later, by a `>`: the string holds no
      tag. */
  predicate NoTag(r: string) {
    forall i, j :: 0 <= i < j < |r| && r[i] == '<' ==> r[j] != '>'
  }

  /** A string without `>` is left as it is. */
  lemma {:induction false} StripWithoutClose(s: string)
    requires Lacks(s, '>')
    ensures StripTags(s) == s
  {
    if s != [] {
      assert CloseFrom(s, 1) == |s|;
      StripWithoutClose(s[1..]);
      assert [s[0]] + s[1..] == s;
    }
  }

  /** After stripping no tag is left. */
  lemma {:induction false} StripLeavesNoTag(s: string)
    ensures NoTag(StripTags(s))
  {
    if s != [] {
      if s[0] == '<' && CloseFrom(s, 1) < |s| {
        StripLeavesNoTag(s[CloseFrom(s, 1) + 1..]);
      } else {
        var rest := StripTags(s[1..]);
        StripLeavesNoTag(s[1..]);
        if s[0] == '<' {
          assert Lacks(s[1..], '>') by {
            forall k | 0 <= k < |s| - 1 ensures s[1..][k] != '>' {
              assert s[1..][k] == s[k + 1];
            }
          }
          StripWithoutClose(s[1..]);
        }
        var r := [s[0]] + rest;
        forall i, j | 0 <= i < j < |r| && r[i] == '<' ensures r[j] != '>' {
          assert r[j] == rest[j - 1];
          if i > 0 { assert r[i] == rest[i - 1]; }
        }
      }
    }
  }

  /** A string that holds no tag is left as it is. */
  lemma {:induction false} StripNoTag(r: string)
    requires NoTag(r)
    ensures StripTags(r) == r
  {
    if r != [] {
      assert NoTag(r[1..]) by {
        forall i, j | 0 <= i < j < |r| - 1 && r[1..][i] == '<' ensures r[1..][j] != '>' {
          assert r[1..][i] == r[i + 1] && r[1..][j] == r[j + 1];
        }
      }
      StripNoTag(r[1..]);
      assert [r[0]] + r[1..] == r;
    }
  }

  /** Stripping changes a string exactly when it holds a tag. */
  lemma StripFixedPoints(r: string)
    ensures StripTags(r) == r <==> NoTag(r)
  {
    if NoTag(r) {
      StripNoTag(r);
    } else {
      StripLeavesNoTag(r);
    }
  }

  /** Stripping is idempotent. */
  lemma StripIdempotent(s: string)
    ensures StripTags(StripTags(s)) == StripTags(s)
  {
    StripLeavesNoTag(s);
    StripNoTag(StripTags(s));
  }

  /** A leading tag is dropped whole. */
  lemma StripLeadingTag(t: string, rest: string)
    requires Lacks(t, '>')
    ensures StripTags(['<'] + t + ['>'] + rest) == StripTags(rest)
  {
    var s := ['<'] + t + ['>'] + rest;
    assert forall k :: 1 <= k < |t| + 1 ==> s[k] == t[k - 1];
    assert s[|t| + 1] == '>';
    assert CloseFrom(s, 1) == |t| + 1;
    assert s[|t| + 2..] == rest;
  }

  /** A stripped string cannot hold a complete element tag such as
      `</user_metrics>`, so no field can close the metrics element early. */
  lemma NoTagNoElement(r: string, tag: string)
    requires NoTag(r)
    requires |tag| >= 2 && tag[0] == '<' && tag[|tag| - 1] == '>'
    ensures !Contains(r, tag)
  {
    forall i | 0 <= i <= |r| - |tag| ensures !OccursAt(r, tag, i) {
      assert r[i..i + |tag|][0] == r[i];
      assert r[i..i + |tag|][|tag| - 1] == r[i + |tag| - 1];
    }
  }

  // ---------------------------------------------------------------------
  // The fields

  /** `(value || fallback)`: an absent or empty string takes the fallback. */
  function OrElse(value: Option<string>, fallback: string): string {
    if value.Some? && value.value != [] then value.value else fallback
  }

  /** A string field: the `||` default is applied first, then the tags are
      stripped. */
  function TextField(value: Option<string>, fallback: string): (r: string)
    ensures NoTag(r)
  {
    StripLeavesNoTag(OrElse(value, fallback));
    StripTags(OrElse(value, fallback))
  }

  /** A number field: `${value ?? fallback}`. */
  function NumberField(value: Option<int>, fallback: int): string {
    IntToString(value.GetOr(fallback))
  }

  const UNKNOWN := "Unknown"
  const NOT_SPECIFIED := "Not specified"

  /** Removes every `"` (`replace(/"/g, "")`), keeping the other characters
      in order. */
  function RemoveQuotes(s: string): (r: string)
    ensures Lacks(r, '"')
    ensures forall k :: 0 <= k < |r| ==> r[k] in s
    ensures Lacks(s, '"') ==> r == s
  {
    if s == [] then []
    else if s[0] == '"' then RemoveQuotes(s[1..])
    else [s[0]] + RemoveQuotes(s[1..])
  }

  /** `  <vibe type="…">…%</vibe>`. */
  function VibeLine(v: Vibe): string {
    "  <vibe type=\"" + RemoveQuotes(v.kind) + "\">" + IntToString(v.percentage) + "%</vibe>"
  }

  function VibeLines(vs: seq<Vibe>): (r: seq<string>)
    ensures |r| == |vs| && forall i :: 0 <= i < |vs| ==> r[i] == VibeLine(vs[i])
  {
    seq(|vs|, i requires 0 <= i < |vs| => VibeLine(vs[i]))
  }

  /** The vibes are present and non-empty (`vibes && vibes.length > 0`). */
  predicate HasVibes(vibes: Option<seq<Vibe>>) {
    vibes.Some? && |vibes.value| > 0
  }

  const VIBES_OPEN := "<vibes>"
  const VIBES_CLOSE := "</vibes>"

  /** The `<vibes>` block, or nothing. */
  function VibesBlock(vibes: Option<seq<Vibe>>): string {
    if HasVibes(vibes) then VIBES_OPEN + "\n" + Join(VibeLines(vibes.value), '\n') + "\n" + VIBES_CLOSE
    else ""
  }

  /** `<tag>content</tag>` */
  function Element(tag: string, content: string): string {
    "<" + tag + ">" + content + "</" + tag + ">"
  }

  const METRICS_OPEN := "<user_metrics>"
  const METRICS_CLOSE := "</user_metrics>"

  /** The lines of the template between its two `user_metrics` tags. */
  function MetricsFields(m: PersonaMetrics): string {
    "\n"
    + Element("username", TextField(m.username, UNKNOWN)) + "\n"
    + Element("top_dapp", TextField(m.topDapp, NOT_SPECIFIED)) + "\n"
    + Element("transaction_count", NumberField(m.transactionCount, 0)) + "\n"
    + Element("favorite_chain", TextField(m.favoriteChain, NOT_SPECIFIED)) + "\n"
    + Element("percentile", NumberField(m.percentile, 50)) + "\n"
    + Element("total_dapps", NumberField(m.totalDapps, 0)) + "\n"
    + VibesBlock(m.vibes) + "\n"
  }

  /** The template between its leading newline and its trailing newline and
      indentation. */
  function MetricsBody(m: PersonaMetrics): string {
    METRICS_OPEN + MetricsFields(m) + METRICS_CLOSE
  }

  /** `metricsText`, as the template literal builds it. */
  function MetricsText(m: PersonaMetrics): string {
    LEAD + MetricsBody(m) + TRAIL
  }

  /** The template's newline after the opening backtick, and its newline
      and indentation before the closing one. */
  const LEAD := "\n"
  const TRAIL := "\n      "

  lemma PaddingIsSpace()
    ensures AllSpace(LEAD) && AllSpace(TRAIL)
  {
    assert forall k :: 1 <= k < |TRAIL| ==> TRAIL[k] == ' ';
  }

  predicate EndsWith(s: string, suffix: string) {
    |suffix| <= |s| && s[|s| - |suffix|..] == suffix
  }

  // ---------------------------------------------------------------------
  // Properties of the fields

  /** `||` falls back for an absent or empty value, before stripping, and a
      non-empty value is kept and stripped. */
  lemma TextFieldDefaults(value: Option<string>)
    ensures value.None? || value == Some([]) ==>
      TextField(value, UNKNOWN) == UNKNOWN && TextField(value, NOT_SPECIFIED) == NOT_SPECIFIED
    ensures value.Some? && value.value != [] ==>
      TextField(value, UNKNOWN) == StripTags(value.value) && TextField(value, NOT_SPECIFIED) == StripTags(value.value)
  {
    assert Lacks(UNKNOWN, '>');
    assert Lacks("Not", '>') && Lacks(" specified", '>');
    StripWithoutClose(UNKNOWN);
    StripWithoutClose(NOT_SPECIFIED);
  }

  /** A tag-only username strips to the empty string rather than falling
      back to `Unknown`: the fallback is chosen before stripping. */
  lemma TagOnlyUsername()
    ensures TextField(Some("<b></b>"), UNKNOWN) == ""
  {
    assert "<b></b>" == ['<'] + "b" + ['>'] + (['<'] + "/b" + ['>'] + "");
    StripLeadingTag("b", ['<'] + "/b" + ['>'] + "");
    StripLeadingTag("/b", "");
  }

  /** `??` falls back for an absent number only: an explicit 0 stays 0. */
  lemma NumberFieldDefaults(value: Option<int>, fallback: int)
    ensures value.None? ==> NumberField(value, fallback) == IntToString(fallback)
    ensures value.Some? ==> NumberField(value, fallback) == IntToString(value.value)
  {
  }

  /** With no percentile the prompt says 50; with a percentile of 0 it says
      0. */
  lemma PercentileDefault(m: PersonaMetrics)
    ensures m.percentile.None? ==> NumberField(m.percentile, 50) == "50"
    ensures m.percentile == Some(0) ==> NumberField(m.percentile, 50) == "0"
  {
  }

  // ---------------------------------------------------------------------
  // Properties of the vibes block

  /** The block is there exactly when there are vibes. */
  lemma VibesBlockPresence(vibes: Option<seq<Vibe>>)
    ensures VibesBlock(vibes) == "" <==> !HasVibes(vibes)
    ensures HasVibes(vibes) ==> StartsWith(VibesBlock(vibes), VIBES_OPEN + "\n")
  {
    if HasVibes(vibes) {
      var b := VibesBlock(vibes);
      assert |b| >= |VIBES_OPEN|;
      assert b[..|VIBES_OPEN + "\n"|] == VIBES_OPEN + "\n";
    }
  }

  /** A number renders without line breaks. */
  lemma IntHasNoNewline(i: int)
    ensures Lacks(IntToString(i), '\n')
  {
    var s := IntToString(i);
    if i < 0 {
      var d := NatToString(-i);
      assert forall k :: 1 <= k < |s| ==> s[k] == d[k - 1];
    }
  }

  lemma LacksConcat(a: string, b: string, c: char)
    requires Lacks(a, c) && Lacks(b, c)
    ensures Lacks(a + b, c)
  {
    assert forall k :: |a| <= k < |a + b| ==> (a + b)[k] == b[k - |a|];
  }

  /** A vibe line is one line when the vibe's type holds no line break. */
  lemma VibeLineSingle(v: Vibe)
    requires Lacks(v.kind, '\n')
    ensures Lacks(VibeLine(v), '\n')
  {
    var t := RemoveQuotes(v.kind);
    assert Lacks(t, '\n') by {
      forall k | 0 <= k < |t| ensures t[k] != '\n' {
        var j :| 0 <= j < |v.kind| && v.kind[j] == t[k];
      }
    }
    IntHasNoNewline(v.percentage);
    assert Lacks("  <vibe", '\n') && Lacks(" type=\"", '\n') && Lacks("\">", '\n') && Lacks("%</vibe>", '\n');
    LacksConcat("  <vibe", " type=\"", '\n');
    LacksConcat("  <vibe type=\"", t, '\n');
    LacksConcat("  <vibe type=\"" + t, "\">", '\n');
    LacksConcat("  <vibe type=\"" + t + "\">", IntToString(v.percentage), '\n');
    LacksConcat("  <vibe type=\"" + t + "\">" + IntToString(v.percentage), "%</vibe>", '\n');
  }

  lemma VibeTagsOneLine()
    ensures Lacks(VIBES_OPEN, '\n') && Lacks(VIBES_CLOSE, '\n')
  {
  }

  /** Read line by line, the block is its opening tag, one line per vibe in
      input order, and its closing tag. */
  lemma VibesBlockLines(vs: seq<Vibe>)
    requires |vs| > 0 && forall i :: 0 <= i < |vs| ==> Lacks(vs[i].kind, '\n')
    ensures Split(VibesBlock(Some(vs)), '\n') == [VIBES_OPEN] + VibeLines(vs) + [VIBES_CLOSE]
  {
    var lines := VibeLines(vs);
    forall i | 0 <= i < |lines| ensures Lacks(lines[i], '\n') {
      VibeLineSingle(vs[i]);
    }
    var j := Join(lines, '\n');
    assert VibesBlock(Some(vs)) == VIBES_OPEN + ['\n'] + (j + ['\n'] + VIBES_CLOSE);
    VibeTagsOneLine();
    SplitAtFirst(VIBES_OPEN, '\n', j + ['\n'] + VIBES_CLOSE);
    SplitJoin(lines, '\n', VIBES_CLOSE);
    SplitLacking(VIBES_CLOSE, '\n');
  }

  // ---------------------------------------------------------------------
  // Properties of the whole text

  /** Trimming the padded text of an element with content `x` gives the
      element. */
  lemma TrimMetricsElement(x: string)
    ensures Trim(LEAD + (METRICS_OPEN + x + METRICS_CLOSE) + TRAIL) == METRICS_OPEN + x + METRICS_CLOSE
    ensures StartsWith(METRICS_OPEN + x + METRICS_CLOSE, METRICS_OPEN)
    ensures EndsWith(METRICS_OPEN + x + METRICS_CLOSE, METRICS_CLOSE)
  {
    var b := METRICS_OPEN + x + METRICS_CLOSE;
    assert b[..|METRICS_OPEN|] == METRICS_OPEN;
    assert b[|b| - |METRICS_CLOSE|..] == METRICS_CLOSE;
    assert b[0] == '<' && b[|b| - 1] == '>';
    PaddingIsSpace();
    TrimPadded(LEAD, b, TRAIL);
  }

  /** Ignoring the template's surrounding white space, the text is the
      metrics element: it begins with `<user_metrics>` and ends with
      `</user_metrics>`. */
  lemma MetricsTextTrimmed(m: PersonaMetrics)
    ensures Trim(MetricsText(m)) == MetricsBody(m)
    ensures StartsWith(MetricsBody(m), METRICS_OPEN) && EndsWith(MetricsBody(m), METRICS_CLOSE)
  {
    TrimMetricsElement(MetricsFields(m));
  }

  /** No username, top dApp or favourite chain can close the metrics
      element early: those fields are stripped of tags. */
  lemma FieldsCannotClose(value: Option<string>, fallback: string)
    ensures !Contains(TextField(value, fallback), METRICS_CLOSE)
  {
    NoTagNoElement(TextField(value, fallback), METRICS_CLOSE);
  }

  /** A vibe type without quotes appears verbatim in the vibes block. */
  lemma VibeKindInBlock(kind: string, percentage: int)
    requires Lacks(kind, '"')
    ensures Contains(VibesBlock(Some([Vibe(kind, percentage)])), kind)
  {
    var v := Vibe(kind, percentage);
    assert OccursAt(kind, kind, 0);
    ContainsAfter("  <vibe type=\"", kind, kind);
    ContainsBefore("  <vibe type=\"" + kind, "\">", kind);
    ContainsBefore("  <vibe type=\"" + kind + "\">", IntToString(percentage), kind);
    ContainsBefore("  <vibe type=\"" + kind + "\">" + IntToString(percentage), "%</vibe>", kind);
    assert Join(VibeLines([v]), '\n') == VibeLine(v);
    ContainsAfter(VIBES_OPEN + "\n", VibeLine(v), kind);
    ContainsBefore(VIBES_OPEN + "\n" + VibeLine(v), "\n", kind);
    ContainsBefore(VIBES_OPEN + "\n" + VibeLine(v) + "\n", VIBES_CLOSE, kind);
  }

  /** A vibe type is only stripped of quotes, so it can carry the closing
      tag of the metrics element into the vibes block. */
  lemma VibeTypeCanClose(percentage: int)
    ensures Contains(VibesBlock(Some([Vibe(METRICS_CLOSE, percentage)])), METRICS_CLOSE)
  {
    VibeKindInBlock(METRICS_CLOSE, percentage);
  }
}
