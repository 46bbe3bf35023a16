/** The share-image export: a deep clone of the card is parked off screen,
    every element of the clone gets the computed colours of the matching
    original element as `!important` inline styles (so that the rasteriser
    never meets a colour syntax it cannot read), the clone is rasterised,
    and the picture is offered as a download. Elements are values here: the
    walk returns the restyled clone rather than restyling it in place. */
module ImageExport {
  import opened Wrappers
  import opened Text

  // ---------------------------------------------------------------------
  // camelCase to kebab-case

  /** `prop.replace(/[A-Z]/g, m => "-" + m.toLowerCase())`. */
  function Kebab(s: string): (r: string)
    ensures forall k :: 0 <= k < |r| ==> !IsAsciiUpper(r[k])
    ensures |r| >= |s|
  {
    if s == [] then []
    else (if IsAsciiUpper(s[0]) then ['-', AsciiLower(s[0])] else [s[0]]) + Kebab(s[1..])
  }

  /** The conversion works character by character. */
  lemma {:induction false} KebabAppend(a: string, b: string)
    ensures Kebab(a + b) == Kebab(a) + Kebab(b)
  {
    if a != [] {
      var head := if IsAsciiUpper(a[0]) then ['-', AsciiLower(a[0])] else [a[0]];
      assert (a + b)[0] == a[0] && (a + b)[1..] == a[1..] + b;
      assert Kebab(a + b) == head + Kebab(a[1..] + b);
      KebabAppend(a[1..], b);
      assert head + (Kebab(a[1..]) + Kebab(b)) == (head + Kebab(a[1..])) + Kebab(b);
    } else {
      assert a + b == b;
    }
  }

  /** No ASCII capital letter in `s`. */
  predicate NoCapitals(s: string) {
    forall k :: 0 <= k < |s| ==> !IsAsciiUpper(s[k])
  }

  /** A name without capitals is left as it is. */
  lemma {:induction false} KebabNoCapitals(s: string)
    requires NoCapitals(s)
    ensures Kebab(s) == s
  {
    if s != [] {
      KebabNoCapitals(s[1..]);
    }
  }

  /** A capital is replaced by `-` and its lower-case letter. */
  lemma KebabCapital(c: char, rest: string)
    requires IsAsciiUpper(c) && NoCapitals(rest)
    ensures Kebab([c] + rest) == ['-', AsciiLower(c)] + rest
  {
    assert ([c] + rest)[1..] == rest;
    KebabNoCapitals(rest);
  }

  /** `borderTopColor` becomes `border-top-color`. */
  lemma KebabBorderTopColor()
    ensures Kebab("border" + "Top" + "Color") == "border" + "-top" + "-color"
  {
    KebabAppend("border" + "Top", "Color");
    KebabAppend("border", "Top");
    KebabNoCapitals("border");
    KebabCapital('T', "op");
    KebabCapital('C', "olor");
    assert "Top" == ['T'] + "op" && "Color" == ['C'] + "olor";
    assert ['-', AsciiLower('T')] + "op" == "-top";
    assert ['-', AsciiLower('C')] + "olor" == "-color";
  }

  /** kebab-case back to camelCase: `-` and a lower-case letter become the
      capital letter. */
  function Camel(r: string): string {
    if r == [] then []
    else if |r| >= 2 && r[0] == '-' && IsAsciiLower(r[1]) then [AsciiUpper(r[1])] + Camel(r[2..])
    else [r[0]] + Camel(r[1..])
  }

  /** The conversion loses nothing for names without `-`: camel-casing the
      kebab name gives the property name back. */
  lemma {:induction false} KebabRoundTrip(s: string)
    requires forall k :: 0 <= k < |s| ==> s[k] != '-'
    ensures Camel(Kebab(s)) == s
  {
    if s != [] {
      KebabRoundTrip(s[1..]);
      var r := Kebab(s);
      if IsAsciiUpper(s[0]) {
        assert r == ['-', AsciiLower(s[0])] + Kebab(s[1..]);
        assert r[2..] == Kebab(s[1..]);
      } else {
        assert r == [s[0]] + Kebab(s[1..]);
        assert r[1..] == Kebab(s[1..]);
      }
    }
  }

  // ---------------------------------------------------------------------
  // Elements and styles

  /** An inline style entry: the value and whether it has `important`
      priority. */
  datatype StyleValue = StyleValue(value: string, important: bool)

  /** An element of the card: whether it is an `HTMLElement`, its computed
      style (what `getComputedStyle` reports; a missing property reads as
      `""`), its inline style and its children. */
  datatype Element = Element(
    isHtml: bool,
    computed: map<string, string>,
    inline: map<string, StyleValue>,
    children: seq<Element>)

  /** `getPropertyValue`. */
  function ComputedValue(e: map<string, string>, name: string): string {
    if name in e then e[name] else ""
  }

  /** `cloneNode(true)` produces a tree of the same shape. */
  predicate SameShape(a: Element, b: Element) {
    |a.children| == |b.children| &&
    forall i :: 0 <= i < |a.children| ==> SameShape(a.children[i], b.children[i])
  }

  /** The colour properties copied, in camelCase. */
  const COLOR_PROPERTIES: seq<string> := [
    "backgroundColor", "color", "borderColor", "borderTopColor",
    "borderRightColor", "borderBottomColor", "borderLeftColor", "outlineColor"]

  const BACKGROUND_IMAGE: string := "background-image"

  /** A computed colour worth copying: not empty and not fully
      transparent. */
  predicate CopiesColor(value: string) {
    value != [] && value != "rgba(0, 0, 0, 0)" && value != "transparent"
  }

  /** A computed background image worth copying: not empty and not
      `none`. */
  predicate CopiesImage(value: string) {
    value != [] && value != "none"
  }

  /** One step of the `forEach`: the property `prop` of the computed style
      written to the inline style when worth copying. */
  function WriteColor(computed: map<string, string>, inline: map<string, StyleValue>, prop: string): map<string, StyleValue> {
    var name := Kebab(prop);
    var value := ComputedValue(computed, name);
    if CopiesColor(value) then inline[name := StyleValue(value, true)] else inline
  }

  /** The `forEach` over `props`, in order. */
  function WriteColors(computed: map<string, string>, inline: map<string, StyleValue>, props: seq<string>): map<string, StyleValue>
    decreases |props|
  {
    if props == [] then inline
    else WriteColor(computed, WriteColors(computed, inline, props[..|props| - 1]), props[|props| - 1])
  }

  /** The inline style an `HTMLElement` pair ends with: the colours, then the
      background image. */
  function StyledInline(computed: map<string, string>, inline: map<string, StyleValue>): map<string, StyleValue> {
    StyledInlineWith(COLOR_PROPERTIES, computed, inline)
  }

  /** The same, for the colour property list `props`. */
  function StyledInlineWith(props: seq<string>, computed: map<string, string>, inline: map<string, StyleValue>): map<string, StyleValue> {
    var colored := WriteColors(computed, inline, props);
    var bg := ComputedValue(computed, BACKGROUND_IMAGE);
    if CopiesImage(bg) then colored[BACKGROUND_IMAGE := StyleValue(bg, true)] else colored
  }

  /** The kebab names of `props`. */
  predicate IsKebabOf(name: string, props: seq<string>) {
    exists i :: 0 <= i < |props| && Kebab(props[i]) == name
  }

  /** After the loop over `props`, an entry is the computed value with
      `important` priority when its name is the kebab name of one of
      `props` and the value is worth copying; every other entry is as it
      was. */
  lemma {:induction false} WriteColorsEntry(computed: map<string, string>, inline: map<string, StyleValue>, props: seq<string>, name: string)
    ensures var r := WriteColors(computed, inline, props);
      if IsKebabOf(name, props) && CopiesColor(ComputedValue(computed, name))
      then name in r && r[name] == StyleValue(ComputedValue(computed, name), true)
      else Lookup(r, name) == Lookup(inline, name)
    decreases |props|
  {
    if props != [] {
      var init := props[..|props| - 1];
      var last := props[|props| - 1];
      WriteColorsEntry(computed, inline, init, name);
      if IsKebabOf(name, props) && !IsKebabOf(name, init) {
        assert Kebab(last) == name;
      }
      if IsKebabOf(name, init) {
        var i :| 0 <= i < |init| && Kebab(init[i]) == name;
        assert props[i] == init[i];
      }
    }
  }

  /** A name whose last letter is not a capital keeps its last letter. */
  lemma KebabLast(s: string)
    requires s != [] && !IsAsciiUpper(s[|s| - 1])
    ensures Kebab(s) != [] && Kebab(s)[|Kebab(s)| - 1] == s[|s| - 1]
  {
    var n := |s|;
    assert s == s[..n - 1] + [s[n - 1]];
    KebabAppend(s[..n - 1], [s[n - 1]]);
    assert [s[n - 1]][1..] == [];
  }

  /** Every colour property ends in `r`. */
  lemma ColorPropertiesEndInR()
    ensures forall i :: 0 <= i < |COLOR_PROPERTIES| ==>
              COLOR_PROPERTIES[i] != [] && COLOR_PROPERTIES[i][|COLOR_PROPERTIES[i]| - 1] == 'r'
  {
  }

  /** `background-image` is not the kebab name of a colour property: those
      all end in `r`. */
  lemma BackgroundImageNotColor()
    ensures !IsKebabOf(BACKGROUND_IMAGE, COLOR_PROPERTIES)
  {
    ColorPropertiesEndInR();
    forall i | 0 <= i < |COLOR_PROPERTIES| ensures Kebab(COLOR_PROPERTIES[i]) != BACKGROUND_IMAGE {
      KebabLast(COLOR_PROPERTIES[i]);
    }
  }

  /** The entries of a styled `HTMLElement`, for a list `props` of colour
      properties none of which is `background-image`. */
  lemma StyledInlineWithEntry(props: seq<string>, computed: map<string, string>, inline: map<string, StyleValue>, name: string)
    requires !IsKebabOf(BACKGROUND_IMAGE, props)
    ensures var r := StyledInlineWith(props, computed, inline);
      var value := ComputedValue(computed, name);
      name == BACKGROUND_IMAGE ==>
        if CopiesImage(value) then name in r && r[name] == StyleValue(value, true)
        else Lookup(r, name) == Lookup(inline, name)
    ensures var r := StyledInlineWith(props, computed, inline);
      var value := ComputedValue(computed, name);
      name != BACKGROUND_IMAGE ==>
        if IsKebabOf(name, props) && CopiesColor(value) then name in r && r[name] == StyleValue(value, true)
        else Lookup(r, name) == Lookup(inline, name)
  {
    WriteColorsEntry(computed, inline, props, name);
  }

  /** The inline style of a styled `HTMLElement`: `background-image` and
      each of the eight colour properties are set from the computed style
      exactly when worth copying, always with `important` priority; every
      other entry is unchanged. */
  lemma StyledInlineEntry(computed: map<string, string>, inline: map<string, StyleValue>, name: string)
    ensures var r := StyledInline(computed, inline);
      var value := ComputedValue(computed, name);
      name == BACKGROUND_IMAGE ==>
        if CopiesImage(value) then name in r && r[name] == StyleValue(value, true)
        else Lookup(r, name) == Lookup(inline, name)
    ensures var r := StyledInline(computed, inline);
      var value := ComputedValue(computed, name);
      name != BACKGROUND_IMAGE ==>
        if IsKebabOf(name, COLOR_PROPERTIES) && CopiesColor(value) then name in r && r[name] == StyleValue(value, true)
        else Lookup(r, name) == Lookup(inline, name)
  {
    BackgroundImageNotColor();
    StyledInlineWithEntry(COLOR_PROPERTIES, computed, inline, name);
  }

  /** The inline style of an element after the walk: styled when both the
      original and the clone are `HTMLElement`s, untouched otherwise. */
  function NodeInline(original: Element, cloned: Element): map<string, StyleValue> {
    if original.isHtml && cloned.isHtml then StyledInline(original.computed, cloned.inline) else cloned.inline
  }

  /** `processElement(original, cloned)`: the clone with every element
      restyled from the element at the same place in the original. */
  function Processed(original: Element, cloned: Element): (r: Element)
    requires SameShape(original, cloned)
    decreases original
  {
    Element(cloned.isHtml, cloned.computed, NodeInline(original, cloned),
      seq(|cloned.children|, i requires 0 <= i < |cloned.children| =>
        Processed(original.children[i], cloned.children[i])))
  }

  /** The walk keeps the shape of the clone. */
  lemma {:induction false} ProcessedShape(original: Element, cloned: Element)
    requires SameShape(original, cloned)
    ensures SameShape(Processed(original, cloned), cloned)
    ensures SameShape(Processed(original, cloned), original)
    decreases original
  {
    var r := Processed(original, cloned);
    forall i | 0 <= i < |r.children|
      ensures SameShape(r.children[i], cloned.children[i]) && SameShape(r.children[i], original.children[i])
    {
      ProcessedShape(original.children[i], cloned.children[i]);
    }
  }

  /** The element reached from `e` by following child indexes. */
  function At(e: Element, path: seq<nat>): Option<Element>
    decreases |path|
  {
    if path == [] then Some(e)
    else if path[0] < |e.children| then At(e.children[path[0]], path[1..])
    else None
  }

  /** Every element of the clone is restyled from the element at the same
      path in the original, and from no other: child `i` is always paired
      with child `i`. */
  lemma {:induction false} ProcessedAt(original: Element, cloned: Element, path: seq<nat>)
    requires SameShape(original, cloned) && At(cloned, path).Some?
    ensures At(original, path).Some? && At(Processed(original, cloned), path).Some?
    ensures At(Processed(original, cloned), path).value.inline ==
              NodeInline(At(original, path).value, At(cloned, path).value)
    ensures At(Processed(original, cloned), path).value.isHtml == At(cloned, path).value.isHtml
    ensures At(Processed(original, cloned), path).value.computed == At(cloned, path).value.computed
    decreases |path|
  {
    if path != [] {
      ProcessedAt(original.children[path[0]], cloned.children[path[0]], path[1..]);
    }
  }

  /** A pair that is not two `HTMLElement`s gets no style writes. */
  lemma NonHtmlUntouched(original: Element, cloned: Element)
    requires SameShape(original, cloned) && !(original.isHtml && cloned.isHtml)
    ensures Processed(original, cloned).inline == cloned.inline
  {
  }

  /** The `forEach` over the property list `props`. */
  method CopyColors(props: seq<string>, computed: map<string, string>, inline: map<string, StyleValue>)
    returns (r: map<string, StyleValue>)
    ensures r == WriteColors(computed, inline, props)
  {
    r := inline;
    for i := 0 to |props|
      invariant r == WriteColors(computed, inline, props[..i])
    {
      var prop := props[i];
      var kebabProp := Kebab(prop);
      var value := ComputedValue(computed, kebabProp);
      if CopiesColor(value) {
        r := r[kebabProp := StyleValue(value, true)];
      }
      assert props[..i + 1][..i] == props[..i];
    }
    assert props[..|props|] == props;
  }

  /** The style writes of one `HTMLElement` pair: the colour properties,
      then the background image. */
  method StyleElement(computed: map<string, string>, inline: map<string, StyleValue>) returns (r: map<string, StyleValue>)
    ensures r == StyledInline(computed, inline)
  {
    r := CopyColors(COLOR_PROPERTIES, computed, inline);
    var bgImage := ComputedValue(computed, BACKGROUND_IMAGE);
    if CopiesImage(bgImage) {
      r := r[BACKGROUND_IMAGE := StyleValue(bgImage, true)];
    }
  }

  /** `processElement`, walking both trees in lock-step. */
  method ProcessElement(original: Element, cloned: Element) returns (r: Element)
    requires SameShape(original, cloned)
    ensures r == Processed(original, cloned)
    decreases original
  {
    var inline := cloned.inline;
    if original.isHtml && cloned.isHtml {
      inline := StyleElement(original.computed, cloned.inline);
    }
    var children: seq<Element> := [];
    for i := 0 to |original.children|
      invariant |children| == i
      invariant forall j :: 0 <= j < i ==> children[j] == Processed(original.children[j], cloned.children[j])
    {
      var child := ProcessElement(original.children[i], cloned.children[i]);
      children := children + [child];
    }
    r := Element(cloned.isHtml, cloned.computed, inline, children);
  }

  // ---------------------------------------------------------------------
  // downloadShareImage

  const DOWNLOAD_PREFIX: string := "Failed to download image: "
  const BLOB_ERROR: string := "Failed to generate image blob"
  const UNKNOWN_ERROR: string := "Unknown error occurred"
  const FILE_NAME: string := "stellar-wrapped-2026.png"

  /** The message of the error `downloadShareImage` throws for a caught
      value. */
  function DownloadError(t: Thrown): (m: string)
    ensures StartsWith(m, DOWNLOAD_PREFIX)
  {
    match t
    case ErrorThrown(msg) => DOWNLOAD_PREFIX + msg
    case NonErrorThrown => DOWNLOAD_PREFIX + UNKNOWN_ERROR
  }

  /** The wrapper keeps the message of an `Error` after the prefix, and
      reports any other thrown value as an unknown error. */
  lemma DownloadErrorMessage(t: Thrown)
    ensures t.ErrorThrown? ==> DownloadError(t)[|DOWNLOAD_PREFIX|..] == t.message
    ensures t.NonErrorThrown? ==> DownloadError(t)[|DOWNLOAD_PREFIX|..] == UNKNOWN_ERROR
  {
  }

  /** The clone parked off screen: its inline style gets `position`,
      `left` and `top`, without priority. */
  function OffScreen(e: Element): (r: Element)
    ensures SameShape(e, r)
  {
    SameShapeRefl(e);
    e.(inline := e.inline["position" := StyleValue("absolute", false)]
                         ["left" := StyleValue("-9999px", false)]
                         ["top" := StyleValue("0", false)])
  }

  /** Every tree has its own shape. */
  lemma {:induction false} SameShapeRefl(e: Element)
    ensures SameShape(e, e)
    decreases e
  {
    forall i | 0 <= i < |e.children| ensures SameShape(e.children[i], e.children[i]) {
      SameShapeRefl(e.children[i]);
    }
  }

  /** The page: the children of `document.body` and the downloads
      triggered so far. */
  class Document {
    var body: seq<Element>
    var downloads: seq<string>

    constructor (body: seq<Element>)
      ensures this.body == body && downloads == []
    {
      this.body := body;
      downloads := [];
    }
  }

  /** What `canvas.toBlob` does: hands a blob to its callback, hands it
      `null`, or throws (as it does on a canvas tainted by cross-origin
      images, which `allowTaint: true` lets the rasteriser produce). */
  datatype BlobOutcome = Blob | NullBlob | BlobThrew(error: Thrown)

  /** `downloadShareImage(element)`. The rasteriser's outcome and what
      `toBlob` does are given. When the rasteriser throws, the clone is not
      removed from the page. */
  method DownloadShareImage(doc: Document, element: Element, rasterised: Outcome<Thrown>, blob: BlobOutcome)
    returns (r: Outcome<string>)
    modifies doc
    ensures rasterised.Fail? ==>
              r == Fail(DownloadError(rasterised.error)) &&
              doc.body == old(doc.body) + [Processed(element, OffScreen(element))] &&
              doc.downloads == old(doc.downloads)
    ensures rasterised.Pass? && blob.NullBlob? ==>
              r == Fail(DownloadError(ErrorThrown(BLOB_ERROR))) &&
              doc.body == old(doc.body) && doc.downloads == old(doc.downloads)
    ensures rasterised.Pass? && blob.BlobThrew? ==>
              r == Fail(DownloadError(blob.error)) &&
              doc.body == old(doc.body) && doc.downloads == old(doc.downloads)
    ensures rasterised.Pass? && blob.Blob? ==>
              r == Pass && doc.body == old(doc.body) && doc.downloads == old(doc.downloads) + [FILE_NAME]
  {
    var clone := OffScreen(element);
    var before := doc.body;
    doc.body := doc.body + [clone];
    var processed := ProcessElement(element, clone);
    doc.body := doc.body[|doc.body| - 1 := processed];
    assert doc.body == before + [processed];
    if rasterised.Fail? {
      return Fail(DownloadError(rasterised.error));
    }
    doc.body := before;
    match blob {
      case NullBlob =>
        return Fail(DownloadError(ErrorThrown(BLOB_ERROR)));
      case BlobThrew(e) =>
        return Fail(DownloadError(e));
      case Blob =>
    }
    // The link is appended, clicked and removed again.
    doc.body := doc.body + [Element(true, map[], map[], [])];
    doc.downloads := doc.downloads + [FILE_NAME];
    doc.body := doc.body[..|doc.body| - 1];
    r := Pass;
  }
}
