/** The colour theme: the table of the five themes, the provider that
    keeps the chosen colour and persists it under `stellar-theme-color`, the
    effect that publishes the theme as CSS custom properties on the
    document root, and the `useTheme` guard. */
module ThemeContext {
  import opened Wrappers
  import opened Text
  import opened ShareImageCard

  /** One row of `themeColors`. */
  datatype Theme = Theme(primary: string, primaryRgb: string, background: string, name: string, gradient: string)

  /** `ThemeColor`, the keys of `themeColors`. */
  datatype ThemeColor = Green | Pink | Yellow | Red | Purple

  function ColorKey(c: ThemeColor): (k: string)
    ensures k != []
  {
    match c
    case Green => "green"
    case Pink => "pink"
    case Yellow => "yellow"
    case Red => "red"
    case Purple => "purple"
  }

  const GREEN_THEME: Theme :=
    Theme("#1DB954", "29, 185, 84", "#191414", "Spotify Green", "linear-gradient(135deg, #1DB954, #1ed760)")
  const PINK_THEME: Theme :=
    Theme("#FF6B9D", "255, 107, 157", "#1a0f14", "Neon Pink", "linear-gradient(135deg, #FF6B9D, #C44569)")
  const YELLOW_THEME: Theme :=
    Theme("#FFD700", "255, 215, 0", "#1a1714", "Electric Yellow", "linear-gradient(135deg, #FFD700, #FFA500)")
  const RED_THEME: Theme :=
    Theme("#FF4444", "255, 68, 68", "#1a0a0a", "Hot Red", "linear-gradient(135deg, #FF4444, #CC0000)")
  const PURPLE_THEME: Theme :=
    Theme("#9D4EDD", "157, 78, 221", "#0d0208", "Deep Purple", "linear-gradient(135deg, #9D4EDD, #7209B7)")

  /** `themeColors`. The colour state is a string (a stored value is cast,
      not checked), so the table is a map from strings. */
  const THEME_COLORS: map<string, Theme> := map[
    "green" := GREEN_THEME,
    "pink" := PINK_THEME,
    "yellow" := YELLOW_THEME,
    "red" := RED_THEME,
    "purple" := PURPLE_THEME
  ]

  /** The table has a row for every `ThemeColor` and for nothing else. */
  lemma TableKeys(s: string)
    ensures s in THEME_COLORS <==> exists c: ThemeColor :: ColorKey(c) == s
  {
    if s in THEME_COLORS {
      assert s == ColorKey(Green) || s == ColorKey(Pink) || s == ColorKey(Yellow) ||
             s == ColorKey(Red) || s == ColorKey(Purple);
    }
  }

  // ---------------------------------------------------------------------
  // The decimal triple of each theme

  /** `primaryRgb` is the reading of the `#RRGGBB` colour `primary`: its
      three bytes in decimal, joined by `", "`. */
  predicate RgbMatchesPrimary(t: Theme) {
    |t.primary| == 7 && t.primary[0] == '#' && AllIn(t.primary[1..], HexDigits) &&
    HexDecimalTriple(t.primary[1..]) == t.primaryRgb
  }

  /** A row whose primary is `#` and the digits `d`, read as the bytes
      `r`, `g` and `b`, and whose triple is the decimal texts `rs`, `gs` and
      `bs` of those bytes. */
  lemma RowFromDigits(t: Theme, d: string, r: nat, g: nat, b: nat, rs: string, gs: string, bs: string)
    requires |d| == 6 && t.primary == ['#'] + d
    requires IsHexDigit(d[0]) && IsHexDigit(d[1]) && IsHexDigit(d[2])
    requires IsHexDigit(d[3]) && IsHexDigit(d[4]) && IsHexDigit(d[5])
    requires 16 * HexDigitValue(d[0]) + HexDigitValue(d[1]) == r
    requires 16 * HexDigitValue(d[2]) + HexDigitValue(d[3]) == g
    requires 16 * HexDigitValue(d[4]) + HexDigitValue(d[5]) == b
    requires NatToString(r) == rs && NatToString(g) == gs && NatToString(b) == bs
    requires t.primaryRgb == rs + ", " + gs + ", " + bs
    ensures RgbMatchesPrimary(t)
  {
    assert t.primary[1..] == d;
    assert forall k :: 0 <= k < 6 ==> InClass(d[k], HexDigits);
  }

  lemma GreenRgb()
    ensures RgbMatchesPrimary(GREEN_THEME)
  {
    RowFromDigits(GREEN_THEME, "1DB954", 29, 185, 84, "29", "185", "84");
  }

  lemma PinkRgb()
    ensures RgbMatchesPrimary(PINK_THEME)
  {
    RowFromDigits(PINK_THEME, "FF6B9D", 255, 107, 157, "255", "107", "157");
  }

  lemma YellowRgb()
    ensures RgbMatchesPrimary(YELLOW_THEME)
  {
    RowFromDigits(YELLOW_THEME, "FFD700", 255, 215, 0, "255", "215", "0");
  }

  lemma RedRgb()
    ensures RgbMatchesPrimary(RED_THEME)
  {
    RowFromDigits(RED_THEME, "FF4444", 255, 68, 68, "255", "68", "68");
  }

  lemma PurpleRgb()
    ensures RgbMatchesPrimary(PURPLE_THEME)
  {
    RowFromDigits(PURPLE_THEME, "9D4EDD", 157, 78, 221, "157", "78", "221");
  }

  /** Every row's `primaryRgb` is the decimal reading of its `primary`. */
  lemma TableRgbConsistent()
    ensures forall k | k in THEME_COLORS :: RgbMatchesPrimary(THEME_COLORS[k])
  {
    GreenRgb();
    PinkRgb();
    YellowRgb();
    RedRgb();
    PurpleRgb();
  }

  /** A consistent row's `primaryRgb` is what the share card's colour
      parser makes of its `primary`. */
  lemma RgbMatchesPrimaryDecodes(t: Theme)
    requires RgbMatchesPrimary(t)
    ensures GetRgbValues(t.primary) == t.primaryRgb
  {
    var h := t.primary[1..];
    assert t.primary == "#" + h;
    HexColor(h);
  }

  /** For every theme the stored triple and the parsed primary agree. */
  lemma TablePrimaryDecodes(k: string)
    requires k in THEME_COLORS
    ensures GetRgbValues(THEME_COLORS[k].primary) == THEME_COLORS[k].primaryRgb
  {
    TableRgbConsistent();
    RgbMatchesPrimaryDecodes(THEME_COLORS[k]);
  }

  // ---------------------------------------------------------------------
  // The provider

  /** The key the colour is persisted under. */
  const STORAGE_KEY: string := "stellar-theme-color"

  /** The default colour. */
  const DEFAULT_COLOR: string := "green"

  /** The initial colour: the stored value when running in a browser and
      that value is present and non-empty, `"green"` otherwise. The stored
      value is not checked against the table. */
  function InitialColor(inBrowser: bool, saved: Option<string>): (c: string)
    ensures c != []
    ensures inBrowser && saved.Some? && saved.value != [] ==> c == saved.value
    ensures !(inBrowser && saved.Some? && saved.value != []) ==> c == DEFAULT_COLOR
  {
    if inBrowser then
      if saved.Some? && saved.value != [] then saved.value else DEFAULT_COLOR
    else DEFAULT_COLOR
  }

  /** `localStorage`: a map from keys to values. */
  class KeyValueStore {
    var items: map<string, string>

    constructor (items: map<string, string>)
      ensures this.items == items
    {
      this.items := items;
    }

    /** `getItem`: `null` for a missing key. */
    method GetItem(key: string) returns (r: Option<string>)
      ensures r == Lookup(items, key)
    {
      r := if key in items then Some(items[key]) else None;
    }

    /** `setItem`. */
    method SetItem(key: string, value: string)
      modifies this
      ensures items == old(items)[key := value]
    {
      items := items[key := value];
    }
  }

  /** The inline style of the document root: custom property names to
      values. */
  class StyleDeclaration {
    var properties: map<string, string>

    constructor ()
      ensures properties == map[]
    {
      properties := map[];
    }

    /** `style.setProperty(name, value)`. */
    method SetProperty(name: string, value: string)
      modifies this
      ensures properties == old(properties)[name := value]
    {
      properties := properties[name := value];
    }
  }

  /** The four custom properties the effect writes. */
  const PRIMARY_VAR: string := "--color-theme-primary"
  const PRIMARY_RGB_VAR: string := "--color-theme-primary-rgb"
  const BACKGROUND_VAR: string := "--color-theme-background"
  const GRADIENT_VAR: string := "--color-theme-gradient"

  /** The root style after the effect has published `t`. */
  function WithThemeVariables(props: map<string, string>, t: Theme): map<string, string> {
    props[PRIMARY_VAR := t.primary][PRIMARY_RGB_VAR := t.primaryRgb]
         [BACKGROUND_VAR := t.background][GRADIENT_VAR := t.gradient]
  }

  /** The effect sets the four variables to exactly the fields of the
      theme and leaves every other property as it was. */
  lemma ThemeVariablesExact(props: map<string, string>, t: Theme)
    ensures var p := WithThemeVariables(props, t);
      PRIMARY_VAR in p && p[PRIMARY_VAR] == t.primary &&
      PRIMARY_RGB_VAR in p && p[PRIMARY_RGB_VAR] == t.primaryRgb &&
      BACKGROUND_VAR in p && p[BACKGROUND_VAR] == t.background &&
      GRADIENT_VAR in p && p[GRADIENT_VAR] == t.gradient
    ensures var p := WithThemeVariables(props, t);
      forall name | name !in {PRIMARY_VAR, PRIMARY_RGB_VAR, BACKGROUND_VAR, GRADIENT_VAR} ::
        (name in p <==> name in props) && (name in props ==> p[name] == props[name])
  {
  }

  /** The names an object literal inherits from `Object.prototype`. */
  const OBJECT_PROTOTYPE_KEYS: set<string> := {
    "constructor", "hasOwnProperty", "isPrototypeOf", "propertyIsEnumerable",
    "toLocaleString", "toString", "valueOf", "__proto__",
    "__defineGetter__", "__defineSetter__", "__lookupGetter__", "__lookupSetter__"}

  /** What `themeColors[color]` yields: a row of the table, an inherited
      member of `Object.prototype` (which has none of the theme's fields),
      or `undefined`. */
  datatype ThemeLookup = OwnTheme(theme: Theme) | Inherited | Missing

  function LookupTheme(color: string): (r: ThemeLookup)
    ensures r.OwnTheme? <==> color in THEME_COLORS
    ensures r.OwnTheme? ==> r.theme == THEME_COLORS[color]
    ensures r.Inherited? <==> color !in THEME_COLORS && color in OBJECT_PROTOTYPE_KEYS
  {
    if color in THEME_COLORS then OwnTheme(THEME_COLORS[color])
    else if color in OBJECT_PROTOTYPE_KEYS then Inherited
    else Missing
  }

  /** The fields read off an inherited member: each is `undefined`, which
      `setProperty` writes as the text "undefined". */
  const UNDEFINED_THEME: Theme := Theme("undefined", "undefined", "undefined", "undefined", "undefined")

  /** A stored prototype name is taken as the colour, and the effect then
      publishes "undefined" in all four variables. */
  lemma PrototypeNameWritesUndefined(props: map<string, string>, key: string)
    requires key in OBJECT_PROTOTYPE_KEYS
    ensures InitialColor(true, Some(key)) == key
    ensures LookupTheme(key) == Inherited
    ensures var p := WithThemeVariables(props, UNDEFINED_THEME);
      p[PRIMARY_VAR] == "undefined" && p[PRIMARY_RGB_VAR] == "undefined" &&
      p[BACKGROUND_VAR] == "undefined" && p[GRADIENT_VAR] == "undefined"
  {
  }

  /** `ThemeProvider`: the colour state, the store it persists to and the
      style of the document root the effect writes. */
  class ThemeProvider {
    var color: string
    const storage: KeyValueStore
    const root: StyleDeclaration

    /** The `useState` initialiser; outside a browser the store is not
        read. */
    constructor (inBrowser: bool, storage: KeyValueStore, root: StyleDeclaration)
      ensures this.storage == storage && this.root == root
      ensures color == InitialColor(inBrowser, Lookup(storage.items, STORAGE_KEY))
    {
      this.storage := storage;
      this.root := root;
      var saved: Option<string> := None;
      if inBrowser {
        saved := storage.GetItem(STORAGE_KEY);
      }
      color := InitialColor(inBrowser, saved);
    }

    /** `setColor`: the state becomes the colour and the colour is
        persisted. */
    method SetColor(newColor: ThemeColor)
      modifies this, storage
      ensures color == ColorKey(newColor)
      ensures storage.items == old(storage.items)[STORAGE_KEY := ColorKey(newColor)]
    {
      color := ColorKey(newColor);
      storage.SetItem(STORAGE_KEY, ColorKey(newColor));
    }

    /** The effect run for the current colour. A table row publishes its
        four fields; an inherited prototype member publishes "undefined"
        four times; for any other colour reading `theme.primary` throws a
        `TypeError` before any property is written (`threw`). */
    method ApplyTheme() returns (threw: bool)
      modifies root
      ensures threw <==> LookupTheme(color).Missing?
      ensures LookupTheme(color).OwnTheme? ==>
                root.properties == WithThemeVariables(old(root.properties), THEME_COLORS[color])
      ensures LookupTheme(color).Inherited? ==>
                root.properties == WithThemeVariables(old(root.properties), UNDEFINED_THEME)
      ensures threw ==> root.properties == old(root.properties)
    {
      var theme: Theme;
      match LookupTheme(color) {
        case Missing =>
          return true;
        case Inherited =>
          theme := UNDEFINED_THEME;
        case OwnTheme(t) =>
          theme := t;
      }
      root.SetProperty(PRIMARY_VAR, theme.primary);
      root.SetProperty(PRIMARY_RGB_VAR, theme.primaryRgb);
      root.SetProperty(BACKGROUND_VAR, theme.background);
      root.SetProperty(GRADIENT_VAR, theme.gradient);
      threw := false;
    }
  }

  /** A colour persisted by `setColor` is the colour a provider mounted
      later in the browser starts with. */
  lemma PersistRoundTrip(items: map<string, string>, c: ThemeColor)
    ensures InitialColor(true, Lookup(items[STORAGE_KEY := ColorKey(c)], STORAGE_KEY)) == ColorKey(c)
  {
  }

  /** Any non-empty stored string becomes the colour, even one the table
      lacks. */
  lemma StoredValueUnchecked(v: string)
    requires v != []
    ensures InitialColor(true, Some(v)) == v
  {
  }

  /** An empty or missing stored value, or a start outside a browser,
      gives `"green"`, which the table has. */
  lemma InitialDefault(inBrowser: bool, saved: Option<string>)
    requires !inBrowser || saved.None? || saved == Some([])
    ensures InitialColor(inBrowser, saved) == "green"
    ensures InitialColor(inBrowser, saved) in THEME_COLORS
  {
  }

  // ---------------------------------------------------------------------
  // useTheme

  const USE_THEME_ERROR: string := "useTheme must be used within ThemeProvider"

  /** `useTheme`: the colour of the enclosing provider, or the error thrown
      when there is none. */
  function UseTheme(provided: Option<string>): (r: Result<string, string>)
    ensures r.Success? <==> provided.Some?
    ensures r.Success? ==> r.value == provided.value
    ensures r.Failure? ==> r.error == USE_THEME_ERROR
  {
    match provided
    case Some(c) => Success(c)
    case None => Failure(USE_THEME_ERROR)
  }
}
