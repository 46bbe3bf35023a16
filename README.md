# Stellar Wrap — a Dafny model of its core logic

Stellar Wrap is a "year in review" web app for Stellar (XLM) wallets. A
user connects the Freighter browser wallet. The app loads (mock) statistics
for the address and plays them back as a story of screens. It ends with an
AI-written persona and a shareable PNG card. This project models the logic
underneath that flow, one Dafny module per source file:

- **Wallet connection** (`WalletConnect`):
  - the Stellar address classifier;
  - the three Freighter calls, over a provider object whose answers are given and whose calls are recorded.
- **Network configuration** (`Config`, `NetworkUtils`, `NetworkToggle`): the two networks with their endpoints and passphrases, query-parameter parsing, display names, and the mainnet/testnet switch.
- **State stores** (`WrapStore`, `ConnectionStore`, `DataStore`): classes whose setters overwrite fields in place, each proved to produce its exact new state.
- **Colour theme** (`ThemeContext`):
  - the five-theme table;
  - the provider's initial colour, its persistence in `localStorage` and the CSS custom properties it publishes;
  - the `useTheme` guard.
- **Share-image export** (`ImageExport`):
  - the camelCase-to-kebab-case conversion;
  - the lock-step walk that copies computed colours onto the clone as `!important` inline styles;
  - the error wrapping of the download.
- **Card colours** (`ShareImageCard`): `getRgbValues`, with the `rgb(...)` regular expression, `parseInt(…, 16)` and `substring` written out.
- **Persona prompt** (`GeneratePersona`): the `<user_metrics>` text, with tag stripping, `||` and `??` defaults, and the vibes block.
- **Step indicator** (`ProgressIndicator`): step/route arithmetic, click and key handling, and dot widths.

Two modules are shared. `Wrappers` holds Option, Result, Outcome and the
two kinds of thrown value. `Text` holds JavaScript's `trim`, `\s`,
`includes`, ASCII case conversion, `join`, `split` and the decimal
rendering of numbers.

Foreign calls become given inputs:
- the Freighter API answers, as `Call` values that either return or throw;
- `getComputedStyle`, as a map per element;
- the rasteriser's outcome and what `toBlob` does (a blob, `null`, or a throw), as parameters;
- `localStorage` and the root style, as small classes holding a map;
- `router.push`, as a class that records pushed routes.

Elements of the share card are values, so the walk returns the restyled
clone instead of restyling it in place.

The code removes the off-screen clone only after rasterising succeeds
(app/utils/imageExport.ts:73): `ImageExport.DownloadShareImage` states
that a rasteriser failure leaves the processed clone in `document.body`.

## Model

| member | source | states |
|---|---|---|
| Text.Trim | app/utils/walletConnect.ts:86 | `trim()` gives the slice of the input that has no white space at either edge; everything outside the slice is white space |
| Text.TrimPadded | app/utils/walletConnect.ts:86 | trimming white-space padding off a string with no white space at its edges gives that string back |
| Text.TrimIdempotent | app/utils/walletConnect.ts:86 | trimming twice is trimming once |
| Text.TrimSplit | app/utils/walletConnect.ts:86 | every string is its trim between two runs of white space |
| Text.NotContainsWithoutFirst | app/utils/walletConnect.ts:44 | a string that lacks the first character of `sub` does not `includes(sub)` |
| Text.NatToStringRoundTrip | app/components/ShareImageCard.tsx:27 | the decimal text `${n}` reads back as `n` |
| Text.SplitJoin | app/actions/generate-persona.ts:37 | splitting a newline-join at newlines gives back the joined lines, when no line holds a newline |
| WalletConnect.IsValidStellarAddress | app/utils/walletConnect.ts:81-96 | true iff the input is non-empty and its trim has 56 characters, starts with `G`, and uses only A–Z and 2–7 |
| WalletConnect.ValidIgnoresTrim | app/utils/walletConnect.ts:86 | surrounding white space never changes the verdict: `isValid(trim(s)) == isValid(s)` |
| WalletConnect.PaddedValid | app/utils/walletConnect.ts:86-95 | a well-formed account key padded with white space on either side is accepted |
| WalletConnect.ShortRejected | app/utils/walletConnect.ts:89 | any input shorter than 56 characters is rejected |
| WalletConnect.LowerCaseRejected | app/utils/walletConnect.ts:94 | lower-casing any letter of a valid 56-character address makes it invalid (the check is case-sensitive) |
| WalletConnect.DemoRejected | app/utils/walletConnect.ts:89-95 | the 46-character demo address is rejected |
| WalletConnect.Installed | app/utils/walletConnect.ts:6-13 | installed iff the probe returns with no truthy error and `isConnected`; a thrown probe means not installed |
| WalletConnect.AccessAttempt | app/utils/walletConnect.ts:29-40 | the try block succeeds only with a non-empty address |
| WalletConnect.ConnectOutcome | app/utils/walletConnect.ts:19-52 | a successful connection always yields a non-empty address |
| WalletConnect.RejectedNotDeclined | app/utils/walletConnect.ts:33-47 | the rejection message lacks "User declined", so the catch block rethrows it unchanged |
| WalletConnect.ConnectNotInstalled | app/utils/walletConnect.ts:21-27 | without the extension the result is the "Freighter wallet not found…" error, whatever the access request would answer |
| WalletConnect.ConnectRejected | app/utils/walletConnect.ts:33-47 | an access answer with an error or without an address fails with "Connection rejected. Please approve the connection in Freighter." |
| WalletConnect.ConnectDeclined | app/utils/walletConnect.ts:43-46 | a thrown Error whose message contains "User declined" becomes "Connection rejected by user." |
| WalletConnect.ConnectOtherError | app/utils/walletConnect.ts:43-47 | any other thrown Error propagates with its own message |
| WalletConnect.ConnectNonError | app/utils/walletConnect.ts:50 | a thrown non-Error becomes the generic "Failed to connect…" message |
| WalletConnect.ConnectSucceeds | app/utils/walletConnect.ts:29-40 | success iff installed and the access answer has no error and a non-empty address; the address is returned verbatim |
| WalletConnect.ConnectMessages | app/utils/walletConnect.ts:19-52 | every failure message is one of the four fixed messages, or the message of an Error the access request threw that lacks "User declined" |
| WalletConnect.CurrentKeyCases | app/utils/walletConnect.ts:58-70 | a key is returned iff installed and `getAddress` answers an address and no error; it is that address; otherwise null |
| WalletConnect.IsFreighterInstalled | app/utils/walletConnect.ts:6-13 | the result is `Installed` of the probe's answer, and exactly one `isConnected` call is made |
| WalletConnect.ConnectFreighter | app/utils/walletConnect.ts:19-52 | the result is `ConnectOutcome`; `requestAccess` is called only when the extension is installed |
| WalletConnect.GetCurrentPublicKey | app/utils/walletConnect.ts:58-70 | the result is `CurrentKey`; `getAddress` is called only when the extension is installed |
| Config.ValidNetworks | src/config.ts:37-39 | `isValidNetwork` holds exactly for "mainnet" and "testnet" (so not for "") |
| Config.DefaultNetworkIsMainnet | src/config.ts:32 | the default network is "mainnet" and is valid |
| Config.TablesTotalAndDistinct | src/config.ts:16-27 | both records are keyed by exactly the two networks; their two endpoints differ, and so do their two passphrases |
| NetworkUtils.GetRpcEndpoint | src/utils/networkUtils.ts:6-8 | the network's entry of `RPC_ENDPOINTS`, a Horizon https URL |
| NetworkUtils.ParseNetworkParam | src/utils/networkUtils.ts:22-27 | a valid parameter is returned unchanged; null, "" or any invalid string gives mainnet; the result is always a valid network |
| NetworkUtils.ParseIdempotent | src/utils/networkUtils.ts:22-27 | parsing a parsed value changes nothing |
| NetworkUtils.Capitalize | src/utils/networkUtils.ts:33 | same length, first character upper-cased, tail kept |
| NetworkUtils.GetNetworkDisplayName | src/utils/networkUtils.ts:32-34 | same length and tail as the network, and an upper-case first letter |
| NetworkUtils.DisplayNames | src/utils/networkUtils.ts:32-34 | the display names are "Mainnet" and "Testnet" |
| NetworkToggle.Toggled | app/components/NetworkToggle.tsx:13 | mainnet becomes testnet and testnet mainnet; the result always differs from the input |
| NetworkToggle.ToggleInvolutive | app/components/NetworkToggle.tsx:13 | toggling twice restores the network |
| NetworkToggle.ToggleFlipsMainnet | app/components/NetworkToggle.tsx:13-17 | `isMainnet` flips with each toggle and holds exactly for "mainnet" |
| NetworkToggle.ToggleNetwork | app/components/NetworkToggle.tsx:12-15 | the store's network becomes the toggled one; every other field is unchanged |
| WrapStore.WrapStore.constructor | app/store/wrapStore.ts:52-58 | the store starts with no address, "yearly", mainnet, "idle", no error and no result |
| WrapStore.WrapStore.SetAddress | app/store/wrapStore.ts:59 | only `address` changes, to the given value |
| WrapStore.WrapStore.SetPeriod | app/store/wrapStore.ts:60 | only `period` changes |
| WrapStore.WrapStore.SetNetwork | app/store/wrapStore.ts:61 | only `network` changes |
| WrapStore.WrapStore.SetStatus | app/store/wrapStore.ts:62 | only `status` changes; any status may follow any other |
| WrapStore.WrapStore.SetError | app/store/wrapStore.ts:63 | only `error` changes |
| WrapStore.WrapStore.SetResult | app/store/wrapStore.ts:64 | only `result` changes |
| WrapStore.WrapStore.Reset | app/store/wrapStore.ts:65-73 | every field is back to its initial value |
| ConnectionStore.ConnectionStore.constructor | app/store/useWrapperStore.ts:14-18 | the store starts disconnected, not connecting, with no address and no error; connected iff an address is held |
| ConnectionStore.ConnectionStore.SetAddress | app/store/useWrapperStore.ts:19-20 | address set, connected, not connecting, error cleared; keeps "connected iff address" |
| ConnectionStore.ConnectionStore.SetConnecting | app/store/useWrapperStore.ts:21 | only `isConnecting` and `error` (cleared) change; keeps the invariant |
| ConnectionStore.ConnectionStore.SetError | app/store/useWrapperStore.ts:22 | only `error` and `isConnecting` (false) change; keeps the invariant |
| ConnectionStore.ConnectionStore.Disconnect | app/store/useWrapperStore.ts:23 | address dropped, disconnected, error cleared; an attempt in progress stays in progress |
| DataStore.Toggled | src/store/useWrapperStore.ts:29-38 | the mode flips; turning mock mode on loads the mock profile and clears the error; turning it off drops the data and keeps the error |
| DataStore.ToggleTwice | src/store/useWrapperStore.ts:29-38 | two toggles restore the mode but not necessarily the data |
| DataStore.Fetched | src/store/useWrapperStore.ts:40-59 | loading is over; mock mode yields the mock profile with no error; otherwise data is kept and the "API integration pending…" error is set |
| DataStore.DataStore.constructor | src/store/useWrapperStore.ts:17-21 | the store starts empty, not loading, not in mock mode, with no error |
| DataStore.DataStore.SetLoading | src/store/useWrapperStore.ts:23 | only `isLoading` changes |
| DataStore.DataStore.SetData | src/store/useWrapperStore.ts:25 | only `data` changes |
| DataStore.DataStore.SetError | src/store/useWrapperStore.ts:27 | only `error` changes |
| DataStore.DataStore.ToggleMockMode | src/store/useWrapperStore.ts:29-38 | the new state is `Toggled` of the old one |
| DataStore.DataStore.FetchData | src/store/useWrapperStore.ts:40-59 | the final state is `Fetched` of the old one |
| ThemeContext.ColorKey | app/context/ThemeContext.tsx:5 | each theme colour has a non-empty key |
| ThemeContext.TableKeys | app/context/ThemeContext.tsx:14-50 | the table has a row for each of the five colours and for nothing else |
| ThemeContext.GreenRgb | app/context/ThemeContext.tsx:15-21 | green's `primaryRgb` "29, 185, 84" is the decimal reading of `#1DB954` |
| ThemeContext.PinkRgb | app/context/ThemeContext.tsx:22-28 | pink's "255, 107, 157" is the reading of `#FF6B9D` |
| ThemeContext.YellowRgb | app/context/ThemeContext.tsx:29-35 | yellow's "255, 215, 0" is the reading of `#FFD700` |
| ThemeContext.RedRgb | app/context/ThemeContext.tsx:36-42 | red's "255, 68, 68" is the reading of `#FF4444` |
| ThemeContext.PurpleRgb | app/context/ThemeContext.tsx:43-49 | purple's "157, 78, 221" is the reading of `#9D4EDD` |
| ThemeContext.TableRgbConsistent | app/context/ThemeContext.tsx:14-50 | every row's `primaryRgb` is the decimal reading of its `primary` |
| ThemeContext.RgbMatchesPrimaryDecodes | app/components/ShareImageCard.tsx:14-32 | for a consistent row, the card's colour parser turns `primary` into exactly `primaryRgb` |
| ThemeContext.TablePrimaryDecodes | app/context/ThemeContext.tsx:14-50 | for every theme, `getRgbValues(primary) == primaryRgb` |
| ThemeContext.InitialColor | app/context/ThemeContext.tsx:53-60 | in a browser a present, non-empty stored value is the colour; otherwise "green" |
| ThemeContext.ThemeProvider.constructor | app/context/ThemeContext.tsx:53-60 | the colour is `InitialColor` of what storage holds under "stellar-theme-color" |
| ThemeContext.ThemeProvider.SetColor | app/context/ThemeContext.tsx:62-65 | the state becomes the colour and storage maps "stellar-theme-color" to it, other keys unchanged |
| ThemeContext.LookupTheme | app/context/ThemeContext.tsx:68 | `themeColors[color]` is the table row iff the colour is a key of the table; it is an inherited prototype member iff the colour is instead an `Object.prototype` name; otherwise `undefined` |
| ThemeContext.ThemeProvider.ApplyTheme | app/context/ThemeContext.tsx:67-73 | a colour in the table writes its four CSS variables; an inherited prototype name writes "undefined" to all four; any other colour throws a `TypeError` before writing anything |
| ThemeContext.PrototypeNameWritesUndefined | app/context/ThemeContext.tsx:56-72 | a stored `Object.prototype` name such as "toString" becomes the colour unchecked, and the effect then publishes "undefined" in all four variables |
| ThemeContext.ThemeVariablesExact | app/context/ThemeContext.tsx:67-73 | the effect sets the four variables to the theme's fields and leaves every other property as it was |
| ThemeContext.PersistRoundTrip | app/context/ThemeContext.tsx:53-65 | a colour saved by `setColor` is the colour a later provider in the browser starts with |
| ThemeContext.StoredValueUnchecked | app/context/ThemeContext.tsx:56-57 | any non-empty stored string becomes the colour, even one the table lacks |
| ThemeContext.InitialDefault | app/context/ThemeContext.tsx:53-60 | outside a browser, or with nothing or "" stored, the colour is "green", which the table has |
| ThemeContext.UseTheme | app/context/ThemeContext.tsx:82-88 | the provider's colour when there is one, the "useTheme must be used within ThemeProvider" error otherwise |
| ImageExport.Kebab | app/utils/imageExport.ts:37 | the kebab name has no capital letter and is at least as long as the camelCase name |
| ImageExport.KebabAppend | app/utils/imageExport.ts:37 | the conversion works character by character: `kebab(a + b) == kebab(a) + kebab(b)` |
| ImageExport.KebabNoCapitals | app/utils/imageExport.ts:37 | a name without capitals is unchanged |
| ImageExport.KebabCapital | app/utils/imageExport.ts:37 | a capital becomes `-` and its lower-case letter |
| ImageExport.KebabBorderTopColor | app/utils/imageExport.ts:28-37 | `borderTopColor` becomes `border-top-color` |
| ImageExport.KebabRoundTrip | app/utils/imageExport.ts:37 | camel-casing the kebab name gives the property name back, for names without `-` |
| ImageExport.WriteColorsEntry | app/utils/imageExport.ts:36-43 | after the loop, an entry holds the computed value with `important` priority iff it is the kebab name of a listed property whose value is non-empty, not `rgba(0, 0, 0, 0)` and not `transparent`; every other entry is unchanged |
| ImageExport.BackgroundImageNotColor | app/utils/imageExport.ts:24-33 | `background-image` is not the kebab name of any of the eight colour properties |
| ImageExport.StyledInlineWithEntry | app/utils/imageExport.ts:36-49 | for any colour list without `background-image`, the colour writes and the background-image write each behave as their rule says, and no other entry changes |
| ImageExport.StyledInlineEntry | app/utils/imageExport.ts:24-49 | a styled element's inline style gets the eight colours and a non-`none` background image from the computed style, with `important` priority; nothing else changes |
| ImageExport.ProcessedShape | app/utils/imageExport.ts:19-56 | the walk keeps the shape of both trees |
| ImageExport.ProcessedAt | app/utils/imageExport.ts:52-55 | each element of the clone is restyled from the original's element at the same child path, and from no other |
| ImageExport.NonHtmlUntouched | app/utils/imageExport.ts:20 | a pair that is not two HTML elements gets no style writes |
| ImageExport.CopyColors | app/utils/imageExport.ts:36-43 | the `forEach` loop computes the ordered fold of the colour writes |
| ImageExport.StyleElement | app/utils/imageExport.ts:21-49 | the style writes of one HTML pair: the colour loop, then the background image |
| ImageExport.ProcessElement | app/utils/imageExport.ts:19-56 | the recursive walk with its child loop computes the restyled clone `Processed(original, cloned)` |
| ImageExport.DownloadError | app/utils/imageExport.ts:101-106 | every wrapped message starts with "Failed to download image: " |
| ImageExport.DownloadErrorMessage | app/utils/imageExport.ts:101-106 | an Error's message follows the prefix unchanged; any other thrown value gives "Unknown error occurred" |
| ImageExport.OffScreen | app/utils/imageExport.ts:12-15 | parking the clone off screen keeps its shape |
| ImageExport.DownloadShareImage | app/utils/imageExport.ts:9-106 | a rasteriser failure gives the wrapped error and leaves the processed clone in the page; a null blob gives the wrapped "Failed to generate image blob", and a throwing `toBlob` gives its wrapped error, both after removing the clone; success removes the clone and downloads "stellar-wrapped-2026.png" |
| ShareImageCard.MatchRgbSound | app/components/ShareImageCard.tsx:16 | what the matcher reports is a match of `rgb\((\d+),\s*(\d+),\s*(\d+)\)` with those captures |
| ShareImageCard.MatchRgbComplete | app/components/ShareImageCard.tsx:16 | every match of the pattern is found, with its captures |
| ShareImageCard.MatchRgbLength | app/components/ShareImageCard.tsx:16 | no match fits in fewer than ten characters |
| ShareImageCard.FindRgbSound | app/components/ShareImageCard.tsx:16 | `match` reports a match at the index it reports, and none starts earlier |
| ShareImageCard.FindRgbFirst | app/components/ShareImageCard.tsx:16 | the leftmost match is the one reported |
| ShareImageCard.FindRgbNone | app/components/ShareImageCard.tsx:16 | `match` gives null iff no match starts anywhere |
| ShareImageCard.RgbBranchVerbatim | app/components/ShareImageCard.tsx:16-19 | the rgb branch is tried first and copies the captured digit strings verbatim, with no range check |
| ShareImageCard.NoRgbInShort | app/components/ShareImageCard.tsx:16 | a string under ten characters has no rgb match |
| ShareImageCard.ParseTwoHex | app/components/ShareImageCard.tsx:24-26 | two hexadecimal digits parse to `16 * hi + lo` |
| ShareImageCard.ParseOneHex | app/components/ShareImageCard.tsx:24-26 | one hexadecimal digit parses to its value |
| ShareImageCard.ParseEmpty | app/components/ShareImageCard.tsx:24-26 | `parseInt("", 16)` is NaN |
| ShareImageCard.ByteOf | app/components/ShareImageCard.tsx:24-26 | two hexadecimal digits give a byte, at most 255 |
| ShareImageCard.HexPair | app/components/ShareImageCard.tsx:24-27 | each pair of hexadecimal digits contributes its byte value in decimal |
| ShareImageCard.HexTripleOf | app/components/ShareImageCard.tsx:22-27 | six hexadecimal digits, whatever follows them, read as their three bytes in decimal joined by ", " |
| ShareImageCard.HexBranch | app/components/ShareImageCard.tsx:22-27 | `#RRGGBB…` with no rgb match gives the three bytes in decimal |
| ShareImageCard.HexColor | app/components/ShareImageCard.tsx:22-27 | `#RRGGBB` gives the three bytes of its digits in decimal, joined by ", " |
| ShareImageCard.HexCaseInsensitive | app/components/ShareImageCard.tsx:24-26 | upper- and lower-case hexadecimal digits read the same |
| ShareImageCard.ShortColor | app/components/ShareImageCard.tsx:16-31 | a colour under ten characters goes to the `#` branch or the fallback |
| ShareImageCard.Fallback | app/components/ShareImageCard.tsx:30-31 | no rgb match and no leading `#` gives "29, 185, 84" |
| GeneratePersona.StripWithoutClose | app/actions/generate-persona.ts:29 | a string without `>` is left as it is |
| GeneratePersona.StripLeavesNoTag | app/actions/generate-persona.ts:29-32 | after stripping, no `<` is followed anywhere later by a `>` |
| GeneratePersona.StripNoTag | app/actions/generate-persona.ts:29 | a string with no `<` … `>` pair is left as it is |
| GeneratePersona.StripFixedPoints | app/actions/generate-persona.ts:29 | stripping leaves a string unchanged iff it holds no tag |
| GeneratePersona.StripIdempotent | app/actions/generate-persona.ts:29 | stripping twice is stripping once |
| GeneratePersona.StripLeadingTag | app/actions/generate-persona.ts:29 | a leading `<…>` with no `>` inside is removed whole |
| GeneratePersona.NoTagNoElement | app/actions/generate-persona.ts:29-40 | a string with no tag contains no complete tag such as `</user_metrics>` |
| GeneratePersona.FieldsCannotClose | app/actions/generate-persona.ts:29-32 | no username, top dApp or favourite chain can contain `</user_metrics>` and close the element early, since tags are stripped from them |
| GeneratePersona.VibeKindInBlock | app/actions/generate-persona.ts:35-39 | a vibe type without quotes appears verbatim in the vibes block |
| GeneratePersona.VibeTypeCanClose | app/actions/generate-persona.ts:37-40 | a vibe type is only stripped of quotes, so a vibe whose type is `</user_metrics>` puts the closing tag inside the element |
| GeneratePersona.TextField | app/actions/generate-persona.ts:29-32 | a string field holds no tag |
| GeneratePersona.TextFieldDefaults | app/actions/generate-persona.ts:29-32 | an absent or empty value gives "Unknown" or "Not specified"; a non-empty value is stripped |
| GeneratePersona.TagOnlyUsername | app/actions/generate-persona.ts:29 | the username `<b></b>` strips to "" and does not fall back to "Unknown" |
| GeneratePersona.NumberFieldDefaults | app/actions/generate-persona.ts:31-34 | `??` falls back only for an absent number; a present one, 0 included, is rendered |
| GeneratePersona.PercentileDefault | app/actions/generate-persona.ts:33 | no percentile gives "50"; a percentile of 0 gives "0" |
| GeneratePersona.RemoveQuotes | app/actions/generate-persona.ts:37 | no `"` is left; every character kept comes from the input; a quote-free input is unchanged |
| GeneratePersona.VibeLines | app/actions/generate-persona.ts:37 | one line per vibe, in input order |
| GeneratePersona.VibeLineSingle | app/actions/generate-persona.ts:37 | a vibe line has no line break when the vibe's type has none |
| GeneratePersona.VibesBlockPresence | app/actions/generate-persona.ts:35-39 | the block is empty iff the vibes are absent or empty; otherwise it starts with `<vibes>` and a newline |
| GeneratePersona.VibesBlockLines | app/actions/generate-persona.ts:35-39 | read line by line, the block is `<vibes>`, one line per vibe in order, then `</vibes>` |
| GeneratePersona.TrimMetricsElement | app/actions/generate-persona.ts:27-41 | trimming the template's padding off the metrics element gives the element, which begins with `<user_metrics>` and ends with `</user_metrics>` |
| GeneratePersona.MetricsTextTrimmed | app/actions/generate-persona.ts:27-41 | ignoring surrounding white space, `metricsText` begins with `<user_metrics>` and ends with `</user_metrics>` |
| ProgressIndicator.RouteMap | app/components/ProgressIndicator.tsx:34 | given routes are used as they are, even an empty list; only absent routes give the defaults |
| ProgressIndicator.RouteAt | app/components/ProgressIndicator.tsx:56 | `routeMap[i]` is defined exactly inside the list |
| ProgressIndicator.Followed | app/components/ProgressIndicator.tsx:57 | a route is followed only when defined and non-empty |
| ProgressIndicator.LeftNavigation | app/components/ProgressIndicator.tsx:55-57 | left navigates iff `currentStep > 1` and `routeMap[currentStep-2]` is a non-empty route, and goes there |
| ProgressIndicator.RightNavigation | app/components/ProgressIndicator.tsx:58-60 | right navigates iff `currentStep < totalSteps` and `routeMap[currentStep]` is a non-empty route, and goes there |
| ProgressIndicator.NavigationInRoutes | app/components/ProgressIndicator.tsx:54-62 | navigation only ever targets a non-empty route of the list |
| ProgressIndicator.LeftRightInverse | app/components/ProgressIndicator.tsx:54-62 | left from step k reaches step k-1's route, and right from step k-1 reaches step k's |
| ProgressIndicator.ClickableRule | app/components/ProgressIndicator.tsx:144-146 | a dot is clickable iff its route exists and is non-empty and it is not the current step; the current dot never is |
| ProgressIndicator.ActivateRule | app/components/ProgressIndicator.tsx:66-72 | Enter or Space navigate iff the route is non-empty and `stepIndex + 1 != currentStep`, and go to that route |
| ProgressIndicator.ActivateLikeClick | app/components/ProgressIndicator.tsx:66-72 | on a dot, Enter and Space navigate exactly when a click would |
| ProgressIndicator.HomeEndRule | app/components/ProgressIndicator.tsx:81-89 | Home always goes to "/"; End goes to the last route iff the list is non-empty and that route is non-empty |
| ProgressIndicator.ArrowKeysNavigate | app/components/ProgressIndicator.tsx:73-80 | the arrow keys are left and right navigation; other keys do nothing |
| ProgressIndicator.DefaultRoutesShape | app/components/ProgressIndicator.tsx:17-24 | six distinct, non-empty default routes, from "/" to "/share" |
| ProgressIndicator.DefaultStepRoutes | app/components/ProgressIndicator.tsx:17-34 | with default routes, step k (1 to 6) maps to `DEFAULT_ROUTES[k-1]`, and its dot is clickable iff it is not the current step |
| ProgressIndicator.DotWidths | app/components/ProgressIndicator.tsx:176-199 | active 60px (40px on mobile), completed 40px (30px), upcoming 30px (20px); the active dot is widest, an upcoming dot narrowest, and mobile narrower |
| ProgressIndicator.HandleStepNavigation | app/components/ProgressIndicator.tsx:54-62 | pushes the navigation target, if there is one, and nothing else |
| ProgressIndicator.HandleStepKeyDown | app/components/ProgressIndicator.tsx:64-91 | prevents the default action exactly for the six handled keys, and pushes the key's target if there is one |
| ProgressIndicator.HandleClick | app/components/ProgressIndicator.tsx:148-152 | a click pushes the dot's route iff the dot is clickable |
| ProgressIndicator.HandleHomeKeyDown | app/components/ProgressIndicator.tsx:93-98 | Enter or Space on the home button pushes "/" and prevents the default action |

## Left out

- Asynchrony. Each awaited call becomes a given outcome, and only the final state of each call is modelled. This covers the provider calls, `html2canvas`, `toBlob`, and the one-second mock delay of `fetchData`. Concurrent calls are not modelled.
- DataStore.FetchData: the `catch` branch (src/store/useWrapperStore.ts:60-64) is not modelled, because nothing in its `try` block can throw once the delay is left out.
- Floating-point numbers. JavaScript numbers are integers here: counts, percentile, vibe percentages and step numbers. A fractional value and its rendering are not modelled.
- Rasterising and downloading (app/utils/imageExport.ts:62-100). `html2canvas`, `canvas.toBlob`, object URLs, the synthetic anchor and the delayed `revokeObjectURL` are foreign browser calls. Their outcomes are parameters of `ImageExport.DownloadShareImage`.
- DOM identity. Elements are immutable values, and `processElement` returns the restyled clone. In-place mutation through shared references (aliasing) is not modelled. `cloneNode(true)` is represented by the shape requirement.
- ImageExport.DownloadShareImage: failures while cloning or styling are not modelled. Only the rasteriser and `toBlob` can fail here; `toBlob` can hand over `null` or throw.
- Freighter SDK internals and stellar-sdk `StrKey`. The account-key checksum and muxed `M…` addresses (app/connect/page.tsx:50-52) belong to foreign libraries. Only the local classifier and the provider's answers are modelled.
- WalletConnect.IsValidStellarAddress: the `typeof address !== "string"` guard is not modelled, because the input is typed as a string.
- The OpenAI call and its streaming (app/actions/generate-persona.ts:43-77) are network I/O. So are the system prompt and the error reported to the stream.
- GeneratePersona.FieldsCannotClose: covers only the three tag-stripped string fields. A vibe type is not stripped of tags and can close the element (`GeneratePersona.VibeTypeCanClose`).
- GeneratePersona.VibesBlockLines: the line-by-line reading requires vibe types without line breaks. A type holding a newline splits its line.
- `buildApiUrl` (src/utils/networkUtils.ts:13-17) depends on `window.location` and `URL`.
- Presentation in ProgressIndicator: focus management of the step buttons, the resize listener that sets `isMobile` (only the `< 768` test is kept), aria labels, opacity and cursor styles, and the next button.
- ThemeContext.ThemeProvider.ApplyTheme: the `TypeError` thrown for a colour that is neither a table key nor an `Object.prototype` name is modelled as `threw == true` with nothing written. What a React effect that throws does next is not modelled.
- ShareImageCard: no lemma covers the 3-digit `#RGB` input. Its pieces are stated: `ParseOneHex` for one-digit substrings, `ParseEmpty` for empty ones.
- NetworkUtils.Capitalize: `toUpperCase` only handles ASCII letters. This suffices for the network names it is applied to.
- ImageExport.WriteColorsEntry: each property is written as one independent inline entry. CSS shorthand expansion is not modelled. In a browser, setting `border-color` (app/utils/imageExport.ts:27) also sets the four `border-*-color` longhands. A longhand skipped as transparent can therefore still end up with an inline value, while the frame clause says it keeps its old entry.
- ImageExport.StyledInlineWithEntry: the same shorthand expansion of `border-color` is not modelled.
- ImageExport.StyledInlineEntry: the same shorthand expansion of `border-color` is not modelled.
- DataStore.WrappedData: a projection of `WrappedData` (src/types/index.ts:1-37). It keeps `username`, `address`, `archetype` (by name) and the names of the top dApps, plus `totalTransactions`, `mostActiveMonth` and `rank` from `stats`. It drops `totalVolume`, `gasSpent`, `percentile`, the per-dApp counts, colours and gradients, the `vibes` list and the archetype's description and image. The store only stores and replaces the record and never reads a field, so the dropped fields change nothing it does.
- Every page and component other than those above, the API routes, the share-URL builders, the data-only files and `app/store/wrapperStore.ts` are not part of this model.
