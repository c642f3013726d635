# AutomationTools, modelled in Dafny

The repository holds three small desktop-automation tools.

- **winappdriver-web** is a Flask service and a browser control panel around WinAppDriver, Microsoft's WebDriver server for Windows applications.
  - A `WinAppDriverClient` holds one remote session, its id and a cache from locator to element id.
  - The service keeps a registry from session handle to client and answers the panel's JSON calls.
  - Screenshots are post-processed: a data-URI prefix is stripped, images with transparency or a palette are composited on white, and the result is re-encoded as JPEG.
  - The settings come from the environment.
  - The panel keeps two globals, the session handle and the current element, that guard every button.
  - Its `formatXml` prunes the page source to three attributes and lays it out one tag per line.
- **pomodoro-timer** (`script.js`) counts down work sessions and short and long breaks. Every fourth break is a long one.
- **snip-tool** (`main.py`) has three parts:
  - a floating icon that can be dragged;
  - a full-screen window where a region is dragged out and grabbed;
  - an editor that draws pen strokes, rectangles and text over the capture, with an undo stack.

The model has one module per source file:

| module | file | what it holds |
|---|---|---|
| `Common` | `common.dfy` | shared definitions |
| `Decimal` | `decimal.dfy` | Python's `int(str)` on ASCII text (surrounding whitespace, one sign, single underscores between digits) and JavaScript's integer `toString` |
| `Base64` | `base64.dfy` | the encoding of section 4 of RFC 4648 |
| `JsString` | `js_string.dfy` | JavaScript's `trim` and `padStart` |
| `Config` | `config.dfy` | the settings |
| `WinAppDriver` | `winappdriver.dfy` | the client |
| `ImageUtils` | `image_utils.dfy` | screenshot post-processing |
| `SessionRegistry` | `session_registry.dfy` | the Flask handlers |
| `FormatXml` | `format_xml.dfy` | the panel's `formatXml` |
| `ControlPanel` | `control_panel.dfy` | the panel's handlers |
| `Pomodoro` | `pomodoro.dfy` | the timer |
| `SnipTool` | `snip_tool.dfy` | the snip tool |

Objects whose fields the source updates in place are classes: the client, the registry, the panel, the timer, the icon, the capture window and the editor. Pure code is modelled as functions and lemmas.

Effects are replaced by parameters and results:

- HTTP replies, the clock, dialog answers and the imaging library are parameters.
- The HTTP requests a member would issue are returned as results.

## Model

| member | source | states |
|---|---|---|
| `Decimal.DigitChar` | winappdriver-web/config.py:11-14 | the digit character of a value below ten reads back as that value |
| `Decimal.Digits` | chromedriver-python/pomodoro-timer/script.js:219-223 | `toString` of a non-negative integer is a non-empty digit string without a leading zero |
| `Decimal.ParseDigits` | winappdriver-web/config.py:11-14 | the digit reader under `int`: it succeeds exactly on non-empty all-digit text |
| `Decimal.ParseDigitsOfDigits` | winappdriver-web/config.py:11-14 | reading back the decimal text of `n` gives `n` |
| `Decimal.ParseDigitsLeadingZero` | winappdriver-web/config.py:11-14 | a leading zero does not change the value `int` reads |
| `Decimal.IntText` | chromedriver-python/pomodoro-timer/script.js:219-223 | `toString` of any integer: non-empty, a minus sign exactly for negatives, digits after it |
| `Decimal.StripStart` | winappdriver-web/config.py:11-14 | the whitespace `int` skips in front: a suffix of the text that does not start with whitespace |
| `Decimal.StripStartRemovesSpaces` | winappdriver-web/config.py:11-14 | `StripStart` removes only whitespace |
| `Decimal.StripEnd` | winappdriver-web/config.py:11-14 | the whitespace `int` skips behind: a prefix of the text that does not end with whitespace |
| `Decimal.StripEndRemovesSpaces` | winappdriver-web/config.py:11-14 | `StripEnd` removes only whitespace |
| `Decimal.StripWindow` | winappdriver-web/config.py:11-14 | the stripped text is a window of the text with only whitespace on either side |
| `Decimal.WithoutUnderscores` | winappdriver-web/config.py:11-14 | no underscore remains, and the text never grows |
| `Decimal.SeparatedToDigits` | winappdriver-web/config.py:11-14 | dropping the underscores of digits and underscores leaves digits, non-empty when the text starts with a digit |
| `Decimal.DigitsWithoutUnderscores` | winappdriver-web/config.py:11-14 | plain digits are unchanged by dropping underscores |
| `Decimal.ParseUnsigned` | winappdriver-web/config.py:11-14 | an unsigned literal is read exactly when it is digits with single underscores between them |
| `Decimal.ParseSigned` | winappdriver-web/config.py:11-14 | a read literal starts with a digit or a sign and a digit, ends with a digit, and the sign decides the sign of the value |
| `Decimal.ParseInt` | winappdriver-web/config.py:11-14 | `int(text)` succeeds only on non-empty text |
| `Decimal.UnsignedText` | winappdriver-web/config.py:11-14 | text from a digit to a digit is read as an unsigned literal |
| `Decimal.SignedRejectsForeign` | winappdriver-web/config.py:11-14 | after stripping, a character other than a digit, an underscore or a leading sign makes reading fail |
| `Decimal.SignedRefusesDoubleSeparator` | winappdriver-web/config.py:11-14 | after stripping, two underscores in a row make reading fail |
| `Decimal.ParseIntUnspaced` | winappdriver-web/config.py:11-14 | text without surrounding whitespace is read as it stands |
| `Decimal.ParseUnsignedOfDigits` | winappdriver-web/config.py:11-14 | on plain digit text without underscores, the literal reader agrees with the digit reader |
| `Decimal.ParseIntOfIntText` | winappdriver-web/config.py:11-14 | `int(str(i)) == i` for every integer, negative included |
| `Decimal.ParseIntRejectsForeign` | winappdriver-web/config.py:11-14 | a character that is no digit, whitespace, sign or underscore makes `int` fail |
| `Decimal.StripStartSpaces` | winappdriver-web/config.py:11-14 | leading whitespace in front of a non-space is stripped exactly |
| `Decimal.StripEndSpaces` | winappdriver-web/config.py:11-14 | trailing whitespace behind a non-space is stripped exactly |
| `Decimal.ParseIntIgnoresSurroundingSpace` | winappdriver-web/config.py:11-14 | whitespace around a literal does not change what `int` reads |
| `Decimal.ParseIntAcceptsPlus` | winappdriver-web/config.py:11-14 | `int('+' + str(n)) == n` |
| `Decimal.WithoutUnderscoresAppend` | winappdriver-web/config.py:11-14 | dropping underscores distributes over concatenation |
| `Decimal.SeparatedDigits` | winappdriver-web/config.py:11-14 | two well-formed literals joined by one underscore are well formed |
| `Decimal.DropSeparator` | winappdriver-web/config.py:11-14 | joining by one underscore reads as the two digit strings written together |
| `Decimal.ParseIntSkipsSeparator` | winappdriver-web/config.py:11-14 | `int('a_b') == int('ab')` for digit texts `a` and `b` |
| `Decimal.ParseIntRefusesDoubleSeparator` | winappdriver-web/config.py:11-14 | two underscores in a row make `int` fail |
| `Decimal.ParseIntRefusesBlank` | winappdriver-web/config.py:11-14 | text of whitespace only, empty included, makes `int` fail |
| `Base64.CharOf` | winappdriver-web/utils/image_utils.py:40 | each 6-bit value has an alphabet character |
| `Base64.ValueOf` | winappdriver-web/utils/image_utils.py:40 | each alphabet character has a 6-bit value, and it maps back to that character |
| `Base64.ValueOfCharOf` | winappdriver-web/utils/image_utils.py:40 | value to character to value is the identity |
| `Base64.Encode` | winappdriver-web/utils/image_utils.py:40 | `b64encode` output has length 4*ceil(n/3) and uses only alphabet characters and `=` |
| `Base64.DecodeQuad` | winappdriver-web/utils/image_utils.py:20 | a decoded group of four characters holds one to three bytes |
| `Base64.DecodeEncodeGroup` | winappdriver-web/utils/image_utils.py:40 | a full 3-byte group decodes back to its bytes |
| `Base64.DecodeEncodeOne` | winappdriver-web/utils/image_utils.py:40 | a final group padded with `==` decodes back to its byte |
| `Base64.DecodeEncodeTwo` | winappdriver-web/utils/image_utils.py:40 | a final group padded with `=` decodes back to its two bytes |
| `Base64.DecodeEncodeThree` | winappdriver-web/utils/image_utils.py:40 | a 3-byte input round-trips |
| `Base64.EncodeFullGroup` | winappdriver-web/utils/image_utils.py:40 | the first three bytes encode as one unpadded group in front of the rest's encoding |
| `Base64.DecodeEncodeStep` | winappdriver-web/utils/image_utils.py:40 | prefixing a full group keeps the round trip |
| `Base64.DecodeCons` | winappdriver-web/utils/image_utils.py:20 | decoding a full group in front of further groups concatenates the bytes |
| `Base64.DecodeEncode` | winappdriver-web/utils/image_utils.py:40 | decoding the encoding of any byte string gives that byte string back |
| `Base64.EncodeInjective` | winappdriver-web/utils/image_utils.py:79 | distinct images' JPEG bytes give distinct base64 texts |
| `JsString.SpaceRun` | winappdriver-web/static/js/main.js:348 | the leading run of `\s` characters: all whitespace, and the next character is not |
| `JsString.TrimStart` | winappdriver-web/static/js/main.js:368 | the result is a suffix of the input, only whitespace was removed, and it does not start with whitespace |
| `JsString.TrimEnd` | winappdriver-web/static/js/main.js:368 | the result is a prefix of the input, only whitespace was removed, and it does not end with whitespace |
| `JsString.Trim` | winappdriver-web/static/js/main.js:368 | `trim`: the slice of the input after its leading whitespace run, with only whitespace behind it; no whitespace at either end, and empty exactly when the input is all whitespace |
| `JsString.TrimIdempotent` | winappdriver-web/static/js/main.js:368 | `trim` twice is `trim` once; a trimmed string has no whitespace at either end |
| `JsString.PadStart` | chromedriver-python/pomodoro-timer/script.js:222 | `padStart(w, fill)`: unchanged when already long enough, otherwise exactly `w` long, ending with the input, with fill characters in front |
| `Config.Setting` | winappdriver-web/config.py:5-14 | `os.environ.get(name) or default`: a non-empty environment value is taken, otherwise the default; a non-empty default never gives the empty text |
| `Config.Resolve` | winappdriver-web/config.py:3-14 | loaded settings have a non-empty key and URL; a failure names the quality or the timeout setting, and a timeout failure means the quality was read |
| `Config.ResolveUnset` | winappdriver-web/config.py:5-14 | with none of the four variables set, every setting takes its default |
| `Config.ResolveEmptyEnvironment` | winappdriver-web/config.py:5-14 | with nothing set: `dev-secret-key-for-testing`, `http://127.0.0.1:4723`, quality 80, timeout 3600 |
| `Config.DefaultsParse` | winappdriver-web/config.py:11-14 | `int('80')` is 80 and `int('3600')` is 3600 |
| `Config.EmptyValueIsUnset` | winappdriver-web/config.py:5-14 | an empty environment value behaves exactly like a missing one (`or`) |
| `Config.ResolveTakesEnvironment` | winappdriver-web/config.py:5-14 | non-empty values are taken as given; numeric ones, negative included, as the integer their text spells |
| `Config.UnsetTimeoutIsDefault` | winappdriver-web/config.py:14 | with no timeout set, the timeout is 3600 |
| `Config.ResolveParsed` | winappdriver-web/config.py:11-14 | when both numeric texts are read, loading succeeds with those values |
| `Config.QualityIsNotRangeChecked` | winappdriver-web/config.py:11 | any integer, negative or above 100, is accepted as the quality |
| `Config.NonNumericQualityFails` | winappdriver-web/config.py:11 | a quality holding a character that is no digit, whitespace, sign or underscore makes loading fail with `ValueError`, naming the quality setting |
| `WinAppDriver.FieldValue` | winappdriver-web/utils/winappdriver.py:47 | `dict.get(key)`: a missing and a null member both read as None |
| `WinAppDriver.FieldOr` | winappdriver-web/utils/winappdriver.py:78 | `dict.get(key, '')`: only a missing member reads as the default; null stays None |
| `WinAppDriver.TrimTrailingSlashes` | winappdriver-web/utils/winappdriver.py:14 | `rstrip('/')` gives a prefix of the URL without a trailing slash, and only slashes were removed |
| `WinAppDriver.Chars` | winappdriver-web/utils/winappdriver.py:166 | `list(text)`: one single-character string per character, in order |
| `WinAppDriver.ConcatChars` | winappdriver-web/utils/winappdriver.py:166 | the characters sent, joined, spell the text again |
| `WinAppDriver.CacheKey` | winappdriver-web/utils/winappdriver.py:111 | `f"{strategy}:{locator}"`: the strategy, a colon, then the locator |
| `WinAppDriver.CacheKeyInjective` | winappdriver-web/utils/winappdriver.py:111 | strategies without a colon never share a key with a different pair |
| `WinAppDriver.CacheKeyCollision` | winappdriver-web/utils/winappdriver.py:111 | two different (strategy, locator) pairs share a cache key |
| `WinAppDriver.DecodeStart` | winappdriver-web/utils/winappdriver.py:45-50 | the session reply succeeds exactly on status 200 with a readable body; otherwise the exception the client raises |
| `WinAppDriver.DecodeValue` | winappdriver-web/utils/winappdriver.py:76-80 | the screenshot or source reply succeeds exactly on status 200 with a readable body, and yields `value` (default `''`) |
| `WinAppDriver.DecodeElement` | winappdriver-web/utils/winappdriver.py:125-135 | the element reply succeeds exactly when its `value.ELEMENT` is a non-empty string, and yields that id |
| `WinAppDriver.DecodeStatus` | winappdriver-web/utils/winappdriver.py:150-151 | a reply whose body is ignored succeeds exactly on status 200 |
| `WinAppDriver.Client.constructor` | winappdriver-web/utils/winappdriver.py:7-17 | the URL without trailing slashes, no session, an empty cache |
| `WinAppDriver.Client.StartApplication` | winappdriver-web/utils/winappdriver.py:19-50 | a missing or empty app path is refused before any request; otherwise POST `/session`, and the session id is adopted only on success |
| `WinAppDriver.Client.Quit` | winappdriver-web/utils/winappdriver.py:52-63 | with a session, sends DELETE and always ends with no session and an empty cache; without one, does nothing |
| `WinAppDriver.Client.GetScreenshot` | winappdriver-web/utils/winappdriver.py:65-80 | refused without a session; otherwise GET `/screenshot` and the decoded value |
| `WinAppDriver.Client.GetPageSource` | winappdriver-web/utils/winappdriver.py:82-97 | refused without a session; otherwise GET `/source` and the decoded value |
| `WinAppDriver.Client.FindElement` | winappdriver-web/utils/winappdriver.py:99-135 | a cached key is answered with no request; otherwise POST `/element`, and only a non-empty id is cached and returned |
| `WinAppDriver.Client.ClickElement` | winappdriver-web/utils/winappdriver.py:137-151 | refused without a session; otherwise POST `.../click`, succeeding exactly on status 200 |
| `WinAppDriver.Client.SendKeys` | winappdriver-web/utils/winappdriver.py:153-171 | refused without a session; otherwise POST `.../value` with the text as one-character strings |
| `WinAppDriver.Client.ClearElement` | winappdriver-web/utils/winappdriver.py:173-187 | refused without a session; otherwise POST `.../clear`, succeeding exactly on status 200 |
| `ImageUtils.LineEnd` | winappdriver-web/utils/image_utils.py:17 | the end of the current line, the limit of `.` in the prefix pattern |
| `ImageUtils.MarkerAtOrBelow` | winappdriver-web/utils/image_utils.py:17 | the last `;base64,` at or below a position after the head, or none there |
| `ImageUtils.LongestMatch` | winappdriver-web/utils/image_utils.py:17 | the greedy match of `^data:image/.+;base64,` is the longest match, or there is none |
| `ImageUtils.StripDataUri` | winappdriver-web/utils/image_utils.py:15-17 | text not starting with `data:image`, or not matching, is unchanged; otherwise everything up to the matched marker goes |
| `ImageUtils.StripDataUriOfBase64Payload` | winappdriver-web/utils/image_utils.py:15-17 | `data:image/<type>;base64,<payload>` leaves exactly the payload |
| `ImageUtils.StripDataUriIsGreedy` | winappdriver-web/utils/image_utils.py:17 | with two markers on the line, everything up to the last one is removed |
| `ImageUtils.NeedsComposite` | winappdriver-web/utils/image_utils.py:26 | RGB images are left alone and palette images are composited |
| `ImageUtils.Blend` | winappdriver-web/utils/image_utils.py:31 | a mask of 0 keeps the canvas and a mask of 255 takes the pasted value |
| `ImageUtils.BlendInRange` | winappdriver-web/utils/image_utils.py:31 | a blended channel stays within 0-255 |
| `ImageUtils.PaletteToRgba` | winappdriver-web/utils/image_utils.py:29-30 | `convert('RGBA')` replaces each index by its palette entry and keeps the size |
| `ImageUtils.PastePixel` | winappdriver-web/utils/image_utils.py:31 | a pasted pixel is an RGB pixel |
| `ImageUtils.PasteOnWhiteEnds` | winappdriver-web/utils/image_utils.py:26-32 | a transparent pixel pastes as white; an opaque one keeps its colour |
| `ImageUtils.OnWhite` | winappdriver-web/utils/image_utils.py:28-32 | the composite is an RGB image of the same size |
| `ImageUtils.Normalized` | winappdriver-web/utils/image_utils.py:26-32 | RGBA, LA and P become same-size RGB; every other mode is unchanged |
| `ImageUtils.NormalizedIdempotent` | winappdriver-web/utils/image_utils.py:26-32 | normalizing a normalized image changes nothing |
| `ImageUtils.NormalizedTransparency` | winappdriver-web/utils/image_utils.py:26-32 | after compositing, a fully transparent pixel is white and a fully opaque one keeps its colour |
| `ImageUtils.CompositeOnWhite` | winappdriver-web/utils/image_utils.py:28-32 | the pixel-by-pixel paste loop computes `OnWhite` |
| `ImageUtils.Normalize` | winappdriver-web/utils/image_utils.py:26-32 | the mode dispatch computes `Normalized` |
| `ImageUtils.Compressed` | winappdriver-web/utils/image_utils.py:6-40 | a decoding failure is passed on; otherwise the base64 text of the JPEG of the normalized image at the quality, or the encoder's failure |
| `ImageUtils.CompressImage` | winappdriver-web/utils/image_utils.py:6-40 | `compress_image` computes `Compressed` |
| `ImageUtils.ThumbnailSize` | winappdriver-web/utils/image_utils.py:62 | a size that fits is kept; otherwise within the bounds, no larger than the original, at least 1x1, the binding side at its bound and the other proportional |
| `ImageUtils.Thumbnail` | winappdriver-web/utils/image_utils.py:62 | the thumbnail keeps the mode and has the size `ThumbnailSize` gives |
| `ImageUtils.ResizedWithinBounds` | winappdriver-web/utils/image_utils.py:59-75 | what `resize_image` encodes fits the bounds, is no larger than the original, and is the original's size when that fits |
| `ImageUtils.ResizeImage` | winappdriver-web/utils/image_utils.py:42-79 | a decoding failure is passed on; otherwise the JPEG at quality 80 of the normalized thumbnail, base64-encoded |
| `ImageUtils.ScaledSide` | winappdriver-web/utils/image_utils.py:62 | when the height binds, the proportional width is the floor of w*maxH/h and fits within both bounds |
| `ImageUtils.BindingSideExceeds` | winappdriver-web/utils/image_utils.py:62 | for an image that does not fit, the binding side exceeds its bound |
| `SessionRegistry.Registry.constructor` | winappdriver-web/app.py:9-13 | an empty registry over the loaded settings |
| `SessionRegistry.Registry.CreateSession` | winappdriver-web/app.py:20-51 | no body: 500; missing or empty `appPath`: 400 with no request; otherwise the client's start, and only on success a new, exactly added mapping |
| `SessionRegistry.Registry.DeleteSession` | winappdriver-web/app.py:53-64 | an unknown handle: 404; a known one is quit, its client's cache emptied and exactly its mapping removed |
| `SessionRegistry.Registry.GetScreenshot` | winappdriver-web/app.py:66-84 | 404 for an unknown handle; otherwise the client's screenshot through `compress_image` at the configured quality, or the error as 500 |
| `SessionRegistry.Registry.GetSource` | winappdriver-web/app.py:86-99 | 404 for an unknown handle; otherwise the client's page source or its error |
| `SessionRegistry.Registry.FindElement` | winappdriver-web/app.py:101-121 | 404; then 400 for a missing or empty strategy or locator, with no request; otherwise the client's cached or fetched element id; the session id is kept, and the cache gains exactly the fetched entry on success and is otherwise unchanged |
| `SessionRegistry.Registry.ClickElement` | winappdriver-web/app.py:123-133 | 404 for an unknown handle; otherwise the click request and `Element clicked` exactly on success |
| `SessionRegistry.Registry.SendText` | winappdriver-web/app.py:135-151 | 404; 400 only for a missing or null `text`; the empty text is sent; `Text sent` exactly on success |
| `SessionRegistry.ScreenshotResponse` | winappdriver-web/app.py:74-84 | 200 exactly when the client returned a screenshot and `compress_image` succeeded, with the compressed text; a client exception answers 500 with its message |
| `FormatXml.KeepAllowed` | winappdriver-web/static/js/main.js:323-334 | exactly the attributes on the allow-list remain, in order; a list already allowed is unchanged |
| `FormatXml.KeepAllowedCounts` | winappdriver-web/static/js/main.js:327-335 | each allowed attribute is kept as often as it occurs, and no other is kept |
| `FormatXml.KeepAllowedAppend` | winappdriver-web/static/js/main.js:327-335 | the filter works attribute by attribute, so order is kept: filtering a concatenation concatenates the filtered parts |
| `FormatXml.Pruned` | winappdriver-web/static/js/main.js:326-338 | text stays text unchanged; an element keeps its tag and number of children and holds only allowed attributes |
| `FormatXml.KeepAttributes` | winappdriver-web/static/js/main.js:327-335 | the attribute loop computes `KeepAllowed` |
| `FormatXml.Walk` | winappdriver-web/static/js/main.js:326-338 | `walk` computes the pruned tree |
| `FormatXml.WalkChildren` | winappdriver-web/static/js/main.js:336 | the children are walked in order |
| `FormatXml.PrunedOnlyAllowed` | winappdriver-web/static/js/main.js:326-338 | after `walk`, no element at any depth has an attribute outside the allow-list |
| `FormatXml.PrunedKeepsAllowedTree` | winappdriver-web/static/js/main.js:326-338 | a tree already within the allow-list is unchanged |
| `FormatXml.PrunedIdempotent` | winappdriver-web/static/js/main.js:326-338 | walking twice is walking once |
| `FormatXml.PrunedKeepsOutline` | winappdriver-web/static/js/main.js:326-338 | `walk` changes attributes only: tags, text and the order of children are kept |
| `FormatXml.Collapse` | winappdriver-web/static/js/main.js:348 | `replace(/>\s*</g, '><')` never lengthens the text and keeps its first character |
| `FormatXml.Solid` | winappdriver-web/static/js/main.js:348 | the non-whitespace characters, never more than the text |
| `FormatXml.CollapseKeepsLead` | winappdriver-web/static/js/main.js:348 | collapsing keeps the leading whitespace and the character after it |
| `FormatXml.CollapseIsTight` | winappdriver-web/static/js/main.js:348 | after collapsing, no `>` is followed by whitespace and then `<` |
| `FormatXml.CollapseKeepsTight` | winappdriver-web/static/js/main.js:348 | text without such gaps is unchanged |
| `FormatXml.CollapseIdempotent` | winappdriver-web/static/js/main.js:348 | collapsing twice is collapsing once |
| `FormatXml.CollapseRemovesOnlySpace` | winappdriver-web/static/js/main.js:348 | collapsing removes only whitespace: every other character remains, in order |
| `FormatXml.Split` | winappdriver-web/static/js/main.js:348 | `split(/>(?=<)/)`: the first piece is a prefix, later pieces start with `<`, and no piece holds a `><` |
| `FormatXml.SplitJoin` | winappdriver-web/static/js/main.js:348 | joining the pieces with `>` gives back the split text |
| `FormatXml.NormalizeLine` | winappdriver-web/static/js/main.js:351-353 | every line starts with `<` and ends with `>`; a complete tag is unchanged; at most two characters are added |
| `FormatXml.NormalizeAll` | winappdriver-web/static/js/main.js:350-353 | each piece is completed in place |
| `FormatXml.Lines` | winappdriver-web/static/js/main.js:348-353 | at least one line, each starting with `<` and ending with `>` |
| `FormatXml.IsClosing` | winappdriver-web/static/js/main.js:356 | `/^<\//`: the line starts with `</` |
| `FormatXml.IsOpening` | winappdriver-web/static/js/main.js:363 | `/^<[^/!][^>]*[^/]>$/`: at least four characters from `<` to `>`, neither closing, `<!` nor self-closing |
| `FormatXml.LevelBounded` | winappdriver-web/static/js/main.js:355-365 | after `n` lines the counter lies within -n and n |
| `FormatXml.DepthBounded` | winappdriver-web/static/js/main.js:360 | the pad of line `i` is at most `i` levels |
| `FormatXml.Spaces` | winappdriver-web/static/js/main.js:360 | `' '.repeat(n)` |
| `FormatXml.Indented` | winappdriver-web/static/js/main.js:360 | one indented line per line |
| `FormatXml.CompleteLine` | winappdriver-web/static/js/main.js:351-353 | the two `if`s compute `NormalizeLine` |
| `FormatXml.Levels` | winappdriver-web/static/js/main.js:356-365 | the decrement before printing, the `max(0, …)` pad, the increment after |
| `FormatXml.LoopStep` | winappdriver-web/static/js/main.js:355-365 | one iteration moves the counter from the state after `i` lines to the state after `i + 1` |
| `FormatXml.IndentStep` | winappdriver-web/static/js/main.js:350-366 | the loop invariant survives one iteration |
| `FormatXml.IndentLines` | winappdriver-web/static/js/main.js:345-366 | the loop's output is every line behind twice its depth in spaces, each ending with a newline |
| `FormatXml.IndentedLine` | winappdriver-web/static/js/main.js:360 | each output line is its tag behind exactly 2*depth spaces, never a negative count |
| `FormatXml.LevelStep` | winappdriver-web/static/js/main.js:355-365 | a closing tag lowers the counter and an opening tag raises it; no line does both; self-closing tags and `<!` lines do not raise it |
| `FormatXml.ShortOpeningTag` | winappdriver-web/static/js/main.js:363 | the opening-tag pattern needs two characters: `<a>` does not raise the counter, `<ab>` does |
| `FormatXml.TerminatedJoin` | winappdriver-web/static/js/main.js:360 | the loop's output is the lines joined by newlines, plus a final newline |
| `FormatXml.TrimTerminated` | winappdriver-web/static/js/main.js:368 | `trim` removes exactly the final newline |
| `FormatXml.TrimNewline` | winappdriver-web/static/js/main.js:368 | text from `<` to `>` followed by a newline trims to itself |
| `FormatXml.Format` | winappdriver-web/static/js/main.js:318-373 | a failed parse or walk returns the input; otherwise the pruned serialisation, one indented tag per line, joined by newlines |
| `ControlPanel.Panel.constructor` | winappdriver-web/static/js/main.js:2-3 | both globals start null |
| `ControlPanel.Panel.RefreshScreenshot` | winappdriver-web/static/js/main.js:107-131 | no call without a session; one GET of the screenshot with one |
| `ControlPanel.Panel.RefreshSource` | winappdriver-web/static/js/main.js:134-160 | no call without a session; one GET of the source with one |
| `ControlPanel.Panel.StartSession` | winappdriver-web/static/js/main.js:33-70 | a blank path issues nothing; on success the new handle replaces the old and both views refresh |
| `ControlPanel.Panel.StopSession` | winappdriver-web/static/js/main.js:73-104 | nothing without a session; DELETE otherwise, and on success both globals are cleared |
| `ControlPanel.Panel.FindElement` | winappdriver-web/static/js/main.js:163-206 | nothing without a session or with a blank locator; on success the answer's element becomes current |
| `ControlPanel.Panel.ClickElement` | winappdriver-web/static/js/main.js:209-237 | nothing unless a session and an element are set; on success the screenshot refreshes |
| `ControlPanel.Panel.SendText` | winappdriver-web/static/js/main.js:240-281 | nothing unless a session and an element are set; the text is sent as typed, empty included |
| `ControlPanel.StopThenAct` | winappdriver-web/static/js/main.js:73-104 | after a successful stop, refresh, find, click and send issue no call |
| `Pomodoro.Duration` | chromedriver-python/pomodoro-timer/script.js:4-6 | exactly the three modes have a length: a whole number of minutes, at most the work length, the breaks shorter |
| `Pomodoro.Display` | chromedriver-python/pomodoro-timer/script.js:218-225 | at least five characters; its reading is the lemmas below |
| `Pomodoro.Completed` | chromedriver-python/pomodoro-timer/script.js:125-159 | after work: count+1, then a long break on multiples of four and a short one otherwise; after a break: work |
| `Pomodoro.Schedule` | chromedriver-python/pomodoro-timer/script.js:125-159 | from a fresh timer, 2k completions give work with k sessions; the k-th break is long exactly when 4 divides k |
| `Pomodoro.NotificationMessage` | chromedriver-python/pomodoro-timer/script.js:205-216 | the notification text for each mode, and the fallback for any other |
| `Pomodoro.JsRem` | chromedriver-python/pomodoro-timer/script.js:220 | JavaScript's `%`: the sign of the dividend, smaller than the divisor in size, and differing from the dividend by a multiple of the divisor |
| `Pomodoro.IndexOf` | chromedriver-python/pomodoro-timer/script.js:223 | the first position of a character |
| `Pomodoro.PaddedDigits` | chromedriver-python/pomodoro-timer/script.js:223 | a value below 100, padded to two digits, reads back as itself |
| `Pomodoro.ClockParts` | chromedriver-python/pomodoro-timer/script.js:223 | `MM:SS` splits at the colon into its two parts |
| `Pomodoro.DisplayReadsBack` | chromedriver-python/pomodoro-timer/script.js:218-225 | the display of a non-negative time reads back as its whole minutes and leftover whole seconds |
| `Pomodoro.DisplayTruncates` | chromedriver-python/pomodoro-timer/script.js:219-220 | the seconds are below 60, and the display falls short of the time by under a second |
| `Pomodoro.DisplayWidth` | chromedriver-python/pomodoro-timer/script.js:223 | under 100 minutes the display is exactly five characters with a colon in the middle |
| `Pomodoro.DisplayOfWorkTime` | chromedriver-python/pomodoro-timer/script.js:4-9 | a fresh timer shows `25:00` |
| `Pomodoro.Timer.constructor` | chromedriver-python/pomodoro-timer/script.js:2-12 | paused in work at 25 minutes, no sessions counted |
| `Pomodoro.Timer.Start` | chromedriver-python/pomodoro-timer/script.js:45-63 | no effect while running; otherwise runs from `now`, keeping the time left; only the running flag and start fields change |
| `Pomodoro.Timer.Pause` | chromedriver-python/pomodoro-timer/script.js:65-72 | stops, and nothing else changes |
| `Pomodoro.Timer.Reset` | chromedriver-python/pomodoro-timer/script.js:74-90 | paused at the full length of the current mode; mode and counter kept |
| `Pomodoro.Timer.SetMode` | chromedriver-python/pomodoro-timer/script.js:92-123 | paused in the mode at its full length; an unknown mode keeps the time |
| `Pomodoro.Timer.SwitchToNextMode` | chromedriver-python/pomodoro-timer/script.js:144-159 | the next mode of the schedule at full length, paused, with an auto-start scheduled |
| `Pomodoro.Timer.CompleteSession` | chromedriver-python/pomodoro-timer/script.js:125-142 | the phase advances by `Completed`, at full length, with an auto-start scheduled and the right notification |
| `Pomodoro.Timer.Tick` | chromedriver-python/pomodoro-timer/script.js:54-62 | the time left is the time at start less the time elapsed; at zero the session completes; nothing while paused; the start fields are never touched |
| `Pomodoro.Timer.FireAutoStart` | chromedriver-python/pomodoro-timer/script.js:158 | a pending auto-start is used up and the timer runs, with phase and time kept; when already running, the start fields are kept |
| `SnipTool.Ids` | snip-tool/main.py:219 | `find_all()` lists the item ids bottom to top |
| `SnipTool.Without` | snip-tool/main.py:240 | `delete(id)` never adds items |
| `SnipTool.WithoutMembers` | snip-tool/main.py:240 | exactly the items with other ids remain; with no such id, nothing changes |
| `SnipTool.WithoutNumbered` | snip-tool/main.py:240 | deleting keeps the canvas numbered and ordered |
| `SnipTool.WithoutTop` | snip-tool/main.py:352-360 | deleting the top item of two leaves the bottom one |
| `SnipTool.CentredOrigin` | snip-tool/main.py:29-32 | `(screen - 60) // 2` centres the icon, with the odd pixel on the far side |
| `SnipTool.Icon.constructor` | snip-tool/main.py:29-35 | the icon is placed centred, with no drag point yet |
| `SnipTool.Icon.StartDrag` | snip-tool/main.py:88-91 | the grab point is remembered |
| `SnipTool.Icon.OnDrag` | snip-tool/main.py:93-97 | the grabbed point follows the pointer |
| `SnipTool.Selection` | snip-tool/main.py:368-372 | the region has ordered corners, each being one of the two points, and contains both points |
| `SnipTool.SelectionSymmetric` | snip-tool/main.py:368-372 | dragging either way gives the same region |
| `SnipTool.CaptureWindow.constructor` | snip-tool/main.py:309-340 | no press yet, and only the centred hint on the canvas |
| `SnipTool.CaptureWindow.OnMouseDown` | snip-tool/main.py:342-345 | the press point is remembered |
| `SnipTool.CaptureWindow.OnMouseDrag` | snip-tool/main.py:347-360 | nothing before a press; otherwise the old rectangle is replaced by one from the press point to here |
| `SnipTool.CaptureWindow.OnMouseUp` | snip-tool/main.py:362-386 | nothing before a press; otherwise the ordered region, grabbed only when over 10 pixels each way and the grab does not fail |
| `SnipTool.CaptureWindow.Cancel` | snip-tool/main.py:388-391 | Escape completes with nothing grabbed |
| `SnipTool.GrabbedRegion` | snip-tool/main.py:375 | a grabbed region is at least 11 pixels each way and lies between the drag's two points |
| `SnipTool.PenRecordAsWritten` | snip-tool/main.py:218-223 | a pen stroke records the topmost item, whoever drew it, or nothing on an empty canvas |
| `SnipTool.PenRecord` | snip-tool/main.py:218-223 | the intended record is the topmost item only when the current stroke drew it |
| `SnipTool.PenClickRecordsScreenshot` | snip-tool/main.py:218-223 | a pen click on a fresh capture records the screenshot, which leaves the undo stack unsound; the intended record is nothing |
| `SnipTool.Editor.constructor` | snip-tool/main.py:107-118 | not drawing, pen tool, an empty canvas and undo stack |
| `SnipTool.Editor.LoadScreenshot` | snip-tool/main.py:268-270 | the canvas is cleared and the picture becomes its bottom item |
| `SnipTool.Editor.AddText` | snip-tool/main.py:227-234 | a non-empty answer adds a text item and records it; otherwise nothing changes; undo soundness is kept |
| `SnipTool.Editor.StartDraw` | snip-tool/main.py:183-191 | drawing starts at the point with the chosen tool; the text tool adds its text at once |
| `SnipTool.Editor.Draw` | snip-tool/main.py:193-205 | only while drawing with the pen, one more segment from the last point to here |
| `SnipTool.Editor.EndDraw` | snip-tool/main.py:207-225 | a rectangle is drawn and recorded; a pen stroke records the topmost item; drawing stops |
| `SnipTool.Editor.EndDrawCorrected` | snip-tool/main.py:207-225 | as `EndDraw`, but a pen stroke records only a segment it drew itself, so the undo stack stays sound |
| `SnipTool.Editor.RecordRectangle` | snip-tool/main.py:211-216 | the rectangle from the start point to here is drawn and recorded |
| `SnipTool.Editor.RecordStroke` | snip-tool/main.py:218-223 | the intended pen record, which keeps the stack sound |
| `SnipTool.Editor.Undo` | snip-tool/main.py:236-240 | the top entry is popped and its item deleted; nothing on an empty stack; soundness is kept |
| `SnipTool.Editor.ClearAll` | snip-tool/main.py:242-245 | the canvas and the undo stack are both emptied |
| `SnipTool.AppendNumbered` | snip-tool/main.py:200-203 | a new item with the next id goes on top and keeps the canvas numbered |
| `SnipTool.AddItem` | snip-tool/main.py:200-203 | drawing an unrecorded segment keeps the stack sound |
| `SnipTool.RecordNew` | snip-tool/main.py:212-216 | drawing and recording a new item keeps the stack sound |
| `SnipTool.RecordTop` | snip-tool/main.py:219-223 | recording a topmost item drawn by the current stroke keeps the stack sound |
| `SnipTool.UndoKeepsSound` | snip-tool/main.py:236-240 | popping the top entry and deleting its item keeps the stack sound |

## Left out

- HTTP, sockets and JSON parsing are left out. Replies come in as typed parameters, and requests go out as results. JSON values of the wrong type (a non-string `sessionId`, `ELEMENT`, `appPath`, `strategy` or `text`) are not modelled.
- Flask routing, `jsonify` formatting, `index()` and the development server are left out. The session handle from `uuid.uuid4()` is a parameter.
- The `SESSION_TIMEOUT` setting is read but never used by the service.
- Imaging-library details are left out:
  - Decoding, JPEG encoding and LANCZOS resampling are parameters, each with a small contract.
  - `base64.b64decode` (image_utils.py:20) is part of the decoding parameter, so its non-strict handling of malformed input is not modelled. `Base64.Decode` is strict and only serves to state that the encoded output decodes back.
  - The library's fixed-point rounding in `paste` is not modelled.
- ImageUtils.Blend: rounds to the nearest value. The imaging library's own fixed-point rounding may differ by one in some channels.
- ImageUtils.ResizeImage: requires both bounds to be at least 1. `resize_image` (image_utils.py:42, 62) accepts any integers, and the imaging library's `thumbnail` raises on a zero or negative bound; that error path is not modelled. Nothing in the service calls `resize_image`.
- ImageUtils.ThumbnailSize: rounds the proportional side down. The library's own rounding of `thumbnail` may differ by one pixel.
- Browser-side details are left out:
  - DOM updates, alerts, button enabling, the loading indicator and the rendering of the source tree;
  - `DOMParser` and `XMLSerializer`, which are parameters. A parse error document is treated as a parse;
  - the `xml` null case of `formatXml`.
- FormatXml.Walk: computes the pruned tree as a new value; the in-place `removeAttribute` on a live DOM (aliasing between nodes) is not modelled.
- The `text === undefined` test in `sendText` (main.js:248) can never be true for an input field's value, so it is not modelled.
- The chained refresh answers of the panel are not inputs: they do not change the globals.
- The Pomodoro timer's DOM is left out, and so are these features:
  - the notification permission request and its browser flow;
  - audio playback;
  - the progress ring and the event listeners.

  The clock is a parameter. The one-second interval is the explicit `Tick` step, and the two-second timeout is a counter of pending starts.
- The snip tool's Tk windows are left out: window attributes, the toolbar, colour and size widgets, save dialogs and file writing, `ImageGrab` (its failure is a parameter), and the `SnipTool` application class (main.py:394-455).
- In main.py, `<Button-1>` is bound to `on_click` at line 57 and then rebound to `start_drag` at line 62. The icon's click action is therefore unreachable and is not modelled.
- Editor.LoadScreenshot: the fit-to-800x600 scaling (main.py:247-264) is not modelled; only the canvas contents are.
- The canvas model assumes items are never raised or lowered. Their stacking order is then their creation order, as Tk gives it.
- Decimal.ParseDigits: reads plain digits only. The sign, the surrounding whitespace and the underscores that `int` also takes are handled around it by `Decimal.ParseInt`, which `Config.Resolve` and `Config.NonNumericQualityFails` use.
- Decimal.ParseInt: accepts ASCII decimal digits only; `int` also reads the other Unicode decimal digits (Arabic-Indic, full-width, ...), which are not modelled.
- Config.Resolve: promises no sign for the numbers, because `int` reads `-1` as well; `QualityIsNotRangeChecked` states that negative values load.
- Pomodoro.Display: its own contract bounds only the length; the reading of the text is `DisplayReadsBack`, `DisplayTruncates` and `DisplayWidth`.
- Concurrency is not modelled. Flask's threaded server (app.py:154) can run two handlers on the same registry and client at once; each handler here is one atomic step. The panel's `async` handlers can interleave at every `await`. For example, `findElement` (main.js:180-193) may still be waiting when `stopSession` (main.js:82-90) completes, and it then sets `currentElementId` while `sessionId` is null. The `ControlPanel` methods run each handler to completion, so that interleaving is not captured.
- Strings are sequences of code points, while JavaScript regexes without the `u` flag work on UTF-16 code units. A tag with a non-BMP character such as `<😀>` is two code units long inside the brackets, so `/^<[^/!][^>]*[^/]>$/` matches it; `FormatXml.IsOpening` sees one character there and does not.
- SnipTool.Without: its own contract states only the length bound; its membership and ordering properties are the lemmas `WithoutMembers` and `WithoutNumbered`.

## Findings

| source | as written | input that shows it | evidently intended | confidence | as-written member | corrected member |
|---|---|---|---|---|---|---|
| snip-tool/main.py:218-223 | a pen stroke appends `find_all()[-1]`, the topmost canvas item, whether or not the stroke drew it | after `load_screenshot`, a pen press and release with no motion in between: the screenshot's own item (id 1) is recorded, so the next undo deletes the screenshot | a stroke records its own last segment, and nothing when it drew none | not executed | `SnipTool.PenClickRecordsScreenshot` | `SnipTool.Editor.EndDrawCorrected` |
