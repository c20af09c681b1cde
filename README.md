# DialPlay core in Dafny

A model of the logic of M5DialPlay, a Spotify remote for the M5Dial, with proofs about that model. The device turns a dial, reads a few fields from Spotify Web API responses and serves a Wi-Fi setup form. The model covers five parts of the firmware:

- **`StreamScanner`** (`src/JsonStreamScanner.cpp`). The scanner reads a JSON response body one quote-delimited token at a time. It keeps a slash-separated path of the current keys (`/item/artists/name`). From the braces, colons and commas in each token it decides whether that token is a key. It then reads a string, a boolean or an integer value after a key. The stream is a fixed `input` string with a `cursor`, and `readStringUntil` is the function `ReadUntil`. The class `JsonStreamScanner` holds the cursor, the path and the two flags `_push` and `_isValue`, and its methods update them in place. Each method is proved against a function of the input and the old state: `NextKey`, `StringAt`, `BooleanAt`. Lemmas state what one token does to the path. `ScanExamples` proves which keys and values the scanner returns on two documents of the shape the client receives.
- **`Spotify`** (`src/SPClient.cpp`). The client builds the PKCE code verifier and challenge of RFC 7636 and the authorization URL. It folds each response into its fields. An HTTP exchange is reduced to a status code and to the observations the scanner yields: a path with the string, integer and boolean an extractor would read there. Class `SPClient` keeps the fields of `SPClient.h`. Its loops are proved against the folds `FoldPlayback`, `FoldTokens` and `NonEmptyTexts`. Lemmas then say what the folds compute: the last value of each key, the artists joined with `", "`, the devices in document order.
- **`WiFiForm`** (`src/wifiform.cpp`). `htmlEscapedString` is six replace-all passes. The model proves that the passes act character by character, and what each character becomes. It also proves what a browser reads back from the escape as written. Every `<` and `>` comes back as the text `&lt;` or `&gt;`. Every space comes back as U+00A0, the no-break space that `&nbsp;` stands for. The browser then strips and collapses white space in the text of an option. So the value posted is the scanned name exactly when the name holds no `<`, `>` or white space. Doing the `&` pass first cures `<` and `>` but not white space. A `value` attribute on each option, escaped without the space pass, gives back every name.
- **`DialPlay`** (`src/main.cpp`). The main loop's globals form the class `Dial`:
  - the volume dial with its clamp and one-second timer;
  - the device list dial with truncating division and clamping;
  - the lookup of the current device and the window of rows drawn;
  - the auto-refresh deadline on the 32-bit `millis()` clock;
  - the option list of the Wi-Fi form, built with the firmware's escape, and what a browser reads back from it.
- **`ArduinoString`**. The `String` operations the firmware relies on, as functions: `indexOf`, `lastIndexOf`, `trim`, `startsWith`, `replace` of one character, and reading a NUL-terminated buffer.

The JSON scanner has no chunked transfer-coding decoder. The header declares `_chunked` and `_chunkSize` (`src/JsonStreamScanner.h:25-26`), but no code reads them, and the constructor takes only the stream (`src/JsonStreamScanner.cpp:22-25`).

## Model

| member | source | states |
|---|---|---|
| `StreamScanner.ReadUntil` | src/JsonStreamScanner.cpp:32 | The token read is the text before the next delimiter, which it never contains. The cursor ends just past that delimiter, or at the end of the stream when there is none. |
| `StreamScanner.ReadUntilIndexOf` | src/JsonStreamScanner.cpp:32 | Reading up to `d` stops exactly where `indexOf(d)` finds it, or reads the rest of the stream. |
| `StreamScanner.NumberOfCharInString` | src/JsonStreamScanner.cpp:3-20 | The `indexOf` loop counts exactly the occurrences of the character, and the count is zero exactly when it is absent. |
| `StreamScanner.JsonStreamScanner.ReadStringUntil` | src/JsonStreamScanner.cpp:32 | Returns the token and advances the cursor as `ReadUntil` prescribes. |
| `StreamScanner.JsonStreamScanner.ApplyToken` | src/JsonStreamScanner.cpp:33-97 | One loop pass updates path and flags, and reports a key, exactly as `ClassifyToken` prescribes: braces counted before trimming, branches in source order. |
| `StreamScanner.JsonStreamScanner.ScanToken` | src/JsonStreamScanner.cpp:30-98 | One token is consumed and the cursor advances; the rest of the scan is unchanged by having taken this step. |
| `StreamScanner.JsonStreamScanner.ScanNextKey` | src/JsonStreamScanner.cpp:28-101 | Returns the key, cursor and state of `NextKey` from the old cursor and state. The path stays root or slash-led. |
| `StreamScanner.JsonStreamScanner.ScanString` | src/JsonStreamScanner.cpp:104-109 | Returns the text between the next two quotes, as `StringAt`. |
| `StreamScanner.JsonStreamScanner.ScanBoolean` | src/JsonStreamScanner.cpp:112-119 | The value is whether the trimmed text between the next `:` and the next `e` starts with `tru`, as `BooleanAt`. |
| `StreamScanner.JsonStreamScanner.ScanInt` | src/JsonStreamScanner.cpp:122-127 | Skips past the next colon and returns what the number parser reads from there. The cursor advances by what the parser consumed. |
| `StreamScanner.JsonStreamScanner.Path` | src/JsonStreamScanner.cpp:138-141 | The current path is the root `""` or begins with `/`. |
| `StreamScanner.JsonStreamScanner.Available` | src/JsonStreamScanner.cpp:144-147 | While input remains, the next read makes progress. |
| `StreamScanner.TruncateRender` | src/JsonStreamScanner.cpp:44-45 | Cutting the path at its last slash pops exactly the innermost key. At the root it changes nothing, because `substring` clamps the `-1` from `lastIndexOf`. |
| `StreamScanner.PopRender` | src/JsonStreamScanner.cpp:42-46 | `k` closing braces pop the `k` innermost keys, stopping at the root. |
| `StreamScanner.StepKeepsWellFormed` | src/JsonStreamScanner.cpp:40-97 | Every token keeps the path root or slash-led. A key leaves a non-empty path with both flags cleared. |
| `StreamScanner.ClosingTokenPops` | src/JsonStreamScanner.cpp:40-49 | A token with more closing than opening braces pops that many keys and clears both flags. It is not a key. |
| `StreamScanner.OpeningTokenSetsPush` | src/JsonStreamScanner.cpp:56-60 | One net opening brace sets `_push`, clears `_isValue` and keeps the path. |
| `StreamScanner.PunctuationNeverKey` | src/JsonStreamScanner.cpp:64-75 | A token with a colon, comma or square bracket is never a key and keeps the path. `_isValue` ends true exactly for a bare colon. |
| `StreamScanner.BareTokenIsKey` | src/JsonStreamScanner.cpp:76-93 | A bare token when no value is expected is a key. After `{` it is pushed; otherwise it replaces the innermost key. |
| `StreamScanner.ValueTokenSkipped` | src/JsonStreamScanner.cpp:76-97 | A bare token right after a bare colon is a value: path kept, flags cleared. |
| `StreamScanner.UnbalancedTokenIgnored` | src/JsonStreamScanner.cpp:40-97 | Brace counts no branch covers leave the state unchanged. |
| `StreamScanner.NextKeyResult` | src/JsonStreamScanner.cpp:28-101 | `""` comes back only once the stream is exhausted. Any other result is the new slash-led path. |
| `StreamScanner.StringAtBetweenQuotes` | src/JsonStreamScanner.cpp:104-109 | `scanString` returns what lies between the next two quotes, or the rest of the stream when a quote is missing. |
| `StreamScanner.BooleanAtWord` | src/JsonStreamScanner.cpp:112-119 | After the next colon, the trimmed word up to its `e` decides the value. |
| `StreamScanner.BooleanAtTrue` | src/JsonStreamScanner.cpp:112-119 | `: true` reads as true, with the cursor just past the `e`. |
| `StreamScanner.BooleanAtFalse` | src/JsonStreamScanner.cpp:112-119 | `: false` reads as false, with the cursor just past the `e`. |
| `ScanExamples.ScanTokenAt` | src/JsonStreamScanner.cpp:30-98 | On a document laid out as tokens, one scan step classifies exactly the next token. |
| `ScanExamples.StringAtTokens` | src/JsonStreamScanner.cpp:104-109 | `scanString` at a token boundary returns the following token. |
| `ScanExamples.NestedObjectKeys` | src/JsonStreamScanner.cpp:28-101 | On `{"a":{"b":1,"c":"x"}}`, successive calls return `/a`, `/a/b`, `/a/c`, then `""` with the stream consumed. |
| `ScanExamples.ItemArrayKeys` | src/SPClient.cpp:255-270 | On `{"items":[{"name":"A"},{"name":"B"}]}` scanned as `getDeviceList` does, the element key comes once per element, followed by that element's value. |
| `ArduinoString.CString` | src/SPClient.cpp:19-20 | A character buffer read as a `String` is its prefix up to the first NUL. |
| `Spotify.PossibleCharsAreAlphanumeric` | src/SPClient.cpp:13 | The alphabet is exactly the 62 ASCII letters and digits, each once. |
| `Spotify.RandomString64` | src/SPClient.cpp:11-21 | Whatever `random` picks, the result has 64 characters, all letters or digits. |
| `Spotify.Base64Url` | src/SPClient.cpp:44-47 | The result has no `=`, `+` or `/`. Its length drops by exactly the number of `=`. |
| `Spotify.UrlPassesPerCharacter` | src/SPClient.cpp:44-47 | The three `replace` passes equal the character-wise base64url map. |
| `Spotify.SHA256HashInBase64` | src/SPClient.cpp:24-50 | The challenge is the base64url form of the digest text read up to its NUL. |
| `Spotify.Base64UrlAlphabet` | src/SPClient.cpp:44-47 | Base64 text becomes text in the base64url alphabet of RFC 4648 section 5. |
| `Spotify.Base64UrlRoundTrip` | src/SPClient.cpp:44-47 | Canonically padded base64 is recovered from the tail's output, so the dropped padding loses nothing. |
| `Spotify.SPClient.constructor` | src/SPClient.cpp:52-54 | The client, a global (`src/main.cpp:59`), starts with empty strings and lists, every scalar member zero or false, and no refresh pending. |
| `Spotify.SPClient.AuthURLString` | src/SPClient.cpp:57-73 | The code verifier is 64 letters or digits, valid under RFC 7636 section 4.1. The state is 64 letters or digits. The URL is the exact concatenation, with the S256 challenge of the verifier. |
| `Spotify.LastWith` | src/SPClient.cpp:182-227 | Locates the last observation with a path, or reports that there is none. |
| `Spotify.KeyOfSlot` | src/SPClient.cpp:185-226 | The `if` chain sends a path to a field's branch exactly when it is that field's path. |
| `Spotify.ApplySlot` | src/SPClient.cpp:185-226 | One observation overwrites the field its path names and no other. |
| `Spotify.SlotHoldsLast` | src/SPClient.cpp:182-227 | After the scan, every field but the artists holds the value of the last observation of its key, or its reset value. |
| `Spotify.UnlistedKeysIgnored` | src/SPClient.cpp:182-227 | Observations under keys the chain does not list change nothing. |
| `Spotify.PlaybackKeysOnly` | src/SPClient.cpp:182-227 | An observation is kept if and only if it is in the response under a key the chain lists. |
| `Spotify.PlaybackKeysOnlyConcat` | src/SPClient.cpp:182-227 | The filter splits along any split of the response, so it keeps document order. |
| `Spotify.ArtistsJoined` | src/SPClient.cpp:205-214 | The artist field is the artist names joined with `", "` in document order. Leading empty names contribute nothing. |
| `Spotify.NonEmptyArtistsJoined` | src/SPClient.cpp:205-214 | With non-empty names the artist field is exactly their `", "` join. |
| `Spotify.DropLeadingEmpty` | src/SPClient.cpp:208-213 | The names from the first non-empty one on. Everything dropped was empty. |
| `Spotify.NonEmptyTexts` | src/SPClient.cpp:255-270 | Collects only non-empty texts, never more than there are observations. |
| `Spotify.NonEmptyTextsMembers` | src/SPClient.cpp:255-270 | A text is in the device list exactly when some observation under the path holds it and it is non-empty. |
| `Spotify.NonEmptyTextsConcat` | src/SPClient.cpp:255-270 | The list keeps document order across any split of the response. |
| `Spotify.DeviceListsCanDiffer` | src/SPClient.cpp:259-268 | An empty name drops from the name list but not its id from the id list: the two lists need not align. |
| `Spotify.TokensHoldLast` | src/SPClient.cpp:96-107 | Each token is the text of its key's last observation, or is kept when the key is absent. |
| `Spotify.SPClient.ScanTokens` | src/SPClient.cpp:96-107 | The token loop leaves the tokens that `FoldTokens` computes. |
| `Spotify.SPClient.RequestAccessToken` | src/SPClient.cpp:76-117 | Returns the status. On 200 the tokens come from the response and `needsRefresh` is cleared. Otherwise nothing changes. |
| `Spotify.SPClient.RefreshAccessToken` | src/SPClient.cpp:120-155 | Without a refresh token it returns 0 and changes nothing. On 200 the access token is cleared, then taken from the response. |
| `Spotify.SPClient.StorePlaybackValue` | src/SPClient.cpp:184-226 | One observation updates the fields as `ApplyPlayback`: the field its path names, or the artist field. |
| `Spotify.SPClient.ScanPlayback` | src/SPClient.cpp:182-227 | The scan loop leaves the fields that `FoldPlayback` computes. |
| `Spotify.SPClient.GetPlaybackState` | src/SPClient.cpp:158-237 | The fields are reset first. Without an access token it returns 0. On 200 the fields are the fold of the response. A 401 sets `needsRefresh`. |
| `Spotify.SPClient.GetDeviceList` | src/SPClient.cpp:240-280 | Both lists are cleared. On 200 they hold the non-empty ids and names in document order. A 401 sets `needsRefresh`. |
| `Spotify.SPClient.SendCommand` | src/SPClient.cpp:283-305 | Returns the status. A 401 sets `needsRefresh`, and nothing else changes. |
| `WiFiForm.EscapingIsSafe` | src/wifiform.cpp:56-64 | After a character-wise escape, only reference-opening `&` remain of the special characters. |
| `WiFiForm.EscapingLength` | src/wifiform.cpp:56-64 | Escaping never shortens. The length is kept exactly when nothing is special. |
| `WiFiForm.EscapingIdentity` | src/wifiform.cpp:56-64 | The output equals the input exactly when the input holds none of the six specials. |
| `WiFiForm.EscapingNotIdempotent` | src/wifiform.cpp:58-63 | Escaping twice differs from escaping once whenever the input holds a special character. |
| `WiFiForm.AsWrittenOnCharacter` | src/wifiform.cpp:58-63 | The six passes in source order turn `<` and `>` into their reference with the `&` escaped again. The other specials get their own reference; anything else is kept. |
| `WiFiForm.HtmlEscapedString` | src/wifiform.cpp:56-64 | The in-place passes compute the character-wise map `EscapeAsWritten`. |
| `WiFiForm.AsWrittenEscaping` | src/wifiform.cpp:56-64 | The output is safe. It equals the input exactly for plain text. It changes again when escaped twice. |
| `WiFiForm.AsWrittenCollides` | src/wifiform.cpp:58-60 | `<` and the text `&lt;` escape alike, and decode to `&lt;`: the escape cannot be undone. |
| `WiFiForm.AsWrittenDecoding` | src/wifiform.cpp:56-64 | A browser decodes a name escaped as written to the name with each `<` and `>` replaced by the text `&lt;` or `&gt;` and each space by U+00A0. |
| `WiFiForm.AsWrittenRoundTrip` | src/wifiform.cpp:56-64 | The value a browser takes from the escape as written, as the text of an option, is the name if and only if the name holds no `<`, `>` or ASCII white space. |
| `WiFiForm.AmpersandFirstOnCharacter` | src/wifiform.cpp:58-63 | With the `&` pass first, each character meets exactly one pass. |
| `WiFiForm.HtmlEscapedStringAmpersandFirst` | src/wifiform.cpp:56-64 | The reordered passes compute the character-wise map to the intended references. |
| `WiFiForm.AmpersandFirstDecoding` | src/wifiform.cpp:56-64 | Decoding the `&`-first escape gives back the original text with each space turned into U+00A0. |
| `WiFiForm.AmpersandFirstRoundTrip` | src/wifiform.cpp:56-64 | The value a browser takes from the `&`-first escape, as the text of an option, is the name if and only if the name holds no ASCII white space. |
| `WiFiForm.AmpersandFirstEscaping` | src/wifiform.cpp:56-64 | The `&`-first escape is safe and is the identity exactly on plain text. |
| `WiFiForm.AttributeOnCharacter` | src/wifiform.cpp:58-62 | The `&`-first passes without the space pass send each character through exactly one pass. |
| `WiFiForm.HtmlAttributeEscapedString` | src/wifiform.cpp:56-64 | The five passes compute the character-wise map `AttributeEscape`, which keeps spaces. |
| `WiFiForm.AttributeRoundTrip` | src/wifiform.cpp:56-64 | The attribute escape holds no `"` and decodes to exactly the original text. |
| `DialPlay.Clamp` | src/main.cpp:214-217 | The result lies in the range and equals the input when the input already does. |
| `DialPlay.ClampNearest` | src/main.cpp:214-217 | The clamped value is the point of the range nearest the input. |
| `DialPlay.VolumeAfterTurn` | src/main.cpp:213-217 | The dialled volume is in [0, 100], and is the plain sum when that is in range. |
| `DialPlay.VolumeMonotone` | src/main.cpp:213-217 | Turning further never moves the volume back. |
| `DialPlay.Elapsed` | src/main.cpp:227 | `millis() - oldMillis` in unsigned 32-bit arithmetic lies in [0, 2^32). |
| `DialPlay.ElapsedCounts` | src/main.cpp:227 | The unsigned difference is the time that passed, also across a clock wrap. |
| `DialPlay.VolumeWaitsOneSecond` | src/main.cpp:227-230 | The volume request is due exactly when more than 1000 ms passed and the dialled volume differs from the player's. |
| `DialPlay.Dial.TurnVolume` | src/main.cpp:205-234 | Without volume support nothing happens. A move sets the clamped volume, `oldPosition` and `oldMillis`. A rest past one second with a changed volume asks for that volume. |
| `DialPlay.Deadline` | src/main.cpp:449-451 | The deadline is a 32-bit value congruent to now plus the remaining time plus 100 ms. |
| `DialPlay.AsWrittenRefreshEarly` | src/main.cpp:239 | A deadline computed 50 ms before the clock wraps fires at once, though none of the wait has passed. |
| `DialPlay.RefreshDueOnTime` | src/main.cpp:239-244 | With a signed difference the redraw comes exactly when the wait has passed, also across a wrap. |
| `DialPlay.AsWrittenAgreesWithoutWrap` | src/main.cpp:239 | While neither the deadline nor the clock has wrapped since arming, the unsigned comparison fires exactly when the wait has passed and agrees with the signed test. |
| `DialPlay.Dial.AutoRedraw` | src/main.cpp:239-244 | Redraws exactly when the stored deadline is non-zero and below the clock, both read as unsigned 32-bit values, and then disarms it; otherwise the deadline stays. |
| `DialPlay.Dial.ShowPlayScreen` | src/main.cpp:444-458 | Fetches the playback state and takes over the player's volume. A 401 with a token sets `needsRefresh`, and otherwise the flag keeps its value. Arms the deadline when a duration is known, and disarms it otherwise. |
| `DialPlay.TruncDiv` | src/main.cpp:309 | C++ division truncates toward zero: the remainder has the dividend's sign. |
| `DialPlay.TruncDivTowardZero` | src/main.cpp:309 | Three steps back give 0 in C++ where Dafny's `/` gives -1. |
| `DialPlay.StepIndex` | src/main.cpp:309-313 | With devices the index ends in range, and is the plain step when that is in range. With none it ends at -1. |
| `DialPlay.Dial.SelectStep` | src/main.cpp:305-317 | Only a changed position on a detent moves the index, as `StepIndex`, updates `oldPosition` and redraws: the rows are those `redrawDeviceScreen` draws for the new index. Otherwise nothing changes and nothing is drawn. |
| `DialPlay.Dial.ReleaseTransfer` | src/main.cpp:287-302 | A transfer is asked for exactly when the index is in range and names a device other than the current one. |
| `DialPlay.LastMatch` | src/main.cpp:499-505 | Gives the last index holding the id, or the previous index when none does. |
| `DialPlay.Dial.MarkCurrentDevice` | src/main.cpp:499-505 | After the loop the index is the last position whose ID equals the playing device's, or the old index when none does. |
| `DialPlay.Dial.ShowDeviceScreen` | src/main.cpp:494-508 | The ID and name lists become the non-empty texts of the response on 200 and empty otherwise, and 401 sets `needsRefresh`. The index selects the last entry equal to the current device, or keeps its old value. The rows are those `redrawDeviceScreen` draws for that index. |
| `DialPlay.OnScreenWindow` | src/main.cpp:522-523 | A row is drawn exactly when it lies at most three lines from the selected one. |
| `DialPlay.Dial.RedrawDeviceScreen` | src/main.cpp:511-536 | Nothing is drawn for an index outside the list. Otherwise exactly the on-screen lines are drawn, in order, at their heights, with only the selected one highlighted. |
| `DialPlay.OptionListAppend` | src/main.cpp:541-546 | One more network appends its option element, whatever the escape. |
| `DialPlay.ParseOptionItem` | src/main.cpp:545 | A browser reads one option element back as the value of its text: the decoded escape of the network name, white space stripped and collapsed. |
| `DialPlay.OptionListReadBack` | src/main.cpp:541-546 | A browser reads one name per option element: the value of the escaped scanned name at the same position. |
| `DialPlay.OptionListRoundTrip` | src/main.cpp:541-546 | The firmware's option list reads back as exactly the scanned names, in order, if and only if no name holds `<`, `>` or white space. |
| `DialPlay.AsWrittenFormsCollide` | src/main.cpp:545 | The scans `<` and `&lt;` give the same option list, which reads back as `&lt;`. |
| `DialPlay.AmpersandFirstOptionListRoundTrip` | src/main.cpp:541-546 | With the `&`-first escape the option list reads back as exactly the scanned names if and only if no name holds white space. |
| `DialPlay.SpacedNamePostedBack` | src/wifiform.cpp:63 | A name made of two words around a space is read back with U+00A0 in place of the space, under either escape. |
| `DialPlay.ParseValueItem` | src/main.cpp:546 | An option with a `value` attribute escaped for attributes is read back as the network name. |
| `DialPlay.ValueOptionListRoundTrip` | src/main.cpp:541-546 | With `value` attributes the option list reads back as exactly the scanned names, in order, for every list. |
| `DialPlay.HandleFormWiFi` | src/main.cpp:539-553 | The page is the two parts around the option list of names passed through `htmlEscapedString`. The announced length is the length of that page. |
| `DialPlay.HandleFormWiFiWithValues` | src/main.cpp:539-553 | The same page with a `value` attribute on each option. Its option list reads back as exactly the scanned names. |

## Left out

- Chunked transfer-coding is not modelled: the code has no decoder (see above).
- `scanFloat` (`src/JsonStreamScanner.cpp:130-135`) is floating point and unused by the modelled client.
- `StreamScanner.JsonStreamScanner.ScanInt`: the parse of `Stream::parseInt` is a parameter. Its digit handling and its timeout belong to the Arduino core, which is not part of this model.
- `readStringUntil` is modelled without its timeout: the input is complete and reads never block.
- HTTP, TLS, headers and the request URLs and payloads of the command wrappers (`src/SPClient.cpp:76-97`, `283-341`) are not modelled. A response is its status code and the scanner observations of its body.
- SHA-256, `encode_base64` and `urlEncode` are parameters (`digestBase64`, `urlEncode`): they are library code.
- `random(62)` is an arbitrary choice of index. `randomSeed` and the distribution are not modelled.
- Display drawing, touch, the speaker, Wi-Fi, DNS, mDNS, the web server, `Preferences` and the screen state machine in `src/main.cpp` are not modelled. `DialPlay.Dial.RedrawDeviceScreen` returns the rows it would draw instead of drawing them.
- `DialPlay.Dial.RedrawDeviceScreen`: the name drawn on row `i` is `deviceNames[i]`. The source reads it for every `i < deviceIDs.size()` without checking the length of `deviceNames`. The two lists can differ (`Spotify.DeviceListsCanDiffer`), so the model returns line numbers, not names.
- `DialPlay.Dial.TurnVolume`, `DialPlay.Dial.SelectStep`: `int` and `long` are unbounded in the model. Overflow of `tempVolume` or the encoder position is not modelled.
- `DialPlay.RefreshDueOnTime` assumes the computed deadline is not exactly 0. The firmware reads 0 as "no refresh", so such a deadline never fires, in the corrected test as in the original.
- Strings are sequences of characters. NUL bytes inside a `String` and UTF-8 encoding are not modelled.
- `DialPlay.ParseOptions` reads only the two option shapes the pages hold. It decodes the six references the escapes write, and it strips and collapses ASCII white space in option text.
- `DialPlay.ValueOptionListRoundTrip`, `DialPlay.HandleFormWiFiWithValues`: line breaks are not modelled. An HTML parser turns a carriage return in the page into a line feed. Form submission writes every line break as CR LF. A name holding a carriage return or a line feed is therefore not posted back unchanged, although the model reads it back.
- `scanWiFi`, `handlePostWiFi` and the OAuth redirect handlers in `src/main.cpp` are not modelled. They are web-server and Wi-Fi glue around the modelled operations.

## Findings

| source | as written | input that shows it | evidently intended | confidence | as-written member | corrected member |
|---|---|---|---|---|---|---|
| src/wifiform.cpp:58-60 | `<` and `>` are replaced before `&`, so the `&` of `&lt;` and `&gt;` is escaped again | the network name `<` becomes `&amp;lt;` in the Wi-Fi form (`src/main.cpp:545`), which a browser shows as `&lt;`; the name `&lt;` escapes to the same text, so the form posts `&lt;` back as the SSID | escape `&` first, so each special character becomes one reference; with the name also in a `value` attribute, the form posts back every name as scanned | not executed; high | `DialPlay.AsWrittenFormsCollide` | `DialPlay.HandleFormWiFiWithValues` |
| src/wifiform.cpp:63 | every space becomes `&nbsp;`, which stands for U+00A0, and the options carry no `value` attribute (`src/main.cpp:546`), so the browser posts the text of the chosen option | the network `Home WiFi` is posted back as `Home`, U+00A0, `WiFi`, which is not its name; moving the `&` pass first does not change this | post the name as scanned: put it in a `value` attribute, escaped with `&` first and without the space pass | not executed; high | `DialPlay.SpacedNamePostedBack` | `DialPlay.HandleFormWiFiWithValues` |
| src/main.cpp:239 | the deadline `millis() + remaining + 100` (set at line 451) wraps at 2^32 and is compared with `<` against `millis()` | `millis()` = 2^32 - 50 and 1100 ms to wait: the deadline is 1050, below `millis()`, so the redraw fires at once and keeps firing until the clock wraps | test a difference that survives the wrap: the unsigned `millis() - refreshMillis`, the difference the volume timer at line 227 takes with `oldMillis`, read as signed | not executed; medium (needs about 49.7 days of uptime) | `DialPlay.AsWrittenRefreshEarly` | `DialPlay.RefreshDueOnTime` |
