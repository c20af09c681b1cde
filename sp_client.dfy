/** The Spotify Web API client (`SPClient`): the PKCE helpers and the way
    each response is folded into the client's fields.  An HTTP exchange is
    reduced to its status code and to the sequence of observations the JSON
    scanner yields for the response body. */
module Spotify {
  import opened ArduinoString

  // ---------------------------------------------------------------------
  // randomString64 and the PKCE code verifier
  // ---------------------------------------------------------------------

  predicate Alphanumeric(c: char) {
    ('A' <= c <= 'Z') || ('a' <= c <= 'z') || ('0' <= c <= '9')
  }

  /** Position `i` of the alphabet `randomString64` draws from: the upper-case
      letters, then the lower-case letters, then the digits. */
  function AlphabetChar(i: nat): char
    requires i < 62
  {
    if i < 26 then ('A' as int + i) as char
    else if i < 52 then ('a' as int + i - 26) as char
    else ('0' as int + i - 52) as char
  }

  /** The 62 characters `randomString64` draws from. */
  const PossibleChars: string := seq(62, i requires 0 <= i < 62 => AlphabetChar(i))

  /** The alphabet is exactly the ASCII letters and digits, each once. */
  lemma PossibleCharsAreAlphanumeric()
    ensures |PossibleChars| == 62
    ensures forall k :: 0 <= k < |PossibleChars| ==> Alphanumeric(PossibleChars[k])
    ensures forall c :: Alphanumeric(c) ==> c in PossibleChars
    ensures forall j, k :: 0 <= j < k < |PossibleChars| ==> PossibleChars[j] != PossibleChars[k]
  {
    forall c | Alphanumeric(c)
      ensures c in PossibleChars
    {
      if 'A' <= c <= 'Z' {
        assert PossibleChars[c as int - 'A' as int] == c;
      } else if 'a' <= c <= 'z' {
        assert PossibleChars[26 + c as int - 'a' as int] == c;
      } else {
        assert PossibleChars[52 + c as int - '0' as int] == c;
      }
    }
  }

  /** `randomString64`: 65 random characters written into a C buffer, the
      last one overwritten by NUL, read back as a `String`.  `random(62)` is
      an arbitrary choice of index. */
  method RandomString64() returns (r: string)
    ensures |r| == 64
    ensures forall i :: 0 <= i < |r| ==> Alphanumeric(r[i])
  {
    PossibleCharsAreAlphanumeric();
    var result := new char[65];
    for i := 0 to 65
      invariant forall k :: 0 <= k < i ==> Alphanumeric(result[k])
    {
      var pick :| 0 <= pick < |PossibleChars|;
      result[i] := PossibleChars[pick];
    }
    result[64] := '\0';
    var buf := result[..];
    assert forall k :: 0 <= k < 64 ==> buf[k] != '\0';
    r := CString(buf);
  }

  /** The characters RFC 7636 section 4.1 allows in a code verifier. */
  predicate Unreserved(c: char) {
    Alphanumeric(c) || c == '-' || c == '.' || c == '_' || c == '~'
  }

  /** A code verifier of RFC 7636 section 4.1: 43 to 128 unreserved characters. */
  predicate ValidCodeVerifier(v: string) {
    43 <= |v| <= 128 && forall i :: 0 <= i < |v| ==> Unreserved(v[i])
  }

  // ---------------------------------------------------------------------
  // The base64url tail of SHA256HashInBase64
  // ---------------------------------------------------------------------

  /** The three `replace` calls, in order: drop `=`, `+` to `-`, `/` to `_`. */
  const UrlPasses := [Pass('=', ""), Pass('+', "-"), Pass('/', "_")]

  /** What the passes do to a single character. */
  function UrlChar(c: char): string {
    if c == '=' then "" else if c == '+' then "-" else if c == '/' then "_" else [c]
  }

  /** The base64url form of RFC 4648 section 5 with the padding removed,
      character by character. */
  function Base64Url(s: string): (r: string)
    ensures '=' !in r && '+' !in r && '/' !in r
    ensures |r| == |s| - Occurrences(s, '=')
  {
    if s == [] then [] else UrlChar(s[0]) + Base64Url(s[1..])
  }

  lemma {:induction false} Base64UrlConcat(a: string, b: string)
    ensures Base64Url(a + b) == Base64Url(a) + Base64Url(b)
  {
    if a == [] {
      assert a + b == b;
    } else {
      assert (a + b)[0] == a[0];
      assert (a + b)[1..] == a[1..] + b;
      Base64UrlConcat(a[1..], b);
    }
  }

  /** The successive replace-all passes act as the character-wise map. */
  lemma {:induction false} UrlPassesPerCharacter(s: string)
    ensures ApplyPasses(s, UrlPasses) == Base64Url(s)
  {
    if s != [] {
      assert s == [s[0]] + s[1..];
      ApplyPassesConcat([s[0]], s[1..], UrlPasses);
      UrlPassesPerCharacter(s[1..]);
      UrlPassesOnCharacter(s[0]);
    }
  }

  lemma UrlPassesOnCharacter(c: char)
    ensures ApplyPasses([c], UrlPasses) == UrlChar(c)
  {
    var p0 := ReplaceAll([c], '=', "");
    ReplaceAllSingle(c, '=', "");
    if c == '=' {
      assert p0 == [];
    } else {
      var p1 := ReplaceAll([c], '+', "-");
      ReplaceAllSingle(c, '+', "-");
      if c == '+' {
        ReplaceAllSingle('-', '/', "_");
      } else {
        ReplaceAllSingle(c, '/', "_");
      }
    }
    assert UrlPasses[1..][1..][1..] == [];
  }

  /** `SHA256HashInBase64`: `digestBase64` stands for the SHA-256 digest and
      its base64 encoding into a NUL-terminated buffer; the result is the
      buffer read back as a `String` with the three URL replacements. */
  method SHA256HashInBase64(source: string, digestBase64: string -> seq<char>) returns (result: string)
    ensures result == Base64Url(CString(digestBase64(source)))
  {
    var encoded := CString(digestBase64(source));
    result := encoded;
    result := ReplaceAll(result, '=', "");
    result := ReplaceAll(result, '+', "-");
    result := ReplaceAll(result, '/', "_");
    assert result == ApplyPasses(encoded, UrlPasses);
    UrlPassesPerCharacter(encoded);
  }

  /** The base64 alphabet of RFC 4648 section 4, padding excluded. */
  predicate Base64Char(c: char) {
    Alphanumeric(c) || c == '+' || c == '/'
  }

  /** The base64url alphabet of RFC 4648 section 5. */
  predicate Base64UrlChar(c: char) {
    Alphanumeric(c) || c == '-' || c == '_'
  }

  /** Base64 text (with or without padding) becomes base64url text. */
  lemma {:induction false} Base64UrlAlphabet(s: string)
    requires forall i :: 0 <= i < |s| ==> Base64Char(s[i]) || s[i] == '='
    ensures forall i :: 0 <= i < |Base64Url(s)| ==> Base64UrlChar(Base64Url(s)[i])
  {
    if s != [] {
      Base64UrlAlphabet(s[1..]);
      var r := Base64Url(s);
      assert r == UrlChar(s[0]) + Base64Url(s[1..]);
      forall i | 0 <= i < |r|
        ensures Base64UrlChar(r[i])
      {
        if i >= |UrlChar(s[0])| {
          assert r[i] == Base64Url(s[1..])[i - |UrlChar(s[0])|];
        }
      }
    }
  }

  /** The `=` padding that brings a base64 body of length `n` to a multiple of four. */
  function Padding(n: nat): (r: string)
    ensures |r| < 4 && (n + |r|) % 4 == 0
    ensures forall i :: 0 <= i < |r| ==> r[i] == '='
  {
    seq((4 - n % 4) % 4, _ => '=')
  }

  /** Back from base64url to padded base64 (RFC 4648 sections 4 and 5). */
  function FromBase64Url(u: string): string {
    Unmap(u) + Padding(|u|)
  }

  function Unmap(u: string): (r: string)
    ensures |r| == |u|
  {
    if u == [] then [] else [if u[0] == '-' then '+' else if u[0] == '_' then '/' else u[0]] + Unmap(u[1..])
  }

  lemma {:induction false} UnmapRestores(core: string)
    requires forall i :: 0 <= i < |core| ==> Base64Char(core[i])
    ensures |Base64Url(core)| == |core|
    ensures Unmap(Base64Url(core)) == core
  {
    if core != [] {
      UnmapRestores(core[1..]);
      assert Base64Url(core) == [Base64Url(core)[0]] + Base64Url(core[1..]);
    }
  }

  /** Canonically padded base64 survives the trip to base64url and back:
      the padding dropped by the tail is recoverable from the length. */
  lemma Base64UrlRoundTrip(core: string)
    requires forall i :: 0 <= i < |core| ==> Base64Char(core[i])
    ensures FromBase64Url(Base64Url(core + Padding(|core|))) == core + Padding(|core|)
  {
    var pad := Padding(|core|);
    Base64UrlConcat(core, pad);
    PaddingIsAllEquals(pad);
    assert Base64Url(pad) == [];
    assert Base64Url(core + pad) == Base64Url(core);
    UnmapRestores(core);
  }

  lemma {:induction false} PaddingIsAllEquals(p: string)
    requires forall i :: 0 <= i < |p| ==> p[i] == '='
    ensures Occurrences(p, '=') == |p|
  {
    if p != [] {
      PaddingIsAllEquals(p[1..]);
    }
  }

  // ---------------------------------------------------------------------
  // Scanned responses
  // ---------------------------------------------------------------------

  /** One key reported by `scanNextKey`, with what the extractor the client
      calls for that key reads: the text of `scanString`, the number of
      `scanInt` and the flag of `scanBoolean`.  Which one is used depends
      on the path. */
  datatype Scanned = Scanned(path: string, text: string, number: int, flag: bool)

  /** The position of the last observation with the given path, if any. */
  function LastWith(obs: seq<Scanned>, path: string): (r: Option<nat>)
    ensures r.None? ==> forall k :: 0 <= k < |obs| ==> obs[k].path != path
    ensures r.Some? ==> r.value < |obs| && obs[r.value].path == path
    ensures r.Some? ==> forall k :: r.value < k < |obs| ==> obs[k].path != path
  {
    if obs == [] then None
    else if obs[|obs| - 1].path == path then Some(|obs| - 1)
    else LastWith(obs[..|obs| - 1], path)
  }

  // ---------------------------------------------------------------------
  // getPlaybackState
  // ---------------------------------------------------------------------

  const DeviceIdPath := "/device/id"
  const VolumePath := "/device/volume_percent"
  const SupportsVolumePath := "/device/supports_volume"
  const ProgressPath := "/progress_ms"
  const IsPlayingPath := "/is_playing"
  const ArtistPath := "/item/artists/name"
  const DurationPath := "/item/duration_ms"
  const TrackNamePath := "/item/name"
  const ImageUrlPath := "/item/album/images/url"

  /** The nine playback fields of the client. */
  datatype Playback = Playback(deviceID: string, isPlaying: bool, trackName: string,
                               artistName: string, imageURL: string, supportsVolume: bool,
                               volume: int, progressMs: int, durationMs: int)

  /** The values the fields are reset to at the start of every request. */
  const Cleared := Playback("", false, "", "", "", false, 0, 0, 0)

  /** The eight fields a single key overwrites. */
  datatype Slot = DeviceIdSlot | VolumeSlot | SupportsVolumeSlot | ProgressSlot
                | IsPlayingSlot | DurationSlot | TrackNameSlot | ImageUrlSlot

  /** What the scan loop does with a key: overwrite a slot, append an
      artist, or nothing. */
  datatype Key = SlotKey(slot: Slot) | ArtistKey | OtherKey

  /** The branch of the loop's `if` chain a path takes, tested in the
      loop's order. */
  function KeyOf(path: string): Key {
    if path == DeviceIdPath then SlotKey(DeviceIdSlot)
    else if path == VolumePath then SlotKey(VolumeSlot)
    else if path == SupportsVolumePath then SlotKey(SupportsVolumeSlot)
    else if path == ProgressPath then SlotKey(ProgressSlot)
    else if path == IsPlayingPath then SlotKey(IsPlayingSlot)
    else if path == ArtistPath then ArtistKey
    else if path == DurationPath then SlotKey(DurationSlot)
    else if path == TrackNamePath then SlotKey(TrackNameSlot)
    else if path == ImageUrlPath then SlotKey(ImageUrlSlot)
    else OtherKey
  }

  function SlotPath(s: Slot): string {
    match s
    case DeviceIdSlot => DeviceIdPath
    case VolumeSlot => VolumePath
    case SupportsVolumeSlot => SupportsVolumePath
    case ProgressSlot => ProgressPath
    case IsPlayingSlot => IsPlayingPath
    case DurationSlot => DurationPath
    case TrackNameSlot => TrackNamePath
    case ImageUrlSlot => ImageUrlPath
  }

  /** Each listed path reaches its own branch: no earlier test catches it. */
  lemma KeyOfSlotPath(s: Slot)
    ensures KeyOf(SlotPath(s)) == SlotKey(s)
  {
    match s
    case DeviceIdSlot =>
    case VolumeSlot =>
    case SupportsVolumeSlot =>
    case ProgressSlot =>
    case IsPlayingSlot =>
    case DurationSlot =>
    case TrackNameSlot =>
    case ImageUrlSlot =>
  }

  lemma KeyOfArtistPath()
    ensures KeyOf(ArtistPath) == ArtistKey
  {
  }

  /** A key is classified by its path and nothing else. */
  lemma KeyOfSlot(path: string, s: Slot)
    ensures KeyOf(path) == SlotKey(s) <==> path == SlotPath(s)
  {
    KeyOfSlotPath(s);
  }

  datatype Value = Text(text: string) | Number(number: int) | Flag(flag: bool)

  function SlotOf(p: Playback, s: Slot): Value {
    match s
    case DeviceIdSlot => Text(p.deviceID)
    case VolumeSlot => Number(p.volume)
    case SupportsVolumeSlot => Flag(p.supportsVolume)
    case ProgressSlot => Number(p.progressMs)
    case IsPlayingSlot => Flag(p.isPlaying)
    case DurationSlot => Number(p.durationMs)
    case TrackNameSlot => Text(p.trackName)
    case ImageUrlSlot => Text(p.imageURL)
  }

  /** The extractor result the client stores in slot `s`: `scanString` for
      the texts, `scanInt` for the numbers, `scanBoolean` for the flags. */
  function Extracted(o: Scanned, s: Slot): Value {
    match s
    case DeviceIdSlot => Text(o.text)
    case VolumeSlot => Number(o.number)
    case SupportsVolumeSlot => Flag(o.flag)
    case ProgressSlot => Number(o.number)
    case IsPlayingSlot => Flag(o.flag)
    case DurationSlot => Number(o.number)
    case TrackNameSlot => Text(o.text)
    case ImageUrlSlot => Text(o.text)
  }

  /** The field of slot `s` set from observation `o`. */
  function SetSlot(p: Playback, s: Slot, o: Scanned): Playback {
    match s
    case DeviceIdSlot => p.(deviceID := o.text)
    case VolumeSlot => p.(volume := o.number)
    case SupportsVolumeSlot => p.(supportsVolume := o.flag)
    case ProgressSlot => p.(progressMs := o.number)
    case IsPlayingSlot => p.(isPlaying := o.flag)
    case DurationSlot => p.(durationMs := o.number)
    case TrackNameSlot => p.(trackName := o.text)
    case ImageUrlSlot => p.(imageURL := o.text)
  }

  /** The artist field after one more artist name. */
  function AppendArtist(artists: string, name: string): string {
    if |artists| > 0 then artists + ", " + name else name
  }

  /** The effect of one observation inside the scan loop. */
  function ApplyPlayback(p: Playback, o: Scanned): Playback {
    match KeyOf(o.path)
    case SlotKey(s) => SetSlot(p, s, o)
    case ArtistKey => p.(artistName := AppendArtist(p.artistName, o.text))
    case OtherKey => p
  }

  /** The whole scan loop, observation by observation. */
  function FoldPlayback(p: Playback, obs: seq<Scanned>): Playback {
    if obs == [] then p else ApplyPlayback(FoldPlayback(p, obs[..|obs| - 1]), obs[|obs| - 1])
  }

  /** One observation overwrites the slot named by its path and no other. */
  lemma ApplySlot(p: Playback, o: Scanned, s: Slot)
    ensures SlotOf(ApplyPlayback(p, o), s) == if o.path == SlotPath(s) then Extracted(o, s) else SlotOf(p, s)
  {
    KeyOfSlot(o.path, s);
    match KeyOf(o.path)
    case SlotKey(t) => SetSlotOf(p, t, o, s);
    case ArtistKey =>
    case OtherKey =>
  }

  lemma SetSlotOf(p: Playback, t: Slot, o: Scanned, s: Slot)
    ensures SlotOf(SetSlot(p, t, o), s) == if t == s then Extracted(o, s) else SlotOf(p, s)
  {
  }

  /** Every playback field but the artists ends up holding the value of the
      last observation of its path, or its starting value when there is none. */
  lemma {:induction false} SlotHoldsLast(p: Playback, obs: seq<Scanned>, s: Slot)
    ensures SlotOf(FoldPlayback(p, obs), s) ==
      match LastWith(obs, SlotPath(s))
      case None => SlotOf(p, s)
      case Some(j) => Extracted(obs[j], s)
  {
    if obs != [] {
      var init := obs[..|obs| - 1];
      SlotHoldsLast(p, init, s);
      ApplySlot(FoldPlayback(p, init), obs[|obs| - 1], s);
      if obs[|obs| - 1].path != SlotPath(s) {
        var r := LastWith(init, SlotPath(s));
        assert LastWith(obs, SlotPath(s)) == r;
        if r.Some? {
          assert obs[r.value] == init[r.value];
        }
      }
    }
  }

  /** The paths the loop acts on. */
  predicate PlaybackKey(path: string) {
    KeyOf(path) != OtherKey
  }

  /** The observations with a path the loop acts on, in order. */
  function PlaybackKeysOnly(obs: seq<Scanned>): (r: seq<Scanned>)
    ensures |r| <= |obs|
    ensures forall i :: 0 <= i < |r| ==> PlaybackKey(r[i].path)
    ensures forall o :: o in r <==> o in obs && PlaybackKey(o.path)
  {
    if obs == [] then []
    else
      assert forall o :: o in obs <==> o in obs[..|obs| - 1] || o == obs[|obs| - 1] by {
        assert obs == obs[..|obs| - 1] + [obs[|obs| - 1]];
      }
      PlaybackKeysOnly(obs[..|obs| - 1]) + if PlaybackKey(obs[|obs| - 1].path) then [obs[|obs| - 1]] else []
  }

  /** Filtering is order-preserving across any split of the response. */
  lemma {:induction false} PlaybackKeysOnlyConcat(a: seq<Scanned>, b: seq<Scanned>)
    ensures PlaybackKeysOnly(a + b) == PlaybackKeysOnly(a) + PlaybackKeysOnly(b)
    decreases |b|
  {
    if b == [] {
      assert a + b == a;
    } else {
      assert (a + b)[..|a + b| - 1] == a + b[..|b| - 1];
      PlaybackKeysOnlyConcat(a, b[..|b| - 1]);
    }
  }

  /** Keys the loop does not list leave every field untouched. */
  lemma {:induction false} UnlistedKeysIgnored(p: Playback, obs: seq<Scanned>)
    ensures FoldPlayback(p, PlaybackKeysOnly(obs)) == FoldPlayback(p, obs)
  {
    if obs != [] {
      var init := obs[..|obs| - 1];
      var last := obs[|obs| - 1];
      UnlistedKeysIgnored(p, init);
      var kept := PlaybackKeysOnly(init);
      if PlaybackKey(last.path) {
        assert PlaybackKeysOnly(obs) == kept + [last];
        assert (kept + [last])[..|kept|] == kept;
      } else {
        assert PlaybackKeysOnly(obs) == kept;
      }
    }
  }

  /** Names joined with ", ", the first one without a separator. */
  function Joined(names: seq<string>): string {
    if names == [] then ""
    else if |names| == 1 then names[0]
    else Joined(names[..|names| - 1]) + ", " + names[|names| - 1]
  }

  /** The names from the first non-empty one on: the loop only starts
      inserting separators once the field is non-empty. */
  function DropLeadingEmpty(names: seq<string>): (r: seq<string>)
    ensures r == [] || r[0] != ""
    ensures |r| <= |names| && r == names[|names| - |r|..]
    ensures forall i :: 0 <= i < |names| - |r| ==> names[i] == ""
  {
    if names == [] || names[0] != "" then names else DropLeadingEmpty(names[1..])
  }

  /** The `/item/artists/name` texts, in document order. */
  function ArtistNames(obs: seq<Scanned>): seq<string> {
    if obs == [] then []
    else ArtistNames(obs[..|obs| - 1]) + if obs[|obs| - 1].path == ArtistPath then [obs[|obs| - 1].text] else []
  }

  lemma {:induction false} JoinedStartsWithFirst(names: seq<string>)
    requires names != []
    ensures |Joined(names)| >= |names[0]|
  {
    if |names| > 1 {
      JoinedStartsWithFirst(names[..|names| - 1]);
    }
  }

  lemma {:induction false} DropLeadingEmptyAppend(names: seq<string>, x: string)
    ensures DropLeadingEmpty(names + [x]) ==
      if DropLeadingEmpty(names) == [] then (if x == "" then [] else [x]) else DropLeadingEmpty(names) + [x]
  {
    if names != [] {
      assert (names + [x])[1..] == names[1..] + [x];
      if names[0] == "" {
        DropLeadingEmptyAppend(names[1..], x);
      }
    }
  }

  /** One more artist name extends the joined text as the loop does. */
  lemma JoinedAppend(names: seq<string>, x: string)
    ensures Joined(DropLeadingEmpty(names + [x])) == AppendArtist(Joined(DropLeadingEmpty(names)), x)
  {
    var d := DropLeadingEmpty(names);
    DropLeadingEmptyAppend(names, x);
    if d == [] {
      JoinedFirst(x);
    } else {
      JoinedMore(d, x);
    }
  }

  lemma JoinedFirst(x: string)
    ensures Joined(if x == "" then [] else [x]) == AppendArtist(Joined([]), x)
  {
  }

  lemma JoinedMore(d: seq<string>, x: string)
    requires d != [] && d[0] != ""
    ensures Joined(d + [x]) == AppendArtist(Joined(d), x)
  {
    JoinedStartsWithFirst(d);
    var e := d + [x];
    assert e[..|e| - 1] == d;
  }

  /** The artist field of one step. */
  lemma ApplyArtist(p: Playback, o: Scanned)
    ensures ApplyPlayback(p, o).artistName ==
      if o.path == ArtistPath then AppendArtist(p.artistName, o.text) else p.artistName
  {
    KeyOfArtistPath();
  }

  /** The artist field is the artist names joined with ", " in document
      order, leading empty names contributing nothing. */
  lemma {:induction false} ArtistsJoined(p: Playback, obs: seq<Scanned>)
    requires p.artistName == ""
    ensures FoldPlayback(p, obs).artistName == Joined(DropLeadingEmpty(ArtistNames(obs)))
  {
    if obs != [] {
      var init := obs[..|obs| - 1];
      var last := obs[|obs| - 1];
      ArtistsJoined(p, init);
      ApplyArtist(FoldPlayback(p, init), last);
      var names := ArtistNames(init);
      if last.path == ArtistPath {
        assert ArtistNames(obs) == names + [last.text];
        JoinedAppend(names, last.text);
      } else {
        assert ArtistNames(obs) == names;
      }
    }
  }

  /** With non-empty names only, the field is the plain ", " join. */
  lemma NonEmptyArtistsJoined(p: Playback, obs: seq<Scanned>)
    requires p.artistName == ""
    requires forall i :: 0 <= i < |obs| && obs[i].path == ArtistPath ==> obs[i].text != ""
    ensures FoldPlayback(p, obs).artistName == Joined(ArtistNames(obs))
  {
    ArtistsJoined(p, obs);
    ArtistNamesNonEmpty(obs);
    DropLeadingEmptyKeeps(ArtistNames(obs));
  }

  lemma DropLeadingEmptyKeeps(names: seq<string>)
    requires forall i :: 0 <= i < |names| ==> names[i] != ""
    ensures DropLeadingEmpty(names) == names
  {
  }

  lemma {:induction false} ArtistNamesNonEmpty(obs: seq<Scanned>)
    requires forall i :: 0 <= i < |obs| && obs[i].path == ArtistPath ==> obs[i].text != ""
    ensures forall i :: 0 <= i < |ArtistNames(obs)| ==> ArtistNames(obs)[i] != ""
  {
    if obs != [] {
      ArtistNamesNonEmpty(obs[..|obs| - 1]);
    }
  }

  // ---------------------------------------------------------------------
  // getDeviceList
  // ---------------------------------------------------------------------

  const DevicesIdPath := "/devices/id"
  const DevicesNamePath := "/devices/name"

  /** The non-empty texts observed under `path`, in document order. */
  function NonEmptyTexts(obs: seq<Scanned>, path: string): (r: seq<string>)
    ensures |r| <= |obs|
    ensures forall i :: 0 <= i < |r| ==> r[i] != ""
  {
    if obs == [] then []
    else
      var last := obs[|obs| - 1];
      NonEmptyTexts(obs[..|obs| - 1], path) + if last.path == path && last.text != "" then [last.text] else []
  }

  /** A text is collected exactly when some observation under `path` holds it
      and it is not empty. */
  lemma {:induction false} NonEmptyTextsMembers(obs: seq<Scanned>, path: string, x: string)
    ensures x in NonEmptyTexts(obs, path) <==>
      x != "" && exists k :: 0 <= k < |obs| && obs[k].path == path && obs[k].text == x
  {
    if obs != [] {
      var init := obs[..|obs| - 1];
      NonEmptyTextsMembers(init, path, x);
      if exists k :: 0 <= k < |init| && init[k].path == path && init[k].text == x {
        var k :| 0 <= k < |init| && init[k].path == path && init[k].text == x;
        assert obs[k] == init[k];
      }
      if exists k :: 0 <= k < |obs| && obs[k].path == path && obs[k].text == x {
        var k :| 0 <= k < |obs| && obs[k].path == path && obs[k].text == x;
        if k < |init| {
          assert init[k] == obs[k];
        }
      }
    }
  }

  /** Collecting is order-preserving across any split of the response. */
  lemma {:induction false} NonEmptyTextsConcat(a: seq<Scanned>, b: seq<Scanned>, path: string)
    ensures NonEmptyTexts(a + b, path) == NonEmptyTexts(a, path) + NonEmptyTexts(b, path)
    decreases |b|
  {
    if b == [] {
      assert a + b == a;
    } else {
      assert (a + b)[..|a + b| - 1] == a + b[..|b| - 1];
      NonEmptyTextsConcat(a, b[..|b| - 1], path);
    }
  }

  /** An id with an empty name: the two lists end up of different length. */
  lemma DeviceListsCanDiffer()
    ensures var obs := [Scanned(DevicesIdPath, "d1", 0, false), Scanned(DevicesNamePath, "", 0, false)];
            |NonEmptyTexts(obs, DevicesIdPath)| == 1 && |NonEmptyTexts(obs, DevicesNamePath)| == 0
  {
    var obs := [Scanned(DevicesIdPath, "d1", 0, false), Scanned(DevicesNamePath, "", 0, false)];
    assert obs[..1] == [obs[0]];
    assert obs[..1][..0] == [];
  }

  // ---------------------------------------------------------------------
  // requestAccessToken / refreshAccessToken
  // ---------------------------------------------------------------------

  const AccessTokenPath := "/access_token"
  const RefreshTokenPath := "/refresh_token"

  datatype Tokens = Tokens(access: string, refresh: string)

  function ApplyToken(t: Tokens, o: Scanned): Tokens {
    if o.path == AccessTokenPath then t.(access := o.text)
    else if o.path == RefreshTokenPath then t.(refresh := o.text)
    else t
  }

  function FoldTokens(t: Tokens, obs: seq<Scanned>): Tokens {
    if obs == [] then t else ApplyToken(FoldTokens(t, obs[..|obs| - 1]), obs[|obs| - 1])
  }

  /** Each token is the text of the last observation of its key, or is kept
      when the key does not appear. */
  lemma {:induction false} TokensHoldLast(t: Tokens, obs: seq<Scanned>)
    ensures FoldTokens(t, obs).access ==
      match LastWith(obs, AccessTokenPath) case None => t.access case Some(j) => obs[j].text
    ensures FoldTokens(t, obs).refresh ==
      match LastWith(obs, RefreshTokenPath) case None => t.refresh case Some(j) => obs[j].text
  {
    if obs != [] {
      var init := obs[..|obs| - 1];
      TokensHoldLast(t, init);
      var ra := LastWith(init, AccessTokenPath);
      var rr := LastWith(init, RefreshTokenPath);
      if ra.Some? {
        assert obs[ra.value] == init[ra.value];
      }
      if rr.Some? {
        assert obs[rr.value] == init[rr.value];
      }
    }
  }

  // ---------------------------------------------------------------------
  // The client
  // ---------------------------------------------------------------------

  const HttpOk := 200
  const HttpUnauthorized := 401

  class SPClient {
    var codeVerifier: string
    var authState: string
    var accessToken: string
    var refreshToken: string
    var needsRefresh: bool
    var deviceIDs: seq<string>
    var deviceNames: seq<string>
    var deviceID: string
    var isPlaying: bool
    var trackName: string
    var artistName: string
    var imageURL: string
    var supportsVolume: bool
    var volume: int
    var progressMs: int
    var durationMs: int

    /** The firmware's client is a global, so its scalar members are
        zero-initialised before the empty constructor body runs; the
        `String` and vector members start empty. */
    constructor ()
      ensures codeVerifier == "" && authState == "" && accessToken == "" && refreshToken == ""
      ensures deviceIDs == [] && deviceNames == []
      ensures PlaybackFields() == Cleared && !needsRefresh
    {
      needsRefresh := false;
      isPlaying := false;
      supportsVolume := false;
      volume := 0;
      progressMs := 0;
      durationMs := 0;
      codeVerifier := "";
      authState := "";
      accessToken := "";
      refreshToken := "";
      deviceIDs := [];
      deviceNames := [];
      deviceID := "";
      trackName := "";
      artistName := "";
      imageURL := "";
    }

    function PlaybackFields(): Playback
      reads this
    {
      Playback(deviceID, isPlaying, trackName, artistName, imageURL, supportsVolume,
               volume, progressMs, durationMs)
    }

    function TokenFields(): Tokens
      reads this
    {
      Tokens(accessToken, refreshToken)
    }

    /** `authURLString`: fresh verifier and state, and the authorization URL.
        `urlEncode` and `digestBase64` stand for the library calls. */
    method AuthURLString(clientID: string, urlEncode: string -> string,
                         digestBase64: string -> seq<char>) returns (url: string)
      modifies this`codeVerifier, this`authState
      ensures |codeVerifier| == 64 && ValidCodeVerifier(codeVerifier)
      ensures |authState| == 64 && forall i :: 0 <= i < |authState| ==> Alphanumeric(authState[i])
      ensures url == "https://accounts.spotify.com/authorize"
                     + "?client_id=" + urlEncode(clientID)
                     + "&response_type=code"
                     + "&redirect_uri=" + urlEncode("http://dialplayredirect.local/authredirected")
                     + "&state=" + urlEncode(authState)
                     + "&scope=user-read-playback-state%20user-modify-playback-state"
                     + "&code_challenge_method=S256"
                     + "&code_challenge=" + Base64Url(CString(digestBase64(codeVerifier)))
    {
      url := "https://accounts.spotify.com/authorize";
      codeVerifier := RandomString64();
      authState := RandomString64();
      url := url + "?client_id=" + urlEncode(clientID);
      url := url + "&response_type=code";
      url := url + "&redirect_uri=" + urlEncode("http://dialplayredirect.local/authredirected");
      url := url + "&state=" + urlEncode(authState);
      url := url + "&scope=user-read-playback-state%20user-modify-playback-state";
      url := url + "&code_challenge_method=S256";
      var challenge := SHA256HashInBase64(codeVerifier, digestBase64);
      url := url + "&code_challenge=" + challenge;
    }

    /** The scan loop shared by both token endpoints. */
    method ScanTokens(obs: seq<Scanned>)
      modifies this`accessToken, this`refreshToken
      ensures TokenFields() == FoldTokens(old(TokenFields()), obs)
    {
      var start := TokenFields();
      var i := 0;
      while i < |obs|
        invariant 0 <= i <= |obs|
        invariant TokenFields() == FoldTokens(start, obs[..i])
      {
        var o := obs[i];
        if o.path == AccessTokenPath {
          accessToken := o.text;
        } else if o.path == RefreshTokenPath {
          refreshToken := o.text;
        }
        assert obs[..i + 1][..i] == obs[..i];
        i := i + 1;
      }
      assert obs[..|obs|] == obs;
    }

    /** `requestAccessToken`: on 200 the tokens come from the response and
        `needsRefresh` is cleared; any other status changes nothing. */
    method RequestAccessToken(status: int, obs: seq<Scanned>) returns (result: int)
      modifies this`accessToken, this`refreshToken, this`needsRefresh
      ensures result == status
      ensures status == HttpOk ==> TokenFields() == FoldTokens(old(TokenFields()), obs) && !needsRefresh
      ensures status != HttpOk ==> TokenFields() == old(TokenFields()) && needsRefresh == old(needsRefresh)
    {
      result := status;
      if result == HttpOk {
        ScanTokens(obs);
        needsRefresh := false;
      }
    }

    /** `refreshAccessToken`: nothing happens without a refresh token; on
        200 the access token is cleared before the response is scanned. */
    method RefreshAccessToken(status: int, obs: seq<Scanned>) returns (result: int)
      modifies this`accessToken, this`refreshToken, this`needsRefresh
      ensures old(refreshToken) == "" ==>
        result == 0 && TokenFields() == old(TokenFields()) && needsRefresh == old(needsRefresh)
      ensures old(refreshToken) != "" ==> result == status
      ensures old(refreshToken) != "" && status == HttpOk ==>
        TokenFields() == FoldTokens(Tokens("", old(refreshToken)), obs) && !needsRefresh
      ensures old(refreshToken) != "" && status != HttpOk ==>
        TokenFields() == old(TokenFields()) && needsRefresh == old(needsRefresh)
    {
      if refreshToken == "" {
        return 0;
      }
      result := status;
      if result == HttpOk {
        accessToken := "";
        ScanTokens(obs);
        needsRefresh := false;
      }
    }

    /** One pass of the scan loop of `getPlaybackState`: the value read for
        a listed key goes to its field; artist names are appended. */
    method StorePlaybackValue(o: Scanned)
      modifies this`deviceID, this`artistName, this`trackName, this`imageURL, this`durationMs,
               this`progressMs, this`volume, this`supportsVolume, this`isPlaying
      ensures PlaybackFields() == ApplyPlayback(old(PlaybackFields()), o)
    {
      if o.path == DeviceIdPath {
        deviceID := o.text;
      } else if o.path == VolumePath {
        volume := o.number;
      } else if o.path == SupportsVolumePath {
        supportsVolume := o.flag;
      } else if o.path == ProgressPath {
        progressMs := o.number;
      } else if o.path == IsPlayingPath {
        isPlaying := o.flag;
      } else if o.path == ArtistPath {
        if |artistName| > 0 {
          artistName := artistName + ", " + o.text;
        } else {
          artistName := o.text;
        }
      } else if o.path == DurationPath {
        durationMs := o.number;
      } else if o.path == TrackNamePath {
        trackName := o.text;
      } else if o.path == ImageUrlPath {
        imageURL := o.text;
      }
    }

    /** `getPlaybackState`: the nine fields are reset, then filled from a
        200 response; an empty access token returns 0 without a request. */
    method GetPlaybackState(status: int, obs: seq<Scanned>) returns (result: int)
      modifies this`deviceID, this`artistName, this`trackName, this`imageURL, this`durationMs,
               this`progressMs, this`volume, this`supportsVolume, this`isPlaying, this`needsRefresh
      ensures accessToken == "" ==>
        result == 0 && PlaybackFields() == Cleared && needsRefresh == old(needsRefresh)
      ensures accessToken != "" ==> result == status
      ensures accessToken != "" ==>
        PlaybackFields() == (if status == HttpOk then FoldPlayback(Cleared, obs) else Cleared)
      ensures accessToken != "" ==> needsRefresh == (old(needsRefresh) || status == HttpUnauthorized)
    {
      deviceID := "";
      artistName := "";
      trackName := "";
      imageURL := "";
      durationMs := 0;
      progressMs := 0;
      volume := 0;
      supportsVolume := false;
      isPlaying := false;
      if |accessToken| == 0 {
        return 0;
      }
      result := status;
      if result == HttpOk {
        ScanPlayback(obs);
      }
      if result == HttpUnauthorized {
        needsRefresh := true;
      }
    }

    /** The scan loop of `getPlaybackState`. */
    method ScanPlayback(obs: seq<Scanned>)
      modifies this`deviceID, this`artistName, this`trackName, this`imageURL, this`durationMs,
               this`progressMs, this`volume, this`supportsVolume, this`isPlaying
      ensures PlaybackFields() == FoldPlayback(old(PlaybackFields()), obs)
    {
      var start := PlaybackFields();
      var i := 0;
      while i < |obs|
        invariant 0 <= i <= |obs|
        invariant PlaybackFields() == FoldPlayback(start, obs[..i])
      {
        StorePlaybackValue(obs[i]);
        assert obs[..i + 1][..i] == obs[..i];
        i := i + 1;
      }
      assert obs[..|obs|] == obs;
    }

    /** `getDeviceList`: both lists are cleared, then a 200 response appends
        every non-empty id and name in document order. */
    method GetDeviceList(status: int, obs: seq<Scanned>) returns (result: int)
      modifies this`deviceIDs, this`deviceNames, this`needsRefresh
      ensures result == status
      ensures deviceIDs == (if status == HttpOk then NonEmptyTexts(obs, DevicesIdPath) else [])
      ensures deviceNames == (if status == HttpOk then NonEmptyTexts(obs, DevicesNamePath) else [])
      ensures needsRefresh == (old(needsRefresh) || status == HttpUnauthorized)
    {
      deviceIDs := [];
      deviceNames := [];
      result := status;
      if result == HttpOk {
        var i := 0;
        while i < |obs|
          invariant 0 <= i <= |obs|
          invariant deviceIDs == NonEmptyTexts(obs[..i], DevicesIdPath)
          invariant deviceNames == NonEmptyTexts(obs[..i], DevicesNamePath)
          invariant needsRefresh == old(needsRefresh)
        {
          var o := obs[i];
          if o.path == DevicesIdPath {
            if o.text != "" {
              deviceIDs := deviceIDs + [o.text];
            }
          } else if o.path == DevicesNamePath {
            if o.text != "" {
              deviceNames := deviceNames + [o.text];
            }
          }
          assert obs[..i + 1][..i] == obs[..i];
          i := i + 1;
        }
        assert obs[..|obs|] == obs;
      }
      if result == HttpUnauthorized {
        needsRefresh := true;
      }
    }

    /** `sendPutCommand` and `sendPostCommand`: the status is returned and a
        401 marks the token for refresh. */
    method SendCommand(status: int) returns (result: int)
      modifies this`needsRefresh
      ensures result == status
      ensures needsRefresh == (old(needsRefresh) || status == HttpUnauthorized)
    {
      result := status;
      if result == HttpUnauthorized {
        needsRefresh := true;
      }
    }
  }
}
