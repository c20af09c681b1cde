/** The integer and string logic of the firmware's main loop: the volume
    dial, the device list dial, the auto-refresh deadline, and the Wi-Fi
    form's option list.  Encoder positions and `millis()` readings are
    parameters; drawing, sound and the web server are not modelled. */
module DialPlay {
  import opened ArduinoString
  import opened Spotify
  import opened WiFiForm

  // ---------------------------------------------------------------------
  // Clamping and the volume dial
  // ---------------------------------------------------------------------

  /** `v` pulled back into `[lo, hi]`. */
  function Clamp(v: int, lo: int, hi: int): (r: int)
    requires lo <= hi
    ensures lo <= r <= hi
    ensures lo <= v <= hi ==> r == v
  {
    if v < lo then lo else if v > hi then hi else v
  }

  /** Clamping picks the point of the range nearest to `v`. */
  lemma ClampNearest(v: int, lo: int, hi: int, x: int)
    requires lo <= x <= hi
    ensures var r := Clamp(v, lo, hi);
            (if r <= v then v - r else r - v) <= (if x <= v then v - x else x - v)
  {
  }

  const MaxVolume := 100

  /** The volume shown after the dial moved by `delta` detents. */
  function VolumeAfterTurn(volume: int, delta: int): (r: int)
    ensures 0 <= r <= MaxVolume
    ensures 0 <= volume + delta <= MaxVolume ==> r == volume + delta
  {
    Clamp(volume + delta, 0, MaxVolume)
  }

  /** Turning further in a direction never moves the volume back. */
  lemma VolumeMonotone(volume: int, d1: int, d2: int)
    requires d1 <= d2
    ensures VolumeAfterTurn(volume, d1) <= VolumeAfterTurn(volume, d2)
  {
  }

  // ---------------------------------------------------------------------
  // The 32-bit millisecond clock
  // ---------------------------------------------------------------------

  /** `millis()` is an `unsigned long`: 32 bits, wrapping after about 49.7 days. */
  const Wrap := 0x1_0000_0000

  predicate IsMillis(t: int) {
    0 <= t < Wrap
  }

  /** `millis() - since` computed in unsigned 32-bit arithmetic. */
  function Elapsed(now: int, since: int): (r: int)
    ensures IsMillis(r)
  {
    (now - since) % Wrap
  }

  /** The unsigned difference counts the milliseconds that passed, across a
      wrap of the clock too, as long as fewer than 2^32 passed. */
  lemma ElapsedCounts(since: int, e: int)
    requires IsMillis(since) && 0 <= e < Wrap
    ensures Elapsed((since + e) % Wrap, since) == e
  {
    if since + e >= Wrap {
      assert (since + e) % Wrap == since + e - Wrap;
      assert ((since + e - Wrap) - since) % Wrap == (e - Wrap) % Wrap;
    }
  }

  /** The volume request waits until the dial has rested over a second and
      the dialled volume differs from the player's. */
  predicate VolumeDue(now: int, since: int, dialled: int, current: int) {
    Elapsed(now, since) > 1000 && dialled != current
  }

  lemma VolumeWaitsOneSecond(since: int, e: int, dialled: int, current: int)
    requires IsMillis(since) && 0 <= e < Wrap
    ensures VolumeDue((since + e) % Wrap, since, dialled, current) <==> e > 1000 && dialled != current
  {
    ElapsedCounts(since, e);
  }

  // ---------------------------------------------------------------------
  // The auto-refresh deadline
  // ---------------------------------------------------------------------

  /** `millis() + (duration_ms - progress_ms) + 100` stored in `refreshMillis`:
      the sum wraps like the clock. */
  function Deadline(now: int, durationMs: int, progressMs: int): (r: int)
    ensures IsMillis(r)
    ensures (r - now - (durationMs - progressMs + 100)) % Wrap == 0
  {
    (now + (durationMs - progressMs) + 100) % Wrap
  }

  /** The auto-redraw test as written, `refreshMillis != 0 && refreshMillis
      < millis()`: a plain comparison of two 32-bit values. */
  predicate RefreshDueAsWritten(refresh: int, now: int) {
    refresh != 0 && refresh < now
  }

  /** A deadline computed shortly before the clock wraps lands just past
      zero, and the comparison fires at once although none of the wait has
      passed. */
  lemma AsWrittenRefreshEarly(start: int, wait: int)
    requires start == Wrap - 50 && wait == 1100
    ensures IsMillis(start) && 0 <= wait < Wrap / 2
    ensures RefreshDueAsWritten(Deadline(start, wait - 100, 0), start)
    ensures Elapsed(start, start) == 0 < wait
  {
    assert Deadline(start, wait - 100, 0) == 1050;
  }

  /** As long as neither the deadline nor the clock has wrapped since the
      deadline was armed, the comparison as written fires exactly when the
      wait has passed, and agrees with the signed test below. */
  lemma AsWrittenAgreesWithoutWrap(start: int, wait: int, e: int)
    requires IsMillis(start) && 0 <= wait < Wrap / 2 && 0 <= e < wait + Wrap / 2
    requires start + wait < Wrap && start + e < Wrap
    requires Deadline(start, wait - 100, 0) != 0
    ensures RefreshDueAsWritten(Deadline(start, wait - 100, 0), (start + e) % Wrap) <==> e > wait
    ensures RefreshDueAsWritten(Deadline(start, wait - 100, 0), (start + e) % Wrap)
            == RefreshDue(Deadline(start, wait - 100, 0), (start + e) % Wrap)
  {
    assert Deadline(start, wait - 100, 0) == start + wait;
    assert (start + e) % Wrap == start + e;
    RefreshDueOnTime(start, wait, e);
  }

  /** The auto-redraw test on a difference that survives the wrap: the
      unsigned difference `millis() - refreshMillis`, the one the volume
      timer takes, read as a signed 32-bit value and due once positive. */
  predicate RefreshDue(refresh: int, now: int) {
    refresh != 0 && 0 < Elapsed(now, refresh) < Wrap / 2
  }

  /** With the signed difference the redraw comes exactly when the wait has
      passed, across a wrap of the clock too (for waits below 2^31 ms and a
      deadline that is not the "no refresh" value 0). */
  lemma RefreshDueOnTime(start: int, wait: int, e: int)
    requires IsMillis(start) && 0 <= wait < Wrap / 2 && 0 <= e < wait + Wrap / 2
    requires Deadline(start, wait - 100, 0) != 0
    ensures RefreshDue(Deadline(start, wait - 100, 0), (start + e) % Wrap) <==> e > wait
  {
    var d := Deadline(start, wait - 100, 0);
    var now := (start + e) % Wrap;
    assert d == (start + wait) % Wrap;
    assert Elapsed(now, d) == (e - wait) % Wrap by {
      assert (now - d) - (e - wait) == (now - (start + e)) - (d - (start + wait));
      ModSameClass(now - d, e - wait);
    }
    if e > wait {
      assert (e - wait) % Wrap == e - wait;
    } else if e < wait {
      assert (e - wait) % Wrap == e - wait + Wrap;
    }
  }

  /** Numbers that differ by a multiple of `Wrap` leave the same remainder. */
  lemma ModSameClass(a: int, b: int)
    requires (a - b) % Wrap == 0
    ensures a % Wrap == b % Wrap
  {
    var k := (a - b) / Wrap;
    assert a == b + k * Wrap;
    ModShift(b, k);
  }

  lemma {:induction false} ModShift(b: int, k: int)
    ensures (b + k * Wrap) % Wrap == b % Wrap
    decreases if k < 0 then -k else k
  {
    if k > 0 {
      ModShift(b, k - 1);
      assert b + k * Wrap == (b + (k - 1) * Wrap) + Wrap;
    } else if k < 0 {
      ModShift(b, k + 1);
      assert b + k * Wrap == (b + (k + 1) * Wrap) - Wrap;
    }
  }

  // ---------------------------------------------------------------------
  // The device list dial
  // ---------------------------------------------------------------------

  /** C++ integer division, which truncates toward zero (Dafny's `/` rounds
      toward minus infinity for a positive divisor). */
  function TruncDiv(a: int, b: int): (q: int)
    requires b > 0
    ensures a >= 0 ==> 0 <= a - q * b < b
    ensures a < 0 ==> -b < a - q * b <= 0
  {
    if a >= 0 then a / b else -((-a) / b)
  }

  /** Three encoder steps back move the device index by nothing in C++, not by one. */
  lemma TruncDivTowardZero(a: int)
    requires a == -3
    ensures TruncDiv(a, 4) == 0 && a / 4 == -1
  {
  }

  /** The device index after the dial moved by `delta` encoder steps (four
      per detent), clamped below at 0 and then above at the last entry.
      The upper test compares against the `size_t` list length, so with an
      empty list the index becomes `size() - 1` read back as an `int`: -1. */
  function StepIndex(index: int, delta: int, size: nat): (r: int)
    ensures size > 0 ==> 0 <= r < size
    ensures size == 0 ==> r == -1
    ensures 0 <= index + TruncDiv(delta, 4) < size ==> r == index + TruncDiv(delta, 4)
  {
    var moved := index + TruncDiv(delta, 4);
    var low := if moved < 0 then 0 else moved;
    if low >= size then size - 1 else low
  }

  /** The device list dial reacts only to a changed position that sits on a
      detent.  C++ `%` keeps the sign of the dividend, but it is zero
      exactly when Dafny's is. */
  predicate OnNewDetent(newPosition: int, oldPosition: int) {
    newPosition != oldPosition && newPosition % 4 == 0
  }

  /** The last index holding `id`, or `start` when none does. */
  function LastMatch(ids: seq<string>, id: string, start: int): (r: int)
    ensures id in ids ==> 0 <= r < |ids| && ids[r] == id && forall j :: r < j < |ids| ==> ids[j] != id
    ensures id !in ids ==> r == start
  {
    if ids == [] then start
    else if ids[|ids| - 1] == id then |ids| - 1
    else
      assert forall x :: x in ids[..|ids| - 1] ==> x in ids;
      assert id in ids ==> id in ids[..|ids| - 1];
      LastMatch(ids[..|ids| - 1], id, start)
  }

  // ---------------------------------------------------------------------
  // The rows of the device screen
  // ---------------------------------------------------------------------

  const ScreenHeight := 240
  const RowHeight := 30

  /** The vertical position of line `i` when `selected` is centred. */
  function RowY(i: int, selected: int): int {
    (i - selected) * RowHeight + ScreenHeight / 2
  }

  predicate OnScreen(i: int, selected: int) {
    0 < RowY(i, selected) < ScreenHeight
  }

  /** A line is drawn exactly when it lies at most three lines from the
      selected one. */
  lemma OnScreenWindow(i: int, selected: int)
    ensures OnScreen(i, selected) <==> -3 <= i - selected <= 3
  {
  }

  datatype Row = Row(line: nat, y: int, highlighted: bool)

  /** The rows of the device screen for a list of `count` devices: none when
      `selected` lies outside the list, otherwise exactly the lines on
      screen, in order, each at its height and highlighted when selected. */
  predicate DeviceRows(rows: seq<Row>, count: nat, selected: int) {
    (!(0 <= selected < count) ==> rows == [])
    && (0 <= selected < count ==>
          forall i :: 0 <= i < count ==> (OnScreen(i, selected) <==> exists k :: 0 <= k < |rows| && rows[k].line == i))
    && (forall k :: 0 <= k < |rows| ==>
          rows[k].line < count && OnScreen(rows[k].line, selected)
          && rows[k].y == RowY(rows[k].line, selected) && rows[k].highlighted == (rows[k].line == selected))
    && (forall k, m :: 0 <= k < m < |rows| ==> rows[k].line < rows[m].line)
  }

  // ---------------------------------------------------------------------
  // The Wi-Fi form's option list
  // ---------------------------------------------------------------------

  const OptionOpen := "<option>"
  const OptionValueOpen := "<option value=\""
  const OptionValueEnd := "\">"
  const OptionClose := "</option>\n"

  /** One `<option>` element holding a network name escaped character by
      character with `escape`. */
  function OptionItemWith(ssid: string, escape: char -> string): string {
    OptionOpen + MapChars(ssid, escape) + OptionClose
  }

  /** The option elements of all names, in order. */
  function OptionListWith(ssids: seq<string>, escape: char -> string): string {
    if ssids == [] then [] else OptionItemWith(ssids[0], escape) + OptionListWith(ssids[1..], escape)
  }

  /** The option list the firmware sends: each name passed through
      `htmlEscapedString`. */
  function OptionList(ssids: seq<string>): string {
    OptionListWith(ssids, EscapeAsWritten)
  }

  /** The option list with the `&`-first escape. */
  function OptionListAmpersandFirst(ssids: seq<string>): string {
    OptionListWith(ssids, EntityOf)
  }

  lemma {:induction false} OptionListAppend(ssids: seq<string>, x: string, escape: char -> string)
    ensures OptionListWith(ssids + [x], escape) == OptionListWith(ssids, escape) + OptionItemWith(x, escape)
  {
    if ssids == [] {
      assert ([] + [x])[1..] == [];
    } else {
      assert (ssids + [x])[1..] == ssids[1..] + [x];
      OptionListAppend(ssids[1..], x, escape);
    }
  }

  /** How a browser reads an option list back, as the values the `SSID`
      select can post: for an `<option>` with a `value` attribute the
      decoded attribute, otherwise the value of its text; `None` for
      anything else. */
  function ParseOptions(s: string): Option<seq<string>>
    decreases |s|
  {
    if s == [] then Some([])
    else if StartsWith(s, OptionOpen) then
      var rest := s[|OptionOpen|..];
      var k := IndexOfFrom(rest, '<', 0);
      if k < 0 || !StartsWith(rest[k..], OptionClose) then None
      else match ParseOptions(rest[k + |OptionClose|..])
        case None => None
        case Some(more) => Some([TextValue(rest[..k])] + more)
    else if StartsWith(s, OptionValueOpen) then
      var rest := s[|OptionValueOpen|..];
      var q := IndexOfFrom(rest, '"', 0);
      if q < 0 || !StartsWith(rest[q..], OptionValueEnd) then None
      else
        var text := rest[q + |OptionValueEnd|..];
        var k := IndexOfFrom(text, '<', 0);
        if k < 0 || !StartsWith(text[k..], OptionClose) then None
        else match ParseOptions(text[k + |OptionClose|..])
          case None => None
          case Some(more) => Some([Unescape(rest[..q])] + more)
    else None
  }

  /** A browser reads one option element as the value of the escaped name. */
  lemma ParseOptionItem(x: string, t: string, escape: char -> string)
    requires EscapesSpecials(escape)
    ensures ParseOptions(OptionItemWith(x, escape) + t) ==
      match ParseOptions(t)
      case None => None
      case Some(more) => Some([TextValue(MapChars(x, escape))] + more)
  {
    var esc := MapChars(x, escape);
    var s := OptionItemWith(x, escape) + t;
    assert s == OptionOpen + (esc + OptionClose + t);
    assert s[..|OptionOpen|] == OptionOpen;
    var rest := s[|OptionOpen|..];
    assert rest == esc + OptionClose + t;
    EscapingIsSafe(x, escape);
    assert rest == esc + (OptionClose + t);
    assert (OptionClose + t)[0] == '<';
    FirstMarker(esc, OptionClose + t, '<');
    var k := IndexOfFrom(rest, '<', 0);
    assert rest[k..] == OptionClose + t;
    assert rest[k..][..|OptionClose|] == OptionClose;
    assert rest[..k] == esc;
    assert rest[k + |OptionClose|..] == t;
  }

  /** A browser reads one name per option element: the value of the
      escaped name at the same position. */
  lemma {:induction false} OptionListReadBack(ssids: seq<string>, escape: char -> string)
    requires EscapesSpecials(escape)
    ensures ParseOptions(OptionListWith(ssids, escape)).Some?
    ensures var names := ParseOptions(OptionListWith(ssids, escape)).value;
            |names| == |ssids|
            && forall i :: 0 <= i < |ssids| ==> names[i] == TextValue(MapChars(ssids[i], escape))
  {
    if ssids != [] {
      OptionListReadBack(ssids[1..], escape);
      ParseOptionItem(ssids[0], OptionListWith(ssids[1..], escape), escape);
    }
  }

  /** In text without `c` followed by text starting with `c`, the first `c`
      is the second text's. */
  lemma FirstMarker(esc: string, u: string, c: char)
    requires forall i :: 0 <= i < |esc| ==> esc[i] != c
    requires u != [] && u[0] == c
    ensures IndexOfFrom(esc + u, c, 0) == |esc|
  {
    var s := esc + u;
    assert forall i :: 0 <= i < |esc| ==> s[i] == esc[i];
    assert s[|esc|] == c;
  }

  /** The firmware's form offers every scanned network under its own name
      exactly when no name holds `<`, `>` or white space. */
  lemma OptionListRoundTrip(ssids: seq<string>)
    ensures ParseOptions(OptionList(ssids)) == Some(ssids) <==>
      forall i :: 0 <= i < |ssids| ==> '<' !in ssids[i] && '>' !in ssids[i] && NoWhitespace(ssids[i])
  {
    AsWrittenEscapesSpecials();
    OptionListReadBack(ssids, EscapeAsWritten);
    var names := ParseOptions(OptionList(ssids)).value;
    forall i | 0 <= i < |ssids|
      ensures names[i] == ssids[i] <==> '<' !in ssids[i] && '>' !in ssids[i] && NoWhitespace(ssids[i])
    {
      AsWrittenRoundTrip(ssids[i]);
    }
    if forall i :: 0 <= i < |ssids| ==> '<' !in ssids[i] && '>' !in ssids[i] && NoWhitespace(ssids[i]) {
      assert names == ssids;
    }
  }

  /** Two different scans can give the same form: the network `<` and the
      network `&lt;` are offered alike, and both are read back as `&lt;`. */
  lemma AsWrittenFormsCollide(a: seq<string>, b: seq<string>)
    requires a == ["<"] && b == [Lt]
    ensures a != b
    ensures OptionList(a) == OptionList(b)
    ensures ParseOptions(OptionList(a)) == Some(b)
  {
    AsWrittenCollides("<", Lt);
    SingleFormsCollide("<", Lt);
  }

  lemma SingleFormsCollide(x: string, y: string)
    requires MapChars(x, EscapeAsWritten) == MapChars(y, EscapeAsWritten)
    requires TextValue(MapChars(x, EscapeAsWritten)) == y
    ensures OptionList([x]) == OptionList([y])
    ensures ParseOptions(OptionList([x])) == Some([y])
  {
    OptionListSingle(x, EscapeAsWritten);
    OptionListSingle(y, EscapeAsWritten);
    AsWrittenEscapesSpecials();
    OptionListReadBack([x], EscapeAsWritten);
    var names := ParseOptions(OptionList([x])).value;
    assert names[0] == y;
    assert names == [y];
  }

  lemma OptionListSingle(x: string, escape: char -> string)
    ensures OptionListWith([x], escape) == OptionItemWith(x, escape)
  {
    assert [x][1..] == [];
  }

  /** Changing the order of the passes does not help a name with white
      space: with the `&`-first escape too, the list reads back as the
      scanned names exactly when none holds white space. */
  lemma AmpersandFirstOptionListRoundTrip(ssids: seq<string>)
    ensures ParseOptions(OptionListAmpersandFirst(ssids)) == Some(ssids) <==>
      forall i :: 0 <= i < |ssids| ==> NoWhitespace(ssids[i])
  {
    EntityOfEscapesSpecials();
    OptionListReadBack(ssids, EntityOf);
    var names := ParseOptions(OptionListAmpersandFirst(ssids)).value;
    forall i | 0 <= i < |ssids|
      ensures names[i] == ssids[i] <==> NoWhitespace(ssids[i])
    {
      AmpersandFirstRoundTrip(ssids[i]);
    }
    if forall i :: 0 <= i < |ssids| ==> NoWhitespace(ssids[i]) {
      assert names == ssids;
    }
  }

  /** A network with a space in its name, such as `Home WiFi`, is posted
      back with a no-break space in its place, whichever order the passes
      run in. */
  lemma SpacedNamePostedBack(a: string, b: string)
    requires forall i :: 0 <= i < |a| ==> a[i] != '<' && a[i] != '>' && !AsciiWhitespace(a[i])
    requires forall i :: 0 <= i < |b| ==> b[i] != '<' && b[i] != '>' && !AsciiWhitespace(b[i])
    ensures a + " " + b != a + [NoBreakSpace] + b
    ensures ParseOptions(OptionList([a + " " + b])) == Some([a + [NoBreakSpace] + b])
    ensures ParseOptions(OptionListAmpersandFirst([a + " " + b])) == Some([a + [NoBreakSpace] + b])
  {
    var x, y := a + " " + b, a + [NoBreakSpace] + b;
    assert x[|a|] != y[|a|];
    PlainWord(a);
    PlainWord(b);
    KeptAroundSpace(a, b, ShownAs);
    KeptAroundSpace(a, b, ShownEntity);
    NoWhitespaceAround(a, b);
    CollapseKeeps(y, false);
    AsWrittenDecoding(x);
    AmpersandFirstDecoding(x);
    AsWrittenEscapesSpecials();
    EntityOfEscapesSpecials();
    ReadBackSingle(x, y, EscapeAsWritten);
    ReadBackSingle(x, y, EntityOf);
  }

  lemma ReadBackSingle(x: string, y: string, escape: char -> string)
    requires EscapesSpecials(escape)
    requires TextValue(MapChars(x, escape)) == y
    ensures ParseOptions(OptionListWith([x], escape)) == Some([y])
  {
    OptionListReadBack([x], escape);
    var names := ParseOptions(OptionListWith([x], escape)).value;
    assert names == [names[0]];
  }

  lemma PlainWord(a: string)
    requires forall i :: 0 <= i < |a| ==> a[i] != '<' && a[i] != '>' && !AsciiWhitespace(a[i])
    ensures MapChars(a, ShownAs) == a && MapChars(a, ShownEntity) == a && NoWhitespace(a)
  {
    ShownAsKeeps(a);
    ShownEntityKeeps(a);
    assert '<' !in a && '>' !in a && ' ' !in a;
  }

  /** A map that keeps two words and shows the space as a no-break space
      shows them joined by a no-break space. */
  lemma KeptAroundSpace(a: string, b: string, f: char -> string)
    requires MapChars(a, f) == a && MapChars(b, f) == b && f(' ') == [NoBreakSpace]
    ensures MapChars(a + " " + b, f) == a + [NoBreakSpace] + b
  {
    assert a + " " + b == a + (" " + b);
    assert (" " + b)[1..] == b;
    MapCharsConcat(a, " " + b, f);
  }

  lemma NoWhitespaceAround(a: string, b: string)
    requires NoWhitespace(a) && NoWhitespace(b)
    ensures NoWhitespace(a + [NoBreakSpace] + b)
  {
    var y := a + [NoBreakSpace] + b;
    forall i | 0 <= i < |y|
      ensures !AsciiWhitespace(y[i])
    {
      if i < |a| {
        assert y[i] == a[i];
      } else if i > |a| {
        assert y[i] == b[i - |a| - 1];
      }
    }
  }

  /** One `<option>` whose `value` attribute holds the name escaped for an
      attribute, with the `&`-first escape of the name as its text. */
  function ValueOptionItem(ssid: string): string {
    OptionValueOpen + MapChars(ssid, AttributeEscape) + OptionValueEnd
      + MapChars(ssid, EntityOf) + OptionClose
  }

  function ValueOptionList(ssids: seq<string>): string {
    if ssids == [] then [] else ValueOptionItem(ssids[0]) + ValueOptionList(ssids[1..])
  }

  lemma {:induction false} ValueOptionListAppend(ssids: seq<string>, x: string)
    ensures ValueOptionList(ssids + [x]) == ValueOptionList(ssids) + ValueOptionItem(x)
  {
    if ssids == [] {
      assert ([] + [x])[1..] == [];
    } else {
      assert (ssids + [x])[1..] == ssids[1..] + [x];
      ValueOptionListAppend(ssids[1..], x);
    }
  }

  /** A browser reads an option with a `value` attribute as the decoded
      attribute. */
  lemma ParseValueItem(x: string, t: string)
    ensures ParseOptions(ValueOptionItem(x) + t) ==
      match ParseOptions(t)
      case None => None
      case Some(more) => Some([x] + more)
  {
    var value := MapChars(x, AttributeEscape);
    var text := MapChars(x, EntityOf);
    assert ValueOptionItem(x) + t == OptionValueOpen + (value + (OptionValueEnd + (text + (OptionClose + t))));
    AttributeRoundTrip(x);
    assert forall i :: 0 <= i < |value| ==> value[i] != '"' by {
      forall i | 0 <= i < |value| ensures value[i] != '"' { assert value[i] in value; }
    }
    EntityOfEscapesSpecials();
    EscapingIsSafe(x, EntityOf);
    ParseValueShape(value, text, t);
  }

  /** An option whose attribute value holds no `"` and whose text holds no
      `<` is read as its decoded attribute value. */
  lemma ParseValueShape(value: string, text: string, t: string)
    requires forall i :: 0 <= i < |value| ==> value[i] != '"'
    requires forall i :: 0 <= i < |text| ==> text[i] != '<'
    ensures ParseOptions(OptionValueOpen + (value + (OptionValueEnd + (text + (OptionClose + t))))) ==
      match ParseOptions(t)
      case None => None
      case Some(more) => Some([Unescape(value)] + more)
  {
    var after := text + (OptionClose + t);
    var rest := value + (OptionValueEnd + after);
    var s := OptionValueOpen + rest;
    NotStartsWith(s, OptionOpen, 7);
    assert s[..|OptionValueOpen|] == OptionValueOpen && s[|OptionValueOpen|..] == rest;
    SplitAtMarker(value, OptionValueEnd, after, '"');
    SplitAtMarker(text, OptionClose, t, '<');
  }

  /** Text without `c`, then a marker starting with `c`: the first `c`
      splits the two. */
  lemma SplitAtMarker(esc: string, marker: string, u: string, c: char)
    requires forall i :: 0 <= i < |esc| ==> esc[i] != c
    requires marker != [] && marker[0] == c
    ensures IndexOfFrom(esc + (marker + u), c, 0) == |esc|
    ensures (esc + (marker + u))[..|esc|] == esc
    ensures StartsWith((esc + (marker + u))[|esc|..], marker)
    ensures (esc + (marker + u))[|esc| + |marker|..] == u
  {
    var s := esc + (marker + u);
    FirstMarker(esc, marker + u, c);
    assert s[|esc|..] == marker + u;
    assert (marker + u)[..|marker|] == marker;
  }

  /** With `value` attributes every scanned network comes back under its
      own name, in order, white space and all. */
  lemma {:induction false} ValueOptionListRoundTrip(ssids: seq<string>)
    ensures ParseOptions(ValueOptionList(ssids)) == Some(ssids)
  {
    if ssids != [] {
      ValueOptionListRoundTrip(ssids[1..]);
      ParseValueItem(ssids[0], ValueOptionList(ssids[1..]));
      assert [ssids[0]] + ssids[1..] == ssids;
    }
  }

  // ---------------------------------------------------------------------
  // The main loop's state
  // ---------------------------------------------------------------------

  /** What the loop asks the player to do. */
  datatype Command = ChangeVolume(volume: int) | SelectDevice(id: string)

  /** The globals of the main loop that the dial logic updates, next to the
      player client whose state it reads. */
  class Dial {
    var tempVolume: int
    var tempDeviceIndex: int
    var oldPosition: int
    var oldMillis: int
    var refreshMillis: int
    const client: SPClient

    /** The 32-bit clock readings the globals hold. */
    predicate Valid()
      reads this
    {
      IsMillis(oldMillis) && IsMillis(refreshMillis)
    }

    /** The globals are zero-initialised. */
    constructor (client: SPClient)
      ensures this.client == client
      ensures tempVolume == 0 && tempDeviceIndex == 0 && oldPosition == 0
      ensures oldMillis == 0 && refreshMillis == 0
      ensures Valid()
    {
      this.client := client;
      tempVolume := 0;
      tempDeviceIndex := 0;
      oldPosition := 0;
      oldMillis := 0;
      refreshMillis := 0;
    }

    /** The volume dial on the play screen, for one pass of the loop: a move
        updates the dialled volume and restarts the one-second timer; a
        dial at rest past the timer asks for the dialled volume. */
    method TurnVolume(newPosition: int, now: int) returns (command: Option<Command>)
      requires Valid() && IsMillis(now)
      modifies this`tempVolume, this`oldPosition, this`oldMillis
      ensures Valid()
      ensures !client.supportsVolume ==>
        command == None && tempVolume == old(tempVolume)
        && oldPosition == old(oldPosition) && oldMillis == old(oldMillis)
      ensures client.supportsVolume && newPosition != old(oldPosition) ==>
        command == None && tempVolume == VolumeAfterTurn(old(tempVolume), newPosition - old(oldPosition))
        && oldPosition == newPosition && oldMillis == now
      ensures client.supportsVolume && newPosition == old(oldPosition) ==>
        tempVolume == old(tempVolume) && oldPosition == old(oldPosition) && oldMillis == old(oldMillis)
        && command == (if VolumeDue(now, oldMillis, tempVolume, client.volume)
                       then Some(ChangeVolume(tempVolume)) else None)
    {
      command := None;
      if client.supportsVolume {
        if newPosition != oldPosition {
          tempVolume := tempVolume + (newPosition - oldPosition);
          if tempVolume < 0 {
            tempVolume := 0;
          } else if tempVolume > MaxVolume {
            tempVolume := MaxVolume;
          }
          oldPosition := newPosition;
          oldMillis := now;
        } else if Elapsed(now, oldMillis) > 1000 && tempVolume != client.volume {
          command := Some(ChangeVolume(tempVolume));
        }
      }
    }

    /** The auto-redraw test as the loop writes it: when due, the deadline
        is disarmed and the play screen is shown again. */
    method AutoRedraw(now: int) returns (redraw: bool)
      requires Valid() && IsMillis(now)
      modifies this`refreshMillis
      ensures Valid()
      ensures redraw == RefreshDueAsWritten(old(refreshMillis), now)
      ensures refreshMillis == if redraw then 0 else old(refreshMillis)
    {
      redraw := refreshMillis != 0 && refreshMillis < now;
      if redraw {
        refreshMillis := 0;
      }
    }

    /** `showPlayScreen`: fetch the playback state, take over the player's
        volume, and arm the redraw for the end of the track. */
    method ShowPlayScreen(status: int, obs: seq<Scanned>, now: int) returns (result: int)
      requires Valid() && IsMillis(now)
      modifies client`deviceID, client`artistName, client`trackName, client`imageURL,
               client`durationMs, client`progressMs, client`volume, client`supportsVolume,
               client`isPlaying, client`needsRefresh, this`tempVolume, this`refreshMillis
      ensures Valid()
      ensures result == (if client.accessToken == "" then 0 else status)
      ensures client.PlaybackFields() ==
        if client.accessToken != "" && status == HttpOk then FoldPlayback(Cleared, obs) else Cleared
      ensures client.needsRefresh ==
        (old(client.needsRefresh) || (client.accessToken != "" && status == HttpUnauthorized))
      ensures tempVolume == client.volume
      ensures refreshMillis ==
        if client.durationMs > 0 then Deadline(now, client.durationMs, client.progressMs) else 0
    {
      result := client.GetPlaybackState(status, obs);
      tempVolume := client.volume;
      if client.durationMs > 0 {
        refreshMillis := Deadline(now, client.durationMs, client.progressMs);
      } else {
        refreshMillis := 0;
      }
    }

    /** The device list dial: a move onto a new detent steps the index by
        whole detents, keeps it inside the list and redraws the list. */
    method SelectStep(newPosition: int) returns (rows: seq<Row>)
      modifies this`tempDeviceIndex, this`oldPosition
      ensures OnNewDetent(newPosition, old(oldPosition)) ==>
        tempDeviceIndex == StepIndex(old(tempDeviceIndex), newPosition - old(oldPosition), |client.deviceIDs|)
        && oldPosition == newPosition
        && DeviceRows(rows, |client.deviceIDs|, tempDeviceIndex)
      ensures !OnNewDetent(newPosition, old(oldPosition)) ==>
        tempDeviceIndex == old(tempDeviceIndex) && oldPosition == old(oldPosition) && rows == []
    {
      rows := [];
      if newPosition != oldPosition && newPosition % 4 == 0 {
        tempDeviceIndex := tempDeviceIndex + TruncDiv(newPosition - oldPosition, 4);
        if tempDeviceIndex < 0 {
          tempDeviceIndex := 0;
        }
        if tempDeviceIndex >= |client.deviceIDs| {
          tempDeviceIndex := |client.deviceIDs| - 1;
        }
        rows := RedrawDeviceScreen(tempDeviceIndex);
        oldPosition := newPosition;
      }
    }

    /** The button on the device screen: transfer playback when the index
        names a device other than the current one. */
    method ReleaseTransfer() returns (command: Option<Command>)
      ensures command != None <==>
        0 <= tempDeviceIndex < |client.deviceIDs| && client.deviceIDs[tempDeviceIndex] != client.deviceID
      ensures command != None ==> command == Some(SelectDevice(client.deviceIDs[tempDeviceIndex]))
    {
      command := None;
      if 0 <= tempDeviceIndex < |client.deviceIDs| {
        var selected := client.deviceIDs[tempDeviceIndex];
        if selected != client.deviceID {
          command := Some(SelectDevice(selected));
        }
      }
    }

    /** `showDeviceScreen`: fetch the device list and select the current
        device, keeping the previous index when it is not listed. */
    method ShowDeviceScreen(status: int, obs: seq<Scanned>) returns (rows: seq<Row>)
      modifies client`deviceIDs, client`deviceNames, client`needsRefresh, this`tempDeviceIndex
      ensures client.deviceIDs == (if status == HttpOk then NonEmptyTexts(obs, DevicesIdPath) else [])
      ensures client.deviceNames == (if status == HttpOk then NonEmptyTexts(obs, DevicesNamePath) else [])
      ensures client.needsRefresh == (old(client.needsRefresh) || status == HttpUnauthorized)
      ensures tempDeviceIndex == LastMatch(client.deviceIDs, client.deviceID, old(tempDeviceIndex))
      ensures client.deviceID in client.deviceIDs ==> client.deviceIDs[tempDeviceIndex] == client.deviceID
      ensures DeviceRows(rows, |client.deviceIDs|, tempDeviceIndex)
    {
      var _ := client.GetDeviceList(status, obs);
      MarkCurrentDevice();
      rows := RedrawDeviceScreen(tempDeviceIndex);
    }

    /** The loop of `showDeviceScreen` that points the dial at the last list
        entry equal to the playing device, keeping the old index otherwise. */
    method MarkCurrentDevice()
      modifies this`tempDeviceIndex
      ensures tempDeviceIndex == LastMatch(client.deviceIDs, client.deviceID, old(tempDeviceIndex))
    {
      var i := 0;
      while i < |client.deviceIDs|
        invariant 0 <= i <= |client.deviceIDs|
        invariant tempDeviceIndex == LastMatch(client.deviceIDs[..i], client.deviceID, old(tempDeviceIndex))
      {
        assert client.deviceIDs[..i + 1][..i] == client.deviceIDs[..i];
        if client.deviceIDs[i] == client.deviceID {
          tempDeviceIndex := i;
        }
        i := i + 1;
      }
      assert client.deviceIDs[..i] == client.deviceIDs;
    }

    /** `redrawDeviceScreen`: the lines drawn and where, nothing when the
        selected line is outside the list. */
    method RedrawDeviceScreen(selected: int) returns (rows: seq<Row>)
      ensures DeviceRows(rows, |client.deviceIDs|, selected)
    {
      rows := [];
      var lineCount := |client.deviceIDs|;
      if selected < 0 || selected >= lineCount {
        return;
      }
      var i := 0;
      while i < lineCount
        invariant 0 <= i <= lineCount
        invariant forall j :: 0 <= j < i ==> (OnScreen(j, selected) <==> exists k :: 0 <= k < |rows| && rows[k].line == j)
        invariant forall k :: 0 <= k < |rows| ==>
          rows[k].line < i && OnScreen(rows[k].line, selected)
          && rows[k].y == RowY(rows[k].line, selected) && rows[k].highlighted == (rows[k].line == selected)
        invariant forall k, m :: 0 <= k < m < |rows| ==> rows[k].line < rows[m].line
      {
        var y := (i - selected) * RowHeight + ScreenHeight / 2;
        if y > 0 && y < ScreenHeight {
          ghost var before := rows;
          rows := rows + [Row(i, y, i == selected)];
          assert forall k :: 0 <= k < |before| ==> rows[k] == before[k];
          assert rows[|before|].line == i;
        }
        i := i + 1;
      }
    }
  }

  /** `handleFormWiFi`: the form with one option per scanned network, and
      the content length announced before it is sent. */
  method HandleFormWiFi(part1: string, ssids: seq<string>, part2: string)
    returns (content: string, contentLength: nat)
    ensures content == part1 + OptionList(ssids) + part2
    ensures contentLength == |content|
  {
    var optionList := "";
    for i := 0 to |ssids|
      invariant optionList == OptionList(ssids[..i])
    {
      var item := HtmlEscapedString(ssids[i]);
      OptionListAppend(ssids[..i], ssids[i], EscapeAsWritten);
      assert ssids[..i + 1] == ssids[..i] + [ssids[i]];
      optionList := optionList + (OptionOpen + item + OptionClose);
    }
    assert ssids[..|ssids|] == ssids;
    contentLength := |part1| + |optionList| + |part2|;
    content := part1 + optionList + part2;
  }

  /** The form with a `value` attribute on each option, escaped with `&`
      first and without the space pass, which offers every scanned network
      under its own name. */
  method HandleFormWiFiWithValues(part1: string, ssids: seq<string>, part2: string)
    returns (content: string, contentLength: nat)
    ensures content == part1 + ValueOptionList(ssids) + part2
    ensures contentLength == |content|
    ensures ParseOptions(ValueOptionList(ssids)) == Some(ssids)
  {
    var optionList := "";
    for i := 0 to |ssids|
      invariant optionList == ValueOptionList(ssids[..i])
    {
      var value := HtmlAttributeEscapedString(ssids[i]);
      var item := HtmlEscapedStringAmpersandFirst(ssids[i]);
      ValueOptionListAppend(ssids[..i], ssids[i]);
      assert ssids[..i + 1] == ssids[..i] + [ssids[i]];
      optionList := optionList + (OptionValueOpen + value + OptionValueEnd + item + OptionClose);
    }
    assert ssids[..|ssids|] == ssids;
    contentLength := |part1| + |optionList| + |part2|;
    content := part1 + optionList + part2;
    ValueOptionListRoundTrip(ssids);
  }
}
