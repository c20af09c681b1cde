/** The streaming JSON key scanner of `JsonStreamScanner`.

    The scanner reads its stream one quote-delimited token at a time and
    infers the object nesting from the braces in each token. It keeps the
    current path as one slash-joined string and two flags, and reports the
    path whenever a token looks like an object key. The stream is modelled as
    the whole text it will deliver plus a cursor. */
module StreamScanner {
  import opened ArduinoString

  /** What `Stream::readStringUntil(d)` yields: the text before the next `d`
      (or the rest of the stream when there is none) and the new cursor,
      which lies past that `d`. */
  datatype Read = Read(text: string, next: nat)

  function ReadUntil(s: string, from: nat, d: char): (r: Read)
    requires from <= |s|
    ensures from <= r.next <= |s|
    ensures d !in r.text
    ensures (r.next == |s| && r.text == s[from..])
         || (r.next == from + |r.text| + 1 && s[r.next - 1] == d && r.text == s[from..r.next - 1])
    decreases |s| - from
  {
    if from == |s| then Read([], from)
    else if s[from] == d then Read([], from + 1)
    else var r := ReadUntil(s, from + 1, d); Read([s[from]] + r.text, r.next)
  }

  /** Reading up to `d` stops exactly at the position `String::indexOf` finds. */
  lemma ReadUntilIndexOf(s: string, from: nat, d: char)
    requires from <= |s|
    ensures var q := IndexOfFrom(s, d, from);
            ReadUntil(s, from, d) == if q < 0 then Read(s[from..], |s|) else Read(s[from..q], q + 1)
  {
    var q := IndexOfFrom(s, d, from);
    if q >= 0 {
      assert s[q] == d;
    }
  }

  /** Reading up to `d` over a text `a + [d] + b` whose part after `from` holds no `d`. */
  lemma ReadUntilSplit(a: string, d: char, b: string, from: nat)
    requires from <= |a| && d !in a[from..]
    ensures ReadUntil(a + [d] + b, from, d) == Read(a[from..], |a| + 1)
  {
    var s := a + [d] + b;
    ReadUntilIndexOf(s, from, d);
    var q := IndexOfFrom(s, d, from);
    assert s[|a|] == d;
    assert s[from..|a|] == a[from..];
  }

  /** `numberOfCharInString`: counts the positions of `source` holding
      `search` by repeated `indexOf` calls. */
  method NumberOfCharInString(source: string, search: char) returns (count: int)
    ensures count == Occurrences(source, search)
    ensures count == 0 <==> search !in source
  {
    OccurrencesIsMultiplicity(source, search);
    count := 0;
    var index := IndexOfFrom(source, search, 0);
    MultiplicityAcrossGap(source, 0, if index < 0 then |source| else index, search);
    while index >= 0
      invariant -1 <= index < |source|
      invariant index >= 0 ==> source[index] == search && count == multiset(source[..index])[search]
      invariant index < 0 ==> count == multiset(source)[search]
      decreases if index < 0 then 0 else |source| - index
    {
      assert source[..index + 1] == source[..index] + [source[index]];
      count := count + 1;
      if index + 1 < |source| {
        var next := IndexOfFrom(source, search, index + 1);
        MultiplicityAcrossGap(source, index + 1, if next < 0 then |source| else next, search);
        index := next;
      } else {
        assert source[..index + 1] == source;
        break;
      }
    }
  }

  /** Positions without `c` between `a` and `b` add nothing to its multiplicity. */
  lemma {:induction false} MultiplicityAcrossGap(s: string, a: nat, b: nat, c: char)
    requires a <= b <= |s|
    requires forall i :: a <= i < b ==> s[i] != c
    ensures multiset(s[..b])[c] == multiset(s[..a])[c]
    ensures b == |s| ==> multiset(s)[c] == multiset(s[..a])[c]
    decreases b - a
  {
    if a < b {
      MultiplicityAcrossGap(s, a, b - 1, c);
      assert s[..b] == s[..b - 1] + [s[b - 1]];
    }
    assert s[..|s|] == s;
  }

  /** The scanner's own state: the current path and the two mode flags
      (`_push`: the next key opens a new level; `_isValue`: the previous
      token was a bare colon, so the next bare token is a value). */
  datatype ScanState = ScanState(path: string, push: bool, isValue: bool)

  const Initial := ScanState("", false, false)

  /** A path is the root `""` or starts with a slash. */
  predicate WellFormedPath(p: string) {
    p == [] || p[0] == '/'
  }

  /** `_path = _path.substring(0, _path.lastIndexOf("/"))`. When there is no
      slash, `lastIndexOf` gives -1, which `substring`'s unsigned parameter
      turns into the largest unsigned value; `substring` clamps it to the
      length, so the path comes back unchanged. */
  function TruncateAtLastSlash(p: string): string {
    var i := LastIndexOf(p, '/');
    if i < 0 then p else p[..i]
  }

  /** The path after `k` truncations, as the pop loop performs them. */
  function PopSegments(p: string, k: nat): string {
    if k == 0 then p else TruncateAtLastSlash(PopSegments(p, k - 1))
  }

  /** The effect of one token: the new state, and whether `scanNextKey` returns. */
  datatype TokenEffect = TokenEffect(state: ScanState, isKey: bool)

  /** Structural punctuation other than the colon. */
  predicate Punctuation(word: string) {
    ',' in word || '[' in word || ']' in word
  }

  /** One iteration of `scanNextKey`'s loop, given the token's numbers of
      opening and closing braces and the trimmed token `word`. */
  function TokenStep(st: ScanState, opens: nat, closes: nat, word: string): TokenEffect {
    var net := closes - opens;
    if net > 0 then TokenEffect(ScanState(PopSegments(st.path, net), false, false), false)
    else if net == 0 && opens == 1 then TokenEffect(st.(push := false, isValue := false), false)
    else if net == -1 then TokenEffect(st.(push := true, isValue := false), false)
    else if net == 0 && opens == 0 then
      if ':' in word then TokenEffect(st.(push := false, isValue := word == ":"), false)
      else if Punctuation(word) then TokenEffect(st.(push := false, isValue := false), false)
      else if !st.isValue then
        var p := if st.push then st.path + "/" + word else TruncateAtLastSlash(st.path) + "/" + word;
        TokenEffect(ScanState(p, false, false), true)
      else TokenEffect(st.(push := false, isValue := false), false)
    else TokenEffect(st, false)
  }

  /** One iteration of `scanNextKey`'s loop on the raw token `raw`: braces are
      counted before trimming, the rest is decided on the trimmed token. */
  function ClassifyToken(st: ScanState, raw: string): TokenEffect {
    TokenStep(st, Occurrences(raw, '{'), Occurrences(raw, '}'), Trim(raw))
  }

  /** The result of one `scanNextKey` call: the returned key, the cursor and the state after it. */
  datatype KeyScan = KeyScan(key: string, cursor: nat, state: ScanState)

  /** `scanNextKey` from cursor `from` in state `st`: classify tokens until one
      is a key, or return `""` once the stream is exhausted. */
  function NextKey(s: string, from: nat, st: ScanState): (r: KeyScan)
    requires from <= |s|
    ensures from <= r.cursor <= |s|
    decreases |s| - from
  {
    if from == |s| then KeyScan("", from, st)
    else
      var read := ReadUntil(s, from, '"');
      var e := ClassifyToken(st, read.text);
      if e.isKey then KeyScan(e.state.path, read.next, e.state)
      else NextKey(s, read.next, e.state)
  }

  /** One unfolding of `NextKey` on an available stream. */
  lemma NextKeyUnfold(s: string, from: nat, st: ScanState)
    requires from < |s|
    ensures var read := ReadUntil(s, from, '"');
            var e := ClassifyToken(st, read.text);
            NextKey(s, from, st) == if e.isKey then KeyScan(e.state.path, read.next, e.state)
                                    else NextKey(s, read.next, e.state)
  {
  }

  /** What `scanString` reads from `from`: it skips to past the next quote,
      then reads up to the quote after it. */
  function StringAt(s: string, from: nat): (r: Read)
    requires from <= |s|
    ensures from <= r.next <= |s|
  {
    var opening := ReadUntil(s, from, '"');
    ReadUntil(s, opening.next, '"')
  }

  /** What `scanBoolean` reads from `from`: the value and the cursor after it. */
  datatype BooleanRead = BooleanRead(value: bool, next: nat)

  function BooleanAt(s: string, from: nat): (r: BooleanRead)
    requires from <= |s|
    ensures from <= r.next <= |s|
  {
    var colon := ReadUntil(s, from, ':');
    var literal := ReadUntil(s, colon.next, 'e');
    BooleanRead(StartsWith(Trim(literal.text), "tru"), literal.next)
  }

  /** The number `Stream::parseInt` finds at the start of a text, and how many
      characters it consumes. The parser is not part of this model. */
  datatype ParsedInt = ParsedInt(value: int, consumed: nat)

  class JsonStreamScanner {
    /** Everything the stream will deliver. */
    const input: string
    /** How much of it has been read. */
    var cursor: nat
    var path: string
    var push: bool
    var isValue: bool

    ghost predicate Valid()
      reads this
    {
      cursor <= |input| && WellFormedPath(path)
    }

    function State(): ScanState
      reads this
    {
      ScanState(path, push, isValue)
    }

    constructor (stream: string)
      ensures Valid() && input == stream && cursor == 0 && State() == Initial
    {
      input := stream;
      cursor := 0;
      path, push, isValue := "", false, false;
    }

    /** `_stream->readStringUntil(d)`. */
    method ReadStringUntil(d: char) returns (word: string)
      requires Valid()
      modifies this`cursor
      ensures Valid()
      ensures Read(word, cursor) == ReadUntil(input, old(cursor), d)
    {
      var r := ReadUntil(input, cursor, d);
      word, cursor := r.text, r.next;
    }

    /** `scanNextKey`: consume tokens until one is an object key and return
        the path it leads to, or return `""` when the stream runs out. */
    method ScanNextKey() returns (key: string)
      requires Valid()
      modifies this`cursor, this`path, this`push, this`isValue
      ensures Valid()
      ensures KeyScan(key, cursor, State()) == NextKey(input, old(cursor), old(State()))
    {
      while cursor < |input|
        invariant Valid()
        invariant NextKey(input, cursor, State()) == NextKey(input, old(cursor), old(State()))
        decreases |input| - cursor
      {
        var isKey := ScanToken();
        if isKey {
          return path;
        }
      }
      key := "";
    }

    /** One pass of `scanNextKey`'s loop: read up to the next quote and
        classify what was read. */
    method ScanToken() returns (isKey: bool)
      requires Valid() && cursor < |input|
      modifies this`cursor, this`path, this`push, this`isValue
      ensures Valid() && old(cursor) < cursor
      ensures NextKey(input, old(cursor), old(State())) ==
        if isKey then KeyScan(path, cursor, State()) else NextKey(input, cursor, State())
    {
      ghost var st := State();
      NextKeyUnfold(input, cursor, st);
      var word := ReadStringUntil('"');
      ghost var e := ClassifyToken(st, word);
      isKey := ApplyToken(word);
      assert isKey == e.isKey && State() == e.state;
    }

    /** One pass of `scanNextKey`'s loop body on the token just read: count
        its braces, trim it, and update the path and flags; `isKey` tells
        whether the loop returns the path. */
    method ApplyToken(word: string) returns (isKey: bool)
      requires Valid()
      modifies this`path, this`push, this`isValue
      ensures Valid()
      ensures TokenEffect(State(), isKey) == ClassifyToken(old(State()), word)
    {
      ghost var before := State();
      ghost var raw := word;
      ghost var e := ClassifyToken(before, raw);
      StepKeepsWellFormed(before, Occurrences(raw, '{'), Occurrences(raw, '}'), Trim(raw));
      var numberOfClose := NumberOfCharInString(word, '}');
      var numberOfOpen := NumberOfCharInString(word, '{');
      var word := Trim(word);
      assert e == TokenStep(before, numberOfOpen, numberOfClose, word);
      numberOfClose := numberOfClose - numberOfOpen;
      isKey := false;
      if numberOfClose > 0 {
        for i := 0 to numberOfClose
          invariant path == PopSegments(before.path, i)
        {
          path := TruncateAtLastSlash(path);
        }
        push, isValue := false, false;
      } else if numberOfClose == 0 && numberOfOpen == 1 {
        push, isValue := false, false;
      } else if numberOfClose == -1 {
        push, isValue := true, false;
      } else if numberOfClose == 0 && numberOfOpen == 0 {
        if ':' in word {
          push := false;
          isValue := word == ":";
        } else if ',' in word || '[' in word || ']' in word {
          push, isValue := false, false;
        } else {
          if !isValue {
            if push {
              path := path + "/" + word;
            } else {
              path := TruncateAtLastSlash(path);
              path := path + "/" + word;
            }
            isKey := true;
          }
          push, isValue := false, false;
        }
      }
    }

    /** `scanString`: the characters between the next two quotes. */
    method ScanString() returns (value: string)
      requires Valid()
      modifies this`cursor
      ensures Valid()
      ensures Read(value, cursor) == StringAt(input, old(cursor))
    {
      var _ := ReadStringUntil('"');
      value := ReadStringUntil('"');
    }

    /** `scanBoolean`: whether the trimmed text between the next colon and
        the next `e` starts with "tru". */
    method ScanBoolean() returns (value: bool)
      requires Valid()
      modifies this`cursor
      ensures Valid()
      ensures BooleanRead(value, cursor) == BooleanAt(input, old(cursor))
    {
      var _ := ReadStringUntil(':');
      var word := ReadStringUntil('e');
      word := Trim(word);
      value := StartsWith(word, "tru");
    }

    /** `scanInt`: skip past the next colon, then hand the rest of the stream
        to the number parser `parseInt`. */
    method ScanInt(parseInt: string -> ParsedInt) returns (number: int)
      requires Valid()
      modifies this`cursor
      ensures Valid()
      ensures var colon := ReadUntil(input, old(cursor), ':');
              var parsed := parseInt(input[colon.next..]);
              number == parsed.value
              && cursor == colon.next + (if parsed.consumed <= |input| - colon.next then parsed.consumed
                                         else |input| - colon.next)
    {
      var _ := ReadStringUntil(':');
      var parsed := parseInt(input[cursor..]);
      number := parsed.value;
      cursor := cursor + (if parsed.consumed <= |input| - cursor then parsed.consumed else |input| - cursor);
    }

    /** `path()`: the current path, which is always the root or starts with a slash. */
    function Path(): (p: string)
      reads this
      requires Valid()
      ensures p == [] || p[0] == '/'
    {
      path
    }

    /** `available()`: unread input remains, so the next read makes progress. */
    predicate Available()
      reads this
      requires Valid()
      ensures Available() ==> ReadUntil(input, cursor, '"').next > cursor
    {
      cursor < |input|
    }
  }

  // ---------------------------------------------------------------------
  // The path as a stack of keys

  /** The path string of a stack of keys: each key preceded by a slash. */
  function Render(keys: seq<string>): string {
    if keys == [] then "" else Render(keys[..|keys| - 1]) + "/" + keys[|keys| - 1]
  }

  predicate SlashFree(keys: seq<string>) {
    forall i :: 0 <= i < |keys| ==> '/' !in keys[i]
  }

  function DropLast(keys: seq<string>): seq<string> {
    if keys == [] then [] else keys[..|keys| - 1]
  }

  /** Truncating at the last slash pops exactly the innermost key, and leaves the root as it is. */
  lemma TruncateRender(keys: seq<string>)
    requires SlashFree(keys)
    ensures TruncateAtLastSlash(Render(keys)) == Render(DropLast(keys))
  {
    if keys != [] {
      var outer := Render(keys[..|keys| - 1]);
      var w := keys[|keys| - 1];
      var p := outer + "/" + w;
      assert p[|outer|] == '/';
      forall i | |outer| < i < |p| ensures p[i] != '/' {
        assert p[i] == w[i - |outer| - 1];
      }
      assert LastIndexOf(p, '/') == |outer|;
      assert p[..|outer|] == outer;
    }
  }

  /** Popping `k` times removes the `k` innermost keys, and stops at the root. */
  lemma {:induction false} PopRender(keys: seq<string>, k: nat)
    requires SlashFree(keys)
    ensures PopSegments(Render(keys), k) == Render(keys[..if k <= |keys| then |keys| - k else 0])
  {
    if k > 0 {
      PopRender(keys, k - 1);
      var m := if k - 1 <= |keys| then |keys| - (k - 1) else 0;
      TruncateRender(keys[..m]);
      assert DropLast(keys[..m]) == keys[..if k <= |keys| then |keys| - k else 0];
    } else {
      assert keys[..|keys|] == keys;
    }
  }

  lemma {:induction false} PopKeepsWellFormed(p: string, k: nat)
    requires WellFormedPath(p)
    ensures WellFormedPath(PopSegments(p, k))
  {
    if k > 0 {
      PopKeepsWellFormed(p, k - 1);
    }
  }

  /** Every token keeps the path the root or slash-led. */
  lemma StepKeepsWellFormed(st: ScanState, opens: nat, closes: nat, word: string)
    requires WellFormedPath(st.path)
    ensures var e := TokenStep(st, opens, closes, word);
            WellFormedPath(e.state.path)
            && (e.isKey ==> e.state.path != [] && e.state.path[0] == '/' && !e.state.push && !e.state.isValue)
  {
    if closes > opens {
      PopKeepsWellFormed(st.path, closes - opens);
    }
  }

  // ---------------------------------------------------------------------
  // One token at a time

  /** A token with `k > 0` more closing than opening braces pops `k` keys
      (down to the root at most) and clears both flags; it is never a key. */
  lemma {:induction false} ClosingTokenPops(st: ScanState, opens: nat, closes: nat, word: string, keys: seq<string>)
    requires SlashFree(keys) && st.path == Render(keys)
    requires closes > opens
    ensures TokenStep(st, opens, closes, word)
            == TokenEffect(ScanState(PopSegments(Render(keys), closes - opens), false, false), false)
    ensures PopSegments(Render(keys), closes - opens)
            == Render(keys[..if closes - opens <= |keys| then |keys| - (closes - opens) else 0])
  {
    ClosingStep(st, opens, closes, word);
    PopRender(keys, closes - opens);
  }

  lemma ClosingStep(st: ScanState, opens: nat, closes: nat, word: string)
    requires closes > opens
    ensures TokenStep(st, opens, closes, word)
            == TokenEffect(ScanState(PopSegments(st.path, closes - opens), false, false), false)
  {
  }

  /** A token with exactly one more opening brace sets `_push`, clears
      `_isValue`, keeps the path and is not a key. */
  lemma OpeningTokenSetsPush(st: ScanState, opens: nat, closes: nat, word: string)
    requires opens == closes + 1
    ensures TokenStep(st, opens, closes, word) == TokenEffect(ScanState(st.path, true, false), false)
  {
  }

  /** A brace-free token holding a colon, comma or square bracket is never a
      key and keeps the path; `_push` ends false and `_isValue` ends true
      exactly when the trimmed token is a bare colon. */
  lemma PunctuationNeverKey(st: ScanState, word: string)
    requires ':' in word || Punctuation(word)
    ensures var e := TokenStep(st, 0, 0, word);
            !e.isKey && e.state.path == st.path && !e.state.push
            && (e.state.isValue <==> word == ":")
  {
  }

  /** A bare token read while no value is expected is a key: it is pushed
      as a new innermost key after an opening brace, and otherwise replaces
      the innermost key (or becomes the first key at the root). The returned
      key is the new path and both flags end false. */
  lemma BareTokenIsKey(st: ScanState, word: string, keys: seq<string>)
    requires SlashFree(keys) && st.path == Render(keys)
    requires ':' !in word && !Punctuation(word)
    requires !st.isValue
    ensures var pushed := if st.push then keys else DropLast(keys);
            TokenStep(st, 0, 0, word) == TokenEffect(ScanState(Render(pushed + [word]), false, false), true)
  {
    var pushed := if st.push then keys else DropLast(keys);
    assert (pushed + [word])[..|pushed|] == pushed;
    if !st.push {
      TruncateRender(keys);
    }
  }

  /** A bare token read right after a bare colon is a value: it is skipped,
      the path is kept and both flags are cleared. */
  lemma ValueTokenSkipped(st: ScanState, word: string)
    requires ':' !in word && !Punctuation(word)
    requires st.isValue
    ensures TokenStep(st, 0, 0, word) == TokenEffect(ScanState(st.path, false, false), false)
  {
  }

  /** Tokens with two or more net opening braces, or with balanced braces
      other than one pair, fall through every branch and change nothing. */
  lemma UnbalancedTokenIgnored(st: ScanState, opens: nat, closes: nat, word: string)
    requires opens > closes + 1 || (opens == closes && opens > 1)
    ensures TokenStep(st, opens, closes, word) == TokenEffect(st, false)
  {
  }

  // ---------------------------------------------------------------------
  // Whole calls of scanNextKey

  /** `scanNextKey` returns `""` only when the stream is exhausted; any other
      result is the new current path, slash-led, with both flags cleared. */
  lemma {:induction false} NextKeyResult(s: string, from: nat, st: ScanState)
    requires from <= |s| && WellFormedPath(st.path)
    ensures var r := NextKey(s, from, st);
            (r.key == [] ==> r.cursor == |s|)
            && (r.key != [] ==> r.key == r.state.path && r.key[0] == '/' && !r.state.push && !r.state.isValue)
    decreases |s| - from
  {
    if from < |s| {
      NextKeyUnfold(s, from, st);
      var read := ReadUntil(s, from, '"');
      var e := ClassifyToken(st, read.text);
      StepKeepsWellFormed(st, Occurrences(read.text, '{'), Occurrences(read.text, '}'), Trim(read.text));
      if !e.isKey {
        NextKeyResult(s, read.next, e.state);
      }
    }
  }

  /** Reading up to a `d` that does not occur after `from` yields the rest of the stream. */
  lemma ReadUntilAbsent(s: string, from: nat, d: char)
    requires from <= |s| && d !in s[from..]
    ensures ReadUntil(s, from, d) == Read(s[from..], |s|)
  {
    assert forall i :: from <= i < |s| ==> s[i] == s[from..][i - from];
    ReadUntilIndexOf(s, from, d);
  }

  // ---------------------------------------------------------------------
  // The extractors

  /** `scanString` returns exactly the characters between the next two
      quotes and leaves the cursor past the second; a missing quote makes it
      read to the end of the stream. */
  lemma StringAtBetweenQuotes(s: string, from: nat)
    requires from <= |s|
    ensures var q1 := IndexOfFrom(s, '"', from);
            var r := StringAt(s, from);
            (q1 < 0 ==> r == Read([], |s|))
            && (q1 >= 0 ==>
                  var q2 := IndexOfFrom(s, '"', q1 + 1);
                  r == if q2 < 0 then Read(s[q1 + 1..], |s|) else Read(s[q1 + 1..q2], q2 + 1))
  {
    ReadUntilIndexOf(s, from, '"');
    var q1 := IndexOfFrom(s, '"', from);
    if q1 >= 0 {
      ReadUntilIndexOf(s, q1 + 1, '"');
    }
  }

  /** `scanBoolean` on a `true` literal after the next colon and any white space. */
  lemma BooleanAtTrue(pre: string, ws: string, rest: string)
    requires ':' !in pre && forall i :: 0 <= i < |ws| ==> IsSpace(ws[i])
    ensures BooleanAt(pre + ":" + ws + "true" + rest, 0) == BooleanRead(true, |pre| + |ws| + 5)
  {
    assert "true"[..3] == "tru" && 'e' !in "true"[..3];
    BooleanAtWord(pre, ws, "true", rest);
  }

  /** `scanBoolean` on a `false` literal after the next colon and any white space. */
  lemma BooleanAtFalse(pre: string, ws: string, rest: string)
    requires ':' !in pre && forall i :: 0 <= i < |ws| ==> IsSpace(ws[i])
    ensures BooleanAt(pre + ":" + ws + "false" + rest, 0) == BooleanRead(false, |pre| + |ws| + 6)
  {
    assert "false"[..4] == "fals" && 'e' !in "false"[..4];
    assert !StartsWith("fals", "tru") by {
      assert "fals"[..3][0] != "tru"[0];
    }
    BooleanAtWord(pre, ws, "false", rest);
  }

  /** The text after the next colon, up to the next `e`, trimmed, decides the value. */
  lemma BooleanAtWord(pre: string, ws: string, word: string, rest: string)
    requires ':' !in pre && forall i :: 0 <= i < |ws| ==> IsSpace(ws[i])
    requires |word| >= 2 && word[|word| - 1] == 'e' && 'e' !in word[..|word| - 1]
    requires !IsSpace(word[0]) && !IsSpace(word[|word| - 2])
    ensures BooleanAt(pre + ":" + ws + word + rest, 0)
            == BooleanRead(StartsWith(word[..|word| - 1], "tru"), |pre| + |ws| + |word| + 1)
  {
    var stem := word[..|word| - 1];
    assert word == stem + "e";
    var s := pre + ":" + ws + word + rest;
    assert ReadUntil(s, 0, ':') == Read(pre, |pre| + 1) by {
      assert s == pre + [':'] + (ws + stem + "e" + rest);
      assert pre[0..] == pre;
      ReadUntilSplit(pre, ':', ws + stem + "e" + rest, 0);
    }
    var front := pre + ":" + ws + stem;
    assert ReadUntil(s, |pre| + 1, 'e') == Read(ws + stem, |front| + 1) by {
      assert s == front + ['e'] + rest;
      assert front[|pre| + 1..] == ws + stem;
      forall i | 0 <= i < |ws + stem| ensures (ws + stem)[i] != 'e' {
        if i < |ws| {
          assert IsSpace(ws[i]);
        } else {
          assert (ws + stem)[i] == stem[i - |ws|];
        }
      }
      ReadUntilSplit(front, 'e', rest, |pre| + 1);
    }
    TrimAfterSpaces(ws, stem);
  }
}
