/** Two documents scanned end to end: the keys `scanNextKey` reports, in
    order, and the values the extractors read after them. A document is
    written as the list of its quote-separated tokens, so that where each
    token lies follows from one general lemma; keys and values are arbitrary
    plain words. */
module ScanExamples {
  import opened ArduinoString
  import opened StreamScanner

  /** Tokens separated by quotes: the text `readStringUntil('"')` cuts into exactly these tokens. */
  function Join(toks: seq<string>): string {
    if toks == [] then ""
    else if |toks| == 1 then toks[0]
    else toks[0] + "\"" + Join(toks[1..])
  }

  /** Where the cursor stands after token `i`: at the next token, or at the end after the last one. */
  function Next(toks: seq<string>, i: nat): nat
    requires i < |toks|
  {
    if i + 1 < |toks| then Offset(toks, i + 1) else |Join(toks)|
  }

  predicate QuoteFree(toks: seq<string>) {
    forall i :: 0 <= i < |toks| ==> '"' !in toks[i]
  }

  lemma {:induction false} JoinAppend(xs: seq<string>, ys: seq<string>)
    requires xs != [] && ys != []
    ensures Join(xs + ys) == Join(xs) + "\"" + Join(ys)
    decreases |xs|
  {
    if |xs| == 1 {
      assert (xs + ys)[1..] == ys;
    } else {
      assert (xs + ys)[1..] == xs[1..] + ys;
      JoinAppend(xs[1..], ys);
      assert Join(xs + ys) == xs[0] + "\"" + (Join(xs[1..]) + "\"" + Join(ys));
    }
  }

  /** Token `i` begins right after the quote that ends `Join(toks[..i])`. */
  lemma {:induction false} JoinSplit(toks: seq<string>, i: nat)
    requires 0 < i < |toks|
    ensures Join(toks) == Join(toks[..i]) + "\"" + Join(toks[i..])
    ensures |toks[i]| <= |Join(toks[i..])|
  {
    assert toks == toks[..i] + toks[i..];
    JoinAppend(toks[..i], toks[i..]);
  }

  /** Where token `i` of `Join(toks)` starts. */
  function Offset(toks: seq<string>, i: nat): (r: nat)
    requires i < |toks|
    ensures r + |toks[i]| <= |Join(toks)|
  {
    if i == 0 then 0
    else
      JoinSplit(toks, i);
      |Join(toks[..i])| + 1
  }

  /** Token `i` of a quote-free token list is read by one `readStringUntil('"')`
      from its offset; the cursor then stands at the next token, or at the
      end after the last one. */
  lemma {:induction false} TokenRead(toks: seq<string>, i: nat)
    requires QuoteFree(toks) && i < |toks|
    ensures Offset(toks, i) + |toks[i]| <= |Join(toks)|
    ensures i + 1 < |toks| ==> Offset(toks, i + 1) == Offset(toks, i) + |toks[i]| + 1
    ensures i + 1 == |toks| ==> Offset(toks, i) + |toks[i]| == |Join(toks)|
    ensures ReadUntil(Join(toks), Offset(toks, i), '"') == Read(toks[i], Next(toks, i))
  {
    var front := TokenPrefix(toks, i);
    if i + 1 < |toks| {
      InnerTokenRead(toks, i, front);
    } else {
      LastTokenRead(toks, i, front);
    }
  }

  /** The text up to and including token `i`: what precedes it, then the token. */
  lemma {:induction false} TokenPrefix(toks: seq<string>, i: nat) returns (front: string)
    requires i < |toks|
    ensures |front| == Offset(toks, i)
    ensures Join(toks[..i + 1]) == front + toks[i]
  {
    front := if i == 0 then "" else Join(toks[..i]) + "\"";
    assert toks[..i + 1] == toks[..i] + [toks[i]];
    if i > 0 {
      JoinAppend(toks[..i], [toks[i]]);
    }
  }

  lemma {:induction false} InnerTokenRead(toks: seq<string>, i: nat, front: string)
    requires QuoteFree(toks) && i + 1 < |toks|
    requires |front| == Offset(toks, i) && Join(toks[..i + 1]) == front + toks[i]
    ensures Offset(toks, i + 1) == Offset(toks, i) + |toks[i]| + 1
    ensures ReadUntil(Join(toks), Offset(toks, i), '"') == Read(toks[i], Offset(toks, i + 1))
  {
    assert (front + toks[i])[|front|..] == toks[i];
    assert toks == toks[..i + 1] + toks[i + 1..];
    JoinAppend(toks[..i + 1], toks[i + 1..]);
    ReadUntilSplit(front + toks[i], '"', Join(toks[i + 1..]), |front|);
  }

  lemma {:induction false} LastTokenRead(toks: seq<string>, i: nat, front: string)
    requires QuoteFree(toks) && i + 1 == |toks|
    requires |front| == Offset(toks, i) && Join(toks[..i + 1]) == front + toks[i]
    ensures Offset(toks, i) + |toks[i]| == |Join(toks)|
    ensures ReadUntil(Join(toks), Offset(toks, i), '"') == Read(toks[i], |Join(toks)|)
  {
    assert (front + toks[i])[|front|..] == toks[i];
    assert toks[..i + 1] == toks;
    ReadUntilAbsent(front + toks[i], |front|, '"');
  }

  /** `scanNextKey` from the start of token `i`: that token is classified and
      the scan either returns it as a key or goes on from the next token. */
  lemma {:induction false} ScanTokenAt(toks: seq<string>, i: nat, st: ScanState)
    requires QuoteFree(toks) && i < |toks| && (i + 1 < |toks| || toks[i] != [])
    ensures var e := ClassifyToken(st, toks[i]);
            Offset(toks, i) < |Join(toks)| && Next(toks, i) <= |Join(toks)|
            && NextKey(Join(toks), Offset(toks, i), st)
               == if e.isKey then KeyScan(e.state.path, Next(toks, i), e.state)
                  else NextKey(Join(toks), Next(toks, i), e.state)
  {
    TokenRead(toks, i);
    NextKeyUnfold(Join(toks), Offset(toks, i), st);
  }

  /** The last token, when it is no key, ends the scan with no key found. */
  lemma {:induction false} LastTokenScan(toks: seq<string>, i: nat, st: ScanState)
    requires QuoteFree(toks) && i + 1 == |toks| && toks[i] != []
    requires !ClassifyToken(st, toks[i]).isKey
    ensures NextKey(Join(toks), Offset(toks, i), st) == KeyScan("", |Join(toks)|, ClassifyToken(st, toks[i]).state)
  {
    ScanTokenAt(toks, i, st);
  }

  /** `scanString` from the start of token `i` skips that token and returns the one after it. */
  lemma {:induction false} StringAtTokens(toks: seq<string>, i: nat)
    requires QuoteFree(toks) && i + 1 < |toks|
    ensures StringAt(Join(toks), Offset(toks, i)) == Read(toks[i + 1], Next(toks, i + 1))
  {
    TokenRead(toks, i);
    TokenRead(toks, i + 1);
  }

  /** A key or value the scanner treats as a bare word: not empty, no white
      space at either end, and no brace, quote, colon, comma, square bracket
      or slash. */
  predicate Plain(w: string) {
    w != [] && !IsSpace(w[0]) && !IsSpace(w[|w| - 1])
    && '{' !in w && '}' !in w && '"' !in w && ':' !in w
    && ',' !in w && '[' !in w && ']' !in w && '/' !in w
  }

  lemma {:induction false} PlainToken(w: string)
    requires Plain(w)
    ensures Occurrences(w, '{') == 0 && Occurrences(w, '}') == 0 && Trim(w) == w
    ensures ':' !in w && !Punctuation(w) && '"' !in w && '/' !in w
  {
    OccurrencesIsMultiplicity(w, '{');
    OccurrencesIsMultiplicity(w, '}');
    assert [] + w == w;
    TrimAfterSpaces([], w);
  }

  /** A plain word read while no value is expected is a key, pushed or
      replacing the innermost key as `_push` says. */
  lemma {:induction false} PlainKey(st: ScanState, w: string, keys: seq<string>)
    requires Plain(w) && SlashFree(keys) && st.path == Render(keys) && !st.isValue
    ensures var pushed := if st.push then keys else DropLast(keys);
            ClassifyToken(st, w) == TokenEffect(ScanState(Render(pushed + [w]), false, false), true)
  {
    PlainToken(w);
    BareTokenIsKey(st, w, keys);
  }

  /** A plain word read right after a bare colon is a skipped value. */
  lemma {:induction false} PlainValue(st: ScanState, w: string)
    requires Plain(w) && st.isValue
    ensures ClassifyToken(st, w) == TokenEffect(ScanState(st.path, false, false), false)
  {
    PlainToken(w);
    ValueTokenSkipped(st, w);
  }

  // The punctuation tokens of the two documents below, in any state.

  lemma {:induction false} OpenBrace(st: ScanState)
    ensures ClassifyToken(st, "{") == TokenEffect(ScanState(st.path, true, false), false)
  {}

  lemma {:induction false} ColonOpenBrace(st: ScanState)
    ensures ClassifyToken(st, ":{") == TokenEffect(ScanState(st.path, true, false), false)
  {}

  lemma {:induction false} ColonOpenArray(st: ScanState)
    ensures ClassifyToken(st, ":[{") == TokenEffect(ScanState(st.path, true, false), false)
  {}

  lemma {:induction false} BetweenElements(st: ScanState)
    ensures ClassifyToken(st, "},{") == TokenEffect(ScanState(st.path, false, false), false)
  {}

  /** `}}` and `}]}` each close two levels and open none. */
  lemma {:induction false} ClosingCounts()
    ensures Occurrences("}}", '{') == 0 && Occurrences("}}", '}') == 2
    ensures Occurrences("}]}", '{') == 0 && Occurrences("}]}", '}') == 2
  {}

  /** A token closing two levels, read below two keys, returns to the root. */
  lemma {:induction false} PairPopsToRoot(st: ScanState, w: string, a: string, c: string)
    requires Plain(a) && Plain(c) && st.path == Render([a, c])
    requires Occurrences(w, '{') == 0 && Occurrences(w, '}') == 2
    ensures ClassifyToken(st, w) == TokenEffect(ScanState("", false, false), false)
  {
    ClosingTokenPops(st, 0, 2, Trim(w), [a, c]);
    assert [a, c][..0] == [];
  }

  lemma {:induction false} NumberThenComma(st: ScanState)
    ensures ClassifyToken(st, ":1,") == TokenEffect(ScanState(st.path, false, false), false)
  {
    assert Occurrences(":1,", '{') == 0 && Occurrences(":1,", '}') == 0;
    assert Trim(":1,") == ":1,";
  }

  lemma {:induction false} BareColon(st: ScanState)
    ensures ClassifyToken(st, ":") == TokenEffect(ScanState(st.path, false, true), false)
  {}

  // ---------------------------------------------------------------------
  // {"a":{"b":1,"c":"x"}}

  /** The tokens of `{"a":{"b":1,"c":"x"}}` with keys `a`, `b`, `c` and string value `x`. */
  function NestedObject(a: string, b: string, c: string, x: string): seq<string> {
    ["{", a, ":{", b, ":1,", c, ":", x, "}}"]
  }

  lemma {:induction false} NestedQuoteFree(a: string, b: string, c: string, x: string)
    requires Plain(a) && Plain(b) && Plain(c) && Plain(x)
    ensures QuoteFree(NestedObject(a, b, c, x)) && |NestedObject(a, b, c, x)| == 9
  {
  }

  /** The opening brace sets `_push`. */
  lemma {:induction false} NestedOpen(t: seq<string>, a: string, b: string, c: string, x: string)
    requires Plain(a) && Plain(b) && Plain(c) && Plain(x)
    requires QuoteFree(t) && |t| == 9 && t[0] == "{"
    ensures NextKey(Join(t), Offset(t, 0), Initial) == NextKey(Join(t), Offset(t, 1), ScanState("", true, false))
  {
    OpenBrace(Initial);
    assert ClassifyToken(Initial, "{") == TokenEffect(ScanState("", true, false), false);
    ScanTokenAt(t, 0, Initial);
  }

  /** `a` is pushed onto the root and returned. */
  lemma {:induction false} NestedKeyA(t: seq<string>, a: string, b: string, c: string, x: string)
    requires Plain(a) && Plain(b) && Plain(c) && Plain(x)
    requires QuoteFree(t) && |t| == 9 && t[1] == a
    ensures NextKey(Join(t), Offset(t, 1), ScanState("", true, false)) == KeyScan(Render([a]), Offset(t, 2), ScanState(Render([a]), false, false))
  {
    PlainKey(ScanState("", true, false), a, []);
    assert [] + [a] == [a];
    assert ClassifyToken(ScanState("", true, false), a) == TokenEffect(ScanState(Render([a]), false, false), true);
    ScanTokenAt(t, 1, ScanState("", true, false));
  }

  /** `:{` opens the inner object. */
  lemma {:induction false} NestedInner(t: seq<string>, a: string, b: string, c: string, x: string)
    requires Plain(a) && Plain(b) && Plain(c) && Plain(x)
    requires QuoteFree(t) && |t| == 9 && t[2] == ":{"
    ensures NextKey(Join(t), Offset(t, 2), ScanState(Render([a]), false, false)) == NextKey(Join(t), Offset(t, 3), ScanState(Render([a]), true, false))
  {
    ColonOpenBrace(ScanState(Render([a]), false, false));
    assert ClassifyToken(ScanState(Render([a]), false, false), ":{") == TokenEffect(ScanState(Render([a]), true, false), false);
    ScanTokenAt(t, 2, ScanState(Render([a]), false, false));
  }

  /** `b` is pushed under `a` and returned. */
  lemma {:induction false} NestedKeyB(t: seq<string>, a: string, b: string, c: string, x: string)
    requires Plain(a) && Plain(b) && Plain(c) && Plain(x)
    requires QuoteFree(t) && |t| == 9 && t[3] == b
    ensures NextKey(Join(t), Offset(t, 3), ScanState(Render([a]), true, false)) == KeyScan(Render([a, b]), Offset(t, 4), ScanState(Render([a, b]), false, false))
  {
    PlainKey(ScanState(Render([a]), true, false), b, [a]);
    assert ClassifyToken(ScanState(Render([a]), true, false), b) == TokenEffect(ScanState(Render([a, b]), false, false), true);
    ScanTokenAt(t, 3, ScanState(Render([a]), true, false));
  }

  /** `:1,` is skipped: a number value and a comma. */
  lemma {:induction false} NestedNumber(t: seq<string>, a: string, b: string, c: string, x: string)
    requires Plain(a) && Plain(b) && Plain(c) && Plain(x)
    requires QuoteFree(t) && |t| == 9 && t[4] == ":1,"
    ensures NextKey(Join(t), Offset(t, 4), ScanState(Render([a, b]), false, false)) == NextKey(Join(t), Offset(t, 5), ScanState(Render([a, b]), false, false))
  {
    NumberThenComma(ScanState(Render([a, b]), false, false));
    assert ClassifyToken(ScanState(Render([a, b]), false, false), ":1,") == TokenEffect(ScanState(Render([a, b]), false, false), false);
    ScanTokenAt(t, 4, ScanState(Render([a, b]), false, false));
  }

  /** `c` replaces `b` and is returned. */
  lemma {:induction false} NestedKeyC(t: seq<string>, a: string, b: string, c: string, x: string)
    requires Plain(a) && Plain(b) && Plain(c) && Plain(x)
    requires QuoteFree(t) && |t| == 9 && t[5] == c
    ensures NextKey(Join(t), Offset(t, 5), ScanState(Render([a, b]), false, false)) == KeyScan(Render([a, c]), Offset(t, 6), ScanState(Render([a, c]), false, false))
  {
    PlainKey(ScanState(Render([a, b]), false, false), c, [a, b]);
    assert DropLast([a, b]) + [c] == [a, c];
    assert ClassifyToken(ScanState(Render([a, b]), false, false), c) == TokenEffect(ScanState(Render([a, c]), false, false), true);
    ScanTokenAt(t, 5, ScanState(Render([a, b]), false, false));
  }

  /** A bare colon announces a value. */
  lemma {:induction false} NestedColon(t: seq<string>, a: string, b: string, c: string, x: string)
    requires Plain(a) && Plain(b) && Plain(c) && Plain(x)
    requires QuoteFree(t) && |t| == 9 && t[6] == ":"
    ensures NextKey(Join(t), Offset(t, 6), ScanState(Render([a, c]), false, false)) == NextKey(Join(t), Offset(t, 7), ScanState(Render([a, c]), false, true))
  {
    BareColon(ScanState(Render([a, c]), false, false));
    assert ClassifyToken(ScanState(Render([a, c]), false, false), ":") == TokenEffect(ScanState(Render([a, c]), false, true), false);
    ScanTokenAt(t, 6, ScanState(Render([a, c]), false, false));
  }

  /** The string value `x` is skipped. */
  lemma {:induction false} NestedValue(t: seq<string>, a: string, b: string, c: string, x: string)
    requires Plain(a) && Plain(b) && Plain(c) && Plain(x)
    requires QuoteFree(t) && |t| == 9 && t[7] == x
    ensures NextKey(Join(t), Offset(t, 7), ScanState(Render([a, c]), false, true)) == NextKey(Join(t), Offset(t, 8), ScanState(Render([a, c]), false, false))
  {
    PlainValue(ScanState(Render([a, c]), false, true), x);
    assert ClassifyToken(ScanState(Render([a, c]), false, true), x) == TokenEffect(ScanState(Render([a, c]), false, false), false);
    ScanTokenAt(t, 7, ScanState(Render([a, c]), false, true));
  }

  /** The two closing braces pop both keys, and the stream ends. */
  lemma {:induction false} NestedClose(t: seq<string>, a: string, b: string, c: string, x: string)
    requires Plain(a) && Plain(b) && Plain(c) && Plain(x)
    requires QuoteFree(t) && |t| == 9 && t[8] == "}}"
    ensures NextKey(Join(t), Offset(t, 8), ScanState(Render([a, c]), false, false)) == KeyScan("", |Join(t)|, ScanState("", false, false))
  {
    var st := ScanState(Render([a, c]), false, false);
    ClosingCounts();
    PairPopsToRoot(st, t[8], a, c);
    LastTokenScan(t, 8, st);
  }

  /** Render a stack of one or two keys. */
  lemma {:induction false} RenderPair(a: string, b: string)
    ensures Render([a]) == "/" + a && Render([a, b]) == "/" + a + "/" + b
  {
    assert [a][..0] == [] && [a, b][..1] == [a];
  }

  /** The scan of any token list laid out like `NestedObject`. */
  lemma {:induction false} NestedScan(t: seq<string>, a: string, b: string, c: string, x: string)
    requires Plain(a) && Plain(b) && Plain(c) && Plain(x)
    requires QuoteFree(t) && |t| == 9 && t[0] == "{" && t[1] == a && t[2] == ":{" && t[3] == b
    requires t[4] == ":1," && t[5] == c && t[6] == ":" && t[7] == x && t[8] == "}}"
    ensures var s := Join(t);
            var r1 := NextKey(s, 0, Initial);
            var r2 := NextKey(s, r1.cursor, r1.state);
            var r3 := NextKey(s, r2.cursor, r2.state);
            var r4 := NextKey(s, r3.cursor, r3.state);
            r1 == KeyScan(Render([a]), Offset(t, 2), ScanState(Render([a]), false, false))
            && r2 == KeyScan(Render([a, b]), Offset(t, 4), ScanState(Render([a, b]), false, false))
            && r3 == KeyScan(Render([a, c]), Offset(t, 6), ScanState(Render([a, c]), false, false))
            && r4 == KeyScan("", |s|, ScanState("", false, false))
  {
    NestedOpen(t, a, b, c, x);
    NestedKeyA(t, a, b, c, x);
    NestedInner(t, a, b, c, x);
    NestedKeyB(t, a, b, c, x);
    NestedNumber(t, a, b, c, x);
    NestedKeyC(t, a, b, c, x);
    NestedColon(t, a, b, c, x);
    NestedValue(t, a, b, c, x);
    NestedClose(t, a, b, c, x);
  }

  /** On `{"a":{"b":1,"c":"x"}}` successive `scanNextKey` calls return `/a`,
      `/a/b`, `/a/c` and then `""`, with the whole stream consumed. */
  lemma {:induction false} NestedObjectKeys(a: string, b: string, c: string, x: string)
    requires Plain(a) && Plain(b) && Plain(c) && Plain(x)
    ensures var s := Join(NestedObject(a, b, c, x));
            var r1 := NextKey(s, 0, Initial);
            var r2 := NextKey(s, r1.cursor, r1.state);
            var r3 := NextKey(s, r2.cursor, r2.state);
            var r4 := NextKey(s, r3.cursor, r3.state);
            r1.key == "/" + a && r2.key == "/" + a + "/" + b && r3.key == "/" + a + "/" + c
            && r4.key == "" && r4.cursor == |s|
  {
    NestedQuoteFree(a, b, c, x);
    NestedScan(NestedObject(a, b, c, x), a, b, c, x);
    RenderPair(a, b);
    RenderPair(a, c);
  }

  // ---------------------------------------------------------------------
  // {"items":[{"name":"A"},{"name":"B"}]}

  /** The tokens of `{"items":[{"name":"A"},{"name":"B"}]}` with array key
      `k`, element key `n` and element values `v1` and `v2`. */
  function ItemArray(k: string, n: string, v1: string, v2: string): seq<string> {
    ["{", k, ":[{", n, ":", v1, "},{", n, ":", v2, "}]}"]
  }

  lemma {:induction false} ItemQuoteFree(k: string, n: string, v1: string, v2: string)
    requires Plain(k) && Plain(n) && '"' !in v1 && '"' !in v2
    ensures QuoteFree(ItemArray(k, n, v1, v2)) && |ItemArray(k, n, v1, v2)| == 11
  {
  }

  /** The opening brace sets `_push`. */
  lemma {:induction false} ItemOpen(t: seq<string>, k: string, n: string, v1: string, v2: string)
    requires Plain(k) && Plain(n) && '"' !in v1 && '"' !in v2
    requires QuoteFree(t) && |t| == 11 && t[0] == "{"
    ensures NextKey(Join(t), Offset(t, 0), Initial) == NextKey(Join(t), Offset(t, 1), ScanState("", true, false))
  {
    OpenBrace(Initial);
    assert ClassifyToken(Initial, "{") == TokenEffect(ScanState("", true, false), false);
    ScanTokenAt(t, 0, Initial);
  }

  /** The array key is pushed onto the root and returned. */
  lemma {:induction false} ItemKeyArray(t: seq<string>, k: string, n: string, v1: string, v2: string)
    requires Plain(k) && Plain(n) && '"' !in v1 && '"' !in v2
    requires QuoteFree(t) && |t| == 11 && t[1] == k
    ensures NextKey(Join(t), Offset(t, 1), ScanState("", true, false)) == KeyScan(Render([k]), Offset(t, 2), ScanState(Render([k]), false, false))
  {
    PlainKey(ScanState("", true, false), k, []);
    assert [] + [k] == [k];
    assert ClassifyToken(ScanState("", true, false), k) == TokenEffect(ScanState(Render([k]), false, false), true);
    ScanTokenAt(t, 1, ScanState("", true, false));
  }

  /** `:[{` opens the array and its first element. */
  lemma {:induction false} ItemFirstElement(t: seq<string>, k: string, n: string, v1: string, v2: string)
    requires Plain(k) && Plain(n) && '"' !in v1 && '"' !in v2
    requires QuoteFree(t) && |t| == 11 && t[2] == ":[{"
    ensures NextKey(Join(t), Offset(t, 2), ScanState(Render([k]), false, false)) == NextKey(Join(t), Offset(t, 3), ScanState(Render([k]), true, false))
  {
    ColonOpenArray(ScanState(Render([k]), false, false));
    assert ClassifyToken(ScanState(Render([k]), false, false), ":[{") == TokenEffect(ScanState(Render([k]), true, false), false);
    ScanTokenAt(t, 2, ScanState(Render([k]), false, false));
  }

  /** The element key is pushed under the array key and returned. */
  lemma {:induction false} ItemFirstKey(t: seq<string>, k: string, n: string, v1: string, v2: string)
    requires Plain(k) && Plain(n) && '"' !in v1 && '"' !in v2
    requires QuoteFree(t) && |t| == 11 && t[3] == n
    ensures NextKey(Join(t), Offset(t, 3), ScanState(Render([k]), true, false)) == KeyScan(Render([k, n]), Offset(t, 4), ScanState(Render([k, n]), false, false))
  {
    PlainKey(ScanState(Render([k]), true, false), n, [k]);
    assert ClassifyToken(ScanState(Render([k]), true, false), n) == TokenEffect(ScanState(Render([k, n]), false, false), true);
    ScanTokenAt(t, 3, ScanState(Render([k]), true, false));
  }

  /** `},{` closes one element and opens the next: the path is kept. */
  lemma {:induction false} ItemNextElement(t: seq<string>, k: string, n: string, v1: string, v2: string)
    requires Plain(k) && Plain(n) && '"' !in v1 && '"' !in v2
    requires QuoteFree(t) && |t| == 11 && t[6] == "},{"
    ensures NextKey(Join(t), Offset(t, 6), ScanState(Render([k, n]), false, false)) == NextKey(Join(t), Offset(t, 7), ScanState(Render([k, n]), false, false))
  {
    BetweenElements(ScanState(Render([k, n]), false, false));
    assert ClassifyToken(ScanState(Render([k, n]), false, false), "},{") == TokenEffect(ScanState(Render([k, n]), false, false), false);
    ScanTokenAt(t, 6, ScanState(Render([k, n]), false, false));
  }

  /** The element key replaces itself: the same path is returned again. */
  lemma {:induction false} ItemSecondKey(t: seq<string>, k: string, n: string, v1: string, v2: string)
    requires Plain(k) && Plain(n) && '"' !in v1 && '"' !in v2
    requires QuoteFree(t) && |t| == 11 && t[7] == n
    ensures NextKey(Join(t), Offset(t, 7), ScanState(Render([k, n]), false, false)) == KeyScan(Render([k, n]), Offset(t, 8), ScanState(Render([k, n]), false, false))
  {
    PlainKey(ScanState(Render([k, n]), false, false), n, [k, n]);
    assert DropLast([k, n]) + [n] == [k, n];
    assert ClassifyToken(ScanState(Render([k, n]), false, false), n) == TokenEffect(ScanState(Render([k, n]), false, false), true);
    ScanTokenAt(t, 7, ScanState(Render([k, n]), false, false));
  }

  /** `}]}` closes the last element, the array and the object, and the stream ends. */
  lemma {:induction false} ItemClose(t: seq<string>, k: string, n: string, v1: string, v2: string)
    requires Plain(k) && Plain(n) && '"' !in v1 && '"' !in v2
    requires QuoteFree(t) && |t| == 11 && t[10] == "}]}"
    ensures NextKey(Join(t), Offset(t, 10), ScanState(Render([k, n]), false, false)) == KeyScan("", |Join(t)|, ScanState("", false, false))
  {
    var st := ScanState(Render([k, n]), false, false);
    ClosingCounts();
    PairPopsToRoot(st, t[10], k, n);
    LastTokenScan(t, 10, st);
  }

  /** The scan of any token list laid out like `ItemArray`, as `getDeviceList`
      performs it. */
  lemma {:induction false} ItemScan(t: seq<string>, k: string, n: string, v1: string, v2: string)
    requires Plain(k) && Plain(n) && '"' !in v1 && '"' !in v2
    requires QuoteFree(t) && |t| == 11 && t[0] == "{" && t[1] == k && t[2] == ":[{" && t[3] == n && t[4] == ":"
    requires t[5] == v1 && t[6] == "},{" && t[7] == n && t[8] == ":" && t[9] == v2 && t[10] == "}]}"
    ensures var s := Join(t);
            var r1 := NextKey(s, 0, Initial);
            var r2 := NextKey(s, r1.cursor, r1.state);
            var e1 := StringAt(s, r2.cursor);
            var r3 := NextKey(s, e1.next, r2.state);
            var e2 := StringAt(s, r3.cursor);
            var r4 := NextKey(s, e2.next, r3.state);
            r1.key == Render([k]) && r2.key == Render([k, n]) && e1.text == v1
            && r3.key == Render([k, n]) && e2.text == v2 && r4.key == "" && r4.cursor == |s|
  {
    ItemOpen(t, k, n, v1, v2);
    ItemKeyArray(t, k, n, v1, v2);
    ItemFirstElement(t, k, n, v1, v2);
    ItemFirstKey(t, k, n, v1, v2);
    StringAtTokens(t, 4);
    ItemNextElement(t, k, n, v1, v2);
    ItemSecondKey(t, k, n, v1, v2);
    StringAtTokens(t, 8);
    ItemClose(t, k, n, v1, v2);
  }

  /** On `{"items":[{"name":"A"},{"name":"B"}]}`, scanned as `getDeviceList`
      does (`scanNextKey`, and `scanString` after each element key): the
      element key `/items/name` is returned once per element, each time
      followed by that element's value, and the scan ends with `""`. */
  lemma {:induction false} ItemArrayKeys(k: string, n: string, v1: string, v2: string)
    requires Plain(k) && Plain(n) && '"' !in v1 && '"' !in v2
    ensures var s := Join(ItemArray(k, n, v1, v2));
            var r1 := NextKey(s, 0, Initial);
            var r2 := NextKey(s, r1.cursor, r1.state);
            var e1 := StringAt(s, r2.cursor);
            var r3 := NextKey(s, e1.next, r2.state);
            var e2 := StringAt(s, r3.cursor);
            var r4 := NextKey(s, e2.next, r3.state);
            r1.key == "/" + k && r2.key == "/" + k + "/" + n && e1.text == v1
            && r3.key == "/" + k + "/" + n && e2.text == v2 && r4.key == "" && r4.cursor == |s|
  {
    ItemQuoteFree(k, n, v1, v2);
    ItemScan(ItemArray(k, n, v1, v2), k, n, v1, v2);
    RenderPair(k, n);
  }
}
