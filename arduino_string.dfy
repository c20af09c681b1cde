/** The Arduino `String` operations the firmware relies on, over `seq<char>`.
    Positions are plain naturals; an Arduino `int` index of -1 ("not found")
    stays -1 here. */
module ArduinoString {

  datatype Option<T> = None | Some(value: T)

  /** isspace() of the C library: the characters `String::trim` removes. */
  predicate IsSpace(c: char) {
    c == ' ' || c == '\t' || c == '\n' || c == '\r' || c == '\U{000B}' || c == '\U{000C}'
  }

  /** Number of positions of `s` holding `c`, counted from the front. */
  function Occurrences(s: string, c: char): nat {
    if s == [] then 0 else (if s[0] == c then 1 else 0) + Occurrences(s[1..], c)
  }

  /** Occurrences agrees with the multiplicity of `c` in the multiset of `s`. */
  lemma {:induction false} OccurrencesIsMultiplicity(s: string, c: char)
    ensures Occurrences(s, c) == multiset(s)[c]
  {
    if s != [] {
      OccurrencesIsMultiplicity(s[1..], c);
      assert s == [s[0]] + s[1..];
      assert multiset(s) == multiset{s[0]} + multiset(s[1..]);
    }
  }

  /** `String::indexOf(c, from)`: the first position at or after `from` holding `c`, or -1. */
  function IndexOfFrom(s: string, c: char, from: nat): (r: int)
    ensures r == -1 || (from <= r < |s| && s[r] == c)
    ensures forall i :: from <= i < |s| && (r == -1 || i < r) ==> s[i] != c
    decreases |s| - from
  {
    if from >= |s| then -1
    else if s[from] == c then from
    else IndexOfFrom(s, c, from + 1)
  }

  /** `String::lastIndexOf(c)`: the last position holding `c`, or -1. */
  function LastIndexOf(s: string, c: char): (r: int)
    ensures r == -1 || (0 <= r < |s| && s[r] == c)
    ensures forall i :: 0 <= i < |s| && r < i ==> s[i] != c
  {
    if |s| == 0 then -1
    else if s[|s| - 1] == c then |s| - 1
    else LastIndexOf(s[..|s| - 1], c)
  }

  /** `String::startsWith(prefix)`. */
  predicate StartsWith(s: string, prefix: string) {
    |prefix| <= |s| && s[..|prefix|] == prefix
  }

  /** Leading white space removed, as the first half of `String::trim`. */
  function TrimStart(s: string): (r: string)
    ensures |r| <= |s| && r == s[|s| - |r|..]
    ensures r == [] || !IsSpace(r[0])
    ensures forall i :: 0 <= i < |s| - |r| ==> IsSpace(s[i])
  {
    if s != [] && IsSpace(s[0]) then TrimStart(s[1..]) else s
  }

  /** Trailing white space removed, as the second half of `String::trim`. */
  function TrimEnd(s: string): (r: string)
    ensures |r| <= |s| && r == s[..|r|]
    ensures r == [] || !IsSpace(r[|r| - 1])
    ensures forall i :: |r| <= i < |s| ==> IsSpace(s[i])
  {
    if s != [] && IsSpace(s[|s| - 1]) then TrimEnd(s[..|s| - 1]) else s
  }

  /** `String::trim`: the longest infix of `s` that neither starts nor ends with white space. */
  function Trim(s: string): string {
    TrimEnd(TrimStart(s))
  }

  /** Trimming a string with white space only in front of a word that
      starts and ends with a non-space character leaves exactly that word. */
  lemma TrimAfterSpaces(ws: string, w: string)
    requires forall i :: 0 <= i < |ws| ==> IsSpace(ws[i])
    requires w != [] && !IsSpace(w[0]) && !IsSpace(w[|w| - 1])
    ensures Trim(ws + w) == w
  {
    var t := TrimStart(ws + w);
    assert (ws + w)[|ws|] == w[0];
    assert |t| == |w|;
    assert t == w;
  }

  /** `String::replace(find, replacement)` for a one-character `find`: every
      occurrence of `c`, left to right, becomes `rep`. */
  function ReplaceAll(s: string, c: char, rep: string): (r: string)
    ensures c !in rep ==> c !in r
    ensures forall x :: x in r ==> (x in s && x != c) || x in rep
    ensures forall x :: x in s && x != c ==> x in r
  {
    if s == [] then [] else (if s[0] == c then rep else [s[0]]) + ReplaceAll(s[1..], c, rep)
  }

  /** Replacing in a concatenation is replacing in each part. */
  lemma {:induction false} ReplaceAllConcat(a: string, b: string, c: char, rep: string)
    ensures ReplaceAll(a + b, c, rep) == ReplaceAll(a, c, rep) + ReplaceAll(b, c, rep)
  {
    if a == [] {
      assert a + b == b;
    } else {
      assert (a + b)[0] == a[0];
      assert (a + b)[1..] == a[1..] + b;
      ReplaceAllConcat(a[1..], b, c, rep);
    }
  }

  /** Replacing a character that does not occur changes nothing. */
  lemma {:induction false} ReplaceAllAbsent(s: string, c: char, rep: string)
    requires c !in s
    ensures ReplaceAll(s, c, rep) == s
  {
    if s != [] {
      assert s[0] in s;
      assert forall x :: x in s[1..] ==> x in s;
      ReplaceAllAbsent(s[1..], c, rep);
    }
  }

  /** `replace` on a one-character string. */
  lemma ReplaceAllSingle(x: char, c: char, rep: string)
    ensures ReplaceAll([x], c, rep) == if x == c then rep else [x]
  {
    assert [x][1..] == [];
  }

  /** One `String::replace` call of a pass list. */
  datatype Pass = Pass(find: char, replacement: string)

  /** The successive in-place `replace` calls of `passes`, in order. */
  function ApplyPasses(s: string, passes: seq<Pass>): string
    decreases |passes|
  {
    if passes == [] then s
    else ApplyPasses(ReplaceAll(s, passes[0].find, passes[0].replacement), passes[1..])
  }

  /** A fixed list of one-character passes acts character by character. */
  lemma {:induction false} ApplyPassesConcat(a: string, b: string, passes: seq<Pass>)
    ensures ApplyPasses(a + b, passes) == ApplyPasses(a, passes) + ApplyPasses(b, passes)
    decreases |passes|
  {
    if passes != [] {
      ReplaceAllConcat(a, b, passes[0].find, passes[0].replacement);
      ApplyPassesConcat(ReplaceAll(a, passes[0].find, passes[0].replacement),
                        ReplaceAll(b, passes[0].find, passes[0].replacement), passes[1..]);
    }
  }

  /** Each character replaced by its image under `f`, in order. */
  function MapChars(s: string, f: char -> string): string {
    if s == [] then [] else f(s[0]) + MapChars(s[1..], f)
  }

  lemma {:induction false} MapCharsConcat(a: string, b: string, f: char -> string)
    ensures MapChars(a + b, f) == MapChars(a, f) + MapChars(b, f)
  {
    if a == [] {
      assert a + b == b;
    } else {
      calc {
        MapChars(a + b, f);
      == { assert (a + b)[0] == a[0] && (a + b)[1..] == a[1..] + b; }
        f(a[0]) + MapChars(a[1..] + b, f);
      == { MapCharsConcat(a[1..], b, f); }
        f(a[0]) + (MapChars(a[1..], f) + MapChars(b, f));
      ==
        (f(a[0]) + MapChars(a[1..], f)) + MapChars(b, f);
      }
    }
  }

  /** A pass list that sends every single character `c` to `f(c)` acts on
      any string as `MapChars` with `f`. */
  lemma {:induction false} PassesMapChars(s: string, passes: seq<Pass>, f: char -> string)
    requires forall c :: ApplyPasses([c], passes) == f(c)
    ensures ApplyPasses(s, passes) == MapChars(s, f)
  {
    if s == [] {
      ApplyPassesConcat([], [], passes);
    } else {
      assert s == [s[0]] + s[1..];
      ApplyPassesConcat([s[0]], s[1..], passes);
      PassesMapChars(s[1..], passes, f);
      assert ApplyPasses([s[0]], passes) == f(s[0]);
    }
  }

  /** `String(char*)`: the characters of a C buffer before its first NUL. */
  function CString(buf: seq<char>): (r: string)
    ensures '\0' !in r
    ensures |r| <= |buf| && r == buf[..|r|]
    ensures |r| == |buf| || buf[|r|] == '\0'
  {
    if buf == [] || buf[0] == '\0' then [] else [buf[0]] + CString(buf[1..])
  }
}
