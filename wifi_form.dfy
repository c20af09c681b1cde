/** The HTML escaping of network names for the Wi-Fi setup form. */
module WiFiForm {
  import opened ArduinoString

  /** The six characters `htmlEscapedString` rewrites. */
  predicate Special(c: char) {
    c == '<' || c == '>' || c == '&' || c == '"' || c == '\'' || c == ' '
  }

  /** A character that may appear in escaped text: anything but the
      specials, except the `&` that starts a character reference. */
  predicate Safe(c: char) {
    !Special(c) || c == '&'
  }

  /** A character reference as the firmware writes them: `&` followed by
      characters that are not special. */
  predicate Reference(e: string) {
    |e| >= 2 && e[0] == '&' && forall i :: 1 <= i < |e| ==> !Special(e[i])
  }

  /** A character-wise escape: every special character becomes a character
      reference starting with `&` and made of safe characters; every other
      character is kept. */
  predicate EscapesSpecials(f: char -> string) {
    forall c :: (Special(c) ==> |f(c)| > 1 && f(c)[0] == '&' && forall k :: 0 <= k < |f(c)| ==> Safe(f(c)[k]))
             && (!Special(c) ==> f(c) == [c])
  }

  lemma {:induction false} EscapingIsSafe(s: string, f: char -> string)
    requires EscapesSpecials(f)
    ensures forall i :: 0 <= i < |MapChars(s, f)| ==> Safe(MapChars(s, f)[i])
  {
    if s != [] {
      EscapingIsSafe(s[1..], f);
      var head := f(s[0]);
      var r := MapChars(s, f);
      assert r == head + MapChars(s[1..], f);
      forall i | 0 <= i < |r|
        ensures Safe(r[i])
      {
        if i < |head| {
          assert r[i] == head[i];
        } else {
          assert r[i] == MapChars(s[1..], f)[i - |head|];
        }
      }
    }
  }

  /** Escaping never shortens, and keeps the length exactly when there is
      nothing to escape. */
  lemma {:induction false} EscapingLength(s: string, f: char -> string)
    requires EscapesSpecials(f)
    ensures |MapChars(s, f)| >= |s|
    ensures |MapChars(s, f)| == |s| <==> forall i :: 0 <= i < |s| ==> !Special(s[i])
  {
    if s != [] {
      EscapingLength(s[1..], f);
      assert forall i :: 1 <= i < |s| ==> s[i] == s[1..][i - 1];
    }
  }

  /** Escaping is the identity exactly on text without special characters. */
  lemma {:induction false} EscapingIdentity(s: string, f: char -> string)
    requires EscapesSpecials(f)
    ensures MapChars(s, f) == s <==> forall i :: 0 <= i < |s| ==> !Special(s[i])
  {
    EscapingLength(s, f);
    if forall i :: 0 <= i < |s| ==> !Special(s[i]) {
      KeepsPlain(s, f);
    }
  }

  lemma {:induction false} KeepsPlain(s: string, f: char -> string)
    requires EscapesSpecials(f)
    requires forall i :: 0 <= i < |s| ==> !Special(s[i])
    ensures MapChars(s, f) == s
  {
    if s != [] {
      assert forall i :: 0 <= i < |s[1..]| ==> s[1..][i] == s[i + 1];
      KeepsPlain(s[1..], f);
    }
  }

  /** Text with a special character escapes to text holding an `&`. */
  lemma {:induction false} EscapingIntroducesAmpersand(s: string, f: char -> string, i: nat)
    requires EscapesSpecials(f)
    requires i < |s| && Special(s[i])
    ensures '&' in MapChars(s, f)
  {
    if i == 0 {
      assert MapChars(s, f) == f(s[0]) + MapChars(s[1..], f);
      assert MapChars(s, f)[0] == '&';
    } else {
      assert s[1..][i - 1] == s[i];
      EscapingIntroducesAmpersand(s[1..], f, i - 1);
      assert MapChars(s, f) == f(s[0]) + MapChars(s[1..], f);
    }
  }

  /** Escaping is not idempotent: once something was escaped, the `&` it
      introduced is escaped again. */
  lemma EscapingNotIdempotent(s: string, f: char -> string, i: nat)
    requires EscapesSpecials(f)
    requires i < |s| && Special(s[i])
    ensures MapChars(MapChars(s, f), f) != MapChars(s, f)
  {
    var e := MapChars(s, f);
    EscapingIntroducesAmpersand(s, f, i);
    var j :| 0 <= j < |e| && e[j] == '&';
    EscapingIdentity(e, f);
  }

  // ---------------------------------------------------------------------
  // The six replace-all passes on one character
  // ---------------------------------------------------------------------

  const Lt := "&lt;"
  const Gt := "&gt;"
  const Amp := "&amp;"
  const Quot := "&quot;"
  const Apos := "&#39;"
  const Nbsp := "&nbsp;"

  lemma ReferencesWellFormed()
    ensures Reference(Lt) && Reference(Gt) && Reference(Amp)
    ensures Reference(Quot) && Reference(Apos) && Reference(Nbsp)
  {
  }

  /** A pass for a special character other than `&` leaves a reference alone. */
  lemma ReferenceKept(e: string, c: char, rep: string)
    requires Reference(e) && Special(c) && c != '&'
    ensures ReplaceAll(e, c, rep) == e
  {
    assert e[0] != c;
    assert forall i :: 0 <= i < |e| ==> e[i] != c;
    ReplaceAllAbsent(e, c, rep);
  }

  /** The `&` pass escapes the leading `&` of a reference, and only that one. */
  lemma ReferenceAmpersand(e: string, amp: string)
    requires Reference(e) && Reference(amp)
    ensures ReplaceAll(e, '&', amp) == amp + e[1..]
    ensures Reference(amp + e[1..])
  {
    assert forall i :: 0 <= i < |e[1..]| ==> e[1..][i] == e[i + 1] && e[1..][i] != '&';
    assert e == [e[0]] + e[1..];
    ReplaceAllConcat([e[0]], e[1..], '&', amp);
    ReplaceAllSingle(e[0], '&', amp);
    ReplaceAllAbsent(e[1..], '&', amp);
    var r := amp + e[1..];
    forall i | 1 <= i < |r|
      ensures !Special(r[i])
    {
      if i >= |amp| {
        assert r[i] == e[i - |amp| + 1];
      }
    }
  }

  lemma SixPasses(s: string, P: seq<Pass>)
    requires |P| == 6
    ensures ApplyPasses(s, P) ==
      ReplaceAll(ReplaceAll(ReplaceAll(ReplaceAll(ReplaceAll(ReplaceAll(s,
        P[0].find, P[0].replacement), P[1].find, P[1].replacement), P[2].find, P[2].replacement),
        P[3].find, P[3].replacement), P[4].find, P[4].replacement), P[5].find, P[5].replacement)
  {
    var s1 := ReplaceAll(s, P[0].find, P[0].replacement);
    var s2 := ReplaceAll(s1, P[1].find, P[1].replacement);
    var s3 := ReplaceAll(s2, P[2].find, P[2].replacement);
    var s4 := ReplaceAll(s3, P[3].find, P[3].replacement);
    var s5 := ReplaceAll(s4, P[4].find, P[4].replacement);
    var s6 := ReplaceAll(s5, P[5].find, P[5].replacement);
    assert ApplyPasses(s, P) == ApplyPasses(s1, P[1..]);
    assert ApplyPasses(s1, P[1..]) == ApplyPasses(s2, P[2..]) by { assert P[1..][0] == P[1] && P[1..][1..] == P[2..]; }
    assert ApplyPasses(s2, P[2..]) == ApplyPasses(s3, P[3..]) by { assert P[2..][0] == P[2] && P[2..][1..] == P[3..]; }
    assert ApplyPasses(s3, P[3..]) == ApplyPasses(s4, P[4..]) by { assert P[3..][0] == P[3] && P[3..][1..] == P[4..]; }
    assert ApplyPasses(s4, P[4..]) == ApplyPasses(s5, P[5..]) by { assert P[4..][0] == P[4] && P[4..][1..] == P[5..]; }
    assert ApplyPasses(s5, P[5..]) == ApplyPasses(s6, P[6..]) by { assert P[5..][0] == P[5] && P[5..][1..] == P[6..]; }
    assert P[6..] == [];
  }

  /** What the passes of `htmlEscapedString` make of one character, for any
      six references: a `<` or `>` meets its own pass and then the `&` pass. */
  lemma AsWrittenOnCharacter(c: char, P: seq<Pass>, lt: string, gt: string, amp: string,
                             quot: string, apos: string, nbsp: string)
    requires Reference(lt) && Reference(gt) && Reference(amp)
    requires Reference(quot) && Reference(apos) && Reference(nbsp)
    requires P == [Pass('<', lt), Pass('>', gt), Pass('&', amp), Pass('"', quot), Pass('\'', apos), Pass(' ', nbsp)]
    ensures ApplyPasses([c], P) ==
      if c == '<' then amp + lt[1..] else if c == '>' then amp + gt[1..] else if c == '&' then amp
      else if c == '"' then quot else if c == '\'' then apos else if c == ' ' then nbsp else [c]
  {
    SixPasses([c], P);
    ReplaceAllSingle(c, '<', lt);
    if c == '<' {
      ReferenceKept(lt, '>', gt);
      ReferenceAmpersand(lt, amp);
      LaterPassesKeep(amp + lt[1..], quot, apos, nbsp);
    } else {
      ReplaceAllSingle(c, '>', gt);
      if c == '>' {
        ReferenceAmpersand(gt, amp);
        LaterPassesKeep(amp + gt[1..], quot, apos, nbsp);
      } else {
        ReplaceAllSingle(c, '&', amp);
        if c == '&' {
          LaterPassesKeep(amp, quot, apos, nbsp);
        } else {
          LastThreePasses(c, quot, apos, nbsp);
        }
      }
    }
  }

  /** The `"`, `'` and space passes leave a reference alone. */
  lemma LaterPassesKeep(e: string, quot: string, apos: string, nbsp: string)
    requires Reference(e)
    ensures ReplaceAll(ReplaceAll(ReplaceAll(e, '"', quot), '\'', apos), ' ', nbsp) == e
  {
    ReferenceKept(e, '"', quot);
    ReferenceKept(e, '\'', apos);
    ReferenceKept(e, ' ', nbsp);
  }

  /** The `"`, `'` and space passes on a character none of the earlier
      passes touched. */
  lemma LastThreePasses(c: char, quot: string, apos: string, nbsp: string)
    requires Reference(quot) && Reference(apos) && Reference(nbsp)
    ensures ReplaceAll(ReplaceAll(ReplaceAll([c], '"', quot), '\'', apos), ' ', nbsp) ==
      if c == '"' then quot else if c == '\'' then apos else if c == ' ' then nbsp else [c]
  {
    ReplaceAllSingle(c, '"', quot);
    if c == '"' {
      ReferenceKept(quot, '\'', apos);
      ReferenceKept(quot, ' ', nbsp);
    } else {
      ReplaceAllSingle(c, '\'', apos);
      if c == '\'' {
        ReferenceKept(apos, ' ', nbsp);
      } else {
        ReplaceAllSingle(c, ' ', nbsp);
      }
    }
  }

  // ---------------------------------------------------------------------
  // htmlEscapedString as written
  // ---------------------------------------------------------------------

  /** The six in-place `replace` calls of `htmlEscapedString`, in order. */
  const EscapePasses := [Pass('<', Lt), Pass('>', Gt), Pass('&', Amp),
                         Pass('"', Quot), Pass('\'', Apos), Pass(' ', Nbsp)]

  /** What the six passes make of one character: `<` and `>` are escaped
      before `&`, so the `&` of their reference is escaped again, giving
      `&amp;lt;` and `&amp;gt;`. */
  function EscapeAsWritten(c: char): string {
    if c == '<' then Amp + Lt[1..]
    else if c == '>' then Amp + Gt[1..]
    else if c == '&' then Amp
    else if c == '"' then Quot
    else if c == '\'' then Apos
    else if c == ' ' then Nbsp
    else [c]
  }

  lemma AsWrittenEscapesSpecials()
    ensures EscapesSpecials(EscapeAsWritten)
  {
    ReferencesWellFormed();
    ReferenceAmpersand(Lt, Amp);
    ReferenceAmpersand(Gt, Amp);
  }

  /** `htmlEscapedString`: six successive replace-all passes, which act on
      each character independently. */
  method HtmlEscapedString(source: string) returns (r: string)
    ensures r == MapChars(source, EscapeAsWritten)
  {
    r := source;
    r := ReplaceAll(r, '<', Lt);
    r := ReplaceAll(r, '>', Gt);
    r := ReplaceAll(r, '&', Amp);
    r := ReplaceAll(r, '"', Quot);
    r := ReplaceAll(r, '\'', Apos);
    r := ReplaceAll(r, ' ', Nbsp);
    SixPasses(source, EscapePasses);
    ReferencesWellFormed();
    forall c
      ensures ApplyPasses([c], EscapePasses) == EscapeAsWritten(c)
    {
      AsWrittenOnCharacter(c, EscapePasses, Lt, Gt, Amp, Quot, Apos, Nbsp);
    }
    PassesMapChars(source, EscapePasses, EscapeAsWritten);
  }

  /** The output holds no `<`, `>`, `"`, `'` or space, is the input exactly
      when the input holds none of the six specials, and changes again when
      escaped a second time whenever the input held one. */
  lemma AsWrittenEscaping(s: string)
    ensures forall i :: 0 <= i < |MapChars(s, EscapeAsWritten)| ==> Safe(MapChars(s, EscapeAsWritten)[i])
    ensures MapChars(s, EscapeAsWritten) == s <==> forall i :: 0 <= i < |s| ==> !Special(s[i])
    ensures (exists i :: 0 <= i < |s| && Special(s[i])) ==>
      MapChars(MapChars(s, EscapeAsWritten), EscapeAsWritten) != MapChars(s, EscapeAsWritten)
  {
    AsWrittenEscapesSpecials();
    EscapingIsSafe(s, EscapeAsWritten);
    EscapingIdentity(s, EscapeAsWritten);
    if exists i :: 0 <= i < |s| && Special(s[i]) {
      var i :| 0 <= i < |s| && Special(s[i]);
      EscapingNotIdempotent(s, EscapeAsWritten, i);
    }
  }

  // ---------------------------------------------------------------------
  // Decoding character references
  // ---------------------------------------------------------------------

  /** The character `&nbsp;` stands for, U+00A0, which is not the space. */
  const NoBreakSpace: char := '\U{A0}'

  /** What a browser shows for escaped text: the six references the
      firmware emits are turned back into the character they stand for;
      anything else is kept. */
  function Unescape(s: string): string
    decreases |s|
  {
    if s == [] then []
    else if StartsWith(s, Lt) then "<" + Unescape(s[|Lt|..])
    else if StartsWith(s, Gt) then ">" + Unescape(s[|Gt|..])
    else if StartsWith(s, Amp) then "&" + Unescape(s[|Amp|..])
    else if StartsWith(s, Quot) then "\"" + Unescape(s[|Quot|..])
    else if StartsWith(s, Apos) then "'" + Unescape(s[|Apos|..])
    else if StartsWith(s, Nbsp) then [NoBreakSpace] + Unescape(s[|Nbsp|..])
    else [s[0]] + Unescape(s[1..])
  }

  /** Text that differs from a reference in its first two characters does
      not start with it. */
  lemma NotStartsWith(s: string, e: string, k: nat)
    requires k < |s| && k < |e| && s[k] != e[k]
    ensures !StartsWith(s, e)
  {
    if |e| <= |s| {
      assert s[..|e|][k] != e[k];
    }
  }

  lemma UnescapePlain(c: char, t: string)
    requires c != '&'
    ensures Unescape([c] + t) == [c] + Unescape(t)
  {
    var s := [c] + t;
    NotStartsWith(s, Lt, 0);
    NotStartsWith(s, Gt, 0);
    NotStartsWith(s, Amp, 0);
    NotStartsWith(s, Quot, 0);
    NotStartsWith(s, Apos, 0);
    NotStartsWith(s, Nbsp, 0);
    assert s[1..] == t;
  }

  /** Decoding leaves text without `&` unchanged. */
  lemma {:induction false} UnescapeNoAmpersand(s: string)
    requires '&' !in s
    ensures Unescape(s) == s
  {
    if s != [] {
      assert s == [s[0]] + s[1..];
      assert s[0] in s;
      assert forall x :: x in s[1..] ==> x in s;
      UnescapePlain(s[0], s[1..]);
      UnescapeNoAmpersand(s[1..]);
    }
  }

  lemma UnescapeLt(t: string)
    ensures Unescape(Lt + t) == "<" + Unescape(t)
  {
    var s := Lt + t;
    assert s[..|Lt|] == Lt && s[|Lt|..] == t;
  }

  lemma UnescapeGt(t: string)
    ensures Unescape(Gt + t) == ">" + Unescape(t)
  {
    var s := Gt + t;
    assert s[..|Gt|] == Gt && s[|Gt|..] == t;
    NotStartsWith(s, Lt, 1);
  }

  lemma UnescapeAmp(t: string)
    ensures Unescape(Amp + t) == "&" + Unescape(t)
  {
    var s := Amp + t;
    assert s[..|Amp|] == Amp && s[|Amp|..] == t;
    NotStartsWith(s, Lt, 1);
    NotStartsWith(s, Gt, 1);
  }

  lemma UnescapeQuot(t: string)
    ensures Unescape(Quot + t) == "\"" + Unescape(t)
  {
    var s := Quot + t;
    assert s[..|Quot|] == Quot && s[|Quot|..] == t;
    NotStartsWith(s, Lt, 1);
    NotStartsWith(s, Gt, 1);
    NotStartsWith(s, Amp, 1);
  }

  lemma UnescapeApos(t: string)
    ensures Unescape(Apos + t) == "'" + Unescape(t)
  {
    var s := Apos + t;
    assert s[..|Apos|] == Apos && s[|Apos|..] == t;
    NotStartsWith(s, Lt, 1);
    NotStartsWith(s, Gt, 1);
    NotStartsWith(s, Amp, 1);
    NotStartsWith(s, Quot, 1);
  }

  lemma UnescapeNbsp(t: string)
    ensures Unescape(Nbsp + t) == [NoBreakSpace] + Unescape(t)
  {
    var s := Nbsp + t;
    assert s[..|Nbsp|] == Nbsp && s[|Nbsp|..] == t;
    NotStartsWith(s, Lt, 1);
    NotStartsWith(s, Gt, 1);
    NotStartsWith(s, Amp, 1);
    NotStartsWith(s, Quot, 1);
    NotStartsWith(s, Apos, 1);
  }

  /** The escape as written cannot be undone: `<` and the text `&lt;` escape
      alike, and a browser decodes both to the latter. */
  lemma AsWrittenCollides(a: string, b: string)
    requires a == "<" && b == Lt
    ensures a != b
    ensures MapChars(a, EscapeAsWritten) == MapChars(b, EscapeAsWritten)
    ensures Unescape(MapChars(a, EscapeAsWritten)) == b
  {
    assert |a| != |b|;
    AsWrittenEscapesSpecials();
    ReferencesWellFormed();
    var name := b[1..];
    assert b == [b[0]] + name;
    KeepsPlain(name, EscapeAsWritten);
    assert MapChars(b, EscapeAsWritten) == Amp + name;
    assert a[1..] == [];
    assert MapChars(a, EscapeAsWritten) == Amp + name;
    UnescapeAmp(name);
    assert forall i :: 0 <= i < |name| ==> name[i] == b[i + 1] && name[i] != '&';
    UnescapeNoAmpersand(name);
  }

  // ---------------------------------------------------------------------
  // The escape with `&` first
  // ---------------------------------------------------------------------

  /** The same six passes with the `&` pass moved to the front. */
  const AmpersandFirstPasses := [Pass('&', Amp), Pass('<', Lt), Pass('>', Gt),
                                 Pass('"', Quot), Pass('\'', Apos), Pass(' ', Nbsp)]

  /** The reference each special character is meant to become. */
  function EntityOf(c: char): string {
    if c == '<' then Lt
    else if c == '>' then Gt
    else if c == '&' then Amp
    else if c == '"' then Quot
    else if c == '\'' then Apos
    else if c == ' ' then Nbsp
    else [c]
  }

  lemma EntityOfEscapesSpecials()
    ensures EscapesSpecials(EntityOf)
  {
    ReferencesWellFormed();
  }

  /** With `&` first, every character meets exactly one pass. */
  lemma AmpersandFirstOnCharacter(c: char, P: seq<Pass>, lt: string, gt: string, amp: string,
                                  quot: string, apos: string, nbsp: string)
    requires Reference(lt) && Reference(gt) && Reference(amp)
    requires Reference(quot) && Reference(apos) && Reference(nbsp)
    requires P == [Pass('&', amp), Pass('<', lt), Pass('>', gt), Pass('"', quot), Pass('\'', apos), Pass(' ', nbsp)]
    ensures ApplyPasses([c], P) ==
      if c == '<' then lt else if c == '>' then gt else if c == '&' then amp
      else if c == '"' then quot else if c == '\'' then apos else if c == ' ' then nbsp else [c]
  {
    SixPasses([c], P);
    ReplaceAllSingle(c, '&', amp);
    if c == '&' {
      ReferenceKept(amp, '<', lt);
      ReferenceKept(amp, '>', gt);
      LaterPassesKeep(amp, quot, apos, nbsp);
    } else {
      ReplaceAllSingle(c, '<', lt);
      if c == '<' {
        ReferenceKept(lt, '>', gt);
        LaterPassesKeep(lt, quot, apos, nbsp);
      } else {
        ReplaceAllSingle(c, '>', gt);
        if c == '>' {
          LaterPassesKeep(gt, quot, apos, nbsp);
        } else {
          LastThreePasses(c, quot, apos, nbsp);
        }
      }
    }
  }

  /** `htmlEscapedString` with the `&` pass first. */
  method HtmlEscapedStringAmpersandFirst(source: string) returns (r: string)
    ensures r == MapChars(source, EntityOf)
  {
    r := source;
    r := ReplaceAll(r, '&', Amp);
    r := ReplaceAll(r, '<', Lt);
    r := ReplaceAll(r, '>', Gt);
    r := ReplaceAll(r, '"', Quot);
    r := ReplaceAll(r, '\'', Apos);
    r := ReplaceAll(r, ' ', Nbsp);
    SixPasses(source, AmpersandFirstPasses);
    ReferencesWellFormed();
    forall c
      ensures ApplyPasses([c], AmpersandFirstPasses) == EntityOf(c)
    {
      AmpersandFirstOnCharacter(c, AmpersandFirstPasses, Lt, Gt, Amp, Quot, Apos, Nbsp);
    }
    PassesMapChars(source, AmpersandFirstPasses, EntityOf);
  }

  /** What a browser shows for one character escaped with `&` first: a
      space comes back as a no-break space, the rest as itself. */
  function ShownEntity(c: char): string {
    if c == ' ' then [NoBreakSpace] else [c]
  }

  /** Decoding undoes one escaped character, up to the no-break space. */
  lemma UnescapeEntity(c: char, t: string)
    ensures Unescape(EntityOf(c) + t) == ShownEntity(c) + Unescape(t)
  {
    if c == '<' {
      UnescapeLt(t);
    } else if c == '>' {
      UnescapeGt(t);
    } else if c == '&' {
      UnescapeAmp(t);
    } else if c == '"' {
      UnescapeQuot(t);
    } else if c == '\'' {
      UnescapeApos(t);
    } else if c == ' ' {
      UnescapeNbsp(t);
    } else {
      UnescapePlain(c, t);
    }
  }

  /** With `&` escaped first, decoding gives back the original text with
      every space turned into a no-break space. */
  lemma {:induction false} AmpersandFirstDecoding(s: string)
    ensures Unescape(MapChars(s, EntityOf)) == MapChars(s, ShownEntity)
  {
    if s != [] {
      AmpersandFirstDecoding(s[1..]);
      UnescapeEntity(s[0], MapChars(s[1..], EntityOf));
    }
  }

  lemma {:induction false} ShownEntityKeeps(s: string)
    ensures MapChars(s, ShownEntity) == s <==> ' ' !in s
    ensures forall c :: c in MapChars(s, ShownEntity) && AsciiWhitespace(c) ==> c in s && c != ' '
  {
    if s != [] {
      ShownEntityKeeps(s[1..]);
      assert s == [s[0]] + s[1..];
      assert forall y :: y in s <==> y == s[0] || y in s[1..];
      assert MapChars(s, ShownEntity) == ShownEntity(s[0]) + MapChars(s[1..], ShownEntity);
      if s[0] == ' ' {
        assert MapChars(s, ShownEntity)[0] == NoBreakSpace;
      }
    }
  }

  /** The value a browser reads from the `&`-first escape as the text of an
      option is the name exactly when the name holds no white space. */
  lemma AmpersandFirstRoundTrip(s: string)
    ensures TextValue(MapChars(s, EntityOf)) == s <==> NoWhitespace(s)
  {
    AmpersandFirstDecoding(s);
    ShownEntityKeeps(s);
    var y := MapChars(s, ShownEntity);
    if NoWhitespace(s) {
      assert s == [] || s[0] in s;
      assert ' ' !in s;
      CollapseKeeps(y, false);
    }
    if TextValue(MapChars(s, EntityOf)) == s {
      StripCollapseClean(s, y);
    }
  }

  /** The `&`-first escape is as safe as the original and is the identity
      exactly on plain text. */
  lemma AmpersandFirstEscaping(s: string)
    ensures forall i :: 0 <= i < |MapChars(s, EntityOf)| ==> Safe(MapChars(s, EntityOf)[i])
    ensures MapChars(s, EntityOf) == s <==> forall i :: 0 <= i < |s| ==> !Special(s[i])
  {
    EntityOfEscapesSpecials();
    EscapingIsSafe(s, EntityOf);
    EscapingIdentity(s, EntityOf);
  }

  // The escape as written, read back

  /** What a browser shows for one character escaped as written: `<` and
      `>` come back as the text of their references, the rest as itself. */
  function ShownAs(c: char): string {
    if c == '<' then Lt else if c == '>' then Gt else ShownEntity(c)
  }

  /** Decoding passes over text without `&` unchanged. */
  lemma {:induction false} UnescapePlainPrefix(x: string, t: string)
    requires forall i :: 0 <= i < |x| ==> x[i] != '&'
    ensures Unescape(x + t) == x + Unescape(t)
  {
    forall c: char, s: string | c != '&'
      ensures Unescape([c] + s) == [c] + Unescape(s)
    {
      UnescapePlain(c, s);
    }
    PassesPlainPrefix(Unescape, x, t);
  }

  /** A text map that passes every character other than `&` through, one
      at a time, passes a whole `&`-free prefix through. */
  lemma {:induction false} PassesPlainPrefix(f: string -> string, x: string, t: string)
    requires forall c: char, s: string :: c != '&' ==> f([c] + s) == [c] + f(s)
    requires forall i :: 0 <= i < |x| ==> x[i] != '&'
    ensures f(x + t) == x + f(t)
  {
    if x == [] {
      assert x + t == t;
    } else {
      PassesPlainPrefix(f, x[1..], t);
      assert x + t == [x[0]] + (x[1..] + t);
      assert x == [x[0]] + x[1..];
    }
  }

  /** A reference whose `&` was escaped again is read back as the text of
      the reference. */
  lemma UnescapeDoubled(e: string, t: string)
    requires Reference(e)
    ensures Unescape(Amp + e[1..] + t) == e + Unescape(t)
  {
    var rest := e[1..];
    UnescapeAmp(rest + t);
    assert forall i :: 0 <= i < |rest| ==> rest[i] == e[i + 1];
    UnescapePlainPrefix(rest, t);
    ReadsAmpersandThenPlain(Unescape, e, t);
  }

  /** The bookkeeping of `UnescapeDoubled` for any text map. */
  lemma ReadsAmpersandThenPlain(f: string -> string, e: string, t: string)
    requires e != [] && e[0] == '&'
    requires f(Amp + (e[1..] + t)) == "&" + f(e[1..] + t)
    requires f(e[1..] + t) == e[1..] + f(t)
    ensures f(Amp + e[1..] + t) == e + f(t)
  {
    assert Amp + e[1..] + t == Amp + (e[1..] + t);
    assert "&" + (e[1..] + f(t)) == e + f(t);
  }

  lemma UnescapeAsWritten(c: char, t: string)
    ensures Unescape(EscapeAsWritten(c) + t) == ShownAs(c) + Unescape(t)
  {
    if c == '<' {
      ReferencesWellFormed();
      UnescapeDoubled(Lt, t);
    } else if c == '>' {
      ReferencesWellFormed();
      UnescapeDoubled(Gt, t);
    } else {
      assert EscapeAsWritten(c) == EntityOf(c) && ShownAs(c) == ShownEntity(c);
      UnescapeEntity(c, t);
    }
  }

  /** A browser decodes a name escaped as written to the name with every
      `<` and `>` turned into the text `&lt;` or `&gt;` and every space into
      a no-break space. */
  lemma {:induction false} AsWrittenDecoding(s: string)
    ensures Unescape(MapChars(s, EscapeAsWritten)) == MapChars(s, ShownAs)
  {
    if s != [] {
      AsWrittenDecoding(s[1..]);
      UnescapeAsWritten(s[0], MapChars(s[1..], EscapeAsWritten));
    }
  }

  lemma {:induction false} ShownAsKeeps(s: string)
    ensures |MapChars(s, ShownAs)| >= |s|
    ensures MapChars(s, ShownAs) == s <==> '<' !in s && '>' !in s && ' ' !in s
    ensures forall c :: c in MapChars(s, ShownAs) && AsciiWhitespace(c) ==> c in s && c != ' '
    ensures '<' !in MapChars(s, ShownAs) && '>' !in MapChars(s, ShownAs)
  {
    if s != [] {
      ShownAsKeeps(s[1..]);
      assert s == [s[0]] + s[1..];
      assert forall y :: y in s <==> y == s[0] || y in s[1..];
      assert MapChars(s, ShownAs) == ShownAs(s[0]) + MapChars(s[1..], ShownAs);
      assert forall y :: y in ShownAs(s[0]) ==> y != '<' && y != '>' && (AsciiWhitespace(y) ==> y == s[0] && y != ' ');
      if s[0] == ' ' {
        assert MapChars(s, ShownAs)[0] == NoBreakSpace;
      }
    }
  }

  /** The value a browser reads from the escape as written, as the text of
      an option, is the name exactly when the name holds neither `<` nor
      `>` nor white space. */
  lemma AsWrittenRoundTrip(s: string)
    ensures TextValue(MapChars(s, EscapeAsWritten)) == s <==> '<' !in s && '>' !in s && NoWhitespace(s)
  {
    AsWrittenDecoding(s);
    ShownAsKeeps(s);
    var y := MapChars(s, ShownAs);
    if '<' !in s && '>' !in s && NoWhitespace(s) {
      assert s == [] || s[0] in s;
      assert ' ' !in s;
      CollapseKeeps(y, false);
    }
    if TextValue(MapChars(s, EscapeAsWritten)) == s {
      StripCollapseClean(s, y);
    }
  }

  // ---------------------------------------------------------------------
  // White space in an option's text
  // ---------------------------------------------------------------------

  /** ASCII white space as HTML defines it: tab, line feed, form feed,
      carriage return and space. The no-break space is not among them. */
  predicate AsciiWhitespace(c: char) {
    c == '\t' || c == '\n' || c == '\U{0C}' || c == '\r' || c == ' '
  }

  predicate NoWhitespace(s: string) {
    forall i :: 0 <= i < |s| ==> !AsciiWhitespace(s[i])
  }

  /** HTML's strip and collapse of ASCII white space: runs at either end
      are dropped and every inner run becomes one space. `started` says a
      character was already kept, `gap` that white space followed it. */
  function Collapse(s: string, started: bool, gap: bool): string
    decreases |s|
  {
    if s == [] then []
    else if AsciiWhitespace(s[0]) then Collapse(s[1..], started, started)
    else (if gap then " " else "") + [s[0]] + Collapse(s[1..], true, false)
  }

  function StripCollapse(s: string): string {
    Collapse(s, false, false)
  }

  /** The value of an `<option>` without a `value` attribute: its text with
      references decoded, then white space stripped and collapsed. */
  function TextValue(s: string): string {
    StripCollapse(Unescape(s))
  }

  /** Text without white space is kept as it is. */
  lemma {:induction false} CollapseKeeps(s: string, started: bool)
    requires NoWhitespace(s)
    ensures Collapse(s, started, false) == s
  {
    if s != [] {
      assert forall i :: 0 <= i < |s[1..]| ==> s[1..][i] == s[i + 1];
      CollapseKeeps(s[1..], true);
      assert s == [s[0]] + s[1..];
    }
  }

  /** Collapsing writes no white space but the space, and no other
      character that was not there. */
  lemma {:induction false} CollapseOutput(s: string, started: bool, gap: bool)
    ensures forall c :: c in Collapse(s, started, gap) ==> c == ' ' || (c in s && !AsciiWhitespace(c))
    decreases |s|
  {
    if s != [] {
      assert forall c :: c in s[1..] ==> c in s;
      assert s[0] in s;
      if AsciiWhitespace(s[0]) {
        CollapseOutput(s[1..], started, started);
      } else {
        CollapseOutput(s[1..], true, false);
      }
    }
  }

  /** Text whose only white space is white space of `s` other than the
      space collapses to `s` only when it is `s` and has none. */
  lemma StripCollapseClean(s: string, y: string)
    requires forall c :: c in y && AsciiWhitespace(c) ==> c in s && c != ' '
    requires StripCollapse(y) == s
    ensures NoWhitespace(y) && y == s
  {
    CollapseOutput(y, false, false);
    forall i | 0 <= i < |y|
      ensures !AsciiWhitespace(y[i])
    {
      assert y[i] in y;
    }
    CollapseKeeps(y, false);
  }

  // ---------------------------------------------------------------------
  // Escaping for a `value` attribute
  // ---------------------------------------------------------------------

  /** The `&`-first passes without the space pass, for a double-quoted
      attribute value, where white space is kept as it is. */
  const AttributePasses := [Pass('&', Amp), Pass('<', Lt), Pass('>', Gt),
                            Pass('"', Quot), Pass('\'', Apos)]

  function AttributeEscape(c: char): string {
    if c == ' ' then [c] else EntityOf(c)
  }

  lemma FivePasses(s: string, P: seq<Pass>)
    requires |P| == 5
    ensures ApplyPasses(s, P) ==
      ReplaceAll(ReplaceAll(ReplaceAll(ReplaceAll(ReplaceAll(s,
        P[0].find, P[0].replacement), P[1].find, P[1].replacement), P[2].find, P[2].replacement),
        P[3].find, P[3].replacement), P[4].find, P[4].replacement)
  {
    var s1 := ReplaceAll(s, P[0].find, P[0].replacement);
    var s2 := ReplaceAll(s1, P[1].find, P[1].replacement);
    var s3 := ReplaceAll(s2, P[2].find, P[2].replacement);
    var s4 := ReplaceAll(s3, P[3].find, P[3].replacement);
    var s5 := ReplaceAll(s4, P[4].find, P[4].replacement);
    assert ApplyPasses(s, P) == ApplyPasses(s1, P[1..]);
    assert ApplyPasses(s1, P[1..]) == ApplyPasses(s2, P[2..]) by { assert P[1..][0] == P[1] && P[1..][1..] == P[2..]; }
    assert ApplyPasses(s2, P[2..]) == ApplyPasses(s3, P[3..]) by { assert P[2..][0] == P[2] && P[2..][1..] == P[3..]; }
    assert ApplyPasses(s3, P[3..]) == ApplyPasses(s4, P[4..]) by { assert P[3..][0] == P[3] && P[3..][1..] == P[4..]; }
    assert ApplyPasses(s4, P[4..]) == ApplyPasses(s5, P[5..]) by { assert P[4..][0] == P[4] && P[4..][1..] == P[5..]; }
    assert P[5..] == [];
  }

  /** Each character meets exactly one of the five passes. */
  lemma AttributeOnCharacter(c: char, P: seq<Pass>, lt: string, gt: string, amp: string,
                             quot: string, apos: string)
    requires Reference(lt) && Reference(gt) && Reference(amp)
    requires Reference(quot) && Reference(apos)
    requires P == [Pass('&', amp), Pass('<', lt), Pass('>', gt), Pass('"', quot), Pass('\'', apos)]
    ensures ApplyPasses([c], P) ==
      if c == '<' then lt else if c == '>' then gt else if c == '&' then amp
      else if c == '"' then quot else if c == '\'' then apos else [c]
  {
    FivePasses([c], P);
    ReplaceAllSingle(c, '&', amp);
    if c == '&' {
      ReferenceKept(amp, '<', lt);
      ReferenceKept(amp, '>', gt);
      ReferenceKept(amp, '"', quot);
      ReferenceKept(amp, '\'', apos);
    } else {
      ReplaceAllSingle(c, '<', lt);
      if c == '<' {
        ReferenceKept(lt, '>', gt);
        ReferenceKept(lt, '"', quot);
        ReferenceKept(lt, '\'', apos);
      } else {
        ReplaceAllSingle(c, '>', gt);
        if c == '>' {
          ReferenceKept(gt, '"', quot);
          ReferenceKept(gt, '\'', apos);
        } else {
          ReplaceAllSingle(c, '"', quot);
          if c == '"' {
            ReferenceKept(quot, '\'', apos);
          } else {
            ReplaceAllSingle(c, '\'', apos);
          }
        }
      }
    }
  }

  /** The five passes for an attribute value. */
  method HtmlAttributeEscapedString(source: string) returns (r: string)
    ensures r == MapChars(source, AttributeEscape)
  {
    r := source;
    r := ReplaceAll(r, '&', Amp);
    r := ReplaceAll(r, '<', Lt);
    r := ReplaceAll(r, '>', Gt);
    r := ReplaceAll(r, '"', Quot);
    r := ReplaceAll(r, '\'', Apos);
    FivePasses(source, AttributePasses);
    ReferencesWellFormed();
    forall c
      ensures ApplyPasses([c], AttributePasses) == AttributeEscape(c)
    {
      AttributeOnCharacter(c, AttributePasses, Lt, Gt, Amp, Quot, Apos);
    }
    PassesMapChars(source, AttributePasses, AttributeEscape);
  }

  lemma UnescapeAttribute(c: char, t: string)
    ensures Unescape(AttributeEscape(c) + t) == [c] + Unescape(t)
  {
    if c == ' ' {
      UnescapePlain(c, t);
    } else {
      UnescapeEntity(c, t);
    }
  }

  lemma {:induction false} AttributeDecoding(s: string)
    ensures Unescape(MapChars(s, AttributeEscape)) == s
  {
    if s != [] {
      AttributeDecoding(s[1..]);
      UnescapeAttribute(s[0], MapChars(s[1..], AttributeEscape));
    }
  }

  lemma {:induction false} AttributeNoQuote(s: string)
    ensures '"' !in MapChars(s, AttributeEscape)
  {
    if s != [] {
      AttributeNoQuote(s[1..]);
      assert '"' !in AttributeEscape(s[0]);
    }
  }

  /** An attribute value escaped this way holds no `"`, so it ends at the
      closing quote, and decodes to exactly the original text. */
  lemma AttributeRoundTrip(s: string)
    ensures '"' !in MapChars(s, AttributeEscape)
    ensures Unescape(MapChars(s, AttributeEscape)) == s
  {
    AttributeNoQuote(s);
    AttributeDecoding(s);
  }
}
