/** lib/pdf/docxToPdf.ts: `{{ key }}` substitution into the HTML converted from a DOCX template. Each
    entry of the data is HTML-escaped and put in place of every `{{ key }}` token, keys in entry order;
    tokens left over are deleted at the end. Reading the template file and converting it to HTML are
    outside the model: the converted HTML is a parameter. */
module DocxToPdf {
  import opened Base
  import opened Strings
  import opened JsValue
  import opened Regex

  // ---- escapeHtml ----

  /** The five characters HTML escaping replaces. */
  predicate IsMarkup(c: char)
  {
    c == '&' || c == '<' || c == '>' || c == '"' || c == '\''
  }

  /** The characters that never survive escaping. */
  predicate IsTagOrQuote(c: char)
  {
    c == '<' || c == '>' || c == '"' || c == '\''
  }

  /** What escaping does to one character. */
  function EntityOf(c: char): (r: string)
    ensures !IsMarkup(c) ==> r == [c]
  {
    if c == '&' then "&amp;"
    else if c == '<' then "&lt;"
    else if c == '>' then "&gt;"
    else if c == '"' then "&quot;"
    else if c == '\'' then "&#39;"
    else [c]
  }

  /** The five global replaces of escapeHtml, ampersands first. */
  function EscapeText(s: string): (r: string)
    ensures (forall i :: 0 <= i < |s| ==> !IsMarkup(s[i])) ==> r == s
  {
    ReplaceAllChar(ReplaceAllChar(ReplaceAllChar(ReplaceAllChar(ReplaceAllChar(
      s, '&', "&amp;"), '<', "&lt;"), '>', "&gt;"), '"', "&quot;"), '\'', "&#39;")
  }

  lemma EscapeTextAppend(a: string, b: string)
    ensures EscapeText(a + b) == EscapeText(a) + EscapeText(b)
  {
    ReplaceAllCharAppend(a, b, '&', "&amp;");
    var a1, b1 := ReplaceAllChar(a, '&', "&amp;"), ReplaceAllChar(b, '&', "&amp;");
    ReplaceAllCharAppend(a1, b1, '<', "&lt;");
    var a2, b2 := ReplaceAllChar(a1, '<', "&lt;"), ReplaceAllChar(b1, '<', "&lt;");
    ReplaceAllCharAppend(a2, b2, '>', "&gt;");
    var a3, b3 := ReplaceAllChar(a2, '>', "&gt;"), ReplaceAllChar(b2, '>', "&gt;");
    ReplaceAllCharAppend(a3, b3, '"', "&quot;");
    var a4, b4 := ReplaceAllChar(a3, '"', "&quot;"), ReplaceAllChar(b3, '"', "&quot;");
    ReplaceAllCharAppend(a4, b4, '\'', "&#39;");
  }

  /** One character through one pass. */
  lemma ReplaceOne(c: char, x: char, rep: string)
    ensures ReplaceAllChar([c], x, rep) == if c == x then rep else [c]
  {
    assert [c][1..] == [];
  }

  /** A pass leaves alone a text without its character. */
  lemma Keep(s: string, x: char, rep: string)
    requires forall i :: 0 <= i < |s| ==> s[i] != x
    ensures ReplaceAllChar(s, x, rep) == s
  {
    assert x !in s;
  }

  /** The entity written by each pass contains none of the characters the later passes replace. */
  lemma AmpersandEntityStays(e: string)
    requires e == "&amp;"
    ensures ReplaceAllChar(ReplaceAllChar(ReplaceAllChar(ReplaceAllChar(e, '<', "&lt;"), '>', "&gt;"), '"', "&quot;"), '\'', "&#39;") == e
  {
    Keep(e, '<', "&lt;");
    Keep(e, '>', "&gt;");
    Keep(e, '"', "&quot;");
    Keep(e, '\'', "&#39;");
  }

  lemma LessThanEntityStays(e: string)
    requires e == "&lt;"
    ensures ReplaceAllChar(ReplaceAllChar(ReplaceAllChar(e, '>', "&gt;"), '"', "&quot;"), '\'', "&#39;") == e
  {
    Keep(e, '>', "&gt;");
    Keep(e, '"', "&quot;");
    Keep(e, '\'', "&#39;");
  }

  lemma GreaterThanEntityStays(e: string)
    requires e == "&gt;"
    ensures ReplaceAllChar(ReplaceAllChar(e, '"', "&quot;"), '\'', "&#39;") == e
  {
    Keep(e, '"', "&quot;");
    Keep(e, '\'', "&#39;");
  }

  lemma QuoteEntityStays(e: string)
    requires e == "&quot;"
    ensures ReplaceAllChar(e, '\'', "&#39;") == e
  {
    Keep(e, '\'', "&#39;");
  }

  lemma EscapeTextChar(c: char)
    ensures EscapeText([c]) == EntityOf(c)
  {
    ReplaceOne(c, '&', "&amp;");
    if c == '&' {
      AmpersandEntityStays("&amp;");
    } else {
      ReplaceOne(c, '<', "&lt;");
      if c == '<' {
        LessThanEntityStays("&lt;");
      } else {
        ReplaceOne(c, '>', "&gt;");
        if c == '>' {
          GreaterThanEntityStays("&gt;");
        } else {
          ReplaceOne(c, '"', "&quot;");
          if c == '"' {
            QuoteEntityStays("&quot;");
          } else {
            ReplaceOne(c, '\'', "&#39;");
          }
        }
      }
    }
  }

  lemma EscapeCharwise(s: string)
    requires s != []
    ensures EscapeText(s) == EntityOf(s[0]) + EscapeText(s[1..])
  {
    assert s == [s[0]] + s[1..];
    EscapeTextAppend([s[0]], s[1..]);
    EscapeTextChar(s[0]);
  }

  /** The character an entity at the start of `s` stands for, and the entity's length. */
  function EntityAt(s: string): (r: Option<(char, nat)>)
    ensures r.Some? ==> 4 <= r.value.1 <= |s|
  {
    if |s| >= 5 && s[0] == '&' && s[1] == 'a' && s[2] == 'm' && s[3] == 'p' && s[4] == ';' then Some(('&', 5))
    else if |s| >= 4 && s[0] == '&' && s[1] == 'l' && s[2] == 't' && s[3] == ';' then Some(('<', 4))
    else if |s| >= 4 && s[0] == '&' && s[1] == 'g' && s[2] == 't' && s[3] == ';' then Some(('>', 4))
    else if |s| >= 6 && s[0] == '&' && s[1] == 'q' && s[2] == 'u' && s[3] == 'o' && s[4] == 't' && s[5] == ';'
    then Some(('"', 6))
    else if |s| >= 5 && s[0] == '&' && s[1] == '#' && s[2] == '3' && s[3] == '9' && s[4] == ';' then Some(('\'', 5))
    else None
  }

  /** Decoding the five entities; any other character stands for itself. */
  function Unescape(s: string): string
    decreases |s|
  {
    if s == [] then []
    else match EntityAt(s)
      case Some((c, n)) => [c] + Unescape(s[n..])
      case None => [s[0]] + Unescape(s[1..])
  }

  lemma UnescapeEntity(c: char, t: string)
    ensures Unescape(EntityOf(c) + t) == [c] + Unescape(t)
  {
    var e := EntityOf(c);
    var s := e + t;
    assert forall i :: 0 <= i < |e| ==> s[i] == e[i];
    assert s[|e|..] == t;
    if IsMarkup(c) {
      assert EntityAt(s) == Some((c, |e|));
    } else {
      assert s[0] == c;
    }
  }

  /** Decoding the entities gives back the escaped text. */
  lemma {:induction false} EscapeRoundTrip(s: string)
    ensures Unescape(EscapeText(s)) == s
  {
    if s != [] {
      EscapeCharwise(s);
      UnescapeEntity(s[0], EscapeText(s[1..]));
      EscapeRoundTrip(s[1..]);
      assert [s[0]] + s[1..] == s;
    }
  }

  lemma EntityClean(c: char)
    ensures forall i :: 0 <= i < |EntityOf(c)| ==> !IsTagOrQuote(EntityOf(c)[i])
  {
  }

  lemma NoMarkupAppend(a: string, b: string)
    requires forall i :: 0 <= i < |a| ==> !IsTagOrQuote(a[i])
    requires forall i :: 0 <= i < |b| ==> !IsTagOrQuote(b[i])
    ensures forall i :: 0 <= i < |a + b| ==> !IsTagOrQuote((a + b)[i])
  {
    forall i | |a| <= i < |a + b|
      ensures (a + b)[i] == b[i - |a|]
    {
    }
  }

  /** No `<`, `>`, `"` or `'` survives escaping. */
  lemma {:induction false} EscapedHasNoMarkup(s: string)
    ensures forall i :: 0 <= i < |EscapeText(s)| ==> !IsTagOrQuote(EscapeText(s)[i])
  {
    if s != [] {
      EscapeCharwise(s);
      EscapedHasNoMarkup(s[1..]);
      EntityClean(s[0]);
      NoMarkupAppend(EntityOf(s[0]), EscapeText(s[1..]));
    }
  }


  /** escapeHtml: null and undefined give the empty text; anything else is `String(input)` escaped, which
      throws (None) only where String does. */
  function EscapeHtml(v: Value): (r: Option<string>)
    ensures IsNullish(v) ==> r == Some("")
    ensures !IsNullish(v) ==> (r.Some? <==> StringOf(v).Some?)
    ensures !IsNullish(v) && r.Some? ==> Unescape(r.value) == StringOf(v).value
    ensures r.Some? ==> forall i :: 0 <= i < |r.value| ==> !IsTagOrQuote(r.value[i])
  {
    if IsNullish(v) then Some("")
    else match StringOf(v)
      case None => None
      case Some(s) =>
        EscapeRoundTrip(s);
        EscapedHasNoMarkup(s);
        Some(EscapeText(s))
  }

  // ---- escapeRegExp and the two patterns ----

  function EscapeRegExp(s: string): (r: string)
    ensures (forall i :: 0 <= i < |s| ==> !IsSyntax(s[i])) ==> r == s
  {
    if s == [] then []
    else (if IsSyntax(s[0]) then ['\\', s[0]] else [s[0]]) + EscapeRegExp(s[1..])
  }

  /** An escaped key reads back as its own characters, taken literally, whatever follows it. */
  lemma {:induction false} EscapedKeyIsLiteral(key: string, suffix: string, atoms: seq<Atom>)
    requires ReadPattern(suffix) == Some(atoms)
    ensures ReadPattern(EscapeRegExp(key) + suffix) == Some(Lits(key) + atoms)
  {
    if key == [] {
      assert EscapeRegExp(key) + suffix == suffix;
      assert Lits(key) + atoms == atoms;
    } else {
      var c := key[0];
      var head := if IsSyntax(c) then ['\\', c] else [c];
      var rest := EscapeRegExp(key[1..]) + suffix;
      var restAtoms := Lits(key[1..]) + atoms;
      EscapedKeyIsLiteral(key[1..], suffix, atoms);
      if IsSyntax(c) {
        ReadEscapedChar(c, rest, restAtoms);
      } else {
        ReadPlainChar(c, rest, restAtoms);
      }
      AppendAssoc(head, EscapeRegExp(key[1..]), suffix);
      AppendAssoc([Lit(c)], Lits(key[1..]), atoms);
    }
  }

  /** The text of the per-key pattern: `\{\{\s*` + escaped key + `\s*\}\}`. */
  function KeyPattern(key: string): string
  {
    Opening + EscapeRegExp(key) + "\\s*\\}\\}"
  }

  const Closing: seq<Atom> := [Star(Space), Lit('}'), Lit('}')]

  function KeyAtoms(key: string): (r: seq<Atom>)
    ensures OpensTwice(r)
  {
    OpeningAtoms + Lits(key) + Closing
  }

  lemma ReadEscapedChar(c: char, rest: string, atoms: seq<Atom>)
    requires IsSyntax(c) && ReadPattern(rest) == Some(atoms)
    ensures ReadPattern(['\\', c] + rest) == Some([Lit(c)] + atoms)
  {
    var p := ['\\', c] + rest;
    assert p[2..] == rest;
  }

  lemma ReadPlainChar(c: char, rest: string, atoms: seq<Atom>)
    requires !IsSyntax(c) && ReadPattern(rest) == Some(atoms)
    ensures ReadPattern([c] + rest) == Some([Lit(c)] + atoms)
  {
    var p := [c] + rest;
    assert p[1..] == rest;
  }

  lemma ReadSpaces(rest: string, atoms: seq<Atom>)
    requires ReadPattern(rest) == Some(atoms)
    ensures ReadPattern("\\s*" + rest) == Some([Star(Space)] + atoms)
  {
    var p := "\\s*" + rest;
    assert p[3..] == rest;
  }

  lemma ReadClosing()
    ensures ReadPattern("\\s*\\}\\}") == Some(Closing)
  {
    var p0: string := [];
    var e: seq<Atom> := [];
    ReadEscapedChar('}', p0, e);
    var p1 := ['\\', '}'] + p0;
    ReadEscapedChar('}', p1, [Lit('}')] + e);
    var p2 := ['\\', '}'] + p1;
    ReadSpaces(p2, [Lit('}')] + ([Lit('}')] + e));
    assert [Star(Space)] + ([Lit('}')] + ([Lit('}')] + e)) == Closing;
    assert "\\s*" + p2 == "\\s*\\}\\}";
  }

  /** `\{\{\s*`, the start both patterns share. */
  const Opening: string := "\\{\\{\\s*"

  const OpeningAtoms: seq<Atom> := [Lit('{'), Lit('{'), Star(Space)]

  lemma ReadOpening(rest: string, atoms: seq<Atom>)
    requires ReadPattern(rest) == Some(atoms)
    ensures ReadPattern(Opening + rest) == Some(OpeningAtoms + atoms)
  {
    ReadSpaces(rest, atoms);
    var t1 := "\\s*" + rest;
    ReadEscapedChar('{', t1, [Star(Space)] + atoms);
    var t2 := ['\\', '{'] + t1;
    ReadEscapedChar('{', t2, [Lit('{')] + ([Star(Space)] + atoms));
    assert Opening == ['\\', '{'] + ['\\', '{'] + "\\s*";
    AppendAssoc(['\\', '{'] + ['\\', '{'], "\\s*", rest);
    AppendAssoc(['\\', '{'], ['\\', '{'], "\\s*" + rest);
    assert OpeningAtoms == [Lit('{')] + [Lit('{')] + [Star(Space)];
    AppendAssoc([Lit('{')] + [Lit('{')], [Star(Space)], atoms);
    AppendAssoc([Lit('{')], [Lit('{')], [Star(Space)] + atoms);
  }

  /** Whatever the key, the pattern built from it is the two braces, optional spaces, the key's characters
      taken literally, optional spaces and the two closing braces. */
  lemma ReadKeyPattern(key: string)
    ensures ReadPattern(KeyPattern(key)) == Some(KeyAtoms(key))
  {
    ReadClosing();
    EscapedKeyIsLiteral(key, "\\s*\\}\\}", Closing);
    ReadOpening(EscapeRegExp(key) + "\\s*\\}\\}", Lits(key) + Closing);
    AppendAssoc(Opening, EscapeRegExp(key), "\\s*\\}\\}");
    AppendAssoc(OpeningAtoms, Lits(key), Closing);
  }

  /** The text of the final pattern, `\{\{\s*[^}]+\s*\}\}`. */
  const StripPattern: string := Opening + "[^}]+" + "\\s*\\}\\}"

  const StripAtoms: seq<Atom> := OpeningAtoms + [Plus(NotClose)] + Closing

  lemma ReadStripPattern()
    ensures ReadPattern(StripPattern) == Some(StripAtoms)
  {
    ReadClosing();
    var t0 := "[^}]+" + "\\s*\\}\\}";
    assert t0[5..] == "\\s*\\}\\}";
    var a0 := [Plus(NotClose)] + Closing;
    assert ReadPattern(t0) == Some(a0);
    ReadOpening(t0, a0);
    AppendAssoc(Opening, "[^}]+", "\\s*\\}\\}");
    AppendAssoc(OpeningAtoms, [Plus(NotClose)], Closing);
  }

  // ---- what the patterns match ----

  /** A run of class characters stops where the class does. */
  lemma {:induction false} RunOver(w: string, z: string, k: Class)
    requires forall i :: 0 <= i < |w| ==> InClass(w[i], k)
    requires z == [] || !InClass(z[0], k)
    ensures RunLength(w + z, k) == |w|
  {
    if w == [] {
      assert w + z == z;
    } else {
      assert (w + z)[1..] == w[1..] + z;
      RunOver(w[1..], z, k);
    }
  }

  /** A starred class followed by the rest of a pattern, where the run cannot be given back. */
  lemma StarMatch(k: Class, rest: seq<Atom>, w: string, z: string, m: nat)
    requires forall i :: 0 <= i < |w| ==> InClass(w[i], k)
    requires z == [] || !InClass(z[0], k)
    requires MatchAt(rest, z) == Some(m)
    ensures MatchAt([Star(k)] + rest, w + z) == Some(|w| + m)
  {
    assert TryRuns(rest, w + z, |w|, 0) == Some(|w| + m) by {
      SliceRight(w, z);
      TryRunsHit(rest, w + z, |w|, 0, m);
    }
    RunOver(w, z, k);
    StarUnfold(k, rest, w + z);
  }

  /** A starred run that has to give back its last character for the rest to match. */
  lemma StarGivesBack(k: Class, rest: seq<Atom>, u: string, m: nat)
    requires 1 <= RunLength(u, k)
    requires MatchAt(rest, u[RunLength(u, k)..]) == None
    requires MatchAt(rest, u[RunLength(u, k) - 1..]) == Some(m)
    ensures MatchAt([Star(k)] + rest, u) == Some(RunLength(u, k) - 1 + m)
  {
    var n := RunLength(u, k);
    assert TryRuns(rest, u, n - 1, 0) == Some(n - 1 + m) by {
      TryRunsHit(rest, u, n - 1, 0, m);
    }
    assert TryRuns(rest, u, n, 0) == TryRuns(rest, u, n - 1, 0) by {
      TryRunsMiss(rest, u, n, 0);
    }
    StarUnfold(k, rest, u);
  }

  /** Two literal opening braces consume two characters. */
  lemma OpenMatch(rest: seq<Atom>, u: string)
    ensures MatchAt([Lit('{'), Lit('{')] + rest, "{{" + u) == Shift(2, MatchAt(rest, u))
  {
    MatchLits("{{", rest, u);
    assert Lits("{{") == [Lit('{'), Lit('{')];
  }

  lemma Regroup<T>(a: seq<T>, b: seq<T>, c: seq<T>, d: seq<T>, e: seq<T>, f: seq<T>)
    ensures a + b + c + d + e + f == a + (b + (c + (d + (e + f))))
  {
  }

  /** Optional spaces, then the two closing braces. */
  lemma ClosingMatches(w: string, y: string)
    requires AllSpace(w)
    ensures MatchAt(Closing, w + ("}}" + y)) == Some(|w| + 2)
  {
    CloseBraces(y);
    assert Closing == [Star(Space)] + [Lit('}'), Lit('}')];
    StarMatch(Space, [Lit('}'), Lit('}')], w, "}}" + y, 2);
  }

  lemma CloseBraces(y: string)
    ensures MatchAt([Lit('}'), Lit('}')], "}}" + y) == Some(2)
  {
    MatchLits("}}", [], y);
    assert Lits("}}") + [] == [Lit('}'), Lit('}')];
  }

  /** The text of a `{{ key }}` token with the spaces around the key. */
  function Token(w1: string, key: string, w2: string): string
  {
    "{{" + w1 + key + w2 + "}}"
  }

  lemma KeyAtomsShape(key: string)
    ensures KeyAtoms(key) == [Lit('{'), Lit('{')] + ([Star(Space)] + (Lits(key) + Closing))
  {
    assert OpeningAtoms == [Lit('{'), Lit('{')] + [Star(Space)];
    AppendAssoc(OpeningAtoms, Lits(key), Closing);
    AppendAssoc([Lit('{'), Lit('{')], [Star(Space)], Lits(key) + Closing);
  }

  /** The per-key pattern matches a whole token. The lemma covers keys that start with a non-space: then
      `w1` is exactly the run of spaces the greedy star takes, and no backtracking is involved. The source
      matches the empty key and keys with leading spaces too: the star gives spaces back until the key's
      own spaces can match. Those keys are excluded here only because that backtracking proof is not part
      of this model. */
  lemma KeyTokenMatches(key: string, w1: string, w2: string, y: string)
    requires key != [] && !IsSpace(key[0]) && AllSpace(w1) && AllSpace(w2)
    ensures MatchAt(KeyAtoms(key), Token(w1, key, w2) + y) == Some(|Token(w1, key, w2)|)
  {
    var tail := w2 + ("}}" + y);
    var u := w1 + (key + tail);
    var atoms := [Lit('{'), Lit('{')] + ([Star(Space)] + (Lits(key) + Closing));
    var n := |w1| + |key| + |w2| + 2;
    assert MatchAt(Lits(key) + Closing, key + tail) == Some(|key| + |w2| + 2) by {
      ClosingMatches(w2, y);
      MatchLits(key, Closing, tail);
    }
    assert (key + tail)[0] == key[0];
    StarMatch(Space, Lits(key) + Closing, w1, key + tail, |key| + |w2| + 2);
    assert MatchAt(atoms, "{{" + u) == Some(n + 2) by {
      OpenMatch([Star(Space)] + (Lits(key) + Closing), u);
    }
    assert Token(w1, key, w2) + y == "{{" + u && |Token(w1, key, w2)| == n + 2 by {
      Regroup("{{", w1, key, w2, "}}", y);
    }
    KeyAtomsShape(key);
  }

  /** After the leading spaces, `[^}]+` takes everything up to the closing braces. */
  lemma BodyMatches(body: string, j: nat, y: string)
    requires j < |body| && forall i :: 0 <= i < |body| ==> body[i] != '}'
    ensures MatchAt([Plus(NotClose)] + Closing, body[j..] + ("}}" + y)) == Some(|body| - j + 2)
  {
    var v := body[j..] + ("}}" + y);
    RunOver(body[j..], "}}" + y, NotClose);
    assert v[|body| - j..] == "" + ("}}" + y);
    ClosingMatches("", y);
  }

  lemma StripAtomsShape()
    ensures StripAtoms == [Lit('{'), Lit('{')] + ([Star(Space)] + ([Plus(NotClose)] + Closing))
  {
    assert OpeningAtoms == [Lit('{'), Lit('{')] + [Star(Space)];
    AppendAssoc(OpeningAtoms, [Plus(NotClose)], Closing);
    AppendAssoc([Lit('{'), Lit('{')], [Star(Space)], [Plus(NotClose)] + Closing);
  }

  /** The body pattern needs at least one character before the closing braces. */
  lemma BodyNeedsText(y: string)
    ensures MatchAt([Plus(NotClose)] + Closing, "}}" + y) == None
  {
    assert ("}}" + y)[0] == '}';
  }

  /** Leading spaces of the body, followed by something else, are taken by `\s*`. */
  lemma SpacesThenBody(body: string, y: string, rest: seq<Atom>)
    requires rest == [Plus(NotClose)] + Closing
    requires body != [] && forall i :: 0 <= i < |body| ==> body[i] != '}'
    requires RunLength(body + ("}}" + y), Space) < |body|
    ensures MatchAt([Star(Space)] + rest, body + ("}}" + y)) == Some(|body| + 2)
  {
    var u := body + ("}}" + y);
    var m := RunLength(u, Space);
    assert TryRuns(rest, u, m, 0) == Some(|body| + 2) by {
      SliceFrom(body, "}}" + y, m);
      BodyMatches(body, m, y);
      TryRunsHit(rest, u, m, 0, |body| - m + 2);
    }
    StarUnfold(Space, rest, u);
  }

  /** A body of spaces only is taken whole by `\s*`, which then gives its last space back to `[^}]+`. */
  lemma SpacesGivenBack(body: string, y: string, rest: seq<Atom>)
    requires rest == [Plus(NotClose)] + Closing
    requires body != [] && forall i :: 0 <= i < |body| ==> body[i] != '}'
    requires RunLength(body + ("}}" + y), Space) >= |body|
    ensures MatchAt([Star(Space)] + rest, body + ("}}" + y)) == Some(|body| + 2)
  {
    var u := body + ("}}" + y);
    var m := RunLength(u, Space);
    RunInClass(u, Space);
    assert u[|body|] == '}';
    assert m == |body|;
    SliceRight(body, "}}" + y);
    BodyNeedsText(y);
    SliceFrom(body, "}}" + y, m - 1);
    BodyMatches(body, m - 1, y);
    StarGivesBack(Space, rest, u, |body| - (m - 1) + 2);
  }

  /** The final pattern matches a whole `{{…}}` whose body is not empty and has no closing brace; the
      leading spaces are given back to `[^}]+` when the body is only spaces. */
  lemma StripTokenMatches(body: string, y: string)
    requires body != [] && forall i :: 0 <= i < |body| ==> body[i] != '}'
    ensures MatchAt(StripAtoms, "{{" + body + "}}" + y) == Some(|body| + 4)
  {
    var u := body + ("}}" + y);
    var rest := [Plus(NotClose)] + Closing;
    if RunLength(u, Space) < |body| {
      SpacesThenBody(body, y, rest);
    } else {
      SpacesGivenBack(body, y, rest);
    }
    OpenMatch([Star(Space)] + rest, u);
    StripAtomsShape();
    AppendAssoc("{{" + body, "}}", y);
    AppendAssoc("{{", body, "}}" + y);
  }

  /** Text without two opening braces in a row. */
  predicate NoOpen(s: string)
  {
    forall i :: 0 <= i < |s| - 1 ==> !(s[i] == '{' && s[i + 1] == '{')
  }

  /** Both patterns start with two literal opening braces. */
  predicate OpensTwice(atoms: seq<Atom>)
  {
    |atoms| >= 2 && atoms[0] == Lit('{') && atoms[1] == Lit('{')
  }

  /** Text without `{{` is not touched by either pass. */
  lemma {:induction false} NoOpenUntouched(done: string, s: string, atoms: seq<Atom>, rep: string, mode: Insertion)
    requires OpensTwice(atoms) && NoOpen(s)
    ensures ReplaceFrom(done, s, atoms, rep, mode) == s
    decreases |s|
  {
    if s != [] {
      assert MatchAt(atoms, s) == None by {
        if s[0] == '{' {
          assert atoms[1..][0] == Lit('{');
          if |s| >= 2 {
            assert s[1] != '{';
          }
        }
      }
      NoOpenUntouched(done + [s[0]], s[1..], atoms, rep, mode);
    }
  }

  // ---- replacePlaceholders ----

  /** `Object.entries(data || {})`: the own fields of an object, the indexed elements of an array or the
      characters of a non-empty string; other values have none. */
  function Entries(data: Value): (r: seq<(string, Value)>)
    ensures !Truthy(data) ==> r == []
  {
    match data
    case Obj(fields) => seq(|fields|, i requires 0 <= i < |fields| => (fields[i].key, fields[i].val))
    case Arr(items) => seq(|items|, i requires 0 <= i < |items| => (NatToString(i), items[i]))
    case Str(s) => seq(|s|, i requires 0 <= i < |s| => (NatToString(i), Str([s[i]])))
    case _ => []
  }

  /** One key's pass: every `{{ key }}` token replaced by `text`. */
  function ReplaceKey(html: string, key: string, text: string, mode: Insertion): (r: string)
    ensures NoOpen(html) ==> r == html
  {
    if NoOpen(html) then
      NoOpenUntouched("", html, KeyAtoms(key), text, mode);
      ReplaceAll(html, KeyAtoms(key), text, mode)
    else ReplaceAll(html, KeyAtoms(key), text, mode)
  }

  /** The last pass: every leftover token deleted. */
  function Strip(html: string): string
  {
    ReplaceAll(html, StripAtoms, "", Patterns)
  }

  /** The per-key passes over the entries in order; None when escaping one of the values throws. */
  function Passes(html: string, es: seq<(string, Value)>, mode: Insertion): Option<string>
  {
    if es == [] then Some(html)
    else match Passes(html, es[..|es| - 1], mode)
      case None => None
      case Some(h) =>
        match EscapeHtml(es[|es| - 1].1)
        case None => None
        case Some(text) => Some(ReplaceKey(h, es[|es| - 1].0, text, mode))
  }

  /** What replacePlaceholders returns: the passes, then the final deletion. */
  function Substituted(html: string, data: Value, mode: Insertion): Option<string>
  {
    match Passes(html, Entries(data), mode)
    case None => None
    case Some(h) => Some(Strip(h))
  }

  /** Once a pass throws, so does the whole substitution. */
  lemma {:induction false} PassesStayFailed(html: string, es: seq<(string, Value)>, k: nat, mode: Insertion)
    requires k <= |es| && Passes(html, es[..k], mode) == None
    ensures Passes(html, es, mode) == None
    decreases |es| - k
  {
    if k < |es| {
      assert es[..k + 1][..k] == es[..k];
      PassesStayFailed(html, es, k + 1, mode);
    } else {
      assert es[..k] == es;
    }
  }

  /** One more pass, over entry `i`. */
  lemma PassesAt(html: string, es: seq<(string, Value)>, i: nat, mode: Insertion)
    requires i < |es|
    ensures Passes(html, es[..i + 1], mode)
            == match Passes(html, es[..i], mode)
               case None => None
               case Some(h) => (match EscapeHtml(es[i].1) case None => None case Some(text) => Some(ReplaceKey(h, es[i].0, text, mode)))
  {
    TakeOneMore(es, i);
  }

  /** replacePlaceholders: the loop over the entries reassigns `html` once per key, then deletes what is
      left of the tokens. */
  method ReplacePlaceholders(html: string, data: Value, mode: Insertion) returns (r: Option<string>)
    ensures r == Substituted(html, data, mode)
  {
    var es := Entries(data);
    var h := html;
    var i := 0;
    while i < |es|
      invariant 0 <= i <= |es|
      invariant Passes(html, es[..i], mode) == Some(h)
    {
      PassesAt(html, es, i, mode);
      var text := EscapeHtml(es[i].1);
      if text.None? {
        PassesStayFailed(html, es, i + 1, mode);
        return None;
      }
      h := ReplaceKey(h, es[i].0, text.value, mode);
      i := i + 1;
    }
    assert es[..i] == es;
    r := Some(Strip(h));
  }

  // ---- what one pass does ----

  /** Escaping keeps out a character that is neither in the text nor in any of the five entities. */
  lemma {:induction false} EscapeAvoids(s: string, x: char)
    requires x !in s && !IsMarkup(x) && !IsEntityLetter(x)
    ensures x !in EscapeText(s)
  {
    var a1 := ReplaceAllChar(s, '&', "&amp;");
    AmpersandEntityAvoids(x);
    ReplaceAllCharAvoids(s, '&', "&amp;", x);
    var a2 := ReplaceAllChar(a1, '<', "&lt;");
    ReplaceAllCharAvoids(a1, '<', "&lt;", x);
    var a3 := ReplaceAllChar(a2, '>', "&gt;");
    ReplaceAllCharAvoids(a2, '>', "&gt;", x);
    var a4 := ReplaceAllChar(a3, '"', "&quot;");
    ReplaceAllCharAvoids(a3, '"', "&quot;", x);
    ReplaceAllCharAvoids(a4, '\'', "&#39;", x);
  }

  /** The letters, digits and signs the five entities are spelt with, besides `&`. */
  predicate IsEntityLetter(x: char)
  {
    x == 'a' || x == 'm' || x == 'p' || x == ';' || x == 'l' || x == 't' || x == 'g' || x == 'q'
    || x == 'u' || x == 'o' || x == '#' || x == '3' || x == '9'
  }

  lemma AmpersandEntityAvoids(x: char)
    requires !IsMarkup(x) && !IsEntityLetter(x)
    ensures x !in "&amp;" && x !in "&lt;" && x !in "&gt;" && x !in "&quot;" && x !in "&#39;"
  {
  }

  /** A whole token, seen from where it starts, is replaced and the scan goes on after it. */
  lemma TokenReplaced(done: string, key: string, w1: string, w2: string, y: string, text: string, mode: Insertion)
    requires key != [] && !IsSpace(key[0]) && AllSpace(w1) && AllSpace(w2)
    ensures ReplaceFrom(done, Token(w1, key, w2) + y, KeyAtoms(key), text, mode)
            == Inserted(text, mode, Token(w1, key, w2), done, y)
               + ReplaceFrom(done + Token(w1, key, w2), y, KeyAtoms(key), text, mode)
  {
    var t := Token(w1, key, w2);
    KeyTokenMatches(key, w1, w2, y);
    assert (t + y)[..|t|] == t;
    assert (t + y)[|t|..] == y;
  }

  /** Inserted verbatim, the text takes the token's place; text before the token without `{` is kept. */
  lemma ValueReplacesToken(x: string, key: string, w1: string, w2: string, y: string, text: string)
    requires '{' !in x && key != [] && !IsSpace(key[0]) && AllSpace(w1) && AllSpace(w2)
    ensures ReplaceKey(x + Token(w1, key, w2) + y, key, text, Verbatim) == x + text + ReplaceKey(y, key, text, Verbatim)
  {
    var t := Token(w1, key, w2);
    var atoms := KeyAtoms(key);
    AppendAssoc(x, t, y);
    CopiedThrough("", x, t + y, atoms, text, Verbatim);
    assert "" + x == x;
    TokenReplaced(x, key, w1, w2, y, text, Verbatim);
    VerbatimForgetsPrefix(x + t, "", y, atoms, text);
    AppendAssoc(x, text, ReplaceKey(y, key, text, Verbatim));
  }

  /** A value without `$` is inserted the same way by the source's replace as verbatim. */
  lemma PlainValueIsVerbatim(html: string, key: string, text: string)
    requires '$' !in text
    ensures ReplaceKey(html, key, text, Patterns) == ReplaceKey(html, key, text, Verbatim)
  {
    PlainReplacementIsVerbatim("", html, KeyAtoms(key), text);
  }

  /** StripAtoms starts with two opening braces. */
  lemma StripOpensTwice()
    ensures OpensTwice(StripAtoms)
  {
  }

  /** A leftover token is deleted; text before it without `{` is kept. */
  lemma LeftoverDeleted(x: string, body: string, y: string)
    requires '{' !in x && body != [] && forall i :: 0 <= i < |body| ==> body[i] != '}'
    ensures Strip(x + ("{{" + body + "}}") + y) == x + Strip(y)
  {
    StripOpensTwice();
    var t := "{{" + body + "}}";
    AppendAssoc(x, t, y);
    CopiedThrough("", x, t + y, StripAtoms, "", Patterns);
    assert "" + x == x;
    StripTokenMatches(body, y);
    assert (t + y)[..|t|] == t && (t + y)[|t|..] == y;
    assert Expand("", t, x, y) == "";
    PlainReplacementIsVerbatim(x + t, y, StripAtoms, "");
    PlainReplacementIsVerbatim("", y, StripAtoms, "");
    VerbatimForgetsPrefix(x + t, "", y, StripAtoms, "");
  }

  /** Text without `{{` goes through the final deletion unchanged. */
  lemma NoOpenKept(html: string)
    requires NoOpen(html)
    ensures Strip(html) == html
  {
    StripOpensTwice();
    NoOpenUntouched("", html, StripAtoms, "", Patterns);
  }

  // ---- what replacePlaceholders does ----

  /** With null, undefined or empty data there are no passes, and html without `{{` comes back unchanged. */
  lemma NoDataKeepsHtml(html: string, data: Value)
    requires !Truthy(data) || data == Obj([]) || data == Arr([])
    requires NoOpen(html)
    ensures Substituted(html, data, Patterns) == Some(html)
  {
    assert Entries(data) == [];
    NoOpenKept(html);
  }

  lemma BraceFreeNoOpen(s: string)
    requires '{' !in s
    ensures NoOpen(s)
  {
  }

  /** The passes over a single entry. */
  lemma OnePass(html: string, key: string, v: Value, mode: Insertion)
    ensures Passes(html, [(key, v)], mode)
            == match EscapeHtml(v) case None => None case Some(text) => Some(ReplaceKey(html, key, text, mode))
  {
    assert [(key, v)][..0] == [];
  }

  /** The passes over an object with one string field. */
  lemma SingleEntryPasses(html: string, key: string, v: string, mode: Insertion)
    ensures Passes(html, Entries(Obj([Field(key, Str(v))])), mode) == Some(ReplaceKey(html, key, EscapeText(v), mode))
  {
    ObjEntries(key, Str(v));
    OnePass(html, key, Str(v), mode);
  }

  lemma ObjEntries(key: string, v: Value)
    ensures Entries(Obj([Field(key, v)])) == [(key, v)]
  {
    var es := Entries(Obj([Field(key, v)]));
    assert |es| == 1 && es[0] == (key, v);
  }

  /** A text without `$` takes the place of the one token, and the text after it, without `{`, is kept. */
  lemma PlainTextReplacesToken(x: string, key: string, w1: string, w2: string, y: string, text: string)
    requires '{' !in x && '{' !in y && '$' !in text
    requires key != [] && !IsSpace(key[0]) && AllSpace(w1) && AllSpace(w2)
    ensures ReplaceKey(x + Token(w1, key, w2) + y, key, text, Patterns) == x + text + y
  {
    PlainValueIsVerbatim(x + Token(w1, key, w2) + y, key, text);
    ValueReplacesToken(x, key, w1, w2, y, text);
    BraceFreeNoOpen(y);
    NoOpenUntouched("", y, KeyAtoms(key), text, Verbatim);
  }

  /** A single string entry: its token in the html is replaced by the escaped value, the rest is kept. */
  lemma OneKeyReplaced(x: string, key: string, w1: string, w2: string, y: string, v: string)
    requires '{' !in x && '{' !in y && '{' !in v && '$' !in v
    requires key != [] && !IsSpace(key[0]) && AllSpace(w1) && AllSpace(w2)
    ensures Substituted(x + Token(w1, key, w2) + y, Obj([Field(key, Str(v))]), Patterns)
            == Some(x + EscapeText(v) + y)
  {
    var text := EscapeText(v);
    SingleEntryPasses(x + Token(w1, key, w2) + y, key, v, Patterns);
    EscapeAvoids(v, '$');
    PlainTextReplacesToken(x, key, w1, w2, y, text);
    assert Strip(x + text + y) == x + text + y by {
      EscapeAvoids(v, '{');
      BraceFreeNoOpen(x + text + y);
      NoOpenKept(x + text + y);
    }
  }

  /** The passes over entries with one more at the end. */
  lemma PassesLast(html: string, es: seq<(string, Value)>, e: (string, Value), mode: Insertion)
    ensures Passes(html, es + [e], mode)
            == match Passes(html, es, mode)
               case None => None
               case Some(h) => (match EscapeHtml(e.1) case None => None case Some(text) => Some(ReplaceKey(h, e.0, text, mode)))
  {
    assert (es + [e])[..|es|] == es;
  }

  lemma TwoObjEntries(a: string, va: Value, b: string, vb: Value)
    ensures Entries(Obj([Field(a, va), Field(b, vb)])) == [(a, va)] + [(b, vb)]
  {
    var es := Entries(Obj([Field(a, va), Field(b, vb)]));
    assert |es| == 2 && es[0] == (a, va) && es[1] == (b, vb);
  }

  /** Text that escaping and `$` expansion both leave alone. */
  predicate Plain(s: string)
  {
    forall i :: 0 <= i < |s| ==> !IsMarkup(s[i]) && s[i] != '$'
  }

  lemma PlainToken(b: string)
    requires Plain(b)
    ensures Plain(Token("", b, "")) && '$' !in Token("", b, "")
  {
    var t := "{{" + b + "}}";
    assert forall i :: 0 <= i < |t| ==> t[i] == '{' || t[i] == '}' || t[i] in b;
  }

  /** Braces are not escaped: a token for `b` inside the value of `a` is replaced by the later entry for `b`. */
  lemma InsertedTokenReachesLaterKey(a: string, b: string, t: string)
    requires a != [] && !IsSpace(a[0]) && b != [] && !IsSpace(b[0]) && Plain(b)
    requires '{' !in t && '$' !in t
    ensures Substituted(Token("", a, ""), Obj([Field(a, Str(Token("", b, ""))), Field(b, Str(t))]), Patterns)
            == Some(EscapeText(t))
  {
    var tb := Token("", b, "");
    var data := Obj([Field(a, Str(tb)), Field(b, Str(t))]);
    assert Passes(Token("", a, ""), Entries(data), Patterns) == Some(EscapeText(t)) by {
      TwoObjEntries(a, Str(tb), b, Str(t));
      FirstValueInserted(a, b);
      PassesLast(Token("", a, ""), [(a, Str(tb))], (b, Str(t)), Patterns);
      StringValueEscaped(t);
      SecondValueInserted(b, t);
    }
    SecondValueInserted(b, t);
  }

  /** A string value is escaped as it stands. */
  lemma StringValueEscaped(v: string)
    ensures EscapeHtml(Str(v)) == Some(EscapeText(v))
  {
  }

  /** The first pass puts the second token, unescaped, where the first was. */
  lemma FirstValueInserted(a: string, b: string)
    requires a != [] && !IsSpace(a[0]) && Plain(b)
    ensures Passes(Token("", a, ""), [(a, Str(Token("", b, "")))], Patterns) == Some(Token("", b, ""))
  {
    var tb := Token("", b, "");
    OnePass(Token("", a, ""), a, Str(tb), Patterns);
    PlainToken(b);
    LoneTokenReplaced(a, tb);
  }

  /** A token alone is replaced by a text without `$`. */
  lemma LoneTokenReplaced(key: string, text: string)
    requires key != [] && !IsSpace(key[0]) && '$' !in text
    ensures ReplaceKey(Token("", key, ""), key, text, Patterns) == text
  {
    PlainTextReplacesToken("", key, "", "", "", text);
    assert "" + Token("", key, "") + "" == Token("", key, "");
    assert "" + text + "" == text;
  }

  /** The second pass and the final deletion leave the escaped value of `b`. */
  lemma SecondValueInserted(b: string, t: string)
    requires b != [] && !IsSpace(b[0]) && '{' !in t && '$' !in t
    ensures ReplaceKey(Token("", b, ""), b, EscapeText(t), Patterns) == EscapeText(t)
    ensures Strip(EscapeText(t)) == EscapeText(t)
  {
    EscapeAvoids(t, '$');
    LoneTokenReplaced(b, EscapeText(t));
    EscapeAvoids(t, '{');
    BraceFreeNoOpen(EscapeText(t));
    NoOpenKept(EscapeText(t));
  }

  // ---- the `$` patterns in a value ----

  /** As written: the escaped value is passed to replace as a replacement string, so `$$` in a value
      comes out as a single `$`. */
  lemma DollarsCollapse(key: string)
    requires key != [] && !IsSpace(key[0])
    ensures Substituted(Token("", key, ""), Obj([Field(key, Str("$$"))]), Patterns) == Some("$")
  {
    var tok := Token("", key, "");
    SingleEntryPasses(tok, key, "$$", Patterns);
    DollarsKeptByEscaping();
    assert ReplaceKey(tok, key, "$$", Patterns) == "$" by {
      assert tok + "" == tok;
      TokenReplaced("", key, "", "", "", "$$", Patterns);
      DollarsExpanded(tok);
    }
    NoOpenKept("$");
  }

  lemma DollarsKeptByEscaping()
    ensures EscapeText("$$") == "$$"
  {
  }

  lemma DollarsExpanded(matched: string)
    ensures Expand("$$", matched, "", "") == "$"
  {
    assert "$$"[2..] == [];
  }

  /** Inserted verbatim, every value reaches the output as its escaped text, `$` included. */
  lemma VerbatimValueReplaced(x: string, key: string, w1: string, w2: string, y: string, v: string)
    requires '{' !in x && '{' !in y && '{' !in v
    requires key != [] && !IsSpace(key[0]) && AllSpace(w1) && AllSpace(w2)
    ensures Substituted(x + Token(w1, key, w2) + y, Obj([Field(key, Str(v))]), Verbatim)
            == Some(x + EscapeText(v) + y)
  {
    var text := EscapeText(v);
    SingleEntryPasses(x + Token(w1, key, w2) + y, key, v, Verbatim);
    ValueReplacesToken(x, key, w1, w2, y, text);
    BraceFreeNoOpen(y);
    NoOpenUntouched("", y, KeyAtoms(key), text, Verbatim);
    assert Strip(x + text + y) == x + text + y by {
      EscapeAvoids(v, '{');
      BraceFreeNoOpen(x + text + y);
      NoOpenKept(x + text + y);
    }
  }

  // ---- docxTemplateToPdf ----

  const CvPath := "public/docs/cv/cv.docx"
  const ResumePath := "public/docs/resume/resume.docx"

  /** The template file, relative to the working directory: the CV template for "cv", the resume template
      for anything else. */
  function TemplatePath(template: string): (r: string)
    ensures r == CvPath || r == ResumePath
    ensures r == CvPath <==> template == "cv"
  {
    if template == "cv" then CvPath else ResumePath
  }

  /** docxTemplateToPdf: the HTML converted from the chosen template, with the data substituted.
      `convert` stands for reading the file at a path and converting it to HTML. */
  method DocxTemplateToPdf(template: string, mapped: Value, convert: string -> string) returns (r: Option<string>)
    ensures r == Substituted(convert(TemplatePath(template)), mapped, Patterns)
    ensures template != "cv" ==> r == Substituted(convert(ResumePath), mapped, Patterns)
  {
    r := ReplacePlaceholders(convert(TemplatePath(template)), mapped, Patterns);
  }
}
