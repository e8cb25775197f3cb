/** The fragment of ECMAScript regular expressions the placeholder passes use: literal characters, `\s*`
    and `[^}]+`, read from their source text, matched with the greedy backtracking order of the standard,
    and applied by a global String.prototype.replace, including the `$` patterns of a replacement string. */
module Regex {
  import opened Base
  import opened Strings

  /** The two character classes in use: `\s` and `[^}]`. */
  datatype Class = Space | NotClose

  predicate InClass(c: char, k: Class)
  {
    match k
    case Space => IsSpace(c)
    case NotClose => c != '}'
  }

  /** One term of a pattern: a literal character, a class repeated any number of times, or at least once. */
  datatype Atom = Lit(c: char) | Star(k: Class) | Plus(k: Class)

  /** The characters that have a meaning of their own in a pattern. */
  predicate IsSyntax(c: char)
  {
    c == '.' || c == '*' || c == '+' || c == '?' || c == '^' || c == '$' || c == '{' || c == '}'
    || c == '(' || c == ')' || c == '|' || c == '[' || c == ']' || c == '\\'
  }

  /** The pattern text starts with `\s*`. */
  predicate StartsStar(p: string)
  {
    |p| >= 3 && p[0] == '\\' && p[1] == 's' && p[2] == '*'
  }

  /** The pattern text starts with `[^}]+`. */
  predicate StartsPlus(p: string)
  {
    |p| >= 5 && p[0] == '[' && p[1] == '^' && p[2] == '}' && p[3] == ']' && p[4] == '+'
  }

  function Prepend(a: Atom, rest: Option<seq<Atom>>): (r: Option<seq<Atom>>)
    ensures rest.Some? <==> r.Some?
    ensures rest.Some? ==> r.value == [a] + rest.value
  {
    match rest
    case None => None
    case Some(atoms) => Some([a] + atoms)
  }

  /** Reads the source text of a pattern into atoms; None for syntax outside the fragment. */
  function ReadPattern(p: string): Option<seq<Atom>>
    decreases |p|
  {
    if p == [] then Some([])
    else if StartsStar(p) then Prepend(Star(Space), ReadPattern(p[3..]))
    else if StartsPlus(p) then Prepend(Plus(NotClose), ReadPattern(p[5..]))
    else if p[0] == '\\' then
      (if |p| >= 2 && IsSyntax(p[1]) then Prepend(Lit(p[1]), ReadPattern(p[2..])) else None)
    else if IsSyntax(p[0]) then None
    else Prepend(Lit(p[0]), ReadPattern(p[1..]))
  }

  /** The literal atoms of a text, one per character. */
  function Lits(s: string): (r: seq<Atom>)
    ensures |r| == |s|
    ensures forall i :: 0 <= i < |s| ==> r[i] == Lit(s[i])
  {
    if s == [] then [] else [Lit(s[0])] + Lits(s[1..])
  }

  /** How many characters at the start of `s` belong to class `k`. */
  function RunLength(s: string, k: Class): (n: nat)
    ensures n <= |s|
    ensures n < |s| ==> !InClass(s[n], k)
  {
    if s == [] || !InClass(s[0], k) then 0 else 1 + RunLength(s[1..], k)
  }

  /** Every character of the run belongs to the class. */
  lemma {:induction false} RunInClass(s: string, k: Class)
    ensures forall i :: 0 <= i < RunLength(s, k) ==> InClass(s[i], k)
  {
    if s != [] && InClass(s[0], k) {
      RunInClass(s[1..], k);
    }
  }

  function Shift(d: nat, m: Option<nat>): Option<nat>
  {
    match m
    case None => None
    case Some(n) => Some(d + n)
  }

  /** The length of the match of `atoms` at the start of `s`: the first success in the order the standard
      tries the alternatives, a repetition trying its longest run first and giving back one character at
      a time. */
  function MatchAt(atoms: seq<Atom>, s: string): (r: Option<nat>)
    ensures r.Some? ==> r.value <= |s|
    decreases |atoms|, 1, 0
  {
    if atoms == [] then Some(0)
    else match atoms[0]
      case Lit(c) => if s != [] && s[0] == c then Shift(1, MatchAt(atoms[1..], s[1..])) else None
      case Star(k) => TryRuns(atoms[1..], s, RunLength(s, k), 0)
      case Plus(k) =>
        var n := RunLength(s, k);
        if n == 0 then None else TryRuns(atoms[1..], s, n, 1)
  }

  /** The rest of the pattern after a run of `n` characters, then of `n - 1`, down to `least`. */
  function TryRuns(rest: seq<Atom>, s: string, n: nat, least: nat): (r: Option<nat>)
    requires n <= |s|
    ensures r.Some? ==> r.value <= |s|
    decreases |rest| + 1, 0, n
  {
    match MatchAt(rest, s[n..])
    case Some(m) => Some(n + m)
    case None => if n <= least then None else TryRuns(rest, s, n - 1, least)
  }

  /** Which way the replacement text is inserted. */
  datatype Insertion =
    | Patterns   // a replacement string, whose `$` patterns are expanded (what String.prototype.replace does)
    | Verbatim   // the replacement text exactly as given

  /** GetSubstitution with no capture groups: `$$`, `$&`, `` $` `` and `$'`; any other `$` stays. */
  function Expand(rep: string, matched: string, before: string, after: string): string
    decreases |rep|
  {
    if rep == [] then []
    else if |rep| >= 2 && rep[0] == '$' && (rep[1] == '$' || rep[1] == '&' || rep[1] == '`' || rep[1] == '\'') then
      (if rep[1] == '$' then "$" else if rep[1] == '&' then matched else if rep[1] == '`' then before else after)
      + Expand(rep[2..], matched, before, after)
    else [rep[0]] + Expand(rep[1..], matched, before, after)
  }

  /** A replacement string without `$` is inserted as it stands. */
  lemma {:induction false} ExpandPlain(rep: string, matched: string, before: string, after: string)
    requires '$' !in rep
    ensures Expand(rep, matched, before, after) == rep
  {
    if rep != [] {
      ExpandPlain(rep[1..], matched, before, after);
    }
  }

  function Inserted(rep: string, mode: Insertion, matched: string, before: string, after: string): string
  {
    if mode == Patterns then Expand(rep, matched, before, after) else rep
  }

  /** A pattern that starts with a literal character, so that it never matches the empty string. */
  predicate Anchored(atoms: seq<Atom>)
  {
    atoms != [] && atoms[0].Lit?
  }

  /** The global replace from the position after `done`: each leftmost match is replaced and the scan goes
      on after it; an unmatched character is kept. */
  function ReplaceFrom(done: string, rest: string, atoms: seq<Atom>, rep: string, mode: Insertion): string
    requires Anchored(atoms)
    decreases |rest|
  {
    if rest == [] then []
    else match MatchAt(atoms, rest)
      case Some(m) =>
        Inserted(rep, mode, rest[..m], done, rest[m..])
        + ReplaceFrom(done + rest[..m], rest[m..], atoms, rep, mode)
      case None => [rest[0]] + ReplaceFrom(done + [rest[0]], rest[1..], atoms, rep, mode)
  }

  /** `s.replace(pattern, rep)` with the global flag. */
  function ReplaceAll(s: string, atoms: seq<Atom>, rep: string, mode: Insertion): string
    requires Anchored(atoms)
  {
    ReplaceFrom("", s, atoms, rep, mode)
  }

  /** With the text inserted verbatim, what was already scanned does not matter. */
  lemma {:induction false} VerbatimForgetsPrefix(d1: string, d2: string, rest: string, atoms: seq<Atom>, rep: string)
    requires Anchored(atoms)
    ensures ReplaceFrom(d1, rest, atoms, rep, Verbatim) == ReplaceFrom(d2, rest, atoms, rep, Verbatim)
    decreases |rest|
  {
    if rest != [] {
      match MatchAt(atoms, rest)
      case Some(m) =>
        VerbatimForgetsPrefix(d1 + rest[..m], d2 + rest[..m], rest[m..], atoms, rep);
      case None =>
        VerbatimForgetsPrefix(d1 + [rest[0]], d2 + [rest[0]], rest[1..], atoms, rep);
    }
  }

  /** A replacement without `$` gives the same text either way. */
  lemma {:induction false} PlainReplacementIsVerbatim(done: string, rest: string, atoms: seq<Atom>, rep: string)
    requires Anchored(atoms) && '$' !in rep
    ensures ReplaceFrom(done, rest, atoms, rep, Patterns) == ReplaceFrom(done, rest, atoms, rep, Verbatim)
    decreases |rest|
  {
    if rest != [] {
      match MatchAt(atoms, rest)
      case Some(m) =>
        ExpandPlain(rep, rest[..m], done, rest[m..]);
        PlainReplacementIsVerbatim(done + rest[..m], rest[m..], atoms, rep);
      case None =>
        PlainReplacementIsVerbatim(done + [rest[0]], rest[1..], atoms, rep);
    }
  }

  /** A pattern that starts with a literal only matches where that character is. */
  lemma LitHead(atoms: seq<Atom>, s: string)
    requires Anchored(atoms) && MatchAt(atoms, s).Some?
    ensures s != [] && s[0] == atoms[0].c && MatchAt(atoms, s).value >= 1
  {
  }

  /** Text in which the pattern's first character does not occur is copied through. */
  lemma {:induction false} CopiedThrough(done: string, x: string, y: string, atoms: seq<Atom>, rep: string, mode: Insertion)
    requires Anchored(atoms) && atoms[0].c !in x
    ensures ReplaceFrom(done, x + y, atoms, rep, mode) == x + ReplaceFrom(done + x, y, atoms, rep, mode)
    decreases |x|
  {
    if x == [] {
      assert x + y == y;
      assert done + x == done;
    } else {
      var s := x + y;
      assert s[0] == x[0];
      assert s[1..] == x[1..] + y;
      CopiedThrough(done + [x[0]], x[1..], y, atoms, rep, mode);
      AppendAssoc(done, [x[0]], x[1..]);
      assert [x[0]] + x[1..] == x;
      AppendAssoc([x[0]], x[1..], ReplaceFrom(done + x, y, atoms, rep, mode));
    }
  }

  /** Matching a run of literal atoms consumes exactly that text. */
  lemma {:induction false} MatchLits(key: string, rest: seq<Atom>, s: string)
    ensures MatchAt(Lits(key) + rest, key + s) == Shift(|key|, MatchAt(rest, s))
  {
    if key == [] {
      assert Lits(key) + rest == rest;
      assert key + s == s;
      match MatchAt(rest, s) {
        case None =>
        case Some(m) =>
      }
    } else {
      assert (Lits(key) + rest)[0] == Lit(key[0]);
      assert (Lits(key) + rest)[1..] == Lits(key[1..]) + rest;
      assert (key + s)[1..] == key[1..] + s;
      MatchLits(key[1..], rest, s);
      match MatchAt(rest, s) {
        case None =>
        case Some(m) =>
      }
    }
  }

  /** The rest of the pattern matches after a run of `n`: that run is the one taken. */
  lemma TryRunsHit(rest: seq<Atom>, s: string, n: nat, least: nat, m: nat)
    requires n <= |s| && MatchAt(rest, s[n..]) == Some(m)
    ensures TryRuns(rest, s, n, least) == Some(n + m)
  {
  }

  /** The rest of the pattern fails after a run of `n`: one character is given back. */
  lemma TryRunsMiss(rest: seq<Atom>, s: string, n: nat, least: nat)
    requires least < n <= |s| && MatchAt(rest, s[n..]) == None
    ensures TryRuns(rest, s, n, least) == TryRuns(rest, s, n - 1, least)
  {
  }

  /** A starred class first tries its longest run. */
  lemma StarUnfold(k: Class, rest: seq<Atom>, s: string)
    ensures MatchAt([Star(k)] + rest, s) == TryRuns(rest, s, RunLength(s, k), 0)
  {
    assert ([Star(k)] + rest)[1..] == rest;
  }
}
