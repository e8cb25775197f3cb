/** The String.prototype operations the source relies on: trim, split, join,
    global single-character replacement, ASCII lower-casing, decimal
    rendering of integers and zero padding. Strings are sequences of Unicode
    scalar values. */
module Strings {
  import opened Base

  /** ECMAScript WhiteSpace and LineTerminator: what `trim` removes and what `\s` matches. */
  predicate IsSpace(c: char)
  {
    c == '\t' || c == '\n' || c == '\U{000B}' || c == '\U{000C}' || c == '\r' || c == ' '
    || c == '\U{00A0}' || c == '\U{1680}' || ('\U{2000}' <= c <= '\U{200A}')
    || c == '\U{2028}' || c == '\U{2029}' || c == '\U{202F}' || c == '\U{205F}'
    || c == '\U{3000}' || c == '\U{FEFF}'
  }

  predicate AllSpace(s: string)
  {
    forall i :: 0 <= i < |s| ==> IsSpace(s[i])
  }

  /** The suffix of `s` that starts at its first non-space character. */
  function TrimStart(s: string): (r: string)
    ensures |r| <= |s|
    ensures r == [] || !IsSpace(r[0])
    ensures AllSpace(s[..|s| - |r|])
  {
    if s == [] || !IsSpace(s[0]) then s else TrimStart(s[1..])
  }

  /** The prefix of `s` that ends at its last non-space character. */
  function TrimEnd(s: string): (r: string)
    ensures |r| <= |s|
    ensures r == [] || !IsSpace(r[|r| - 1])
    ensures AllSpace(s[|r|..])
  {
    if s == [] || !IsSpace(s[|s| - 1]) then s else TrimEnd(s[..|s| - 1])
  }

  lemma {:induction false} TrimStartSuffix(s: string)
    ensures TrimStart(s) == s[|s| - |TrimStart(s)|..]
  {
    if s != [] && IsSpace(s[0]) {
      TrimStartSuffix(s[1..]);
    }
  }

  lemma {:induction false} TrimEndPrefix(s: string)
    ensures TrimEnd(s) == s[..|TrimEnd(s)|]
  {
    if s != [] && IsSpace(s[|s| - 1]) {
      TrimEndPrefix(s[..|s| - 1]);
    }
  }

  /** String.prototype.trim. */
  function Trim(s: string): (r: string)
    ensures |r| <= |s|
    ensures r == [] || (!IsSpace(r[0]) && !IsSpace(r[|r| - 1]))
  {
    TrimEndPrefix(TrimStart(s));
    TrimEnd(TrimStart(s))
  }

  /** What `trim` removes is exactly a run of spaces at either end. */
  lemma TrimSlice(s: string)
    ensures exists i, j :: 0 <= i <= j <= |s| && Trim(s) == s[i..j]
              && AllSpace(s[..i]) && AllSpace(s[j..])
  {
    var t := TrimStart(s);
    TrimStartSuffix(s);
    TrimEndPrefix(t);
    var i := |s| - |t|;
    var j := i + |TrimEnd(t)|;
    assert t == s[i..];
    assert TrimEnd(t) == t[..j - i] == s[i..j];
    assert t[j - i..] == s[j..];
  }

  lemma {:induction false} TrimStartEmpty(s: string)
    ensures TrimStart(s) == [] <==> AllSpace(s)
  {
    if s != [] && IsSpace(s[0]) {
      TrimStartEmpty(s[1..]);
      assert forall i :: 0 <= i < |s| - 1 ==> s[1..][i] == s[i + 1];
    }
  }

  lemma {:induction false} TrimEndEmpty(s: string)
    ensures TrimEnd(s) == [] <==> AllSpace(s)
  {
    if s != [] && IsSpace(s[|s| - 1]) {
      TrimEndEmpty(s[..|s| - 1]);
      assert forall i :: 0 <= i < |s| - 1 ==> s[..|s| - 1][i] == s[i];
    }
  }

  /** A string is blank after trimming exactly when every character is a space. */
  lemma TrimEmptyIffAllSpace(s: string)
    ensures Trim(s) == "" <==> AllSpace(s)
  {
    var t := TrimStart(s);
    TrimStartEmpty(s);
    TrimEndEmpty(t);
    if t != [] {
      assert !IsSpace(t[0]);
    }
  }

  /** Trimming twice is trimming once. */
  lemma TrimIdempotent(s: string)
    ensures Trim(Trim(s)) == Trim(s)
  {
    var r := Trim(s);
    if r != [] {
      assert TrimStart(r) == r;
      assert TrimEnd(r) == r;
    }
  }

  /** A string with no space at either end is its own trim. */
  lemma TrimNoSpaceEnds(s: string)
    requires s == [] || (!IsSpace(s[0]) && !IsSpace(s[|s| - 1]))
    ensures Trim(s) == s
  {
  }

  predicate Blank(s: string)
  {
    Trim(s) == ""
  }

  /** No space at either end: what `trim` returns. */
  predicate Trimmed(s: string)
  {
    s == [] || (!IsSpace(s[0]) && !IsSpace(s[|s| - 1]))
  }

  /** Array.prototype.join with the given separator. */
  function Join(parts: seq<string>, sep: string): (r: string)
    ensures parts == [] ==> r == ""
    ensures |parts| == 1 ==> r == parts[0]
  {
    if parts == [] then ""
    else if |parts| == 1 then parts[0]
    else parts[0] + sep + Join(parts[1..], sep)
  }

  /** The pieces and separators laid out one after the other. */
  lemma {:induction false} JoinAppend(parts: seq<string>, last: string, sep: string)
    requires parts != []
    ensures Join(parts + [last], sep) == Join(parts, sep) + sep + last
  {
    if |parts| == 1 {
      assert Join(parts + [last], sep) == parts[0] + sep + Join([last], sep);
    } else {
      assert (parts + [last])[1..] == parts[1..] + [last];
      JoinAppend(parts[1..], last, sep);
    }
  }

  /** Joining two non-empty lists puts one separator between their joins. */
  lemma {:induction false} JoinConcat(a: seq<string>, b: seq<string>, sep: string)
    requires a != [] && b != []
    ensures Join(a + b, sep) == Join(a, sep) + sep + Join(b, sep)
  {
    if |a| == 1 {
      assert (a + b)[1..] == b;
    } else {
      assert (a + b)[1..] == a[1..] + b;
      JoinConcat(a[1..], b, sep);
      AppendAssoc(a[0] + sep, Join(a[1..], sep), sep + Join(b, sep));
      AppendAssoc(a[0] + sep + Join(a[1..], sep), sep, Join(b, sep));
    }
  }

  /** Joining lines around one middle line puts the middle line between the two joins. */
  lemma JoinAround(head: seq<string>, mid: string, tail: seq<string>, sep: string)
    requires head != [] && tail != []
    ensures Join(head + [mid] + tail, sep) == Join(head, sep) + sep + mid + sep + Join(tail, sep)
  {
    AppendAssoc(head, [mid], tail);
    JoinConcat(head, [mid] + tail, sep);
    assert ([mid] + tail)[1..] == tail;
    AppendAssoc(Join(head, sep) + sep, mid, sep + Join(tail, sep));
    AppendAssoc(Join(head, sep) + sep + mid, sep, Join(tail, sep));
  }

  /** `filter(Boolean)` on strings keeps the non-empty ones. */
  predicate NonEmpty(s: string)
  {
    s != ""
  }

  /** `v ?? ""`. */
  function OrEmpty(v: Option<string>): string
  {
    if v.Some? then v.value else ""
  }

  /** A string field used as a condition: present and not empty. */
  predicate Given(v: Option<string>)
  {
    v.Some? && v.value != ""
  }

  /** The join of the non-empty parts is empty exactly when there are none. */
  lemma JoinNonEmptyParts(s: seq<string>, sep: string)
    ensures Join(Filter(NonEmpty, s), sep) == "" <==> Filter(NonEmpty, s) == []
  {
    var parts := Filter(NonEmpty, s);
    if parts != [] {
      assert parts[0] in parts;
      if |parts| > 1 {
        assert |Join(parts, sep)| >= |parts[0]|;
      }
    }
  }

  /** Two texts put together with a separator, where an empty side contributes nothing. */
  function Glue(x: string, y: string, sep: string): string
  {
    if x == "" then y else if y == "" then x else x + sep + y
  }

  /** `[a, b].filter(Boolean).join(sep)`. */
  lemma JoinNonEmptyPair(a: string, b: string, sep: string)
    ensures Join(Filter(NonEmpty, [a, b]), sep) == Glue(a, b, sep)
  {
    assert [a, b][1..] == [b];
    assert Filter(NonEmpty, [b]) == if b != "" then [b] else [];
    if a != "" && b != "" {
      assert [a, b][1..] == [b];
    }
  }

  /** Filtering out empty parts and joining works piece by piece. */
  lemma JoinFilterAppend(a: seq<string>, b: seq<string>, sep: string)
    ensures Join(Filter(NonEmpty, a + b), sep)
            == Glue(Join(Filter(NonEmpty, a), sep), Join(Filter(NonEmpty, b), sep), sep)
  {
    var fa := Filter(NonEmpty, a);
    var fb := Filter(NonEmpty, b);
    FilterAppend(NonEmpty, a, b);
    JoinNonEmptyParts(a, sep);
    JoinNonEmptyParts(b, sep);
    if fa == [] {
      assert fa + fb == fb;
    } else if fb == [] {
      assert fa + fb == fa;
    } else {
      JoinConcat(fa, fb, sep);
    }
  }

  /** String.prototype.split with a one-character separator: the maximal pieces between occurrences of `c`. */
  function Split(s: string, c: char): (r: seq<string>)
    ensures |r| >= 1
    ensures forall k :: 0 <= k < |r| ==> c !in r[k]
  {
    if s == [] then [""]
    else
      var rest := Split(s[1..], c);
      if s[0] == c then [""] + rest
      else [[s[0]] + rest[0]] + rest[1..]
  }

  /** Joining the pieces of a split with the separator gives back the input. */
  lemma {:induction false} SplitJoin(s: string, c: char)
    ensures Join(Split(s, c), [c]) == s
  {
    if s != [] {
      var rest := Split(s[1..], c);
      SplitJoin(s[1..], c);
      if s[0] == c {
        assert Split(s, c) == [""] + rest;
      } else {
        var r := Split(s, c);
        assert r == [[s[0]] + rest[0]] + rest[1..];
        if |rest| == 1 {
          assert Join(rest, [c]) == rest[0];
        } else {
          assert r[1..] == rest[1..];
          assert Join(rest, [c]) == rest[0] + [c] + Join(rest[1..], [c]);
        }
      }
    }
  }

  /** Every character that is not the separator. */
  lemma {:induction false} SplitWithout(s: string, c: char)
    requires c !in s
    ensures Split(s, c) == [s]
  {
    if s != [] {
      SplitWithout(s[1..], c);
      assert [s[0]] + s[1..] == s;
    }
  }

  /** A piece followed by the separator splits off as the first piece. */
  lemma {:induction false} SplitAfterPiece(a: string, t: string, c: char)
    requires c !in a
    ensures Split(a + [c] + t, c) == [a] + Split(t, c)
  {
    var s := a + [c] + t;
    if a == [] {
      assert s == [c] + t && s[1..] == t;
    } else {
      assert s[1..] == a[1..] + [c] + t;
      SplitAfterPiece(a[1..], t, c);
      assert [a[0]] + a[1..] == a;
    }
  }

  /** Splitting what was joined gives back the pieces, when no piece holds the separator. */
  lemma {:induction false} SplitOfJoin(pieces: seq<string>, c: char)
    requires |pieces| >= 1 && forall k :: 0 <= k < |pieces| ==> c !in pieces[k]
    ensures Split(Join(pieces, [c]), c) == pieces
  {
    if |pieces| == 1 {
      SplitWithout(pieces[0], c);
    } else {
      SplitAfterPiece(pieces[0], Join(pieces[1..], [c]), c);
      SplitOfJoin(pieces[1..], c);
      assert [pieces[0]] + pieces[1..] == pieces;
    }
  }

  /** `parts.map(p => p.trim())`. */
  function TrimAll(parts: seq<string>): (r: seq<string>)
    ensures |r| == |parts| && forall k :: 0 <= k < |parts| ==> r[k] == Trim(parts[k])
  {
    if parts == [] then [] else [Trim(parts[0])] + TrimAll(parts[1..])
  }

  /** Trimmed pieces stay trimmed. */
  lemma TrimAllTrimmed(parts: seq<string>)
    requires forall k :: 0 <= k < |parts| ==> Trimmed(parts[k])
    ensures TrimAll(parts) == parts
  {
    forall k | 0 <= k < |parts|
      ensures TrimAll(parts)[k] == parts[k]
    {
      TrimNoSpaceEnds(parts[k]);
    }
  }

  /** Trimming keeps a slice of the input, so a character the input lacks is not in its trim. */
  lemma TrimWithout(s: string, c: char)
    requires c !in s
    ensures c !in Trim(s)
  {
    TrimSlice(s);
    var i, j :| 0 <= i <= j <= |s| && Trim(s) == s[i..j] && AllSpace(s[..i]) && AllSpace(s[j..]);
    assert forall k :: 0 <= k < j - i ==> s[i..j][k] == s[i + k];
  }

  /** The pieces kept by `map(trim).filter(Boolean)` are non-empty, trimmed, and lack what the pieces lacked. */
  lemma TrimAllClean(parts: seq<string>, c: char)
    requires forall k :: 0 <= k < |parts| ==> c !in parts[k]
    ensures forall x :: x in Filter(NonEmpty, TrimAll(parts)) ==> x != "" && Trimmed(x) && c !in x
  {
    var t := TrimAll(parts);
    forall k | 0 <= k < |t|
      ensures Trimmed(t[k]) && c !in t[k]
    {
      TrimWithout(parts[k], c);
    }
  }

  /** `s.split(",").map(x => x.trim()).filter(Boolean)`: the comma-separated items, trimmed, blanks dropped. */
  function CommaItems(s: string): seq<string>
  {
    Filter(NonEmpty, TrimAll(Split(s, ',')))
  }

  /** Every item is non-empty, trimmed and holds no comma. */
  lemma CommaItemsClean(s: string)
    ensures forall x :: x in CommaItems(s) ==> x != "" && Trimmed(x) && ',' !in x
  {
    TrimAllClean(Split(s, ','), ',');
  }

  /** Items joined with commas, with any spacing around them, come back trimmed, all of them and in order. */
  lemma CommaItemsOfJoin(items: seq<string>)
    requires items != [] && forall k :: 0 <= k < |items| ==> ',' !in items[k] && !Blank(items[k])
    ensures CommaItems(Join(items, ",")) == TrimAll(items)
  {
    SplitOfJoin(items, ',');
    KeepsUnblank(items);
  }

  /** Trimming pieces that are not blank and dropping the empty ones drops nothing. */
  lemma KeepsUnblank(pieces: seq<string>)
    requires forall k :: 0 <= k < |pieces| ==> !Blank(pieces[k])
    ensures Filter(NonEmpty, TrimAll(pieces)) == TrimAll(pieces)
  {
    FilterAll(NonEmpty, TrimAll(pieces));
  }

  lemma {:induction false} TrimStartAppendSpace(p: string, c: char)
    requires IsSpace(c)
    ensures TrimStart(p + [c]) == if AllSpace(p) then [] else TrimStart(p) + [c]
  {
    if p == [] {
      assert TrimStart([c]) == TrimStart([c][1..]);
    } else if IsSpace(p[0]) {
      assert (p + [c])[1..] == p[1..] + [c];
      TrimStartAppendSpace(p[1..], c);
      assert AllSpace(p) <==> AllSpace(p[1..]) by {
        if AllSpace(p[1..]) {
          assert forall i :: 1 <= i < |p| ==> p[i] == p[1..][i - 1];
        }
      }
    } else {
      assert !AllSpace(p);
    }
  }

  /** A trailing space, such as the `\r` of a CRLF line end, makes no difference to `trim`. */
  lemma TrimDropsTrailingSpace(p: string, c: char)
    requires IsSpace(c)
    ensures Trim(p + [c]) == Trim(p)
  {
    TrimStartAppendSpace(p, c);
    TrimEmptyIffAllSpace(p);
    if !AllSpace(p) {
      var t := TrimStart(p);
      assert (t + [c])[..|t + [c]| - 1] == t;
    }
  }

  /** A leading space makes no difference to `trim`. */
  lemma TrimDropsLeadingSpace(c: char, p: string)
    requires IsSpace(c)
    ensures Trim([c] + p) == Trim(p)
  {
    assert ([c] + p)[1..] == p;
  }

  /** Whitespace on either side of a text makes no difference to `trim`. */
  lemma {:induction false} TrimDropsSpaceAround(w1: string, p: string, w2: string)
    requires AllSpace(w1) && AllSpace(w2)
    ensures Trim(w1 + p + w2) == Trim(p)
  {
    if w1 != [] {
      assert w1 + p + w2 == [w1[0]] + (w1[1..] + p + w2);
      TrimDropsLeadingSpace(w1[0], w1[1..] + p + w2);
      TrimDropsSpaceAround(w1[1..], p, w2);
    } else if w2 != [] {
      var init := w2[..|w2| - 1];
      assert w1 + p + w2 == (w1 + p + init) + [w2[|w2| - 1]];
      TrimDropsTrailingSpace(w1 + p + init, w2[|w2| - 1]);
      TrimDropsSpaceAround(w1, p, init);
    } else {
      assert w1 + p + w2 == p;
    }
  }

  /** `s.replace(/c/g, rep)`: every occurrence of `c` replaced by `rep`, nothing else changed. */
  function ReplaceAllChar(s: string, c: char, rep: string): (r: string)
    ensures c !in rep ==> c !in r
    ensures c !in s ==> r == s
  {
    if s == [] then []
    else (if s[0] == c then rep else [s[0]]) + ReplaceAllChar(s[1..], c, rep)
  }

  /** A global replace works piece by piece. */
  lemma {:induction false} ReplaceAllCharAppend(a: string, b: string, c: char, rep: string)
    ensures ReplaceAllChar(a + b, c, rep) == ReplaceAllChar(a, c, rep) + ReplaceAllChar(b, c, rep)
  {
    if a == [] {
      assert a + b == b;
    } else {
      assert (a + b)[1..] == a[1..] + b;
      ReplaceAllCharAppend(a[1..], b, c, rep);
    }
  }

  /** A character in neither the text nor the replacement is not in the result. */
  lemma {:induction false} ReplaceAllCharAvoids(s: string, c: char, rep: string, x: char)
    requires x !in s && x !in rep
    ensures x !in ReplaceAllChar(s, c, rep)
  {
    if s != [] {
      ReplaceAllCharAvoids(s[1..], c, rep, x);
    }
  }

  /** Counts the characters of `s` that satisfy `p`. */
  function CountWhere(s: string, p: char -> bool): nat
    ensures CountWhere(s, p) <= |s|
  {
    if s == [] then 0 else (if p(s[0]) then 1 else 0) + CountWhere(s[1..], p)
  }

  /** `s.toLowerCase()` restricted to ASCII letters; other characters are kept. */
  function LowerChar(c: char): char
  {
    if 'A' <= c <= 'Z' then (c as int + 32) as char else c
  }

  function ToLower(s: string): (r: string)
    ensures |r| == |s|
    ensures forall i :: 0 <= i < |s| ==> r[i] == LowerChar(s[i])
  {
    if s == [] then [] else [LowerChar(s[0])] + ToLower(s[1..])
  }

  /** No upper-case ASCII letter. */
  predicate Lower(s: string)
  {
    forall i :: 0 <= i < |s| ==> !('A' <= s[i] <= 'Z')
  }

  /** Lower-casing changes letters only, so it keeps text trimmed, and what it gives is lower case. */
  lemma LowerKeepsTrimmed(s: string)
    requires Trimmed(s)
    ensures Trimmed(ToLower(s)) && Lower(ToLower(s))
  {
  }

  /** Lower-casing lower-case text changes nothing. */
  lemma LowerFixed(s: string)
    requires Lower(s)
    ensures ToLower(s) == s
  {
  }

  /** Trimming lower-case text leaves it lower case. */
  lemma LowerTrim(s: string)
    requires Lower(s)
    ensures Lower(Trim(s))
  {
    TrimSlice(s);
  }

  /** `s.includes(sub)`: whether `sub` occurs somewhere in `s`. */
  predicate Includes(s: string, sub: string)
    decreases |s|
  {
    |sub| <= |s| && (s[..|sub|] == sub || Includes(s[1..], sub))
  }

  // ---- decimal rendering: Number.prototype.toString for integers ----

  function DigitChar(d: nat): char
    requires d < 10
  {
    ('0' as int + d) as char
  }

  predicate IsDigit(c: char)
  {
    '0' <= c <= '9'
  }

  function DigitValue(c: char): nat
    requires IsDigit(c)
  {
    c as int - '0' as int
  }

  /** `String(n)` for a non-negative integer: its decimal digits, no leading zero. */
  function NatToString(n: nat): (r: string)
    ensures |r| >= 1
    ensures forall i :: 0 <= i < |r| ==> IsDigit(r[i])
    ensures |r| > 1 ==> r[0] != '0'
  {
    if n < 10 then [DigitChar(n)] else NatToString(n / 10) + [DigitChar(n % 10)]
  }

  /** The value of a run of decimal digits. */
  function ParseDigits(s: string): nat
    requires forall i :: 0 <= i < |s| ==> IsDigit(s[i])
  {
    if s == [] then 0 else ParseDigits(s[..|s| - 1]) * 10 + DigitValue(s[|s| - 1])
  }

  /** Reading the digits back gives the number. */
  lemma {:induction false} ParseNatToString(n: nat)
    ensures ParseDigits(NatToString(n)) == n
  {
    if n >= 10 {
      var r := NatToString(n);
      assert r[..|r| - 1] == NatToString(n / 10);
      ParseNatToString(n / 10);
    }
  }

  function Pow10(k: nat): nat
    ensures Pow10(k) >= 1
  {
    if k == 0 then 1 else 10 * Pow10(k - 1)
  }

  /** A number below 10^k has at most k digits. */
  lemma {:induction false} NatToStringWidth(n: nat, k: nat)
    requires 1 <= k && n < Pow10(k)
    ensures |NatToString(n)| <= k
  {
    if n >= 10 {
      assert Pow10(1) == 10;
      assert k >= 2;
      NatToStringWidth(n / 10, k - 1);
    }
  }

  /** `String(n)` for any integer. */
  function IntToString(n: int): (r: string)
    ensures n >= 0 ==> r == NatToString(n)
    ensures n < 0 ==> r == "-" + NatToString(-n)
  {
    if n >= 0 then NatToString(n) else "-" + NatToString(-n)
  }

  /** `s.padStart(width, fill)`: fill characters added on the left up to `width`; never truncates. */
  function PadStart(s: string, width: nat, fill: char): (r: string)
    ensures |r| == if |s| >= width then |s| else width
    ensures r[|r| - |s|..] == s
    ensures forall i :: 0 <= i < |r| - |s| ==> r[i] == fill
  {
    if |s| >= width then s else seq(width - |s|, _ => fill) + s
  }

  // ---- searching ----

  /** `s.indexOf(c)`: the first position of `c`, or -1. */
  function IndexOf(s: string, c: char): (r: int)
    ensures -1 <= r < |s|
    ensures r >= 0 ==> s[r] == c && c !in s[..r]
    ensures r == -1 <==> c !in s
  {
    if s == [] then -1
    else if s[0] == c then 0
    else var k := IndexOf(s[1..], c); if k < 0 then -1 else k + 1
  }

  /** `s.lastIndexOf(c)`: the last position of `c`, or -1. */
  function LastIndexOf(s: string, c: char): (r: int)
    ensures -1 <= r < |s|
    ensures r >= 0 ==> s[r] == c && c !in s[r + 1..]
    ensures r == -1 <==> c !in s
  {
    if s == [] then -1
    else if s[|s| - 1] == c then |s| - 1
    else
      var init := s[..|s| - 1];
      assert s == init + [s[|s| - 1]];
      var k := LastIndexOf(init, c);
      assert k >= 0 ==> s[k + 1..] == init[k + 1..] + [s[|s| - 1]];
      k
  }
}
