/** Generic helpers shared by every module: an optional value and the
    sequence combinators (filter, concatenation) that the JavaScript source
    uses through Array.prototype.filter and Buffer.concat. */
module Base {

  datatype Option<T> = None | Some(value: T)

  /** Array.prototype.filter: keeps the elements satisfying `keep`, in order. */
  function Filter<T>(keep: T -> bool, s: seq<T>): (r: seq<T>)
    ensures |r| <= |s|
    ensures forall x :: x in r ==> x in s && keep(x)
    ensures forall x :: x in s && keep(x) ==> x in r
  {
    if s == [] then []
    else if keep(s[0]) then [s[0]] + Filter(keep, s[1..])
    else Filter(keep, s[1..])
  }

  /** Filtering distributes over concatenation, which is what "keeps the order" means. */
  lemma {:induction false} FilterAppend<T>(keep: T -> bool, a: seq<T>, b: seq<T>)
    ensures Filter(keep, a + b) == Filter(keep, a) + Filter(keep, b)
  {
    if a == [] {
      assert a + b == b;
    } else {
      assert (a + b)[1..] == a[1..] + b;
      FilterAppend(keep, a[1..], b);
    }
  }

  /** Two tests that agree on every element keep the same elements, in the same order. */
  lemma {:induction false} FilterSame<T>(keep: T -> bool, other: T -> bool, s: seq<T>)
    requires forall x :: x in s ==> keep(x) == other(x)
    ensures Filter(keep, s) == Filter(other, s)
  {
    if s != [] {
      FilterSame(keep, other, s[1..]);
    }
  }

  /** A filter that keeps nothing gives the empty sequence. */
  lemma {:induction false} FilterNone<T>(keep: T -> bool, s: seq<T>)
    requires forall x :: x in s ==> !keep(x)
    ensures Filter(keep, s) == []
  {
    if s != [] {
      FilterNone(keep, s[1..]);
    }
  }

  /** A filter that drops nothing is the identity. */
  lemma {:induction false} FilterAll<T>(keep: T -> bool, s: seq<T>)
    requires forall x :: x in s ==> keep(x)
    ensures Filter(keep, s) == s
  {
    if s != [] {
      FilterAll(keep, s[1..]);
    }
  }

  /** All the values, when every entry has one; used where a map over an array may diverge on an element. */
  function AllSome<T>(opts: seq<Option<T>>): (r: Option<seq<T>>)
    ensures r.Some? <==> forall i :: 0 <= i < |opts| ==> opts[i].Some?
    ensures r.Some? ==> |r.value| == |opts| && forall i :: 0 <= i < |opts| ==> r.value[i] == opts[i].value
  {
    if opts == [] then Some([])
    else if opts[0].None? then None
    else match AllSome(opts[1..])
      case None => None
      case Some(rest) => Some([opts[0].value] + rest)
  }

  lemma AllSomeAppend<T>(a: seq<Option<T>>, b: seq<Option<T>>)
    requires AllSome(a).Some? && AllSome(b).Some?
    ensures AllSome(a + b) == Some(AllSome(a).value + AllSome(b).value)
  {
    var va, vb := AllSome(a).value, AllSome(b).value;
    forall i | 0 <= i < |a + b|
      ensures (a + b)[i].Some? && (a + b)[i].value == (va + vb)[i]
    {
      if i < |a| {
        assert (a + b)[i] == a[i];
      } else {
        assert (a + b)[i] == b[i - |a|];
      }
    }
    var r := AllSome(a + b).value;
    assert |r| == |va + vb|;
    assert forall i :: 0 <= i < |r| ==> r[i] == (va + vb)[i];
    assert r == va + vb;
  }

  /** A sequence that agrees with `x` and then with `y`, index by index, is `x + y`. */
  lemma Pointwise<T>(s: seq<T>, x: seq<T>, y: seq<T>)
    requires |s| == |x| + |y|
    requires forall i :: 0 <= i < |x| ==> s[i] == x[i]
    requires forall j :: 0 <= j < |y| ==> s[|x| + j] == y[j]
    ensures s == x + y
  {
    forall i | |x| <= i < |s|
      ensures s[i] == (x + y)[i]
    {
      assert s[|x| + (i - |x|)] == y[i - |x|];
    }
  }

  /** Buffer.concat / Array.prototype.flat: the concatenation of the parts, in order. */
  function Concat<T>(parts: seq<seq<T>>): (r: seq<T>)
    ensures parts == [] ==> r == []
  {
    if parts == [] then [] else parts[0] + Concat(parts[1..])
  }

  lemma {:induction false} ConcatAppend<T>(a: seq<seq<T>>, b: seq<seq<T>>)
    ensures Concat(a + b) == Concat(a) + Concat(b)
  {
    if a == [] {
      assert a + b == b;
    } else {
      assert (a + b)[1..] == a[1..] + b;
      ConcatAppend(a[1..], b);
    }
  }

  /** Concatenation split around part k: the parts before it, then part k, then the rest. */
  lemma {:induction false} ConcatAround<T>(parts: seq<seq<T>>, k: nat)
    requires k < |parts|
    ensures Concat(parts) == Concat(parts[..k]) + parts[k] + Concat(parts[k + 1..])
  {
    if k == 0 {
      assert parts[..0] == [];
    } else {
      ConcatAround(parts[1..], k - 1);
      assert parts[1..][..k - 1] == parts[..k][1..];
      assert parts[1..][k - 1] == parts[k];
      assert parts[1..][k..] == parts[k + 1..];
    }
  }

  /** The length of a concatenation is the sum of the parts' lengths. */
  function SumLengths<T>(parts: seq<seq<T>>): nat
  {
    if parts == [] then 0 else |parts[0]| + SumLengths(parts[1..])
  }

  lemma {:induction false} ConcatLength<T>(parts: seq<seq<T>>)
    ensures |Concat(parts)| == SumLengths(parts)
  {
    if parts != [] {
      ConcatLength(parts[1..]);
    }
  }

  lemma SliceLeft<T>(a: seq<T>, b: seq<T>, x: nat, y: nat)
    requires x <= y <= |a|
    ensures (a + b)[x..y] == a[x..y]
  {
  }

  lemma SliceFrom<T>(a: seq<T>, b: seq<T>, m: nat)
    requires m <= |a|
    ensures (a + b)[m..] == a[m..] + b
  {
  }

  lemma SliceRight<T>(a: seq<T>, b: seq<T>)
    ensures (a + b)[|a|..] == b
  {
  }

  /** Concatenation is associative; stated once for any element type so that proofs about strings need not
      compare them character by character. */
  lemma AppendAssoc<T>(a: seq<T>, b: seq<T>, c: seq<T>)
    ensures a + b + c == a + (b + c)
  {
  }

  /** A prefix of `a` is a prefix of `a + b`. */
  lemma PrefixAppend<T>(a: seq<T>, b: seq<T>, p: seq<T>)
    requires |p| <= |a| && a[..|p|] == p
    ensures |p| <= |a + b| && (a + b)[..|p|] == p
  {
  }

  lemma SplitAt<T>(s: seq<T>, k: nat)
    requires k <= |s|
    ensures s == s[..k] + s[k..]
  {
  }

  /** Part k of a concatenation sits right after the parts before it. */
  lemma ConcatSlice<T>(parts: seq<seq<T>>, k: nat)
    requires k < |parts|
    ensures var at := |Concat(parts[..k])|;
            at + |parts[k]| <= |Concat(parts)| && Concat(parts)[at .. at + |parts[k]|] == parts[k]
  {
    ConcatAround(parts, k);
    var before := Concat(parts[..k]);
    AppendAssoc(before, parts[k], Concat(parts[k + 1..]));
    SliceLeft(parts[k], Concat(parts[k + 1..]), 0, |parts[k]|);
  }

  /** A prefix of a slice is a slice. */
  lemma SlicePrefix<T>(s: seq<T>, at: nat, q: seq<T>, p: seq<T>)
    requires at + |q| <= |s| && s[at .. at + |q|] == q
    requires |p| <= |q| && q[..|p|] == p
    ensures at + |p| <= |s| && s[at .. at + |p|] == p
  {
    assert forall i :: 0 <= i < |p| ==> s[at + i] == q[i];
  }

  /** A suffix of a suffix is a suffix. */
  lemma SuffixOfSuffix<T>(s: seq<T>, q: seq<T>, p: seq<T>)
    requires |q| <= |s| && s[|s| - |q|..] == q
    requires |p| <= |q| && q[|q| - |p|..] == p
    ensures |p| <= |s| && s[|s| - |p|..] == p
  {
    assert s[|s| - |p|..] == s[|s| - |q|..][|q| - |p|..];
  }

  /** The prefix up to `i + 1` ends with element `i`. */
  lemma TakeOneMore<T>(s: seq<T>, i: nat)
    requires i < |s|
    ensures s[..i + 1][..i] == s[..i] && s[..i + 1][i] == s[i] && |s[..i + 1]| == i + 1
  {
  }
}
