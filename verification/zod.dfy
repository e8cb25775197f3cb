/** The zod field rules the answer schemas use, applied to a JavaScript value: strings with length bounds
    (trimmed first or not), an optional variant, a regular-expression pattern, enums, an optional boolean
    and an optional integer range over `z.coerce.number()`. A field parses to its output value, `Undefined`
    for an absent optional field, or `None` for a validation error. Lengths count characters. */
module Zod {
  import opened Base
  import opened Strings
  import opened JsValue

  datatype Rule =
    | Text(min: nat, max: nat)            // z.string().min(min).max(max)
    | OptText(max: nat)                   // z.string().max(max).optional()
    | TrimmedText(min: nat, max: nat)     // z.string().trim().min(min).max(max)
    | OptTrimmedText(max: nat)            // z.string().trim().max(max).optional().or(z.literal('').transform(() => undefined))
    | YearMonth                           // z.string().regex(/^[0-9]{4}-[0-9]{2}$/)
    | OptYearMonth                        // the same, .optional()
    | OneOf(options: seq<string>)         // z.enum(options)
    | OptOneOf(options: seq<string>)      // z.enum(options).optional()
    | OptBool                             // z.boolean().optional()
    | OptInt(lo: int, hi: int)            // z.coerce.number().int().min(lo).max(hi).optional()
    | BlankAsAbsent(max: nat)             // what OptTrimmedText is meant to do: blank text becomes undefined

  /** `/^[0-9]{4}-[0-9]{2}$/`: four digits, a hyphen, two digits, nothing else. */
  predicate IsYearMonth(s: string)
  {
    |s| == 7 && IsDigit(s[0]) && IsDigit(s[1]) && IsDigit(s[2]) && IsDigit(s[3]) && s[4] == '-'
    && IsDigit(s[5]) && IsDigit(s[6])
  }

  /** The digits of a numeral after its optional sign. */
  function Unsigned(t: string): (r: string)
    ensures |r| <= |t|
  {
    if t != [] && (t[0] == '+' || t[0] == '-') then t[1..] else t
  }

  /** A decimal integer with an optional sign, after trimming. */
  predicate IsSignedDigits(t: string)
  {
    Unsigned(t) != [] && forall i :: 0 <= i < |Unsigned(t)| ==> IsDigit(Unsigned(t)[i])
  }

  function SignedDigitsValue(t: string): int
    requires IsSignedDigits(t)
  {
    if t[0] == '-' then 0 - (ParseDigits(Unsigned(t)) as int) else ParseDigits(Unsigned(t))
  }

  /** `Number(v)` where the result is an integer; `None` stands for NaN and for the forms not modelled. */
  function NumberOf(v: Value): (r: Option<int>)
    ensures v.Num? ==> r == Some(v.n)
    ensures v.Null? ==> r == Some(0)
    ensures v.Undefined? || v.NaN? ==> r == None
  {
    match v
    case Num(n) => Some(n)
    case Bool(b) => Some(if b then 1 else 0)
    case Null => Some(0)
    case Str(s) =>
      var t := Trim(s);
      if t == "" then Some(0) else if IsSignedDigits(t) then Some(SignedDigitsValue(t)) else None
    case _ => None
  }

  predicate In(s: string, options: seq<string>)
  {
    exists i :: 0 <= i < |options| && options[i] == s
  }

  /** One field. An optional rule lets `undefined` through unchanged. */
  function Check(rule: Rule, v: Value): (r: Option<Value>)
    ensures r.Some? && r.value != Undefined ==> !v.Undefined?
  {
    match rule
    case Text(min, max) => if v.Str? && min <= |v.s| <= max then Some(v) else None
    case OptText(max) =>
      if v.Undefined? then Some(Undefined) else if v.Str? && |v.s| <= max then Some(v) else None
    case TrimmedText(min, max) =>
      if v.Str? && min <= |Trim(v.s)| <= max then Some(Str(Trim(v.s))) else None
    case OptTrimmedText(max) =>
      // the union tries the trimmed string first; the literal '' is consulted only when that fails
      var first := if v.Undefined? then Some(Undefined) else if v.Str? && |Trim(v.s)| <= max then Some(Str(Trim(v.s))) else None;
      if first.Some? then first else if v == Str("") then Some(Undefined) else None
    case YearMonth => if v.Str? && IsYearMonth(v.s) then Some(v) else None
    case OptYearMonth =>
      if v.Undefined? then Some(Undefined) else if v.Str? && IsYearMonth(v.s) then Some(v) else None
    case OneOf(options) => if v.Str? && In(v.s, options) then Some(v) else None
    case OptOneOf(options) =>
      if v.Undefined? then Some(Undefined) else if v.Str? && In(v.s, options) then Some(v) else None
    case OptBool => if v.Undefined? || v.Bool? then Some(v) else None
    case OptInt(lo, hi) =>
      if v.Undefined? then Some(Undefined)
      else (match NumberOf(v)
        case Some(n) => if lo <= n <= hi then Some(Num(n)) else None
        case None => None)
    case BlankAsAbsent(max) =>
      if v.Undefined? then Some(Undefined)
      else if v.Str? && |Trim(v.s)| <= max then (if Trim(v.s) == "" then Some(Undefined) else Some(Str(Trim(v.s))))
      else None
  }

  /** A field of a schema: its key and its rule. */
  datatype Entry = Entry(key: string, rule: Rule)

  /** The field of `v` under the entry's key passes the entry's rule. */
  predicate Passes(e: Entry, v: Value)
  {
    Check(e.rule, Get(v, e.key)).Some?
  }

  /** Every field of the shape passes its rule. */
  predicate AllPass(shape: seq<Entry>, v: Value)
  {
    forall i :: 0 <= i < |shape| ==> Passes(shape[i], v)
  }

  /** The fields of the parsed object, in the schema's order; absent optional fields are left out. */
  function Fields(shape: seq<Entry>, v: Value): (r: Option<seq<Field>>)
    ensures r.Some? <==> AllPass(shape, v)
  {
    if shape == [] then Some([])
    else match (Check(shape[0].rule, Get(v, shape[0].key)), Fields(shape[1..], v))
      case (Some(x), Some(rest)) => Some((if x == Undefined then [] else [Field(shape[0].key, x)]) + rest)
      case _ => None
  }

  /** `schema.parse(v)` for an object schema: an object whose every field passes; unknown keys are dropped. */
  function ParseObject(shape: seq<Entry>, v: Value): (r: Option<Value>)
    ensures r.Some? <==> v.Obj? && AllPass(shape, v)
    ensures r.Some? ==> r.value.Obj? && r.value.fields == Fields(shape, v).value
  {
    if !v.Obj? then None
    else match Fields(shape, v)
      case Some(fields) => Some(Obj(fields))
      case None => None
  }

  /** In a parsed object each field holds what its rule made of the input, for keys named once. */
  lemma {:induction false} FieldsHold(shape: seq<Entry>, v: Value, i: nat)
    requires Fields(shape, v).Some? && i < |shape|
    requires forall j :: 0 <= j < |shape| && j != i ==> shape[j].key != shape[i].key
    ensures Lookup(Fields(shape, v).value, shape[i].key) == Check(shape[i].rule, Get(v, shape[i].key)).value
  {
    var x := Check(shape[0].rule, Get(v, shape[0].key)).value;
    var rest := Fields(shape[1..], v).value;
    var head: seq<Field> := if x == Undefined then [] else [Field(shape[0].key, x)];
    assert Fields(shape, v).value == head + rest;
    if i == 0 {
      KeyAbsent(shape[1..], v, shape[0].key);
      if x == Undefined {
        assert head + rest == rest;
      }
    } else {
      FieldsHold(shape[1..], v, i - 1);
      if x != Undefined {
        assert (head + rest)[0].key != shape[i].key;
        assert (head + rest)[1..] == rest;
      } else {
        assert head + rest == rest;
      }
    }
  }

  /** A key the shape does not name is not a key of the parsed fields. */
  lemma {:induction false} KeyAbsent(shape: seq<Entry>, v: Value, key: string)
    requires Fields(shape, v).Some?
    requires forall j :: 0 <= j < |shape| ==> shape[j].key != key
    ensures Lookup(Fields(shape, v).value, key) == Undefined
  {
    if shape != [] {
      var x := Check(shape[0].rule, Get(v, shape[0].key)).value;
      var rest := Fields(shape[1..], v).value;
      var head: seq<Field> := if x == Undefined then [] else [Field(shape[0].key, x)];
      assert Fields(shape, v).value == head + rest;
      KeyAbsent(shape[1..], v, key);
      if x != Undefined {
        assert (head + rest)[1..] == rest;
      } else {
        assert head + rest == rest;
      }
    }
  }

  /** A shape of up to seven fields passes exactly when each of its fields does, spelled out. */
  lemma AllPassSmall(shape: seq<Entry>, v: Value)
    requires |shape| <= 7
    ensures AllPass(shape, v) <==>
      (|shape| > 0 ==> Passes(shape[0], v)) && (|shape| > 1 ==> Passes(shape[1], v))
      && (|shape| > 2 ==> Passes(shape[2], v)) && (|shape| > 3 ==> Passes(shape[3], v))
      && (|shape| > 4 ==> Passes(shape[4], v)) && (|shape| > 5 ==> Passes(shape[5], v))
      && (|shape| > 6 ==> Passes(shape[6], v))
  {
  }

  /** A shape made of two parts passes exactly when both parts pass. */
  lemma AllPassAppend(a: seq<Entry>, b: seq<Entry>, v: Value)
    ensures AllPass(a + b, v) <==> AllPass(a, v) && AllPass(b, v)
  {
    if AllPass(a, v) && AllPass(b, v) {
      forall i | 0 <= i < |a + b|
        ensures Passes((a + b)[i], v)
      {
        if i >= |a| {
          assert (a + b)[i] == b[i - |a|];
        }
      }
    }
    if AllPass(a + b, v) {
      forall i | 0 <= i < |b|
        ensures Passes(b[i], v)
      {
        assert (a + b)[|a| + i] == b[i];
      }
      forall i | 0 <= i < |a|
        ensures Passes(a[i], v)
      {
        assert (a + b)[i] == a[i];
      }
    }
  }

  /** None of the shape's keys is in `keys`. */
  predicate Avoids(shape: seq<Entry>, keys: set<string>)
  {
    forall i :: 0 <= i < |shape| ==> shape[i].key !in keys
  }

  lemma AvoidsAppend(a: seq<Entry>, b: seq<Entry>, keys: set<string>)
    requires Avoids(a, keys) && Avoids(b, keys)
    ensures Avoids(a + b, keys)
  {
    forall i | 0 <= i < |a + b|
      ensures (a + b)[i].key !in keys
    {
      if i >= |a| {
        assert (a + b)[i] == b[i - |a|];
      }
    }
  }

  /** Fields outside `keys` decide the shape alone: when the shape names none of `keys`, an object that agrees
      with a passing one outside `keys` passes too. */
  lemma PassesElsewhere(shape: seq<Entry>, v: Value, w: Value, keys: set<string>)
    requires Avoids(shape, keys)
    requires forall k :: k !in keys ==> Get(w, k) == Get(v, k)
    requires AllPass(shape, v)
    ensures AllPass(shape, w)
  {
    forall i | 0 <= i < |shape|
      ensures Passes(shape[i], w)
    {
      assert Get(w, shape[i].key) == Get(v, shape[i].key);
    }
  }

  /** A shape whose middle part holds every field named in `keys` passes on `w` when it passes on `v`, the
      two agree outside `keys` and the middle part passes on `w`: nothing outside the middle looks at `keys`. */
  lemma MiddleDecides(before: seq<Entry>, middle: seq<Entry>, after: seq<Entry>, v: Value, w: Value, keys: set<string>)
    requires Avoids(before, keys) && Avoids(after, keys)
    requires forall k :: k !in keys ==> Get(w, k) == Get(v, k)
    requires AllPass(before + middle + after, v) && AllPass(middle, w)
    ensures AllPass(before + middle + after, w)
  {
    AllPassAppend(before + middle, after, v);
    AllPassAppend(before, middle, v);
    PassesElsewhere(before, v, w, keys);
    PassesElsewhere(after, v, w, keys);
    AllPassAppend(before, middle, w);
    AllPassAppend(before + middle, after, w);
  }

  /** Every field of a parsed object is what some rule of the shape made of the input under that key. */
  lemma {:induction false} FieldsFrom(shape: seq<Entry>, v: Value)
    requires Fields(shape, v).Some?
    ensures forall f :: f in Fields(shape, v).value ==>
      f.val != Undefined && exists j :: 0 <= j < |shape| && f.key == shape[j].key && Some(f.val) == Check(shape[j].rule, Get(v, shape[j].key))
  {
    if shape != [] {
      var x := Check(shape[0].rule, Get(v, shape[0].key)).value;
      var rest := Fields(shape[1..], v).value;
      var head: seq<Field> := if x == Undefined then [] else [Field(shape[0].key, x)];
      assert Fields(shape, v).value == head + rest;
      FieldsFrom(shape[1..], v);
      forall f | f in head + rest
        ensures f.val != Undefined
        ensures exists j :: 0 <= j < |shape| && f.key == shape[j].key && Some(f.val) == Check(shape[j].rule, Get(v, shape[j].key))
      {
        if f in rest {
          var j :| 0 <= j < |shape[1..]| && f.key == shape[1..][j].key && Some(f.val) == Check(shape[1..][j].rule, Get(v, shape[1..][j].key));
          assert shape[1..][j] == shape[j + 1];
        } else {
          assert f == Field(shape[0].key, x);
        }
      }
    }
  }

  /** A field the rule keeps (anything but undefined) is in the parsed object under its key. */
  lemma {:induction false} FieldsKeep(shape: seq<Entry>, v: Value, i: nat)
    requires Fields(shape, v).Some? && i < |shape|
    requires Check(shape[i].rule, Get(v, shape[i].key)).value != Undefined
    ensures Field(shape[i].key, Check(shape[i].rule, Get(v, shape[i].key)).value) in Fields(shape, v).value
  {
    var x := Check(shape[0].rule, Get(v, shape[0].key)).value;
    var rest := Fields(shape[1..], v).value;
    var head: seq<Field> := if x == Undefined then [] else [Field(shape[0].key, x)];
    assert Fields(shape, v).value == head + rest;
    if i == 0 {
      assert (head + rest)[0] == Field(shape[0].key, x);
    } else {
      FieldsKeep(shape[1..], v, i - 1);
      assert shape[1..][i - 1] == shape[i];
      assert forall f :: f in rest ==> f in head + rest;
    }
  }

  /** The shape with every optional trimmed field read as intended, blank text becoming undefined. */
  function AsIntended(e: Entry): (r: Entry)
    ensures r.key == e.key
    ensures !e.rule.OptTrimmedText? ==> r == e
  {
    if e.rule.OptTrimmedText? then Entry(e.key, BlankAsAbsent(e.rule.max)) else e
  }

  function Intended(shape: seq<Entry>): (r: seq<Entry>)
    ensures |r| == |shape| && forall i :: 0 <= i < |shape| ==> r[i] == AsIntended(shape[i])
  {
    if shape == [] then [] else [AsIntended(shape[0])] + Intended(shape[1..])
  }

  /** Reading the optional fields as intended changes no verdict, only what blank text becomes. */
  lemma IntendedSameVerdict(shape: seq<Entry>, v: Value)
    ensures AllPass(Intended(shape), v) <==> AllPass(shape, v)
  {
    forall i | 0 <= i < |shape|
      ensures Passes(Intended(shape)[i], v) <==> Passes(shape[i], v)
    {
      if shape[i].rule.OptTrimmedText? {
        IntendedAcceptsSame(shape[i].rule.max, Get(v, shape[i].key));
      }
    }
  }

  /** The rules that trim their text. */
  predicate Trims(r: Rule)
  {
    r.TrimmedText? || r.OptTrimmedText? || r.BlankAsAbsent?
  }

  /** The rules that never yield empty text: a required trimmed string with a positive minimum, or the
      intended optional one. */
  predicate NeverEmpty(r: Rule)
  {
    (r.TrimmedText? && r.min > 0) || r.BlankAsAbsent?
  }

  /** What a trimming rule keeps is trimmed text, and non-empty when the rule never yields "". */
  lemma TrimsOutput(rule: Rule, x: Value)
    requires Trims(rule) && Check(rule, x).Some? && Check(rule, x).value != Undefined
    ensures Check(rule, x).value.Str? && Trimmed(Check(rule, x).value.s)
    ensures NeverEmpty(rule) ==> Check(rule, x).value.s != ""
  {
    if rule.BlankAsAbsent? {
      BlankBecomesAbsent(rule.max, x);
    }
  }

  /** Every field parsed by trimming rules is trimmed text, and non-empty when no rule can yield "". */
  lemma {:induction false} TrimmedFields(shape: seq<Entry>, v: Value)
    requires Fields(shape, v).Some?
    requires forall i :: 0 <= i < |shape| ==> Trims(shape[i].rule)
    ensures forall f :: f in Fields(shape, v).value ==> f.val.Str? && Trimmed(f.val.s)
    ensures (forall i :: 0 <= i < |shape| ==> NeverEmpty(shape[i].rule)) ==>
      forall f :: f in Fields(shape, v).value ==> f.val.Str? && f.val.s != ""
  {
    FieldsFrom(shape, v);
    forall f | f in Fields(shape, v).value
      ensures f.val.Str? && Trimmed(f.val.s)
      ensures (forall i :: 0 <= i < |shape| ==> NeverEmpty(shape[i].rule)) ==> f.val != Str("")
    {
      var j :| 0 <= j < |shape| && f.key == shape[j].key && Some(f.val) == Check(shape[j].rule, Get(v, shape[j].key));
      TrimsOutput(shape[j].rule, Get(v, shape[j].key));
      if forall i :: 0 <= i < |shape| ==> NeverEmpty(shape[i].rule) {
        assert NeverEmpty(shape[j].rule);
      }
    }
  }

  // ---- the rules one at a time ----

  /** A bounded string is accepted exactly when its length, untrimmed, is within the bounds, and is kept. */
  lemma TextBounds(min: nat, max: nat, v: Value)
    ensures Check(Text(min, max), v).Some? <==> v.Str? && min <= |v.s| <= max
    ensures Check(Text(min, max), v).Some? ==> Check(Text(min, max), v).value == v
  {
  }

  /** A trimmed string is bounded after trimming, so surrounding spaces count toward neither bound and a
      blank required field fails. */
  lemma TrimmedBounds(min: nat, max: nat, s: string)
    ensures Check(TrimmedText(min, max), Str(s)).Some? <==> min <= |Trim(s)| <= max
    ensures min > 0 && AllSpace(s) ==> Check(TrimmedText(min, max), Str(s)).None?
  {
    TrimEmptyIffAllSpace(s);
  }

  /** The optional trimmed rule keeps "" as "": the `''` branch of the union is never reached, because the
      first branch already accepts the empty string. */
  lemma EmptyStaysEmpty(max: nat)
    ensures Check(OptTrimmedText(max), Str("")) == Some(Str(""))
  {
  }

  /** Whatever the optional trimmed rule accepts, the first branch of the union accepts as well. */
  lemma OptTrimmedFirstBranch(max: nat, v: Value)
    requires Check(OptTrimmedText(max), v).Some?
    ensures v.Undefined? || (v.Str? && |Trim(v.s)| <= max && Check(OptTrimmedText(max), v) == Some(Str(Trim(v.s))))
  {
  }

  /** The intended rule never yields an empty or untrimmed string: blank text becomes undefined. */
  lemma BlankBecomesAbsent(max: nat, v: Value)
    ensures v.Str? && Blank(v.s) ==> Check(BlankAsAbsent(max), v) == Some(Undefined)
    ensures Check(BlankAsAbsent(max), v).Some? && Check(BlankAsAbsent(max), v).value.Str? ==>
      Check(BlankAsAbsent(max), v).value.s != "" && Trimmed(Check(BlankAsAbsent(max), v).value.s)
  {
  }

  /** The intended rule accepts the same values as the written one, and differs from it only on blank text. */
  lemma IntendedAcceptsSame(max: nat, v: Value)
    ensures Check(BlankAsAbsent(max), v).Some? <==> Check(OptTrimmedText(max), v).Some?
    ensures !(v.Str? && Blank(v.s)) ==> Check(BlankAsAbsent(max), v) == Check(OptTrimmedText(max), v)
  {
  }

  /** The pattern takes exactly four digits, a hyphen and two digits; the month is not range-checked. */
  lemma MonthNotChecked()
    ensures Check(YearMonth, Str("2024-13")).Some? && Check(YearMonth, Str("2024-00")).Some?
    ensures Check(YearMonth, Str("2024-1")).None? && Check(YearMonth, Str("2024/01")).None?
  {
    assert IsYearMonth("2024-13") && IsYearMonth("2024-00");
    assert !IsYearMonth("2024/01");
  }

  /** An accepted integer field holds an integer within its range. */
  lemma IntRange(lo: int, hi: int, v: Value)
    requires Check(OptInt(lo, hi), v).Some? && !v.Undefined?
    ensures Check(OptInt(lo, hi), v).value.Num? && lo <= Check(OptInt(lo, hi), v).value.n <= hi
  {
  }

  /** Coercion of the empty string and of null: both count as 0. */
  lemma CoercesEmpty(lo: int, hi: int)
    requires lo <= 0 <= hi
    ensures Check(OptInt(lo, hi), Str("")) == Some(Num(0))
    ensures Check(OptInt(lo, hi), Null) == Some(Num(0))
  {
  }

  /** Coercion of a numeral string: it counts as its number, so a negative numeral fails a range from 0. */
  lemma CoercesNumerals(hi: int)
    requires 7 <= hi
    ensures Check(OptInt(0, hi), Str("7")) == Some(Num(7))
    ensures Check(OptInt(0, hi), Str("-1")).None?
  {
    TrimNoSpaceEnds("7");
    TrimNoSpaceEnds("-1");
    assert Unsigned("7") == "7" && ParseDigits("7") == 7;
    assert Unsigned("-1") == "1" && ParseDigits("1") == 1;
  }
}
