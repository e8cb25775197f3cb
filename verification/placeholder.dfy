/** `lib/pdf/placeholder.ts`: resolution of `{{a.b.0}}` placeholders against a nested payload, text
    extraction from element-like nodes, and the pruning of "primitive-empty" values.

    Element text extraction does not terminate on a plain (non-element) object child: the source wraps
    it as `{props: {children: child}}` and meets the same object again. Every function that can reach
    that case returns an `Option`, with `None` standing for the divergence. */
module Placeholder {
  import opened Base
  import opened Strings
  import opened JsValue

  // ---- element-like nodes ----

  /** `Symbol.for("react.element")`. */
  const ElementSymbol: Value := Sym("react.element")

  /** `hasReactLikeMarker`: a `$$typeof` field holding the element symbol, or a string that contains
      `react.element` in any letter case. */
  predicate HasMarker(fields: seq<Field>)
    ensures "$$typeof" !in Keys(fields) ==> !HasMarker(fields)
    ensures HasMarker(fields) ==> Lookup(fields, "$$typeof").Sym? || Lookup(fields, "$$typeof").Str?
  {
    "$$typeof" in Keys(fields)
    && var marker := Lookup(fields, "$$typeof");
       marker == ElementSymbol || (marker.Str? && Includes(ToLower(marker.s), "react.element"))
  }

  /** `isReactElement`: an object with the marker, or with a string `type` and an object-typed `props`
      (null included). Arrays have neither field. */
  predicate IsElement(v: Value)
    ensures IsElement(v) ==> v.Obj?
    ensures v.Obj? && Get(v, "type").Str? && Get(v, "props").Null? ==> IsElement(v)
  {
    v.Obj? && (HasMarker(v.fields) || (Get(v, "type").Str? && IsObjectType(Get(v, "props"))))
  }

  /** `{props: {children: c}}`, the wrapper the source builds around a child that is an object. */
  function Wrap(c: Value): Value
  {
    Obj([Field("props", Obj([Field("children", c)]))])
  }

  /** `extractTextFromReactElement`: the text of `element.props.children`; anything that is not an object
      has no text, and neither has an array, which has no `props`. */
  function ElementText(element: Value): (r: Option<string>)
    ensures !element.Obj? ==> r == Some("")
    ensures element.Obj? && IsNullish(Get(Get(element, "props"), "children")) ==> r == Some("")
    ensures element.Obj? && Get(Get(element, "props"), "children").Str?
            ==> r == Some(Get(Get(element, "props"), "children").s)
    decreases element, 0
  {
    if !element.Obj? then Some("")
    else
      var props := Get(element, "props");
      GetFinds(element, "props");
      GetFinds(props, "children");
      var children := Get(props, "children");
      if children == Undefined then Some("") else ChildrenText(children)
  }

  /** The text of a `children` value: strings as they are, numbers and booleans through `String`, array
      parts with the empty ones dropped and the rest joined with no separator, nested elements
      recursively. A plain object is wrapped again and again without end: `None`. */
  function ChildrenText(children: Value): (r: Option<string>)
    ensures IsNullish(children) ==> r == Some("")
    ensures children.Str? ==> r == Some(children.s)
    ensures children.Obj? && !IsElement(children) ==> r == None
    ensures children.Arr? ==> (r.Some? <==> forall i :: 0 <= i < |children.items| ==> ChildText(children.items[i]).Some?)
    decreases children, 1
  {
    match children
    case Undefined => Some("")
    case Null => Some("")
    case Str(s) => Some(s)
    case Num(_) => Some(PrimitiveText(children))
    case NaN => Some(PrimitiveText(children))
    case Bool(_) => Some(PrimitiveText(children))
    case Sym(_) => Some("")
    case Arr(items) =>
      (match AllSome(ChildTexts(items))
       case None => None
       case Some(texts) => Some(Join(Filter(NonEmpty, texts), "")))
    case Obj(_) => if IsElement(children) then ElementText(children) else None
  }

  function ChildTexts(items: seq<Value>): (r: seq<Option<string>>)
    ensures |r| == |items| && forall i :: 0 <= i < |items| ==> r[i] == ChildText(items[i])
    decreases items
  {
    seq(|items|, i requires 0 <= i < |items| => ChildText(items[i]))
  }

  /** One entry of a `children` array. Objects that are not elements, arrays included, go through the
      `{props: {children: child}}` wrapper, whose text is the text of `child` (see `WrapText`). */
  function ChildText(child: Value): (r: Option<string>)
    ensures IsNullish(child) ==> r == Some("")
    ensures child.Str? ==> r == Some(child.s)
    ensures child.Obj? && !IsElement(child) ==> r == None
    decreases child, 2
  {
    match child
    case Str(s) => Some(s)
    case Num(_) => Some(PrimitiveText(child))
    case NaN => Some(PrimitiveText(child))
    case Bool(_) => Some(PrimitiveText(child))
    case Arr(_) => ChildrenText(child)
    case Obj(_) => if IsElement(child) then ElementText(child) else ChildrenText(child)
    case _ => Some("")
  }

  /** The wrapper the source builds is transparent: its text is the text of what it wraps. */
  lemma WrapText(c: Value)
    ensures ElementText(Wrap(c)) == ChildrenText(c)
  {
    assert Get(Wrap(c), "props") == Obj([Field("children", c)]);
  }

  /** A plain object child never yields a text: the extraction diverges. */
  lemma PlainObjectDiverges(c: Value)
    requires c.Obj? && !IsElement(c)
    ensures ChildrenText(c) == None && ChildText(c) == None && ElementText(Wrap(c)) == None
  {
    WrapText(c);
  }

  /** The strings of an array of strings. */
  function TextsOf(items: seq<Value>): (r: seq<string>)
    requires forall i :: 0 <= i < |items| ==> items[i].Str?
    ensures |r| == |items| && forall i :: 0 <= i < |items| ==> r[i] == items[i].s
  {
    seq(|items|, i requires 0 <= i < |items| => items[i].s)
  }

  /** On an array of strings the two joins differ: element text glues the non-empty strings together,
      `coerceText` puts one space between them. */
  lemma JoinSeparators(items: seq<Value>)
    requires forall i :: 0 <= i < |items| ==> items[i].Str?
    ensures ChildrenText(Arr(items)) == Some(Join(Filter(NonEmpty, TextsOf(items)), ""))
    ensures CoerceText(Arr(items)) == Some(Join(Filter(NonEmpty, TextsOf(items)), " "))
  {
    assert AllSome(ChildTexts(items)).value == TextsOf(items);
    assert AllSome(CoerceTexts(items)).value == TextsOf(items);
  }

  // ---- path lookup ----

  /** `Number(key)` as an array index: blank text is 0, a run of decimal digits (surrounding spaces
      allowed) is its value, and every other key is NaN or negative, shown as `None`. */
  function IndexOfKey(key: string): (r: Option<nat>)
    ensures Trim(key) == "" ==> r == Some(0)
  {
    var t := Trim(key);
    if t == "" then Some(0)
    else if forall i :: 0 <= i < |t| ==> IsDigit(t[i]) then Some(ParseDigits(t))
    else None
  }

  /** One step of the `reduce` in `getValue`. */
  function Step(acc: Value, key: string): (r: Value)
    ensures IsNullish(acc) || !IsObjectType(acc) ==> r == Str("")
    ensures acc.Arr? ==> r == match IndexOfKey(key)
                              case Some(k) => if k < |acc.items| then acc.items[k] else Str("")
                              case None => Str("")
    ensures acc.Obj? ==> r == Lookup(acc.fields, key)
  {
    match acc
    case Arr(items) =>
      (match IndexOfKey(key)
       case Some(k) => if k < |items| then items[k] else Str("")
       case None => Str(""))
    case Obj(fields) => Lookup(fields, key)
    case _ => Str("")
  }

  /** The value a path of keys leads to from `acc`: `acc` itself for no keys, one step for one key. */
  function Walk(keys: seq<string>, acc: Value): (r: Value)
    ensures keys == [] ==> r == acc
    ensures |keys| == 1 ==> r == Step(acc, keys[0])
  {
    if keys == [] then acc else Walk(keys[1..], Step(acc, keys[0]))
  }

  /** `getValue`: the value at a dotted path, one segment at a time. */
  function GetValue(path: string, context: Value): (r: Value)
    ensures '.' !in path ==> r == Step(context, path)
  {
    if '.' !in path then SplitWithout(path, '.'); Walk(Split(path, '.'), context)
    else Walk(Split(path, '.'), context)
  }

  /** Once a walk meets a primitive or a missing value it yields `""` to the end. */
  lemma {:induction false} WalkStops(keys: seq<string>, acc: Value)
    requires keys != [] && !(acc.Arr? || acc.Obj?)
    ensures Walk(keys, acc) == Str("")
  {
    if |keys| > 1 {
      WalkStops(keys[1..], Str(""));
    }
  }

  /** A decimal index selects the item at that index, or `""` past the end. */
  lemma IndexStep(items: seq<Value>, k: nat)
    ensures Step(Arr(items), NatToString(k)) == if k < |items| then items[k] else Str("")
  {
    var t := NatToString(k);
    assert !IsSpace(t[0]) && !IsSpace(t[|t| - 1]);
    TrimNoSpaceEnds(t);
    ParseNatToString(k);
  }

  /** An empty segment on an array addresses index 0, since `Number("")` is 0. */
  lemma EmptySegmentIsZero(items: seq<Value>)
    requires items != []
    ensures Step(Arr(items), "") == items[0]
  {
  }

  /** A key the object does not have yields `""` for the whole path, however it goes on. */
  lemma MissingKey(fields: seq<Field>, key: string, rest: seq<string>)
    requires key !in Keys(fields)
    ensures Render(Walk([key] + rest, Obj(fields))) == ""
  {
    assert ([key] + rest)[1..] == rest;
    if rest != [] {
      WalkStops(rest, Undefined);
    }
  }

  /** A dotted path is walked segment by segment: `getValue(keys.join("."))` follows `keys`. */
  lemma {:induction false} SplitJoinedPath(keys: seq<string>)
    requires keys != []
    requires forall k :: k in keys ==> '.' !in k
    ensures Split(Join(keys, "."), '.') == keys
  {
    if |keys| == 1 {
      SplitWithout(keys[0], '.');
    } else {
      SplitJoinedPath(keys[1..]);
      SplitAfter(keys[0], Join(keys[1..], "."), '.');
      assert Join(keys, ".") == keys[0] + ['.'] + Join(keys[1..], ".");
      assert [keys[0]] + keys[1..] == keys;
    }
  }

  /** Splitting `a + [c] + b` gives `a`, then the pieces of `b`, when `a` has no `c`. */
  lemma {:induction false} SplitAfter(a: string, b: string, c: char)
    requires c !in a
    ensures Split(a + [c] + b, c) == [a] + Split(b, c)
  {
    if a == [] {
      assert a + [c] + b == [c] + b;
      assert ([c] + b)[1..] == b;
    } else {
      var s := a + [c] + b;
      assert s[1..] == a[1..] + [c] + b;
      SplitAfter(a[1..], b, c);
      assert [a[0]] + a[1..] == a;
    }
  }

  // ---- string substitution ----

  /** The text `String` gives a resolved value inside a string: strings as they are, numbers and booleans
      in decimal or as `true`/`false`, everything else empty. */
  function Render(v: Value): (r: string)
    ensures v.Str? ==> r == v.s
    ensures IsNullish(v) || v.Arr? || v.Obj? || v.Sym? ==> r == ""
  {
    if v.Str? || v.Num? || v.NaN? || v.Bool? then PrimitiveText(v) else ""
  }

  predicate IsBrace(c: char)
  {
    c == '{' || c == '}'
  }

  /** Position of the first brace, or the length when there is none. */
  function FirstBrace(r: string): (j: nat)
    ensures j <= |r|
    ensures forall i :: 0 <= i < j ==> !IsBrace(r[i])
    ensures j < |r| ==> IsBrace(r[j])
  {
    if r == [] || IsBrace(r[0]) then 0 else 1 + FirstBrace(r[1..])
  }

  /** The capture of `{{\s*([^{}]+?)\s*}}` from the brace-free text between the braces: the text
      without its surrounding whitespace; when it is whitespace only, its last character, because the
      lazy group must take at least one. */
  function TokenText(seg: string): (r: string)
    requires seg != []
    ensures r != []
    ensures !AllSpace(seg) ==> r == Trim(seg)
    ensures AllSpace(seg) ==> r == [seg[|seg| - 1]]
  {
    if AllSpace(seg) then [seg[|seg| - 1]]
    else
      TrimEmptyIffAllSpace(seg);
      Trim(seg)
  }

  /** A non-empty brace-free text ends at `k`, where a `}}` follows. */
  predicate ClosesAt(r: string, k: int)
  {
    1 <= k <= |r| - 2 && r[k] == '}' && r[k + 1] == '}' && forall i :: 0 <= i < k ==> !IsBrace(r[i])
  }

  /** The placeholder that starts after a `{{`: the text up to the first brace must be non-empty and the
      first brace must begin `}}`. Gives the captured key and how many characters the match takes after
      the opening `{{`. */
  function MatchAfterOpen(r: string): (m: Option<(string, nat)>)
    ensures m.Some? ==> 3 <= m.value.1 <= |r|
    ensures m.Some? ==> ClosesAt(r, m.value.1 - 2) && m.value.0 == TokenText(r[..m.value.1 - 2])
    ensures m.None? ==> forall k :: !ClosesAt(r, k)
  {
    var j := FirstBrace(r);
    if 1 <= j && j + 2 <= |r| && r[j] == '}' && r[j + 1] == '}' then Some((TokenText(r[..j]), j + 2))
    else None
  }

  predicate OpensAt(s: string, p: nat)
  {
    p + 1 < |s| && s[p] == '{' && s[p + 1] == '{'
  }

  /** The global `replace`: scanning left to right, each placeholder is replaced by the rendered value of
      its key and scanning resumes after it, so the inserted text is never scanned again. */
  function ReplaceTokens(s: string, context: Value): (r: string)
    ensures '{' !in s ==> r == s
    decreases |s|
  {
    if |s| < 2 then s
    else if OpensAt(s, 0) && MatchAfterOpen(s[2..]).Some? then
      var m := MatchAfterOpen(s[2..]).value;
      Render(GetValue(m.0, context)) + ReplaceTokens(s[2 + m.1..], context)
    else
      assert [s[0]] + s[1..] == s;
      [s[0]] + ReplaceTokens(s[1..], context)
  }

  /** `resolvePlaceholdersInString`. */
  function ResolveString(value: string, context: Value): (r: string)
    ensures value == "" ==> r == ""
  {
    if value == "" then "" else ReplaceTokens(value, context)
  }

  predicate NoOpening(s: string)
  {
    forall p :: 0 <= p < |s| ==> !OpensAt(s, p)
  }

  /** Text without `{{` comes back unchanged. */
  lemma {:induction false} NoOpeningUnchanged(s: string, context: Value)
    requires NoOpening(s)
    ensures ResolveString(s, context) == s
  {
    if |s| >= 2 {
      assert !OpensAt(s, 0);
      assert NoOpening(s[1..]) by {
        forall p | 0 <= p < |s| - 1 ensures !OpensAt(s[1..], p) {
          assert !OpensAt(s, p + 1);
        }
      }
      NoOpeningUnchanged(s[1..], context);
      assert [s[0]] + s[1..] == s;
    }
  }

  /** A placeholder in front is replaced by its rendered value, which is then left alone: the rest of the
      text is what gets scanned next. */
  lemma PlaceholderReplaced(key: string, rest: string, context: Value)
    requires key != [] && !IsSpace(key[0]) && !IsSpace(key[|key| - 1])
    requires forall i :: 0 <= i < |key| ==> !IsBrace(key[i])
    ensures ReplaceTokens("{{" + key + "}}" + rest, context)
            == Render(GetValue(key, context)) + ReplaceTokens(rest, context)
  {
    var s := "{{" + key + "}}" + rest;
    var r := s[2..];
    assert r == key + ("}}" + rest);
    assert FirstBrace(r) == |key| by {
      FirstBraceAfter(key, "}}" + rest);
    }
    assert r[..|key|] == key;
    assert !AllSpace(key);
    TrimNoSpaceEnds(key);
    assert s[2 + |key| + 2..] == rest;
  }

  /** `{{ name }}` is replaced like `{{name}}`: the whitespace inside the braces is not part of the key. */
  lemma SpacedPlaceholderReplaced(w1: string, key: string, w2: string, rest: string, context: Value)
    requires AllSpace(w1) && AllSpace(w2)
    requires key != [] && !IsSpace(key[0]) && !IsSpace(key[|key| - 1])
    requires forall i :: 0 <= i < |key| ==> !IsBrace(key[i])
    ensures ReplaceTokens("{{" + w1 + key + w2 + "}}" + rest, context)
            == Render(GetValue(key, context)) + ReplaceTokens(rest, context)
  {
    var seg := w1 + key + w2;
    var s := "{{" + w1 + key + w2 + "}}" + rest;
    assert s == "{{" + (seg + ("}}" + rest));
    assert s[2..] == seg + ("}}" + rest);
    SpacedMatch(w1, key, w2, rest);
    assert OpensAt(s, 0);
    assert s[2 + |seg| + 2..] == rest;
  }

  /** After `{{`, the spaced key and `}}` form one match that captures the bare key. */
  lemma SpacedMatch(w1: string, key: string, w2: string, rest: string)
    requires AllSpace(w1) && AllSpace(w2)
    requires key != [] && !IsSpace(key[0]) && !IsSpace(key[|key| - 1])
    requires forall i :: 0 <= i < |key| ==> !IsBrace(key[i])
    ensures MatchAfterOpen(w1 + key + w2 + ("}}" + rest)) == Some((key, |w1 + key + w2| + 2))
  {
    var seg := w1 + key + w2;
    var r := seg + ("}}" + rest);
    assert forall i :: 0 <= i < |seg| ==> !IsBrace(seg[i]) by {
      forall i | 0 <= i < |seg| ensures !IsBrace(seg[i]) {
        if i < |w1| {
          assert seg[i] == w1[i];
        } else if i < |w1| + |key| {
          assert seg[i] == key[i - |w1|];
        } else {
          assert seg[i] == w2[i - |w1| - |key|];
        }
      }
    }
    assert FirstBrace(r) == |seg| by {
      FirstBraceAfter(seg, "}}" + rest);
    }
    assert r[..|seg|] == seg;
    assert seg[|w1|] == key[0];
    TrimDropsSpaceAround(w1, key, w2);
    TrimNoSpaceEnds(key);
  }

  lemma {:induction false} FirstBraceAfter(a: string, b: string)
    requires forall i :: 0 <= i < |a| ==> !IsBrace(a[i])
    requires b != [] && IsBrace(b[0])
    ensures FirstBrace(a + b) == |a|
  {
    if a != [] {
      assert (a + b)[1..] == a[1..] + b;
      FirstBraceAfter(a[1..], b);
    } else {
      assert a + b == b;
    }
  }

  /** A value that is itself a placeholder is inserted literally. */
  lemma InsertedTextNotRescanned()
    ensures ResolveString("{{x}}", Obj([Field("x", Str("{{x}}"))])) == "{{x}}"
  {
    var ctx := Obj([Field("x", Str("{{x}}"))]);
    PlaceholderReplaced("x", "", ctx);
    assert "{{" + "x" + "}}" + "" == "{{x}}";
    assert Split("x", '.') == ["x"];
  }

  // ---- pruning and resolution ----

  /** `isPrimitiveEmpty`: blank strings, NaN, nullish values, and containers of such values, the empty
      array and object among them; booleans and numbers never are. */
  predicate IsPrimitiveEmpty(v: Value)
    ensures v.Str? ==> (IsPrimitiveEmpty(v) <==> AllSpace(v.s))
    ensures v.Num? || v.Bool? || v.Sym? ==> !IsPrimitiveEmpty(v)
    ensures v == Arr([]) || v == Obj([]) ==> IsPrimitiveEmpty(v)
  {
    match v
    case Undefined => true
    case Null => true
    case Str(s) => TrimEmptyIffAllSpace(s); Trim(s) == ""
    case NaN => true
    case Arr(items) => forall i :: 0 <= i < |items| ==> IsPrimitiveEmpty(items[i])
    case Obj(fields) => forall i :: 0 <= i < |fields| ==> IsPrimitiveEmpty(fields[i].val)
    case _ => false
  }

  predicate Keep(v: Value)
  {
    !IsPrimitiveEmpty(v)
  }

  /** `resolveValue`: strings have their placeholders resolved, elements become their text, arrays are
      resolved item by item with the empty results dropped, objects key by key, nullish values become
      `""`, and everything else is kept. */
  function ResolveValue(value: Value, context: Value): (r: Option<Value>)
    ensures value.Str? ==> r == Some(Str(ResolveString(value.s, context)))
    ensures IsNullish(value) ==> r == Some(Str(""))
    ensures value.Num? || value.NaN? || value.Bool? || value.Sym? ==> r == Some(value)
    decreases value
  {
    match value
    case Str(s) => Some(Str(ResolveString(s, context)))
    case Undefined => Some(Str(""))
    case Null => Some(Str(""))
    case Arr(items) =>
      (match AllSome(ResolveItems(items, context))
       case None => None
       case Some(rs) => Some(Arr(Filter(Keep, rs))))
    case Obj(fields) =>
      if IsElement(value) then
        (match ElementText(value)
         case None => None
         case Some(t) => Some(Str(t)))
      else
        (match AllSome(ResolveFieldValues(fields, context))
         case None => None
         case Some(vs) => Some(Obj(Refill(fields, vs))))
    case _ => Some(value)
  }

  function ResolveItems(items: seq<Value>, context: Value): (r: seq<Option<Value>>)
    ensures |r| == |items| && forall i :: 0 <= i < |items| ==> r[i] == ResolveValue(items[i], context)
    decreases items
  {
    seq(|items|, i requires 0 <= i < |items| => ResolveValue(items[i], context))
  }

  function ResolveFieldValues(fields: seq<Field>, context: Value): (r: seq<Option<Value>>)
    ensures |r| == |fields| && forall i :: 0 <= i < |fields| ==> r[i] == ResolveValue(fields[i].val, context)
    decreases fields
  {
    seq(|fields|, i requires 0 <= i < |fields| => ResolveValue(fields[i].val, context))
  }

  /** The fields with the same keys, in the same order, holding new values. */
  function Refill(fields: seq<Field>, vals: seq<Value>): (r: seq<Field>)
    requires |vals| == |fields|
    ensures |r| == |fields| && Keys(r) == Keys(fields)
    ensures forall i :: 0 <= i < |r| ==> r[i] == Field(fields[i].key, vals[i])
  {
    seq(|fields|, i requires 0 <= i < |fields| => Field(fields[i].key, vals[i]))
  }

  /** A resolved array holds no empty value, and every non-empty resolved item is in it. */
  lemma ResolvedArray(items: seq<Value>, context: Value)
    requires ResolveValue(Arr(items), context).Some?
    ensures var r := ResolveValue(Arr(items), context).value;
            r.Arr? && (forall x :: x in r.items ==> Keep(x))
            && forall i :: 0 <= i < |items| && Keep(ResolveValue(items[i], context).value) ==>
                 ResolveValue(items[i], context).value in r.items
  {
    var rs := AllSome(ResolveItems(items, context)).value;
    forall i | 0 <= i < |items| && Keep(ResolveValue(items[i], context).value)
      ensures ResolveValue(items[i], context).value in Filter(Keep, rs)
    {
      assert rs[i] == ResolveValue(items[i], context).value;
    }
  }

  lemma ResolveItemsAppend(a: seq<Value>, b: seq<Value>, context: Value)
    ensures ResolveItems(a + b, context) == ResolveItems(a, context) + ResolveItems(b, context)
  {
    var s, sa, sb := ResolveItems(a + b, context), ResolveItems(a, context), ResolveItems(b, context);
    assert forall i :: 0 <= i < |a| ==> s[i] == sa[i];
    assert forall j :: 0 <= j < |b| ==> s[|a| + j] == sb[j];
    Pointwise(s, sa, sb);
  }

  /** Resolved array items keep their relative order: resolving `a + b` is resolving `a`, then `b`. */
  lemma ResolveArrayAppend(a: seq<Value>, b: seq<Value>, context: Value)
    requires ResolveValue(Arr(a), context).Some? && ResolveValue(Arr(b), context).Some?
    ensures ResolveValue(Arr(a + b), context)
            == Some(Arr(ResolveValue(Arr(a), context).value.items + ResolveValue(Arr(b), context).value.items))
  {
    var sa := ResolveItems(a, context);
    var sb := ResolveItems(b, context);
    ResolveItemsAppend(a, b, context);
    AllSomeAppend(sa, sb);
    FilterAppend(Keep, AllSome(sa).value, AllSome(sb).value);
  }

  /** A resolved plain object has the same keys, in the same order, each holding its resolved value. */
  lemma ResolvedObject(fields: seq<Field>, context: Value)
    requires !IsElement(Obj(fields)) && ResolveValue(Obj(fields), context).Some?
    ensures var r := ResolveValue(Obj(fields), context).value;
            r.Obj? && Keys(r.fields) == Keys(fields)
            && forall i :: 0 <= i < |fields| ==> Some(r.fields[i].val) == ResolveValue(fields[i].val, context)
  {
  }

  /** Placeholders are resolved against the context given, in one pass: a field holding `{{k}}` receives
      the ORIGINAL value of field `k`, even when that value itself contains a placeholder. */
  lemma ResolvesAgainstOriginal(fields: seq<Field>, i: nat, key: string, t: string)
    requires i < |fields| && fields[i].val == Str("{{" + key + "}}")
    requires key != [] && !IsSpace(key[0]) && !IsSpace(key[|key| - 1])
    requires forall j :: 0 <= j < |key| ==> !IsBrace(key[j]) && key[j] != '.'
    requires Lookup(fields, key) == Str(t)
    requires !IsElement(Obj(fields)) && ResolveValue(Obj(fields), Obj(fields)).Some?
    ensures ResolveValue(Obj(fields), Obj(fields)).value.fields[i].val == Str(t)
  {
    ResolvedObject(fields, Obj(fields));
    LoneKey(key, Obj(fields));
  }

  /** A string that is just `{{key}}`, for a key without dots, becomes the rendered value of that key. */
  lemma LoneKey(key: string, context: Value)
    requires key != [] && !IsSpace(key[0]) && !IsSpace(key[|key| - 1])
    requires forall j :: 0 <= j < |key| ==> !IsBrace(key[j]) && key[j] != '.'
    ensures ResolveString("{{" + key + "}}", context) == Render(Step(context, key))
  {
    var s := "{{" + key + "}}";
    PlaceholderReplaced(key, "", context);
    assert s + "" == s;
    assert ReplaceTokens("", context) == "";
    SplitWithout(key, '.');
    assert [key][1..] == [];
    assert GetValue(key, context) == Walk([key], context) == Walk([], Step(context, key));
  }

  /** `forcePlainValue`: nullish values and symbols become `""`, elements their text, arrays and objects
      are converted part by part, and strings, numbers and booleans are kept. */
  function ForcePlain(value: Value): (r: Option<Value>)
    ensures value.Str? || value.Num? || value.NaN? || value.Bool? ==> r == Some(value)
    ensures IsNullish(value) || value.Sym? ==> r == Some(Str(""))
    decreases value
  {
    match value
    case Undefined => Some(Str(""))
    case Null => Some(Str(""))
    case Sym(_) => Some(Str(""))
    case Arr(items) =>
      (match AllSome(ForcePlainItems(items))
       case None => None
       case Some(vs) => Some(Arr(vs)))
    case Obj(fields) =>
      if IsElement(value) then
        (match ElementText(value)
         case None => None
         case Some(t) => Some(Str(t)))
      else
        (match AllSome(ForcePlainFieldValues(fields))
         case None => None
         case Some(vs) => Some(Obj(Refill(fields, vs))))
    case _ => Some(value)
  }

  function ForcePlainItems(items: seq<Value>): (r: seq<Option<Value>>)
    ensures |r| == |items| && forall i :: 0 <= i < |items| ==> r[i] == ForcePlain(items[i])
    decreases items
  {
    seq(|items|, i requires 0 <= i < |items| => ForcePlain(items[i]))
  }

  function ForcePlainFieldValues(fields: seq<Field>): (r: seq<Option<Value>>)
    ensures |r| == |fields| && forall i :: 0 <= i < |fields| ==> r[i] == ForcePlain(fields[i].val)
    decreases fields
  {
    seq(|fields|, i requires 0 <= i < |fields| => ForcePlain(fields[i].val))
  }

  /** No nullish value and no symbol anywhere inside. */
  predicate IsPlain(v: Value)
  {
    match v
    case Undefined => false
    case Null => false
    case Sym(_) => false
    case Arr(items) => forall i :: 0 <= i < |items| ==> IsPlain(items[i])
    case Obj(fields) => forall i :: 0 <= i < |fields| ==> IsPlain(fields[i].val)
    case _ => true
  }

  /** What `forcePlainValue` produces holds no nullish value and no symbol anywhere, and keeps the shape
      of arrays and of objects that are not elements. (It may hold an element again: an object whose
      `$$typeof` or `type` was an element becomes one once that field has turned into text.) */
  lemma {:induction false} ForcePlainIsPlain(value: Value)
    requires ForcePlain(value).Some?
    ensures IsPlain(ForcePlain(value).value)
    ensures value.Arr? ==> ForcePlain(value).value.Arr? && |ForcePlain(value).value.items| == |value.items|
    ensures value.Obj? && !IsElement(value) ==>
              ForcePlain(value).value.Obj? && Keys(ForcePlain(value).value.fields) == Keys(value.fields)
    decreases value
  {
    match value
    case Arr(items) =>
      var vs := AllSome(ForcePlainItems(items)).value;
      forall i | 0 <= i < |items| ensures IsPlain(vs[i]) {
        ForcePlainIsPlain(items[i]);
      }
    case Obj(fields) =>
      if !IsElement(value) {
        var vs := AllSome(ForcePlainFieldValues(fields)).value;
        forall i | 0 <= i < |fields| ensures IsPlain(vs[i]) {
          ForcePlainIsPlain(fields[i].val);
        }
      }
    case _ =>
  }

  /** `coerceText` of this file: nullish values and symbols are empty, arrays join their non-empty item
      texts with one space, elements give their text, and any other object goes through the wrapper,
      which diverges. */
  function CoerceText(value: Value): (r: Option<string>)
    ensures value.Str? ==> r == Some(value.s)
    ensures IsNullish(value) || value.Sym? ==> r == Some("")
    ensures value.Obj? && !IsElement(value) ==> r == None
    decreases value
  {
    match value
    case Undefined => Some("")
    case Null => Some("")
    case Sym(_) => Some("")
    case Str(s) => Some(s)
    case Arr(items) =>
      (match AllSome(CoerceTexts(items))
       case None => None
       case Some(texts) => Some(Join(Filter(NonEmpty, texts), " ")))
    case Obj(_) => if IsElement(value) then ElementText(value) else ChildrenText(value)
    case _ => Some(PrimitiveText(value))
  }

  function CoerceTexts(items: seq<Value>): (r: seq<Option<string>>)
    ensures |r| == |items| && forall i :: 0 <= i < |items| ==> r[i] == CoerceText(items[i])
    decreases items
  {
    seq(|items|, i requires 0 <= i < |items| => CoerceText(items[i]))
  }

  // ---- the payload ----

  /** Exactly the given keys in order, each holding a string. */
  predicate RecordShape(v: Value, keys: seq<string>)
  {
    v.Obj? && Keys(v.fields) == keys && forall i :: 0 <= i < |v.fields| ==> v.fields[i].val.Str?
  }

  /** A history entry rebuilt from the text of its four fields. */
  function HistoryEntry(entry: Value): (r: Option<Value>)
    ensures r.Some? ==> RecordShape(r.value, ["year", "month", "desc", "status"])
  {
    match (CoerceText(Get(entry, "year")), CoerceText(Get(entry, "month")),
           CoerceText(Get(entry, "desc")), CoerceText(Get(entry, "status")))
    case (Some(y), Some(m), Some(d), Some(s)) =>
      Some(Obj([Field("year", Str(y)), Field("month", Str(m)), Field("desc", Str(d)), Field("status", Str(s))]))
    case _ => None
  }

  /** A qualification entry rebuilt from the text of its three fields. */
  function QualificationEntry(entry: Value): (r: Option<Value>)
    ensures r.Some? ==> RecordShape(r.value, ["year", "month", "desc"])
  {
    match (CoerceText(Get(entry, "year")), CoerceText(Get(entry, "month")), CoerceText(Get(entry, "desc")))
    case (Some(y), Some(m), Some(d)) =>
      Some(Obj([Field("year", Str(y)), Field("month", Str(m)), Field("desc", Str(d))]))
    case _ => None
  }

  function Rebuilt(items: seq<Value>, rebuild: Value -> Option<Value>): (r: seq<Option<Value>>)
    ensures |r| == |items| && forall i :: 0 <= i < |items| ==> r[i] == rebuild(items[i])
  {
    seq(|items|, i requires 0 <= i < |items| => rebuild(items[i]))
  }

  /** The entries of an array rebuilt one by one, with the empty ones dropped; anything else gives `[]`. */
  function Sanitize(list: Value, rebuild: Value -> Option<Value>): (r: Option<seq<Value>>)
    ensures !list.Arr? ==> r == Some([])
    ensures r.Some? ==> forall e :: e in r.value ==> Keep(e)
  {
    if !list.Arr? then Some([])
    else
      match AllSome(Rebuilt(list.items, rebuild))
      case None => None
      case Some(entries) => Some(Filter(Keep, entries))
  }

  /** `resolvePayloadPlaceholders`: every string is resolved against the ORIGINAL payload, the result is
      made plain, and `history` and `qualifications` are rebuilt as lists of non-empty text records. */
  function ResolvePayload(payload: Value): (r: Option<Value>)
    requires payload.Obj?
    ensures r.Some? ==> r.value.Obj? && Get(r.value, "history").Arr? && Get(r.value, "qualifications").Arr?
  {
    match ResolveValue(payload, payload)
    case None => None
    case Some(resolved) =>
      match ForcePlain(resolved)
      case None => None
      case Some(plain) =>
        match (Sanitize(Get(plain, "history"), HistoryEntry), Sanitize(Get(plain, "qualifications"), QualificationEntry))
        case (Some(h), Some(q)) => Some(WithLists(plain, h, q))
        case _ => None
  }

  /** `{ ...plain, history, qualifications }`: the plain payload's fields with the two lists set. */
  function WithLists(plain: Value, h: seq<Value>, q: seq<Value>): (r: Value)
    ensures r.Obj? && Get(r, "history") == Arr(h) && Get(r, "qualifications") == Arr(q)
    ensures forall k :: k != "history" && k != "qualifications" ==> Get(r, k) == Get(plain, k)
  {
    var base := if plain.Obj? then plain.fields else [];
    var withHistory := SetField(base, "history", Arr(h));
    assert "history" != "qualifications" by { assert "history"[0] != "qualifications"[0]; }
    Obj(SetField(withHistory, "qualifications", Arr(q)))
  }

  /** A text record: the shape above, with not all of the strings blank. */
  predicate TextRecord(v: Value, keys: seq<string>)
  {
    RecordShape(v, keys) && exists i :: 0 <= i < |v.fields| && !AllSpace(v.fields[i].val.s)
  }

  function TextRecordTest(keys: seq<string>): Value -> bool
  {
    v => TextRecord(v, keys)
  }

  /** A rebuilt record is kept exactly when it is a text record: when one of its strings is not blank. */
  lemma RecordKeep(v: Value, keys: seq<string>)
    requires RecordShape(v, keys)
    ensures Keep(v) <==> TextRecord(v, keys)
  {
    if Keep(v) {
      var i :| 0 <= i < |v.fields| && !IsPrimitiveEmpty(v.fields[i].val);
      TrimEmptyIffAllSpace(v.fields[i].val.s);
    }
    if TextRecord(v, keys) {
      var i :| 0 <= i < |v.fields| && !AllSpace(v.fields[i].val.s);
      TrimEmptyIffAllSpace(v.fields[i].val.s);
      assert !IsPrimitiveEmpty(v.fields[i].val);
    }
  }

  /** The reference for sanitising: the entries of an array rebuilt one by one, those that are text
      records, in their order; nothing for anything but an array. */
  function Survivors(list: Value, rebuild: Value -> Option<Value>, keys: seq<string>): Option<seq<Value>>
  {
    if !list.Arr? then Some([])
    else
      match AllSome(Rebuilt(list.items, rebuild))
      case None => None
      case Some(entries) => Some(Filter(TextRecordTest(keys), entries))
  }

  /** Sanitising keeps exactly the rebuilt entries that are text records, in their order, when every
      rebuilt entry has the same keys. */
  lemma Sanitized(list: Value, rebuild: Value -> Option<Value>, keys: seq<string>)
    requires forall e :: rebuild(e).Some? ==> RecordShape(rebuild(e).value, keys)
    ensures Sanitize(list, rebuild) == Survivors(list, rebuild, keys)
    ensures Sanitize(list, rebuild).Some? ==> forall e :: e in Sanitize(list, rebuild).value ==> TextRecord(e, keys)
  {
    if list.Arr? && AllSome(Rebuilt(list.items, rebuild)).Some? {
      var entries := AllSome(Rebuilt(list.items, rebuild)).value;
      forall e | e in entries ensures Keep(e) == TextRecordTest(keys)(e) {
        var i :| 0 <= i < |entries| && entries[i] == e;
        assert rebuild(list.items[i]) == Some(e);
        RecordKeep(e, keys);
      }
      FilterSame(Keep, TextRecordTest(keys), entries);
    }
  }

  /** The resolved payload's history is exactly the {year, month, desc, status} records rebuilt from
      the plain history that are not blank, in their order, and its qualifications likewise the
      {year, month, desc} records. */
  lemma ResolvedPayloadShape(payload: Value)
    requires payload.Obj? && ResolvePayload(payload).Some?
    ensures var r := ResolvePayload(payload).value;
            var plain := ForcePlain(ResolveValue(payload, payload).value).value;
            r.Obj? && Get(r, "history").Arr? && Get(r, "qualifications").Arr?
            && Survivors(Get(plain, "history"), HistoryEntry, ["year", "month", "desc", "status"])
               == Some(Get(r, "history").items)
            && Survivors(Get(plain, "qualifications"), QualificationEntry, ["year", "month", "desc"])
               == Some(Get(r, "qualifications").items)
            && (forall e :: e in Get(r, "history").items ==> TextRecord(e, ["year", "month", "desc", "status"]))
            && (forall e :: e in Get(r, "qualifications").items ==> TextRecord(e, ["year", "month", "desc"]))
  {
    var resolved := ResolveValue(payload, payload).value;
    var plain := ForcePlain(resolved).value;
    var h := Sanitize(Get(plain, "history"), HistoryEntry).value;
    var q := Sanitize(Get(plain, "qualifications"), QualificationEntry).value;
    Sanitized(Get(plain, "history"), HistoryEntry, ["year", "month", "desc", "status"]);
    Sanitized(Get(plain, "qualifications"), QualificationEntry, ["year", "month", "desc"]);
    var base := if plain.Obj? then plain.fields else [];
    var f1 := SetField(base, "history", Arr(h));
    var f2 := SetField(f1, "qualifications", Arr(q));
    assert Lookup(f2, "history") == Lookup(f1, "history");
  }
}
