/** The PDF text guard: whatever a component is handed as children is turned
    into a plain string before it reaches the renderer's text node, so that
    nullish values, objects and elements can never crash the PDF layout. */
module SafeText {
  import opened Base
  import opened Strings
  import opened JsValue

  /** The separator placed between the texts of an array's items. */
  const ItemSeparator: string := " / "

  /** coerceText: nullish and object values give nothing, arrays give their items' non-empty texts joined
      with " / ", anything else gives `String(value)`. */
  function CoerceText(v: Value): (r: string)
    ensures IsNullish(v) ==> r == ""
    ensures v.Obj? ==> r == ""
    ensures v.Str? || v.Num? || v.NaN? || v.Bool? || v.Sym? ==> StringOf(v) == Some(r)
    ensures v.Arr? ==> r == Join(Filter(NonEmpty, ItemTexts(v.items)), ItemSeparator)
    decreases v, 0
  {
    match v
    case Undefined => ""
    case Null => ""
    case Arr(items) => Join(Filter(NonEmpty, ItemTexts(items)), ItemSeparator)
    case Obj(_) => ""
    case Sym(key) => "Symbol(" + key + ")"
    case _ => PrimitiveText(v)
  }

  /** The texts of an array's items, in order. */
  function ItemTexts(items: seq<Value>): (r: seq<string>)
    ensures |r| == |items|
    ensures forall i :: 0 <= i < |items| ==> r[i] == CoerceText(items[i])
    decreases items, 1
  {
    if items == [] then [] else [CoerceText(items[0])] + ItemTexts(items[1..])
  }

  lemma ItemTextsAppend(a: seq<Value>, b: seq<Value>)
    ensures ItemTexts(a + b) == ItemTexts(a) + ItemTexts(b)
  {
  }

  /** The text of an array is built item by item: appending items glues their text on with one separator,
      and an item whose text is empty leaves no trace. */
  lemma ArrayAppend(a: seq<Value>, b: seq<Value>)
    ensures CoerceText(Arr(a + b)) == Glue(CoerceText(Arr(a)), CoerceText(Arr(b)), ItemSeparator)
  {
    ItemTextsAppend(a, b);
    JoinFilterAppend(ItemTexts(a), ItemTexts(b), ItemSeparator);
  }

  /** Wrapping a value in a one-element array does not change its text. */
  lemma SingletonArray(v: Value)
    ensures CoerceText(Arr([v])) == CoerceText(v)
  {
    var texts := ItemTexts([v]);
    assert texts == [CoerceText(v)];
    if CoerceText(v) == "" {
      assert Filter(NonEmpty, texts) == [];
    } else {
      assert Filter(NonEmpty, texts) == texts;
    }
  }

  /** An array's text is empty exactly when every item's text is. */
  lemma ArrayEmpty(items: seq<Value>)
    ensures CoerceText(Arr(items)) == "" <==> forall i :: 0 <= i < |items| ==> CoerceText(items[i]) == ""
  {
    var texts := ItemTexts(items);
    JoinNonEmptyParts(texts, ItemSeparator);
    if Filter(NonEmpty, texts) != [] {
      var x := Filter(NonEmpty, texts)[0];
      assert x in Filter(NonEmpty, texts);
      var i :| 0 <= i < |texts| && texts[i] == x;
      assert CoerceText(items[i]) != "";
    } else {
      forall i | 0 <= i < |items|
        ensures CoerceText(items[i]) == ""
      {
        assert texts[i] in texts;
      }
    }
  }

  /** The component: it renders its children's coerced text and nothing else. */
  function Rendered(children: Value): (r: string)
    ensures IsNullish(children) || children.Obj? ==> r == ""
    ensures children.Str? ==> r == children.s
  {
    CoerceText(children)
  }
}
