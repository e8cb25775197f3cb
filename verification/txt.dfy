/** The standalone text helper used by the PDF documents: the same
    coercion as the text guard, written a second time. */
module Txt {
  import opened Base
  import opened Strings
  import opened JsValue
  import SafeText

  /** txt: nullish and object values give nothing, arrays give their items' non-empty texts joined with
      " / ", anything else gives `String(v)`. */
  function Txt(v: Value): (r: string)
    ensures IsNullish(v) || v.Obj? ==> r == ""
    ensures v.Str? ==> r == v.s
    decreases v, 0
  {
    match v
    case Undefined => ""
    case Null => ""
    case Arr(items) => Join(Filter(NonEmpty, Texts(items)), " / ")
    case Obj(_) => ""
    case Sym(key) => "Symbol(" + key + ")"
    case _ => PrimitiveText(v)
  }

  function Texts(items: seq<Value>): (r: seq<string>)
    ensures |r| == |items|
    decreases items, 1
  {
    if items == [] then [] else [Txt(items[0])] + Texts(items[1..])
  }

  /** The two helpers agree on every value, so documents may use either. */
  lemma {:induction false} TxtIsCoerceText(v: Value)
    ensures Txt(v) == SafeText.CoerceText(v)
    decreases v, 0
  {
    if v.Arr? {
      TextsAreItemTexts(v.items);
    }
  }

  lemma {:induction false} TextsAreItemTexts(items: seq<Value>)
    ensures Texts(items) == SafeText.ItemTexts(items)
    decreases items, 1
  {
    if items != [] {
      TxtIsCoerceText(items[0]);
      TextsAreItemTexts(items[1..]);
    }
  }
}
