/** JavaScript values as the core sees them: a finite tree of primitives,
    arrays and objects whose own enumerable fields are kept in enumeration
    order. Numbers are integers or NaN; `Sym(k)` is the registered symbol
    `Symbol.for(k)`. Prototype members are not part of an object here. */
module JsValue {
  import opened Base
  import opened Strings

  datatype Value =
    | Undefined
    | Null
    | Bool(b: bool)
    | Num(n: int)
    | NaN
    | Str(s: string)
    | Sym(key: string)
    | Arr(items: seq<Value>)
    | Obj(fields: seq<Field>)

  datatype Field = Field(key: string, val: Value)

  /** `v == null`: undefined or null. */
  predicate IsNullish(v: Value)
  {
    v.Undefined? || v.Null?
  }

  /** `v ?? d`. */
  function Coalesce(v: Value, d: Value): (r: Value)
    ensures !IsNullish(v) ==> r == v
    ensures IsNullish(v) ==> r == d
  {
    if IsNullish(v) then d else v
  }

  /** `Boolean(v)`. */
  predicate Truthy(v: Value)
  {
    match v
    case Undefined => false
    case Null => false
    case Bool(b) => b
    case Num(n) => n != 0
    case NaN => false
    case Str(s) => s != ""
    case _ => true
  }

  /** `a || b`. */
  function Or(a: Value, b: Value): (r: Value)
    ensures Truthy(a) ==> r == a
    ensures !Truthy(a) ==> r == b
  {
    if Truthy(a) then a else b
  }

  /** `typeof v === "object"`: null, arrays and objects. */
  predicate IsObjectType(v: Value)
  {
    v.Null? || v.Arr? || v.Obj?
  }

  function Keys(fields: seq<Field>): (r: seq<string>)
    ensures |r| == |fields|
    ensures forall i :: 0 <= i < |fields| ==> r[i] == fields[i].key
  {
    if fields == [] then [] else [fields[0].key] + Keys(fields[1..])
  }

  /** The own property `key`, or undefined when there is none. */
  function Lookup(fields: seq<Field>, key: string): (r: Value)
    ensures key !in Keys(fields) ==> r == Undefined
    ensures fields != [] && fields[0].key == key ==> r == fields[0].val
  {
    if fields == [] then Undefined
    else if fields[0].key == key then fields[0].val
    else Lookup(fields[1..], key)
  }

  /** `v?.[key]` for an own data property: undefined on anything but an object. */
  function Get(v: Value, key: string): (r: Value)
    ensures !v.Obj? ==> r == Undefined
  {
    if v.Obj? then Lookup(v.fields, key) else Undefined
  }

  /** `Get` finds one of the object's own values, or nothing. */
  lemma GetFinds(v: Value, key: string)
    ensures Get(v, key) == Undefined || (v.Obj? && exists i :: 0 <= i < |v.fields| && v.fields[i].val == Get(v, key))
  {
    if v.Obj? {
      LookupFinds(v.fields, key);
    }
  }

  /** A property read finds one of the object's own values, or nothing. */
  lemma {:induction false} LookupFinds(fields: seq<Field>, key: string)
    ensures Lookup(fields, key) == Undefined || exists i :: 0 <= i < |fields| && fields[i].val == Lookup(fields, key)
  {
    if fields != [] && fields[0].key != key {
      LookupFinds(fields[1..], key);
      if Lookup(fields, key) != Undefined {
        var i :| 0 <= i < |fields[1..]| && fields[1..][i].val == Lookup(fields, key);
        assert fields[i + 1].val == Lookup(fields, key);
      }
    }
  }

  /** The field at position `i` is the one read when no earlier field has its key. */
  lemma {:induction false} LookupAt(fields: seq<Field>, i: nat)
    requires i < |fields| && forall j :: 0 <= j < i ==> fields[j].key != fields[i].key
    ensures Lookup(fields, fields[i].key) == fields[i].val
  {
    if i > 0 {
      LookupAt(fields[1..], i - 1);
    }
  }

  /** `v[key]` for the key of the object's `i`-th field, when no earlier field has that key. */
  lemma GetAt(v: Value, i: nat)
    requires v.Obj? && i < |v.fields| && forall j :: 0 <= j < i ==> v.fields[j].key != v.fields[i].key
    ensures Get(v, v.fields[i].key) == v.fields[i].val
  {
    LookupAt(v.fields, i);
  }

  /** An object literal: the keys paired with the values, in order. */
  function Record(keys: seq<string>, vals: seq<Value>): (r: Value)
    requires |keys| == |vals|
    ensures r.Obj? && |r.fields| == |keys|
  {
    Obj(seq(|keys|, i requires 0 <= i < |keys| => Field(keys[i], vals[i])))
  }

  /** Reading a key of an object literal gives its value, when the key was not written earlier. */
  lemma GetRecord(keys: seq<string>, vals: seq<Value>, i: nat)
    requires |keys| == |vals| && i < |keys| && forall j :: 0 <= j < i ==> keys[j] != keys[i]
    ensures Get(Record(keys, vals), keys[i]) == vals[i]
  {
    var r := Record(keys, vals);
    assert forall j :: 0 <= j < |keys| ==> r.fields[j] == Field(keys[j], vals[j]);
    GetAt(r, i);
  }

  /** Assigning `key: val` in an object literal after a spread: an existing field keeps its position and
      takes the new value, a new field goes last. This is JavaScript's order for keys that are not array
      indices, which holds for the keys the model sets (`__meta`, `name`, `history`, `qualifications`).
      An integer-like key would be ordered before the others instead; it is not meant for those. */
  function SetField(fields: seq<Field>, key: string, val: Value): (r: seq<Field>)
    ensures Lookup(r, key) == val
    ensures forall k :: k != key ==> Lookup(r, k) == Lookup(fields, k)
    ensures Keys(r) == if key in Keys(fields) then Keys(fields) else Keys(fields) + [key]
  {
    if fields == [] then [Field(key, val)]
    else if fields[0].key == key then
      var r := [Field(key, val)] + fields[1..];
      assert r[1..] == fields[1..];
      r
    else
      var r := [fields[0]] + SetField(fields[1..], key, val);
      assert r[1..] == SetField(fields[1..], key, val);
      r
  }

  /** The abstract operation ToString, used by template literals and Array.prototype.join; it throws on a
      symbol, shown here as None. Objects keep Object.prototype.toString. */
  function ToStr(v: Value): (r: Option<string>)
    ensures v.Str? ==> r == Some(v.s)
    ensures v.Sym? ==> r == None
  {
    match v
    case Undefined => Some("undefined")
    case Null => Some("null")
    case Bool(b) => Some(if b then "true" else "false")
    case Num(n) => Some(IntToString(n))
    case NaN => Some("NaN")
    case Str(s) => Some(s)
    case Sym(_) => None
    case Arr(items) =>
      (match ItemStrings(items)
       case Some(parts) => Some(Join(parts, ","))
       case None => None)
    case Obj(_) => Some("[object Object]")
  }

  /** The element texts Array.prototype.join uses: null and undefined become empty. */
  function ItemStrings(items: seq<Value>): (r: Option<seq<string>>)
    ensures r.Some? ==> |r.value| == |items|
  {
    if items == [] then Some([])
    else
      var head := if IsNullish(items[0]) then Some("") else ToStr(items[0]);
      match (head, ItemStrings(items[1..]))
      case (Some(h), Some(t)) => Some([h] + t)
      case _ => None
  }

  /** The text of a string, number or boolean, as `String(v)` gives it. */
  function PrimitiveText(v: Value): (r: string)
    requires v.Str? || v.Num? || v.NaN? || v.Bool?
    ensures ToStr(v) == Some(r)
  {
    match v
    case Str(s) => s
    case Num(n) => IntToString(n)
    case NaN => "NaN"
    case Bool(b) => if b then "true" else "false"
  }

  /** `String(v)`: like ToString, except that a symbol renders as `Symbol(key)`. */
  function StringOf(v: Value): (r: Option<string>)
    ensures v.Sym? ==> r == Some("Symbol(" + v.key + ")")
    ensures !v.Sym? ==> r == ToStr(v)
  {
    if v.Sym? then Some("Symbol(" + v.key + ")") else ToStr(v)
  }
}
