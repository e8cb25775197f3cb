/** The registry of the React page templates: three keys, two components, looked up by a key that is
    lower-cased and trimmed first. The lookup uses the `in` operator, so it also sees the members every
    object inherits; the model records that and gives the own-key lookup the type promises beside it. */
module TemplateRegistry {
  import opened Base
  import opened Strings

  /** What a lookup can find: one of the two page templates, or a member inherited from `Object.prototype`. */
  datatype Component = ResumePage | CareerPage | Inherited(name: string)

  datatype Resolved = Resolved(key: string, component: Component) | Unknown(message: string)

  /** `Object.keys(REGISTRY)`, in declaration order. */
  const AvailableTemplateKeys: seq<string> := ["resume", "career", "resume_jp"]

  /** `REGISTRY[key]` for an own key. */
  function Own(key: string): (r: Option<Component>)
    ensures r.Some? <==> key in AvailableTemplateKeys
  {
    if key == "resume" || key == "resume_jp" then Some(ResumePage)
    else if key == "career" then Some(CareerPage)
    else None
  }

  /** The properties every plain object inherits from `Object.prototype`. */
  const PrototypeMembers: set<string> := {
    "constructor", "__proto__", "hasOwnProperty", "isPrototypeOf", "propertyIsEnumerable", "toString",
    "toLocaleString", "valueOf", "__defineGetter__", "__defineSetter__", "__lookupGetter__", "__lookupSetter__"}

  /** `(rawKey || "").toLowerCase().trim()`. */
  function Normalize(raw: string): (r: string)
    ensures Trimmed(r) && Lower(r)
  {
    LowerTrim(ToLower(raw));
    Trim(ToLower(raw))
  }

  /** The error text: a fixed prefix, then the key exactly as given. */
  function UnknownMessage(raw: string): (r: string)
    ensures |r| == |"Unknown template: "| + |raw|
    ensures r[..|"Unknown template: "|] == "Unknown template: " && r[|"Unknown template: "|..] == raw
  {
    "Unknown template: " + raw
  }

  /** `resolveTemplate(rawKey)` as written: `key in REGISTRY` also accepts inherited members. */
  function ResolveTemplate(raw: string): (r: Resolved)
    ensures r.Unknown? ==> r.message == UnknownMessage(raw)
    ensures r.Resolved? ==> r.key == Normalize(raw) && r.key != ""
  {
    var key := Normalize(raw);
    if key == "" then Unknown(UnknownMessage(raw))
    else match Own(key)
      case Some(c) => Resolved(key, c)
      case None => if key in PrototypeMembers then Resolved(key, Inherited(key)) else Unknown(UnknownMessage(raw))
  }

  /** The lookup the key type promises: only the registry's own keys resolve. */
  function ResolveOwnTemplate(raw: string): (r: Resolved)
    ensures r.Unknown? ==> r.message == UnknownMessage(raw)
    ensures r.Resolved? ==> r.key == Normalize(raw)
  {
    var key := Normalize(raw);
    match Own(key)
    case Some(c) => Resolved(key, c)
    case None => Unknown(UnknownMessage(raw))
  }

  // ---- what the registry promises ----

  /** Each of the three keys resolves to itself, whatever its case and surrounding spaces; `resume_jp` shows
      the same page as `resume`. */
  lemma KeysResolve(raw: string)
    requires Normalize(raw) in AvailableTemplateKeys
    ensures ResolveTemplate(raw) == Resolved(Normalize(raw), Own(Normalize(raw)).value)
    ensures Own("resume_jp") == Own("resume") == Some(ResumePage) && Own("career") == Some(CareerPage)
  {
  }

  /** A key that is empty, or neither an own key nor an inherited one, is reported with the key as given,
      not as normalised. */
  lemma UnknownKeepsRawKey(raw: string)
    requires Normalize(raw) !in AvailableTemplateKeys && Normalize(raw) !in PrototypeMembers
    ensures ResolveTemplate(raw) == Unknown("Unknown template: " + raw)
  {
  }

  /** Every other inherited member has a capital letter in its name. */
  lemma CapitalInName(m: string)
    requires m in PrototypeMembers && m != "constructor" && m != "__proto__"
    ensures !Lower(m)
  {
    if m == "hasOwnProperty" { assert m[3] == 'O'; }
    else if m == "isPrototypeOf" { assert m[2] == 'P'; }
    else if m == "propertyIsEnumerable" { assert m[8] == 'I'; }
    else if m == "toString" { assert m[2] == 'S'; }
    else if m == "toLocaleString" { assert m[2] == 'L'; }
    else if m == "valueOf" { assert m[5] == 'O'; }
    else if m == "__defineGetter__" { assert m[8] == 'G'; }
    else if m == "__defineSetter__" { assert m[8] == 'S'; }
    else if m == "__lookupGetter__" { assert m[8] == 'G'; }
    else { assert m == "__lookupSetter__" && m[8] == 'S'; }
  }

  /** Only two inherited members get through, the ones whose names have no capital letter:
      `constructor` and `__proto__`. */
  lemma InheritedThatPass(raw: string)
    requires ResolveTemplate(raw).Resolved? && ResolveTemplate(raw).component.Inherited?
    ensures ResolveTemplate(raw).key == "constructor" || ResolveTemplate(raw).key == "__proto__"
  {
    var key := Normalize(raw);
    if key != "constructor" && key != "__proto__" {
      CapitalInName(key);
      assert false;
    }
  }

  /** As written, a key that normalises to `constructor` or `__proto__` resolves, to something that is
      not a page template. */
  lemma InheritedResolves(raw: string)
    requires Normalize(raw) == "constructor" || Normalize(raw) == "__proto__"
    ensures ResolveTemplate(raw) == Resolved(Normalize(raw), Inherited(Normalize(raw)))
  {
  }

  /** `resolveTemplate("constructor")` returns the key `constructor` with an inherited member. */
  lemma ConstructorResolves(k: string)
    requires k == "constructor"
    ensures ResolveTemplate(k) == Resolved(k, Inherited(k))
  {
    ConstructorNormal(k);
    InheritedResolves(k);
  }

  lemma ConstructorNormal(k: string)
    requires k == "constructor"
    ensures Normalize(k) == k
  {
    assert ToLower(k) == k by {
      assert Lower(k);
      LowerFixed(k);
    }
    TrimNoSpaceEnds(k);
  }

  /** The own-key lookup returns one of the registry's keys and a page template, and agrees with the
      lookup as written on every such key. */
  lemma OwnLookupSound(raw: string)
    ensures ResolveOwnTemplate(raw).Resolved? ==> ResolveOwnTemplate(raw).key in AvailableTemplateKeys
                                                  && !ResolveOwnTemplate(raw).component.Inherited?
    ensures ResolveOwnTemplate(raw).Resolved? <==> Normalize(raw) in AvailableTemplateKeys
    ensures Normalize(raw) !in PrototypeMembers ==> ResolveOwnTemplate(raw) == ResolveTemplate(raw)
  {
  }
}
