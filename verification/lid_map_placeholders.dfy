/** The flat placeholder maps of the older document pipeline: one entry per template placeholder, each the
    source field or the empty string, with a few fields that fall back to another one. A `null` or `undefined`
    source throws on the first property read; the model shows that as `None`. */
module LidMapPlaceholders {
  import opened Base
  import opened Strings
  import opened JsValue

  /** `v ?? ""`. */
  function OrBlank(v: Value): (r: Value)
    ensures !IsNullish(r)
  {
    Coalesce(v, Str(""))
  }

  /** The placeholders of the resume template, in the order the map lists them. */
  const ResumeFields: seq<string> := [
    "date_created", "name_furigana", "name", "photo", "birth_year", "birth_month", "birth_day", "age",
    "address_furigana", "address_postal_code", "address_main", "phone", "email", "contact_address_furigana",
    "contact_address_postal_code", "contact_address_main", "contact_phone", "contact_email", "generated_pr",
    "special_requests"
  ]

  /** No placeholder is listed twice. */
  predicate Distinct(keys: seq<string>)
  {
    forall i, j :: 0 <= i < j < |keys| ==> keys[i] != keys[j]
  }

  /** The value of one resume placeholder: `phone` and `email` fall back to the nested contacts,
      `generated_pr` to `self_pr_resume`, every other field only to the empty string. */
  function ResumeValue(src: Value, key: string): (r: Value)
    ensures !IsNullish(r)
  {
    if key == "phone" || key == "email" then Coalesce(Get(src, key), OrBlank(Get(Get(src, "contacts"), key)))
    else if key == "generated_pr" then Coalesce(Get(src, "generated_pr"), OrBlank(Get(src, "self_pr_resume")))
    else OrBlank(Get(src, key))
  }

  /** `mapResumePlaceholders(src)`. */
  function MapResumePlaceholders(src: Value): (r: Option<Value>)
    ensures r.Some? <==> !IsNullish(src)
    ensures r.Some? ==> r.value.Obj? && Keys(r.value.fields) == ResumeFields
  {
    if IsNullish(src) then None
    else
      var r := Record(ResumeFields, seq(|ResumeFields|, i requires 0 <= i < |ResumeFields| => ResumeValue(src, ResumeFields[i])));
      assert forall i :: 0 <= i < |ResumeFields| ==> r.fields[i].key == ResumeFields[i];
      Some(r)
  }

  /** The placeholders of the CV template. */
  const CvFields: seq<string> := ["date_created", "name", "work_summary", "work_details", "skills", "self_pr_cv"]

  /** `skills` of the CV map: an array joined with `", "` (which throws on a symbol element), anything else as
      it is or the empty string. */
  function SkillsText(v: Value): (r: Option<Value>)
    ensures !v.Arr? ==> r == Some(OrBlank(v))
  {
    if v.Arr? then
      match ItemStrings(v.items)
      case Some(parts) => Some(Str(Join(parts, ", ")))
      case None => None
    else Some(OrBlank(v))
  }

  function CvValues(src: Value, skills: Value): (r: seq<Value>)
    ensures |r| == |CvFields|
  {
    [ OrBlank(Get(src, "date_created")), OrBlank(Get(src, "name")), OrBlank(Get(src, "work_summary")),
      OrBlank(Get(src, "work_details")), skills,
      Coalesce(Get(src, "self_pr_cv"), OrBlank(Get(src, "generated_pr"))) ]
  }

  /** `mapCvPlaceholders(src)`. */
  function MapCvPlaceholders(src: Value): (r: Option<Value>)
    ensures r.Some? <==> !IsNullish(src) && SkillsText(Get(src, "skills")).Some?
    ensures r.Some? ==> r.value.Obj? && Keys(r.value.fields) == CvFields
  {
    if IsNullish(src) then None
    else
      match SkillsText(Get(src, "skills"))
      case Some(skills) =>
        var r := Record(CvFields, CvValues(src, skills));
        assert forall i :: 0 <= i < |CvFields| ==> r.fields[i].key == CvFields[i];
        Some(r)
      case None => None
  }

  // ---- what the maps promise ----

  lemma ResumeFieldsDistinct()
    ensures |ResumeFields| == 20 && Distinct(ResumeFields)
  {
    forall i, j | 0 <= i < j < |ResumeFields|
      ensures ResumeFields[i] != ResumeFields[j]
    {
      var a, b := ResumeFields[i], ResumeFields[j];
      assert |a| != |b| || a[0] != b[0] || a[|a| - 1] != b[|b| - 1];
    }
  }

  lemma CvFieldsDistinct()
    ensures |CvFields| == 6 && Distinct(CvFields)
  {
  }

  /** The resume map has exactly its twenty placeholders, each read back as its value and none missing. */
  lemma ResumeMapReads(src: Value, i: nat)
    requires !IsNullish(src) && i < |ResumeFields|
    ensures Get(MapResumePlaceholders(src).value, ResumeFields[i]) == ResumeValue(src, ResumeFields[i])
    ensures !IsNullish(Get(MapResumePlaceholders(src).value, ResumeFields[i]))
  {
    ResumeFieldsDistinct();
    GetRecord(ResumeFields, seq(|ResumeFields|, i requires 0 <= i < |ResumeFields| => ResumeValue(src, ResumeFields[i])), i);
  }

  /** A plain field is the source value whenever that is set, so an empty string is kept rather than replaced;
      only a missing value becomes the empty string. */
  lemma PlainFieldKept(src: Value, key: string)
    requires key != "phone" && key != "email" && key != "generated_pr"
    ensures !IsNullish(Get(src, key)) ==> ResumeValue(src, key) == Get(src, key)
    ensures IsNullish(Get(src, key)) ==> ResumeValue(src, key) == Str("")
  {
  }

  /** `phone` and `email` are read from the nested contacts only when the top-level field is missing. */
  lemma ContactFallback(src: Value, key: string)
    requires key == "phone" || key == "email"
    ensures !IsNullish(Get(src, key)) ==> ResumeValue(src, key) == Get(src, key)
    ensures IsNullish(Get(src, key)) && !IsNullish(Get(Get(src, "contacts"), key))
            ==> ResumeValue(src, key) == Get(Get(src, "contacts"), key)
    ensures IsNullish(Get(src, key)) && IsNullish(Get(src, "contacts")) ==> ResumeValue(src, key) == Str("")
  {
  }

  /** `generated_pr` falls back to `self_pr_resume`, then to the empty string. */
  lemma GeneratedPrFallback(src: Value)
    ensures !IsNullish(Get(src, "generated_pr")) ==> ResumeValue(src, "generated_pr") == Get(src, "generated_pr")
    ensures IsNullish(Get(src, "generated_pr")) ==> ResumeValue(src, "generated_pr") == OrBlank(Get(src, "self_pr_resume"))
  {
  }

  /** The CV map's own fields, with `self_pr_cv` falling back to `generated_pr`. */
  lemma CvMapReads(src: Value, skills: Value)
    ensures Get(Record(CvFields, CvValues(src, skills)), "skills") == skills
    ensures Get(Record(CvFields, CvValues(src, skills)), "self_pr_cv")
            == (if IsNullish(Get(src, "self_pr_cv")) then OrBlank(Get(src, "generated_pr")) else Get(src, "self_pr_cv"))
  {
    GetRecord(CvFields, CvValues(src, skills), 4);
    GetRecord(CvFields, CvValues(src, skills), 5);
  }

  /** An array of strings becomes one text, the strings separated by `", "`. */
  lemma SkillsJoined(skills: seq<string>)
    ensures SkillsText(Arr(seq(|skills|, i requires 0 <= i < |skills| => Str(skills[i])))) == Some(Str(Join(skills, ", ")))
  {
    var items := seq(|skills|, i requires 0 <= i < |skills| => Str(skills[i]));
    ItemStringsOfStrs(items, skills);
  }

  lemma {:induction false} ItemStringsOfStrs(items: seq<Value>, skills: seq<string>)
    requires |items| == |skills| && forall i :: 0 <= i < |items| ==> items[i] == Str(skills[i])
    ensures ItemStrings(items) == Some(skills)
  {
    if items != [] {
      ItemStringsOfStrs(items[1..], skills[1..]);
      assert [skills[0]] + skills[1..] == skills;
    }
  }
}
