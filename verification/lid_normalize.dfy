/** The mappers that turn a loosely shaped form into the payloads of the older document pipeline: names and
    contacts with `??` fallbacks, and lists projected entry by entry onto a fixed set of fields. Reading a
    property of `null` or `undefined`, or calling `map` on something that is not an array, throws a TypeError;
    the model shows that as `None`. */
module LidNormalize {
  import opened Base
  import opened Strings
  import opened JsValue

  /** `(list ?? []).map(f)`: nothing for a missing list, the projected entries for an array, and a failure
      when the list is something else or an entry cannot be projected. */
  function MapEach(list: Value, f: Value -> Option<Value>): (r: Option<seq<Value>>)
    ensures r.Some? <==> IsNullish(list) || (list.Arr? && forall i :: 0 <= i < |list.items| ==> f(list.items[i]).Some?)
    ensures r.Some? && IsNullish(list) ==> r.value == []
    ensures r.Some? && list.Arr? ==>
              |r.value| == |list.items| && forall i :: 0 <= i < |list.items| ==> r.value[i] == f(list.items[i]).value
  {
    if IsNullish(list) then Some([])
    else if list.Arr? then
      var outs := seq(|list.items|, i requires 0 <= i < |list.items| => f(list.items[i]));
      assert forall i :: 0 <= i < |list.items| ==> outs[i] == f(list.items[i]);
      AllSome(outs)
    else None
  }

  /** `{k1: e.k1, k2: e.k2, ...}`: the named properties of an entry, missing ones kept as `undefined`. */
  function Pick(e: Value, keys: seq<string>): (r: Option<Value>)
    ensures r.Some? <==> !IsNullish(e)
    ensures r.Some? ==> r.value == Record(keys, seq(|keys|, i requires 0 <= i < |keys| => Get(e, keys[i])))
  {
    if IsNullish(e) then None else Some(Record(keys, seq(|keys|, i requires 0 <= i < |keys| => Get(e, keys[i]))))
  }

  const EducationKeys: seq<string> := ["school", "degree", "period"]
  const JobKeys: seq<string> := ["company", "role", "period", "summary"]

  function Education(e: Value): Option<Value>
  {
    Pick(e, EducationKeys)
  }

  function Job(j: Value): Option<Value>
  {
    Pick(j, JobKeys)
  }

  const ProjectKeys: seq<string> := ["name", "role", "period", "detail", "tech"]

  function ProjectValues(p: Value): (r: seq<Value>)
    ensures |r| == |ProjectKeys|
  {
    [Get(p, "name"), Get(p, "role"), Get(p, "period"), Get(p, "detail"), Coalesce(Get(p, "tech"), Arr([]))]
  }

  /** A project with its five fields; a missing `tech` becomes the empty list. */
  function Project(p: Value): (r: Option<Value>)
    ensures r.Some? <==> !IsNullish(p)
  {
    if IsNullish(p) then None else Some(Record(ProjectKeys, ProjectValues(p)))
  }

  /** `fullName ?? name ?? ""`. */
  function NameOf(form: Value): (r: Value)
    ensures !IsNullish(r)
  {
    Coalesce(Get(form, "fullName"), Coalesce(Get(form, "name"), Str("")))
  }

  const ContactKeys: seq<string> := ["email", "phone", "address"]

  function ContactValues(form: Value): (r: seq<Value>)
    ensures |r| == |ContactKeys|
  {
    [Coalesce(Get(form, "email"), Str("")), Coalesce(Get(form, "phone"), Str("")), Coalesce(Get(form, "address"), Str(""))]
  }

  function Contacts(form: Value): (r: Value)
    ensures r.Obj?
  {
    Record(ContactKeys, ContactValues(form))
  }

  /** `form.jobs ?? form.workHistory ?? []`. */
  function JobSource(form: Value): Value
  {
    Coalesce(Get(form, "jobs"), Coalesce(Get(form, "workHistory"), Arr([])))
  }

  const ResumeKeys: seq<string> := ["name", "contacts", "educations", "jobs"]

  function ResumeValues(form: Value, educations: seq<Value>, jobs: seq<Value>): (r: seq<Value>)
    ensures |r| == |ResumeKeys|
  {
    [NameOf(form), Contacts(form), Arr(educations), Arr(jobs)]
  }

  /** `toResumePayload(form)`. */
  function ToResumePayload(form: Value): (r: Option<Value>)
    ensures r.Some? <==> !IsNullish(form) && MapEach(Get(form, "educations"), Education).Some?
                         && MapEach(JobSource(form), Job).Some?
  {
    if IsNullish(form) then None
    else
      match (MapEach(Get(form, "educations"), Education), MapEach(JobSource(form), Job))
      case (Some(educations), Some(jobs)) =>
        Some(Record(ResumeKeys, ResumeValues(form, educations, jobs)))
      case _ => None
  }

  /** `skills` of the CV payload: an array as it is, otherwise the comma-separated items of the text; a value
      that is neither (a number, say) has no `split` and fails. */
  function Skills(v: Value): (r: Option<Value>)
    ensures v.Arr? ==> r == Some(v)
    ensures IsNullish(v) ==> r == Some(Arr([]))
    ensures r.None? <==> !v.Arr? && !v.Str? && !IsNullish(v)
  {
    if v.Arr? then Some(v)
    else if v.Str? then Some(Arr(seq(|CommaItems(v.s)|, i requires 0 <= i < |CommaItems(v.s)| => Str(CommaItems(v.s)[i]))))
    else if IsNullish(v) then
      assert CommaItems("") == [] by {
        assert Split("", ',') == [""];
        assert TrimAll([""]) == [""];
      }
      Some(Arr([]))
    else None
  }

  const CvKeys: seq<string> := ["name", "summary", "skills", "projects"]

  function CvValues(form: Value, skills: Value, projects: seq<Value>): (r: seq<Value>)
    ensures |r| == |CvKeys|
  {
    [NameOf(form), Coalesce(Get(form, "summary"), Str("")), skills, Arr(projects)]
  }

  /** `toCvPayload(form)`. */
  function ToCvPayload(form: Value): (r: Option<Value>)
    ensures r.Some? <==> !IsNullish(form) && Skills(Get(form, "skills")).Some?
                         && MapEach(Get(form, "projects"), Project).Some?
  {
    if IsNullish(form) then None
    else
      match (Skills(Get(form, "skills")), MapEach(Get(form, "projects"), Project))
      case (Some(skills), Some(projects)) =>
        Some(Record(CvKeys, CvValues(form, skills, projects)))
      case _ => None
  }

  // ---- what the mappers promise ----

  /** The name is `fullName` whenever it is set at all, even to the empty string; then `name`; then empty. */
  lemma NameFallback(form: Value)
    ensures !IsNullish(Get(form, "fullName")) ==> NameOf(form) == Get(form, "fullName")
    ensures IsNullish(Get(form, "fullName")) && !IsNullish(Get(form, "name")) ==> NameOf(form) == Get(form, "name")
    ensures IsNullish(Get(form, "fullName")) && IsNullish(Get(form, "name")) ==> NameOf(form) == Str("")
    ensures Get(form, "fullName") == Str("") ==> NameOf(form) == Str("")
  {
  }

  /** Each contact is the form's value, or the empty string when it is missing. */
  lemma ContactsDefault(form: Value, i: nat)
    requires i < |ContactKeys|
    ensures Get(Contacts(form), ContactKeys[i]) == Coalesce(Get(form, ContactKeys[i]), Str(""))
    ensures !IsNullish(Get(Contacts(form), ContactKeys[i]))
  {
    GetRecord(ContactKeys, ContactValues(form), i);
  }

  lemma ResumeField(form: Value, educations: seq<Value>, jobs: seq<Value>, i: nat)
    requires i < |ResumeKeys|
    ensures Get(Record(ResumeKeys, ResumeValues(form, educations, jobs)), ResumeKeys[i])
            == ResumeValues(form, educations, jobs)[i]
  {
    GetRecord(ResumeKeys, ResumeValues(form, educations, jobs), i);
  }

  /** The resume payload reads back the name, the projected educations and the projected jobs. */
  lemma ResumeReads(form: Value)
    requires ToResumePayload(form).Some?
    ensures Get(ToResumePayload(form).value, "name") == NameOf(form)
    ensures Get(ToResumePayload(form).value, "educations") == Arr(MapEach(Get(form, "educations"), Education).value)
    ensures Get(ToResumePayload(form).value, "jobs") == Arr(MapEach(JobSource(form), Job).value)
  {
    var e := MapEach(Get(form, "educations"), Education).value;
    var j := MapEach(JobSource(form), Job).value;
    ResumeField(form, e, j, 0);
    ResumeField(form, e, j, 2);
    ResumeField(form, e, j, 3);
  }

  /** Each education keeps its position and becomes exactly {school, degree, period}. */
  lemma EducationsProjected(form: Value)
    requires ToResumePayload(form).Some? && Get(form, "educations").Arr?
    ensures var out := Get(ToResumePayload(form).value, "educations");
            var src := Get(form, "educations").items;
            out.Arr? && |out.items| == |src|
            && forall i :: 0 <= i < |src| ==> out.items[i] == Record(EducationKeys, [Get(src[i], "school"), Get(src[i], "degree"), Get(src[i], "period")])
  {
    ResumeReads(form);
    var src := Get(form, "educations").items;
    forall i | 0 <= i < |src|
      ensures Education(src[i]).value == Record(EducationKeys, [Get(src[i], "school"), Get(src[i], "degree"), Get(src[i], "period")])
    {
      assert seq(3, k requires 0 <= k < 3 => Get(src[i], EducationKeys[k]))
             == [Get(src[i], "school"), Get(src[i], "degree"), Get(src[i], "period")];
    }
  }

  /** Jobs are read from `jobs`, and from `workHistory` only when `jobs` is missing; their number and order
      are kept. */
  lemma JobsFromEitherList(form: Value)
    requires ToResumePayload(form).Some?
    ensures !IsNullish(Get(form, "jobs")) ==> JobSource(form) == Get(form, "jobs")
    ensures IsNullish(Get(form, "jobs")) && !IsNullish(Get(form, "workHistory")) ==> JobSource(form) == Get(form, "workHistory")
    ensures IsNullish(Get(form, "jobs")) && IsNullish(Get(form, "workHistory")) ==> Get(ToResumePayload(form).value, "jobs") == Arr([])
    ensures JobSource(form).Arr? ==> |MapEach(JobSource(form), Job).value| == |JobSource(form).items|
  {
    ResumeReads(form);
  }

  /** An entry of `null` in a list, or a list that is not an array, makes the mapper throw. */
  lemma NullEntryThrows(form: Value, i: nat)
    requires Get(form, "educations").Arr? && i < |Get(form, "educations").items|
    requires IsNullish(Get(form, "educations").items[i])
    ensures ToResumePayload(form).None?
  {
  }

  lemma CvField(form: Value, skills: Value, projects: seq<Value>, i: nat)
    requires i < |CvKeys|
    ensures Get(Record(CvKeys, CvValues(form, skills, projects)), CvKeys[i]) == CvValues(form, skills, projects)[i]
  {
    GetRecord(CvKeys, CvValues(form, skills, projects), i);
  }

  /** The CV payload reads back the summary, the skills and the projected projects. */
  lemma CvReads(form: Value)
    requires ToCvPayload(form).Some?
    ensures Get(ToCvPayload(form).value, "summary") == Coalesce(Get(form, "summary"), Str(""))
    ensures Get(ToCvPayload(form).value, "skills") == Skills(Get(form, "skills")).value
    ensures Get(ToCvPayload(form).value, "projects") == Arr(MapEach(Get(form, "projects"), Project).value)
  {
    var sk := Skills(Get(form, "skills")).value;
    var p := MapEach(Get(form, "projects"), Project).value;
    CvField(form, sk, p, 1);
    CvField(form, sk, p, 2);
    CvField(form, sk, p, 3);
  }

  /** Text skills become the trimmed, non-empty comma-separated items, all of them: unlike the prompt
      builder's list there is no cap on their number. */
  lemma SkillsFromText(items: seq<string>)
    requires items != [] && forall k :: 0 <= k < |items| ==> ',' !in items[k] && !Blank(items[k])
    ensures Skills(Str(Join(items, ","))).value.Arr?
    ensures |Skills(Str(Join(items, ","))).value.items| == |items|
    ensures forall k :: 0 <= k < |items| ==> Skills(Str(Join(items, ","))).value.items[k] == Str(Trim(items[k]))
  {
    CommaItemsOfJoin(items);
  }

  /** A project always carries a `tech` list: its own, or the empty one. */
  lemma ProjectTech(p: Value)
    requires !IsNullish(p)
    ensures Get(Project(p).value, "tech") == (if IsNullish(Get(p, "tech")) then Arr([]) else Get(p, "tech"))
  {
    GetRecord(ProjectKeys, ProjectValues(p), 4);
  }
}
