/** lib/pdf/schema.ts: the zod schemas that validate and normalise the resume payload of a PDF request.
    Parsing takes a JavaScript value and gives the normalised payload, or `None` for a validation error.
    Text fields are trimmed and default to "", the photo becomes null unless it has non-blank text, the
    gender defaults to the unselected choice, and the history and qualification lists default to empty.
    Keys the schema does not name are dropped. */
module PdfSchema {
  import opened Base
  import opened Strings
  import opened JsValue
  import opened FormData

  /** The three choices of the gender enum: "選択しない", "男" and "女". */
  const Unselected: string := "\U{9078}\U{629e}\U{3057}\U{306a}\U{3044}"
  const MaleText: string := "\U{7537}"
  const FemaleText: string := "\U{5973}"

  function GenderText(g: Gender): (r: string)
    ensures r != ""
  {
    match g
    case Unspecified => Unselected
    case Male => MaleText
    case Female => FemaleText
  }

  /** `textBlock()`, and equally each field of a history or qualification entry: a string or absence, giving
      the trimmed string or "" when absent. Anything else (null included) is a validation error. */
  function TextBlock(v: Value): (r: Option<string>)
    ensures r.Some? <==> v.Undefined? || v.Str?
    ensures r.Some? ==> Trimmed(r.value)
    ensures v.Undefined? ==> r == Some("")
  {
    match v
    case Undefined => Some("")
    case Str(s) => Some(Trim(s))
    case _ => None
  }

  /** The value a text field was given keeps exactly its characters between the surrounding whitespace. */
  lemma TextBlockTrims(s: string)
    ensures exists i, j :: 0 <= i <= j <= |s| && TextBlock(Str(s)) == Some(s[i..j])
                           && AllSpace(s[..i]) && AllSpace(s[j..])
  {
    TrimSlice(s);
  }

  /** Parsing a normalised text again changes nothing. */
  lemma TextBlockIdempotent(v: Value)
    requires TextBlock(v).Some?
    ensures TextBlock(Str(TextBlock(v).value)) == TextBlock(v)
  {
    TrimNoSpaceEnds(TextBlock(v).value);
  }

  /** The photo: absent, null, empty or blank gives null; other text gives the trimmed text. Values that
      are neither a string nor null are rejected. */
  function Photo(v: Value): (r: Option<Option<string>>)
    ensures r.Some? <==> v.Undefined? || v.Null? || v.Str?
    ensures r.Some? && r.value.Some? ==> r.value.value != "" && Trimmed(r.value.value)
    ensures v.Str? ==> (r == Some(None) <==> Blank(v.s))
  {
    match v
    case Undefined => Some(None)
    case Null => Some(None)
    case Str(s) =>
      if s == "" then Some(None)
      else
        var trimmed := Trim(s);
        if |trimmed| == 0 then Some(None) else Some(Some(trimmed))
    case _ => None
  }

  /** The photo as it is sent on: null, or its text. */
  function PhotoValue(photo: Option<string>): Value
  {
    if photo.Some? then Str(photo.value) else Null
  }

  /** A normalised photo parses to itself. */
  lemma PhotoIdempotent(v: Value)
    requires Photo(v).Some?
    ensures Photo(PhotoValue(Photo(v).value)) == Photo(v)
  {
    var p := Photo(v).value;
    if p.Some? {
      TrimNoSpaceEnds(p.value);
    }
  }

  /** The gender enum with its default: one of the three texts, or absence for the unselected choice. */
  function GenderField(v: Value): (r: Option<Gender>)
    ensures r.Some? ==> v.Undefined? || v == Str(GenderText(r.value))
    ensures v.Undefined? ==> r == Some(Unspecified)
    ensures forall g :: v == Str(GenderText(g)) ==> r == Some(g)
  {
    match v
    case Undefined => Some(Unspecified)
    case Str(s) =>
      if s == Unselected then Some(Unspecified)
      else if s == MaleText then Some(Male)
      else if s == FemaleText then Some(Female)
      else None
    case _ => None
  }

  /** `same_as_current_address`: a boolean, false when absent. */
  function BoolField(v: Value): (r: Option<bool>)
    ensures r.Some? <==> v.Undefined? || v.Bool?
    ensures v.Undefined? ==> r == Some(false)
    ensures v.Bool? ==> r == Some(v.b)
  {
    match v
    case Undefined => Some(false)
    case Bool(b) => Some(b)
    case _ => None
  }

  /** `z.object` accepts a plain object only: not null, not an array. */
  function HistoryEntryOf(v: Value): (r: Option<HistoryEntry>)
    ensures r.Some? ==> v.Obj?
    ensures r.Some? ==> Trimmed(r.value.year) && Trimmed(r.value.month) && Trimmed(r.value.desc)
                        && Trimmed(r.value.status)
  {
    if !v.Obj? then None
    else match (TextBlock(Get(v, "year")), TextBlock(Get(v, "month")),
                TextBlock(Get(v, "desc")), TextBlock(Get(v, "status")))
      case (Some(year), Some(month), Some(desc), Some(status)) => Some(HistoryEntry(year, month, desc, status))
      case _ => None
  }

  function QualificationEntryOf(v: Value): (r: Option<QualificationEntry>)
    ensures r.Some? ==> v.Obj?
    ensures r.Some? ==> Trimmed(r.value.year) && Trimmed(r.value.month) && Trimmed(r.value.desc)
  {
    if !v.Obj? then None
    else match (TextBlock(Get(v, "year")), TextBlock(Get(v, "month")), TextBlock(Get(v, "desc")))
      case (Some(year), Some(month), Some(desc)) => Some(QualificationEntry(year, month, desc))
      case _ => None
  }

  /** A list field with its default: absent gives the empty list; an array is parsed entry by entry and
      rejected when one entry is; every accepted entry is kept, blank or not, in order. */
  function ListField<T>(v: Value, entry: Value -> Option<T>): (r: Option<seq<T>>)
    ensures v.Undefined? ==> r == Some([])
    ensures r.Some? ==> v.Undefined? || v.Arr?
    ensures v.Arr? ==> (r.Some? <==> forall i :: 0 <= i < |v.items| ==> entry(v.items[i]).Some?)
    ensures r.Some? && v.Arr? ==>
              |r.value| == |v.items| && forall i :: 0 <= i < |v.items| ==> Some(r.value[i]) == entry(v.items[i])
  {
    match v
    case Undefined => Some([])
    case Arr(items) =>
      var parsed := seq(|items|, i requires 0 <= i < |items| => entry(items[i]));
      assert forall i :: 0 <= i < |items| ==> parsed[i] == entry(items[i]);
      AllSome(parsed)
    case _ => None
  }

  /** The text fields of the payload, in the schema's order. */
  const TextKeys: seq<string> := [
    "name", "name_furigana", "birth_date",
    "address_furigana", "address_postal_code", "address_main", "phone", "email",
    "contact_address_furigana", "contact_address_postal_code", "contact_address_main",
    "contact_phone", "contact_email",
    "q1_resume", "q2_resume", "q3_resume", "q4_resume", "q5_resume",
    "generated_resume_pr", "special_requests",
    "q1_cv", "q2_cv", "q3_cv", "q4_cv", "q5_cv",
    "generated_cv_summary", "generated_cv_details", "generated_cv_skills", "generated_cv_pr"]

  /** The text fields named by `keys`, each parsed as a text block. */
  function ParseTexts(v: Value, keys: seq<string>): (r: Option<map<string, string>>)
    ensures r.Some? <==> forall k :: k in keys ==> TextBlock(Get(v, k)).Some?
    ensures r.Some? ==> r.value.Keys == set k | k in keys
    ensures r.Some? ==> forall k :: k in keys ==> r.value[k] == TextBlock(Get(v, k)).value
  {
    if keys == [] then Some(map[])
    else match (TextBlock(Get(v, keys[0])), ParseTexts(v, keys[1..]))
      case (Some(t), Some(m)) => Some(m[keys[0] := t])
      case _ => None
  }

  /** `ResumePdfPayload`: the parsed payload; `text` holds the text fields by name. */
  datatype ResumePayload = ResumePayload(
    photo: Option<string>,
    gender: Gender,
    sameAsCurrentAddress: bool,
    text: map<string, string>,
    history: seq<HistoryEntry>,
    qualifications: seq<QualificationEntry>)

  /** A text field of the payload; "" for a name that is not one. */
  function Text(p: ResumePayload, key: string): string
  {
    if key in p.text then p.text[key] else ""
  }

  /** `resumePayloadSchema.parse`: an object whose every named field is valid; `None` otherwise. */
  function ParsePayload(v: Value): (r: Option<ResumePayload>)
    ensures r.Some? <==>
              v.Obj? && Photo(Get(v, "photo")).Some? && GenderField(Get(v, "gender")).Some?
              && BoolField(Get(v, "same_as_current_address")).Some? && ParseTexts(v, TextKeys).Some?
              && ListField(Get(v, "history"), HistoryEntryOf).Some?
              && ListField(Get(v, "qualifications"), QualificationEntryOf).Some?
  {
    if !v.Obj? then None
    else match (Photo(Get(v, "photo")), GenderField(Get(v, "gender")),
                BoolField(Get(v, "same_as_current_address")), ParseTexts(v, TextKeys),
                ListField(Get(v, "history"), HistoryEntryOf),
                ListField(Get(v, "qualifications"), QualificationEntryOf))
      case (Some(photo), Some(gender), Some(same), Some(texts), Some(history), Some(qualifications)) =>
        Some(ResumePayload(photo, gender, same, texts, history, qualifications))
      case _ => None
  }

  /** What parsing guarantees: every text is trimmed and present, the photo is absent or non-blank, and
      every entry field is trimmed. */
  predicate Normal(p: ResumePayload)
  {
    p.text.Keys == (set k | k in TextKeys)
    && (forall k :: k in p.text ==> Trimmed(p.text[k]))
    && (p.photo.Some? ==> p.photo.value != "" && Trimmed(p.photo.value))
    && (forall e :: e in p.history ==> Trimmed(e.year) && Trimmed(e.month) && Trimmed(e.desc) && Trimmed(e.status))
    && (forall e :: e in p.qualifications ==> Trimmed(e.year) && Trimmed(e.month) && Trimmed(e.desc))
  }

  lemma ParsedIsNormal(v: Value)
    requires ParsePayload(v).Some?
    ensures Normal(ParsePayload(v).value)
  {
    HistoryTrimmed(Get(v, "history"));
    QualificationsTrimmed(Get(v, "qualifications"));
    TextsTrimmed(v, TextKeys);
  }

  lemma TextsTrimmed(v: Value, keys: seq<string>)
    requires ParseTexts(v, keys).Some?
    ensures forall k :: k in ParseTexts(v, keys).value ==> Trimmed(ParseTexts(v, keys).value[k])
  {
    var m := ParseTexts(v, keys).value;
    forall k | k in m
      ensures Trimmed(m[k])
    {
      assert k in keys;
    }
  }

  /** Every entry of a parsed list comes from an array element. */
  lemma ListEntryFrom<T>(v: Value, entry: Value -> Option<T>, e: T)
    requires ListField(v, entry).Some? && e in ListField(v, entry).value
    ensures v.Arr? && exists i :: 0 <= i < |v.items| && entry(v.items[i]) == Some(e)
  {
    var es := ListField(v, entry).value;
    var i :| 0 <= i < |es| && es[i] == e;
    assert Some(es[i]) == entry(v.items[i]);
  }

  lemma HistoryTrimmed(v: Value)
    requires ListField(v, HistoryEntryOf).Some?
    ensures forall e :: e in ListField(v, HistoryEntryOf).value ==>
              Trimmed(e.year) && Trimmed(e.month) && Trimmed(e.desc) && Trimmed(e.status)
  {
    var es := ListField(v, HistoryEntryOf).value;
    forall e | e in es
      ensures Trimmed(e.year) && Trimmed(e.month) && Trimmed(e.desc) && Trimmed(e.status)
    {
      ListEntryFrom(v, HistoryEntryOf, e);
      var i :| 0 <= i < |v.items| && HistoryEntryOf(v.items[i]) == Some(e);
    }
  }

  lemma QualificationsTrimmed(v: Value)
    requires ListField(v, QualificationEntryOf).Some?
    ensures forall e :: e in ListField(v, QualificationEntryOf).value ==>
              Trimmed(e.year) && Trimmed(e.month) && Trimmed(e.desc)
  {
    var es := ListField(v, QualificationEntryOf).value;
    forall e | e in es
      ensures Trimmed(e.year) && Trimmed(e.month) && Trimmed(e.desc)
    {
      ListEntryFrom(v, QualificationEntryOf, e);
      var i :| 0 <= i < |v.items| && QualificationEntryOf(v.items[i]) == Some(e);
    }
  }

  /** With nothing given, every text is "". */
  lemma {:induction false} NoTextsGiven(keys: seq<string>)
    ensures ParseTexts(Obj([]), keys) == Some(map k | k in keys :: "")
  {
    if keys != [] {
      NoTextsGiven(keys[1..]);
      assert Get(Obj([]), keys[0]) == Undefined;
      assert (map k | k in keys[1..] :: "")[keys[0] := ""] == map k | k in keys :: "";
    }
  }

  /** A payload is assembled from its parsed parts. */
  lemma ParsedFromParts(v: Value, photo: Option<string>, gender: Gender, same: bool, texts: map<string, string>,
                        history: seq<HistoryEntry>, qualifications: seq<QualificationEntry>)
    requires v.Obj? && Photo(Get(v, "photo")) == Some(photo) && GenderField(Get(v, "gender")) == Some(gender)
    requires BoolField(Get(v, "same_as_current_address")) == Some(same) && ParseTexts(v, TextKeys) == Some(texts)
    requires ListField(Get(v, "history"), HistoryEntryOf) == Some(history)
    requires ListField(Get(v, "qualifications"), QualificationEntryOf) == Some(qualifications)
    ensures ParsePayload(v) == Some(ResumePayload(photo, gender, same, texts, history, qualifications))
  {
  }

  /** Every text field present and empty. */
  function BlankTexts(): map<string, string>
  {
    map k | k in TextKeys :: ""
  }

  /** An empty object is a valid payload: no photo, the unselected gender, not the same address, every
      text "" and both lists empty. */
  lemma EmptyPayloadDefaults()
    ensures ParsePayload(Obj([])) == Some(ResumePayload(None, Unspecified, false, BlankTexts(), [], []))
  {
    var v := Obj([]);
    assert Photo(Get(v, "photo")) == Some(None);
    assert GenderField(Get(v, "gender")) == Some(Unspecified);
    assert BoolField(Get(v, "same_as_current_address")) == Some(false);
    assert ListField(Get(v, "history"), HistoryEntryOf) == Some([]);
    assert ListField(Get(v, "qualifications"), QualificationEntryOf) == Some([]);
    NoTextsGiven(TextKeys);
    assert ParseTexts(v, TextKeys) == Some(BlankTexts());
    ParsedFromParts(v, None, Unspecified, false, BlankTexts(), [], []);
  }

  /** `pdfRequestBodySchema`: the document type and the payload. */
  datatype PdfRequestBody = PdfRequestBody(docType: string, payload: ResumePayload)

  /** The body is an object with a non-empty `type` string, not trimmed, and a valid `payload`. */
  function ParseRequestBody(v: Value): (r: Option<PdfRequestBody>)
    ensures r.Some? <==>
              v.Obj? && Get(v, "type").Str? && |Get(v, "type").s| >= 1 && ParsePayload(Get(v, "payload")).Some?
    ensures r.Some? ==>
              r.value.docType == Get(v, "type").s && Some(r.value.payload) == ParsePayload(Get(v, "payload"))
  {
    if !v.Obj? then None
    else
      var t := Get(v, "type");
      if !t.Str? || |t.s| < 1 then None
      else match ParsePayload(Get(v, "payload"))
        case None => None
        case Some(p) => Some(PdfRequestBody(t.s, p))
  }
}
