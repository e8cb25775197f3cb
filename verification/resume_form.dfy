/** The resume form's submit step: the required-field rule of its schema, the values a new form starts
    with, and `onSubmit`, which copies the current address into the contact fields in place when the
    contact is the same, then folds each history status into its description and marks each
    qualification as obtained before handing the data on. */
module ResumeForm {
  import opened Base
  import opened Strings
  import opened FormData

  // ---- the schema and the defaults ----

  /** `name`, `name_furigana` and `birth_date` need at least one character; they are not trimmed, so a lone
      space is accepted. */
  predicate RequiredFilled(d: ResumeFormData)
    ensures d.name == "" || d.name_furigana == "" || d.birth_date == "" ==> !RequiredFilled(d)
    ensures d.name == " " && d.name_furigana == " " && d.birth_date == " " ==> RequiredFilled(d)
  {
    |d.name| >= 1 && |d.name_furigana| >= 1 && |d.birth_date| >= 1
  }

  /** The values a new form starts with. */
  datatype Defaults = Defaults(sameAsCurrentAddress: bool, history: seq<HistoryEntry>,
                               qualifications: seq<QualificationEntry>, gender: Gender, specialRequests: string)

  const FormDefaults: Defaults := Defaults(
    true, [HistoryEntry("", "", "", "入社")], [QualificationEntry("", "", "")], Unspecified, "貴社規定に従います。")

  // ---- what submitting does to each row ----

  /** `` { ...h, desc: `${h.desc} ${h.status}`.trim() } ``. */
  function ProcessHistory(h: HistoryEntry): (r: HistoryEntry)
    ensures r.year == h.year && r.month == h.month && r.status == h.status
  {
    h.(desc := Trim(h.desc + " " + h.status))
  }

  /** `` { ...q, desc: q.desc ? `${q.desc} 取得` : "" } ``. */
  function ProcessQualification(q: QualificationEntry): (r: QualificationEntry)
    ensures r.year == q.year && r.month == q.month
    ensures r.desc == "" <==> q.desc == ""
  {
    q.(desc := if q.desc != "" then q.desc + " 取得" else "")
  }

  function ProcessHistories(hs: seq<HistoryEntry>): (r: seq<HistoryEntry>)
    ensures |r| == |hs| && forall i :: 0 <= i < |hs| ==> r[i] == ProcessHistory(hs[i])
  {
    seq(|hs|, i requires 0 <= i < |hs| => ProcessHistory(hs[i]))
  }

  function ProcessQualifications(qs: seq<QualificationEntry>): (r: seq<QualificationEntry>)
    ensures |r| == |qs| && forall i :: 0 <= i < |qs| ==> r[i] == ProcessQualification(qs[i])
  {
    seq(|qs|, i requires 0 <= i < |qs| => ProcessQualification(qs[i]))
  }

  /** The data after the in-place copy of the current address into the contact fields. */
  function WithContact(d: ResumeFormData): (r: ResumeFormData)
    ensures !d.same_as_current_address ==> r == d
    ensures d.same_as_current_address ==>
              r.contact_address_furigana == d.address_furigana && r.contact_address_postal_code == d.address_postal_code
              && r.contact_address_main == d.address_main && r.contact_phone == d.phone && r.contact_email == d.email
    ensures r.address_main == d.address_main && r.phone == d.phone && r.email == d.email && r.name == d.name
            && r.history == d.history && r.qualifications == d.qualifications
  {
    if d.same_as_current_address then
      d.(contact_address_furigana := d.address_furigana, contact_address_postal_code := d.address_postal_code,
         contact_address_main := d.address_main, contact_phone := d.phone, contact_email := d.email)
    else d
  }

  /** The form's data object, which `onSubmit` changes in place. */
  class Form {
    var data: ResumeFormData

    constructor (d: ResumeFormData)
      ensures data == d
    {
      data := d;
    }

    /** `onSubmit(data)`: returns what is passed to `onConfirm`. */
    method OnSubmit() returns (confirmed: ResumeFormData)
      modifies this
      ensures data == WithContact(old(data))
      ensures confirmed == data.(history := ProcessHistories(data.history),
                                 qualifications := ProcessQualifications(data.qualifications))
    {
      if data.same_as_current_address {
        data := data.(contact_address_furigana := data.address_furigana);
        data := data.(contact_address_postal_code := data.address_postal_code);
        data := data.(contact_address_main := data.address_main);
        data := data.(contact_phone := data.phone);
        data := data.(contact_email := data.email);
      }
      confirmed := data.(history := ProcessHistories(data.history),
                         qualifications := ProcessQualifications(data.qualifications));
    }
  }

  // ---- what submitting promises ----

  /** With the contact the same as the current address the five contact fields repeat the current ones;
      otherwise nothing changes. Either way no other field is touched. */
  lemma ContactCopied(d: ResumeFormData)
    ensures d.same_as_current_address ==>
              WithContact(d).contact_address_furigana == d.address_furigana
              && WithContact(d).contact_address_postal_code == d.address_postal_code
              && WithContact(d).contact_address_main == d.address_main
              && WithContact(d).contact_phone == d.phone && WithContact(d).contact_email == d.email
    ensures !d.same_as_current_address ==> WithContact(d) == d
    ensures WithContact(d).(contact_address_furigana := d.contact_address_furigana,
                            contact_address_postal_code := d.contact_address_postal_code,
                            contact_address_main := d.contact_address_main,
                            contact_phone := d.contact_phone, contact_email := d.contact_email) == d
  {
  }

  /** For trimmed text the new description is the description and the status separated by a space, or
      whichever of the two is not empty. */
  lemma HistoryDescription(h: HistoryEntry)
    requires Trimmed(h.desc) && Trimmed(h.status)
    ensures ProcessHistory(h).desc == Glue(h.desc, h.status, " ")
  {
    var s := h.desc + " " + h.status;
    if h.desc == "" {
      assert s == [' '] + h.status;
      TrimDropsLeadingSpace(' ', h.status);
      TrimNoSpaceEnds(h.status);
    } else if h.status == "" {
      assert s == h.desc + [' '];
      TrimDropsTrailingSpace(h.desc, ' ');
      TrimNoSpaceEnds(h.desc);
    } else {
      assert s[0] == h.desc[0] && s[|s| - 1] == h.status[|h.status| - 1];
      TrimNoSpaceEnds(s);
    }
  }

  /** An untouched default history row is submitted with the description `入社`. */
  lemma DefaultRowSubmitted(h: HistoryEntry)
    requires h == FormDefaults.history[0]
    ensures ProcessHistory(h).desc == h.status == "入社"
  {
    HistoryDescription(h);
  }

  /** The default qualification row stays empty. */
  lemma DefaultQualificationSubmitted(q: QualificationEntry)
    requires q == FormDefaults.qualifications[0]
    ensures ProcessQualification(q) == q
  {
  }

  /** A qualification keeps its text, followed by ` 取得`, and an empty one stays empty. */
  lemma QualificationMarked(q: QualificationEntry)
    requires q.desc != ""
    ensures ProcessQualification(q).desc[..|q.desc|] == q.desc
    ensures ProcessQualification(q).desc[|q.desc|..] == " 取得"
  {
  }

  /** A lone space satisfies the required fields. */
  lemma SpaceIsFilled(d: ResumeFormData)
    requires d.name == " " && d.name_furigana == " " && d.birth_date == " "
    ensures RequiredFilled(d) && Blank(d.name)
  {
    assert Trim(d.name) == "" by {
      TrimEmptyIffAllSpace(d.name);
    }
  }
}
