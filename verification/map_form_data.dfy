/** Reshaping the verbose form state into the small input of the one-page
    resume generator: a name, a headline and a list of titled sections. */
module MapFormData {
  import opened Base
  import opened Strings
  import opened FormData
  import opened BuildResumePdf

  /** The date of an entry: the non-empty parts of year and month joined with 年, then 月. */
  function DatePrefix(year: string, month: string): (r: string)
    ensures year != "" && month != "" ==> r == year + "年" + month + "月"
    ensures year != "" && month == "" ==> r == year + "月"
    ensures year == "" && month != "" ==> r == month + "月"
    ensures r == "" <==> year == "" && month == ""
  {
    JoinNonEmptyPair(year, month, "年");
    var when := Join(Filter(NonEmpty, [year, month]), "年");
    if when != "" then when + "月" else ""
  }

  /** formatHistory: the date, then the description with the status in parentheses when there is one, joined
      by one space; a part that is empty is skipped. */
  function FormatHistory(e: HistoryEntry): (r: string)
    ensures var date := DatePrefix(e.year, e.month);
            var detail := if e.status != "" then e.desc + " (" + e.status + ")" else e.desc;
            r == (if date == "" then detail else if detail == "" then date else date + " " + detail)
    ensures r == "" <==> e.year == "" && e.month == "" && e.desc == "" && e.status == ""
  {
    var date := DatePrefix(e.year, e.month);
    var detail := if e.status != "" then e.desc + " (" + e.status + ")" else e.desc;
    JoinNonEmptyPair(date, detail, " ");
    Join(Filter(NonEmpty, [date, detail]), " ")
  }

  /** formatQualification: the date and the description joined by one space, skipping an empty part. */
  function FormatQualification(e: QualificationEntry): (r: string)
    ensures var date := DatePrefix(e.year, e.month);
            r == (if date == "" then e.desc else if e.desc == "" then date else date + " " + e.desc)
    ensures r == "" <==> e.year == "" && e.month == "" && e.desc == ""
  {
    JoinNonEmptyPair(DatePrefix(e.year, e.month), e.desc, " ");
    Join(Filter(NonEmpty, [DatePrefix(e.year, e.month), e.desc]), " ")
  }

  /** One value, trimmed, unless it is absent or blank. */
  function CollectOne(v: Option<string>): (r: seq<string>)
    ensures |r| <= 1
  {
    if v.Some? && Trim(v.value) != "" then [Trim(v.value)] else []
  }

  /** collectNonEmpty: the present values, trimmed, without the blank ones, in order. */
  function CollectNonEmpty(values: seq<Option<string>>): (r: seq<string>)
    ensures |r| <= |values|
  {
    if values == [] then [] else CollectOne(values[0]) + CollectNonEmpty(values[1..])
  }

  /** A non-empty string with no space to trim at either end. */
  predicate Clean(x: string)
  {
    x != "" && Trim(x) == x
  }

  /** What is collected is non-empty and already trimmed. */
  lemma {:induction false} CollectedClean(values: seq<Option<string>>)
    ensures forall x :: x in CollectNonEmpty(values) ==> Clean(x)
  {
    if values != [] {
      CollectedClean(values[1..]);
      var v := values[0];
      if v.Some? {
        TrimIdempotent(v.value);
      }
      forall x | x in CollectNonEmpty(values)
        ensures Clean(x)
      {
        if x !in CollectOne(v) {
          assert x in CollectNonEmpty(values[1..]);
        }
      }
    }
  }

  /** Every present value that is not blank is collected, trimmed. */
  lemma {:induction false} CollectedComplete(values: seq<Option<string>>)
    ensures forall i :: 0 <= i < |values| && values[i].Some? && !AllSpace(values[i].value)
              ==> Trim(values[i].value) in CollectNonEmpty(values)
  {
    if values != [] {
      CollectedComplete(values[1..]);
      if values[0].Some? {
        TrimEmptyIffAllSpace(values[0].value);
      }
      forall i | 0 < i < |values| && values[i].Some? && !AllSpace(values[i].value)
        ensures Trim(values[i].value) in CollectNonEmpty(values)
      {
        assert values[1..][i - 1] == values[i];
      }
    }
  }

  lemma {:induction false} CollectAppend(a: seq<Option<string>>, b: seq<Option<string>>)
    ensures CollectNonEmpty(a + b) == CollectNonEmpty(a) + CollectNonEmpty(b)
  {
    if a == [] {
      assert a + b == b;
    } else {
      assert (a + b)[1..] == a[1..] + b;
      CollectAppend(a[1..], b);
      AppendAssoc(CollectOne(a[0]), CollectNonEmpty(a[1..]), CollectNonEmpty(b));
    }
  }

  /** A labelled contact line, present only when the field is non-empty. */
  function Labelled(caption: string, value: string): Option<string>
  {
    if value != "" then Some(caption + value) else None
  }

  function ContactItems(f: ResumeFormData): seq<string>
  {
    CollectNonEmpty([Labelled("メール: ", f.email), Labelled("電話: ", f.phone), Labelled("住所: ", f.address_main)])
  }

  /** One labelled line, trimmed, or nothing for an empty field. */
  function ContactLine(caption: string, value: string): seq<string>
  {
    if value == "" then [] else [Trim(caption + value)]
  }

  /** The contact section holds the mail, phone and address lines, in that order, each exactly when its field
      is non-empty. */
  lemma ContactLines(f: ResumeFormData)
    ensures ContactItems(f)
            == ContactLine("メール: ", f.email) + ContactLine("電話: ", f.phone) + ContactLine("住所: ", f.address_main)
  {
    LabelledLines("メール: ", f.email, "電話: ", f.phone, "住所: ", f.address_main);
  }

  lemma LabelledLines(c1: string, v1: string, c2: string, v2: string, c3: string, v3: string)
    requires c1 != "" && !IsSpace(c1[0]) && c2 != "" && !IsSpace(c2[0]) && c3 != "" && !IsSpace(c3[0])
    ensures CollectNonEmpty([Labelled(c1, v1), Labelled(c2, v2), Labelled(c3, v3)])
            == ContactLine(c1, v1) + ContactLine(c2, v2) + ContactLine(c3, v3)
  {
    LabelledLine(c1, v1);
    LabelledLine(c2, v2);
    LabelledLine(c3, v3);
    CollectThree(Labelled(c1, v1), Labelled(c2, v2), Labelled(c3, v3));
  }

  lemma CollectThree(x: Option<string>, y: Option<string>, z: Option<string>)
    ensures CollectNonEmpty([x, y, z]) == CollectOne(x) + CollectOne(y) + CollectOne(z)
  {
    assert [x, y, z][1..] == [y, z];
    assert [y, z][1..] == [z];
    assert CollectNonEmpty([z]) == CollectOne(z) + CollectNonEmpty([]);
    assert CollectNonEmpty([y, z]) == CollectOne(y) + CollectOne(z);
    AppendAssoc(CollectOne(x), CollectOne(y), CollectOne(z));
  }

  lemma LabelledLine(caption: string, value: string)
    requires caption != "" && !IsSpace(caption[0])
    ensures CollectOne(Labelled(caption, value)) == ContactLine(caption, value)
  {
    if value != "" {
      assert !AllSpace(caption + value) by {
        assert (caption + value)[0] == caption[0];
      }
      TrimEmptyIffAllSpace(caption + value);
    }
  }

  function FormatHistories(history: seq<HistoryEntry>): (r: seq<string>)
    ensures |r| == |history| && forall i :: 0 <= i < |history| ==> r[i] == FormatHistory(history[i])
  {
    seq(|history|, i requires 0 <= i < |history| => FormatHistory(history[i]))
  }

  function FormatQualifications(quals: seq<QualificationEntry>): (r: seq<string>)
    ensures |r| == |quals| && forall i :: 0 <= i < |quals| ==> r[i] == FormatQualification(quals[i])
  {
    seq(|quals|, i requires 0 <= i < |quals| => FormatQualification(quals[i]))
  }

  /** The notes: the self-PR text and the five answers for a resume, the five generated career texts for a
      career history; the fields of the other document are passed as absent. */
  function Notes(f: ResumeFormData, t: DocumentType): seq<string>
  {
    CollectNonEmpty(NoteValues(f, t))
  }

  function NoteValues(f: ResumeFormData, t: DocumentType): seq<Option<string>>
  {
    var r := t == Resume;
    var c := t == Cv;
    [
      if r then Some(f.generated_resume_pr) else None,
      if r then Some(f.q1_resume) else None,
      if r then Some(f.q2_resume) else None,
      if r then Some(f.q3_resume) else None,
      if r then Some(f.q4_resume) else None,
      if r then Some(f.q5_resume) else None,
      if c then Some(f.generated_cv_summary) else None,
      if c then Some(f.generated_cv_details) else None,
      if c then Some(f.generated_cv_skills) else None,
      if c then Some(f.generated_cv_pr) else None,
      if c then Some(f.generated_cv_speciality) else None]
  }

  /** The notes of a document come from its own fields only, in the listed order. */
  lemma NotesByType(f: ResumeFormData)
    ensures Notes(f, Resume) == CollectNonEmpty([Some(f.generated_resume_pr), Some(f.q1_resume), Some(f.q2_resume),
                                                 Some(f.q3_resume), Some(f.q4_resume), Some(f.q5_resume)])
    ensures Notes(f, Cv) == CollectNonEmpty([Some(f.generated_cv_summary), Some(f.generated_cv_details),
                                             Some(f.generated_cv_skills), Some(f.generated_cv_pr),
                                             Some(f.generated_cv_speciality)])
  {
    var rs := [Some(f.generated_resume_pr), Some(f.q1_resume), Some(f.q2_resume), Some(f.q3_resume),
               Some(f.q4_resume), Some(f.q5_resume)];
    var cs := [Some(f.generated_cv_summary), Some(f.generated_cv_details), Some(f.generated_cv_skills),
               Some(f.generated_cv_pr), Some(f.generated_cv_speciality)];
    var none5: seq<Option<string>> := [None, None, None, None, None];
    var none6: seq<Option<string>> := [None, None, None, None, None, None];
    assert NoteValues(f, Resume) == rs + none5;
    assert NoteValues(f, Cv) == none6 + cs;
    SkipAbsent(rs, none5);
    SkipAbsent(cs, none6);
  }

  lemma {:induction false} NothingCollected(values: seq<Option<string>>)
    requires forall i :: 0 <= i < |values| ==> values[i].None?
    ensures CollectNonEmpty(values) == []
  {
    if values != [] {
      NothingCollected(values[1..]);
    }
  }

  /** Absent values contribute nothing, before or after the present ones. */
  lemma SkipAbsent(xs: seq<Option<string>>, nones: seq<Option<string>>)
    requires forall i :: 0 <= i < |nones| ==> nones[i].None?
    ensures CollectNonEmpty(xs + nones) == CollectNonEmpty(xs)
    ensures CollectNonEmpty(nones + xs) == CollectNonEmpty(xs)
  {
    NothingCollected(nones);
    CollectAppend(xs, nones);
    CollectAppend(nones, xs);
  }

  function NotesTitle(t: DocumentType): string
  {
    if t == Resume then "自己PR" else "職務要約"
  }

  /** The resume headline is the generated self-PR, or the first answer when that is empty; the career
      history's is its generated summary. An empty string stays a (blank) headline. */
  function Headline(f: ResumeFormData, t: DocumentType): (r: string)
    ensures t == Resume && f.generated_resume_pr != "" ==> r == f.generated_resume_pr
    ensures t == Resume ==> (r == "" <==> f.generated_resume_pr == "" && f.q1_resume == "")
    ensures t == Cv ==> r == f.generated_cv_summary
  {
    if t == Resume then (if f.generated_resume_pr != "" then f.generated_resume_pr else f.q1_resume)
    else f.generated_cv_summary
  }

  /** The four sections in their fixed order, before the empty ones are dropped. */
  function Candidates(f: ResumeFormData, t: DocumentType): (r: seq<Section>)
    ensures |r| == 4 && r[0].title == "連絡先" && r[1].title == "学歴・職歴" && r[2].title == "資格"
            && r[3].title == NotesTitle(t)
    ensures forall x :: x in r[1].items ==> x != ""
    ensures forall x :: x in r[2].items ==> x != ""
  {
    [Section("連絡先", ContactItems(f)),
     Section("学歴・職歴", Filter(NonEmpty, FormatHistories(f.history))),
     Section("資格", Filter(NonEmpty, FormatQualifications(f.qualifications))),
     Section(NotesTitle(t), Notes(f, t))]
  }

  predicate HasItems(s: Section)
  {
    s.items != []
  }

  /** The section itself when it has items, nothing otherwise. */
  function Kept(s: Section): (r: seq<Section>)
    ensures r == Filter(HasItems, [s])
  {
    if HasItems(s) then [s] else []
  }

  /** Dropping the empty sections one candidate at a time gives the filter over all four. */
  lemma KeptFour(a: Section, b: Section, c: Section, d: Section)
    ensures Filter(HasItems, [a, b, c, d]) == Kept(a) + Kept(b) + Kept(c) + Kept(d)
  {
    assert Filter(HasItems, [a, b]) == Kept(a) + Kept(b) by {
      assert [a, b] == [a] + [b];
      FilterAppend(HasItems, [a], [b]);
    }
    assert Filter(HasItems, [a, b, c]) == Filter(HasItems, [a, b]) + Kept(c) by {
      assert [a, b, c] == [a, b] + [c];
      FilterAppend(HasItems, [a, b], [c]);
    }
    assert Filter(HasItems, [a, b, c, d]) == Filter(HasItems, [a, b, c]) + Kept(d) by {
      assert [a, b, c, d] == [a, b, c] + [d];
      FilterAppend(HasItems, [a, b, c], [d]);
    }
  }

  /** One `if (items.length) sections.push(...)` step. */
  method PushIfItems(sections: seq<Section>, s: Section) returns (r: seq<Section>)
    ensures r == sections + Kept(s)
  {
    r := sections;
    if |s.items| > 0 {
      r := r + [s];
    }
  }

  /** The four `if (items.length) sections.push(...)` steps, in order. */
  method PushNonEmpty(contact: Section, history: Section, qualifications: Section, notes: Section)
    returns (sections: seq<Section>)
    ensures sections == Filter(HasItems, [contact, history, qualifications, notes])
  {
    sections := PushIfItems([], contact);
    assert sections == Kept(contact);
    sections := PushIfItems(sections, history);
    sections := PushIfItems(sections, qualifications);
    sections := PushIfItems(sections, notes);
    KeptFour(contact, history, qualifications, notes);
  }

  /** mapFormDataToResumeInput: the name unchanged, the headline, and the candidate sections that have at
      least one item, in their fixed order. */
  method MapFormDataToResumeInput(f: ResumeFormData, t: DocumentType) returns (r: ResumeInput)
    ensures r.name == f.name
    ensures r.headline == Some(Headline(f, t))
    ensures r.sections == Filter(HasItems, Candidates(f, t))
    ensures forall s :: s in r.sections ==> s.items != []
  {
    var sections := PushNonEmpty(
      Section("連絡先", ContactItems(f)),
      Section("学歴・職歴", Filter(NonEmpty, FormatHistories(f.history))),
      Section("資格", Filter(NonEmpty, FormatQualifications(f.qualifications))),
      Section(NotesTitle(t), Notes(f, t)));
    var headline := if t == Resume then (if f.generated_resume_pr != "" then f.generated_resume_pr else f.q1_resume)
                    else f.generated_cv_summary;
    r := ResumeInput(f.name, Some(headline), sections);
  }
}
