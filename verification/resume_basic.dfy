/** pdf/templates/resume/basic.ts: the one-page A4 resume. A cursor starts at baseline 800 and drops after
    each line: title, name, contact line, the education list (at most six lines) and the work list (at
    most seven jobs, each with an optional summary line). Everything is drawn on the one page, in the
    Japanese font, at x = 60. */
module ResumeBasic {
  import opened Base
  import opened Strings
  import opened DrawLog

  /** The renderer's input, as its type declarations describe it. A `None` field is null or undefined;
      `educations` and `jobs` are `None` when they are not arrays. The renderer accepts any value; other
      shapes (null entries, non-string fields) are outside this model. */
  datatype Contacts = Contacts(email: Option<string>, phone: Option<string>, address: Option<string>)
  datatype Education = Education(school: Option<string>, degree: Option<string>, period: Option<string>)
  datatype Job = Job(company: Option<string>, role: Option<string>, period: Option<string>, summary: Option<string>)
  datatype ResumeData = ResumeData(
    name: Option<string>, contacts: Option<Contacts>,
    educations: Option<seq<Education>>, jobs: Option<seq<Job>>)

  const Left: int := 60
  const TitleText: string := "\U{5c65}\U{6b74}\U{66f8} / Resume"
  const NoName: string := "\U{ff08}\U{6c0f}\U{540d}\U{672a}\U{5165}\U{529b}\U{ff09}"
  const EducationHeading: string := "\U{5b66}\U{6b74} / Education"
  const WorkHeading: string := "\U{8077}\U{6b74} / Work Experience"
  const Dash: string := "\U{2014}"
  const Bullet: string := "\U{2022} "

  const MaxEducations: nat := 6
  const MaxJobs: nat := 7

  /** `data?.name ?? "（氏名未入力）"`. */
  function NameOf(data: ResumeData): string
  {
    if data.name.Some? then data.name.value else NoName
  }

  /** `field && tag + field`: the labelled text, or an empty (falsy) part. */
  function ContactPart(tag: string, v: Option<string>): string
  {
    if Given(v) then tag + v.value else ""
  }

  /** The contact line: the labelled parts that are there, joined by three spaces. */
  function ContactsLine(c: Contacts): string
  {
    Join(Filter(NonEmpty, [ContactPart("Email: ", c.email), ContactPart("Tel: ", c.phone),
                           ContactPart("Address: ", c.address)]), "   ")
  }

  function ContactsOf(data: ResumeData): Contacts
  {
    if data.contacts.Some? then data.contacts.value else Contacts(None, None, None)
  }

  function EducationLine(e: Education): string
  {
    Bullet + OrEmpty(e.period) + "  " + OrEmpty(e.school) + "  " + OrEmpty(e.degree)
  }

  function JobLine(j: Job): string
  {
    Bullet + OrEmpty(j.period) + "  " + OrEmpty(j.company) + "  " + OrEmpty(j.role)
  }

  function SummaryLine(j: Job): string
    requires j.summary.Some?
  {
    "   " + j.summary.value
  }

  /** The lists as drawn: non-arrays are empty, and only the first six educations and seven jobs count. */
  function Educations(data: ResumeData): (r: seq<Education>)
    ensures |r| <= MaxEducations
  {
    var es := if data.educations.Some? then data.educations.value else [];
    if |es| <= MaxEducations then es else es[..MaxEducations]
  }

  function Jobs(data: ResumeData): (r: seq<Job>)
    ensures |r| <= MaxJobs
  {
    var js := if data.jobs.Some? then data.jobs.value else [];
    if |js| <= MaxJobs then js else js[..MaxJobs]
  }

  /** A line on the page in the one font. */
  function Line(text: string, y: int, size: int): Draw
  {
    Draw(0, text, Left, y, size, false)
  }

  // ---- the layout ----

  /** Title, name, the contact line when there is one, and the education heading; the cursor drops 28
      below the contact line's place whether or not it is drawn. */
  function Header(data: ResumeData): seq<Draw>
  {
    var line := ContactsLine(ContactsOf(data));
    [Line(TitleText, 800, 22), Line(NameOf(data), 766, 18)]
    + (if line != "" then [Line(line, 744, 11)] else [])
    + [Line(EducationHeading, 716, 14)]
  }

  /** The education lines from baseline `y0`, 16 apart. */
  function EducationDraws(es: seq<Education>, y0: int): seq<Draw>
  {
    seq(|es|, i requires 0 <= i < |es| => Line(EducationLine(es[i]), y0 - 16 * i, 11))
  }

  /** One job at baseline `y`: its line, then its summary 14 lower when the summary is given. */
  function JobDraws(j: Job, y: int): seq<Draw>
  {
    [Line(JobLine(j), y, 11)] + (if Given(j.summary) then [Line(SummaryLine(j), y - 14, 10)] else [])
  }

  function JobHeight(j: Job): int
  {
    if Given(j.summary) then 28 else 14
  }

  /** The jobs from baseline `y0`, and the cursor after them. */
  function JobsPlan(js: seq<Job>, y0: int): (seq<Draw>, int)
  {
    if js == [] then ([], y0)
    else
      var (ds, y) := JobsPlan(js[..|js| - 1], y0);
      (ds + JobDraws(js[|js| - 1], y), y - JobHeight(js[|js| - 1]))
  }

  /** The education block from baseline 698 (a dash for an empty list) and the cursor after it. */
  function EducationBlock(es: seq<Education>): (seq<Draw>, int)
  {
    if es == [] then ([Line(Dash, 698, 11)], 682) else (EducationDraws(es, 698), 698 - 16 * |es|)
  }

  /** The work block: heading 10 below the education block, then the jobs or a dash. */
  function WorkBlock(js: seq<Job>, y: int): seq<Draw>
  {
    [Line(WorkHeading, y - 10, 14)] + (if js == [] then [Line(Dash, y - 28, 11)] else JobsPlan(js, y - 28).0)
  }

  /** Every drawText call of the renderer, in order. */
  function Layout(data: ResumeData): seq<Draw>
  {
    var (eds, y) := EducationBlock(Educations(data));
    Header(data) + eds + WorkBlock(Jobs(data), y)
  }

  // ---- the renderer ----

  /** render: one A4 page and the draws of the layout, in order. */
  method Render(data: ResumeData) returns (doc: Document)
    ensures fresh(doc)
    ensures doc.pageCount == 1 && doc.log == Layout(data)
  {
    var educations := if data.educations.Some? then data.educations.value else [];
    var jobs := if data.jobs.Some? then data.jobs.value else [];
    doc := new Document();
    doc.AddPage();
    var y := DrawHeader(doc, data);
    y := DrawEducationBlock(doc, educations, y);
    DrawWorkBlock(doc, jobs, y);
    AppendAssoc(Header(data), EducationBlock(Educations(data)).0, WorkBlock(Jobs(data), y));
  }

  /** The lines down to the education heading; the cursor ends at 698. */
  method DrawHeader(doc: Document, data: ResumeData) returns (y: int)
    requires doc.pageCount == 1 && doc.log == []
    modifies doc
    ensures doc.pageCount == 1 && doc.log == Header(data) && y == 698
  {
    var name := NameOf(data);
    var contacts := ContactsOf(data);
    y := 800;
    doc.DrawText(0, TitleText, Left, y, 22, false);
    y := y - 34;
    doc.DrawText(0, name, Left, y, 18, false);
    y := y - 22;
    ghost var named := doc.log;
    assert named == [Line(TitleText, 800, 22), Line(NameOf(data), 766, 18)];
    var contactsLine := ContactsLine(contacts);
    if contactsLine != "" {
      doc.DrawText(0, contactsLine, Left, y, 11, false);
    }
    ghost var contacted := doc.log;
    assert contacted == named + (if contactsLine != "" then [Line(contactsLine, 744, 11)] else []);
    y := y - 28;
    doc.DrawText(0, EducationHeading, Left, y, 14, false);
    y := y - 18;
  }

  /** The education list from the cursor at 698: a dash when empty, else its first six entries. */
  method DrawEducationBlock(doc: Document, educations: seq<Education>, y0: int) returns (y: int)
    requires doc.pageCount == 1 && y0 == 698
    modifies doc
    ensures doc.pageCount == 1
    ensures var es := if |educations| <= MaxEducations then educations else educations[..MaxEducations];
            doc.log == old(doc.log) + EducationBlock(es).0 && y == EducationBlock(es).1
  {
    y := y0;
    if |educations| == 0 {
      doc.DrawText(0, Dash, Left, y, 11, false);
      y := y - 16;
    } else {
      var es := if |educations| <= MaxEducations then educations else educations[..MaxEducations];
      y := DrawEducations(doc, es, y);
    }
  }

  /** The work heading 10 below the cursor, then the first seven jobs or a dash. */
  method DrawWorkBlock(doc: Document, jobs: seq<Job>, y0: int)
    requires doc.pageCount == 1
    modifies doc
    ensures doc.pageCount == 1
    ensures var js := if |jobs| <= MaxJobs then jobs else jobs[..MaxJobs];
            doc.log == old(doc.log) + WorkBlock(js, y0)
  {
    var y := y0 - 10;
    doc.DrawText(0, WorkHeading, Left, y, 14, false);
    y := y - 18;
    if |jobs| == 0 {
      doc.DrawText(0, Dash, Left, y, 11, false);
    } else {
      var js := if |jobs| <= MaxJobs then jobs else jobs[..MaxJobs];
      y := DrawJobs(doc, js, y);
      AppendAssoc(old(doc.log), [Line(WorkHeading, y0 - 10, 14)], JobsPlan(js, y0 - 28).0);
    }
  }

  /** The education loop: one line per entry, 16 apart. */
  method DrawEducations(doc: Document, es: seq<Education>, y0: int) returns (y: int)
    requires doc.pageCount == 1
    modifies doc
    ensures doc.pageCount == 1
    ensures doc.log == old(doc.log) + EducationDraws(es, y0) && y == y0 - 16 * |es|
  {
    y := y0;
    var i := 0;
    while i < |es|
      invariant 0 <= i <= |es| && doc.pageCount == 1
      invariant doc.log == old(doc.log) + EducationDraws(es[..i], y0) && y == y0 - 16 * i
    {
      assert EducationDraws(es[..i + 1], y0) == EducationDraws(es[..i], y0) + [Line(EducationLine(es[i]), y, 11)];
      doc.DrawText(0, EducationLine(es[i]), Left, y, 11, false);
      y := y - 16;
      i := i + 1;
    }
    assert es[..i] == es;
  }

  /** The job loop: each job's line, and its summary when given, 14 apart. */
  method DrawJobs(doc: Document, js: seq<Job>, y0: int) returns (y: int)
    requires doc.pageCount == 1
    modifies doc
    ensures doc.pageCount == 1
    ensures doc.log == old(doc.log) + JobsPlan(js, y0).0 && y == JobsPlan(js, y0).1
  {
    y := y0;
    var i := 0;
    while i < |js|
      invariant 0 <= i <= |js| && doc.pageCount == 1
      invariant doc.log == old(doc.log) + JobsPlan(js[..i], y0).0 && y == JobsPlan(js[..i], y0).1
    {
      JobsStep(js, i, y0);
      ghost var before := doc.log;
      var j := js[i];
      doc.DrawText(0, JobLine(j), Left, y, 11, false);
      y := y - 14;
      if j.summary.Some? && j.summary.value != "" {
        doc.DrawText(0, SummaryLine(j), Left, y, 10, false);
        y := y - 14;
      }
      assert doc.log == before + JobDraws(j, y + JobHeight(j));
      AppendAssoc(old(doc.log), JobsPlan(js[..i], y0).0, JobDraws(j, y + JobHeight(j)));
      i := i + 1;
    }
    assert js[..i] == js;
  }

  /** Job i continues the plan of the jobs before it. */
  lemma JobsStep(js: seq<Job>, i: nat, y0: int)
    requires i < |js|
    ensures JobsPlan(js[..i + 1], y0).0 == JobsPlan(js[..i], y0).0 + JobDraws(js[i], JobsPlan(js[..i], y0).1)
    ensures JobsPlan(js[..i + 1], y0).1 == JobsPlan(js[..i], y0).1 - JobHeight(js[i])
  {
    TakeOneMore(js, i);
  }

  // ---- properties of the layout ----

  /** Title and name always head the page and the education heading closes the header; the contact line is
      drawn, at 744, exactly when one of the three contacts is given. */
  lemma HeaderPlaced(data: ResumeData)
    ensures var h := Header(data); var c := ContactsOf(data);
            |h| >= 3 && h[0] == Line(TitleText, 800, 22) && h[1] == Line(NameOf(data), 766, 18)
            && h[|h| - 1] == Line(EducationHeading, 716, 14)
            && (|h| == 4 <==> Given(c.email) || Given(c.phone) || Given(c.address))
            && (|h| == 4 ==> h[2] == Line(ContactsLine(c), 744, 11))
  {
    var c := ContactsOf(data);
    var parts := [ContactPart("Email: ", c.email), ContactPart("Tel: ", c.phone), ContactPart("Address: ", c.address)];
    JoinNonEmptyParts(parts, "   ");
    if Given(c.email) {
      assert NonEmpty(parts[0]) && parts[0] in Filter(NonEmpty, parts);
    } else if Given(c.phone) {
      assert NonEmpty(parts[1]) && parts[1] in Filter(NonEmpty, parts);
    } else if Given(c.address) {
      assert NonEmpty(parts[2]) && parts[2] in Filter(NonEmpty, parts);
    } else {
      FilterNone(NonEmpty, parts);
    }
  }

  /** Without educations a dash stands at 698 and the cursor moves one line; otherwise the first six
      entries, in order, 16 apart from 698. */
  lemma EducationLines(data: ResumeData)
    ensures var all := if data.educations.Some? then data.educations.value else [];
            var (eds, y) := EducationBlock(Educations(data));
            (all == [] ==> eds == [Line(Dash, 698, 11)] && y == 682)
            && (all != [] ==>
                  |eds| == (if |all| < MaxEducations then |all| else MaxEducations) && y == 698 - 16 * |eds|
                  && forall i :: 0 <= i < |eds| ==> eds[i] == Line(EducationLine(all[i]), 698 - 16 * i, 11))
  {
  }

  /** The job lines of a list, one per job. */
  function JobLines(js: seq<Job>): (r: seq<string>)
    ensures |r| == |js| && forall i :: 0 <= i < |js| ==> r[i] == JobLine(js[i])
  {
    if js == [] then [] else [JobLine(js[0])] + JobLines(js[1..])
  }

  /** The summary lines of the jobs whose summary is given, in order. */
  function Summaries(js: seq<Job>): (r: seq<string>)
    ensures |r| <= |js|
  {
    if js == [] then [] else (if Given(js[0].summary) then [SummaryLine(js[0])] else []) + Summaries(js[1..])
  }

  lemma {:induction false} JobLinesAppend(a: seq<Job>, b: seq<Job>)
    ensures JobLines(a + b) == JobLines(a) + JobLines(b)
  {
    if a == [] {
      assert a + b == b;
    } else {
      assert (a + b)[0] == a[0] && (a + b)[1..] == a[1..] + b;
      JobLinesAppend(a[1..], b);
    }
  }

  lemma {:induction false} SummariesAppend(a: seq<Job>, b: seq<Job>)
    ensures Summaries(a + b) == Summaries(a) + Summaries(b)
  {
    if a == [] {
      assert a + b == b;
    } else {
      var h := if Given(a[0].summary) then [SummaryLine(a[0])] else [];
      assert (a + b)[0] == a[0] && (a + b)[1..] == a[1..] + b;
      assert Summaries(a + b) == h + Summaries(a[1..] + b);
      SummariesAppend(a[1..], b);
      AppendAssoc(h, Summaries(a[1..]), Summaries(b));
    }
  }

  /** Among the job draws, the size-11 lines are every job's line and the size-10 lines are the given
      summaries, both in the order of the list: no job is dropped or repeated, and an empty summary draws
      nothing. */
  lemma {:induction false} JobsPlanTexts(js: seq<Job>, y0: int)
    ensures Texts(JobsPlan(js, y0).0, 11) == JobLines(js)
    ensures Texts(JobsPlan(js, y0).0, 10) == Summaries(js)
  {
    if js != [] {
      var front, j := js[..|js| - 1], js[|js| - 1];
      assert js == front + [j];
      JobsPlanTexts(front, y0);
      var (ds, y) := JobsPlan(front, y0);
      TextsAppend(ds, JobDraws(j, y), 11);
      TextsAppend(ds, JobDraws(j, y), 10);
      JobLinesAppend(front, [j]);
      SummariesAppend(front, [j]);
      OneJobTexts(j, y);
    }
  }

  /** One job draws its line in size 11 and its summary, when given, in size 10. */
  lemma OneJobTexts(j: Job, y: int)
    ensures Texts(JobDraws(j, y), 11) == JobLines([j])
    ensures Texts(JobDraws(j, y), 10) == Summaries([j])
  {
    assert [j][1..] == [];
    if Given(j.summary) {
      assert JobDraws(j, y)[1..][1..] == [];
    } else {
      assert JobDraws(j, y)[1..] == [];
    }
  }

  /** The jobs descend from `y0`, each taking 14 or 28 points, and the cursor ends 14 below the lowest line. */
  lemma {:induction false} JobsPlanPlaced(js: seq<Job>, y0: int)
    ensures var (ds, y) := JobsPlan(js, y0);
            y0 - 28 * |js| <= y <= y0 - 14 * |js| && Descending(ds) && Placed(ds, Left, y + 14, y0)
  {
    if js != [] {
      var front, j := js[..|js| - 1], js[|js| - 1];
      JobsPlanPlaced(front, y0);
      var (ds, y) := JobsPlan(front, y0);
      var last := JobDraws(j, y);
      assert Descending(last) && Placed(last, Left, y - JobHeight(j) + 14, y);
      Stacked(ds, last, y);
      PlacedAppend(ds, last, Left, y - JobHeight(j) + 14, y0);
    }
  }

  /** The header lines descend within 716..800. */
  lemma HeaderBand(data: ResumeData)
    ensures Descending(Header(data)) && Placed(Header(data), Left, 716, 800)
  {
    var line := ContactsLine(ContactsOf(data));
    var top := [Line(TitleText, 800, 22), Line(NameOf(data), 766, 18)];
    var mid := if line != "" then [Line(line, 744, 11)] else [];
    var bottom := [Line(EducationHeading, 716, 14)];
    assert Header(data) == top + mid + bottom;
    assert Descending(top) && Placed(top, Left, 716, 800);
    assert Descending(mid) && Placed(mid, Left, 716, 800);
    Stacked(top, mid, 744);
    PlacedAppend(top, mid, Left, 716, 800);
    Stacked(top + mid, bottom, 716);
    PlacedAppend(top + mid, bottom, Left, 716, 800);
  }

  /** At most six education lines descend within 618..698, and the cursor stays between 602 and 682. */
  lemma EducationBand(es: seq<Education>)
    requires |es| <= MaxEducations
    ensures var (eds, y) := EducationBlock(es);
            602 <= y <= 682 && Descending(eds) && Placed(eds, Left, y + 16, 698)
  {
  }

  /** From a cursor no lower than 602, the heading and at most seven jobs stay at or above 392. */
  lemma WorkBand(js: seq<Job>, y: int)
    requires |js| <= MaxJobs && 602 <= y
    ensures Descending(WorkBlock(js, y)) && Placed(WorkBlock(js, y), Left, 392, y - 10)
  {
    var head := [Line(WorkHeading, y - 10, 14)];
    if js == [] {
    } else {
      JobsPlanPlaced(js, y - 28);
      var ds := JobsPlan(js, y - 28).0;
      assert Placed(ds, Left, 392, y - 10);
      Stacked(head, ds, y - 28);
      PlacedAppend(head, ds, Left, 392, y - 10);
    }
  }

  /** The whole page: every line at the margin of page 0, each below the one before, none lower than 392. */
  lemma LayoutPlaced(data: ResumeData)
    ensures Descending(Layout(data)) && Placed(Layout(data), Left, 392, 800)
  {
    var h := Header(data);
    var (eds, y) := EducationBlock(Educations(data));
    var w := WorkBlock(Jobs(data), y);
    HeaderBand(data);
    EducationBand(Educations(data));
    WorkBand(Jobs(data), y);
    assert Placed(h, Left, 392, 800) && Placed(eds, Left, 392, 800) && Placed(w, Left, 392, 800);
    Stacked(h, eds, 698);
    PlacedAppend(h, eds, Left, 392, 800);
    Stacked(h + eds, w, y - 10);
    PlacedAppend(h + eds, w, Left, 392, 800);
  }
}
