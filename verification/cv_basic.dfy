/** pdf/templates/cv/basic.ts: the one-page A4 curriculum vitae in Helvetica. A cursor starts at baseline
    800: title, name, the summary and skills sections, then the projects section, at most eight projects,
    each with its line, an optional detail line and an optional technology line. The project loop stops
    once the cursor falls below 120. Everything is drawn on the one page at x = 60. */
module CvBasic {
  import opened Base
  import opened Strings
  import opened DrawLog

  /** The renderer's input, as its type declarations describe it. A `None` field is null or undefined;
      `projects` and `skills` are `None` when they are not arrays. The renderer accepts any value; other
      shapes (null projects, non-string fields, a non-array `tech`) are outside this model. */
  datatype Project = Project(
    name: Option<string>, role: Option<string>, period: Option<string>,
    detail: Option<string>, tech: Option<seq<string>>)
  datatype CvData = CvData(
    name: Option<string>, summary: Option<string>, projects: Option<seq<Project>>, skills: Option<seq<string>>)

  const Left: int := 60
  const TitleText: string := "\U{8077}\U{52d9}\U{7d4c}\U{6b74}\U{66f8} / Curriculum Vitae"
  const NoName: string := "\U{ff08}\U{6c0f}\U{540d}\U{672a}\U{5165}\U{529b}\U{ff09}"
  const SummaryHeading: string := "\U{30b5}\U{30de}\U{30ea}\U{30fc} / Summary"
  const SkillsHeading: string := "\U{30b9}\U{30ad}\U{30eb} / Skills"
  const ProjectsHeading: string := "\U{30d7}\U{30ed}\U{30b8}\U{30a7}\U{30af}\U{30c8} / Projects"
  const Dash: string := "\U{2014}"
  const Bullet: string := "\U{2022} "

  const MaxProjects: nat := 8
  /** The project loop stops once the cursor is below this baseline. */
  const Floor: int := 120
  /** The baseline of the first project, or of the dash standing for none. */
  const ProjectsTop: int := 638

  /** A line in the bold face, and one in the regular face. */
  function Strong(text: string, y: int, size: int): Draw
  {
    Draw(0, text, Left, y, size, true)
  }

  function Plain(text: string, y: int, size: int): Draw
  {
    Draw(0, text, Left, y, size, false)
  }

  /** `data?.name ?? "（氏名未入力）"`: an empty name stays empty. */
  function NameOf(data: CvData): string
  {
    if data.name.Some? then data.name.value else NoName
  }

  /** `summary || "—"`: a missing or empty summary shows a dash, so the line is never blank. */
  function SummaryText(data: CvData): (r: string)
    ensures r != ""
    ensures r == Dash <==> !Given(data.summary) || data.summary == Some(Dash)
    ensures Given(data.summary) ==> r == data.summary.value
  {
    if Given(data.summary) then data.summary.value else Dash
  }

  /** The skills joined by ", ", or a dash when there are none. */
  function SkillsText(data: CvData): (r: string)
    ensures data.skills.None? || data.skills.value == [] ==> r == Dash
    ensures data.skills.Some? && |data.skills.value| == 1 ==> r == data.skills.value[0]
  {
    var skills := if data.skills.Some? then data.skills.value else [];
    if |skills| > 0 then Join(skills, ", ") else Dash
  }

  function ProjectLine(p: Project): string
  {
    Bullet + OrEmpty(p.period) + "  " + OrEmpty(p.name) + "  " + OrEmpty(p.role)
  }

  function DetailLine(p: Project): string
    requires p.detail.Some?
  {
    "   " + p.detail.value
  }

  /** `p.tech?.length`: a technology list that is there and not empty. */
  predicate HasTech(p: Project)
  {
    p.tech.Some? && p.tech.value != []
  }

  function TechLine(p: Project): string
    requires p.tech.Some?
  {
    "   Tech: " + Join(p.tech.value, ", ")
  }

  /** The projects as drawn: a non-array is empty, and only the first eight count. */
  function Projects(data: CvData): (r: seq<Project>)
    ensures |r| <= MaxProjects
  {
    var ps := if data.projects.Some? then data.projects.value else [];
    if |ps| <= MaxProjects then ps else ps[..MaxProjects]
  }

  // ---- the layout ----

  /** The fixed part of the page: title, name, the summary and skills sections and the projects heading. */
  function Header(data: CvData): seq<Draw>
  {
    [Strong(TitleText, 800, 22), Strong(NameOf(data), 766, 18),
     Strong(SummaryHeading, 740, 14), Plain(SummaryText(data), 722, 11),
     Strong(SkillsHeading, 698, 14), Plain(SkillsText(data), 680, 11),
     Strong(ProjectsHeading, 656, 14)]
  }

  /** The lines of one project from baseline `y`, 14 apart. */
  function ProjectDraws(p: Project, y: int): seq<Draw>
  {
    var afterDetail := if Given(p.detail) then y - 28 else y - 14;
    [Plain(ProjectLine(p), y, 11)]
    + (if Given(p.detail) then [Plain(DetailLine(p), y - 14, 10)] else [])
    + (if HasTech(p) then [Plain(TechLine(p), afterDetail, 10)] else [])
  }

  /** How far one project moves the cursor: 14 per line and a gap of 4. */
  function ProjectHeight(p: Project): int
  {
    14 + (if Given(p.detail) then 14 else 0) + (if HasTech(p) then 14 else 0) + 4
  }

  /** The draws so far, the cursor, and whether the loop has stopped. */
  datatype Plan = Plan(draws: seq<Draw>, y: int, stopped: bool)

  /** The project loop from baseline `y0`: each project is drawn unless the loop has stopped, and the loop
      stops after a project that leaves the cursor below the floor. */
  function ProjectsPlan(ps: seq<Project>, y0: int): Plan
  {
    if ps == [] then Plan([], y0, false)
    else
      var before := ProjectsPlan(ps[..|ps| - 1], y0);
      var p := ps[|ps| - 1];
      if before.stopped then before
      else
        var y := before.y - ProjectHeight(p);
        Plan(before.draws + ProjectDraws(p, before.y), y, y < Floor)
  }

  /** The projects section under its heading: a dash when there are none. */
  function ProjectBlock(ps: seq<Project>): seq<Draw>
  {
    if ps == [] then [Plain(Dash, ProjectsTop, 11)] else ProjectsPlan(ps, ProjectsTop).draws
  }

  /** Every drawText call of the renderer, in order. */
  function Layout(data: CvData): seq<Draw>
  {
    Header(data) + ProjectBlock(Projects(data))
  }

  // ---- the renderer ----

  /** render: one A4 page and the draws of the layout, in order. */
  method Render(data: CvData) returns (doc: Document)
    ensures fresh(doc)
    ensures doc.pageCount == 1 && doc.log == Layout(data)
  {
    var projects := if data.projects.Some? then data.projects.value else [];
    doc := new Document();
    doc.AddPage();
    DrawHeader(doc, data);
    DrawProjectBlock(doc, projects);
  }

  /** The lines down to the projects heading. */
  method DrawHeader(doc: Document, data: CvData)
    requires doc.pageCount == 1 && doc.log == []
    modifies doc
    ensures doc.pageCount == 1 && doc.log == Header(data)
  {
    var name := NameOf(data);
    var y := 800;
    doc.DrawText(0, TitleText, Left, y, 22, true);
    y := y - 34;
    doc.DrawText(0, name, Left, y, 18, true);
    y := y - 26;
    doc.DrawText(0, SummaryHeading, Left, y, 14, true);
    y := y - 18;
    doc.DrawText(0, SummaryText(data), Left, y, 11, false);
    y := y - 24;
    doc.DrawText(0, SkillsHeading, Left, y, 14, true);
    y := y - 18;
    doc.DrawText(0, SkillsText(data), Left, y, 11, false);
    y := y - 24;
    doc.DrawText(0, ProjectsHeading, Left, y, 14, true);
  }

  /** The projects section: a dash when the list is empty, else its first eight projects. */
  method DrawProjectBlock(doc: Document, projects: seq<Project>)
    requires doc.pageCount == 1
    modifies doc
    ensures doc.pageCount == 1
    ensures var ps := if |projects| <= MaxProjects then projects else projects[..MaxProjects];
            doc.log == old(doc.log) + ProjectBlock(ps)
  {
    if |projects| == 0 {
      doc.DrawText(0, Dash, Left, ProjectsTop, 11, false);
    } else {
      var ps := if |projects| <= MaxProjects then projects else projects[..MaxProjects];
      DrawProjects(doc, ps, ProjectsTop);
    }
  }

  /** The project loop, with its early exit once the cursor falls below the floor. */
  method DrawProjects(doc: Document, ps: seq<Project>, y0: int)
    requires doc.pageCount == 1
    modifies doc
    ensures doc.pageCount == 1
    ensures doc.log == old(doc.log) + ProjectsPlan(ps, y0).draws
  {
    var y := y0;
    var i := 0;
    ghost var broke := false;
    while i < |ps|
      invariant 0 <= i <= |ps| && doc.pageCount == 1 && !broke
      invariant doc.log == old(doc.log) + ProjectsPlan(ps[..i], y0).draws
      invariant y == ProjectsPlan(ps[..i], y0).y && !ProjectsPlan(ps[..i], y0).stopped
    {
      ghost var before := ProjectsPlan(ps[..i], y0);
      ghost var after := ProjectsPlan(ps[..i + 1], y0);
      ProjectsStep(ps, i, y0);
      assert after.draws == before.draws + ProjectDraws(ps[i], y);
      y := DrawProject(doc, ps[i], y);
      AppendAssoc(old(doc.log), before.draws, ProjectDraws(ps[i], before.y));
      assert doc.log == old(doc.log) + after.draws;
      assert y == after.y && after.stopped == (y < Floor);
      if y < Floor {
        StoppedStays(ps, i + 1, y0);
        broke := true;
        break;
      }
      i := i + 1;
    }
    if !broke {
      assert ps[..i] == ps;
    }
  }

  /** One project from baseline `y0`: its line, its detail when given and its technologies when there are
      any, then the gap. */
  method DrawProject(doc: Document, p: Project, y0: int) returns (y: int)
    requires doc.pageCount == 1
    modifies doc
    ensures doc.pageCount == 1
    ensures doc.log == old(doc.log) + ProjectDraws(p, y0) && y == y0 - ProjectHeight(p)
  {
    y := y0;
    doc.DrawText(0, ProjectLine(p), Left, y, 11, false);
    y := y - 14;
    if p.detail.Some? && p.detail.value != "" {
      doc.DrawText(0, DetailLine(p), Left, y, 10, false);
      y := y - 14;
    }
    if p.tech.Some? && |p.tech.value| > 0 {
      doc.DrawText(0, TechLine(p), Left, y, 10, false);
      y := y - 14;
    }
    y := y - 4;
  }

  /** Project i continues the plan of the projects before it. */
  lemma ProjectsStep(ps: seq<Project>, i: nat, y0: int)
    requires i < |ps|
    ensures var before := ProjectsPlan(ps[..i], y0);
            !before.stopped ==>
              ProjectsPlan(ps[..i + 1], y0)
              == Plan(before.draws + ProjectDraws(ps[i], before.y), before.y - ProjectHeight(ps[i]),
                      before.y - ProjectHeight(ps[i]) < Floor)
  {
    TakeOneMore(ps, i);
  }

  /** Once the loop has stopped, the projects after that point change nothing. */
  lemma {:induction false} StoppedStays(ps: seq<Project>, k: nat, y0: int)
    requires k <= |ps| && ProjectsPlan(ps[..k], y0).stopped
    ensures ProjectsPlan(ps, y0) == ProjectsPlan(ps[..k], y0)
    decreases |ps| - k
  {
    if k == |ps| {
      assert ps[..k] == ps;
    } else {
      var front := ps[..|ps| - 1];
      assert front[..k] == ps[..k];
      StoppedStays(front, k, y0);
    }
  }

  // ---- properties of the layout ----

  /** One project's lines descend from `y`, the lowest 18 above where the cursor ends. */
  lemma OneProjectPlaced(p: Project, y: int)
    ensures 18 <= ProjectHeight(p) <= 46
    ensures Descending(ProjectDraws(p, y)) && Placed(ProjectDraws(p, y), Left, y - ProjectHeight(p) + 18, y)
  {
  }

  /** From a start at least 46 per project above the floor, the loop never stops: every project is drawn,
      each below the one before, and the cursor ends between 18 and 46 per project lower. */
  lemma {:induction false} ProjectsPlanPlaced(ps: seq<Project>, y0: int)
    requires y0 - 46 * |ps| >= Floor
    ensures var plan := ProjectsPlan(ps, y0);
            !plan.stopped && y0 - 46 * |ps| <= plan.y <= y0 - 18 * |ps|
            && Descending(plan.draws) && Placed(plan.draws, Left, plan.y + 18, y0)
  {
    if ps != [] {
      var front, p := ps[..|ps| - 1], ps[|ps| - 1];
      ProjectsPlanPlaced(front, y0);
      var before := ProjectsPlan(front, y0);
      var last := ProjectDraws(p, before.y);
      OneProjectPlaced(p, before.y);
      Stacked(before.draws, last, before.y);
      PlacedAppend(before.draws, last, Left, before.y - ProjectHeight(p) + 18, y0);
    }
  }

  /** The `y < 120` exit never fires: eight projects use at most 368 points below 638. */
  lemma BreakNeverFires(data: CvData)
    ensures !ProjectsPlan(Projects(data), ProjectsTop).stopped
    ensures ProjectsPlan(Projects(data), ProjectsTop).y >= 270
  {
    ProjectsPlanPlaced(Projects(data), ProjectsTop);
  }

  /** The header lines descend within 656..800. */
  lemma HeaderBand(data: CvData)
    ensures Descending(Header(data)) && Placed(Header(data), Left, 656, 800)
  {
  }

  /** The whole page: every line at the margin of page 0, each below the one before, none lower than 288. */
  lemma LayoutPlaced(data: CvData)
    ensures Descending(Layout(data)) && Placed(Layout(data), Left, 288, 800)
  {
    var h, ps := Header(data), Projects(data);
    HeaderBand(data);
    ProjectsPlanPlaced(ps, ProjectsTop);
    var b := ProjectBlock(ps);
    assert Descending(b) && Placed(b, Left, 288, ProjectsTop);
    Stacked(h, b, ProjectsTop);
    PlacedAppend(h, b, Left, 288, 800);
  }

  /** The project lines of a list, one per project. */
  function ProjectLines(ps: seq<Project>): (r: seq<string>)
    ensures |r| == |ps| && forall i :: 0 <= i < |ps| ==> r[i] == ProjectLine(ps[i])
  {
    if ps == [] then [] else [ProjectLine(ps[0])] + ProjectLines(ps[1..])
  }

  /** The detail and technology lines of a list, in order, for the projects that have them. */
  function Extras(ps: seq<Project>): seq<string>
  {
    if ps == [] then []
    else
      var p := ps[0];
      (if Given(p.detail) then [DetailLine(p)] else []) + (if HasTech(p) then [TechLine(p)] else [])
      + Extras(ps[1..])
  }

  lemma {:induction false} ProjectLinesAppend(a: seq<Project>, b: seq<Project>)
    ensures ProjectLines(a + b) == ProjectLines(a) + ProjectLines(b) && Extras(a + b) == Extras(a) + Extras(b)
  {
    if a == [] {
      assert a + b == b;
    } else {
      assert (a + b)[0] == a[0] && (a + b)[1..] == a[1..] + b;
      ProjectLinesAppend(a[1..], b);
    }
  }

  /** One project draws its line in size 11 and its detail and technologies in size 10. */
  lemma OneProjectTexts(p: Project, y: int)
    ensures Texts(ProjectDraws(p, y), 11) == ProjectLines([p])
    ensures Texts(ProjectDraws(p, y), 10) == Extras([p])
  {
    var ds := ProjectDraws(p, y);
    assert [p][1..] == [];
    var rest := ds[1..];
    assert Texts(ds, 11) == [ProjectLine(p)] + Texts(rest, 11);
    assert Texts(ds, 10) == Texts(rest, 10);
    if Given(p.detail) && HasTech(p) {
      assert rest[1..][1..] == [];
    } else if Given(p.detail) || HasTech(p) {
      assert rest[1..] == [];
    } else {
      assert rest == [];
    }
  }

  /** When the loop runs to the end, the size-11 lines are every project's line and the size-10 lines are
      the details and technologies, in the order of the list. */
  lemma {:induction false} ProjectsPlanTexts(ps: seq<Project>, y0: int)
    requires y0 - 46 * |ps| >= Floor
    ensures Texts(ProjectsPlan(ps, y0).draws, 11) == ProjectLines(ps)
    ensures Texts(ProjectsPlan(ps, y0).draws, 10) == Extras(ps)
  {
    if ps != [] {
      var front, p := ps[..|ps| - 1], ps[|ps| - 1];
      assert ps == front + [p];
      ProjectsPlanTexts(front, y0);
      ProjectsPlanPlaced(front, y0);
      var before := ProjectsPlan(front, y0);
      TextsAppend(before.draws, ProjectDraws(p, before.y), 11);
      TextsAppend(before.draws, ProjectDraws(p, before.y), 10);
      ProjectLinesAppend(front, [p]);
      OneProjectTexts(p, before.y);
    }
  }
}
