/** The one-page resume generator: a vertical cursor walks down an A4 page,
    drawing the name, the optional headline, then each section's title and
    bulleted items, and appends a page whenever the cursor runs low. The
    PDF library is modelled by a draw log. */
module BuildResumePdf {
  import opened Base
  import opened DrawLog

  datatype Section = Section(title: string, items: seq<string>)

  datatype ResumeInput = ResumeInput(name: string, headline: Option<string>, sections: seq<Section>)

  /** The four kinds of line, each with its own column, size and face. */
  datatype Kind = Name | Headline | Title | Item

  function X(k: Kind): int
  {
    if k == Item then 60 else 50
  }

  function Size(k: Kind): int
  {
    match k
    case Name => 24
    case Headline => 14
    case Title => 16
    case Item => 12
  }

  predicate Bold(k: Kind)
  {
    k == Name || k == Title
  }

  /** The three characters drawn before every item, followed by a space. */
  const Bullet: string := "\U{e2}\U{20ac}\U{a2} "

  const PageTop: int := 800
  const TitleFloor: int := 80
  const ItemFloor: int := 60

  /** Where the next line goes: a baseline, and the number of cursor resets so far. */
  datatype Cursor = Cursor(y: int, sheet: nat)

  /** A line as the cursor places it: `sheet` is the page the cursor was on. */
  datatype Placed = Placed(kind: Kind, text: string, y: int, sheet: nat)

  /** The cursor back at the top of a fresh page. */
  function Reset(c: Cursor): (r: Cursor)
    ensures r.y == PageTop && r.sheet == c.sheet + 1
  {
    Cursor(PageTop, c.sheet + 1)
  }

  /** The name, then the headline when it is a non-empty string. */
  function Header(input: ResumeInput): (seq<Placed>, Cursor)
  {
    var name := Placed(Name, input.name, PageTop, 0);
    if input.headline.Some? && input.headline.value != "" then
      ([name, Placed(Headline, input.headline.value, PageTop - 28, 0)], Cursor(PageTop - 52, 0))
    else
      ([name], Cursor(PageTop - 28, 0))
  }

  /** The items of one section from cursor `c`: each is drawn at the cursor, which then drops 16 and resets
      when it falls below the item floor. */
  function ItemsPlan(items: seq<string>, c: Cursor): (seq<Placed>, Cursor)
  {
    if items == [] then ([], c)
    else
      var (ps, c1) := ItemsPlan(items[..|items| - 1], c);
      var y := c1.y - 16;
      (ps + [Placed(Item, Bullet + items[|items| - 1], c1.y, c1.sheet)],
       if y < ItemFloor then Reset(c1) else Cursor(y, c1.sheet))
  }

  /** Drawing item j continues the plan of the items before it. */
  lemma ItemsStep(items: seq<string>, j: nat, c: Cursor)
    requires j < |items|
    ensures var c1 := ItemsPlan(items[..j], c).1;
            ItemsPlan(items[..j + 1], c).0 == ItemsPlan(items[..j], c).0 + [Placed(Item, Bullet + items[j], c1.y, c1.sheet)]
    ensures var c1 := ItemsPlan(items[..j], c).1;
            ItemsPlan(items[..j + 1], c).1 == if c1.y - 16 < ItemFloor then Reset(c1) else Cursor(c1.y - 16, c1.sheet)
  {
    assert items[..j + 1][..j] == items[..j];
  }

  /** One section: a reset when the cursor is below the title floor, the title, a drop of 20, the items,
      and a drop of 12. */
  function SectionPlan(sec: Section, c: Cursor): (seq<Placed>, Cursor)
  {
    var c0 := if c.y < TitleFloor then Reset(c) else c;
    var (ps, c1) := ItemsPlan(sec.items, Cursor(c0.y - 20, c0.sheet));
    ([Placed(Title, sec.title, c0.y, c0.sheet)] + ps, Cursor(c1.y - 12, c1.sheet))
  }

  function SectionsPlan(secs: seq<Section>, c: Cursor): (seq<Placed>, Cursor)
  {
    if secs == [] then ([], c)
    else
      var (ps, c1) := SectionsPlan(secs[..|secs| - 1], c);
      var (qs, c2) := SectionPlan(secs[|secs| - 1], c1);
      (ps + qs, c2)
  }

  lemma SectionsStep(secs: seq<Section>, i: nat, c: Cursor)
    requires i < |secs|
    ensures var c1 := SectionsPlan(secs[..i], c).1;
            SectionsPlan(secs[..i + 1], c).0 == SectionsPlan(secs[..i], c).0 + SectionPlan(secs[i], c1).0
    ensures SectionsPlan(secs[..i + 1], c).1 == SectionPlan(secs[i], SectionsPlan(secs[..i], c).1).1
  {
    assert secs[..i + 1][..i] == secs[..i];
  }

  /** Every line of the resume in drawing order, and the final cursor. */
  function Plan(input: ResumeInput): (seq<Placed>, Cursor)
  {
    var (hs, hc) := Header(input);
    var (ps, c) := SectionsPlan(input.sections, hc);
    (hs + ps, c)
  }

  // ---------------------------------------------------------------------------------------------
  // Where the lines land

  /** A drawn line stays between the item floor and the top of the page; a title stays above the title
      floor. */
  predicate Fits(p: Placed)
  {
    ItemFloor <= p.y <= PageTop && (p.kind == Title ==> p.y >= TitleFloor)
  }

  /** Line b is drawn after line a further down the paper: lower on the same page, or near the top of the
      next page when a sat near the bottom. */
  predicate Follows(a: Placed, b: Placed)
  {
    (b.sheet == a.sheet && b.y < a.y) || (b.sheet == a.sheet + 1 && a.y < 112 && b.y >= 788)
  }

  predicate Chained(ps: seq<Placed>)
  {
    forall i :: 0 < i < |ps| ==> Follows(ps[i - 1], ps[i])
  }

  predicate AllFit(ps: seq<Placed>)
  {
    forall i :: 0 <= i < |ps| ==> Fits(ps[i])
  }

  /** The lines so far are well placed and the cursor sits below the last of them by at most `gap`, or at
      least at `top` on the next page; `low` bounds the cursor from below. */
  predicate Laid(ps: seq<Placed>, c: Cursor, gap: int, top: int, low: int)
  {
    ps != [] && AllFit(ps) && Chained(ps) && low <= c.y <= PageTop &&
    var p := ps[|ps| - 1];
    (c.sheet == p.sheet && p.y - gap <= c.y < p.y) || (c.sheet == p.sheet + 1 && p.y < 112 && c.y >= top)
  }

  lemma {:induction false} ItemsLaid(before: seq<Placed>, items: seq<string>, c: Cursor)
    requires Laid(before, c, 20, PageTop, ItemFloor)
    ensures Laid(before + ItemsPlan(items, c).0, ItemsPlan(items, c).1, 20, PageTop, ItemFloor)
  {
    if items != [] {
      var n := |items| - 1;
      ItemsLaid(before, items[..n], c);
      assert items[..n + 1] == items;
      ItemsStep(items, n, c);
      var ps := before + ItemsPlan(items[..n], c).0;
      var c1 := ItemsPlan(items[..n], c).1;
      var p := Placed(Item, Bullet + items[n], c1.y, c1.sheet);
      AppendAssoc(before, ItemsPlan(items[..n], c).0, [p]);
      assert Follows(ps[|ps| - 1], p);
    }
  }

  lemma SectionLaid(before: seq<Placed>, sec: Section, c: Cursor)
    requires Laid(before, c, 32, 788, 48)
    ensures Laid(before + SectionPlan(sec, c).0, SectionPlan(sec, c).1, 32, 788, 48)
  {
    var c0 := if c.y < TitleFloor then Reset(c) else c;
    var title := Placed(Title, sec.title, c0.y, c0.sheet);
    var start := Cursor(c0.y - 20, c0.sheet);
    assert Follows(before[|before| - 1], title);
    assert Laid(before + [title], start, 20, PageTop, ItemFloor);
    ItemsLaid(before + [title], sec.items, start);
    AppendAssoc(before, [title], ItemsPlan(sec.items, start).0);
  }

  lemma {:induction false} SectionsLaid(before: seq<Placed>, secs: seq<Section>, c: Cursor)
    requires Laid(before, c, 32, 788, 48)
    ensures Laid(before + SectionsPlan(secs, c).0, SectionsPlan(secs, c).1, 32, 788, 48)
  {
    if secs != [] {
      var n := |secs| - 1;
      SectionsLaid(before, secs[..n], c);
      assert secs[..n + 1] == secs;
      SectionsStep(secs, n, c);
      var c1 := SectionsPlan(secs[..n], c).1;
      SectionLaid(before + SectionsPlan(secs[..n], c).0, secs[n], c1);
      AppendAssoc(before, SectionsPlan(secs[..n], c).0, SectionPlan(secs[n], c1).0);
    }
  }

  /** Every baseline lies between 60 and 800 and every title at 80 or above; each line is drawn below the
      one before it on the same page or near the top of the next one; and no line is placed on a page
      beyond the last one appended. */
  lemma PlanLaid(input: ResumeInput)
    ensures AllFit(Plan(input).0) && Chained(Plan(input).0)
    ensures Plan(input).0 != [] && Plan(input).0[0] == Placed(Name, input.name, PageTop, 0)
    ensures forall i :: 0 <= i < |Plan(input).0| ==> Plan(input).0[i].sheet <= Plan(input).1.sheet
  {
    var (hs, hc) := Header(input);
    assert Laid(hs, hc, 32, 788, 48);
    SectionsLaid(hs, input.sections, hc);
    var ps := Plan(input).0;
    forall i | 0 <= i < |ps|
      ensures ps[i].sheet <= Plan(input).1.sheet
    {
      ChainOrdered(ps, i, |ps| - 1);
    }
  }

  /** Along a chain the page never goes back, and on one page the baselines strictly descend. */
  lemma {:induction false} ChainOrdered(ps: seq<Placed>, i: nat, j: nat)
    requires Chained(ps) && i <= j < |ps|
    ensures ps[i].sheet <= ps[j].sheet
    ensures i < j && ps[i].sheet == ps[j].sheet ==> ps[i].y > ps[j].y
    decreases j - i
  {
    if i < j {
      ChainOrdered(ps, i, j - 1);
      assert Follows(ps[j - 1], ps[j]);
    }
  }

  // ---------------------------------------------------------------------------------------------
  // What is drawn, independent of where

  /** The resume's lines in input order: the name, the headline when non-empty, then each section's title
      followed by its bulleted items. */
  function Lines(input: ResumeInput): seq<(Kind, string)>
  {
    (if input.headline.Some? && input.headline.value != "" then [(Name, input.name), (Headline, input.headline.value)]
     else [(Name, input.name)])
    + SectionsLines(input.sections)
  }

  function SectionsLines(secs: seq<Section>): seq<(Kind, string)>
  {
    if secs == [] then [] else SectionsLines(secs[..|secs| - 1]) + SectionLines(secs[|secs| - 1])
  }

  function SectionLines(sec: Section): seq<(Kind, string)>
  {
    [(Title, sec.title)] + seq(|sec.items|, i requires 0 <= i < |sec.items| => (Item, Bullet + sec.items[i]))
  }

  function Labels(ps: seq<Placed>): (r: seq<(Kind, string)>)
    ensures |r| == |ps|
  {
    seq(|ps|, i requires 0 <= i < |ps| => (ps[i].kind, ps[i].text))
  }

  lemma LabelsAppend(a: seq<Placed>, b: seq<Placed>)
    ensures Labels(a + b) == Labels(a) + Labels(b)
  {
  }

  lemma {:induction false} ItemsLabels(items: seq<string>, c: Cursor)
    ensures Labels(ItemsPlan(items, c).0)
            == seq(|items|, i requires 0 <= i < |items| => (Item, Bullet + items[i]))
  {
    if items != [] {
      var n := |items| - 1;
      ItemsLabels(items[..n], c);
      assert items[..n + 1] == items;
      ItemsStep(items, n, c);
      var c1 := ItemsPlan(items[..n], c).1;
      LabelsAppend(ItemsPlan(items[..n], c).0, [Placed(Item, Bullet + items[n], c1.y, c1.sheet)]);
    }
  }

  lemma {:induction false} SectionsLabels(secs: seq<Section>, c: Cursor)
    ensures Labels(SectionsPlan(secs, c).0) == SectionsLines(secs)
  {
    if secs != [] {
      var n := |secs| - 1;
      SectionsLabels(secs[..n], c);
      assert secs[..n + 1] == secs;
      SectionsStep(secs, n, c);
      var c1 := SectionsPlan(secs[..n], c).1;
      SectionLabels(secs[n], c1);
      LabelsAppend(SectionsPlan(secs[..n], c).0, SectionPlan(secs[n], c1).0);
    }
  }

  lemma SectionLabels(sec: Section, c: Cursor)
    ensures Labels(SectionPlan(sec, c).0) == SectionLines(sec)
  {
    var c0 := if c.y < TitleFloor then Reset(c) else c;
    var start := Cursor(c0.y - 20, c0.sheet);
    ItemsLabels(sec.items, start);
    LabelsAppend([Placed(Title, sec.title, c0.y, c0.sheet)], ItemsPlan(sec.items, start).0);
  }

  /** Sections and items are drawn in input order, each exactly once, whatever the page breaks. */
  lemma PlanLines(input: ResumeInput)
    ensures Labels(Plan(input).0) == Lines(input)
  {
    var (hs, hc) := Header(input);
    SectionsLabels(input.sections, hc);
    LabelsAppend(hs, SectionsPlan(input.sections, hc).0);
  }

  // ---------------------------------------------------------------------------------------------
  // The document

  function DrawOn(p: Placed, page: nat): (d: Draw)
    ensures d.page == page && d.text == p.text && d.y == p.y
  {
    Draw(page, p.text, X(p.kind), p.y, Size(p.kind), Bold(p.kind))
  }

  /** The lines as the generator draws them: all on the first page object. */
  function FirstPage(ps: seq<Placed>): (r: seq<Draw>)
    ensures |r| == |ps|
  {
    seq(|ps|, i requires 0 <= i < |ps| => DrawOn(ps[i], 0))
  }

  lemma FirstPageAppend(a: seq<Placed>, b: seq<Placed>)
    ensures FirstPage(a + b) == FirstPage(a) + FirstPage(b)
  {
  }

  /** buildResumePdf: draws the planned lines, every one of them on the first page, and ends with one
      page per cursor reset beyond the first. */
  method Build(input: ResumeInput) returns (doc: Document)
    ensures fresh(doc)
    ensures doc.log == FirstPage(Plan(input).0)
    ensures doc.pageCount == 1 + Plan(input).1.sheet
  {
    doc := new Document();
    doc.AddPage();
    ghost var hs := Header(input).0;
    ghost var hc := Header(input).1;
    var y := PageTop;
    doc.DrawText(0, input.name, X(Name), y, Size(Name), Bold(Name));
    y := y - 28;
    if input.headline.Some? && input.headline.value != "" {
      doc.DrawText(0, input.headline.value, X(Headline), y, Size(Headline), Bold(Headline));
      y := y - 24;
      assert doc.log == FirstPage(hs) by {
        assert FirstPage(hs)[1] == DrawOn(hs[1], 0);
      }
    } else {
      assert doc.log == FirstPage(hs);
    }
    assert Cursor(y, doc.pageCount - 1) == hc;
    var secs := input.sections;
    var i := 0;
    while i < |secs|
      invariant 0 <= i <= |secs|
      invariant doc.pageCount >= 1
      invariant doc.log == FirstPage(hs + SectionsPlan(secs[..i], hc).0)
      invariant Cursor(y, doc.pageCount - 1) == SectionsPlan(secs[..i], hc).1
    {
      ghost var c := Cursor(y, doc.pageCount - 1);
      ghost var done := SectionsPlan(secs[..i], hc).0;
      ghost var next := SectionPlan(secs[i], c).0;
      ghost var after := SectionPlan(secs[i], c).1;
      ghost var log0 := doc.log;
      y := DrawSection(doc, secs[i], y);
      assert doc.log == log0 + FirstPage(next) && Cursor(y, doc.pageCount - 1) == after;
      SectionsStep(secs, i, hc);
      FirstPageAppend(hs + done, next);
      AppendAssoc(hs, done, next);
      assert SectionsPlan(secs[..i + 1], hc).0 == done + next;
      assert SectionsPlan(secs[..i + 1], hc).1 == after;
      i := i + 1;
    }
    assert secs[..i] == secs;
  }

  // ---------------------------------------------------------------------------------------------
  // Which page receives the text

  /** After a cursor reset the generator keeps drawing on the first page object: the first line placed
      after a reset lands on page 1 within 12 units below the name's baseline, higher than the line drawn
      just before it. */
  lemma AsWrittenOverdraw(input: ResumeInput, k: nat)
    requires k < |Plan(input).0| && Plan(input).0[k].sheet > 0
    ensures var log := FirstPage(Plan(input).0);
            exists j :: 0 < j < |log| && log[j].page == log[0].page == 0 &&
                        log[0].y - 12 <= log[j].y <= log[0].y && log[j - 1].y < log[j].y
  {
    var ps := Plan(input).0;
    PlanLaid(input);
    var j := FirstReset(ps, k);
    assert Follows(ps[j - 1], ps[j]);
    assert Fits(ps[j]);
    var log := FirstPage(ps);
    assert log[j].y == ps[j].y && log[j - 1].y == ps[j - 1].y && log[0].y == PageTop;
  }

  /** The first line on a later page than the one before it. */
  lemma {:induction false} FirstReset(ps: seq<Placed>, k: nat) returns (j: nat)
    requires k < |ps| && ps[0].sheet == 0 && ps[k].sheet > 0
    ensures 0 < j <= k && ps[j - 1].sheet == 0 && ps[j].sheet > 0
  {
    if ps[k - 1].sheet == 0 {
      j := k;
    } else {
      j := FirstReset(ps, k - 1);
    }
  }

  /** The lines drawn on the page the cursor is on, as the page-break comment intends. */
  function CurrentPage(ps: seq<Placed>): (r: seq<Draw>)
    ensures |r| == |ps|
  {
    seq(|ps|, i requires 0 <= i < |ps| => DrawOn(ps[i], ps[i].sheet))
  }

  /** Drawn on the current page, every line goes to a page that exists, and on each page the baselines
      strictly descend in drawing order, so no text is drawn over earlier text. */
  lemma CorrectedNoOverdraw(input: ResumeInput)
    ensures var log := CurrentPage(Plan(input).0);
            (forall i :: 0 <= i < |log| ==> log[i].page < 1 + Plan(input).1.sheet) &&
            forall i, j :: 0 <= i < j < |log| && log[i].page == log[j].page ==> log[i].y > log[j].y
  {
    var ps := Plan(input).0;
    PlanLaid(input);
    forall i, j | 0 <= i < j < |ps| && ps[i].sheet == ps[j].sheet
      ensures ps[i].y > ps[j].y
    {
      ChainOrdered(ps, i, j);
    }
  }

  /** The body of the section loop. */
  method DrawSection(doc: Document, sec: Section, y0: int) returns (y: int)
    requires doc.pageCount >= 1
    modifies doc
    ensures doc.pageCount >= 1
    ensures doc.log == old(doc.log) + FirstPage(SectionPlan(sec, Cursor(y0, old(doc.pageCount) - 1)).0)
    ensures Cursor(y, doc.pageCount - 1) == SectionPlan(sec, Cursor(y0, old(doc.pageCount) - 1)).1
  {
    ghost var c := Cursor(y0, doc.pageCount - 1);
    ghost var c0 := if c.y < TitleFloor then Reset(c) else c;
    y := y0;
    if y < TitleFloor {
      y := PageTop;
      doc.AddPage();
    }
    assert Cursor(y, doc.pageCount - 1) == c0;
    ghost var title := Placed(Title, sec.title, y, doc.pageCount - 1);
    assert FirstPage([title]) == [Draw(0, sec.title, X(Title), y, Size(Title), Bold(Title))];
    doc.DrawText(0, sec.title, X(Title), y, Size(Title), Bold(Title));
    ghost var titled := doc.log;
    y := y - 20;
    ghost var start := Cursor(y, doc.pageCount - 1);
    y := DrawItems(doc, sec.items, y);
    ghost var items := ItemsPlan(sec.items, start).0;
    assert doc.log == old(doc.log) + FirstPage([title]) + FirstPage(items);
    y := y - 12;
    FirstPageAppend([title], items);
    AppendAssoc(old(doc.log), FirstPage([title]), FirstPage(items));
    assert SectionPlan(sec, c).0 == [title] + items;
  }

  /** The item loop of one section. */
  method DrawItems(doc: Document, items: seq<string>, y0: int) returns (y: int)
    requires doc.pageCount >= 1
    modifies doc
    ensures doc.pageCount >= 1
    ensures doc.log == old(doc.log) + FirstPage(ItemsPlan(items, Cursor(y0, old(doc.pageCount) - 1)).0)
    ensures Cursor(y, doc.pageCount - 1) == ItemsPlan(items, Cursor(y0, old(doc.pageCount) - 1)).1
  {
    ghost var start := Cursor(y0, doc.pageCount - 1);
    y := y0;
    var j := 0;
    while j < |items|
      invariant 0 <= j <= |items|
      invariant doc.pageCount >= 1
      invariant doc.log == old(doc.log) + FirstPage(ItemsPlan(items[..j], start).0)
      invariant Cursor(y, doc.pageCount - 1) == ItemsPlan(items[..j], start).1
    {
      ghost var done := ItemsPlan(items[..j], start).0;
      ghost var item := Placed(Item, Bullet + items[j], y, doc.pageCount - 1);
      ItemsStep(items, j, start);
      FirstPageAppend(done, [item]);
      AppendAssoc(old(doc.log), FirstPage(done), FirstPage([item]));
      assert FirstPage([item]) == [Draw(0, Bullet + items[j], X(Item), y, Size(Item), Bold(Item))];
      doc.DrawText(0, Bullet + items[j], X(Item), y, Size(Item), Bold(Item));
      assert doc.log == old(doc.log) + FirstPage(done + [item]);
      y := y - 16;
      if y < ItemFloor {
        y := PageTop;
        doc.AddPage();
      }
      j := j + 1;
    }
    assert items[..j] == items;
  }
}
