/** The career-history page (職務経歴書) of the PDF service, as the text it lays out: a title and subtitle,
    the contact line, and the summary, details, skills and self-PR sections, each falling back from the
    generated text to the questionnaire's answer and then to `-`. */
module CareerTemplate {
  import opened Base
  import opened Strings
  import opened PdfSchema

  /** `a || b` on strings. */
  function Or(a: string, b: string): (r: string)
    ensures r == a || r == b
    ensures r == "" <==> a == "" && b == ""
  {
    if a != "" then a else b
  }

  /** The skills section: one bullet per line of the generated skills, or a paragraph. */
  datatype Skills = Bullets(lines: seq<string>) | Plain(text: string)

  datatype Sheet = Sheet(title: string, subtitle: string, contact: string, summary: string, details: string,
                         skills: Skills, pr: string)

  // ---- the skills lines ----

  /** `s.split(/c+/)`: the pieces between maximal runs of `c`. */
  function SplitRuns(s: string, c: char): (r: seq<string>)
    ensures |r| >= 1
    ensures forall k :: 0 <= k < |r| ==> c !in r[k]
    ensures c !in s ==> r == [s]
  {
    if s == [] then [""]
    else
      var rest := SplitRuns(s[1..], c);
      if s[0] == c then (if |s| > 1 && s[1] == c then rest else [""] + rest)
      else
        assert c !in s ==> [s[0]] + s[1..] == s;
        [[s[0]] + rest[0]] + rest[1..]
  }

  /** The pieces trimmed, the empty ones dropped. */
  function Kept(pieces: seq<string>): seq<string>
  {
    Filter(NonEmpty, TrimAll(pieces))
  }

  /** `skills.split(/\n+/).map(line => line.trim()).filter(Boolean)`. */
  function SkillLines(s: string): (r: seq<string>)
    ensures s == "" ==> r == []
    ensures forall l :: l in r ==> l != ""
  {
    Kept(SplitRuns(s, '\n'))
  }

  lemma KeptCons(x: string, rest: seq<string>)
    ensures Kept([x] + rest) == Kept([x]) + Kept(rest)
    ensures x == "" ==> Kept([x] + rest) == Kept(rest)
  {
    assert TrimAll([x] + rest) == TrimAll([x]) + TrimAll(rest);
    FilterAppend(NonEmpty, TrimAll([x]), TrimAll(rest));
  }

  /** Splitting on runs of a character and on each single one leave the same first piece, and the same
      pieces once blanks are dropped: a run only adds empty pieces. */
  lemma {:induction false} SplitRunsLikeSplit(s: string, c: char)
    ensures SplitRuns(s, c)[0] == Split(s, c)[0]
    ensures Kept(SplitRuns(s, c)[1..]) == Kept(Split(s, c)[1..])
  {
    if s != [] {
      var runs := SplitRuns(s[1..], c);
      var rest := Split(s[1..], c);
      SplitRunsLikeSplit(s[1..], c);
      if s[0] != c {
        assert SplitRuns(s, c)[1..] == runs[1..];
        assert Split(s, c)[1..] == rest[1..];
      } else if |s| > 1 && s[1] == c {
        assert SplitRuns(s, c) == runs;
        assert Split(s, c)[1..] == rest;
        assert rest[0] == "";
        KeptCons(runs[0], runs[1..]);
        KeptCons(rest[0], rest[1..]);
        assert [runs[0]] + runs[1..] == runs;
        assert [rest[0]] + rest[1..] == rest;
      } else {
        assert SplitRuns(s, c)[1..] == runs;
        assert Split(s, c)[1..] == rest;
        KeptCons(runs[0], runs[1..]);
        KeptCons(rest[0], rest[1..]);
        assert [runs[0]] + runs[1..] == runs;
        assert [rest[0]] + rest[1..] == rest;
      }
    }
  }

  /** The bullets are the same as splitting on every newline and dropping the blank lines. */
  lemma SkillLinesAsSplit(s: string)
    ensures SkillLines(s) == Kept(Split(s, '\n'))
  {
    var runs := SplitRuns(s, '\n');
    var pieces := Split(s, '\n');
    SplitRunsLikeSplit(s, '\n');
    KeptCons(runs[0], runs[1..]);
    KeptCons(pieces[0], pieces[1..]);
    assert [runs[0]] + runs[1..] == runs;
    assert [pieces[0]] + pieces[1..] == pieces;
  }

  /** Every bullet is non-empty, trimmed and a single line. */
  lemma SkillLinesClean(s: string)
    ensures forall x :: x in SkillLines(s) ==> x != "" && Trimmed(x) && '\n' !in x
  {
    SkillLinesAsSplit(s);
    TrimAllClean(Split(s, '\n'), '\n');
  }

  /** Lines joined with newlines come back as the bullets, trimmed, all of them and in order. */
  lemma SkillLinesOfJoin(lines: seq<string>)
    requires lines != [] && forall k :: 0 <= k < |lines| ==> '\n' !in lines[k] && !Blank(lines[k])
    ensures SkillLines(Join(lines, "\n")) == TrimAll(lines)
  {
    SkillLinesAsSplit(Join(lines, "\n"));
    SplitOfJoin(lines, '\n');
    KeepsUnblank(lines);
  }

  lemma {:induction false} RunsOfNewlines(s: string)
    requires forall i :: 0 <= i < |s| ==> s[i] == '\n'
    ensures forall x :: x in SplitRuns(s, '\n') ==> x == ""
  {
    if s != [] {
      RunsOfNewlines(s[1..]);
    }
  }

  /** A value made only of newlines gives no bullet at all (and no `-` either). */
  lemma NewlinesOnlyNoBullets(s: string)
    requires forall i :: 0 <= i < |s| ==> s[i] == '\n'
    ensures SkillLines(s) == []
  {
    RunsOfNewlines(s);
    var pieces := SplitRuns(s, '\n');
    var t := TrimAll(pieces);
    forall x | x in t
      ensures !NonEmpty(x)
    {
      var k :| 0 <= k < |t| && t[k] == x;
      assert pieces[k] in pieces;
    }
    FilterNone(NonEmpty, t);
  }

  /** Trimmed text that is not empty gives at least one bullet. */
  lemma TrimmedGivesBullet(s: string)
    requires s != "" && Trimmed(s)
    ensures SkillLines(s) != []
  {
    SkillLinesAsSplit(s);
    var pieces := Split(s, '\n');
    var first := pieces[0];
    assert first != "" && first[0] == s[0] by {
      assert pieces == [[s[0]] + Split(s[1..], '\n')[0]] + Split(s[1..], '\n')[1..];
    }
    TrimEmptyIffAllSpace(first);
    assert Trim(first) in TrimAll(pieces);
  }

  // ---- the page ----

  /** `` `${phone} / ${email}`.trim() ``. */
  function ContactLine(phone: string, email: string): (r: string)
    ensures Trimmed(r)
  {
    Trim(phone + " / " + email)
  }

  /** For trimmed parts the contact line is both around ` / `, one of them next to a bare `/`, or `/` alone
      when both are empty. */
  lemma ContactLineParts(phone: string, email: string)
    requires Trimmed(phone) && Trimmed(email)
    ensures phone != "" && email != "" ==> ContactLine(phone, email) == phone + " / " + email
    ensures phone == "" && email != "" ==> ContactLine(phone, email) == "/ " + email
    ensures phone != "" && email == "" ==> ContactLine(phone, email) == phone + " /"
    ensures phone == "" && email == "" ==> ContactLine(phone, email) == "/"
  {
    var s := phone + " / " + email;
    if phone != "" && email != "" {
      assert s[0] == phone[0] && s[|s| - 1] == email[|email| - 1];
      TrimNoSpaceEnds(s);
    } else if phone == "" {
      assert s == [' '] + ("/ " + email);
      TrimDropsLeadingSpace(' ', "/ " + email);
      if email != "" {
        var t := "/ " + email;
        assert t[|t| - 1] == email[|email| - 1];
        TrimNoSpaceEnds(t);
      } else {
        assert "/ " + email == "/" + [' '];
        TrimDropsTrailingSpace("/", ' ');
        TrimNoSpaceEnds("/");
      }
    } else {
      var t := phone + " /";
      assert s == t + [' '];
      TrimDropsTrailingSpace(t, ' ');
      assert t[0] == phone[0] && t[|t| - 1] == '/';
      TrimNoSpaceEnds(t);
    }
  }

  /** The skills section: bullets when there is generated text, the third answer or `-` otherwise. */
  function SkillsOf(p: ResumePayload): (r: Skills)
    ensures r.Bullets? <==> Text(p, "generated_cv_skills") != ""
    ensures r.Plain? ==> r.text != ""
  {
    if Text(p, "generated_cv_skills") != "" then Bullets(SkillLines(Text(p, "generated_cv_skills")))
    else Plain(Or(Text(p, "q3_cv"), "-"))
  }

  /** `CareerTemplate({ data: p })`. */
  function Render(p: ResumePayload): (r: Sheet)
    ensures r.title != "" && r.summary != "" && r.details != "" && r.pr != ""
  {
    Sheet(Or(Text(p, "name"), "職務経歴書"),
          Or(Text(p, "generated_cv_summary"), Text(p, "q1_cv")),
          ContactLine(Text(p, "phone"), Text(p, "email")),
          Or(Or(Text(p, "generated_cv_summary"), Text(p, "q1_cv")), "-"),
          Or(Or(Text(p, "generated_cv_details"), Text(p, "q2_cv")), "-"),
          SkillsOf(p),
          Or(Or(Or(Text(p, "generated_cv_pr"), Text(p, "q4_cv")), Text(p, "q5_cv")), "-"))
  }

  // ---- what the page shows ----

  /** The title falls back to 職務経歴書; the subtitle is the summary without its `-` fallback. */
  lemma TitleFallback(p: ResumePayload)
    ensures Render(p).title == (if Text(p, "name") != "" then Text(p, "name") else "職務経歴書")
    ensures Render(p).subtitle == "" ==> Render(p).summary == "-"
    ensures Render(p).subtitle != "" ==> Render(p).subtitle == Render(p).summary
  {
  }

  /** The summary and the details show the generated text, else the answer, else `-`. */
  lemma SectionFallbacks(p: ResumePayload)
    ensures Render(p).summary
            == (if Text(p, "generated_cv_summary") != "" then Text(p, "generated_cv_summary")
                else if Text(p, "q1_cv") != "" then Text(p, "q1_cv") else "-")
    ensures Render(p).details
            == (if Text(p, "generated_cv_details") != "" then Text(p, "generated_cv_details")
                else if Text(p, "q2_cv") != "" then Text(p, "q2_cv") else "-")
  {
  }

  /** The self-PR shows the generated text, else the fourth answer, else the fifth, else `-`. */
  lemma PrFallback(p: ResumePayload)
    ensures Render(p).pr
            == (if Text(p, "generated_cv_pr") != "" then Text(p, "generated_cv_pr")
                else if Text(p, "q4_cv") != "" then Text(p, "q4_cv")
                else if Text(p, "q5_cv") != "" then Text(p, "q5_cv") else "-")
  {
  }

  /** On a parsed payload, generated skills always give at least one bullet, each a trimmed single line. */
  lemma ParsedSkills(p: ResumePayload)
    requires Normal(p) && Text(p, "generated_cv_skills") != ""
    ensures Render(p).skills.Bullets? && Render(p).skills.lines != []
    ensures forall x :: x in Render(p).skills.lines ==> x != "" && Trimmed(x) && '\n' !in x
  {
    var s := Text(p, "generated_cv_skills");
    assert Trimmed(s);
    TrimmedGivesBullet(s);
    SkillLinesClean(s);
  }
}
