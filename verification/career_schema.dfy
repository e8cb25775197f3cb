/** The answers of the career-history questionnaire: which answer objects validate, field by field. */
module CareerSchema {
  import opened Base
  import opened JsValue
  import opened Zod

  const EmploymentTypes: seq<string> := ["permanent", "contract", "parttime", "intern"]
  const Roles: seq<string> := ["IC", "Lead", "Mgr"]
  const WorkStyles: seq<string> := ["onsite", "hybrid", "remote"]

  /** The required text fields and the employment type. */
  function Position(): seq<Entry>
  {
    [ Entry("summary", Text(30, 600)), Entry("companyName", Text(2, 120)), Entry("department", OptText(120)),
      Entry("roleTitle", Text(2, 120)), Entry("employmentType", OneOf(EmploymentTypes)) ]
  }

  /** The end of the period: the only fields a cross-field rule could have related to the start. */
  function PeriodEnd(): seq<Entry>
  {
    [ Entry("endYm", OptYearMonth), Entry("isCurrent", OptBool) ]
  }

  /** The industry and the team. */
  function Team(): seq<Entry>
  {
    [ Entry("industry", OptText(120)), Entry("teamSize", OptInt(0, 5000)), Entry("directReports", OptInt(0, 500)) ]
  }

  /** The period, the industry and the team. */
  function Period(): seq<Entry>
  {
    [Entry("startYm", YearMonth)] + PeriodEnd() + Team()
  }

  /** The work itself. */
  function Work(): seq<Entry>
  {
    [ Entry("responsibilities", Text(20, 800)), Entry("toolsAndSkills", Text(2, 300)),
      Entry("deliverables", OptText(300)) ]
  }

  /** The six fields of achievement `n`, keyed `ach<n>_...`. */
  function Achievement(n: char): seq<Entry>
  {
    [ Entry("ach" + [n] + "_title", OptText(80)), Entry("ach" + [n] + "_goal", OptText(300)),
      Entry("ach" + [n] + "_actions", OptText(500)), Entry("ach" + [n] + "_result", OptText(300)),
      Entry("ach" + [n] + "_metrics", OptText(160)), Entry("ach" + [n] + "_role", OptOneOf(Roles)) ]
  }

  /** What the person is looking for next. */
  function Outlook(): seq<Entry>
  {
    [ Entry("targetRoles", OptText(200)), Entry("targetIndustries", OptText(200)),
      Entry("workStyle", OptOneOf(WorkStyles)), Entry("valueTarget", OptText(120)),
      Entry("valueWhat", OptText(160)), Entry("valueLevel", OptText(160)), Entry("proof", OptText(400)) ]
  }

  /** The whole schema, in declaration order. */
  function Shape(): (r: seq<Entry>)
    ensures |r| == 39
  {
    Position() + Period() + Work() + Achievement('1') + Achievement('2') + Achievement('3') + Outlook()
  }

  /** `CareerAnswersSchema.safeParse(v)`: the answers with unknown keys dropped, or `None` when invalid. */
  function Parse(v: Value): (r: Option<Value>)
    ensures r.Some? <==> v.Obj? && AllPass(Shape(), v)
    ensures r.Some? ==> r.value.Obj?
  {
    ParseObject(Shape(), v)
  }

  // ---- the rules in the questionnaire's own words ----

  /** A string whose length is between the bounds, spaces included. */
  predicate Length(x: Value, lo: nat, hi: nat)
  {
    x.Str? && lo <= |x.s| <= hi
  }

  /** Absent, or a string no longer than `hi`. */
  predicate AtMost(x: Value, hi: nat)
  {
    x.Undefined? || (x.Str? && |x.s| <= hi)
  }

  /** One of the listed words, exactly. */
  predicate Among(x: Value, words: seq<string>)
  {
    x.Str? && x.s in words
  }

  /** A count: absent, or a value that reads as a whole number between 0 and `hi`. */
  predicate Count(x: Value, hi: int)
  {
    x.Undefined? || (NumberOf(x).Some? && 0 <= NumberOf(x).value <= hi)
  }

  predicate PositionValid(v: Value)
  {
    Length(Get(v, "summary"), 30, 600) && Length(Get(v, "companyName"), 2, 120) && AtMost(Get(v, "department"), 120)
    && Length(Get(v, "roleTitle"), 2, 120) && Among(Get(v, "employmentType"), EmploymentTypes)
  }

  /** Both months are `YYYY-MM`, checked separately: nothing relates the end to the start or to `isCurrent`. */
  predicate PeriodValid(v: Value)
  {
    Get(v, "startYm").Str? && IsYearMonth(Get(v, "startYm").s)
    && (Get(v, "endYm").Undefined? || (Get(v, "endYm").Str? && IsYearMonth(Get(v, "endYm").s)))
    && (Get(v, "isCurrent").Undefined? || Get(v, "isCurrent").Bool?)
    && AtMost(Get(v, "industry"), 120) && Count(Get(v, "teamSize"), 5000) && Count(Get(v, "directReports"), 500)
  }

  predicate WorkValid(v: Value)
  {
    Length(Get(v, "responsibilities"), 20, 800) && Length(Get(v, "toolsAndSkills"), 2, 300)
    && AtMost(Get(v, "deliverables"), 300)
  }

  predicate AchievementValid(v: Value, n: char)
  {
    AtMost(Get(v, "ach" + [n] + "_title"), 80) && AtMost(Get(v, "ach" + [n] + "_goal"), 300)
    && AtMost(Get(v, "ach" + [n] + "_actions"), 500) && AtMost(Get(v, "ach" + [n] + "_result"), 300)
    && AtMost(Get(v, "ach" + [n] + "_metrics"), 160)
    && (Get(v, "ach" + [n] + "_role").Undefined? || Among(Get(v, "ach" + [n] + "_role"), Roles))
  }

  predicate OutlookValid(v: Value)
  {
    AtMost(Get(v, "targetRoles"), 200) && AtMost(Get(v, "targetIndustries"), 200)
    && (Get(v, "workStyle").Undefined? || Among(Get(v, "workStyle"), WorkStyles))
    && AtMost(Get(v, "valueTarget"), 120) && AtMost(Get(v, "valueWhat"), 160) && AtMost(Get(v, "valueLevel"), 160)
    && AtMost(Get(v, "proof"), 400)
  }

  /** The answers the questionnaire accepts: an object whose every field keeps its own rule. */
  predicate Valid(v: Value)
  {
    v.Obj? && PositionValid(v) && PeriodValid(v) && WorkValid(v)
    && AchievementValid(v, '1') && AchievementValid(v, '2') && AchievementValid(v, '3') && OutlookValid(v)
  }

  lemma InMeansAmong(s: string, words: seq<string>)
    ensures In(s, words) <==> s in words
  {
    if s in words {
      var i :| 0 <= i < |words| && words[i] == s;
    }
  }

  lemma TextRule(x: Value, lo: nat, hi: nat)
    ensures Check(Text(lo, hi), x).Some? <==> Length(x, lo, hi)
  {
  }

  lemma OptTextRule(x: Value, hi: nat)
    ensures Check(OptText(hi), x).Some? <==> AtMost(x, hi)
  {
  }

  lemma OneOfRule(x: Value, words: seq<string>)
    ensures Check(OneOf(words), x).Some? <==> Among(x, words)
  {
    if x.Str? {
      InMeansAmong(x.s, words);
    }
  }

  lemma OptOneOfRule(x: Value, words: seq<string>)
    ensures Check(OptOneOf(words), x).Some? <==> x.Undefined? || Among(x, words)
  {
    if x.Str? {
      InMeansAmong(x.s, words);
    }
  }

  lemma PositionRules(v: Value)
    ensures AllPass(Position(), v) <==> PositionValid(v)
  {
    var p := Position();
    TextRule(Get(v, "summary"), 30, 600);
    TextRule(Get(v, "companyName"), 2, 120);
    OptTextRule(Get(v, "department"), 120);
    TextRule(Get(v, "roleTitle"), 2, 120);
    OneOfRule(Get(v, "employmentType"), EmploymentTypes);
    AllPassSmall(p, v);
  }

  lemma MonthRule(x: Value)
    ensures Check(YearMonth, x).Some? <==> x.Str? && IsYearMonth(x.s)
    ensures Check(OptYearMonth, x).Some? <==> x.Undefined? || (x.Str? && IsYearMonth(x.s))
  {
  }

  lemma FlagRule(x: Value)
    ensures Check(OptBool, x).Some? <==> x.Undefined? || x.Bool?
  {
  }

  lemma CountRule(x: Value, hi: int)
    ensures Check(OptInt(0, hi), x).Some? <==> Count(x, hi)
  {
  }

  lemma PeriodRules(v: Value)
    ensures AllPass(Period(), v) <==> PeriodValid(v)
  {
    var p := Period();
    MonthRule(Get(v, "startYm"));
    MonthRule(Get(v, "endYm"));
    FlagRule(Get(v, "isCurrent"));
    OptTextRule(Get(v, "industry"), 120);
    CountRule(Get(v, "teamSize"), 5000);
    CountRule(Get(v, "directReports"), 500);
    AllPassSmall(p, v);
  }

  lemma WorkRules(v: Value)
    ensures AllPass(Work(), v) <==> WorkValid(v)
  {
    var p := Work();
    TextRule(Get(v, "responsibilities"), 20, 800);
    TextRule(Get(v, "toolsAndSkills"), 2, 300);
    OptTextRule(Get(v, "deliverables"), 300);
    AllPassSmall(p, v);
  }

  lemma AchievementRules(v: Value, n: char)
    ensures AllPass(Achievement(n), v) <==> AchievementValid(v, n)
  {
    var p := Achievement(n);
    OptTextRule(Get(v, p[0].key), 80);
    OptTextRule(Get(v, p[1].key), 300);
    OptTextRule(Get(v, p[2].key), 500);
    OptTextRule(Get(v, p[3].key), 300);
    OptTextRule(Get(v, p[4].key), 160);
    OptOneOfRule(Get(v, p[5].key), Roles);
    AllPassSmall(p, v);
  }

  lemma OutlookRules(v: Value)
    ensures AllPass(Outlook(), v) <==> OutlookValid(v)
  {
    var p := Outlook();
    OptTextRule(Get(v, "targetRoles"), 200);
    OptTextRule(Get(v, "targetIndustries"), 200);
    OptOneOfRule(Get(v, "workStyle"), WorkStyles);
    OptTextRule(Get(v, "valueTarget"), 120);
    OptTextRule(Get(v, "valueWhat"), 160);
    OptTextRule(Get(v, "valueLevel"), 160);
    OptTextRule(Get(v, "proof"), 400);
    AllPassSmall(p, v);
  }

  /** The schema accepts exactly the valid answers. */
  lemma ParseIffValid(v: Value)
    ensures Parse(v).Some? <==> Valid(v)
  {
    var a1, a2, a3 := Achievement('1'), Achievement('2'), Achievement('3');
    AllPassAppend(Position(), Period(), v);
    AllPassAppend(Position() + Period(), Work(), v);
    AllPassAppend(Position() + Period() + Work(), a1, v);
    AllPassAppend(Position() + Period() + Work() + a1, a2, v);
    AllPassAppend(Position() + Period() + Work() + a1 + a2, a3, v);
    AllPassAppend(Position() + Period() + Work() + a1 + a2 + a3, Outlook(), v);
    PositionRules(v);
    PeriodRules(v);
    WorkRules(v);
    AchievementRules(v, '1');
    AchievementRules(v, '2');
    AchievementRules(v, '3');
    OutlookRules(v);
  }

  /** The fields after the end of the period. */
  function Rest(): seq<Entry>
  {
    Team() + Work() + Achievement('1') + Achievement('2') + Achievement('3') + Outlook()
  }

  lemma ShapeAroundEnd()
    ensures Shape() == (Position() + [Entry("startYm", YearMonth)]) + PeriodEnd() + Rest()
  {
  }

  const EndKeys: set<string> := {"endYm", "isCurrent"}

  /** A key that differs from both period-end keys in its length or its first character. */
  predicate OtherKey(k: string)
  {
    k != [] && (|k| != 5 || k[0] != 'e') && (|k| != 9 || k[0] != 'i')
  }

  lemma AvoidsEndSmall(p: seq<Entry>)
    requires |p| <= 7
    requires (|p| > 0 ==> OtherKey(p[0].key)) && (|p| > 1 ==> OtherKey(p[1].key))
      && (|p| > 2 ==> OtherKey(p[2].key)) && (|p| > 3 ==> OtherKey(p[3].key))
      && (|p| > 4 ==> OtherKey(p[4].key)) && (|p| > 5 ==> OtherKey(p[5].key))
      && (|p| > 6 ==> OtherKey(p[6].key))
    ensures Avoids(p, EndKeys)
  {
    forall i | 0 <= i < |p|
      ensures p[i].key !in EndKeys
    {
      assert OtherKey(p[i].key);
    }
  }

  lemma BeforeAvoidsEnd()
    ensures Avoids(Position() + [Entry("startYm", YearMonth)], EndKeys)
  {
    AvoidsEndSmall(Position() + [Entry("startYm", YearMonth)]);
  }

  lemma RestAvoidsEnd()
    ensures Avoids(Rest(), EndKeys)
  {
    AvoidsEndSmall(Team());
    AvoidsEndSmall(Work());
    AvoidsEndSmall(Achievement('1'));
    AvoidsEndSmall(Achievement('2'));
    AvoidsEndSmall(Achievement('3'));
    AvoidsEndSmall(Outlook());
    AvoidsAppend(Team(), Work(), EndKeys);
    AvoidsAppend(Team() + Work(), Achievement('1'), EndKeys);
    AvoidsAppend(Team() + Work() + Achievement('1'), Achievement('2'), EndKeys);
    AvoidsAppend(Team() + Work() + Achievement('1') + Achievement('2'), Achievement('3'), EndKeys);
    AvoidsAppend(Team() + Work() + Achievement('1') + Achievement('2') + Achievement('3'), Outlook(), EndKeys);
  }

  lemma EndRulesPass(x: Value, y: Value)
    requires x.Str? && IsYearMonth(x.s) && y.Bool?
    ensures Check(OptYearMonth, x) == Some(x) && Check(OptBool, y) == Some(y)
  {
  }

  lemma EndPasses(w: Value)
    requires Get(w, "endYm").Str? && IsYearMonth(Get(w, "endYm").s) && Get(w, "isCurrent").Bool?
    ensures AllPass(PeriodEnd(), w)
  {
    var e := PeriodEnd();
    EndRulesPass(Get(w, "endYm"), Get(w, "isCurrent"));
    assert Passes(e[0], w) && Passes(e[1], w);
  }

  /** There is no cross-field rule: valid answers stay valid whatever well-formed end month and current flag
      they are given, so an end before the start, or a current position with an end, both validate. */
  lemma NoCrossFieldRule(v: Value, w: Value)
    requires AllPass(Shape(), v)
    requires forall k :: k !in EndKeys ==> Get(w, k) == Get(v, k)
    requires Get(w, "endYm").Str? && IsYearMonth(Get(w, "endYm").s) && Get(w, "isCurrent").Bool?
    ensures AllPass(Shape(), w)
  {
    var before, end, rest := Position() + [Entry("startYm", YearMonth)], PeriodEnd(), Rest();
    ShapeAroundEnd();
    BeforeAvoidsEnd();
    RestAvoidsEnd();
    EndPasses(w);
    MiddleDecides(before, end, rest, v, w, EndKeys);
  }
}
