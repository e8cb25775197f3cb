/** The answers of the self-PR questionnaire: every field is trimmed before its length is checked. */
module SelfPrSchema {
  import opened Base
  import opened Strings
  import opened JsValue
  import opened Zod

  /** The achievement told as situation, task, action and result, with its metrics. */
  function Story(): seq<Entry>
  {
    [ Entry("achievementTitle", TrimmedText(3, 80)), Entry("situation", TrimmedText(10, 600)),
      Entry("task", TrimmedText(10, 400)), Entry("action", TrimmedText(10, 600)),
      Entry("result", TrimmedText(5, 400)), Entry("metrics", OptTrimmedText(200)) ]
  }

  /** Three strengths, each with an example, and the environment where they work best. */
  function Strengths(): seq<Entry>
  {
    [ Entry("strength1", TrimmedText(2, 30)), Entry("example1", TrimmedText(5, 300)),
      Entry("strength2", TrimmedText(2, 30)), Entry("example2", TrimmedText(5, 300)),
      Entry("strength3", TrimmedText(2, 30)), Entry("example3", TrimmedText(5, 300)),
      Entry("bestFit", TrimmedText(5, 300)) ]
  }

  /** What to avoid and up to three working principles. */
  function Principles(): seq<Entry>
  {
    [ Entry("avoid", OptTrimmedText(200)), Entry("principle1", OptTrimmedText(80)),
      Entry("principle2", OptTrimmedText(80)), Entry("principle3", OptTrimmedText(80)) ]
  }

  /** The value to offer in future: to whom, what, at which level, and the proof of it. */
  function Future(): seq<Entry>
  {
    [ Entry("futureTarget", TrimmedText(2, 80)), Entry("futureValue", TrimmedText(2, 120)),
      Entry("futureLevel", TrimmedText(2, 120)), Entry("futureProof", OptTrimmedText(400)) ]
  }

  function Shape(): (r: seq<Entry>)
    ensures |r| == 21
  {
    Story() + Strengths() + Principles() + Future()
  }

  /** `SelfPrAnswersSchema.safeParse(v)` as written: the trimmed answers, or `None` when invalid. */
  function Parse(v: Value): (r: Option<Value>)
    ensures r.Some? <==> v.Obj? && AllPass(Shape(), v)
    ensures r.Some? ==> r.value.Obj?
  {
    ParseObject(Shape(), v)
  }

  /** The same schema with its optional fields read as intended: blank text is absent. */
  function ParseIntended(v: Value): (r: Option<Value>)
    ensures r.Some? <==> v.Obj? && AllPass(Intended(Shape()), v)
    ensures r.Some? ==> r.value.Obj?
  {
    ParseObject(Intended(Shape()), v)
  }

  // ---- the rules in the questionnaire's own words ----

  /** A string whose trimmed length is within the bounds. */
  predicate Between(x: Value, lo: nat, hi: nat)
  {
    x.Str? && lo <= |Trim(x.s)| <= hi
  }

  /** Absent, or a string whose trimmed length is at most `hi` (the empty string included). */
  predicate Within(x: Value, hi: nat)
  {
    x.Undefined? || (x.Str? && |Trim(x.s)| <= hi)
  }

  predicate StoryValid(v: Value)
  {
    Between(Get(v, "achievementTitle"), 3, 80) && Between(Get(v, "situation"), 10, 600)
    && Between(Get(v, "task"), 10, 400) && Between(Get(v, "action"), 10, 600)
    && Between(Get(v, "result"), 5, 400) && Within(Get(v, "metrics"), 200)
  }

  predicate StrengthsValid(v: Value)
  {
    Between(Get(v, "strength1"), 2, 30) && Between(Get(v, "example1"), 5, 300)
    && Between(Get(v, "strength2"), 2, 30) && Between(Get(v, "example2"), 5, 300)
    && Between(Get(v, "strength3"), 2, 30) && Between(Get(v, "example3"), 5, 300)
    && Between(Get(v, "bestFit"), 5, 300)
  }

  predicate PrinciplesValid(v: Value)
  {
    Within(Get(v, "avoid"), 200) && Within(Get(v, "principle1"), 80) && Within(Get(v, "principle2"), 80)
    && Within(Get(v, "principle3"), 80)
  }

  predicate FutureValid(v: Value)
  {
    Between(Get(v, "futureTarget"), 2, 80) && Between(Get(v, "futureValue"), 2, 120)
    && Between(Get(v, "futureLevel"), 2, 120) && Within(Get(v, "futureProof"), 400)
  }

  /** The answers the questionnaire accepts. */
  predicate Valid(v: Value)
  {
    v.Obj? && StoryValid(v) && StrengthsValid(v) && PrinciplesValid(v) && FutureValid(v)
  }

  lemma BetweenRule(e: Entry, v: Value, lo: nat, hi: nat)
    requires e.rule == TrimmedText(lo, hi)
    ensures Passes(e, v) <==> Between(Get(v, e.key), lo, hi)
  {
  }

  lemma WithinRule(e: Entry, v: Value, hi: nat)
    requires e.rule == OptTrimmedText(hi)
    ensures Passes(e, v) <==> Within(Get(v, e.key), hi)
  {
  }

  lemma StoryRules(v: Value)
    ensures AllPass(Story(), v) <==> StoryValid(v)
  {
    var p := Story();
    AllPassSmall(p, v);
    BetweenRule(p[0], v, 3, 80);
    BetweenRule(p[1], v, 10, 600);
    BetweenRule(p[2], v, 10, 400);
    BetweenRule(p[3], v, 10, 600);
    BetweenRule(p[4], v, 5, 400);
    WithinRule(p[5], v, 200);
  }

  lemma StrengthsRules(v: Value)
    ensures AllPass(Strengths(), v) <==> StrengthsValid(v)
  {
    var p := Strengths();
    AllPassSmall(p, v);
    BetweenRule(p[0], v, 2, 30);
    BetweenRule(p[1], v, 5, 300);
    BetweenRule(p[2], v, 2, 30);
    BetweenRule(p[3], v, 5, 300);
    BetweenRule(p[4], v, 2, 30);
    BetweenRule(p[5], v, 5, 300);
    BetweenRule(p[6], v, 5, 300);
  }

  lemma PrinciplesRules(v: Value)
    ensures AllPass(Principles(), v) <==> PrinciplesValid(v)
  {
    var p := Principles();
    AllPassSmall(p, v);
    WithinRule(p[0], v, 200);
    WithinRule(p[1], v, 80);
    WithinRule(p[2], v, 80);
    WithinRule(p[3], v, 80);
  }

  lemma FutureRules(v: Value)
    ensures AllPass(Future(), v) <==> FutureValid(v)
  {
    var p := Future();
    AllPassSmall(p, v);
    BetweenRule(p[0], v, 2, 80);
    BetweenRule(p[1], v, 2, 120);
    BetweenRule(p[2], v, 2, 120);
    WithinRule(p[3], v, 400);
  }

  /** The schema accepts exactly the valid answers, and so does its intended reading. */
  lemma ParseIffValid(v: Value)
    ensures Parse(v).Some? <==> Valid(v)
    ensures ParseIntended(v).Some? <==> Valid(v)
  {
    AllPassAppend(Story(), Strengths(), v);
    AllPassAppend(Story() + Strengths(), Principles(), v);
    AllPassAppend(Story() + Strengths() + Principles(), Future(), v);
    StoryRules(v);
    StrengthsRules(v);
    PrinciplesRules(v);
    FutureRules(v);
    IntendedSameVerdict(Shape(), v);
  }

  /** A required answer made only of whitespace is rejected. */
  lemma BlankTitleRejected(v: Value)
    requires Get(v, "achievementTitle").Str? && Blank(Get(v, "achievementTitle").s)
    ensures Parse(v).None?
  {
    ParseIffValid(v);
  }

  // ---- what the parsed answers hold ----

  lemma ShapeRules()
    ensures forall i :: 0 <= i < |Shape()| ==> NeverEmpty(Intended(Shape())[i].rule)
    ensures forall i :: 0 <= i < |Shape()| ==> Trims(Shape()[i].rule) && Trims(Intended(Shape())[i].rule)
  {
    var s := Shape();
    forall i | 0 <= i < |s|
      ensures Trims(s[i].rule) && NeverEmpty(AsIntended(s[i]).rule)
    {
      if i < 6 {
        assert s[i] == Story()[i];
      } else if i < 13 {
        assert s[i] == Strengths()[i - 6];
      } else if i < 17 {
        assert s[i] == Principles()[i - 13];
      } else {
        assert s[i] == Future()[i - 17];
      }
    }
  }

  /** Every parsed answer is a trimmed string. */
  lemma ParsedTrimmed(v: Value)
    requires Parse(v).Some?
    ensures forall f :: f in Parse(v).value.fields ==> f.val.Str? && Trimmed(f.val.s)
  {
    ShapeRules();
    TrimmedFields(Shape(), v);
  }

  /** As written, a blank optional answer survives as the empty string: the `''` alternative of the union is
      never reached, so `metrics: "  "` parses to `metrics: ""` instead of leaving `metrics` out. */
  lemma BlankMetricsKept(v: Value)
    requires Parse(v).Some? && Get(v, "metrics").Str? && Blank(Get(v, "metrics").s)
    ensures Field("metrics", Str("")) in Parse(v).value.fields
  {
    var s := Shape();
    assert s[5] == Story()[5] == Entry("metrics", OptTrimmedText(200));
    assert Check(OptTrimmedText(200), Get(v, "metrics")) == Some(Str(""));
    FieldsKeep(s, v, 5);
    assert Parse(v).value.fields == Fields(s, v).value;
  }

  /** Read as intended, no parsed answer is empty: blank optional answers are left out, and every answer
      that is kept is trimmed text with something in it. */
  lemma IntendedNoBlank(v: Value)
    requires ParseIntended(v).Some?
    ensures forall f :: f in ParseIntended(v).value.fields ==> f.val.Str? && f.val.s != "" && Trimmed(f.val.s)
  {
    ShapeRules();
    TrimmedFields(Intended(Shape()), v);
  }
}
